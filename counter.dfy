/**
 * The counter-file step of `Publisher._nextpath`, as a function of the file's
 * content: read the first line, parse it, then write `"{n+1}\n"` at offset 0
 * without truncating; a file that cannot be opened is written as `"1\n"`.
 */
module Counter {
  import opened Wrappers
  import opened Decimal

  /** `readline()` from the start of `c`: everything up to and including the first newline, or all of `c`. */
  function FirstLine(c: string): (line: string)
    ensures |line| <= |c|
    ensures |line| > 0 <==> |c| > 0
  {
    if |c| == 0 then []
    else if c[0] == '\n' then ['\n']
    else [c[0]] + FirstLine(c[1..])
  }

  /** `int(line)`: the line's terminating newline is ignored, the rest must be a signed decimal. */
  function ParseLine(line: string): (r: Option<int>)
    ensures r.Some? ==> |line| > 0 && line[0] != '\n'
  {
    var body := if |line| > 0 && line[|line| - 1] == '\n' then line[..|line| - 1] else line;
    ParseInt(body)
  }

  /** `seek(pos)` then `write(t)` on content `c`: overwrites in place and extends only past the end. */
  function WriteAt(c: string, pos: nat, t: string): (r: string)
    requires pos <= |c|
    ensures |r| >= |c| && |r| >= pos + |t|
  {
    c[..pos] + t + (if pos + |t| < |c| then c[pos + |t|..] else [])
  }

  /** `readline()` returns a prefix of the content that holds no newline except possibly as its last character. */
  lemma {:induction false} FirstLineSpec(c: string)
    ensures var line := FirstLine(c);
      && line <= c
      && (forall i :: 0 <= i < |line| - 1 ==> line[i] != '\n')
      && (line == c || (|line| > 0 && line[|line| - 1] == '\n'))
  {
    if |c| > 0 && c[0] != '\n' {
      FirstLineSpec(c[1..]);
    }
  }

  /** A write at `pos` replaces exactly the characters it covers and keeps every other one. */
  lemma WriteAtSpec(c: string, pos: nat, t: string)
    requires pos <= |c|
    ensures var r := WriteAt(c, pos, t);
      && |r| == (if pos + |t| <= |c| then |c| else pos + |t|)
      && r[..pos] == c[..pos] && r[pos..pos + |t|] == t
      && (forall i :: pos + |t| <= i < |c| ==> r[i] == c[i])
  {
  }

  /** The `ValueError` that `int()` raises on a first line that is not a number. */
  datatype Error = CorruptCounter

  /** What one step returns (the id, or the error it raises) and the counter file's content afterwards. */
  datatype Step = Step(id: Result<int, Error>, content: string)

  /**
   * One `_nextpath` step on the counter file; `None` means opening it with
   * mode `'r+'` raised `IOError` (it is missing, for one).
   */
  function Advance(file: Option<string>): (s: Step)
    ensures s.id.Failure? ==> file.Some? && s.content == file.value
    ensures file.Some? ==> |s.content| >= |file.value|
  {
    match file
    case None => Step(Success(1), "1\n")
    case Some(c) =>
      match ParseLine(FirstLine(c))
      case None => Step(Failure(CorruptCounter), c)
      case Some(n) => Step(Success(n + 1), WriteAt(c, 0, IntToString(n + 1) + "\n"))
  }

  /** The text `"{v}\n"` that `_nextpath` writes for the value `v`. */
  function Record(v: int): string {
    IntToString(v) + "\n"
  }

  /** A newline-free text followed by a newline is read back as exactly that line, whatever follows. */
  lemma {:induction false} FirstLineOfRecord(t: string, rest: string)
    requires '\n' !in t
    ensures FirstLine(t + "\n" + rest) == t + "\n"
    decreases |t|
  {
    if |t| > 0 {
      assert (t + "\n" + rest)[1..] == t[1..] + "\n" + rest;
      FirstLineOfRecord(t[1..], rest);
      assert [t[0]] + (t[1..] + "\n") == t + "\n";
    }
  }

  /** The line `_nextpath` writes parses back to the value written. */
  lemma ParseRecord(v: int, rest: string)
    ensures ParseLine(FirstLine(Record(v) + rest)) == Some(v)
  {
    FirstLineOfRecord(IntToString(v), rest);
    assert Record(v) + rest == IntToString(v) + "\n" + rest;
    ParseIntToString(v);
    var line := IntToString(v) + "\n";
    assert line[..|line| - 1] == IntToString(v);
  }

  /**
   * The no-stale-bytes property of the non-truncating rewrite: a counter file holding
   * exactly `"n\n"` with `n >= 0` holds exactly `"(n+1)\n"` afterwards and the
   * step returns `n + 1`; nothing stale remains because `str(n+1)` is never
   * shorter than `str(n)`.
   */
  lemma NoStaleBytes(n: nat)
    ensures Advance(Some(Record(n))) == Step(Success(n + 1), Record(n + 1))
  {
    ParseRecord(n, "");
    assert Record(n) + "" == Record(n);
    NatToStringLengthMonotone(n);
    var r := WriteAt(Record(n), 0, Record(n + 1));
    WriteAtSpec(Record(n), 0, Record(n + 1));
    assert |r| == |Record(n + 1)|;
    assert r == r[0..|Record(n + 1)|];
  }

  /**
   * Whatever the content, a successful step rewrites only the first
   * `len(str(n+1)) + 1` characters; every later character is left as it was.
   */
  lemma RewriteKeepsTail(c: string)
    requires ParseLine(FirstLine(c)).Some?
    ensures var n := ParseLine(FirstLine(c)).value;
      var s := Advance(Some(c));
      var t := Record(n + 1);
      && s.id == Success(n + 1)
      && |s.content| == (if |t| <= |c| then |c| else |t|)
      && s.content[..|t|] == t
      && (forall i :: |t| <= i < |c| ==> s.content[i] == c[i])
  {
    var n := ParseLine(FirstLine(c)).value;
    var t := Record(n + 1);
    var r := WriteAt(c, 0, t);
    WriteAtSpec(c, 0, t);
    assert Advance(Some(c)) == Step(Success(n + 1), r);
    assert r[..|t|] == r[0..|t|] == t;
  }

  /**
   * Even when stale characters remain (exactly when the old content is longer
   * than the new record `"{n+1}\n"`, e.g. after a sign or leading zeros), the
   * next read sees exactly the value written: the first line is always the new
   * record.
   */
  lemma AdvanceThenRead(c: string)
    requires ParseLine(FirstLine(c)).Some?
    ensures ParseLine(FirstLine(Advance(Some(c)).content)) == Some(ParseLine(FirstLine(c)).value + 1)
  {
    var n := ParseLine(FirstLine(c)).value;
    var t := Record(n + 1);
    var r := Advance(Some(c)).content;
    var rest := r[|t|..];
    WriteAtSpec(c, 0, t);
    assert r == t + rest;
    ParseRecord(n + 1, rest);
  }

  /** A first line that is not a number is an error, and the content is left untouched. */
  lemma CorruptLeavesContent(c: string)
    requires ParseLine(FirstLine(c)).None?
    ensures Advance(Some(c)) == Step(Failure(CorruptCounter), c)
  {
  }

  /** `"abc\n"` is refused rather than read as 0 or 1. */
  lemma CorruptExample()
    ensures Advance(Some("abc\n")).id == Failure(CorruptCounter)
  {
    assert FirstLine("abc\n") == "abc\n" by {
      FirstLineOfRecord("abc", "");
      assert "abc" + "\n" + "" == "abc\n";
    }
    var body := "abc\n"[..3];
    assert body == "abc";
    assert !IsDigit(body[0]);
  }

  /** With a negative counter the rewrite is shorter and leaves a stray newline: `"-10\n"` becomes `"-9\n\n"`. */
  lemma NegativeLeavesStrayByte()
    ensures Advance(Some("-10\n")) == Step(Success(-9), "-9\n\n")
  {
    assert DigitChar(1) == '1' && DigitChar(0) == '0' && DigitChar(9) == '9';
    assert NatToString(10) == "10";
    assert NatToString(9) == "9";
    assert IntToString(-10) == "-10";
    assert Record(-10) + "" == "-10\n";
    ParseRecord(-10, "");
    assert IntToString(-9) == "-9";
    var r := WriteAt("-10\n", 0, "-9\n");
    assert r == "-9\n" + "\n";
  }

  /** An explicit plus sign is accepted by `int` and dropped by the rewrite: `"+5\n"` becomes `"6\n\n"`. */
  lemma PlusSignLeavesStrayByte()
    ensures Advance(Some("+5\n")) == Step(Success(6), "6\n\n")
  {
    assert DigitChar(5) == '5' && DigitChar(6) == '6';
    FirstLineOfRecord("+5", "");
    assert "+5" + "\n" + "" == "+5\n";
    assert "+5\n"[..2] == "+5" && "+5"[1..] == "5";
    assert ParseNat("5") == Some(5);
    assert IntToString(6) == "6";
    var r := WriteAt("+5\n", 0, "6\n");
    assert r == "6\n" + "\n";
  }
}
