/**
 * The pure half of `Publisher._pathtofile`: the date-partitioned directory
 * `str(y) sep str(m) sep str(d)` and the file path below it, built with
 * `os.sep.join` over a chain of one-element lists.
 */
module Paths {
  import opened Wrappers
  import opened Decimal

  /** The calendar date `_getdate` caches: year, numeric month and day, as `date.today()` gives them. */
  datatype Date = Date(year: nat, month: nat, day: nat)

  /** The name of the counter file inside each date directory. */
  const LockName: string := "publish.lock"

  /** `sep.join(parts)`. */
  function Join(sep: char, parts: seq<string>): string
    requires |parts| > 0
  {
    if |parts| == 1 then parts[0] else parts[0] + [sep] + Join(sep, parts[1..])
  }

  /** The components of `s` between separators; the inverse of Join on separator-free parts. */
  function Split(s: string, sep: char): (parts: seq<string>)
    ensures |parts| > 0
    ensures forall i :: 0 <= i < |parts| ==> sep !in parts[i]
  {
    if |s| == 0 then [""]
    else
      var rest := Split(s[1..], sep);
      if s[0] == sep then [""] + rest
      else [[s[0]] + rest[0]] + rest[1..]
  }

  /** `sep.join(parts)` starts with the first part, ends with the last, and separates them when there are several. */
  lemma {:induction false} JoinEnds(sep: char, parts: seq<string>)
    requires |parts| > 0
    ensures var s := Join(sep, parts); var last := parts[|parts| - 1];
      && parts[0] <= s
      && |s| >= |last| && s[|s| - |last|..] == last
      && (|parts| > 1 ==> |s| > |parts[0]| + |last|)
    decreases |parts|
  {
    if |parts| > 1 {
      JoinEnds(sep, parts[1..]);
    }
  }

  /** `it(x)` for a date field: the one-element list `[str(x)]`. */
  function It(x: nat): seq<string> {
    [NatToString(x)]
  }

  /**
   * The date directory: `os.sep.join(chain(it(y), it(m), it(d)))`. It is a
   * relative path that starts and ends with a digit.
   */
  function DateDir(sep: char, d: Date): (dir: string)
    ensures |dir| > 0 && IsDigit(dir[0]) && IsDigit(dir[|dir| - 1])
  {
    JoinEnds(sep, It(d.year) + It(d.month) + It(d.day));
    Join(sep, It(d.year) + It(d.month) + It(d.day))
  }

  /**
   * The path `_pathtofile(f)` returns: `os.sep.join(chain(it(dirpath), it(f)))`.
   * It is relative (it starts with the year's first digit), and the
   * separator comes right before the last `|f|` characters.
   */
  function FilePath(sep: char, d: Date, f: string): (p: string)
    ensures |p| > |f| + 1 && IsDigit(p[0]) && p[|p| - |f| - 1] == sep
  {
    JoinEnds(sep, [DateDir(sep, d), f]);
    Join(sep, [DateDir(sep, d), f])
  }

  /** Where `_nextpath` keeps its counter for the date `d`. */
  function LockPath(sep: char, d: Date): string {
    FilePath(sep, d, LockName)
  }

  /** Reads a date back from a directory name built by DateDir. */
  function ParseDateDir(sep: char, dir: string): Option<Date> {
    var parts := Split(dir, sep);
    if |parts| != 3 then None
    else
      match (ParseNat(parts[0]), ParseNat(parts[1]), ParseNat(parts[2]))
      case (Some(y), Some(m), Some(dd)) => Some(Date(y, m, dd))
      case _ => None
  }

  lemma {:induction false} SplitPrefix(a: string, r: string, sep: char)
    requires sep !in a
    ensures Split(a + r, sep) == [a + Split(r, sep)[0]] + Split(r, sep)[1..]
    decreases |a|
  {
    if |a| > 0 {
      assert (a + r)[1..] == a[1..] + r;
      assert (a + r)[0] == a[0];
      SplitPrefix(a[1..], r, sep);
      assert [a[0]] + (a[1..] + Split(r, sep)[0]) == a + Split(r, sep)[0];
    } else {
      var parts := Split(r, sep);
      assert a + r == r;
      assert parts == [parts[0]] + parts[1..];
      assert a + parts[0] == parts[0];
    }
  }

  /** Splitting what Join produced gives back the parts, provided no part contains the separator. */
  lemma {:induction false} SplitJoin(sep: char, parts: seq<string>)
    requires |parts| > 0
    requires forall i :: 0 <= i < |parts| ==> sep !in parts[i]
    ensures Split(Join(sep, parts), sep) == parts
    decreases |parts|
  {
    if |parts| == 1 {
      SplitPrefix(parts[0], "", sep);
      assert parts[0] + "" == parts[0];
    } else {
      var tail := Join(sep, parts[1..]);
      SplitJoin(sep, parts[1..]);
      SplitPrefix(parts[0], [sep] + tail, sep);
      assert parts[0] + [sep] + tail == parts[0] + ([sep] + tail);
      assert ([sep] + tail)[1..] == tail;
      assert Split([sep] + tail, sep) == [""] + parts[1..];
      assert parts[0] + "" == parts[0];
    }
  }

  lemma DigitsHaveNoSeparator(sep: char, n: nat)
    requires !IsDigit(sep)
    ensures sep !in NatToString(n)
  {
  }

  /** The directory has exactly three components: the unpadded year, numeric month and day. */
  lemma DateDirComponents(sep: char, d: Date)
    requires !IsDigit(sep)
    ensures Split(DateDir(sep, d), sep) == [NatToString(d.year), NatToString(d.month), NatToString(d.day)]
  {
    DigitsHaveNoSeparator(sep, d.year);
    DigitsHaveNoSeparator(sep, d.month);
    DigitsHaveNoSeparator(sep, d.day);
    SplitJoin(sep, It(d.year) + It(d.month) + It(d.day));
  }

  /** The directory name determines the date: reading it back yields the date it was built from. */
  lemma DateDirRoundTrip(sep: char, d: Date)
    requires !IsDigit(sep)
    ensures ParseDateDir(sep, DateDir(sep, d)) == Some(d)
  {
    DateDirComponents(sep, d);
    ParseNatToString(d.year);
    ParseNatToString(d.month);
    ParseNatToString(d.day);
  }

  /** Distinct dates get distinct directories, so two days never share a counter file. */
  lemma DateDirInjective(sep: char, d1: Date, d2: Date)
    requires !IsDigit(sep)
    requires DateDir(sep, d1) == DateDir(sep, d2)
    ensures d1 == d2
  {
    DateDirRoundTrip(sep, d1);
    DateDirRoundTrip(sep, d2);
  }

  /** The file path is the date directory, one separator, then exactly `f`. */
  lemma FilePathShape(sep: char, d: Date, f: string)
    ensures var dir := DateDir(sep, d); var p := FilePath(sep, d, f);
      |p| == |dir| + 1 + |f| && p[..|dir|] == dir && p[|dir|] == sep && p[|dir| + 1..] == f
  {
    var dir := DateDir(sep, d);
    assert FilePath(sep, d, f) == dir + [sep] + Join(sep, [f]);
  }

  lemma {:induction false} JoinAppend(sep: char, parts: seq<string>, f: string)
    requires |parts| > 0
    ensures Join(sep, parts + [f]) == Join(sep, parts) + [sep] + f
    decreases |parts|
  {
    if |parts| > 1 {
      assert (parts + [f])[1..] == parts[1..] + [f];
      JoinAppend(sep, parts[1..], f);
    }
  }

  /** Split into components, the file path is year, month, day and then `f` as its last component. */
  lemma FilePathComponents(sep: char, d: Date, f: string)
    requires !IsDigit(sep) && sep !in f
    ensures Split(FilePath(sep, d, f), sep)
      == [NatToString(d.year), NatToString(d.month), NatToString(d.day), f]
  {
    DigitsHaveNoSeparator(sep, d.year);
    DigitsHaveNoSeparator(sep, d.month);
    DigitsHaveNoSeparator(sep, d.day);
    var dirParts := It(d.year) + It(d.month) + It(d.day);
    JoinAppend(sep, dirParts, f);
    assert [DateDir(sep, d), f][1..] == [f];
    assert Join(sep, [f]) == f;
    assert DateDir(sep, d) == Join(sep, dirParts);
    assert FilePath(sep, d, f) == Join(sep, dirParts) + [sep] + f;
    SplitJoin(sep, dirParts + [f]);
  }

  /** Within one directory, distinct file names give distinct paths. */
  lemma FilePathInjective(sep: char, d: Date, f1: string, f2: string)
    requires FilePath(sep, d, f1) == FilePath(sep, d, f2)
    ensures f1 == f2
  {
    FilePathShape(sep, d, f1);
    FilePathShape(sep, d, f2);
  }

  lemma YearExample()
    ensures NatToString(2024) == "2024"
  {
    assert DigitChar(0) == '0' && DigitChar(2) == '2' && DigitChar(4) == '4';
    assert NatToString(2) == "2";
    assert NatToString(20) == "20";
    assert NatToString(202) == "202";
  }

  /** (2024, 3, 7) is laid out as `2024/3/7`: month numeric and unpadded. */
  lemma DateDirExample()
    ensures DateDir('/', Date(2024, 3, 7)) == "2024/3/7"
  {
    assert DigitChar(3) == '3' && DigitChar(7) == '7';
    YearExample();
    assert NatToString(3) == "3";
    assert NatToString(7) == "7";
    var parts := It(2024) + It(3) + It(7);
    assert parts == ["2024", "3", "7"];
    assert parts[1..] == ["3", "7"] && parts[1..][1..] == ["7"];
    assert Join('/', ["7"]) == "7";
    assert Join('/', ["3", "7"]) == "3" + "/" + "7";
    assert Join('/', parts) == "2024" + "/" + Join('/', ["3", "7"]);
    assert DateDir('/', Date(2024, 3, 7)) == "2024" + "/" + "3" + "/" + "7";
  }

  /** The counter file for (2024, 3, 7) sits directly in that date's directory. */
  lemma LockPathExample()
    ensures LockPath('/', Date(2024, 3, 7)) == "2024/3/7/publish.lock"
  {
    DateDirExample();
    var dir := DateDir('/', Date(2024, 3, 7));
    assert [dir, LockName][1..] == [LockName];
    assert LockPath('/', Date(2024, 3, 7)) == dir + "/" + LockName;
  }
}
