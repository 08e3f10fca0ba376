/**
 * `Publisher`: caches the date on first use, derives paths under the date
 * directory, and allocates the next id from that directory's counter file.
 */
module Publish {
  import opened Wrappers
  import opened Decimal
  import opened Paths
  import opened Counter
  import opened Files

  /** `_getdate`: the cached date if there is one, otherwise the date read now. */
  function CachedDate(cache: Option<Date>, today: Date): Date {
    cache.GetOr(today)
  }

  /**
   * The date is read at most once: after a first call caches it, later calls
   * return that date whatever the clock says, so their paths share one directory.
   */
  lemma CachedDateStable(cache: Option<Date>, first: Date, later: Date)
    ensures CachedDate(Some(CachedDate(cache, first)), later) == CachedDate(cache, first)
  {
  }

  /** What one `_nextpath` call sees and leaves: the cached date and the host's files. */
  datatype State = State(date: Option<Date>, files: map<string, string>)

  /** One `_nextpath` call as a function of the state and of what the clock says now. */
  function Next(sep: char, s: State, today: Date): (r: (Result<int, Error>, State))
    ensures r.1.date == Some(CachedDate(s.date, today))
    ensures LockPath(sep, CachedDate(s.date, today)) in r.1.files
    ensures r.0.Failure? ==> r.1.files == s.files
  {
    var d := CachedDate(s.date, today);
    var p := LockPath(sep, d);
    var step := Advance(if p in s.files then Some(s.files[p]) else None);
    (step.id, State(Some(d), s.files[p := step.content]))
  }

  /** The ids a run of calls returned, in call order, and the state it leaves. */
  datatype Run = Run(ids: seq<Result<int, Error>>, last: State)

  /** One `_nextpath` call as a value, for running several in a row. */
  function NextStep(sep: char): (State, Date) -> (Result<int, Error>, State) {
    (s: State, today: Date) => Next(sep, s, today)
  }

  /** Consecutive calls of `step`, the clock reading `todays[i]` at the i-th. */
  function Iterate(step: (State, Date) -> (Result<int, Error>, State), s: State, todays: seq<Date>): Run
    decreases |todays|
  {
    if |todays| == 0 then Run([], s)
    else
      var r := step(s, todays[0]);
      var rest := Iterate(step, r.1, todays[1..]);
      Run([r.0] + rest.ids, rest.last)
  }

  /** Consecutive `_nextpath` calls on one Publisher, the clock reading `todays[i]` at the i-th. */
  function Session(sep: char, s: State, todays: seq<Date>): Run {
    Iterate(NextStep(sep), s, todays)
  }

  class Publisher {
    /** `os.sep` of the host. */
    const sep: char
    /** `self._date`: None until the first `_getdate`. */
    var date: Option<Date>

    constructor (sep: char)
      ensures this.sep == sep && date == None
    {
      this.sep := sep;
      date := None;
    }

    /** `_getdate`; `today` is what `date.today()` would return, read only when nothing is cached. */
    method GetDate(today: Date) returns (d: Date)
      modifies this
      ensures old(date).Some? ==> d == old(date).value
      ensures old(date).None? ==> d == today
      ensures date == Some(d)
    {
      if date.None? {
        date := Some(today);
      }
      d := date.value;
    }

    /** `_pathtofile(f)`: the date directory, the separator, then `f`. */
    method PathToFile(f: string, today: Date) returns (p: string)
      modifies this
      ensures date == Some(CachedDate(old(date), today))
      ensures p == FilePath(sep, CachedDate(old(date), today), f)
    {
      var d := GetDate(today);
      var dirpath := Join(sep, It(d.year) + It(d.month) + It(d.day));
      p := Join(sep, [dirpath, f]);
    }

    /**
     * `_nextpath`: allocate the next id from today's counter file. If the
     * file cannot be opened for update, write `"1\n"` and return 1 instead.
     */
    method NextPath(today: Date, disk: Disk) returns (r: Result<int, Error>)
      requires LockPath(sep, CachedDate(date, today)) !in disk.locks
      modifies this, disk
      ensures (r, State(date, disk.files)) == Next(sep, State(old(date), old(disk.files)), today)
      ensures disk.locks == old(disk.locks)
    {
      var lockpath := PathToFile(LockName, today);
      assert lockpath == LockPath(sep, CachedDate(old(date), today));
      if lockpath in disk.files {
        r := UpdateCounter(disk, lockpath);
      } else {
        var now := CreateCounter(disk, lockpath);
        r := Success(now);
      }
    }
  }

  /**
   * The `try` block of `_nextpath`: under the file's lock, read the first line,
   * parse it, and write the successor at offset 0 without truncating. A
   * first line that is not a number raises, leaving the file as it was. The
   * lock is released on both paths out.
   */
  method UpdateCounter(disk: Disk, lockpath: string) returns (r: Result<int, Error>)
    requires lockpath in disk.files && lockpath !in disk.locks
    modifies disk
    ensures var step := Advance(Some(old(disk.files[lockpath])));
      r == step.id && disk.files == old(disk.files)[lockpath := step.content]
    ensures disk.locks == old(disk.locks)
  {
    ghost var content := disk.files[lockpath];
    var lf := new LockedFile.OpenUpdate(disk, lockpath);
    var f := lf.file;
    var line := f.ReadLine();
    assert line == FirstLine(content) by {
      assert content[0..] == content;
    }
    var n := ParseLine(line);
    if n.None? {
      // int() raised ValueError; leaving the with block still runs _close
      lf.Close();
      assert disk.files == old(disk.files)[lockpath := content];
      return Failure(CorruptCounter);
    }
    var now := 1 + n.value;
    f.SeekStart();
    f.Write(Record(now));
    lf.Close();
    r := Success(now);
  }

  /** The `except IOError` block of `_nextpath`: create or truncate the file, write `"1\n"` under its lock. */
  method CreateCounter(disk: Disk, lockpath: string) returns (now: int)
    requires lockpath !in disk.locks
    modifies disk
    ensures now == 1 && disk.files == old(disk.files)[lockpath := "1\n"]
    ensures disk.locks == old(disk.locks)
  {
    var lf := new LockedFile.OpenTruncate(disk, lockpath);
    lf.file.Write("1\n");
    now := 1;
    lf.Close();
    assert WriteAt("", 0, "1\n") == "1\n";
  }

  /** The state after calls that cached `d`, with the counter file for `d` holding exactly `"k\n"`. */
  ghost predicate CountAt(sep: char, s: State, d: Date, k: nat) {
    s.date == Some(d) && LockPath(sep, d) in s.files && s.files[LockPath(sep, d)] == Record(k)
  }

  /**
   * A call whose counter file (for the cached date, or for today on a new
   * Publisher) holds exactly `"k\n"` returns k+1 and leaves exactly
   * `"(k+1)\n"`, nothing else changed.
   */
  lemma NextOnRecord(sep: char, s: State, d: Date, k: nat, today: Date)
    requires CachedDate(s.date, today) == d
    requires LockPath(sep, d) in s.files && s.files[LockPath(sep, d)] == Record(k)
    ensures Next(sep, s, today).0 == Success(k + 1)
    ensures Next(sep, s, today).1 == State(Some(d), s.files[LockPath(sep, d) := Record(k + 1)])
    ensures CountAt(sep, Next(sep, s, today).1, d, k + 1)
  {
    NoStaleBytes(k);
  }

  /**
   * A call whose counter file does not exist yet takes the `except IOError`
   * branch: it returns 1 and leaves exactly `"1\n"`, nothing else changed.
   */
  lemma NextOnMissing(sep: char, s: State, d: Date, today: Date)
    requires CachedDate(s.date, today) == d && LockPath(sep, d) !in s.files
    ensures Next(sep, s, today).0 == Success(1)
    ensures Next(sep, s, today).1 == State(Some(d), s.files[LockPath(sep, d) := Record(1)])
    ensures CountAt(sep, Next(sep, s, today).1, d, 1)
  {
    assert Record(1) == "1\n" by {
      assert DigitChar(1) == '1';
    }
  }

  /** `step` never changes a cached date `d`. */
  ghost predicate KeepsDate(step: (State, Date) -> (Result<int, Error>, State), d: Date) {
    forall s: State, today: Date :: s.date == Some(d) ==> step(s, today).1.date == Some(d)
  }

  /** The counter for `d` holds exactly `k`, as a value to hand to the lemmas about runs. */
  ghost function CounterIs(sep: char, d: Date): (State, nat) -> bool {
    (s: State, k: nat) => CountAt(sep, s, d, k)
  }

  /** From any state where the counter holds `k`, `step` returns `k + 1` and leaves it holding `k + 1`. */
  ghost predicate CountsUp(step: (State, Date) -> (Result<int, Error>, State), counter: (State, nat) -> bool) {
    forall s: State, today: Date, k: nat {:trigger counter(s, k), step(s, today)} ::
      counter(s, k) ==> step(s, today).0 == Success(k + 1) && counter(step(s, today).1, k + 1)
  }

  lemma NextStepKeepsDate(sep: char, d: Date)
    ensures KeepsDate(NextStep(sep), d)
  {
  }

  lemma NextStepCountsUp(sep: char, d: Date)
    ensures CountsUp(NextStep(sep), CounterIs(sep, d))
  {
    forall s: State, today: Date, k: nat | CountAt(sep, s, d, k)
      ensures NextStep(sep)(s, today).0 == Success(k + 1) && CountAt(sep, NextStep(sep)(s, today).1, d, k + 1)
    {
      NextOnRecord(sep, s, d, k, today);
    }
  }

  lemma {:induction false} IterateKeepsDate(step: (State, Date) -> (Result<int, Error>, State), d: Date, s: State, todays: seq<Date>)
    requires KeepsDate(step, d) && s.date == Some(d)
    ensures Iterate(step, s, todays).last.date == Some(d)
    decreases |todays|
  {
    if |todays| > 0 {
      IterateKeepsDate(step, d, step(s, todays[0]).1, todays[1..]);
    }
  }

  lemma {:induction false} IterateLength(step: (State, Date) -> (Result<int, Error>, State), s: State, todays: seq<Date>)
    ensures |Iterate(step, s, todays).ids| == |todays|
    decreases |todays|
  {
    if |todays| > 0 {
      IterateLength(step, step(s, todays[0]).1, todays[1..]);
    }
  }

  lemma {:induction false} IterateIdAt(step: (State, Date) -> (Result<int, Error>, State), counter: (State, nat) -> bool,
                                       s: State, k: nat, todays: seq<Date>, i: nat)
    requires CountsUp(step, counter) && counter(s, k)
    requires i < |todays|
    ensures var ids := Iterate(step, s, todays).ids;
      i < |ids| && ids[i] == Success(k + 1 + i)
    decreases i
  {
    var r := step(s, todays[0]);
    var rest := Iterate(step, r.1, todays[1..]);
    IterateLength(step, r.1, todays[1..]);
    if i > 0 {
      IterateIdAt(step, counter, r.1, k + 1, todays[1..], i - 1);
      assert ([r.0] + rest.ids)[i] == rest.ids[i - 1];
      assert (k + 1) + 1 + (i - 1) == k + 1 + i;
    }
  }

  lemma {:induction false} IterateLastRecord(step: (State, Date) -> (Result<int, Error>, State), counter: (State, nat) -> bool,
                                             s: State, k: nat, todays: seq<Date>)
    requires CountsUp(step, counter) && counter(s, k)
    ensures counter(Iterate(step, s, todays).last, k + |todays|)
    decreases |todays|
  {
    if |todays| > 0 {
      var r := step(s, todays[0]);
      IterateLastRecord(step, counter, r.1, k + 1, todays[1..]);
      assert (k + 1) + |todays[1..]| == k + |todays|;
    }
  }

  /** Calls of a counting `step` from a counter holding `k` return k+1, k+2, … and leave `k + m`. */
  lemma IterateCounts(step: (State, Date) -> (Result<int, Error>, State), counter: (State, nat) -> bool,
                      s: State, k: nat, todays: seq<Date>)
    requires CountsUp(step, counter) && counter(s, k)
    ensures |Iterate(step, s, todays).ids| == |todays|
    ensures forall i :: 0 <= i < |todays| ==> Iterate(step, s, todays).ids[i] == Success(k + 1 + i)
    ensures counter(Iterate(step, s, todays).last, k + |todays|)
  {
    IterateLength(step, s, todays);
    forall i | 0 <= i < |todays|
      ensures Iterate(step, s, todays).ids[i] == Success(k + 1 + i)
    {
      IterateIdAt(step, counter, s, k, todays, i);
    }
    IterateLastRecord(step, counter, s, k, todays);
  }

  /** A run whose first call returns `k + 1` and leaves the counter holding `k + 1`, with a counting `step`, returns k+1, …, k+N. */
  lemma IterateFromFirst(step: (State, Date) -> (Result<int, Error>, State), counter: (State, nat) -> bool,
                         s: State, k: nat, todays: seq<Date>)
    requires CountsUp(step, counter) && |todays| > 0
    requires step(s, todays[0]).0 == Success(k + 1) && counter(step(s, todays[0]).1, k + 1)
    ensures |Iterate(step, s, todays).ids| == |todays|
    ensures forall i :: 0 <= i < |todays| ==> Iterate(step, s, todays).ids[i] == Success(k + 1 + i)
    ensures counter(Iterate(step, s, todays).last, k + |todays|)
  {
    var s' := step(s, todays[0]).1;
    IterateCounts(step, counter, s', k + 1, todays[1..]);
    var rest := Iterate(step, s', todays[1..]);
    var ids := [Success(k + 1)] + rest.ids;
    assert Iterate(step, s, todays) == Run(ids, rest.last);
    forall i | 0 <= i < |todays|
      ensures ids[i] == Success(k + 1 + i)
    {
      if i > 0 {
        assert ids[i] == rest.ids[i - 1];
        assert (k + 1) + 1 + (i - 1) == k + 1 + i;
      }
    }
    assert (k + 1) + |todays[1..]| == k + |todays|;
  }

  /** Once a date is cached, every later call uses it, whatever the clock says. */
  lemma SessionKeepsDate(sep: char, d: Date, files: map<string, string>, todays: seq<Date>)
    ensures Session(sep, State(Some(d), files), todays).last.date == Some(d)
  {
    NextStepKeepsDate(sep, d);
    IterateKeepsDate(NextStep(sep), d, State(Some(d), files), todays);
  }

  /** Starting from a counter holding `k`, the next calls return k+1, k+2, … and leave `"{k+m}\n"`. */
  lemma SessionCountsOn(sep: char, s: State, d: Date, k: nat, todays: seq<Date>)
    requires CountAt(sep, s, d, k)
    ensures |Session(sep, s, todays).ids| == |todays|
    ensures forall i :: 0 <= i < |todays| ==> Session(sep, s, todays).ids[i] == Success(k + 1 + i)
    ensures CountAt(sep, Session(sep, s, todays).last, d, k + |todays|)
  {
    NextStepCountsUp(sep, d);
    IterateCounts(NextStep(sep), CounterIs(sep, d), s, k, todays);
  }

  /**
   * Starting from a missing counter file, N calls on one new Publisher return
   * 1, 2, …, N, even across midnight, and leave `"N\n"` in the first date's
   * counter file.
   */
  lemma SessionFromMissing(sep: char, files: map<string, string>, todays: seq<Date>)
    requires |todays| > 0 && LockPath(sep, todays[0]) !in files
    ensures |Session(sep, State(None, files), todays).ids| == |todays|
    ensures forall i :: 0 <= i < |todays| ==> Session(sep, State(None, files), todays).ids[i] == Success(1 + i)
    ensures CountAt(sep, Session(sep, State(None, files), todays).last, todays[0], |todays|)
  {
    NextOnMissing(sep, State(None, files), todays[0], todays[0]);
    NextStepCountsUp(sep, todays[0]);
    IterateFromFirst(NextStep(sep), CounterIs(sep, todays[0]), State(None, files), 0, todays);
  }

  /**
   * A new Publisher runs exactly like one that had already cached the date its
   * first call reads: that call caches it, and nothing else depends on the cache.
   */
  lemma SessionFreshAsCached(sep: char, files: map<string, string>, todays: seq<Date>)
    requires |todays| > 0
    ensures Session(sep, State(None, files), todays) == Session(sep, State(Some(todays[0]), files), todays)
  {
    assert NextStep(sep)(State(None, files), todays[0]) == NextStep(sep)(State(Some(todays[0]), files), todays[0]);
  }

  /**
   * A new Publisher whose counter file for the first call's date already holds
   * `"k\n"` (left there by an earlier process) returns k+1, …, k+N over N
   * calls, even across midnight, and leaves `"{k+N}\n"` in that counter file.
   */
  lemma SessionFromRecord(sep: char, files: map<string, string>, k: nat, todays: seq<Date>)
    requires |todays| > 0
    requires LockPath(sep, todays[0]) in files && files[LockPath(sep, todays[0])] == Record(k)
    ensures |Session(sep, State(None, files), todays).ids| == |todays|
    ensures forall i :: 0 <= i < |todays| ==> Session(sep, State(None, files), todays).ids[i] == Success(k + 1 + i)
    ensures CountAt(sep, Session(sep, State(None, files), todays).last, todays[0], k + |todays|)
  {
    SessionFreshAsCached(sep, files, todays);
    SessionCountsOn(sep, State(Some(todays[0]), files), todays[0], k, todays);
  }
}
