# publish.py — date-partitioned paths and the file-backed sequence counter

This project models the core of `publish.py` in Dafny. `Publisher` hands out
increasing integer ids and derives where a published item goes:

- **Date directory.** `_getdate` reads today's date once and caches it in
  `self._date`. `_pathtofile(f)` builds the directory
  `str(year) + sep + str(month) + sep + str(day)` (numeric, unpadded month)
  and returns that directory, `sep`, then `f`.
- **Sequence counter.** `_nextpath` opens `publish.lock` in the cached date's directory
  under an exclusive lock. It reads the first line, parses it as an integer
  `n`, seeks to offset 0 and writes `"{n+1}\n"` without truncating, then
  returns `n+1`. If opening the file for update raises `IOError`, it instead
  opens it with mode `'w'`, writes `"1\n"` and returns 1.
- **`LockedFile`.** Opens a file, takes its lock and sets `locked`. Its
  `_close` releases the lock and closes the file only while `locked` is set,
  then clears it. Leaving a `with` block calls `_close`.

Modules:

- `Wrappers`: `Option`, `Result`.
- `Decimal`: Python's `str` on integers and `int` on signed decimal text.
- `Paths`: the pure path composition of `_pathtofile` and its `it` helper, with
  `Split` as the inverse of `os.sep.join`.
- `Counter`: the counter-file step as a function of the file's content
  (`FirstLine` is `readline()`, `WriteAt` is `seek` plus `write`, `Advance` is
  one step).
- `Files`: the host's files and locks (`Disk`), an open file with a position
  (`FileHandle`), and `LockedFile` with its `locked` flag.
- `Publish`: the `Publisher` class (`GetDate`, `PathToFile`, `NextPath`), its
  specification `Next`, and `Session`, a run of consecutive calls. A run is
  `Iterate` of a one-call step. What a run returns is proved once for any step
  that counts up (`IterateCounts`), then applied to `_nextpath`'s step
  (`NextStepCountsUp`).

Inputs from outside the program are parameters:

- the clock (`date.today()`) is the `today` argument of each call;
- `os.sep` is the `sep` field of `Publisher`;
- the filesystem is a `Disk` object holding a map from paths to contents and
  the set of paths whose lock is held.

Points where the code behaves differently from what one might expect, and the model follows the code:

- Any `IOError` from opening the counter file for update leads to the
  "first run" branch, not only a missing file. Here "cannot be opened" is
  modelled as "not in `Disk.files`".
- The counter accepts any integer `int()` accepts in the modelled forms,
  negative ones included. It is not limited to non-negative values.
- There is only the numeric-month layout. There is no abbreviated-month mode
  and no base directory: paths are relative.
- The rewrite does not truncate. For a counter written by the program this
  leaves nothing stale (`Counter.NoStaleBytes`). Stray characters remain
  exactly when the old content is longer than the new record `"{n+1}\n"`,
  e.g. after a sign (`"-10\n"`, `"+5\n"`) or leading zeros, or, in the source
  only, surrounding whitespace or underscores, which the model treats as
  corrupt. Even then, the next read sees exactly the value written
  (`Counter.AdvanceThenRead`).

## Model

| member | source | states |
|---|---|---|
| `Decimal.NatToString` | publish.py:69-70 | `str(n)` for a date field is a non-empty string of digits, with a leading `'0'` only for 0 (unpadded) and one digit exactly below 10 |
| `Decimal.IntToString` | publish.py:61 | `str(x)` (the `f'{now}'` of the rewrite) is non-empty and newline-free, and only digits when `x >= 0`; `ParseIntToString` is its inverse |
| `Decimal.ParseInt` | publish.py:59 | `int(s)`: a value only for non-empty text starting with a sign or a digit, and a negative value only after a minus |
| `Decimal.ParseNatToString` | publish.py:59 | parsing the digits that `str(n)` wrote gives back `n` |
| `Decimal.ParseIntToString` | publish.py:59-61 | `int(str(x)) == x` for every integer `x`, negative ones included |
| `Decimal.NatToStringLengthMonotone` | publish.py:60-61 | `len(str(n+1)) >= len(str(n))` for `n >= 0`, which is why the non-truncating rewrite leaves nothing stale |
| `Paths.SplitJoin` | publish.py:80-82 | splitting `sep.join(parts)` on `sep` gives back `parts` when no part contains `sep` |
| `Paths.JoinEnds` | publish.py:80-82 | `sep.join(parts)` starts with the first part and ends with the last, with something in between when there are several |
| `Paths.DateDir` | publish.py:69-80 | the date directory is a relative path that starts and ends with a digit |
| `Paths.FilePath` | publish.py:82 | `_pathtofile(f)` is relative (starts with the year's first digit) and has `sep` right before the last `len(f)` characters |
| `Paths.JoinAppend` | publish.py:82 | joining one more component appends `sep` and that component to the joined prefix |
| `Paths.DateDirComponents` | publish.py:69-80 | the date directory has exactly three components: `str(year)`, `str(month)`, `str(day)` |
| `Paths.DateDirRoundTrip` | publish.py:80 | the date can be read back from its directory name (the separator is not a digit) |
| `Paths.DateDirInjective` | publish.py:80 | distinct dates give distinct directories, so two days never share a counter file |
| `Paths.FilePathShape` | publish.py:80-82 | `_pathtofile(f)` is exactly the date directory, one `sep`, then exactly `f` |
| `Paths.FilePathComponents` | publish.py:79-82 | the components of `_pathtofile(f)` are year, month, day and then `f`, so its last component is `f` |
| `Paths.FilePathInjective` | publish.py:82 | within one directory, distinct file names give distinct paths |
| `Paths.DateDirExample` | publish.py:69-80 | (2024, 3, 7) gives `2024/3/7`: month numeric and unpadded |
| `Paths.LockPathExample` | publish.py:55 | the counter file for (2024, 3, 7) is `2024/3/7/publish.lock` |
| `Counter.FirstLineSpec` | publish.py:59 | `readline()` returns a prefix of the content; it ends at the first newline, or is the whole content if there is none |
| `Counter.FirstLine` | publish.py:59 | `readline()` is never longer than the content, and is empty only at end of file |
| `Counter.ParseLine` | publish.py:59 | `int(readline())` yields a value only for a non-empty line that does not start with a newline |
| `Counter.WriteAt` | publish.py:60-61 | `seek(pos)` then `write(t)` never shrinks the content, and it reaches at least `pos + len(t)` |
| `Counter.WriteAtSpec` | publish.py:60-61 | a write at `pos` replaces exactly the characters it covers, keeps the others, and extends the file only past its end |
| `Counter.Advance` | publish.py:57-65 | one counter step: a step that raises leaves the content unchanged, and a step never shrinks the file |
| `Counter.ParseRecord` | publish.py:59-61 | the line `"{v}\n"` that `_nextpath` writes is read back as `v`, whatever follows it |
| `Counter.FirstLineOfRecord` | publish.py:59 | a newline-free text followed by a newline is read back as exactly that line |
| `Counter.NoStaleBytes` | publish.py:59-61 | content exactly `"n\n"` with `n >= 0` becomes exactly `"(n+1)\n"`, and the step returns `n+1` |
| `Counter.RewriteKeepsTail` | publish.py:60-61 | a successful step changes only the first `len(str(n+1))+1` characters; every later one is kept |
| `Counter.AdvanceThenRead` | publish.py:59-61 | after any successful step, the next read of the first line yields exactly `n+1`, stray bytes or not |
| `Counter.CorruptLeavesContent` | publish.py:58-62 | a first line that is not an integer raises `ValueError`, which `except IOError` does not catch: no id, content unchanged |
| `Counter.CorruptExample` | publish.py:59 | `"abc\n"` is refused, not read as 0 or 1 |
| `Counter.NegativeLeavesStrayByte` | publish.py:59-61 | `"-10\n"` becomes `"-9\n\n"` with result -9: the shorter rewrite leaves a stray byte |
| `Counter.PlusSignLeavesStrayByte` | publish.py:59-61 | `"+5\n"` becomes `"6\n\n"` with result 6: `int` accepts the sign, and the shorter rewrite leaves a stray byte |
| `Files.FileHandle.OpenUpdate` | publish.py:58 | `open(path, 'r+')` of an existing file is open at position 0 |
| `Files.FileHandle.OpenTruncate` | publish.py:63 | `open(path, 'w')` leaves the file empty and open at position 0 |
| `Files.FileHandle.ReadLine` | publish.py:59 | `readline()` returns the first line from the position and moves the position past it |
| `Files.FileHandle.SeekStart` | publish.py:60 | `seek(0)` moves the position to 0 |
| `Files.FileHandle.Write` | publish.py:61 | `write(t)` overwrites the content from the position on, and changes nothing else on disk |
| `Files.FileHandle.Close` | publish.py:27 | `close()` leaves the file closed |
| `Files.LockedFile.OpenUpdate` | publish.py:10-14 | `LockedFile(path, 'r+')` opens the file, takes its lock (added to the held locks) and sets `locked` |
| `Files.LockedFile.OpenTruncate` | publish.py:10-14 | `LockedFile(path, 'w')` truncates the file, takes its lock and sets `locked` |
| `Files.LockedFile.Close` | publish.py:19-27 | `_close` releases the lock, clears `locked` and closes the file only while `locked`; otherwise nothing changes |
| `Files.CloseStep` | publish.py:22-27 | `_close` as a transition: afterwards nothing is locked; from a locked state the file is closed and the lock released; otherwise nothing changes |
| `Files.CloseIdempotent` | publish.py:22-27 | a second `_close` is a no-op, because the first one cleared `locked` |
| `Publish.Publisher.constructor` | publish.py:42-43 | a new `Publisher` has no cached date |
| `Publish.Publisher.GetDate` | publish.py:45-52 | `_getdate` returns the cached date if there is one, else today's, and leaves that date cached |
| `Publish.CachedDateStable` | publish.py:44-51 | once cached, the date is returned by every later call whatever the clock says |
| `Publish.SessionKeepsDate` | publish.py:42-55 | across any number of `_nextpath` calls the cached date never changes, so they share one directory and one counter |
| `Publish.Publisher.PathToFile` | publish.py:68-82 | `_pathtofile(f)` returns `FilePath` of the cached (or today's) date and `f`, and caches the date |
| `Publish.Publisher.NextPath` | publish.py:54-66 | `_nextpath` returns the id and leaves the cache and files as the specification `Next` says, with every lock released |
| `Publish.UpdateCounter` | publish.py:57-61 | the `r+` block: the result and new content are exactly one `Advance` step on the old content; the lock is released on both exits |
| `Publish.CreateCounter` | publish.py:62-65 | the `except IOError` block: the counter file becomes exactly `"1\n"` and the result is 1; the lock is released |
| `Publish.Next` | publish.py:54-66 | one `_nextpath` call as a value: the date becomes cached, the counter file for it exists afterwards, and a failed call leaves every file unchanged |
| `Publish.NextOnRecord` | publish.py:54-61 | a call whose counter file (the cached date's, or today's on a new `Publisher`) holds `"k\n"` returns `k+1`, caches that date and leaves `"(k+1)\n"`, with nothing else changed |
| `Publish.NextOnMissing` | publish.py:62-65 | a call whose counter file does not exist returns 1 and leaves exactly `"1\n"` there, with nothing else changed |
| `Publish.NextStepKeepsDate` | publish.py:45-55 | no `_nextpath` call changes a date already cached |
| `Publish.NextStepCountsUp` | publish.py:55-61 | for the cached date's counter, every `_nextpath` call takes `k` to `k+1` and returns `k+1` |
| `Publish.IterateKeepsDate` | publish.py:45-55 | calls that each keep the cached date keep it over any number of calls |
| `Publish.IterateLength` | publish.py:54-66 | a run of calls yields exactly one result per call |
| `Publish.IterateIdAt` | publish.py:54-66 | with calls that count up, the i-th call after the counter held `k` returns `k+1+i` |
| `Publish.IterateLastRecord` | publish.py:59-61 | with calls that count up, after m calls from `k` the counter holds `k+m` |
| `Publish.IterateCounts` | publish.py:54-66 | with calls that count up from `k`, the ids are `k+1, k+2, …` in call order, one per call, and the counter ends at `k+m` |
| `Publish.IterateFromFirst` | publish.py:54-66 | if the first call leaves the counter at `k+1` and returns it, and every later call counts up, the ids are `k+1, …, k+N` and the counter ends at `k+N` |
| `Publish.SessionCountsOn` | publish.py:54-66 | on a `Publisher` that has cached date `d`, from a counter for `d` holding `k`, consecutive `_nextpath` calls return `k+1, k+2, …` in call order and leave `"{k+m}\n"` |
| `Publish.SessionFromMissing` | publish.py:53-65 | starting from a missing counter file, N calls on one `Publisher` return 1, 2, …, N even across midnight, and leave `"N\n"` |
| `Publish.SessionFreshAsCached` | publish.py:41-51 | a new `Publisher` runs exactly like one that had already cached the date its first call reads, since that call caches it |
| `Publish.SessionFromRecord` | publish.py:53-65 | a new `Publisher` whose counter for the first call's date already holds `"k\n"` returns `k+1, …, k+N` over N calls, even across midnight, and leaves `"{k+N}\n"` |

## Left out

- Lock acquisition: the `fcntl.flock` call and the `_spinacquire` retry loop (publish.py:29-39) are cross-process mutual exclusion. The model has no concurrency. Taking a lock is a precondition that nobody else holds it, and the lock is recorded in `Disk.locks`.
- The sleep branch of `_spinacquire`: it calls `time.sleep`, but only `sleep` is imported (publish.py:8, 39), so that branch would raise `NameError`. It is not modelled.
- Directory creation: `os.makedirs`, `os.path.isdir` and the EEXIST filter in `mkdir` (publish.py:71-78, 81) act on the host filesystem. `Publish.Publisher.PathToFile` computes the path but creates no directory, and never fails.
- The clock: `date.today()` (publish.py:48) is the `today` parameter. Dates are triples of naturals; calendar validity is not checked.
- `main` and its `print` (publish.py:84-89).
- `Decimal.ParseInt`, applied by `Counter.ParseLine` after one trailing newline is removed, accepts only an optional `+`/`-` followed by ASCII digits. Python's `int()` also accepts surrounding whitespace, underscores between digits and non-ASCII digits; the model treats those lines as corrupt.
- `Publish.Publisher.NextPath`: an `IOError` raised after a successful open is not modelled. That includes errors from the lock, `readline` or `write`. In the source, such an error falls into the `except` branch and resets the counter to `"1\n"`. An open with mode `'w'` that fails, and so propagates, is not modelled either.
- `Publish.Publisher.NextPath`: any failure to open the counter file for update is modelled as the file being absent from `Disk.files`. Permission errors are not a separate case.
- `__enter__`/`__exit__` (publish.py:16-20) are inlined: the two helper methods use `lf.file` directly and call `Close` on every path out of the block.
- Buffering: the model writes through to `Disk.files` at once. In the source the rewrite (publish.py:61) is buffered and reaches the file only at `self.file.close()` (publish.py:27), after the lock is released (publish.py:25), so another process could read the old value in between.
- Text-mode details of Python files: newline translation, encoding and decoding errors. File contents are sequences of characters.
- Several other behaviours are not in this source file, so they are not modelled: abbreviated month names, content-kind classification, copying, the command line, and the race between processes creating the counter file for the first time.
