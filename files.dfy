/**
 * The file objects `_nextpath` works through: a host file store, an open file
 * with a position (`readline`, `seek(0)`, `write`, `close`), and `LockedFile`,
 * which holds an exclusive lock on its path while its `locked` flag is set.
 */
module Files {
  import opened Counter

  /** The host's files by path, and the paths whose exclusive lock is currently held. */
  class Disk {
    var files: map<string, string>
    var locks: set<string>

    constructor (files: map<string, string>)
      ensures this.files == files && locks == {}
    {
      this.files := files;
      locks := {};
    }
  }

  /** An open text file: the object `open(path, mode)` returns. */
  class FileHandle {
    const disk: Disk
    const path: string
    var pos: nat
    var isOpen: bool

    ghost predicate Valid()
      reads this, disk
    {
      isOpen ==> path in disk.files && pos <= |disk.files[path]|
    }

    /** `open(path, 'r+')`, which succeeds only on an existing file. */
    constructor OpenUpdate(disk: Disk, path: string)
      requires path in disk.files
      ensures this.disk == disk && this.path == path
      ensures isOpen && pos == 0 && Valid()
    {
      this.disk := disk;
      this.path := path;
      pos := 0;
      isOpen := true;
    }

    /** `open(path, 'w')`: creates the file or truncates it to empty. */
    constructor OpenTruncate(disk: Disk, path: string)
      modifies disk
      ensures this.disk == disk && this.path == path
      ensures isOpen && pos == 0 && Valid()
      ensures disk.files == old(disk.files)[path := ""] && disk.locks == old(disk.locks)
    {
      this.disk := disk;
      this.path := path;
      pos := 0;
      isOpen := true;
      new;
      disk.files := disk.files[path := ""];
    }

    /** `readline()`: the text from the position up to and including the next newline. */
    method ReadLine() returns (line: string)
      requires isOpen && Valid()
      modifies this
      ensures isOpen && Valid()
      ensures line == FirstLine(disk.files[path][old(pos)..])
      ensures pos == old(pos) + |line|
    {
      line := FirstLine(disk.files[path][pos..]);
      FirstLineSpec(disk.files[path][pos..]);
      pos := pos + |line|;
    }

    /** `seek(0)`. */
    method SeekStart()
      requires isOpen && Valid()
      modifies this
      ensures isOpen && Valid() && pos == 0
    {
      pos := 0;
    }

    /** `write(t)`: overwrites from the position on, extending the file only past its end. */
    method Write(t: string)
      requires isOpen && Valid()
      modifies this, disk
      ensures isOpen && Valid()
      ensures disk.files == old(disk.files)[path := WriteAt(old(disk.files[path]), old(pos), t)]
      ensures disk.locks == old(disk.locks)
      ensures pos == old(pos) + |t|
    {
      disk.files := disk.files[path := WriteAt(disk.files[path], pos, t)];
      pos := pos + |t|;
    }

    /** `close()`. */
    method Close()
      modifies this
      ensures !isOpen && pos == old(pos)
    {
      isOpen := false;
    }
  }

  /** The observable state of a LockedFile: its flag, whether its file is open, whether its lock is held. */
  datatype LockState = LockState(locked: bool, open: bool, held: bool)

  /** `_close` as a state transition: release and close while locked, otherwise nothing. */
  function CloseStep(s: LockState): (r: LockState)
    ensures !r.locked
    ensures s.locked ==> !r.open && !r.held
    ensures !s.locked ==> r == s
  {
    if s.locked then LockState(false, false, false) else s
  }

  /** A second `_close` changes nothing: `locked` is already clear. */
  lemma CloseIdempotent(s: LockState)
    ensures CloseStep(CloseStep(s)) == CloseStep(s)
  {
  }

  class LockedFile {
    const file: FileHandle
    var locked: bool

    ghost predicate Valid()
      reads this, file, file.disk
    {
      file.Valid() && (locked ==> file.isOpen && file.path in file.disk.locks)
    }

    ghost function State(): LockState
      reads this, file, file.disk
    {
      LockState(locked, file.isOpen, file.path in file.disk.locks)
    }

    /**
     * `LockedFile(path, 'r+')`: opens an existing file and takes its exclusive
     * lock; no other holder is assumed, so the spin-wait succeeds at once.
     */
    constructor OpenUpdate(disk: Disk, path: string)
      requires path in disk.files && path !in disk.locks
      modifies disk
      ensures fresh(file) && file.disk == disk && file.path == path
      ensures Valid() && locked && file.isOpen && file.pos == 0
      ensures disk.files == old(disk.files) && disk.locks == old(disk.locks) + {path}
    {
      file := new FileHandle.OpenUpdate(disk, path);
      new;
      disk.locks := disk.locks + {path};
      locked := true;
    }

    /** `LockedFile(path, 'w')`: creates or truncates the file and takes its exclusive lock. */
    constructor OpenTruncate(disk: Disk, path: string)
      requires path !in disk.locks
      modifies disk
      ensures fresh(file) && file.disk == disk && file.path == path
      ensures Valid() && locked && file.isOpen && file.pos == 0
      ensures disk.files == old(disk.files)[path := ""] && disk.locks == old(disk.locks) + {path}
    {
      file := new FileHandle.OpenTruncate(disk, path);
      new;
      disk.locks := disk.locks + {path};
      locked := true;
    }

    /** `_close`, which `__exit__` runs on leaving the `with` block. */
    method Close()
      requires Valid()
      modifies this, file, file.disk
      ensures Valid()
      ensures State() == CloseStep(old(State()))
      ensures file.disk.locks == if old(locked) then old(file.disk.locks) - {file.path} else old(file.disk.locks)
      ensures file.disk.files == old(file.disk.files) && file.pos == old(file.pos)
    {
      if locked {
        file.disk.locks := file.disk.locks - {file.path};
        locked := false;
        file.Close();
      }
    }
  }
}
