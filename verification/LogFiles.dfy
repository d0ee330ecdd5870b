/** Rotation of uncompressed log files (log/CLogFileManager.cpp).

    Opening a file may fail any number of times before it succeeds; a write may
    be short.  Both outcomes are parameters. */
module LogFiles {
  import opened Maybes

  /** A closed log file: its index and its size in bytes. */
  datatype FileInfo = FileInfo(index: int, size: int)

  /** Closed files, the counter of their bytes, the size of the open file, and
      the limits derived from the configuration. */
  datatype Files = Files(pool: seq<FileInfo>, counted: int, current: Maybe<int>, maxStorage: int, maxFile: int) {
    function OpenSize(): int {
      if current.Just? then current.value else 0
    }

    /** The storage size the user configured. */
    function StorageSize(): int {
      maxStorage + maxFile
    }

    /** Bytes in tracked files and in the open file. */
    function Total(): int {
      Bytes(pool) + OpenSize()
    }
  }

  function Bytes(pool: seq<FileInfo>): int {
    if pool == [] then 0 else pool[0].size + Bytes(pool[1..])
  }

  lemma {:induction false} BytesAppend(a: seq<FileInfo>, b: seq<FileInfo>)
    ensures Bytes(a + b) == Bytes(a) + Bytes(b)
  {
    if a == [] {
      assert a + b == b;
    } else {
      assert (a + b)[1..] == a[1..] + b;
      BytesAppend(a[1..], b);
    }
  }

  // ------------------------------------------------------------------
  // The order of the files.  Names begin with the index in a fixed width, so
  // that the order of names is the order of indices.

  predicate InOrder(pool: seq<FileInfo>) {
    forall i, j | 0 <= i < j < |pool| :: pool[i].index <= pool[j].index
  }

  function Insert(pool: seq<FileInfo>, d: FileInfo): seq<FileInfo> {
    if pool == [] || d.index < pool[0].index then [d] + pool
    else [pool[0]] + Insert(pool[1..], d)
  }

  function Sorted(pool: seq<FileInfo>): seq<FileInfo> {
    if pool == [] then [] else Insert(Sorted(pool[..|pool| - 1]), pool[|pool| - 1])
  }

  lemma {:induction false} InsertAdds(pool: seq<FileInfo>, d: FileInfo)
    ensures multiset(Insert(pool, d)) == multiset(pool) + multiset{d}
  {
    if !(pool == [] || d.index < pool[0].index) {
      InsertAdds(pool[1..], d);
      assert pool == [pool[0]] + pool[1..];
    }
  }

  lemma {:induction false} InsertCounts(pool: seq<FileInfo>, d: FileInfo)
    ensures Bytes(Insert(pool, d)) == Bytes(pool) + d.size
  {
    if pool == [] || d.index < pool[0].index {
      assert ([d] + pool)[1..] == pool;
    } else {
      InsertCounts(pool[1..], d);
      assert Insert(pool, d)[1..] == Insert(pool[1..], d);
    }
  }

  lemma {:induction false} InsertInOrder(pool: seq<FileInfo>, d: FileInfo)
    requires InOrder(pool)
    ensures InOrder(Insert(pool, d))
  {
    if !(pool == [] || d.index < pool[0].index) {
      InsertInOrder(pool[1..], d);
      var rest := Insert(pool[1..], d);
      forall j | 0 <= j < |rest| ensures pool[0].index <= rest[j].index {
        InsertAdds(pool[1..], d);
        assert rest[j] in multiset(rest);
        assert rest[j] in pool[1..] || rest[j] == d;
      }
    }
  }

  lemma {:induction false} SortedCounts(pool: seq<FileInfo>)
    ensures Bytes(Sorted(pool)) == Bytes(pool)
  {
    if pool != [] {
      var front, last := pool[..|pool| - 1], pool[|pool| - 1];
      SortedCounts(front);
      InsertCounts(Sorted(front), last);
      BytesAppend(front, [last]);
      assert Bytes([last]) == last.size by { assert [last][1..] == []; }
      assert pool == front + [last];
    }
  }

  /** Sorting keeps the files and their bytes. */
  lemma {:induction false} SortedKeeps(pool: seq<FileInfo>)
    ensures InOrder(Sorted(pool)) && multiset(Sorted(pool)) == multiset(pool) && Bytes(Sorted(pool)) == Bytes(pool)
  {
    SortedCounts(pool);
    if pool != [] {
      var front, last := pool[..|pool| - 1], pool[|pool| - 1];
      SortedKeeps(front);
      InsertAdds(Sorted(front), last);
      InsertInOrder(Sorted(front), last);
      assert pool == front + [last];
    }
  }

  // ------------------------------------------------------------------
  // Specification.

  /** Closes the open file, entering it with `size` bytes if that is positive. */
  function Close(f: Files, size: int, index: int): Files {
    if f.current.Nothing? then f
    else
      var n := if size == 0 then f.current.value else size;
      if n > 0 then f.(current := Nothing, pool := f.pool + [FileInfo(index, n)], counted := f.counted + n)
      else f.(current := Nothing)
  }

  /** Removes the oldest files until the counter is within the limit. */
  function Evict(f: Files): Files
    decreases |f.pool|
  {
    if f.counted <= f.maxStorage then f
    else if f.pool == [] then f.(counted := 0)
    else
      var counted := f.counted - f.pool[0].size;
      var g := f.(pool := f.pool[1..], counted := counted);
      if counted < 0 then g.(counted := 0) else Evict(g)
  }

  /** Rotates when the open file has reached its limit, then makes room. */
  function Rotate(f: Files, index: int): Files {
    var g := if f.current.Just? && f.current.value >= f.maxFile then Close(f, f.current.value, index) else f;
    if g.current.Just? then g else Evict(g).(current := Just(0))
  }

  /** Appends a record of `size` bytes, written in full. */
  function Store(f: Files, size: nat, index: int): Files {
    var g := Rotate(f, index);
    g.(current := Just(g.OpenSize() + size))
  }

  // ------------------------------------------------------------------
  // The storage bound.

  /** The counter covers the closed files, which stay within their limit while
      a file is open. */
  ghost predicate Good(f: Files) {
    && f.maxStorage > 0
    && (forall i | 0 <= i < |f.pool| :: f.pool[i].size >= 0)
    && Bytes(f.pool) <= f.counted
    && (f.current.Just? ==> f.current.value >= 0 && Bytes(f.pool) <= f.maxStorage)
  }

  lemma SortedIn(f: Files)
    requires Good(f)
    ensures Good(f.(pool := Sorted(f.pool))) && InOrder(Sorted(f.pool))
    ensures forall d :: d in Sorted(f.pool) <==> d in f.pool
  {
    SortedKeeps(f.pool);
    forall d ensures d in Sorted(f.pool) <==> d in f.pool {
      assert d in multiset(Sorted(f.pool)) <==> d in multiset(f.pool);
    }
    assert forall i | 0 <= i < |Sorted(f.pool)| :: Sorted(f.pool)[i] in f.pool;
  }

  /** Closing keeps the invariant: what is tracked is counted. */
  lemma CloseKeepsGood(f: Files, size: int, index: int)
    requires Good(f) && size <= f.OpenSize()
    ensures Good(Close(f, size, index)) && Close(f, size, index).current.Nothing?
  {
    if f.current.Just? {
      BytesAppend(f.pool, [FileInfo(index, if size == 0 then f.current.value else size)]);
    }
  }

  lemma {:induction false} EvictFits(f: Files)
    requires Good(f)
    ensures Good(Evict(f)) && Bytes(Evict(f).pool) <= f.maxStorage
    ensures Evict(f).maxStorage == f.maxStorage && Evict(f).maxFile == f.maxFile && Evict(f).current == f.current
    decreases |f.pool|
  {
    if f.counted > f.maxStorage && f.pool != [] {
      var g := f.(pool := f.pool[1..], counted := f.counted - f.pool[0].size);
      BytesNonNegative(g.pool);
      EvictFits(g);
    }
  }

  /** Eviction removes the oldest files, and none more than the limit asks for. */
  lemma {:induction false} EvictOldestFirst(f: Files) returns (k: nat)
    requires Good(f)
    ensures k <= |f.pool| && Evict(f).pool == f.pool[k..]
    ensures forall j | 0 <= j < k :: f.counted - Bytes(f.pool[..j]) > f.maxStorage
    decreases |f.pool|
  {
    k := 0;
    if f.counted > f.maxStorage && f.pool != [] {
      var g := f.(pool := f.pool[1..], counted := f.counted - f.pool[0].size);
      BytesNonNegative(g.pool);
      var n := EvictOldestFirst(g);
      k := n + 1;
      forall j | 0 <= j < k ensures f.counted - Bytes(f.pool[..j]) > f.maxStorage {
        if j > 0 {
          assert f.pool[..j][1..] == g.pool[..j - 1];
        }
      }
    }
  }

  lemma {:induction false} BytesNonNegative(pool: seq<FileInfo>)
    requires forall i | 0 <= i < |pool| :: pool[i].size >= 0
    ensures Bytes(pool) >= 0
  {
    if pool != [] { BytesNonNegative(pool[1..]); }
  }

  /** One record: the invariant holds again, and all log bytes together stay
      below the storage size plus that record. */
  lemma StoreStaysWithinStorage(f: Files, size: nat, index: int)
    requires Good(f)
    ensures Good(Store(f, size, index))
    ensures Store(f, size, index).maxStorage == f.maxStorage && Store(f, size, index).maxFile == f.maxFile
    ensures f.maxFile > 0 ==> Store(f, size, index).Total() < f.StorageSize() + size
    ensures f.maxFile <= 0 ==> Store(f, size, index).Total() <= f.maxStorage + size
  {
    var g := if f.current.Just? && f.current.value >= f.maxFile then Close(f, f.current.value, index) else f;
    CloseKeepsGood(f, f.OpenSize(), index);
    EvictFits(g);
  }

  /** A run of stores; record `i` gets file index `i`. */
  function Run(f: Files, records: seq<nat>): Files {
    if records == [] then f
    else Store(Run(f, records[..|records| - 1]), records[|records| - 1], |records|)
  }

  ghost predicate WithinStorage(f: Files, records: seq<nat>) {
    records != [] ==> Run(f, records).Total() < f.StorageSize() + records[|records| - 1]
  }

  lemma {:induction false} RunStaysGood(f: Files, records: seq<nat>)
    requires Good(f)
    ensures Good(Run(f, records))
    ensures Run(f, records).maxStorage == f.maxStorage && Run(f, records).maxFile == f.maxFile
    ensures f.maxFile > 0 ==> WithinStorage(f, records)
  {
    if records != [] {
      RunStaysGood(f, records[..|records| - 1]);
      StoreStaysWithinStorage(Run(f, records[..|records| - 1]), records[|records| - 1], |records|);
    }
  }

  /** One file fills the limit and a record of one byte is stored: the total is
      not below the storage size plus that byte. */
  lemma SmallLimitBreaksTheBound(maxStorage: int, maxFile: int)
    requires maxStorage > 0 && maxFile <= 0
    ensures var f := Files([FileInfo(0, maxStorage)], maxStorage, Nothing, maxStorage, maxFile);
            Good(f) && Run(f, [1]).Total() == maxStorage + 1 && !WithinStorage(f, [1])
  {
    var f := Files([FileInfo(0, maxStorage)], maxStorage, Nothing, maxStorage, maxFile);
    assert Bytes(f.pool) == maxStorage by { assert f.pool[1..] == []; }
    assert [1][..0] == [];
    assert Run(f, [1]) == Store(f, 1, 1);
  }

  /** With limits `maxStorage` and `maxFile`, every run from every good start
      stays within the configured storage if and only if the file limit is
      positive.  `setStorageSize` also accepts limits that are not. */
  lemma StorageBoundIff(maxStorage: int, maxFile: int)
    requires maxStorage > 0
    ensures (forall f, records | Good(f) && f.maxStorage == maxStorage && f.maxFile == maxFile :: WithinStorage(f, records))
            <==> maxFile > 0
  {
    if maxFile > 0 {
      forall f, records | Good(f) && f.maxStorage == maxStorage && f.maxFile == maxFile ensures WithinStorage(f, records) {
        RunStaysGood(f, records);
      }
    } else {
      SmallLimitBreaksTheBound(maxStorage, maxFile);
    }
  }

  const MAX_STORAGE := 64 * 1024 * 1024
  const MAX_FILE := 4 * 1024 * 1024

  function OrDefault(size: int, default_: int): int {
    if size == 0 then default_ else size
  }

  class LogFileManager {
    var files: Files
    var fileIndex: int
    var stopped: bool
    var hasPath: bool

    /** Zero stands for a default size.  With sizes that are accepted and a path
        the files found there are taken over and storing starts. */
    constructor (maxStorage: int, maxFile: int, hasPath: bool, listing: seq<FileInfo>)
      requires forall i | 0 <= i < |listing| :: listing[i].size >= 0
      ensures this.hasPath == hasPath && files.current.Nothing?
      ensures stopped <==> !hasPath || OrDefault(maxStorage, MAX_STORAGE) <= OrDefault(maxFile, MAX_FILE)
      ensures !stopped ==> Good(files) && files.maxFile == OrDefault(maxFile, MAX_FILE)
                           && files.maxStorage == OrDefault(maxStorage, MAX_STORAGE) - files.maxFile
      ensures !stopped ==> files.counted == Bytes(listing) && InOrder(files.pool)
                           && forall d :: d in files.pool <==> d in listing && d.index >= 0
      ensures !stopped ==> fileIndex >= 0 && forall d | d in listing && d.index >= 0 :: d.index < fileIndex
      ensures stopped ==> files.pool == [] && files.counted == 0 && fileIndex == -1
    {
      files := Files([], 0, Nothing, 0, 0);
      fileIndex, stopped, this.hasPath := -1, true, hasPath;
      new;
      var ok := SetStorageSize(OrDefault(maxStorage, MAX_STORAGE), OrDefault(maxFile, MAX_FILE));
      if ok && hasPath {
        ScanDir(listing);
        stopped := false;
      }
    }

    /** Closes the open file and stores nothing until the next start. */
    method Stop()
      modifies this`files, this`stopped
      ensures stopped && files == Close(old(files), 0, fileIndex - 1)
    {
      Sync(0);
      stopped := true;
    }

    method Start()
      modifies this`stopped
      ensures !stopped
    {
      stopped := false;
    }

    /** Refuses a storage size that one file already fills. */
    method SetStorageSize(maxStorage: int, maxFile: int) returns (ok: bool)
      modifies this`files
      ensures ok <==> maxStorage > maxFile
      ensures files == if ok then old(files).(maxStorage := maxStorage - maxFile, maxFile := maxFile) else old(files)
    {
      if maxStorage <= maxFile { return false; }
      files := files.(maxStorage := maxStorage - maxFile, maxFile := maxFile);
      ok := true;
    }

    /** Adds the files found in the directory, in any order.  All their bytes
        are counted; only those named like log files are tracked, oldest first. */
    method ScanDir(listing: seq<FileInfo>)
      requires Good(files) && files.current.Nothing?
      requires forall i | 0 <= i < |listing| :: listing[i].size >= 0
      modifies this`files, this`fileIndex
      ensures Good(files) && files.current.Nothing?
      ensures files.maxStorage == old(files).maxStorage && files.maxFile == old(files).maxFile
      ensures files.counted == old(files).counted + Bytes(listing)
      ensures forall d :: d in files.pool <==> d in old(files).pool || (d in listing && d.index >= 0)
      ensures InOrder(files.pool)
      ensures fileIndex > old(fileIndex) && forall d | d in listing && d.index >= 0 :: d.index < fileIndex
    {
      for n := 0 to |listing|
        invariant Good(files) && files.current.Nothing?
        invariant files.maxStorage == old(files).maxStorage && files.maxFile == old(files).maxFile
        invariant files.counted == old(files).counted + Bytes(listing[..n])
        invariant forall d :: d in files.pool <==> d in old(files).pool || (d in listing[..n] && d.index >= 0)
        invariant fileIndex >= old(fileIndex) && forall d | d in listing[..n] && d.index >= 0 :: d.index <= fileIndex
      {
        assert listing[..n + 1] == listing[..n] + [listing[n]];
        BytesAppend(listing[..n], [listing[n]]);
        var _ := AddFile(listing[n]);
      }
      assert listing[..|listing|] == listing;
      SortedIn(files);
      files := files.(pool := Sorted(files.pool));
      fileIndex := fileIndex + 1;
    }

    /** Counts a file, and tracks it if its name has an index. */
    method AddFile(d: FileInfo) returns (tracked: bool)
      requires Good(files) && files.current.Nothing? && d.size >= 0
      modifies this`files, this`fileIndex
      ensures Good(files) && tracked == (d.index >= 0)
      ensures files == old(files).(counted := old(files).counted + d.size,
                                   pool := old(files).pool + if tracked then [d] else [])
      ensures fileIndex == if tracked && old(fileIndex) < d.index then d.index else old(fileIndex)
    {
      BytesAppend(files.pool, [d]);
      assert Bytes([d]) == d.size by { assert [d][1..] == []; }
      tracked := d.index >= 0;
      files := files.(counted := files.counted + d.size);
      if tracked {
        if fileIndex < d.index { fileIndex := d.index; }
        files := files.(pool := files.pool + [d]);
      }
    }

    /** Closes the open file; see `Close`. */
    method Sync(size: int)
      modifies this`files
      ensures files == Close(old(files), size, fileIndex - 1)
    {
      if files.current.Just? {
        var n := if size == 0 then files.current.value else size;
        files := files.(current := Nothing);
        if n > 0 {
          files := files.(pool := files.pool + [FileInfo(fileIndex - 1, n)], counted := files.counted + n);
        }
      }
    }

    method RemoveOldestLog()
      modifies this`files
      ensures files == Evict(old(files))
    {
      while files.counted > files.maxStorage
        invariant Evict(files) == Evict(old(files))
        decreases |files.pool|, files.counted > files.maxStorage
      {
        if files.pool == [] {
          files := files.(counted := 0);
          return;
        }
        var counted := files.counted - files.pool[0].size;
        files := files.(pool := files.pool[1..], counted := counted);
        if counted < 0 {
          files := files.(counted := 0);
          return;
        }
      }
    }

    /** Makes sure that a file with room is open; opening fails `failures` times. */
    method CheckFileSize(failures: nat)
      modifies this`files, this`fileIndex
      ensures files == Rotate(old(files), old(fileIndex) - 1)
      ensures fileIndex == if old(files).current.Just? && old(files).current.value < old(files).maxFile
                           then old(fileIndex) else old(fileIndex) + failures + 1
    {
      if files.current.Just? && files.current.value >= files.maxFile {
        Sync(files.current.value);
      }
      if files.current.Nothing? {
        RemoveOldestLog();
        var n := 0;
        ghost var room := files;
        while n < failures
          invariant n <= failures && fileIndex == old(fileIndex) + n && files == room
        {
          fileIndex := fileIndex + 1;
          n := n + 1;
        }
        fileIndex := fileIndex + 1;
        files := files.(current := Just(0));
      }
    }

    /** Appends a record of which `written` bytes reach the file. */
    method StoreRecord(size: nat, written: nat, failures: nat) returns (ok: bool)
      requires written <= size
      modifies this`files, this`fileIndex
      ensures ok <==> !stopped && hasPath && size > 0 && written == size
      ensures files == if stopped || !hasPath || size == 0 then old(files) else Store(old(files), written, old(fileIndex) - 1)
    {
      if stopped || !hasPath || size == 0 { return false; }
      CheckFileSize(failures);
      files := files.(current := Just(files.OpenSize() + written));
      ok := written == size;
    }
  }
}
