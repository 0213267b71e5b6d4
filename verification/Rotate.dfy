/** The size-rotated append log: internal/rotate/rotate.go.

    A directory is a map from generation number to contents. Number 0 is the live
    file, 1 the most recently rotated one, and so on upwards in age. */
module Rotate {
  import opened Common

  type Byte = b: int | 0 <= b < 256
  type Bytes = seq<Byte>
  type Dir<T> = map<nat, seq<T>>
  type Disk = Dir<Byte>

  const DEFAULT_MAX_BYTES: int := 2097152
  const DEFAULT_MAX_FILES: int := 2

  datatype Options = Options(maxBytes: int, maxFiles: int) {
    /** The policy after defaults: a positive budget and a count of generations to keep. */
    predicate Normal() {
      maxBytes > 0 && maxFiles >= 0
    }

    function WithDefaults(): (o: Options)
      ensures o.Normal()
      ensures Normal() && maxFiles > 0 ==> o == this
      ensures maxFiles < 0 <==> o.maxFiles == 0
    {
      Options(if maxBytes <= 0 then DEFAULT_MAX_BYTES else maxBytes,
              if maxFiles == 0 then DEFAULT_MAX_FILES else if maxFiles < 0 then 0 else maxFiles)
    }
  }

  // ---------------------------------------------------------------- specification

  function File<T>(d: Dir<T>, k: nat): seq<T> {
    if k in d then d[k] else []
  }

  /** Whether generation k exists once the kept ones have moved along, and what it holds.
      Generations beyond the kept ones are not touched. */
  predicate ShiftedHas<T>(d: Dir<T>, kept: nat, k: nat) {
    k == 0 || (k <= kept && k - 1 in d) || (k > kept && k in d)
  }

  function ShiftedFile<T>(d: Dir<T>, kept: nat, k: nat): seq<T> {
    if k == 0 then [] else if k <= kept then File(d, k - 1) else File(d, k)
  }

  /** Every kept generation one place older, the oldest gone, a new empty live file. */
  function Shifted<T>(d: Dir<T>, kept: nat): (r: Dir<T>)
    ensures forall k: nat :: k in r <==> ShiftedHas(d, kept, k)
    ensures forall k: nat :: File(r, k) == ShiftedFile(d, kept, k)
  {
    map k | k in ShiftedKeys(d, kept) :: ShiftedFile(d, kept, k)
  }

  function ShiftedKeys<T>(d: Dir<T>, kept: nat): (r: set<nat>)
    ensures forall k: nat :: k in r <==> ShiftedHas(d, kept, k)
  {
    (set k: nat | k <= kept && ShiftedHas(d, kept, k)) + (set k | k in d.Keys && k > kept)
  }

  function Appended<T>(d: Dir<T>, x: seq<T>): Dir<T> {
    d[0 := File(d, 0) + x]
  }

  predicate Overflows(o: Options, size: nat, more: nat) {
    size > 0 && size + more > o.maxBytes
  }

  datatype Op = Append(bytes: Bytes) | Force

  /** What one successful call does to the directory. */
  function Step(o: Options, d: Disk, op: Op): Disk
    requires o.Normal()
  {
    match op
    case Append(p) =>
      Appended(if Overflows(o, |File(d, 0)|, |p|) then Shifted(d, o.maxFiles) else d, p)
    case Force => Shifted(d, o.maxFiles)
  }

  function Run(o: Options, d: Disk, ops: seq<Op>): Disk
    requires o.Normal()
  {
    if ops == [] then d else Step(o, Run(o, d, ops[..|ops| - 1]), ops[|ops| - 1])
  }

  /** Everything kept in generations 0 to m, oldest first. */
  function Retained<T>(d: Dir<T>, m: nat): seq<T> {
    if m == 0 then File(d, 0) else File(d, m) + Retained(d, m - 1)
  }

  /** The directory half-way through a shift: slots above i + 1 have been filled from
      the slot below, slot i + 1 is vacant, the rest is as it was. */
  predicate MidHas<T>(d: Dir<T>, kept: nat, i: int, k: nat) {
    (k <= i && k in d) || (i + 2 <= k <= kept && k - 1 in d) || (k > kept && k in d)
  }

  function MidFile<T>(d: Dir<T>, kept: nat, i: int, k: nat): seq<T>
    requires i >= -1
  {
    if k <= i || k > kept then File(d, k) else if i + 2 <= k then File(d, k - 1) else []
  }

  lemma MidStep<T>(d: Dir<T>, before: Dir<T>, after: Dir<T>, kept: nat, i: nat)
    requires i < kept
    requires forall k: nat :: k in before <==> MidHas(d, kept, i, k)
    requires forall k: nat :: File(before, k) == MidFile(d, kept, i, k)
    requires i !in before ==> after == before
    requires i in before ==> after == (before - {i})[i + 1 := before[i]]
    ensures forall k: nat :: k in after <==> MidHas(d, kept, i - 1, k)
    ensures forall k: nat :: File(after, k) == MidFile(d, kept, i - 1, k)
  {
    assert i in before <==> MidHas(d, kept, i, i);
    assert File(before, i) == MidFile(d, kept, i, i);
    forall k: nat
      ensures k in after <==> MidHas(d, kept, i - 1, k)
      ensures File(after, k) == MidFile(d, kept, i - 1, k)
    {
      assert k in before <==> MidHas(d, kept, i, k);
      assert File(before, k) == MidFile(d, kept, i, k);
    }
  }

  lemma MidDone<T>(d: Dir<T>, moved: Dir<T>, after: Dir<T>, kept: nat)
    requires kept > 0 && after == moved[0 := File(moved, 0)]
    requires forall k: nat :: k in moved <==> MidHas(d, kept, -1, k)
    requires forall k: nat :: File(moved, k) == MidFile(d, kept, -1, k)
    ensures after == Shifted(d, kept)
  {
    var r := Shifted(d, kept);
    forall k: nat
      ensures k in after <==> k in r
      ensures File(after, k) == File(r, k)
    {
      assert k in moved <==> MidHas(d, kept, -1, k);
      assert File(moved, k) == MidFile(d, kept, -1, k);
      assert File(r, k) == ShiftedFile(d, kept, k);
    }
    SameFiles(after, r);
  }

  lemma SameFiles<T>(a: Dir<T>, b: Dir<T>)
    requires forall k: nat :: k in a <==> k in b
    requires forall k: nat :: File(a, k) == File(b, k)
    ensures a == b
  {
    forall k | k in a
      ensures a[k] == b[k]
    {
      assert a[k] == File(a, k) && b[k] == File(b, k);
    }
  }

  // ---------------------------------------------------------------- the writer

  class Writer {
    const opts: Options
    var disk: Disk      // the directory the log family lives in
    var isOpen: bool
    var size: nat

    ghost predicate Valid()
      reads this
    {
      opts.Normal() && (isOpen ==> 0 in disk && size == |disk[0]|)
    }

    /** Attaches to whatever is already there, creating the live file if there is none. */
    constructor (d: Disk, o: Options)
      ensures Valid() && isOpen && opts == o.WithDefaults()
      ensures disk == d[0 := File(d, 0)]
    {
      opts := o.WithDefaults();
      disk := d[0 := File(d, 0)];
      size := |File(d, 0)|;
      isOpen := true;
    }

    method Reopen()
      modifies this
      ensures isOpen && disk == old(disk)[0 := File(old(disk), 0)] && size == |disk[0]|
    {
      if 0 !in disk {
        disk := disk[0 := []];
      }
      isOpen, size := true, |disk[0]|;
    }

    method Remove(k: nat)
      modifies this`disk
      ensures disk == old(disk) - {k}
    {
      disk := disk - {k};
    }

    /** A missing source is not an error: there is nothing to move. */
    method Rename(from: nat, to: nat)
      requires from != to
      modifies this`disk
      ensures from !in old(disk) ==> disk == old(disk)
      ensures from in old(disk) ==> disk == (old(disk) - {from})[to := old(disk)[from]]
    {
      if from in disk {
        disk := (disk - {from})[to := disk[from]];
      }
    }

    method RotateLocked()
      requires Valid() && isOpen
      modifies this
      ensures Valid() && isOpen
      ensures disk == Shifted(old(disk), opts.maxFiles)
    {
      isOpen := false;
      if opts.maxFiles == 0 {
        Remove(0);
        Reopen();
        return;
      }
      Remove(opts.maxFiles);
      var i := opts.maxFiles - 1;
      while i >= 1
        invariant 0 <= i < opts.maxFiles && !isOpen
        invariant forall k: nat :: k in disk <==> MidHas(old(disk), opts.maxFiles, i, k)
        invariant forall k: nat :: File(disk, k) == MidFile(old(disk), opts.maxFiles, i, k)
      {
        ghost var before := disk;
        Rename(i, i + 1);
        MidStep(old(disk), before, disk, opts.maxFiles, i);
        i := i - 1;
      }
      ghost var before := disk;
      Rename(0, 1);
      MidStep(old(disk), before, disk, opts.maxFiles, 0);
      ghost var moved := disk;
      Reopen();
      MidDone(old(disk), moved, disk, opts.maxFiles);
    }

    method WriteLocked(p: Bytes)
      requires Valid() && isOpen
      modifies this
      ensures Valid() && isOpen
      ensures disk == Appended(old(disk), p)
    {
      disk := disk[0 := disk[0] + p];
      size := size + |p|;
    }

    method Write(p: Bytes) returns (ok: bool)
      requires Valid()
      modifies this
      ensures Valid() && isOpen == old(isOpen) == ok
      ensures ok ==> disk == Step(opts, old(disk), Append(p))
      ensures !ok ==> disk == old(disk)
    {
      if !isOpen {
        return false;
      }
      if size > 0 && size + |p| > opts.maxBytes {
        RotateLocked();
      }
      WriteLocked(p);
      ok := true;
    }

    method Rotate() returns (ok: bool)
      requires Valid()
      modifies this
      ensures Valid() && isOpen == old(isOpen) == ok
      ensures disk == if ok then Step(opts, old(disk), Force) else old(disk)
    {
      if !isOpen {
        return false;
      }
      RotateLocked();
      ok := true;
    }

    method Close()
      requires Valid()
      modifies this`isOpen
      ensures Valid() && !isOpen
    {
      isOpen := false;
    }
  }

  /** The generations a reader walks, newest first, skipping those that do not exist. */
  method Generations(d: Disk, maxFiles: int) returns (out: seq<nat>)
    ensures maxFiles > 0 ==> Lists(out, d, maxFiles)
    ensures maxFiles <= 0 ==> Lists(out, d, DEFAULT_MAX_FILES)
  {
    var limit := if maxFiles <= 0 then DEFAULT_MAX_FILES else maxFiles;
    out := [];
    for i: int := 1 to limit + 1
      invariant Lists(out, d, i - 1)
      invariant forall a :: 0 <= a < |out| ==> out[a] < i
    {
      if i in d {
        out := out + [i];
      }
    }
  }

  /** Generations 1 to m that exist, each once, newest first. */
  ghost predicate Lists(out: seq<nat>, d: Disk, m: nat) {
    && (forall k: nat :: k in out <==> 1 <= k <= m && k in d)
    && (forall i, j :: 0 <= i < j < |out| ==> out[i] < out[j])
  }

  // ---------------------------------------------------------------- what is kept

  lemma {:induction false} RetainedAppended<T>(d: Dir<T>, x: seq<T>, m: nat)
    ensures Retained(Appended(d, x), m) == Retained(d, m) + x
  {
    if m > 0 {
      RetainedAppended(d, x, m - 1);
    }
  }

  lemma {:induction false} RetainedShifted<T>(d: Dir<T>, kept: nat, m: nat)
    requires m <= kept
    ensures Retained(Shifted(d, kept), m) == if m == 0 then [] else Retained(d, m - 1)
  {
    var r := Shifted(d, kept);
    assert File(r, m) == ShiftedFile(d, kept, m);
    if m == 1 {
      assert File(r, 0) == [];
    } else if m > 1 {
      RetainedShifted(d, kept, m - 1);
    }
  }

  /** Rotation only ever forgets from the old end. */
  lemma ShiftForgetsOldest<T>(d: Dir<T>, kept: nat, m: nat)
    requires m <= kept
    ensures IsSuffix(Retained(Shifted(d, kept), m), Retained(d, m))
  {
    RetainedShifted(d, kept, m);
  }

  // ---------------------------------------------------------------- writes are never split

  function Flat(chunks: seq<Bytes>): Bytes {
    if chunks == [] then [] else Flat(chunks[..|chunks| - 1]) + chunks[|chunks| - 1]
  }

  lemma {:induction false} FlatConcat(a: seq<Bytes>, b: seq<Bytes>)
    ensures Flat(a + b) == Flat(a) + Flat(b)
  {
    if b == [] {
      assert a + b == a;
    } else {
      assert (a + b)[..|a + b| - 1] == a + b[..|b| - 1];
      FlatConcat(a, b[..|b| - 1]);
    }
  }

  /** A directory whose files are sequences of whole writes, and the bytes it stands for. */
  function FlatDir(c: Dir<Bytes>): Disk {
    map k | k in c :: Flat(c[k])
  }

  /** Whatever a file held at the start counts as one earlier write. */
  function Whole(d: Disk): Dir<Bytes> {
    map k | k in d :: [d[k]]
  }

  function ChunkStep(o: Options, c: Dir<Bytes>, op: Op): Dir<Bytes>
    requires o.Normal()
  {
    match op
    case Append(p) =>
      Appended(if Overflows(o, |Flat(File(c, 0))|, |p|) then Shifted(c, o.maxFiles) else c, [p])
    case Force => Shifted(c, o.maxFiles)
  }

  function ChunkRun(o: Options, c: Dir<Bytes>, ops: seq<Op>): Dir<Bytes>
    requires o.Normal()
  {
    if ops == [] then c else ChunkStep(o, ChunkRun(o, c, ops[..|ops| - 1]), ops[|ops| - 1])
  }

  function Writes(ops: seq<Op>): seq<Bytes> {
    if ops == [] then []
    else Writes(ops[..|ops| - 1]) + match ops[|ops| - 1] case Append(p) => [p] case Force => []
  }

  lemma FlatShifted(c: Dir<Bytes>, kept: nat)
    ensures FlatDir(Shifted(c, kept)) == Shifted(FlatDir(c), kept)
  {
    var a, b := FlatDir(Shifted(c, kept)), Shifted(FlatDir(c), kept);
    forall k: nat
      ensures k in a <==> k in b
      ensures File(a, k) == File(b, k)
    {
      assert ShiftedHas(c, kept, k) <==> ShiftedHas(FlatDir(c), kept, k);
      FlatFile(c, k);
      FlatFile(Shifted(c, kept), k);
      if k > 0 {
        FlatFile(c, k - 1);
      }
    }
    SameFiles(a, b);
  }

  lemma FlatFile(c: Dir<Bytes>, k: nat)
    ensures File(FlatDir(c), k) == Flat(File(c, k))
  {
  }

  lemma FlatAppended(c: Dir<Bytes>, p: Bytes)
    ensures FlatDir(Appended(c, [p])) == Appended(FlatDir(c), p)
  {
    FlatFile(c, 0);
    FlatConcat(File(c, 0), [p]);
    assert Flat([p]) == Flat([]) + p;
    var a, b := FlatDir(Appended(c, [p])), Appended(FlatDir(c), p);
    assert a.Keys == b.Keys;
  }

  lemma FlatStep(o: Options, c: Dir<Bytes>, op: Op)
    requires o.Normal()
    ensures FlatDir(ChunkStep(o, c, op)) == Step(o, FlatDir(c), op)
  {
    FlatShifted(c, o.maxFiles);
    match op
    case Force =>
    case Append(p) =>
      FlatFile(c, 0);
      FlatAppended(c, p);
      FlatAppended(Shifted(c, o.maxFiles), p);
  }

  lemma {:induction false} ChunkRunIsRun(o: Options, c: Dir<Bytes>, ops: seq<Op>)
    requires o.Normal()
    ensures FlatDir(ChunkRun(o, c, ops)) == Run(o, FlatDir(c), ops)
  {
    if ops != [] {
      ChunkRunIsRun(o, c, ops[..|ops| - 1]);
      FlatStep(o, ChunkRun(o, c, ops[..|ops| - 1]), ops[|ops| - 1]);
    }
  }

  /** One call: what is kept afterwards is recent, if what was kept before it was. */
  lemma StepSuffix<T>(d: Dir<T>, kept: nat, m: nat, x: seq<T>, history: seq<T>)
    requires m <= kept && IsSuffix(Retained(d, m), history)
    ensures IsSuffix(Retained(Shifted(d, kept), m), history)
    ensures IsSuffix(Retained(Appended(d, x), m), history + x)
    ensures IsSuffix(Retained(Appended(Shifted(d, kept), x), m), history + x)
  {
    ShiftForgetsOldest(d, kept, m);
    SuffixTrans(Retained(Shifted(d, kept), m), Retained(d, m), history);
    RetainedAppended(d, x, m);
    RetainedAppended(Shifted(d, kept), x, m);
    SuffixAppend(Retained(d, m), history, x);
    SuffixAppend(Retained(Shifted(d, kept), m), history, x);
  }

  lemma {:induction false} ChunkRunSuffix(o: Options, c: Dir<Bytes>, ops: seq<Op>, m: nat)
    requires o.Normal() && m <= o.maxFiles
    ensures IsSuffix(Retained(ChunkRun(o, c, ops), m), Retained(c, m) + Writes(ops))
  {
    if ops == [] {
      assert Retained(c, m) + Writes(ops) == Retained(c, m);
    } else {
      var earlier, op := ops[..|ops| - 1], ops[|ops| - 1];
      ChunkRunSuffix(o, c, earlier, m);
      var history := Retained(c, m) + Writes(earlier);
      assert Retained(c, m) + Writes(ops) == history + (match op case Append(p) => [p] case Force => []);
      StepSuffix(ChunkRun(o, c, earlier), o.maxFiles, m, match op case Append(p) => [p] case Force => [], history);
    }
  }

  /** Over any run, from any starting directory, the files from the oldest kept
      generation to the live one are whole writes, and put end to end they are the
      most recent of everything that was there and everything written since. */
  lemma RunKeepsWholeRecentWrites(o: Options, d: Disk, ops: seq<Op>)
    requires o.Normal()
    ensures FlatDir(ChunkRun(o, Whole(d), ops)) == Run(o, d, ops)
    ensures IsSuffix(Retained(ChunkRun(o, Whole(d), ops), o.maxFiles),
                     Retained(Whole(d), o.maxFiles) + Writes(ops))
  {
    assert FlatDir(Whole(d)) == d by {
      forall k | k in d
        ensures Flat(Whole(d)[k]) == d[k]
      {
        assert Whole(d)[k] == [d[k]];
        assert Flat([d[k]]) == Flat([]) + d[k];
      }
    }
    ChunkRunIsRun(o, Whole(d), ops);
    ChunkRunSuffix(o, Whole(d), ops, o.maxFiles);
  }

  // ---------------------------------------------------------------- the ceiling on bytes

  /** No kept file is longer than m. */
  ghost predicate FilesWithin(d: Disk, kept: nat, m: nat) {
    forall k: nat :: k <= kept ==> |File(d, k)| <= m
  }

  ghost predicate WritesWithin(ops: seq<Op>, m: nat) {
    forall i :: 0 <= i < |ops| && ops[i].Append? ==> |ops[i].bytes| <= m
  }

  lemma {:induction false} RunWithin(o: Options, d: Disk, ops: seq<Op>, m: nat)
    requires o.Normal() && o.maxBytes <= m && FilesWithin(d, o.maxFiles, m) && WritesWithin(ops, m)
    ensures FilesWithin(Run(o, d, ops), o.maxFiles, m)
  {
    if ops != [] {
      RunWithin(o, d, ops[..|ops| - 1], m);
      var before := Run(o, d, ops[..|ops| - 1]);
      var after := Step(o, before, ops[|ops| - 1]);
      forall k: nat | k <= o.maxFiles
        ensures |File(after, k)| <= m
      {
        assert |File(before, k)| <= m && |File(before, 0)| <= m;
        if k > 0 {
          assert |File(before, k - 1)| <= m;
        }
      }
    }
  }

  lemma {:induction false} TotalWithin(d: Disk, kept: nat, m: nat)
    requires FilesWithin(d, kept, m)
    ensures |Retained(d, kept)| <= (kept + 1) * m
  {
    if kept == 0 {
      assert |File(d, 0)| <= m;
    } else {
      TotalWithin(d, kept - 1, m);
      assert |File(d, kept)| <= m;
      assert (kept + 1) * m == kept * m + m;
    }
  }

  /** The hard ceiling: kept files plus the live one, each at most the budget or the
      longest single write, whichever is larger. */
  lemma RunStaysUnderCeiling(o: Options, d: Disk, ops: seq<Op>, longest: nat)
    requires o.Normal() && FilesWithin(d, o.maxFiles, longest) && WritesWithin(ops, longest)
    ensures |Retained(Run(o, d, ops), o.maxFiles)|
            <= (o.maxFiles + 1) * (if o.maxBytes >= longest then o.maxBytes else longest)
  {
    var m := if o.maxBytes >= longest then o.maxBytes else longest;
    RunWithin(o, d, ops, m);
    TotalWithin(Run(o, d, ops), o.maxFiles, m);
  }
}
