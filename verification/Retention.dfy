/** How long the rotated log keeps what it is given: internal/rotate/rotate.go. */
module Retention {
  import opened Common
  import opened Rotate

  lemma {:induction false} RetainedSuffix<T>(d: Dir<T>, lo: nat, hi: nat)
    requires lo <= hi
    ensures IsSuffix(Retained(d, lo), Retained(d, hi))
  {
    if lo < hi {
      RetainedSuffix(d, lo, hi - 1);
      SuffixTrans(Retained(d, lo), Retained(d, hi - 1), Retained(d, hi));
    }
  }

  /** What is kept is every generation whole, each in front of the newer ones. */
  lemma {:induction false} EveryGeneration<T>(d: Dir<T>, k: nat, m: nat) returns (older: seq<T>)
    requires k <= m
    ensures Retained(d, m) == older + File(d, k) + if k == 0 then [] else Retained(d, k - 1)
    decreases m
  {
    older := [];
    if k == m {
      assert File(d, m) == [] + File(d, m) + [];
    } else {
      older := EveryGeneration(d, k, m - 1);
      var newer := if k == 0 then [] else Retained(d, k - 1);
      Regroup(File(d, m), older, File(d, k));
      Regroup(File(d, m), older + File(d, k), newer);
      older := File(d, m) + older;
    }
  }

  // ---------------------------------------------------------------- how much is kept

  ghost predicate AppendsOnly(ops: seq<Op>) {
    forall i :: 0 <= i < |ops| ==> ops[i].Append?
  }

  /** Everything a run of calls was given to write. */
  function Written(ops: seq<Op>): Bytes {
    Flat(Writes(ops))
  }

  function BytesOf(op: Op): Bytes {
    match op case Append(p) => p case Force => []
  }

  lemma WrittenMore(earlier: seq<Op>, op: Op)
    ensures Written(earlier + [op]) == Written(earlier) + BytesOf(op)
  {
    var w := Writes(earlier);
    assert (earlier + [op])[..|earlier|] == earlier;
    match op
    case Force =>
      assert w + [] == w;
    case Append(p) =>
      FlatConcat(w, [p]);
      assert Flat([p]) == Flat([]) + p;
  }

  lemma RunMoreOps(o: Options, d: Disk, earlier: seq<Op>, op: Op)
    requires o.Normal()
    ensures Run(o, d, earlier + [op]) == Step(o, Run(o, d, earlier), op)
  {
    assert (earlier + [op])[..|earlier|] == earlier;
  }

  /** A write that fits, after others that did. */
  lemma FitsToo(o: Options, d: Disk, before: Disk, written: Bytes, p: Bytes)
    requires o.Normal() && |File(d, 0)| + |written| + |p| <= o.maxBytes
    requires before == d[0 := File(d, 0) + written] || (before == d && written == [])
    ensures Step(o, before, Append(p)) == d[0 := File(d, 0) + (written + p)]
  {
    Regroup(File(d, 0), written, p);
    assert File(d, 0) + [] == File(d, 0);
    var live := File(before, 0) + p;
    assert live == File(d, 0) + (written + p);
    assert before[0 := live] == d[0 := live];
  }

  /** What fits stays: writes that the live file has room for are appended to it, and nothing
      else changes. */
  lemma {:induction false} WritesThatFitStay(o: Options, d: Disk, ops: seq<Op>)
    requires o.Normal() && AppendsOnly(ops) && |File(d, 0)| + |Written(ops)| <= o.maxBytes
    ensures Run(o, d, ops) == if ops == [] then d else d[0 := File(d, 0) + Written(ops)]
  {
    if ops != [] {
      var earlier, op := ops[..|ops| - 1], ops[|ops| - 1];
      assert ops == earlier + [op];
      WrittenMore(earlier, op);
      WritesThatFitStay(o, d, earlier);
      FitsToo(o, d, Run(o, d, earlier), Written(earlier), op.bytes);
    }
  }

  /** The first write that does not fit behind something else starts a live file of its own;
      everything written before it is one generation older, the oldest kept one gone. */
  lemma FirstThatDoesNotFit(o: Options, d: Disk, ops: seq<Op>, p: Bytes)
    requires o.Normal() && AppendsOnly(ops) && 0 < |File(d, 0)| + |Written(ops)| <= o.maxBytes
    requires |File(d, 0)| + |Written(ops)| + |p| > o.maxBytes
    ensures var after := Run(o, d, ops + [Append(p)]);
      && File(after, 0) == p
      && (o.maxFiles > 0 ==> File(after, 1) == File(d, 0) + Written(ops))
      && forall k: nat :: k > 1 ==> File(after, k) == File(d, if k <= o.maxFiles then k - 1 else k)
  {
    WritesThatFitStay(o, d, ops);
    RunMoreOps(o, d, ops, Append(p));
    var before, after := Run(o, d, ops), Run(o, d, ops + [Append(p)]);
    assert File(before, 0) == File(d, 0) + Written(ops) by {
      assert ops == [] ==> Written(ops) == [] && File(d, 0) + [] == File(d, 0);
    }
    var s := Shifted(before, o.maxFiles);
    assert after == Appended(s, p);
    forall k: nat
      ensures k > 0 ==> File(after, k) == ShiftedFile(before, o.maxFiles, k)
    {
      assert File(s, k) == ShiftedFile(before, o.maxFiles, k);
    }
  }

  /** What has been in the live file since a run began, how often the run has rotated, and the
      directory it leaves. */
  datatype Kept = Kept(since: Bytes, rotated: nat, disk: Disk)

  predicate Rotates(o: Options, d: Disk, op: Op) {
    match op case Append(p) => Overflows(o, |File(d, 0)|, |p|) case Force => true
  }

  function NextKept(o: Options, k: Kept, op: Op): Kept
    requires o.Normal()
  {
    var rotated := k.rotated + if Rotates(o, k.disk, op) then 1 else 0;
    Kept(if op.Append? then k.since + op.bytes else k.since, rotated, Step(o, k.disk, op))
  }

  function KeptAfter(o: Options, d: Disk, ops: seq<Op>): Kept
    requires o.Normal()
  {
    if ops == [] then Kept(File(d, 0), 0, d)
    else NextKept(o, KeptAfter(o, d, ops[..|ops| - 1]), ops[|ops| - 1])
  }

  lemma {:induction false} KeptAfterRun(o: Options, d: Disk, ops: seq<Op>)
    requires o.Normal()
    ensures KeptAfter(o, d, ops).since == File(d, 0) + Written(ops) && KeptAfter(o, d, ops).disk == Run(o, d, ops)
  {
    if ops == [] {
      NothingMore(File(d, 0));
    } else {
      var earlier, op := ops[..|ops| - 1], ops[|ops| - 1];
      KeptAfterRun(o, d, earlier);
      assert ops == earlier + [op];
      WrittenMore(earlier, op);
      Regroup(File(d, 0), Written(earlier), BytesOf(op));
      NothingMore(File(d, 0) + Written(earlier));
    }
  }

  lemma NothingMore(written: Bytes)
    ensures written + [] == written
  {
  }

  /** Where the n bytes that were live at the start of a run have got to: one generation on for
      each rotation, with all that was written since after them; or gone. */
  ghost predicate Follows(o: Options, n: nat, k: Kept)
    requires o.Normal()
  {
    if k.rotated <= o.maxFiles then Retained(k.disk, k.rotated) == k.since && |File(k.disk, k.rotated)| >= n
    else |Retained(k.disk, o.maxFiles)| + n <= |k.since|
  }

  lemma FollowsAppended(o: Options, n: nat, k: Kept, op: Op)
    requires o.Normal() && Follows(o, n, k) && !Rotates(o, k.disk, op)
    ensures Follows(o, n, NextKept(o, k, op))
  {
    RetainedAppended(k.disk, op.bytes, if k.rotated <= o.maxFiles then k.rotated else o.maxFiles);
  }

  lemma FollowsShifted(o: Options, n: nat, k: Kept)
    requires o.Normal() && Follows(o, n, k)
    ensures Follows(o, n, NextKept(o, k, Force))
  {
    var r := if k.rotated < o.maxFiles then k.rotated + 1 else o.maxFiles;
    RetainedShifted(k.disk, o.maxFiles, r);
    assert File(Shifted(k.disk, o.maxFiles), r) == ShiftedFile(k.disk, o.maxFiles, r);
  }

  lemma FollowsBoth(o: Options, n: nat, k: Kept, op: Op)
    requires o.Normal() && Follows(o, n, k) && op.Append? && Rotates(o, k.disk, op)
    ensures Follows(o, n, NextKept(o, k, op))
  {
    var r := if k.rotated < o.maxFiles then k.rotated + 1 else o.maxFiles;
    RetainedShifted(k.disk, o.maxFiles, r);
    RetainedAppended(Shifted(k.disk, o.maxFiles), op.bytes, r);
    assert File(Shifted(k.disk, o.maxFiles), r) == ShiftedFile(k.disk, o.maxFiles, r);
  }

  lemma FollowsStep(o: Options, n: nat, k: Kept, op: Op)
    requires o.Normal() && Follows(o, n, k)
    ensures Follows(o, n, NextKept(o, k, op))
  {
    if !Rotates(o, k.disk, op) {
      FollowsAppended(o, n, k, op);
    } else if op.Force? {
      FollowsShifted(o, n, k);
    } else {
      FollowsBoth(o, n, k, op);
    }
  }

  lemma {:induction false} RunFollows(o: Options, d: Disk, ops: seq<Op>)
    requires o.Normal()
    ensures Follows(o, |File(d, 0)|, KeptAfter(o, d, ops))
  {
    if ops != [] {
      RunFollows(o, d, ops[..|ops| - 1]);
      FollowsStep(o, |File(d, 0)|, KeptAfter(o, d, ops[..|ops| - 1]), ops[|ops| - 1]);
    }
  }

  /** A file is closed only when the next write would not have fitted in it. */
  lemma {:induction false} ClosedFull(o: Options, d: Disk, ops: seq<Op>, longest: nat, k: nat)
    requires o.Normal() && AppendsOnly(ops) && WritesWithin(ops, longest)
    requires 1 <= k <= o.maxFiles && k <= KeptAfter(o, d, ops).rotated
    ensures |File(KeptAfter(o, d, ops).disk, k)| + longest > o.maxBytes
  {
    if ops != [] {
      var earlier, op := ops[..|ops| - 1], ops[|ops| - 1];
      var before := KeptAfter(o, d, earlier).disk;
      if Rotates(o, before, op) {
        assert File(Shifted(before, o.maxFiles), k) == ShiftedFile(before, o.maxFiles, k);
        if k > 1 {
          ClosedFull(o, d, earlier, longest, k - 1);
        }
      } else {
        ClosedFull(o, d, earlier, longest, k);
      }
    }
  }

  lemma {:induction false} ClosedTotal(o: Options, d: Disk, ops: seq<Op>, longest: nat, k: nat)
    requires o.Normal() && AppendsOnly(ops) && WritesWithin(ops, longest)
    requires k <= o.maxFiles && k <= KeptAfter(o, d, ops).rotated
    ensures |Retained(KeptAfter(o, d, ops).disk, k)| >= k * (o.maxBytes - longest + 1)
  {
    if k > 0 {
      ClosedFull(o, d, ops, longest, k);
      ClosedTotal(o, d, ops, longest, k - 1);
      assert k * (o.maxBytes - longest + 1) == (k - 1) * (o.maxBytes - longest + 1) + (o.maxBytes - longest + 1);
    }
  }

  /** Short of what all the closed files must hold, no more rotations than generations kept. */
  lemma FewRotations(o: Options, d: Disk, ops: seq<Op>, longest: nat)
    requires o.Normal() && AppendsOnly(ops) && WritesWithin(ops, longest)
    requires |Written(ops)| < o.maxFiles * (o.maxBytes - longest + 1)
    ensures KeptAfter(o, d, ops).rotated <= o.maxFiles
  {
    KeptAfterRun(o, d, ops);
    RunFollows(o, d, ops);
    if KeptAfter(o, d, ops).rotated > o.maxFiles {
      ClosedTotal(o, d, ops, longest, o.maxFiles);
      assert false;
    }
  }

  /** How long a byte is kept: nothing in the live file is forgotten, nor anything written after
      it, before maxFiles times the budget has been written since, less what the longest write
      could leave free at the end of each file. */
  lemma RecentBytesKept(o: Options, d: Disk, ops: seq<Op>, longest: nat)
    requires o.Normal() && AppendsOnly(ops) && WritesWithin(ops, longest)
    requires |Written(ops)| < o.maxFiles * (o.maxBytes - longest + 1)
    ensures IsSuffix(File(d, 0) + Written(ops), Retained(Run(o, d, ops), o.maxFiles))
  {
    KeptAfterRun(o, d, ops);
    RunFollows(o, d, ops);
    FewRotations(o, d, ops, longest);
    RetainedSuffix(Run(o, d, ops), KeptAfter(o, d, ops).rotated, o.maxFiles);
  }

  /** The default policy: two generations beside the live file and six mebibytes in all. */
  lemma DefaultCeiling(d: Disk, ops: seq<Op>)
    requires FilesWithin(d, 2, 2097152) && WritesWithin(ops, 2097152)
    ensures var o := Options(0, 0).WithDefaults();
      o.maxFiles == 2 && |Retained(Run(o, d, ops), 2)| <= 6291456
  {
    RunStaysUnderCeiling(Options(0, 0).WithDefaults(), d, ops, 2097152);
  }
}
