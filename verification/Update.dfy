/** Which release is newer, and whether to report one: internal/update/update.go. */
module Update {
  import opened Common
  import opened Text

  const INT_MAX: int := 0x7FFF_FFFF_FFFF_FFFF
  const CHANNEL_BETA := "beta"
  const RELEASES_PAGE := "https://github.com/atakankizilyuce/LeaveSafe/releases/latest"

  // ---------------------------------------------------------------- reading a version

  predicate IsDigit(c: char) {
    '0' <= c <= '9'
  }

  predicate AllDigits(s: string) {
    forall i :: 0 <= i < |s| ==> IsDigit(s[i])
  }

  function Number(s: string): nat
    requires AllDigits(s)
  {
    if s == "" then 0 else 10 * Number(s[..|s| - 1]) + (s[|s| - 1] as int - '0' as int)
  }

  /** strconv.Atoi: an optional sign, then digits, within 64 bits. */
  function Atoi(s: string): Option<int> {
    var negative := s != "" && s[0] == '-';
    var ds := if s != "" && (s[0] == '-' || s[0] == '+') then s[1..] else s;
    if ds == "" || !AllDigits(ds) then None
    else
      var n: int := if negative then 0 - Number(ds) else Number(ds);
      if -INT_MAX - 1 <= n <= INT_MAX then Some(n) else None
  }

  /** Where the first of some characters is, or the length. */
  function IndexAny(s: string, chars: string): (i: nat)
    ensures i <= |s|
  {
    if s == "" then 0 else if s[0] in chars then 0 else 1 + IndexAny(s[1..], chars)
  }

  lemma {:induction false} IndexAnyIsFirst(s: string, chars: string)
    ensures var i := IndexAny(s, chars);
      (i < |s| ==> s[i] in chars) && forall j :: 0 <= j < i ==> s[j] !in chars
  {
    if s != "" && s[0] !in chars {
      IndexAnyIsFirst(s[1..], chars);
    }
  }

  lemma IndexAnyIs(s: string, chars: string, i: nat)
    requires i <= |s| && (i < |s| ==> s[i] in chars) && forall j :: 0 <= j < i ==> s[j] !in chars
    ensures IndexAny(s, chars) == i
  {
    IndexAnyIsFirst(s, chars);
  }

  /** strings.Split: one more piece than there are separators. */
  function Split(s: string, sep: char): seq<string>
    decreases |s|
  {
    var i := IndexAny(s, [sep]);
    if i == |s| then [s] else [s[..i]] + Split(s[i + 1..], sep)
  }

  function Join(pieces: seq<string>, sep: char): string {
    if pieces == [] then "" else if |pieces| == 1 then pieces[0] else pieces[0] + [sep] + Join(pieces[1..], sep)
  }

  ghost predicate WithoutChar(s: string, c: char) {
    forall i :: 0 <= i < |s| ==> s[i] != c
  }

  lemma JoinCons(piece: string, pieces: seq<string>, sep: char)
    requires |pieces| >= 1
    ensures Join([piece] + pieces, sep) == piece + [sep] + Join(pieces, sep)
  {
    assert ([piece] + pieces)[1..] == pieces;
  }

  lemma Glue(s: string, i: nat, sep: char)
    requires i < |s| && s[i] == sep
    ensures s[..i] + [sep] + s[i + 1..] == s
  {
  }

  /** The pieces hold no separator, and joined by it they are the text. */
  lemma {:induction false} SplitJoins(s: string, sep: char)
    ensures |Split(s, sep)| >= 1 && Join(Split(s, sep), sep) == s
    ensures forall k :: 0 <= k < |Split(s, sep)| ==> WithoutChar(Split(s, sep)[k], sep)
    decreases |s|
  {
    var i := IndexAny(s, [sep]);
    IndexAnyIsFirst(s, [sep]);
    if i < |s| {
      SplitJoins(s[i + 1..], sep);
      JoinCons(s[..i], Split(s[i + 1..], sep), sep);
      Glue(s, i, sep);
    }
  }

  /** Splitting leaves out what the text leaves out. */
  lemma {:induction false} SplitWithout(s: string, sep: char, c: char)
    requires WithoutChar(s, c)
    ensures forall k :: 0 <= k < |Split(s, sep)| ==> WithoutChar(Split(s, sep)[k], c)
    decreases |s|
  {
    var i := IndexAny(s, [sep]);
    if i < |s| {
      SplitWithout(s[i + 1..], sep, c);
    }
  }

  function TrimV(s: string): string {
    if s != "" && s[0] == 'v' then s[1..] else s
  }

  /** The numbers at the front of some fields, up to the first that is not one. */
  function Numbers(fields: seq<string>): seq<int> {
    if fields == [] || Atoi(fields[0]).None? then [] else [Atoi(fields[0]).value] + Numbers(fields[1..])
  }

  /** The version without spaces, leading v, and anything from the first - or + on. */
  function Core(v: string): string {
    var t := TrimV(Trim(v));
    t[..IndexAny(t, "-+")]
  }

  function Parts(v: string): seq<int> {
    Numbers(Split(Core(v), '.'))
  }

  ghost predicate InRange(ns: seq<int>) {
    forall k :: 0 <= k < |ns| ==> 0 <= ns[k] <= INT_MAX
  }

  lemma {:induction false} NumbersInRange(fields: seq<string>)
    requires forall k :: 0 <= k < |fields| ==> WithoutChar(fields[k], '-')
    ensures InRange(Numbers(fields))
  {
    if fields != [] && Atoi(fields[0]).Some? {
      NumbersInRange(fields[1..]);
      assert fields[0] != "" ==> fields[0][0] != '-';
    }
  }

  /** The suffix is gone before the numbers are read, so no number carries a minus sign. */
  lemma PartsInRange(v: string)
    ensures InRange(Parts(v))
  {
    var t := TrimV(Trim(v));
    IndexAnyIsFirst(t, "-+");
    assert WithoutChar(Core(v), '-');
    SplitWithout(Core(v), '.', '-');
    NumbersInRange(Split(Core(v), '.'));
  }

  predicate HasPrerelease(v: string) {
    var t := TrimV(Trim(v));
    IndexAny(t, "-+") < |t|
  }

  method VersionParts(v: string) returns (out: seq<int>)
    ensures out == Parts(v)
  {
    var t := TrimV(Trim(v));
    var i := IndexAny(t, "-+");
    if i < |t| {
      t := t[..i];
    }
    assert t == Core(v);
    var fields := Split(t, '.');
    out := ReadNumbers(fields);
  }

  method ReadNumbers(fields: seq<string>) returns (out: seq<int>)
    ensures out == Numbers(fields)
  {
    out := [];
    for k := 0 to |fields|
      invariant Numbers(fields) == out + Numbers(fields[k..])
    {
      assert fields[k..][0] == fields[k] && fields[k..][1..] == fields[k + 1..];
      var n := Atoi(fields[k]);
      if n.None? {
        assert out + [] == out;
        return;
      }
      Regroup(out, [n.value], Numbers(fields[k + 1..]));
      out := out + [n.value];
    }
    assert fields[|fields|..] == [];
  }

  // ---------------------------------------------------------------- the order

  /** The ith number of a version, every version going on for ever in zeroes. */
  function At(p: seq<int>, i: nat): int {
    if i < |p| then p[i] else 0
  }

  ghost predicate SameTo(p: seq<int>, q: seq<int>, i: nat) {
    forall j: nat :: j < i ==> At(p, j) == At(q, j)
  }

  /** At the first place they differ, p has the smaller number. */
  ghost predicate Less(p: seq<int>, q: seq<int>) {
    exists i: nat :: LessAt(p, q, i)
  }

  ghost predicate LessAt(p: seq<int>, q: seq<int>, i: nat) {
    SameTo(p, q, i) && At(p, i) < At(q, i)
  }

  ghost predicate Same(p: seq<int>, q: seq<int>) {
    forall i: nat :: At(p, i) == At(q, i)
  }

  /** a is an older version than b: smaller numbers, or the same ones and only a carries
      a pre-release or build suffix. */
  ghost predicate Older(a: string, b: string) {
    Less(Parts(a), Parts(b)) || (Same(Parts(a), Parts(b)) && HasPrerelease(a) && !HasPrerelease(b))
  }

  ghost predicate Equivalent(a: string, b: string) {
    Same(Parts(a), Parts(b)) && HasPrerelease(a) == HasPrerelease(b)
  }

  lemma LessAsymmetric(p: seq<int>, q: seq<int>)
    requires Less(p, q)
    ensures !Less(q, p) && !Same(p, q)
  {
    var i: nat :| LessAt(p, q, i);
    forall j: nat
      ensures !LessAt(q, p, j)
    {
      NotBothLess(p, q, i, j);
    }
  }

  lemma NotBothLess(p: seq<int>, q: seq<int>, i: nat, j: nat)
    requires LessAt(p, q, i)
    ensures !LessAt(q, p, j)
  {
    assert j < i ==> At(p, j) == At(q, j);
    assert At(p, i) != At(q, i);
  }

  lemma LessTransitive(p: seq<int>, q: seq<int>, r: seq<int>)
    requires Less(p, q) && Less(q, r)
    ensures Less(p, r)
  {
    var i: nat :| LessAt(p, q, i);
    var j: nat :| LessAt(q, r, j);
    var k := if i < j then i else j;
    assert SameTo(p, q, k) && SameTo(q, r, k);
    assert LessAt(p, r, k);
  }

  lemma LessSame(p: seq<int>, q: seq<int>, r: seq<int>)
    requires Same(p, q)
    ensures Less(p, r) <==> Less(q, r)
    ensures Less(r, p) <==> Less(r, q)
    ensures Same(p, r) <==> Same(q, r)
  {
    forall i: nat
      ensures LessAt(p, r, i) <==> LessAt(q, r, i)
      ensures LessAt(r, p, i) <==> LessAt(r, q, i)
    {
    }
  }

  /** Two lists of numbers that agree up to i compare, one way or as the same. */
  lemma {:induction false} Trichotomy(p: seq<int>, q: seq<int>, i: nat)
    requires SameTo(p, q, i)
    ensures Less(p, q) || Less(q, p) || Same(p, q)
    decreases (if |p| > |q| then |p| else |q|) - i
  {
    if i >= |p| && i >= |q| {
      forall j: nat
        ensures At(p, j) == At(q, j)
      {
      }
    } else if At(p, i) == At(q, i) {
      Trichotomy(p, q, i + 1);
    } else {
      assert LessAt(p, q, i) || LessAt(q, p, i);
    }
  }

  /** Newness orders all version strings whatever: exactly one of older, equivalent and
      newer holds, and both older and "not newer" carry over. */
  lemma TotalPreorder(a: string, b: string, c: string)
    ensures Older(a, b) || Older(b, a) || Equivalent(a, b)
    ensures !(Older(a, b) && Older(b, a)) && !(Older(a, b) && Equivalent(a, b))
    ensures Equivalent(a, a) && (Equivalent(a, b) ==> Equivalent(b, a))
    ensures Older(a, b) && Older(b, c) ==> Older(a, c)
    ensures !Older(b, a) && !Older(c, b) ==> !Older(c, a)
    ensures Equivalent(a, b) && Equivalent(b, c) ==> Equivalent(a, c)
  {
    Compared(a, b);
    Compared(b, c);
    Compared(a, c);
    var p, q, r := Parts(a), Parts(b), Parts(c);
    if Less(p, q) && Less(q, r) {
      LessTransitive(p, q, r);
    }
    if Same(p, q) {
      LessSame(p, q, r);
    }
    if Same(q, r) {
      LessSame(q, r, p);
    }
  }

  lemma Compared(a: string, b: string)
    ensures var p, q := Parts(a), Parts(b);
      && (Less(p, q) || Less(q, p) || Same(p, q))
      && !(Less(p, q) && Less(q, p)) && !(Less(p, q) && Same(p, q)) && !(Less(q, p) && Same(p, q))
      && (Same(p, q) <==> Same(q, p))
  {
    var p, q := Parts(a), Parts(b);
    Trichotomy(p, q, 0);
    if Less(p, q) {
      LessAsymmetric(p, q);
    }
    if Less(q, p) {
      LessAsymmetric(q, p);
    }
  }

  /** The sign says which is older; the difference never leaves 64 bits. */
  method CompareVersions(a: string, b: string) returns (c: int)
    ensures c < 0 <==> Older(a, b)
    ensures c > 0 <==> Older(b, a)
    ensures c == 0 <==> Equivalent(a, b)
    ensures -INT_MAX <= c <= INT_MAX
  {
    var pa := VersionParts(a);
    var pb := VersionParts(b);
    PartsInRange(a);
    PartsInRange(b);
    c := CompareNumbers(pa, pb);
    Compared(a, b);
    if c != 0 {
      return;
    }
    var preA, preB := HasPrerelease(a), HasPrerelease(b);
    if preA && !preB {
      return -1;
    }
    if !preA && preB {
      return 1;
    }
  }

  method CompareNumbers(pa: seq<int>, pb: seq<int>) returns (c: int)
    requires InRange(pa) && InRange(pb)
    ensures c < 0 ==> Less(pa, pb)
    ensures c > 0 ==> Less(pb, pa)
    ensures c == 0 ==> Same(pa, pb)
    ensures -INT_MAX <= c <= INT_MAX
  {
    for i := 0 to if |pa| > |pb| then |pa| else |pb|
      invariant SameTo(pa, pb, i)
    {
      var x, y := 0, 0;
      if i < |pa| {
        x := pa[i];
      }
      if i < |pb| {
        y := pb[i];
      }
      if x != y {
        assert LessAt(pa, pb, i) || LessAt(pb, pa, i);
        return x - y;
      }
    }
    assert Same(pa, pb);
    c := 0;
  }

  /** A missing number counts as a zero. */
  lemma ZeroPadded(p: seq<int>)
    ensures Same(p, p + [0])
  {
  }

  /** A suffix makes a version older than the same one without it. */
  lemma PrereleaseFirst(v: string, suffix: string)
    requires v != "" && Trim(v) == v && '-' !in v && '+' !in v
    requires Trim(v + "-" + suffix) == v + "-" + suffix
    ensures Older(v + "-" + suffix, v)
  {
    var t, u := TrimV(v), TrimV(v + "-" + suffix);
    assert u == t + "-" + suffix;
    assert u[|t|] == '-' && u[..|t|] == t;
    assert forall j :: 0 <= j < |t| ==> t[j] in v;
    IndexAnyIs(t, "-+", |t|);
    IndexAnyIs(u, "-+", |t|);
    assert Core(v) == t == Core(v + "-" + suffix);
    SameItself(Parts(v));
  }

  lemma SameItself(p: seq<int>)
    ensures Same(p, p)
  {
  }

  // ---------------------------------------------------------------- choosing a release

  datatype Release = Release(tag: string, url: string, draft: bool, prerelease: bool)
  datatype Found = Found(available: bool, latest: string, url: string)

  /** A leading v at most, one to four numbers, and at most one suffix after a dash. */
  predicate TagLike(tag: string) {
    var t := TrimV(tag);
    var i := IndexAny(t, "-");
    var fields: seq<string> := Split(t[..i], '.');
    && |fields| <= 4
    && (forall k :: 0 <= k < |fields| ==> fields[k] != "" && AllDigits(fields[k]))
    && (i < |t| ==> i + 1 < |t| && forall j :: i < j < |t| ==> SuffixChar(t[j]))
  }

  predicate SuffixChar(c: char) {
    IsDigit(c) || 'A' <= c <= 'Z' || 'a' <= c <= 'z' || c == '.' || c == '-'
  }

  predicate Eligible(channel: string, r: Release) {
    && !r.draft && r.tag != ""
    && (r.prerelease ==> channel == CHANNEL_BETA)
    && TagLike(r.tag)
  }

  /** Anything that starts with a number, give or take spaces and a v. */
  predicate IsRelease(v: string) {
    var t := TrimV(Trim(v));
    t != "" && t != "dev" && Atoi(t[..IndexAny(t, ".")]).Some?
  }

  /** github tells whether an address parses as https on github.com. */
  function ReleaseUrl(github: string -> bool, raw: string): string {
    if raw == "" || !github(raw) then RELEASES_PAGE else raw
  }

  /** The release at i is eligible and no eligible one is newer, nor as new and listed before it. */
  ghost predicate Best(channel: string, rels: seq<Release>, i: nat) {
    && i < |rels| && Eligible(channel, rels[i])
    && (forall j :: 0 <= j < |rels| && Eligible(channel, rels[j]) ==> !Older(rels[i].tag, rels[j].tag))
    && (forall j :: 0 <= j < i && Eligible(channel, rels[j]) ==> Older(rels[j].tag, rels[i].tag))
  }

  ghost predicate NewerExists(channel: string, rels: seq<Release>, current: string) {
    exists j :: 0 <= j < |rels| && Eligible(channel, rels[j]) && Older(current, rels[j].tag)
  }

  ghost predicate Reports(channel: string, github: string -> bool, current: string, rels: seq<Release>, i: nat,
                          f: Found)
  {
    Best(channel, rels, i) && Older(current, rels[i].tag)
    && f == Found(true, rels[i].tag, ReleaseUrl(github, rels[i].url))
  }

  /** A newer release is reported exactly when a release is running and an eligible one is newer. */
  ghost predicate Answers(channel: string, github: string -> bool, current: string, rels: seq<Release>, f: Found) {
    && (f.available <==> IsRelease(current) && NewerExists(channel, rels, current))
    && (f.available ==> exists i: nat :: Reports(channel, github, current, rels, i, f))
    && (!f.available ==> f == NOTHING)
  }

  const NOTHING := Found(false, "", "")

  lemma NothingEligible(channel: string, github: string -> bool, current: string, rels: seq<Release>)
    requires forall j :: 0 <= j < |rels| ==> !Eligible(channel, rels[j])
    ensures Answers(channel, github, current, rels, NOTHING)
  {
  }

  lemma NothingNewer(channel: string, github: string -> bool, current: string, rels: seq<Release>, i: nat)
    requires Best(channel, rels, i) && !Older(current, rels[i].tag)
    ensures Answers(channel, github, current, rels, NOTHING)
  {
    BestDecides(channel, rels, i, current);
  }

  lemma BestNewer(channel: string, github: string -> bool, current: string, rels: seq<Release>, i: nat)
    requires IsRelease(current) && Best(channel, rels, i) && Older(current, rels[i].tag)
    ensures Answers(channel, github, current, rels, Found(true, rels[i].tag, ReleaseUrl(github, rels[i].url)))
  {
    BestDecides(channel, rels, i, current);
    assert Reports(channel, github, current, rels, i, Found(true, rels[i].tag, ReleaseUrl(github, rels[i].url)));
  }

  method Check(channel: string, github: string -> bool, current: string, rels: seq<Release>) returns (f: Found)
    ensures Answers(channel, github, current, rels, f)
  {
    if !IsRelease(current) {
      return NOTHING;
    }
    var best := PickBest(channel, rels);
    if best.None? {
      NothingEligible(channel, github, current, rels);
      return NOTHING;
    }
    var r := rels[best.value];
    var c := CompareVersions(r.tag, current);
    if c <= 0 {
      NothingNewer(channel, github, current, rels, best.value);
      return NOTHING;
    }
    BestNewer(channel, github, current, rels, best.value);
    f := Found(true, r.tag, ReleaseUrl(github, r.url));
  }

  /** best is the best of the first i. */
  ghost predicate Picked(channel: string, rels: seq<Release>, i: nat, best: Option<nat>) {
    && i <= |rels| && (best.Some? ==> best.value < i)
    && BestSoFar(OlderRel(), EligibleOn(channel), rels[..i], best)
  }

  lemma NothingPicked(channel: string, rels: seq<Release>)
    ensures Picked(channel, rels, 0, None)
  {
  }

  lemma PickedOneMore(channel: string, rels: seq<Release>, i: nat, was: Option<nat>, best: Option<nat>)
    requires Picked(channel, rels, i, was) && i < |rels|
    requires best == if Eligible(channel, rels[i]) && (was.None? || Older(rels[was.value].tag, rels[i].tag))
                     then Some(i) else was
    ensures Picked(channel, rels, i + 1, best)
  {
    OlderIsWeakOrder();
    assert rels[..i + 1] == rels[..i] + [rels[i]];
    BestOfMore(OlderRel(), EligibleOn(channel), rels[..i], rels[i], was, best);
  }

  lemma AllPicked(channel: string, rels: seq<Release>, best: Option<nat>)
    requires Picked(channel, rels, |rels|, best)
    ensures best.None? ==> forall j :: 0 <= j < |rels| ==> !Eligible(channel, rels[j])
    ensures best.Some? ==> Best(channel, rels, best.value)
  {
    assert rels[..|rels|] == rels;
    if best.Some? {
      BestIs(channel, rels, best.value);
    }
  }

  method PickBest(channel: string, rels: seq<Release>) returns (best: Option<nat>)
    ensures best.None? ==> forall j :: 0 <= j < |rels| ==> !Eligible(channel, rels[j])
    ensures best.Some? ==> Best(channel, rels, best.value)
  {
    best := None;
    NothingPicked(channel, rels);
    for i: nat := 0 to |rels|
      invariant Picked(channel, rels, i, best)
    {
      ghost var was := best;
      if Eligible(channel, rels[i]) {
        if best.None? {
          best := Some(i);
        } else {
          var c := CompareVersions(rels[i].tag, rels[best.value].tag);
          if c > 0 {
            best := Some(i);
          }
        }
      }
      PickedOneMore(channel, rels, i, was, best);
    }
    AllPicked(channel, rels, best);
  }

  // Picking the best of a list under any weak order.

  ghost predicate WeakOrder<T(!new)>(older: (T, T) -> bool) {
    && (forall a, b :: older(a, b) ==> !older(b, a))
    && (forall a, b, c :: older(a, b) && !older(c, b) ==> older(a, c))
    && (forall a, b, c :: !older(a, b) && older(c, b) ==> older(c, a))
  }

  ghost predicate BestIn<T(!new)>(older: (T, T) -> bool, ok: T -> bool, xs: seq<T>, i: nat) {
    && i < |xs| && ok(xs[i])
    && (forall j :: 0 <= j < |xs| && ok(xs[j]) ==> !older(xs[i], xs[j]))
    && (forall j :: 0 <= j < i && ok(xs[j]) ==> older(xs[j], xs[i]))
  }

  ghost predicate BestSoFar<T(!new)>(older: (T, T) -> bool, ok: T -> bool, xs: seq<T>, best: Option<nat>) {
    match best
    case None => forall j :: 0 <= j < |xs| ==> !ok(xs[j])
    case Some(i) => BestIn(older, ok, xs, i)
  }

  /** One more element, and which of it and the best so far is kept. */
  lemma BestOfMore<T(!new)>(older: (T, T) -> bool, ok: T -> bool, xs: seq<T>, x: T, best: Option<nat>,
                            next: Option<nat>)
    requires WeakOrder(older) && BestSoFar(older, ok, xs, best)
    requires next == if !ok(x) then best
                     else if best.None? || older(xs[best.value], x) then Some(|xs|) else best
    ensures BestSoFar(older, ok, xs + [x], next)
  {
  }

  lemma BestIsNewest<T(!new)>(older: (T, T) -> bool, ok: T -> bool, xs: seq<T>, i: nat, current: T)
    requires WeakOrder(older) && BestIn(older, ok, xs, i)
    ensures older(current, xs[i]) <==> exists j :: 0 <= j < |xs| && ok(xs[j]) && older(current, xs[j])
  {
  }

  ghost function OlderRel(): (Release, Release) -> bool {
    (a: Release, b: Release) => Older(a.tag, b.tag)
  }

  function EligibleOn(channel: string): Release -> bool {
    (r: Release) => Eligible(channel, r)
  }

  lemma OlderIsWeakOrder()
    ensures WeakOrder(OlderRel())
  {
    var older := OlderRel();
    forall a, b, c
      ensures older(a, b) ==> !older(b, a)
      ensures older(a, b) && !older(c, b) ==> older(a, c)
      ensures !older(a, b) && older(c, b) ==> older(c, a)
    {
      WeakSteps(a.tag, b.tag, c.tag);
    }
  }

  lemma WeakSteps(a: string, b: string, c: string)
    ensures Older(a, b) ==> !Older(b, a)
    ensures Older(a, b) && !Older(c, b) ==> Older(a, c)
    ensures !Older(a, b) && Older(c, b) ==> Older(c, a)
  {
    TotalPreorder(a, b, c);
    TotalPreorder(b, c, a);
    TotalPreorder(c, b, a);
    TotalPreorder(c, a, b);
  }

  lemma BestIs(channel: string, rels: seq<Release>, i: nat)
    ensures Best(channel, rels, i) <==> BestIn(OlderRel(), EligibleOn(channel), rels, i)
  {
  }

  /** Something eligible is newer than current exactly when the best one is. */
  lemma BestDecides(channel: string, rels: seq<Release>, i: nat, current: string)
    requires Best(channel, rels, i)
    ensures NewerExists(channel, rels, current) <==> Older(current, rels[i].tag)
  {
    OlderIsWeakOrder();
    BestIs(channel, rels, i);
    BestIsNewest(OlderRel(), EligibleOn(channel), rels, i, Release(current, "", false, false));
  }

  /** However the list is ordered, the same releases are reported alike: both lists report, or
      neither does, and what they pick is equally new, if not the same release. */
  lemma ListOrderIrrelevant(channel: string, a: seq<Release>, b: seq<Release>, current: string, i: nat, j: nat)
    requires forall r :: r in a <==> r in b
    requires Best(channel, a, i) && Best(channel, b, j)
    ensures NewerExists(channel, a, current) <==> NewerExists(channel, b, current)
    ensures Equivalent(a[i].tag, b[j].tag)
  {
    assert a[i] in b && b[j] in a;
    TotalPreorder(a[i].tag, b[j].tag, current);
    WeakSteps(current, a[i].tag, b[j].tag);
    WeakSteps(current, b[j].tag, a[i].tag);
    BestDecides(channel, a, i, current);
    BestDecides(channel, b, j, current);
  }

  method IsNewer(latest: string, current: string) returns (newer: bool)
    ensures newer <==> IsRelease(latest) && IsRelease(current) && Older(current, latest)
  {
    if !IsRelease(latest) || !IsRelease(current) {
      return false;
    }
    var c := CompareVersions(latest, current);
    newer := c > 0;
  }

  // ---------------------------------------------------------------- versions as they are written

  /** A number as it is written. */
  function Decimal(n: nat): (s: string)
    ensures s != "" && AllDigits(s)
  {
    (if n < 10 then "" else Decimal(n / 10)) + [('0' as int + n % 10) as char]
  }

  lemma {:induction false} DecimalReads(n: nat)
    ensures Number(Decimal(n)) == n
  {
    var s := Decimal(n);
    if n >= 10 {
      DecimalReads(n / 10);
      assert s[..|s| - 1] == Decimal(n / 10);
    } else {
      assert s[..|s| - 1] == "";
    }
  }

  lemma DecimalIsNumber(n: nat)
    requires n <= INT_MAX
    ensures Atoi(Decimal(n)) == Some(n)
  {
    DecimalReads(n);
    assert IsDigit(Decimal(n)[0]);
  }

  function Decimals(ns: seq<nat>): (fields: seq<string>)
    ensures |fields| == |ns|
    ensures forall i :: 0 <= i < |ns| ==> fields[i] != "" && AllDigits(fields[i])
  {
    if ns == [] then [] else [Decimal(ns[0])] + Decimals(ns[1..])
  }

  ghost predicate Readable(ns: seq<nat>) {
    ns != [] && forall i :: 0 <= i < |ns| ==> ns[i] <= INT_MAX
  }

  lemma {:induction false} NumbersRead(ns: seq<nat>)
    requires forall i :: 0 <= i < |ns| ==> ns[i] <= INT_MAX
    ensures Numbers(Decimals(ns)) == ns
  {
    if ns != [] {
      DecimalIsNumber(ns[0]);
      NumbersRead(ns[1..]);
      assert Decimals(ns)[1..] == Decimals(ns[1..]);
    }
  }

  lemma {:induction false} SplitOfJoin(pieces: seq<string>, sep: char)
    requires pieces != [] && forall k :: 0 <= k < |pieces| ==> WithoutChar(pieces[k], sep)
    ensures Split(Join(pieces, sep), sep) == pieces
  {
    var s := Join(pieces, sep);
    if |pieces| == 1 {
      IndexAnyIs(s, [sep], |s|);
    } else {
      var first, rest := pieces[0], Join(pieces[1..], sep);
      assert s == first + [sep] + rest && s[|first|] == sep;
      IndexAnyIs(s, [sep], |first|);
      assert s[..|first|] == first && s[|first| + 1..] == rest;
      SplitOfJoin(pieces[1..], sep);
    }
  }

  predicate NumberChar(c: char) {
    IsDigit(c) || c == '.'
  }

  lemma {:induction false} JoinedChars(pieces: seq<string>)
    requires pieces != [] && forall k :: 0 <= k < |pieces| ==> pieces[k] != "" && AllDigits(pieces[k])
    ensures var s := Join(pieces, '.');
      && s != "" && IsDigit(s[0]) && IsDigit(s[|s| - 1])
      && forall i :: 0 <= i < |s| ==> NumberChar(s[i])
  {
    if |pieces| > 1 {
      JoinedChars(pieces[1..]);
    }
  }

  /** A version: perhaps a v, its numbers with dots between them, perhaps a suffix. */
  function Version(v: bool, ns: seq<nat>, suffix: string): string {
    (if v then "v" else "") + Join(Decimals(ns), '.') + suffix
  }

  /** A suffix starts with a dash or a plus sign and does not end in white space. */
  predicate IsSuffixText(suffix: string) {
    suffix == "" || (suffix[0] in "-+" && !IsSpace(suffix[|suffix| - 1]))
  }

  lemma NotTrimmed(s: string)
    requires s != "" && !IsSpace(s[0]) && !IsSpace(s[|s| - 1])
    ensures Trim(s) == s
  {
  }

  /** The text of a version without its v: its numbers, then its suffix. */
  lemma WithoutV(v: bool, numbers: string, suffix: string)
    requires numbers != "" && IsDigit(numbers[0])
    ensures TrimV((if v then "v" else "") + numbers + suffix) == numbers + suffix
  {
    var s := (if v then "v" else "") + numbers + suffix;
    assert s == (if v then "v" else "") + (numbers + suffix);
    if v {
      assert s[1..] == numbers + suffix;
    } else {
      assert s[0] == numbers[0];
    }
  }

  lemma NoSpaceAround(v: bool, numbers: string, suffix: string)
    requires numbers != "" && IsDigit(numbers[0]) && IsDigit(numbers[|numbers| - 1]) && IsSuffixText(suffix)
    ensures var s := (if v then "v" else "") + numbers + suffix; Trim(s) == s
  {
    var s := (if v then "v" else "") + numbers + suffix;
    assert s[0] == if v then 'v' else numbers[0];
    assert s[|s| - 1] == if suffix == "" then numbers[|numbers| - 1] else suffix[|suffix| - 1];
    NotTrimmed(s);
  }

  lemma SuffixStarts(numbers: string, suffix: string, chars: string)
    requires forall i :: 0 <= i < |numbers| ==> numbers[i] !in chars
    requires suffix != "" ==> suffix[0] in chars
    ensures IndexAny(numbers + suffix, chars) == |numbers|
    ensures (numbers + suffix)[..|numbers|] == numbers
  {
    var t := numbers + suffix;
    assert forall j :: 0 <= j < |numbers| ==> t[j] == numbers[j];
    assert suffix != "" ==> t[|numbers|] == suffix[0];
    IndexAnyIs(t, chars, |numbers|);
  }

  lemma FieldsRead(fields: seq<string>)
    requires fields != [] && forall k :: 0 <= k < |fields| ==> AllDigits(fields[k])
    ensures Split(Join(fields, '.'), '.') == fields
  {
    DigitsHoldNoDot(fields);
    SplitOfJoin(fields, '.');
  }

  lemma VersionCore(v: bool, numbers: string, suffix: string)
    requires numbers != "" && IsDigit(numbers[0]) && IsDigit(numbers[|numbers| - 1])
    requires (forall i :: 0 <= i < |numbers| ==> NumberChar(numbers[i])) && IsSuffixText(suffix)
    ensures var s := (if v then "v" else "") + numbers + suffix;
      Core(s) == numbers && (HasPrerelease(s) <==> suffix != "")
  {
    NoSpaceAround(v, numbers, suffix);
    WithoutV(v, numbers, suffix);
    SuffixStarts(numbers, suffix, "-+");
  }

  /** Every number of a version is read, the v and the suffix aside; the suffix is seen. */
  lemma VersionRead(v: bool, ns: seq<nat>, suffix: string)
    requires Readable(ns) && IsSuffixText(suffix)
    ensures Parts(Version(v, ns, suffix)) == ns
    ensures HasPrerelease(Version(v, ns, suffix)) <==> suffix != ""
  {
    JoinedChars(Decimals(ns));
    VersionCore(v, Join(Decimals(ns), '.'), suffix);
    FieldsRead(Decimals(ns));
    NumbersRead(ns);
  }

  lemma DigitsHoldNoDot(fields: seq<string>)
    requires forall k :: 0 <= k < |fields| ==> AllDigits(fields[k])
    ensures forall k :: 0 <= k < |fields| ==> WithoutChar(fields[k], '.')
  {
  }

  /** The first number in which two versions differ decides which is older, whatever follows. */
  lemma FirstDifferenceDecides(v: bool, p: seq<nat>, x: string, w: bool, q: seq<nat>, y: string, i: nat)
    requires Readable(p) && IsSuffixText(x) && Readable(q) && IsSuffixText(y)
    requires i < |p| && i < |q| && p[..i] == q[..i] && p[i] < q[i]
    ensures Older(Version(v, p, x), Version(w, q, y)) && !Older(Version(w, q, y), Version(v, p, x))
  {
    VersionRead(v, p, x);
    VersionRead(w, q, y);
    forall j: nat | j < i
      ensures At(p, j) == At(q, j)
    {
      assert p[j] == p[..i][j] && q[j] == q[..i][j];
    }
    assert LessAt(p, q, i);
    LessAsymmetric(p, q);
  }

  /** A longer version with the same numbers at its front is newer exactly when it goes on with
      something other than zeroes. */
  lemma LongerDecides(v: bool, p: seq<nat>, w: bool, more: seq<nat>)
    requires Readable(p) && Readable(p + more)
    ensures Older(Version(v, p, ""), Version(w, p + more, "")) <==> exists i :: 0 <= i < |more| && more[i] > 0
  {
    VersionRead(v, p, "");
    VersionRead(w, p + more, "");
    if i :| 0 <= i < |more| && more[i] > 0 {
      FirstPositive(p, more, i);
    } else {
      OnlyNoughts(p, more);
    }
  }

  lemma OnlyNoughts(p: seq<nat>, more: seq<nat>)
    requires forall i :: 0 <= i < |more| ==> more[i] == 0
    ensures !Less(p, p + more)
  {
    var q := p + more;
    assert forall j: nat :: At(q, j) == At(p, j);
    assert forall i: nat :: !LessAt(p, q, i);
  }

  lemma {:induction false} FirstPositive(p: seq<nat>, more: seq<nat>, i: nat)
    requires i < |more| && more[i] > 0
    ensures Less(p, p + more)
    decreases i
  {
    if j: nat :| j < i && more[j] > 0 {
      FirstPositive(p, more, j);
    } else {
      assert LessAt(p, p + more, |p| + i);
    }
  }

  /** What a release named like that must be to be reported: published, and on the stable channel
      no pre-release. Up to four numbers and a suffix of letters, digits, dots and dashes. */
  lemma EligibleExactly(channel: string, r: Release, v: bool, ns: seq<nat>, suffix: string)
    requires Readable(ns) && |ns| <= 4 && r.tag == Version(v, ns, suffix)
    requires suffix == "" || (|suffix| > 1 && suffix[0] == '-')
    requires forall j :: 0 < j < |suffix| ==> SuffixChar(suffix[j])
    ensures Eligible(channel, r) <==> !r.draft && (r.prerelease ==> channel == "beta")
  {
    var numbers := Join(Decimals(ns), '.');
    JoinedChars(Decimals(ns));
    WithoutV(v, numbers, suffix);
    SuffixStarts(numbers, suffix, "-");
    FieldsRead(Decimals(ns));
    SuffixChars(numbers, suffix);
  }

  lemma SuffixChars(numbers: string, suffix: string)
    requires forall j :: 0 < j < |suffix| ==> SuffixChar(suffix[j])
    ensures forall j :: |numbers| < j < |numbers + suffix| ==> SuffixChar((numbers + suffix)[j])
  {
  }

  lemma FirstField(fields: seq<string>, suffix: string)
    requires |fields| >= 2 && AllDigits(fields[0])
    ensures var t := Join(fields, '.') + suffix;
      IndexAny(t, ".") == |fields[0]| && t[..|fields[0]|] == fields[0]
  {
    var rest := "." + Join(fields[1..], '.') + suffix;
    assert Join(fields, '.') + suffix == fields[0] + rest;
    SuffixStarts(fields[0], rest, ".");
  }

  /** A version of two numbers or more is a release. */
  lemma ReleaseNamed(v: bool, ns: seq<nat>, suffix: string)
    requires Readable(ns) && |ns| >= 2 && IsSuffixText(suffix)
    ensures IsRelease(Version(v, ns, suffix))
  {
    var fields := Decimals(ns);
    var numbers := Join(fields, '.');
    JoinedChars(fields);
    NoSpaceAround(v, numbers, suffix);
    WithoutV(v, numbers, suffix);
    FirstField(fields, suffix);
    DecimalIsNumber(ns[0]);
    NotDev(numbers + suffix);
  }

  lemma NotDev(t: string)
    requires t != "" && IsDigit(t[0])
    ensures t != "dev"
  {
  }

  /** A development build is none. */
  lemma DevelopmentIsNoRelease()
    ensures !IsRelease("dev") && !IsRelease("")
  {
    NotTrimmed("dev");
  }

  /** And nothing else is ever reported. */
  lemma NothingElseReported(channel: string, github: string -> bool, current: string, rels: seq<Release>, f: Found)
    requires Answers(channel, github, current, rels, f) && f.available
    ensures exists i :: 0 <= i < |rels| && rels[i].tag == f.latest && f.latest != "" && !rels[i].draft
                        && (rels[i].prerelease ==> channel == "beta")
                        && f.url == if rels[i].url != "" && github(rels[i].url) then rels[i].url
                                    else "https://github.com/atakankizilyuce/LeaveSafe/releases/latest"
  {
    var i: nat :| Reports(channel, github, current, rels, i, f);
    assert rels[i].tag == f.latest;
  }

  /** And only a tag of that shape is eligible. */
  lemma EligibleShape(channel: string, r: Release) returns (v: bool, fields: seq<string>, suffix: string)
    requires Eligible(channel, r)
    ensures r.tag == (if v then "v" else "") + Join(fields, '.') + suffix
    ensures 1 <= |fields| <= 4 && forall k :: 0 <= k < |fields| ==> fields[k] != "" && AllDigits(fields[k])
    ensures suffix == "" || (|suffix| > 1 && suffix[0] == '-')
    ensures forall j :: 0 < j < |suffix| ==> SuffixChar(suffix[j])
  {
    v := r.tag[0] == 'v';
    WithV(r.tag);
    fields, suffix := TagParts(r.tag);
    TakenApart(if v then "v" else "", Join(fields, '.'), suffix, TrimV(r.tag));
  }

  lemma TagParts(tag: string) returns (fields: seq<string>, suffix: string)
    requires TagLike(tag)
    ensures TrimV(tag) == Join(fields, '.') + suffix
    ensures 1 <= |fields| <= 4 && forall k :: 0 <= k < |fields| ==> fields[k] != "" && AllDigits(fields[k])
    ensures suffix == "" || (|suffix| > 1 && suffix[0] == '-')
    ensures forall j :: 0 < j < |suffix| ==> SuffixChar(suffix[j])
  {
    var t := TrimV(tag);
    var i := IndexAny(t, "-");
    fields, suffix := Split(t[..i], '.'), t[i..];
    SplitJoins(t[..i], '.');
    IndexAnyIsFirst(t, "-");
    assert t == t[..i] + suffix;
  }

  lemma WithV(tag: string)
    requires tag != ""
    ensures (if tag[0] == 'v' then "v" else "") + TrimV(tag) == tag
  {
  }

  lemma TakenApart(v: string, numbers: string, suffix: string, t: string)
    requires t == numbers + suffix
    ensures v + numbers + suffix == v + t
  {
  }
}
