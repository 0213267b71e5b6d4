/** What the table's size costs: the lockout bound held to by every address of a population
    exactly when the table has room for all of it. */
module Population {
  import opened Common
  import opened Auth
  import opened AuthHistory
  import Luhn

  /** Everybody who had a key or a PIN judged. */
  function Attempters(tr: Trace): set<string> {
    match tr
    case Start(_) => {}
    case Then(before, op, _, _) => Attempters(before) + if op.Key? || op.Pin? then {Host(op)} else {}
  }

  ghost predicate OnlyFrom(tr: Trace, hs: set<string>) {
    Attempters(tr) <= hs
  }

  ghost predicate WindowHolds(o: Options, w: seq<nat>, start: int) {
    CountIn(w, |w|, start, start + o.lockout) <= o.maxAttempts
  }

  /** In every window one lockout period long, no more of h's wrong secrets compared than its
      allowance, whatever became of its record. */
  ghost predicate HeldThroughout(o: Options, tr: Trace, h: string) {
    forall start: int :: WindowHolds(o, ComparedTimes(o, tr, h), start)
  }

  /** The bound that every run keeps, in these terms. */
  lemma WindowOfWrong(o: Options, tr: Trace, h: string, start: int)
    requires o.Normal() && Run(o, tr) && ClockForward(tr) && h != ""
    ensures WindowHolds(o, WrongTimes(o, tr, h), start)
  {
    LockoutBound(o, tr, h, start);
  }

  // ---------------------------------------------------------------- room for everybody

  lemma AttemptKeepsWithin(o: Options, s: State, op: Op, a: Answer, after: State, hs: set<string>)
    requires o.Normal() && (op.Key? || op.Pin?) && Step(o, s, op, a, after) && Host(op) in hs
    requires |s.byAddr| <= o.maxTracked && s.byAddr.Keys <= hs
    ensures after.byAddr.Keys <= hs
  {
    AttemptEffect(o, s, op, a, after);
    TableAfter(o, s.byAddr, Host(op), Time(op).value, after.byAddr);
  }

  /** The table only ever holds addresses of the population. */
  lemma {:induction false} TableWithinPopulation(o: Options, tr: Trace, hs: set<string>)
    requires o.Normal() && Run(o, tr) && OnlyFrom(tr, hs)
    ensures Last(tr).byAddr.Keys <= hs
  {
    match tr
    case Start(_) =>
    case Then(before, op, a, after) =>
      TableWithinPopulation(o, before, hs);
      ReachableBounds(o, before);
      if op.Key? || op.Pin? {
        AttemptKeepsWithin(o, Last(before), op, a, after, hs);
      }
  }

  /** A newcomer to a table that has room for the population pushes nobody out. */
  lemma RoomForAll(o: Options, t: Table, host: string, now: nat, after: Table, hs: set<string>, h: string)
    requires o.Normal() && OthersKept(o, t, host, now, after)
    requires t.Keys <= hs && host in hs && |hs| <= o.maxTracked && h in t && h != host
    ensures h in after
  {
    if host !in t {
      assert |t| == |t.Keys|;
      Smaller(t.Keys, hs);
    }
    assert h in after - {host};
  }

  lemma AttemptLosesNone(o: Options, s: State, op: Op, a: Answer, after: State, hs: set<string>, h: string, now: nat)
    requires o.Normal() && Step(o, s, op, a, after) && (op.Key? || op.Pin? ==> Host(op) in hs)
    requires s.byAddr.Keys <= hs && |hs| <= o.maxTracked
    ensures !LostRecord(o, s, op, after, now, h)
  {
    if (op.Key? || op.Pin?) && Host(op) != h && h in s.byAddr {
      AttemptEffect(o, s, op, a, after);
      RoomForAll(o, s.byAddr, Host(op), Time(op).value, after.byAddr, hs, h);
    }
  }

  lemma {:induction false} NobodyLost(o: Options, tr: Trace, hs: set<string>, h: string)
    requires o.Normal() && Run(o, tr) && OnlyFrom(tr, hs) && |hs| <= o.maxTracked
    ensures NeverLost(o, tr, h)
  {
    match tr
    case Start(_) =>
    case Then(before, op, a, after) =>
      NobodyLost(o, before, hs, h);
      TableWithinPopulation(o, before, hs);
      AttemptLosesNone(o, Last(before), op, a, after, hs, h, Clock(tr));
  }

  lemma HeldWhenRoom(o: Options, tr: Trace, hs: set<string>, h: string)
    requires o.Normal() && Run(o, tr) && ClockForward(tr) && OnlyFrom(tr, hs) && |hs| <= o.maxTracked && h != ""
    ensures HeldThroughout(o, tr, h)
  {
    NobodyLost(o, tr, hs, h);
    forall start: int
      ensures WindowHolds(o, ComparedTimes(o, tr, h), start)
    {
      LockoutBoundUnlessEvicted(o, tr, h, start);
    }
  }

  // ---------------------------------------------------------------- one address too many

  // Everything below happens at one instant, on an untouched table.

  /** The policy and key, the address to be pushed out, and the population it is one of. */
  datatype Scene = Scene(o: Options, key: string, h: string, hs: set<string>) {
    ghost predicate Ok() {
      o.Normal() && IsKey(key) && h in hs && "" !in hs
    }
  }

  function AtKey(key: string, t: Table): State {
    State(key, map[], t)
  }

  function Guess(g: string): Op {
    Key(g, "", "minted", 0)
  }

  /** Nothing but wrong guesses. */
  ghost predicate Guesses(tr: Trace) {
    match tr
    case Start(_) => true
    case Then(before, op, a, _) => Guesses(before) && op == Guess(Host(op)) && (a.Refused? || a.NowLocked?)
  }

  lemma GuessAdds(o: Options, tr: Trace, h: string)
    requires tr.Then? && Guesses(tr)
    ensures Guesses(tr.before) && tr.op == Guess(Host(tr.op)) && (tr.answer.Refused? || tr.answer.NowLocked?)
    ensures var w := ComparedTimes(o, tr.before, h);
      ComparedTimes(o, tr, h) == if Host(tr.op) == h then w + [0] else w
    ensures Attempters(tr) == Attempters(tr.before) + {Host(tr.op)}
  {
  }

  /** The record of an address that has guessed wrong k times running. */
  function AfterGuesses(o: Options, k: nat): Attempts
    requires o.Normal()
  {
    if k >= o.maxAttempts then Attempts(0, o.lockout, 0) else Attempts(k, 0, 0)
  }

  function AllLocked(o: Options, hosts: seq<string>): Table
    requires o.Normal()
  {
    map h | h in hosts :: AfterGuesses(o, o.maxAttempts)
  }

  lemma OneGuess(o: Options, key: string, t: Table, g: string, k: nat, after: Table)
    requires o.Normal() && IsKey(key) && g != "" && k < o.maxAttempts
    requires RecordFor(t, g, 0) == AfterGuesses(o, k)
    requires OthersKept(o, t, g, 0, after) && g in after && after[g] == AfterGuesses(o, k + 1)
    ensures Step(o, AtKey(key, t), Guess(g), FailedAnswer(o, AfterGuesses(o, k)), AtKey(key, after))
  {
    assert Swept(o, map[], 0) == map[];
    assert StripDashes("") == "";
  }

  /** A run of nothing but comparisons at time 0, n of them of secrets from c.h. */
  ghost predicate Tallied(c: Scene, tr: Trace, n: nat)
    requires c.Ok()
  {
    Instant(c, tr) && ComparedTimes(c.o, tr, c.h) == Noughts(n)
  }

  ghost predicate Instant(c: Scene, tr: Trace)
    requires c.Ok()
  {
    Run(c.o, tr) && ClockForward(tr) && Clock(tr) == 0 && OnlyFrom(tr, c.hs) && Guesses(tr)
  }

  function Noughts(n: nat): (w: seq<nat>)
    ensures |w| == n && forall i :: 0 <= i < n ==> w[i] == 0
  {
    seq(n, _ => 0)
  }

  lemma NoughtsMore(n: nat)
    ensures Noughts(n) + [0] == Noughts(n + 1)
  {
  }

  lemma InstantMore(c: Scene, tr: Trace, g: string, a: Answer, after: State)
    requires c.Ok() && Instant(c, tr) && g in c.hs && Step(c.o, Last(tr), Guess(g), a, after)
    requires a.Refused? || a.NowLocked?
    ensures Instant(c, Then(tr, Guess(g), a, after))
  {
  }

  lemma ComparedMore(o: Options, tr: Trace, h: string, g: string, a: Answer, after: State)
    requires a.Refused? || a.NowLocked?
    ensures ComparedTimes(o, Then(tr, Guess(g), a, after), h)
            == if g == h then ComparedTimes(o, tr, h) + [0] else ComparedTimes(o, tr, h)
  {
  }

  lemma OneMoreTallied(c: Scene, tr: Trace, g: string, a: Answer, after: State, n: nat)
    requires c.Ok() && Tallied(c, tr, n) && g in c.hs
    requires Step(c.o, Last(tr), Guess(g), a, after) && (a.Refused? || a.NowLocked?)
    ensures Tallied(c, Then(tr, Guess(g), a, after), if g == c.h then n + 1 else n)
  {
    InstantMore(c, tr, g, a, after);
    ComparedMore(c.o, tr, c.h, g, a, after);
    NoughtsMore(n);
  }

  /** Making room for g in t leaves base. */
  ghost predicate Roomy(o: Options, t: Table, g: string, base: Table) {
    g !in t && g !in base && if |t| >= o.maxTracked then Evicted(o, t, 0, base) else base == t
  }

  lemma FirstGuess(o: Options, t: Table, g: string, base: Table)
    requires o.Normal() && Roomy(o, t, g, base)
    ensures OthersKept(o, t, g, 0, base[g := AfterGuesses(o, 1)]) && RecordFor(t, g, 0) == AfterGuesses(o, 0)
  {
    assert base[g := AfterGuesses(o, 1)] - {g} == base;
  }

  lemma LaterGuess(o: Options, g: string, base: Table, k: nat)
    requires o.Normal() && g !in base && k < o.maxAttempts
    ensures var t := base[g := AfterGuesses(o, k)];
      OthersKept(o, t, g, 0, base[g := AfterGuesses(o, k + 1)]) && RecordFor(t, g, 0) == AfterGuesses(o, k)
  {
    assert base[g := AfterGuesses(o, k)] - {g} == base == base[g := AfterGuesses(o, k + 1)] - {g};
  }

  /** How the run stands: the table, and how often c.h has been compared. */
  ghost predicate Stands(c: Scene, tr: Trace, t: Table, n: nat)
    requires c.Ok()
  {
    Tallied(c, tr, n) && Last(tr) == AtKey(c.key, t)
  }

  /** How many of g's k guesses are c.h's. */
  function More(c: Scene, g: string, k: nat): nat {
    if g == c.h then k else 0
  }

  lemma GuessTallied(c: Scene, tr: Trace, t: Table, g: string, k: nat, after: Table, n: nat) returns (more: Trace)
    requires c.Ok() && g in c.hs && k < c.o.maxAttempts
    requires Stands(c, tr, t, n) && RecordFor(t, g, 0) == AfterGuesses(c.o, k)
    requires OthersKept(c.o, t, g, 0, after) && g in after && after[g] == AfterGuesses(c.o, k + 1)
    ensures Stands(c, more, after, n + More(c, g, 1))
  {
    OneGuess(c.o, c.key, t, g, k, after);
    OneMoreTallied(c, tr, g, FailedAnswer(c.o, AfterGuesses(c.o, k)), AtKey(c.key, after), n);
    more := Then(tr, Guess(g), FailedAnswer(c.o, AfterGuesses(c.o, k)), AtKey(c.key, after));
  }

  /** The others as base, and g having guessed wrong k times. */
  function WithGuesses(o: Options, base: Table, g: string, k: nat): Table
    requires o.Normal()
  {
    base[g := AfterGuesses(o, k)]
  }

  lemma FirstOfGuesses(c: Scene, tr: Trace, t: Table, base: Table, g: string, n: nat) returns (more: Trace)
    requires c.Ok() && g in c.hs && Stands(c, tr, t, n) && Roomy(c.o, t, g, base)
    ensures Stands(c, more, WithGuesses(c.o, base, g, 1), n + More(c, g, 1))
  {
    FirstGuess(c.o, t, g, base);
    more := GuessTallied(c, tr, t, g, 0, WithGuesses(c.o, base, g, 1), n);
  }

  lemma NextOfGuesses(c: Scene, tr: Trace, base: Table, g: string, k: nat, n: nat) returns (more: Trace)
    requires c.Ok() && g in c.hs && g !in base && k < c.o.maxAttempts
    requires Stands(c, tr, WithGuesses(c.o, base, g, k), n)
    ensures Stands(c, more, WithGuesses(c.o, base, g, k + 1), n + More(c, g, 1))
  {
    LaterGuess(c.o, g, base, k);
    more := GuessTallied(c, tr, WithGuesses(c.o, base, g, k), g, k, WithGuesses(c.o, base, g, k + 1), n);
  }

  lemma SameStanding(c: Scene, tr: Trace, t: Table, m: nat, n: nat)
    requires c.Ok() && Stands(c, tr, t, m) && m == n
    ensures Stands(c, tr, t, n)
  {
  }

  /** g guesses on, i times more. */
  lemma {:induction false} GuessOn(c: Scene, tr: Trace, base: Table, g: string, i: nat, n: nat) returns (more: Trace)
    requires c.Ok() && g in c.hs && g !in base && i < c.o.maxAttempts
    requires Stands(c, tr, WithGuesses(c.o, base, g, 1), n)
    ensures Stands(c, more, WithGuesses(c.o, base, g, i + 1), n + More(c, g, i))
  {
    if i == 0 {
      more := tr;
      SameStanding(c, tr, WithGuesses(c.o, base, g, 1), n, n + More(c, g, 0));
    } else {
      var most := GuessOn(c, tr, base, g, i - 1, n);
      more := OneOn(c, most, base, g, i, n, i - 1);
    }
  }

  lemma OneOn(c: Scene, tr: Trace, base: Table, g: string, k: nat, n: nat, i: nat) returns (more: Trace)
    requires c.Ok() && g in c.hs && g !in base && k < c.o.maxAttempts
    requires Stands(c, tr, WithGuesses(c.o, base, g, k), n + More(c, g, i))
    ensures Stands(c, more, WithGuesses(c.o, base, g, k + 1), n + More(c, g, i + 1))
  {
    more := NextOfGuesses(c, tr, base, g, k, n + More(c, g, i));
    SameStanding(c, more, WithGuesses(c.o, base, g, k + 1), n + More(c, g, i) + More(c, g, 1), n + More(c, g, i + 1));
  }

  predicate Distinct(hosts: seq<string>) {
    forall i, j :: 0 <= i < j < |hosts| ==> hosts[i] != hosts[j]
  }

  lemma {:induction false} LockedSize(o: Options, hosts: seq<string>)
    requires o.Normal() && Distinct(hosts)
    ensures |AllLocked(o, hosts)| == |hosts|
  {
    if hosts == [] {
      assert AllLocked(o, hosts) == map[];
    } else {
      var front, g := hosts[..|hosts| - 1], hosts[|hosts| - 1];
      LockedSize(o, front);
      assert hosts == front + [g];
      LockedMore(o, front, g);
      OneLarger(AllLocked(o, front), g, AfterGuesses(o, o.maxAttempts));
    }
  }

  lemma OneLarger(t: Table, g: string, r: Attempts)
    requires g !in t
    ensures |t[g := r]| == |t| + 1
  {
    assert t[g := r].Keys == t.Keys + {g};
  }

  lemma LockedMore(o: Options, hosts: seq<string>, g: string)
    requires o.Normal()
    ensures AllLocked(o, hosts + [g]) == AllLocked(o, hosts)[g := AfterGuesses(o, o.maxAttempts)]
  {
  }

  /** On a full table of lockouts that end together, any one of them can go. */
  lemma AnyCanGo(o: Options, hosts: seq<string>, e: string)
    requires o.Normal() && e in hosts
    ensures Evicted(o, AllLocked(o, hosts), 0, AllLocked(o, hosts) - {e})
  {
    var t := AllLocked(o, hosts);
    assert StaleHosts(o, t, 0) == {};
    assert e in t.Keys && SoonestToEnd(t, e);
  }

  lemma WithoutFirst(o: Options, h: string, hosts: seq<string>)
    requires o.Normal() && h !in hosts
    ensures AllLocked(o, [h] + hosts) - {h} == AllLocked(o, hosts)
  {
  }

  /** Others of the population, as many as the table has room for. */
  ghost predicate Crowd(c: Scene, others: seq<string>) {
    |others| == c.o.maxTracked && Distinct(others) && c.h !in others && forall g :: g in others ==> g in c.hs
  }

  /** g spends its allowance. */
  lemma Spent(c: Scene, tr: Trace, t: Table, base: Table, g: string, n: nat) returns (after: Trace)
    requires c.Ok() && g in c.hs && Stands(c, tr, t, n) && Roomy(c.o, t, g, base)
    ensures Stands(c, after, WithGuesses(c.o, base, g, c.o.maxAttempts), n + More(c, g, c.o.maxAttempts))
  {
    var first := FirstOfGuesses(c, tr, t, base, g, n);
    after := GuessOn(c, first, base, g, c.o.maxAttempts - 1, n + More(c, g, 1));
    SameStanding(c, after, WithGuesses(c.o, base, g, c.o.maxAttempts),
                 n + More(c, g, 1) + More(c, g, c.o.maxAttempts - 1), n + More(c, g, c.o.maxAttempts));
  }

  /** The same with hosts locked out already and room for one more. */
  lemma SpentToo(c: Scene, tr: Trace, hosts: seq<string>, base: seq<string>, g: string, n: nat)
    returns (after: Trace)
    requires c.Ok() && g in c.hs && Stands(c, tr, AllLocked(c.o, hosts), n)
    requires Roomy(c.o, AllLocked(c.o, hosts), g, AllLocked(c.o, base))
    ensures Stands(c, after, AllLocked(c.o, base + [g]), n + More(c, g, c.o.maxAttempts))
  {
    after := Spent(c, tr, AllLocked(c.o, hosts), AllLocked(c.o, base), g, n);
    LockedMore(c.o, base, g);
  }

  lemma Untouched(c: Scene) returns (tr: Trace)
    requires c.Ok()
    ensures Stands(c, tr, AllLocked(c.o, []), 0)
  {
    tr := Start(AtKey(c.key, map[]));
    assert AllLocked(c.o, []) == map[];
    assert ComparedTimes(c.o, tr, c.h) == [];
  }

  /** One more address locks itself out, while there is room. */
  lemma JoinsThem(c: Scene, tr: Trace, hosts: seq<string>, g: string, n: nat) returns (after: Trace)
    requires c.Ok() && g in c.hs && Distinct(hosts) && g !in hosts && |hosts| < c.o.maxTracked
    requires Stands(c, tr, AllLocked(c.o, hosts), n)
    ensures Stands(c, after, AllLocked(c.o, hosts + [g]), n + More(c, g, c.o.maxAttempts))
  {
    LockedSize(c.o, hosts);
    after := SpentToo(c, tr, hosts, hosts, g, n);
  }

  /** c.h and the first i of the others. */
  function Front(c: Scene, others: seq<string>, i: nat): seq<string>
    requires i <= |others|
  {
    [c.h] + others[..i]
  }

  lemma FrontMore(c: Scene, others: seq<string>, i: nat)
    requires c.Ok() && Crowd(c, others) && i < |others|
    ensures Front(c, others, i + 1) == Front(c, others, i) + [others[i]] && |Front(c, others, i)| == i + 1
    ensures Distinct(Front(c, others, i)) && others[i] !in Front(c, others, i) && others[i] in c.hs
  {
    Apart(c.h, others, i);
  }

  /** c.h spends its allowance on an empty table. */
  lemma FirstLocked(c: Scene, others: seq<string>) returns (tr: Trace)
    requires c.Ok()
    ensures Stands(c, tr, AllLocked(c.o, Front(c, others, 0)), c.o.maxAttempts)
  {
    var start := Untouched(c);
    tr := JoinsThem(c, start, [], c.h, 0);
    assert [] + [c.h] == Front(c, others, 0);
  }

  lemma {:induction false} FillTable(c: Scene, others: seq<string>, i: nat) returns (tr: Trace)
    requires c.Ok() && Crowd(c, others) && i < c.o.maxTracked
    ensures Stands(c, tr, AllLocked(c.o, Front(c, others, i)), c.o.maxAttempts)
    decreases i
  {
    if i == 0 {
      tr := FirstLocked(c, others);
    } else {
      var before := FillTable(c, others, i - 1);
      FrontMore(c, others, i - 1);
      assert others[i - 1] != c.h;
      tr := JoinsThem(c, before, Front(c, others, i - 1), others[i - 1], c.o.maxAttempts);
    }
  }

  lemma Apart(h: string, others: seq<string>, i: nat)
    requires Distinct(others) && h !in others && i < |others|
    ensures Distinct([h] + others[..i]) && others[i] !in [h] + others[..i] && h !in others[..i]
  {
    var all := [h] + others[..i];
    forall j, k | 0 <= j < k < |all|
      ensures all[j] != all[k]
    {
      assert all[k] == others[k - 1];
    }
  }

  /** With every other address locked out in c.h's place, c.h guesses once more. */
  lemma GuessedAgain(c: Scene, tr: Trace, others: seq<string>) returns (after: Trace)
    requires c.Ok() && Crowd(c, others) && Stands(c, tr, AllLocked(c.o, others), c.o.maxAttempts)
    ensures Tallied(c, after, c.o.maxAttempts + 1)
  {
    var t, base := AllLocked(c.o, others), AllLocked(c.o, others) - {others[0]};
    LockedSize(c.o, others);
    AnyCanGo(c.o, others, others[0]);
    after := FirstOfGuesses(c, tr, t, base, c.h, c.o.maxAttempts);
  }

  /** The last of the others finds the table full and takes c.h's place in it. */
  lemma PushedOut(c: Scene, tr: Trace, others: seq<string>) returns (after: Trace)
    requires c.Ok() && Crowd(c, others)
    requires Stands(c, tr, AllLocked(c.o, Front(c, others, |others| - 1)), c.o.maxAttempts)
    ensures Stands(c, after, AllLocked(c.o, others), c.o.maxAttempts)
  {
    LastMakesRoom(c, others);
    SplitLast(others);
    after := TakesPlace(c, tr, Front(c, others, |others| - 1), others[..|others| - 1], others[|others| - 1]);
  }

  lemma TakesPlace(c: Scene, tr: Trace, hosts: seq<string>, base: seq<string>, g: string) returns (after: Trace)
    requires c.Ok() && g in c.hs && g != c.h && Stands(c, tr, AllLocked(c.o, hosts), c.o.maxAttempts)
    requires Roomy(c.o, AllLocked(c.o, hosts), g, AllLocked(c.o, base))
    ensures Stands(c, after, AllLocked(c.o, base + [g]), c.o.maxAttempts)
  {
    after := SpentToo(c, tr, hosts, base, g, c.o.maxAttempts);
  }

  lemma SplitLast(others: seq<string>)
    requires others != []
    ensures others[..|others| - 1] + [others[|others| - 1]] == others
  {
  }

  lemma LastMakesRoom(c: Scene, others: seq<string>)
    requires c.Ok() && Crowd(c, others)
    ensures var g, front := others[|others| - 1], others[..|others| - 1];
      Roomy(c.o, AllLocked(c.o, Front(c, others, |others| - 1)), g, AllLocked(c.o, front)) && g in c.hs && g != c.h
  {
    var i := |others| - 1;
    FrontMore(c, others, i);
    LockedSize(c.o, Front(c, others, i));
    AnyCanGo(c.o, Front(c, others, i), c.h);
    WithoutFirst(c.o, c.h, others[..i]);
  }

  /** Whatever the policy, as many others as the table has room for can push a lockout out: the
      address they do that to has one secret more compared, at the same instant, than its
      allowance. */
  lemma EvictionForgets(c: Scene, others: seq<string>) returns (tr: Trace)
    requires c.Ok() && Crowd(c, others)
    ensures Run(c.o, tr) && ClockForward(tr) && OnlyFrom(tr, c.hs) && Guesses(tr)
    ensures var w := ComparedTimes(c.o, tr, c.h); CountIn(w, |w|, 0, c.o.lockout) == c.o.maxAttempts + 1
  {
    var full := FillTable(c, others, |others| - 1);
    var pushed := PushedOut(c, full, others);
    tr := GuessedAgain(c, pushed, others);
    AllAtOnce(ComparedTimes(c.o, tr, c.h), c.o.maxAttempts + 1, c.o.lockout);
  }

  lemma AllAtOnce(w: seq<nat>, n: nat, gap: nat)
    requires w == Noughts(n) && gap > 0
    ensures CountIn(w, |w|, 0, gap) == n
  {
    AllCounted(w, |w|, gap);
  }

  lemma {:induction false} AllCounted(w: seq<nat>, k: nat, gap: nat)
    requires k <= |w| && gap > 0 && forall i :: 0 <= i < |w| ==> w[i] == 0
    ensures CountIn(w, k, 0, gap) == k
  {
    if k > 0 {
      AllCounted(w, k - 1, gap);
    }
  }

  // ---------------------------------------------------------------- exactly when

  /** n of them, each once. */
  lemma {:induction false} Pick(hosts: set<string>, n: nat) returns (some: seq<string>)
    requires n <= |hosts|
    ensures |some| == n && Distinct(some) && forall g :: g in some ==> g in hosts
  {
    some := [];
    if n > 0 {
      var g :| g in hosts;
      var rest := Pick(hosts - {g}, n - 1);
      some := [g] + rest;
    }
  }

  lemma {:induction false} NoughtsWeighNothing(s: string, n: nat, k: nat)
    requires Luhn.AllDigits(s) && k <= |s| && forall i :: 0 <= i < |s| ==> s[i] == '0'
    ensures Luhn.Sum(s, n, k) == 0
  {
    if k > 0 {
      NoughtsWeighNothing(s, n, k - 1);
    }
  }

  /** There is a key at all: sixteen noughts. */
  lemma SomeKey() returns (key: string)
    ensures IsKey(key)
  {
    key := seq(KEY_LENGTH, _ => '0');
    NoughtsWeighNothing(key, KEY_LENGTH - 1, KEY_LENGTH - 1);
  }

  /** With an address too many there is a run in which h is not held to its allowance. */
  lemma NotHeldWhenCrowded(o: Options, h: string, hs: set<string>) returns (tr: Trace)
    requires o.Normal() && h in hs && "" !in hs && |hs| > o.maxTracked
    ensures Run(o, tr) && ClockForward(tr) && OnlyFrom(tr, hs) && Guesses(tr)
    ensures !WindowHolds(o, ComparedTimes(o, tr, h), 0)
  {
    var key := SomeKey();
    var others := Pick(hs - {h}, o.maxTracked);
    tr := EvictionForgets(Scene(o, key, h, hs), others);
  }

  /** The lockout holds every address to its allowance, in every window one lockout period long
      of every run, exactly when the table has room for everybody who makes attempts. */
  lemma LockoutHoldsExactly(o: Options, h: string, hs: set<string>)
    requires o.Normal() && h in hs && "" !in hs
    ensures (forall tr :: Run(o, tr) && ClockForward(tr) && OnlyFrom(tr, hs) ==> HeldThroughout(o, tr, h))
            <==> |hs| <= o.maxTracked
  {
    if |hs| <= o.maxTracked {
      forall tr | Run(o, tr) && ClockForward(tr) && OnlyFrom(tr, hs)
        ensures HeldThroughout(o, tr, h)
      {
        HeldWhenRoom(o, tr, hs, h);
      }
    } else {
      var tr := NotHeldWhenCrowded(o, h, hs);
      assert !HeldThroughout(o, tr, h);
    }
  }
}
