/** What the auth manager keeps true over every run of calls. */
module AuthHistory {
  import opened Common
  import opened Auth
  import Luhn

  /** A run: the state it starts from, then one call after another. */
  datatype Trace = Start(first: State) | Then(before: Trace, op: Op, answer: Answer, after: State)

  function Last(tr: Trace): State {
    match tr case Start(s) => s case Then(_, _, _, after) => after
  }

  ghost predicate Run(o: Options, tr: Trace)
    requires o.Normal()
  {
    match tr
    case Start(s) => IsKey(s.key) && s.sessions == map[] && s.byAddr == map[]
    case Then(before, op, a, after) => Run(o, before) && Step(o, Last(before), op, a, after)
  }

  /** The time of a call, for the calls that ask for it. */
  function Time(op: Op): Option<nat> {
    match op
    case Key(_, _, _, now) => Some(now)
    case Pin(_, _, now) => Some(now)
    case Validate(_, now) => Some(now)
    case Touch(_, now) => Some(now)
    case Sweep(now) => Some(now)
    case Remove(_) => None
    case Regenerate(_) => None
  }

  /** The clock as last read, and whether it never went back. */
  function Clock(tr: Trace): nat {
    match tr
    case Start(_) => 0
    case Then(before, op, _, _) => if Time(op).Some? then Time(op).value else Clock(before)
  }

  predicate ClockForward(tr: Trace) {
    match tr
    case Start(_) => true
    case Then(before, op, _, _) => ClockForward(before) && Clock(before) <= Clock(tr)
  }

  function Host(op: Op): string {
    match op case Key(h, _, _, _) => h case Pin(h, _, _) => h case _ => ""
  }

  // ---------------------------------------------------------------- eviction

  /** Making room on a full table frees a slot; a live lockout goes only when every
      record is locked, and then alone and as the one ending soonest. */
  lemma LockoutLastToGo(o: Options, t: Table, now: nat, after: Table, h: string)
    requires Evicted(o, t, now, after) && h in t && h !in after
    ensures after.Keys <= t.Keys && |after| < |t|
    ensures forall g :: g in after ==> after[g] == t[g]
    ensures Locked(t[h], now) ==>
      && after == t - {h}
      && forall g :: g in t ==> Locked(t[g], now) && t[h].lockedUntil <= t[g].lockedUntil
  {
    assert after.Keys < t.Keys;
    Smaller(after.Keys, t.Keys);
  }

  lemma Smaller<T>(a: set<T>, b: set<T>)
    requires a < b
    ensures |a| < |b|
  {
    assert b == a + (b - a);
    assert b - a != {};
  }

  lemma SubsetSize<T>(a: set<T>, b: set<T>)
    requires a <= b
    ensures |a| <= |b|
  {
    assert b == a + (b - a);
  }

  lemma NoKeys(t: Table)
    ensures t == map[] <==> t.Keys == {}
    ensures t == map[] <==> |t| == 0
  {
    if t.Keys == {} {
      assert t == map[];
    }
  }

  lemma EvictionFrees(o: Options, t: Table, now: nat, after: Table)
    requires Evicted(o, t, now, after)
    ensures after.Keys <= t.Keys && forall g :: g in after ==> after[g] == t[g]
    ensures |after| <= |t| && (t != map[] ==> |after| < |t|)
  {
    SubsetSize(after.Keys, t.Keys);
    NoKeys(t);
    if t != map[] {
      assert after.Keys != t.Keys;
      Smaller(after.Keys, t.Keys);
    }
  }

  // ---------------------------------------------------------------- bounds on every reachable state

  ghost predicate RecordOk(o: Options, r: Attempts) {
    r.failures < o.maxAttempts
  }

  ghost predicate StateOk(o: Options, s: State) {
    && IsKey(s.key)
    && |s.sessions| <= o.maxSessions
    && TableOk(o, s.byAddr)
  }

  ghost predicate TableOk(o: Options, t: Table) {
    && |t| <= o.maxTracked
    && "" !in t
    && forall h :: h in t ==> RecordOk(o, t[h])
  }

  /** The table after an attempt by host: the others kept or fewer, and host's own record or none. */
  lemma TableAfter(o: Options, t: Table, host: string, now: nat, after: Table)
    requires o.Normal() && |t| <= o.maxTracked && OthersKept(o, t, host, now, after)
    ensures |after| <= o.maxTracked
    ensures forall h :: h in after && h != host ==> h in t && after[h] == t[h]
  {
    var rest := after - {host};
    if host in t {
      assert rest == t - {host};
      assert rest.Keys == t.Keys - {host};
    } else if |t| >= o.maxTracked {
      EvictionFrees(o, t, now, rest);
      NoKeys(t);
    }
    assert |rest| < o.maxTracked;
    assert after.Keys <= rest.Keys + {host};
    SubsetSize(after.Keys, rest.Keys + {host});
    forall h | h in after && h != host
      ensures h in t && after[h] == t[h]
    {
      assert h in rest && rest[h] == after[h];
    }
  }

  lemma SweptSize(o: Options, m: map<Token, Session>, now: nat)
    ensures |Swept(o, m, now)| <= |m|
  {
    SubsetSize(Swept(o, m, now).Keys, m.Keys);
  }

  lemma RemovedSize(m: map<Token, Session>, t: Token)
    ensures |m - {t}| <= |m|
  {
    SubsetSize((m - {t}).Keys, m.Keys);
  }

  lemma AddedSize(m: map<Token, Session>, t: Token, s: Session)
    ensures |m[t := s]| <= |m| + 1
    ensures t in m ==> |m[t := s]| == |m|
  {
    assert m[t := s].Keys == m.Keys + {t};
    if t in m {
      assert m.Keys + {t} == m.Keys;
    } else {
      assert |m.Keys + {t}| == |m.Keys| + 1;
    }
  }

  lemma KeySessionsWithin(o: Options, s: State, op: Op, a: Answer, after: State)
    requires op.Key? && o.Normal() && |s.sessions| <= o.maxSessions && KeyStep(o, s, op, a, after)
    ensures |after.sessions| <= o.maxSessions
  {
    var live := Swept(o, s.sessions, op.now);
    SweptSize(o, s.sessions, op.now);
    AddedSize(live, op.minted, Session(op.now, op.now));
  }

  lemma TouchSessionsWithin(o: Options, s: State, token: Token, now: nat)
    ensures |s.sessions - {token}| <= |s.sessions|
    ensures IsLive(o, s, token, now) ==>
      |s.sessions[token := s.sessions[token].(lastSeen := now)]| == |s.sessions|
  {
    RemovedSize(s.sessions, token);
    if IsLive(o, s, token, now) {
      AddedSize(s.sessions, token, s.sessions[token].(lastSeen := now));
    }
  }

  lemma SessionsWithin(o: Options, s: State, op: Op, a: Answer, after: State)
    requires o.Normal() && |s.sessions| <= o.maxSessions && Step(o, s, op, a, after)
    ensures |after.sessions| <= o.maxSessions
  {
    match op
    case Key(_, _, _, _) => KeySessionsWithin(o, s, op, a, after);
    case Pin(_, _, _) =>
    case Validate(token, now) => TouchSessionsWithin(o, s, token, now);
    case Touch(token, now) => TouchSessionsWithin(o, s, token, now);
    case Sweep(now) => SweptSize(o, s.sessions, now);
    case Remove(token) => RemovedSize(s.sessions, token);
    case Regenerate(_) =>
  }

  lemma StepKeepsBounds(o: Options, s: State, op: Op, a: Answer, after: State)
    requires o.Normal() && StateOk(o, s) && Step(o, s, op, a, after)
    ensures StateOk(o, after)
  {
    SessionsWithin(o, s, op, a, after);
    if op.Key? || op.Pin? {
      AttemptEffect(o, s, op, a, after);
      TableWithin(o, s.byAddr, Host(op), a, Time(op).value, after.byAddr);
    }
  }

  lemma TableWithin(o: Options, t: Table, host: string, a: Answer, now: nat, after: Table)
    requires o.Normal() && TableOk(o, t) && host != ""
    requires OthersKept(o, t, host, now, after) && Outcome(o, RecordFor(t, host, now), a, RecordOf(after, host), now)
    ensures TableOk(o, after)
  {
    TableAfter(o, t, host, now, after);
  }

  /** In every reachable state, whatever the clock does: both tables within their bounds,
      every failure count below the allowance, a valid key. */
  lemma {:induction false} ReachableBounds(o: Options, tr: Trace)
    requires o.Normal() && Run(o, tr)
    ensures StateOk(o, Last(tr))
  {
    match tr
    case Start(_) =>
    case Then(before, op, a, after) =>
      ReachableBounds(o, before);
      StepKeepsBounds(o, Last(before), op, a, after);
  }

  ghost predicate Timely(o: Options, r: Attempts, clock: nat) {
    r.lastSeen <= clock && r.lockedUntil <= r.lastSeen + o.lockout
  }

  /** With a clock that does not go back, a lockout never outlasts one period from the
      last time its address was seen. */
  lemma {:induction false} ReachableLockouts(o: Options, tr: Trace, h: string)
    requires o.Normal() && Run(o, tr) && ClockForward(tr)
    ensures h in Last(tr).byAddr ==> Timely(o, Last(tr).byAddr[h], Clock(tr))
  {
    match tr
    case Start(_) =>
    case Then(before, op, a, after) =>
      ReachableBounds(o, before);
      ReachableLockouts(o, before, h);
      if op.Key? || op.Pin? {
        AttemptEffect(o, Last(before), op, a, after);
        TableAfter(o, Last(before).byAddr, Host(op), Time(op).value, after.byAddr);
      }
  }

  // ---------------------------------------------------------------- the lockout, over time

  /** The times at which host had a wrong secret compared, key or PIN, since it last got
      one right, since the last rotation, and since it last lost its record to the table
      filling up with records that were not stale. */
  ghost function WrongTimes(o: Options, tr: Trace, h: string): seq<nat> {
    match tr
    case Start(_) => []
    case Then(before, op, a, after) =>
      NextWrong(o, WrongTimes(o, before, h), Last(before), op, a, after, Clock(tr), h)
  }

  ghost function NextWrong(o: Options, w: seq<nat>, s: State, op: Op, a: Answer, after: State, now: nat, h: string)
    : seq<nat>
  {
    if op.Regenerate? then []
    else if Host(op) == h && (a.Granted? || a.Accepted?) then []
    else if Host(op) == h && (a.Refused? || a.NowLocked?) then w + [now]
    else if LostRecord(o, s, op, after, now, h) then []
    else w
  }

  /** Another address's attempt pushed h's record out before it had gone stale. */
  ghost predicate LostRecord(o: Options, s: State, op: Op, after: State, now: nat, h: string) {
    && (op.Key? || op.Pin?) && Host(op) != h
    && h in s.byAddr && h !in after.byAddr
    && !Stale(o, s.byAddr[h], now)
  }

  predicate Sorted(w: seq<nat>) {
    forall i, j :: 0 <= i < j < |w| ==> w[i] <= w[j]
  }

  /** Any entry and the one m places on are at least gap apart. */
  predicate Spaced(w: seq<nat>, m: nat, gap: nat) {
    forall i :: 0 <= i && i + m < |w| ==> w[i] + gap <= w[i + m]
  }

  function RecordOf(t: Table, h: string): Option<Attempts> {
    if h in t then Some(t[h]) else None
  }

  /** The record an attempt is judged under, from the one that was there. */
  function RecordNow(rec: Option<Attempts>, now: nat): Attempts {
    if rec.Some? then rec.value.(lastSeen := now) else Attempts(0, 0, now)
  }

  /** How the record relates to the wrong secrets so far: those before the current
      count are a lockout period away from the next comparison that can happen. */
  ghost predicate Accounted(o: Options, w: seq<nat>, rec: Option<Attempts>, clock: nat)
    requires o.Normal()
  {
    && Sorted(w) && Spaced(w, o.maxAttempts, o.lockout)
    && (w != [] ==> w[|w| - 1] <= clock)
    && match rec
       case Some(r) =>
         var f := r.failures;
         && f <= |w| && f < o.maxAttempts
         && (w != [] ==> w[|w| - 1] <= r.lastSeen <= clock)
         && (|w| - f > 0 ==> w[|w| - f - 1] + o.lockout <= r.lockedUntil || w[|w| - f - 1] + o.lockout <= clock)
       case None => w != [] ==> w[|w| - 1] + o.lockout <= clock
  }

  /** The clock moving on keeps the account. */
  lemma AccountedLater(o: Options, w: seq<nat>, rec: Option<Attempts>, clock: nat, later: nat)
    requires o.Normal() && Accounted(o, w, rec, clock) && clock <= later
    ensures Accounted(o, w, rec, later)
  {
  }

  /** One more entry, a gap after the one m places before it. */
  lemma SpacedMore(w: seq<nat>, m: nat, gap: nat, now: nat)
    requires Spaced(w, m, gap) && m > 0 && (|w| >= m ==> w[|w| - m] + gap <= now)
    ensures Spaced(w + [now], m, gap)
  {
    var v := w + [now];
    forall i | 0 <= i && i + m < |v|
      ensures v[i] + gap <= v[i + m]
    {
      assert v[i] == w[i];
    }
  }

  /** The last m of the entries before the current count lie a gap back. */
  lemma OldEnough(o: Options, w: seq<nat>, f: nat, now: nat)
    requires o.Normal() && Sorted(w) && f <= |w| && f < o.maxAttempts <= |w|
    requires w[|w| - f - 1] + o.lockout <= now
    ensures w[|w| - o.maxAttempts] + o.lockout <= now
  {
    assert w[|w| - o.maxAttempts] <= w[|w| - f - 1];
  }

  lemma SortedMore(w: seq<nat>, now: nat)
    requires Sorted(w) && (w != [] ==> w[|w| - 1] <= now)
    ensures Sorted(w + [now])
  {
  }

  /** One more wrong secret, compared when the record allowed it. */
  lemma AccountedWrong(o: Options, w: seq<nat>, rec: Option<Attempts>, now: nat)
    requires o.Normal() && Accounted(o, w, rec, now) && !Locked(RecordNow(rec, now), now)
    ensures Accounted(o, w + [now], Some(Failed(o, RecordNow(rec, now), now)), now)
  {
    var r := RecordNow(rec, now);
    WrongMore(o, w, r.failures, now);
    WrongRecord(o, w, r, now);
  }

  lemma WrongMore(o: Options, w: seq<nat>, f: nat, now: nat)
    requires o.Normal() && Sorted(w) && Spaced(w, o.maxAttempts, o.lockout) && (w != [] ==> w[|w| - 1] <= now)
    requires f <= |w| && f < o.maxAttempts && (|w| > f ==> w[|w| - f - 1] + o.lockout <= now)
    ensures Sorted(w + [now]) && Spaced(w + [now], o.maxAttempts, o.lockout)
  {
    if |w| >= o.maxAttempts {
      OldEnough(o, w, f, now);
    }
    SortedMore(w, now);
    SpacedMore(w, o.maxAttempts, o.lockout, now);
  }

  lemma WrongRecord(o: Options, w: seq<nat>, r: Attempts, now: nat)
    requires o.Normal() && r.failures <= |w| && r.failures < o.maxAttempts && r.lastSeen == now
    requires |w| > r.failures ==> w[|w| - r.failures - 1] + o.lockout <= now
    ensures var v, q := w + [now], Failed(o, r, now);
      && q.failures <= |v| && q.failures < o.maxAttempts && v[|v| - 1] == now == q.lastSeen
      && (|v| - q.failures > 0 ==>
            v[|v| - q.failures - 1] + o.lockout <= q.lockedUntil || v[|v| - q.failures - 1] + o.lockout <= now)
  {
  }

  /** An attempt that was not compared: only the time of it is noted. */
  lemma AccountedSeen(o: Options, w: seq<nat>, rec: Option<Attempts>, now: nat)
    requires o.Normal() && Accounted(o, w, rec, now)
    ensures Accounted(o, w, Some(RecordNow(rec, now)), now)
  {
  }

  /** What an attempt does to the record it is judged under, answer by answer. */
  ghost predicate Outcome(o: Options, r: Attempts, a: Answer, after: Option<Attempts>, now: nat)
    requires o.Normal()
  {
    || ((a.Granted? || a.Accepted?) && after == None)
    || ((a.Refused? || a.NowLocked?) && !Locked(r, now) && after == Some(Failed(o, r, now)))
    || ((a.LockedOut? || a.Full?) && after == Some(r))
  }

  lemma AttemptEffect(o: Options, s: State, op: Op, a: Answer, after: State)
    requires o.Normal() && (op.Key? || op.Pin?) && Step(o, s, op, a, after)
    ensures OthersKept(o, s.byAddr, Host(op), Time(op).value, after.byAddr)
    ensures var h, now := Host(op), Time(op).value;
      Outcome(o, RecordFor(s.byAddr, h, now), a, RecordOf(after.byAddr, h), now)
  {
    if op.Key? {
      KeyOutcome(o, s, op, a, after);
    } else {
      PinOutcome(o, s, op, a, after);
    }
  }

  lemma KeyOutcome(o: Options, s: State, op: Op, a: Answer, after: State)
    requires o.Normal() && op.Key? && KeyStep(o, s, op, a, after)
    ensures Outcome(o, RecordFor(s.byAddr, op.host, op.now), a, RecordOf(after.byAddr, op.host), op.now)
  {
  }

  lemma PinOutcome(o: Options, s: State, op: Op, a: Answer, after: State)
    requires o.Normal() && op.Pin? && PinStep(o, s, op, a, after)
    ensures Outcome(o, RecordFor(s.byAddr, op.host, op.now), a, RecordOf(after.byAddr, op.host), op.now)
  {
  }

  /** An attempt by another address leaves the record as it was, or takes it away. */
  lemma ByStander(o: Options, t: Table, h: string, host: string, now: nat, after: Table)
    requires o.Normal() && |t| <= o.maxTracked && h != host && OthersKept(o, t, host, now, after)
    ensures RecordOf(after, h) == RecordOf(t, h) || RecordOf(after, h) == None
  {
    TableAfter(o, t, host, now, after);
  }

  /** A stale record can go: every wrong secret it stood for is a lockout period back. */
  lemma AccountedStale(o: Options, w: seq<nat>, r: Attempts, now: nat)
    requires o.Normal() && Accounted(o, w, Some(r), now) && Stale(o, r, now)
    ensures Accounted(o, w, None, now)
  {
  }

  lemma AccountedFresh(o: Options, now: nat)
    requires o.Normal()
    ensures Accounted(o, [], None, now)
  {
  }

  /** The times after an attempt: mine is whether the address made it, lost whether it cost the
      address a record that was not stale. */
  function NextTimes(w: seq<nat>, mine: bool, lost: bool, a: Answer, now: nat): seq<nat> {
    if mine && (a.Granted? || a.Accepted?) then []
    else if mine && (a.Refused? || a.NowLocked?) then w + [now]
    else if lost then []
    else w
  }

  lemma AccountedSelf(o: Options, w: seq<nat>, rec: Option<Attempts>, a: Answer, after: Option<Attempts>, now: nat)
    requires o.Normal() && Accounted(o, w, rec, now) && Outcome(o, RecordNow(rec, now), a, after, now)
    ensures Accounted(o, NextTimes(w, true, false, a, now), after, now)
  {
    if a.Granted? || a.Accepted? {
      AccountedFresh(o, now);
    } else if a.Refused? || a.NowLocked? {
      AccountedWrong(o, w, rec, now);
    } else {
      AccountedSeen(o, w, rec, now);
    }
  }

  lemma AccountedOther(o: Options, w: seq<nat>, rec: Option<Attempts>, a: Answer, after: Option<Attempts>, now: nat)
    requires o.Normal() && Accounted(o, w, rec, now) && (after == rec || after == None)
    ensures var lost := rec.Some? && after.None? && !Stale(o, rec.value, now);
      Accounted(o, NextTimes(w, false, lost, a, now), after, now)
  {
    if rec.Some? && after.None? {
      if Stale(o, rec.value, now) {
        AccountedStale(o, w, rec.value, now);
      } else {
        AccountedFresh(o, now);
      }
    }
  }

  /** What an attempt, by the address itself or another, leaves of its record. */
  ghost predicate Left(o: Options, rec: Option<Attempts>, mine: bool, a: Answer, left: Option<Attempts>, now: nat)
    requires o.Normal()
  {
    if mine then Outcome(o, RecordNow(rec, now), a, left, now) else left == rec || left == None
  }

  predicate Lost(o: Options, rec: Option<Attempts>, mine: bool, left: Option<Attempts>, now: nat) {
    !mine && rec.Some? && left.None? && !Stale(o, rec.value, now)
  }

  lemma AccountedAttempt(o: Options, w: seq<nat>, rec: Option<Attempts>, mine: bool, a: Answer,
                         left: Option<Attempts>, now: nat)
    requires o.Normal() && Accounted(o, w, rec, now) && Left(o, rec, mine, a, left, now)
    ensures Accounted(o, NextTimes(w, mine, Lost(o, rec, mine, left, now), a, now), left, now)
  {
    if mine {
      AccountedSelf(o, w, rec, a, left, now);
    } else {
      AccountedOther(o, w, rec, a, left, now);
    }
  }

  /** The same, of the states before and after. */
  lemma AttemptLeaves(o: Options, s: State, op: Op, a: Answer, after: State, now: nat, h: string)
    requires o.Normal() && (op.Key? || op.Pin?) && Step(o, s, op, a, after) && Time(op) == Some(now)
    requires |s.byAddr| <= o.maxTracked
    ensures Left(o, RecordOf(s.byAddr, h), Host(op) == h, a, RecordOf(after.byAddr, h), now)
  {
    AttemptEffect(o, s, op, a, after);
    if Host(op) != h {
      ByStander(o, s.byAddr, h, Host(op), now, after.byAddr);
    }
  }

  lemma NextWrongIs(o: Options, w: seq<nat>, s: State, op: Op, a: Answer, after: State, now: nat, h: string)
    requires op.Key? || op.Pin?
    ensures var mine := Host(op) == h; var rec, left := RecordOf(s.byAddr, h), RecordOf(after.byAddr, h);
      NextWrong(o, w, s, op, a, after, now, h) == NextTimes(w, mine, Lost(o, rec, mine, left, now), a, now)
  {
  }

  lemma {:induction false} AlwaysAccounted(o: Options, tr: Trace, h: string)
    requires o.Normal() && Run(o, tr) && ClockForward(tr) && h != ""
    ensures Accounted(o, WrongTimes(o, tr, h), RecordOf(Last(tr).byAddr, h), Clock(tr))
  {
    match tr
    case Start(_) =>
    case Then(before, op, a, after) =>
      AlwaysAccounted(o, before, h);
      ReachableBounds(o, before);
      AccountedLater(o, WrongTimes(o, before, h), RecordOf(Last(before).byAddr, h), Clock(before), Clock(tr));
      if op.Key? || op.Pin? {
        AccountedStep(o, WrongTimes(o, before, h), Last(before), op, a, after, Clock(tr), h);
      }
  }

  lemma AccountedStep(o: Options, w: seq<nat>, s: State, op: Op, a: Answer, after: State, now: nat, h: string)
    requires o.Normal() && (op.Key? || op.Pin?) && Step(o, s, op, a, after) && Time(op) == Some(now)
    requires |s.byAddr| <= o.maxTracked && Accounted(o, w, RecordOf(s.byAddr, h), now)
    ensures Accounted(o, NextWrong(o, w, s, op, a, after, now, h), RecordOf(after.byAddr, h), now)
  {
    AttemptLeaves(o, s, op, a, after, now, h);
    NextWrongIs(o, w, s, op, a, after, now, h);
    AccountedAttempt(o, w, RecordOf(s.byAddr, h), Host(op) == h, a, RecordOf(after.byAddr, h), now);
  }

  /** How many of the first n entries lie in the half-open window from a to b. */
  function CountIn(w: seq<nat>, n: nat, a: int, b: int): (c: nat)
    requires n <= |w|
    ensures c <= n
  {
    if n == 0 then 0 else CountIn(w, n - 1, a, b) + if a <= w[n - 1] < b then 1 else 0
  }

  lemma {:induction false} CountGrows(w: seq<nat>, k: nat, n: nat, a: int, b: int)
    requires k <= n <= |w|
    ensures CountIn(w, n, a, b) <= CountIn(w, k, a, b) + (n - k)
  {
    if k < n {
      CountGrows(w, k, n - 1, a, b);
    }
  }

  lemma {:induction false} CountNone(w: seq<nat>, n: nat, a: int, b: int)
    requires n <= |w| && forall i :: 0 <= i < n ==> w[i] < a
    ensures CountIn(w, n, a, b) == 0
  {
    if n > 0 {
      CountNone(w, n - 1, a, b);
    }
  }

  lemma {:induction false} SpacedCount(w: seq<nat>, n: nat, m: nat, gap: nat, a: int)
    requires n <= |w| && m > 0 && Sorted(w) && Spaced(w, m, gap)
    ensures CountIn(w, n, a, a + gap) <= m
  {
    if n > m {
      if a <= w[n - 1] < a + gap {
        assert w[n - 1 - m] + gap <= w[n - 1];
        CountNone(w, n - m, a, a + gap);
        CountGrows(w, n - m, n, a, a + gap);
      } else {
        SpacedCount(w, n - 1, m, gap, a);
      }
    }
  }

  lemma AccountSpaces(o: Options, w: seq<nat>, rec: Option<Attempts>, clock: nat, start: int)
    requires o.Normal() && Accounted(o, w, rec, clock)
    ensures CountIn(w, |w|, start, start + o.lockout) <= o.maxAttempts
  {
    SpacedCount(w, |w|, o.maxAttempts, o.lockout, start);
  }

  /** The lockout: in any window one lockout period long, wherever it starts, an address
      has at most maxAttempts wrong secrets compared, keys and PINs together. */
  lemma LockoutBound(o: Options, tr: Trace, h: string, start: int)
    requires o.Normal() && Run(o, tr) && ClockForward(tr) && h != ""
    ensures var w := WrongTimes(o, tr, h); CountIn(w, |w|, start, start + o.lockout) <= o.maxAttempts
  {
    AlwaysAccounted(o, tr, h);
    AccountSpaces(o, WrongTimes(o, tr, h), RecordOf(Last(tr).byAddr, h), Clock(tr), start);
  }

  // ---------------------------------------------------------------- what eviction costs

  /** The same times with no fresh start when a record is pushed out. */
  ghost function ComparedTimes(o: Options, tr: Trace, h: string): seq<nat> {
    match tr
    case Start(_) => []
    case Then(before, op, a, _) =>
      if op.Regenerate? || (Host(op) == h && (a.Granted? || a.Accepted?)) then []
      else if Host(op) == h && (a.Refused? || a.NowLocked?) then ComparedTimes(o, before, h) + [Clock(tr)]
      else ComparedTimes(o, before, h)
  }

  /** Whether no attempt by another address ever pushed h's record out before it went stale. */
  ghost predicate NeverLost(o: Options, tr: Trace, h: string) {
    match tr
    case Start(_) => true
    case Then(before, op, _, after) =>
      NeverLost(o, before, h) && !LostRecord(o, Last(before), op, after, Clock(tr), h)
  }

  lemma {:induction false} SameTimes(o: Options, tr: Trace, h: string)
    requires NeverLost(o, tr, h)
    ensures WrongTimes(o, tr, h) == ComparedTimes(o, tr, h)
  {
    match tr
    case Start(_) =>
    case Then(before, _, _, _) => SameTimes(o, before, h);
  }

  /** An address whose record only ever goes stale is held to the bound throughout. */
  lemma LockoutBoundUnlessEvicted(o: Options, tr: Trace, h: string, start: int)
    requires o.Normal() && Run(o, tr) && ClockForward(tr) && h != "" && NeverLost(o, tr, h)
    ensures var w := ComparedTimes(o, tr, h); CountIn(w, |w|, start, start + o.lockout) <= o.maxAttempts
  {
    LockoutBound(o, tr, h, start);
    SameTimes(o, tr, h);
  }

  // ---------------------------------------------------------------- sessions

  /** Whether the latest thing to happen to token was being granted for the right key. */
  ghost predicate GrantStands(tr: Trace, token: Token) {
    match tr
    case Start(_) => false
    case Then(before, op, a, _) =>
      if op.Key? && a == Granted(token) then StripDashes(op.secret) == Last(before).key
      else if op.Regenerate? || op == Remove(token) then false
      else GrantStands(before, token)
  }

  /** A session was there before, and was neither removed nor rotated away, or has just been
      granted for the right key. */
  lemma SessionComesFrom(o: Options, s: State, op: Op, a: Answer, after: State, token: Token)
    requires o.Normal() && Step(o, s, op, a, after) && token in after.sessions
    ensures !op.Regenerate? && op != Remove(token)
    ensures op.Key? && a == Granted(token) ==> StripDashes(op.secret) == s.key
    ensures token in s.sessions || (op.Key? && a == Granted(token))
  {
    if op.Key? {
      KeySessions(o, s, op, a, after, token);
    }
  }

  lemma KeySessions(o: Options, s: State, op: Op, a: Answer, after: State, token: Token)
    requires op.Key? && o.Normal() && KeyStep(o, s, op, a, after) && token in after.sessions
    ensures a == Granted(token) ==> StripDashes(op.secret) == s.key
    ensures token in s.sessions || a == Granted(token)
  {
  }

  /** Every session there is was granted to somebody who presented the key now in force,
      and has not been removed or rotated away since. */
  lemma {:induction false} SessionsWereGranted(o: Options, tr: Trace, token: Token)
    requires o.Normal() && Run(o, tr) && token in Last(tr).sessions
    ensures GrantStands(tr, token)
  {
    match tr
    case Start(_) =>
    case Then(before, op, a, after) =>
      SessionComesFrom(o, Last(before), op, a, after, token);
      if token in Last(before).sessions {
        SessionsWereGranted(o, before, token);
      }
  }

  /** A key of no characters is wrong on every machine. */
  lemma EmptyKeyNeverMatches(o: Options, tr: Trace, host: string, minted: Token, now: nat, a: Answer, after: State)
    requires o.Normal() && Run(o, tr) && Step(o, Last(tr), Key(host, "", minted, now), a, after)
    ensures !a.Granted?
    ensures forall t :: t in after.sessions ==> t in Last(tr).sessions
  {
    ReachableBounds(o, tr);
    EmptyKeyRefused(o, Last(tr), Key(host, "", minted, now), a, after);
  }

  lemma EmptyKeyRefused(o: Options, s: State, op: Op, a: Answer, after: State)
    requires o.Normal() && IsKey(s.key) && op.Key? && op.secret == "" && KeyStep(o, s, op, a, after)
    ensures !a.Granted? && forall t :: t in after.sessions ==> t in s.sessions
  {
    assert StripDashes("") == "";
  }
}
