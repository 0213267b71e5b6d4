/** What the auth manager answers, said of the calls made before and the answers given, not of
    the records it keeps: internal/auth/auth.go. */
module AuthAnswers {
  import opened Common
  import opened Auth
  import opened AuthHistory

  // ---------------------------------------------------------------- sessions

  /** When token was last granted, if it has not been removed or rotated away since. */
  function GrantedAt(tr: Trace, token: Token): Option<nat> {
    match tr
    case Start(_) => None
    case Then(before, op, a, _) =>
      if op.Key? && a == Granted(token) then Some(op.now)
      else if op.Regenerate? || op == Remove(token) then None
      else GrantedAt(before, token)
  }

  /** When it was last touched, or granted. */
  function UsedAt(tr: Trace, token: Token): nat {
    match tr
    case Start(_) => 0
    case Then(before, op, a, _) =>
      if op.Key? && a == Granted(token) then op.now
      else if op.Touch? && op.token == token then op.now
      else UsedAt(before, token)
  }

  /** Less than the total limit after the grant and less than the idle limit after the last use;
      a limit of zero is none. */
  predicate InTime(o: Options, granted: nat, used: nat, now: nat) {
    (o.ttl <= 0 || now < granted + o.ttl) && (o.idle <= 0 || now < used + o.idle)
  }

  /** The calls that look at whether token has expired: those about it, sweeps, and pairing
      attempts that get past the lockout. */
  predicate LooksAt(op: Op, a: Answer, token: Token) {
    match op
    case Validate(t, _) => t == token
    case Touch(t, _) => t == token
    case Sweep(_) => true
    case Key(_, _, _, _) => a != LockedOut
    case _ => false
  }

  /** Every look at the session since it was granted found it in time. */
  ghost predicate AlwaysInTime(o: Options, tr: Trace, token: Token) {
    match tr
    case Start(_) => true
    case Then(before, op, a, _) =>
      (op.Key? && a == Granted(token)) ||
      (AlwaysInTime(o, before, token) && FoundInTime(o, before, op, a, token))
  }

  ghost predicate FoundInTime(o: Options, before: Trace, op: Op, a: Answer, token: Token) {
    LooksAt(op, a, token) && GrantedAt(before, token).Some? ==>
      InTime(o, GrantedAt(before, token).value, UsedAt(before, token), Time(op).value)
  }

  /** A session as the calls tell it. */
  ghost function Told(o: Options, tr: Trace, token: Token): Option<Session> {
    if GrantedAt(tr, token).Some? && AlwaysInTime(o, tr, token)
    then Some(Session(GrantedAt(tr, token).value, UsedAt(tr, token))) else None
  }

  function Listed(sessions: map<Token, Session>, token: Token): Option<Session> {
    if token in sessions then Some(sessions[token]) else None
  }

  /** What one call makes of a session, by what it was. */
  function Onward(o: Options, was: Option<Session>, op: Op, a: Answer, token: Token): Option<Session> {
    if op.Key? && a == Granted(token) then Some(Session(op.now, op.now))
    else if op.Regenerate? || op == Remove(token) || was.None? then None
    else if LooksAt(op, a, token) && Time(op).Some? &&
            !InTime(o, was.value.createdAt, was.value.lastSeen, Time(op).value) then None
    else if op.Touch? && op.token == token then Some(was.value.(lastSeen := op.now))
    else was
  }

  lemma ListedKey(o: Options, s: State, op: Op, a: Answer, after: State, token: Token)
    requires o.Normal() && op.Key? && KeyStep(o, s, op, a, after)
    ensures Listed(after.sessions, token) == Onward(o, Listed(s.sessions, token), op, a, token)
  {
    KeyLists(o, s, op, a, after);
    ListedFrom(o, s.sessions, op, a, after.sessions, token);
  }

  lemma ListedFrom(o: Options, m: map<Token, Session>, op: Op, a: Answer, after: map<Token, Session>, token: Token)
    requires op.Key? && (a.Granted? ==> a.token == op.minted)
    requires after ==
      if a == LockedOut then m
      else if a.Granted? then Swept(o, m, op.now)[op.minted := Session(op.now, op.now)]
      else Swept(o, m, op.now)
    ensures Listed(after, token) == Onward(o, Listed(m, token), op, a, token)
  {
    ListedSwept(o, m, op.now, token);
  }

  lemma KeyLists(o: Options, s: State, op: Op, a: Answer, after: State)
    requires o.Normal() && op.Key? && KeyStep(o, s, op, a, after)
    ensures a.Granted? ==> a.token == op.minted
    ensures after.sessions ==
      if a == LockedOut then s.sessions
      else if a.Granted? then Swept(o, s.sessions, op.now)[op.minted := Session(op.now, op.now)]
      else Swept(o, s.sessions, op.now)
  {
  }

  lemma ListedSwept(o: Options, m: map<Token, Session>, now: nat, token: Token)
    ensures Listed(Swept(o, m, now), token) ==
      if token in m && InTime(o, m[token].createdAt, m[token].lastSeen, now) then Some(m[token]) else None
  {
  }

  lemma ListedOnward(o: Options, s: State, op: Op, a: Answer, after: State, token: Token)
    requires o.Normal() && Step(o, s, op, a, after)
    ensures Listed(after.sessions, token) == Onward(o, Listed(s.sessions, token), op, a, token)
  {
    if op.Key? {
      ListedKey(o, s, op, a, after, token);
    }
  }

  lemma ToldOnward(o: Options, tr: Trace, token: Token)
    requires tr.Then?
    ensures Told(o, tr, token) == Onward(o, Told(o, tr.before, token), tr.op, tr.answer, token)
  {
  }

  /** The sessions there are, and their times, are what the calls tell. */
  lemma {:induction false} SessionsAsTold(o: Options, tr: Trace, token: Token)
    requires o.Normal() && Run(o, tr)
    ensures Listed(Last(tr).sessions, token) == Told(o, tr, token)
  {
    match tr
    case Start(_) =>
    case Then(before, op, a, after) =>
      SessionsAsTold(o, before, token);
      ListedOnward(o, Last(before), op, a, after, token);
      ToldOnward(o, tr, token);
  }

  /** Asked at any time, whatever the clock has done: a session is alive exactly when it was
      granted and neither removed nor rotated away since, every look at it since found it less
      than the total limit after the grant and less than the idle limit after the last touch,
      and so does this one. */
  lemma AliveExactly(o: Options, tr: Trace, token: Token, now: nat, a: Answer, after: State, touch: bool)
    requires o.Normal() && Run(o, tr)
    requires Step(o, Last(tr), if touch then Touch(token, now) else Validate(token, now), a, after)
    ensures a == Live(GrantedAt(tr, token).Some? && AlwaysInTime(o, tr, token)
                      && InTime(o, GrantedAt(tr, token).value, UsedAt(tr, token), now))
  {
    SessionsAsTold(o, tr, token);
  }

  /** And a sweep leaves exactly those. */
  lemma SweepLeavesAlive(o: Options, tr: Trace, token: Token, now: nat, a: Answer, after: State)
    requires o.Normal() && Run(o, tr) && Step(o, Last(tr), Sweep(now), a, after)
    ensures token in after.sessions <==>
      GrantedAt(tr, token).Some? && AlwaysInTime(o, tr, token)
      && InTime(o, GrantedAt(tr, token).value, UsedAt(tr, token), now)
  {
    SessionsAsTold(o, tr, token);
  }

  /** No reading of the clock since the grant came an idle limit after the last touch. */
  ghost predicate KeptBusy(o: Options, tr: Trace, token: Token) {
    match tr
    case Start(_) => true
    case Then(before, op, a, _) =>
      (op.Key? && a == Granted(token)) ||
      (KeptBusy(o, before, token) &&
       (Time(op).Some? && o.idle > 0 ==> Time(op).value < UsedAt(before, token) + o.idle))
  }

  lemma {:induction false} BusyInTime(o: Options, tr: Trace, token: Token, now: nat)
    requires ClockForward(tr) && KeptBusy(o, tr, token) && GrantedAt(tr, token).Some? && Clock(tr) <= now
    requires o.ttl > 0 ==> now < GrantedAt(tr, token).value + o.ttl
    ensures AlwaysInTime(o, tr, token)
  {
    match tr
    case Start(_) =>
    case Then(before, op, a, _) =>
      if !(op.Key? && a == Granted(token)) {
        BusyInTime(o, before, token, now);
      }
  }

  /** A session in use, touched before each idle limit is out, lives to its total limit and not
      a moment longer. */
  lemma UsedToTheLimit(o: Options, tr: Trace, token: Token, now: nat, a: Answer, after: State)
    requires o.Normal() && Run(o, tr) && ClockForward(tr) && Clock(tr) <= now
    requires GrantedAt(tr, token).Some? && KeptBusy(o, tr, token)
    requires o.idle > 0 ==> now < UsedAt(tr, token) + o.idle
    requires Step(o, Last(tr), Validate(token, now), a, after)
    ensures a == Live(o.ttl <= 0 || now < GrantedAt(tr, token).value + o.ttl)
  {
    AliveExactly(o, tr, token, now, a, after, false);
    if o.ttl <= 0 || now < GrantedAt(tr, token).value + o.ttl {
      BusyInTime(o, tr, token, now);
    }
  }

  // ---------------------------------------------------------------- attempts

  /** Whether a call takes h's record away: a right secret from h, a rotation, or somebody else's
      attempt that makes room. */
  predicate Forgets(s: State, op: Op, a: Answer, after: State, h: string) {
    || op.Regenerate?
    || (Host(op) == h && (a.Granted? || a.Accepted?))
    || (Host(op) != h && h in s.byAddr && h !in after.byAddr)
  }

  /** When h was last locked out, if nothing has taken its record away since. */
  function LockedAt(tr: Trace, h: string): Option<nat> {
    match tr
    case Start(_) => None
    case Then(before, op, a, after) =>
      if Forgets(Last(before), op, a, after, h) then None
      else if Host(op) == h && a.NowLocked? then Some(Clock(tr))
      else LockedAt(before, h)
  }

  /** How many wrong secrets h has had compared since it was last locked out or forgotten. */
  function WrongSince(tr: Trace, h: string): nat {
    match tr
    case Start(_) => 0
    case Then(before, op, a, after) =>
      if Forgets(Last(before), op, a, after, h) || (Host(op) == h && a.NowLocked?) then 0
      else WrongSince(before, h) + if Host(op) == h && a.Refused? then 1 else 0
  }

  /** A record that says what the calls tell. */
  ghost predicate Speaks(o: Options, rec: Option<Attempts>, locked: Option<nat>, wrong: nat)
    requires o.Normal()
  {
    match rec
    case None => locked == None && wrong == 0
    case Some(r) =>
      r.failures == wrong && r.lockedUntil == if locked.Some? then locked.value + o.lockout else 0
  }

  lemma SpeaksAfterOwn(o: Options, rec: Option<Attempts>, locked: Option<nat>, wrong: nat, a: Answer,
                       left: Option<Attempts>, now: nat)
    requires o.Normal() && Speaks(o, rec, locked, wrong) && Outcome(o, RecordNow(rec, now), a, left, now)
    requires a.Refused? || a.NowLocked? ==> a == FailedAnswer(o, RecordNow(rec, now))
    ensures if a.Granted? || a.Accepted? then Speaks(o, left, None, 0)
            else if a.NowLocked? then Speaks(o, left, Some(now), 0)
            else Speaks(o, left, locked, wrong + if a.Refused? then 1 else 0)
  {
  }

  /** The answer to a wrong secret is the record's. */
  lemma WrongAnswer(o: Options, s: State, op: Op, a: Answer, after: State)
    requires o.Normal() && (op.Key? || op.Pin?) && Step(o, s, op, a, after) && (a.Refused? || a.NowLocked?)
    ensures a == FailedAnswer(o, RecordFor(s.byAddr, Host(op), Time(op).value))
  {
  }

  lemma SpeaksAfter(o: Options, s: State, op: Op, a: Answer, after: State, h: string, locked: Option<nat>, wrong: nat)
    requires o.Normal() && (op.Key? || op.Pin?) && Step(o, s, op, a, after) && |s.byAddr| <= o.maxTracked && h != ""
    requires Speaks(o, RecordOf(s.byAddr, h), locked, wrong)
    ensures var mine := Host(op) == h;
      if Forgets(s, op, a, after, h) then Speaks(o, RecordOf(after.byAddr, h), None, 0)
      else if mine && a.NowLocked? then Speaks(o, RecordOf(after.byAddr, h), Some(Time(op).value), 0)
      else Speaks(o, RecordOf(after.byAddr, h), locked, wrong + if mine && a.Refused? then 1 else 0)
  {
    var now := Time(op).value;
    AttemptLeaves(o, s, op, a, after, now, h);
    if Host(op) == h {
      if a.Refused? || a.NowLocked? {
        WrongAnswer(o, s, op, a, after);
      }
      SpeaksAfterOwn(o, RecordOf(s.byAddr, h), locked, wrong, a, RecordOf(after.byAddr, h), now);
    }
  }

  lemma {:induction false} RecordSpeaks(o: Options, tr: Trace, h: string)
    requires o.Normal() && Run(o, tr) && h != ""
    ensures Speaks(o, RecordOf(Last(tr).byAddr, h), LockedAt(tr, h), WrongSince(tr, h))
  {
    match tr
    case Start(_) =>
    case Then(before, op, a, after) =>
      RecordSpeaks(o, before, h);
      ReachableBounds(o, before);
      if op.Key? || op.Pin? {
        SpeaksAfter(o, Last(before), op, a, after, h, LockedAt(before, h), WrongSince(before, h));
      }
  }

  /** Serving a lockout: less than a lockout period since the last one began. */
  predicate Serving(o: Options, tr: Trace, h: string, now: nat) {
    LockedAt(tr, h).Some? && now < LockedAt(tr, h).value + o.lockout
  }

  /** The sessions alive at now, as the calls tell them. */
  ghost predicate AliveAt(o: Options, tr: Trace, token: Token, now: nat) {
    && GrantedAt(tr, token).Some? && AlwaysInTime(o, tr, token)
    && InTime(o, GrantedAt(tr, token).value, UsedAt(tr, token), now)
  }

  ghost function Alive(o: Options, tr: Trace, now: nat): set<Token> {
    set t | t in Last(tr).sessions && AliveAt(o, tr, t, now)
  }

  lemma AliveIsSwept(o: Options, tr: Trace, now: nat)
    requires o.Normal() && Run(o, tr)
    ensures Alive(o, tr, now) == Swept(o, Last(tr).sessions, now).Keys
    ensures |Alive(o, tr, now)| == |Swept(o, Last(tr).sessions, now)|
    ensures forall t :: AliveAt(o, tr, t, now) <==> t in Alive(o, tr, now)
  {
    forall t
      ensures AliveAt(o, tr, t, now) <==> t in Swept(o, Last(tr).sessions, now)
      ensures AliveAt(o, tr, t, now) ==> t in Last(tr).sessions
    {
      SessionsAsTold(o, tr, t);
      ListedSwept(o, Last(tr).sessions, now, t);
    }
  }

  /** The verdict on a wrong secret, by how many there have been. */
  function Wrong(o: Options, wrong: nat): Answer {
    if wrong + 1 >= o.maxAttempts then NowLocked else Refused(o.maxAttempts - wrong - 1)
  }

  /** What a pairing attempt is answered, after any run: locked out exactly while a lockout of the
      address is being served; else full exactly when as many sessions are alive as may be; else
      by the key, the wrong secret that makes up the allowance starting a lockout. */
  lemma KeyAnswered(o: Options, tr: Trace, h: string, secret: string, minted: Token, now: nat, a: Answer, after: State)
    requires o.Normal() && Run(o, tr) && Step(o, Last(tr), Key(h, secret, minted, now), a, after)
    ensures a ==
      if Serving(o, tr, h, now) then LockedOut
      else if |Alive(o, tr, now)| >= o.maxSessions then Full(o.maxAttempts - WrongSince(tr, h))
      else if StripDashes(secret) == Last(tr).key then Granted(minted)
      else Wrong(o, WrongSince(tr, h))
  {
    RecordSpeaks(o, tr, h);
    AliveIsSwept(o, tr, now);
    KeyAnswer(o, Last(tr), Key(h, secret, minted, now), a, after);
  }

  lemma KeyAnswer(o: Options, s: State, op: Op, a: Answer, after: State)
    requires o.Normal() && op.Key? && KeyStep(o, s, op, a, after)
    ensures var r := RecordFor(s.byAddr, op.host, op.now);
      a ==
      if op.now < r.lockedUntil then LockedOut
      else if |Swept(o, s.sessions, op.now)| >= o.maxSessions then Full(o.maxAttempts - r.failures)
      else if StripDashes(op.secret) == s.key then Granted(op.minted)
      else Wrong(o, r.failures)
  {
  }

  /** And a PIN: the same lockout and the same count. */
  lemma PinAnswered(o: Options, tr: Trace, h: string, good: bool, now: nat, a: Answer, after: State)
    requires o.Normal() && Run(o, tr) && Step(o, Last(tr), Pin(h, good, now), a, after)
    ensures a ==
      if Serving(o, tr, h, now) then LockedOut
      else if good then Accepted
      else Wrong(o, WrongSince(tr, h))
  {
    RecordSpeaks(o, tr, h);
  }

  // ---------------------------------------------------------------- who is forgotten

  /** Out of its lockout, and not seen for longer than one. */
  predicate LongQuiet(o: Options, r: Attempts, now: nat) {
    r.lockedUntil < now && r.lastSeen + o.lockout < now
  }

  /** When room is made, who goes and who stays: a long quiet address never stays behind one that
      goes, nor an unlocked one behind a locked one; of two unlocked ones the one seen longer ago
      goes, of two locked ones the one whose lockout ends sooner; and only long quiet ones go
      together. */
  lemma GoesBefore(o: Options, t: Table, now: nat, after: Table, h: string, g: string)
    requires Evicted(o, t, now, after) && h in t && h !in after && g in after
    ensures g in t && after[g] == t[g] && !LongQuiet(o, t[g], now)
    ensures LongQuiet(o, t[h], now)
            || (t[h].lockedUntil <= now && (now < t[g].lockedUntil || t[h].lastSeen <= t[g].lastSeen))
            || (now < t[h].lockedUntil && now < t[g].lockedUntil && t[h].lockedUntil <= t[g].lockedUntil)
    ensures !LongQuiet(o, t[h], now) ==> after == t - {h}
  {
    var stale := StaleHosts(o, t, now);
    if stale != {} {
      assert h in stale && g !in stale;
    } else {
      assert h !in stale && g !in stale;
    }
  }

  lemma StripLast(s: string, c: char)
    ensures StripDashes(s + [c]) == StripDashes(s) + if c == '-' then "" else [c]
  {
    assert (s + [c])[..|s|] == s;
  }

  /** Nothing but dashes is dropped. */
  lemma {:induction false} OthersStay(a: string, b: string)
    requires '-' !in b
    ensures StripDashes(a + b) == StripDashes(a) + b
    decreases |b|
  {
    if b == "" {
      assert a + b == a;
    } else {
      var front, c := b[..|b| - 1], b[|b| - 1];
      OthersStay(a, front);
      assert a + b == (a + front) + [c] && front + [c] == b;
      StripLast(a + front, c);
      Regroup(StripDashes(a), front, [c]);
    }
  }

  /** And a dash makes no difference, wherever it stands. */
  lemma {:induction false} DashesIgnored(a: string, b: string)
    ensures StripDashes(a + "-" + b) == StripDashes(a + b)
    decreases |b|
  {
    if b == "" {
      assert a + "-" + b == a + ['-'] && a + b == a;
      StripLast(a, '-');
    } else {
      var front, c := b[..|b| - 1], b[|b| - 1];
      DashesIgnored(a, front);
      assert a + "-" + b == (a + "-" + front) + [c] && a + b == (a + front) + [c];
      StripLast(a + "-" + front, c);
      StripLast(a + front, c);
    }
  }
}
