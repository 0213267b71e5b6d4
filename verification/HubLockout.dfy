/** The lockout as the hub's sockets meet it: every operation of the hub seen as the calls it
    makes on the auth manager. */
module HubLockout {
  import opened Common
  import opened Handshake
  import opened HubState
  import opened HubHistory
  import opened HubSafety
  import A = Auth
  import AH = AuthHistory
  import Population

  /** Everybody, socket or console, who had a proof or a PIN judged. */
  function Askers(env: Env, tr: Trace): set<string> {
    match tr
    case Start(_) => {}
    case Then(before, op, _, _) =>
      var q := Asks(env, Last(before), op);
      Askers(env, before) + if q.Some? then {AH.Host(q.value)} else {}
  }

  /** The times at which h had a wrong proof or PIN judged, since it last got one right and
      since the key was last changed. */
  ghost function JudgedTimes(env: Env, tr: Trace, h: string): seq<nat> {
    match tr
    case Start(_) => []
    case Then(before, op, v, _) =>
      NextJudged(env, JudgedTimes(env, before, h), Last(before), op, v.answer, Clock(tr), h)
  }

  ghost function NextJudged(env: Env, w: seq<nat>, s: State, op: Op, a: A.Answer, now: nat, h: string): seq<nat> {
    if op.Rotate? then []
    else if Asks(env, s, op).None? || AH.Host(Asks(env, s, op).value) != h then w
    else if a.Granted? || a.Accepted? then []
    else if a.Refused? || a.NowLocked? then w + [now]
    else w
  }

  /** The same, and since h last lost its record to the table filling up with records that
      were not stale. */
  ghost function JudgedWrong(env: Env, tr: Trace, h: string): seq<nat> {
    match tr
    case Start(_) => []
    case Then(before, op, v, _) => NextWrong(env, JudgedWrong(env, before, h), Last(before), op, v, Clock(tr), h)
  }

  ghost function NextWrong(env: Env, w: seq<nat>, s: State, op: Op, v: Verdict, now: nat, h: string): seq<nat> {
    var a := v.answer;
    if op.Rotate? then []
    else if Asks(env, s, op).None? then w
    else AH.NextWrong(env.opts, w, Asking(env, s, op), Asks(env, s, op).value, a, v.auth, now, h)
  }

  // ---------------------------------------------------------------- an auth manager's run beside the hub's

  /** What the two runs have in common. */
  datatype Tally = Tally(auth: A.State, clock: nat, wrong: seq<nat>, compared: seq<nat>, who: set<string>)

  ghost function HubTally(env: Env, tr: Trace, h: string): Tally {
    Tally(Last(tr).auth, Clock(tr), JudgedWrong(env, tr, h), JudgedTimes(env, tr, h), Askers(env, tr))
  }

  ghost predicate Matches(o: A.Options, atr: AH.Trace, h: string, y: Tally)
    requires o.Normal()
  {
    && AH.Run(o, atr) && AH.ClockForward(atr) && AH.Clock(atr) <= y.clock
    && AH.Last(atr) == y.auth
    && AH.WrongTimes(o, atr, h) == y.wrong && AH.ComparedTimes(o, atr, h) == y.compared
    && Population.Attempters(atr) == y.who
  }

  /** A call that judges nothing. */
  lemma Aside(o: A.Options, atr: AH.Trace, h: string, y: Tally, op: A.Op, a: A.Answer, auth: A.State, later: nat)
    returns (more: AH.Trace)
    requires o.Normal() && h != "" && Matches(o, atr, h, y) && A.Step(o, y.auth, op, a, auth)
    requires op.Touch? || op.Remove?
    requires op.Touch? ==> y.clock <= op.now <= later
    requires y.clock <= later
    ensures Matches(o, more, h, y.(auth := auth, clock := later))
  {
    more := AH.Then(atr, op, a, auth);
  }

  lemma Later(o: A.Options, atr: AH.Trace, h: string, y: Tally, later: nat)
    requires o.Normal() && Matches(o, atr, h, y) && y.clock <= later
    ensures Matches(o, atr, h, y.(clock := later))
  {
  }

  function NextCompared(w: seq<nat>, mine: bool, a: A.Answer, now: nat): seq<nat> {
    if mine && (a.Granted? || a.Accepted?) then []
    else if mine && (a.Refused? || a.NowLocked?) then w + [now]
    else w
  }

  lemma AttemptTimes(o: A.Options, atr: AH.Trace, h: string, op: A.Op, a: A.Answer, auth: A.State)
    requires op.Key? || op.Pin?
    ensures var tr := AH.Then(atr, op, a, auth);
      && AH.Clock(tr) == op.now
      && AH.WrongTimes(o, tr, h)
         == AH.NextWrong(o, AH.WrongTimes(o, atr, h), AH.Last(atr), op, a, auth, op.now, h)
      && AH.ComparedTimes(o, tr, h) == NextCompared(AH.ComparedTimes(o, atr, h), AH.Host(op) == h, a, op.now)
      && Population.Attempters(tr) == Population.Attempters(atr) + {AH.Host(op)}
  {
  }

  /** A call that judges a key or a PIN. */
  lemma Attempt(o: A.Options, atr: AH.Trace, h: string, y: Tally, op: A.Op, a: A.Answer, auth: A.State)
    returns (more: AH.Trace)
    requires o.Normal() && Matches(o, atr, h, y) && A.Step(o, y.auth, op, a, auth)
    requires (op.Key? || op.Pin?) && y.clock <= op.now
    ensures Matches(o, more, h, Tally(auth, op.now, AH.NextWrong(o, y.wrong, y.auth, op, a, auth, op.now, h),
                                      NextCompared(y.compared, AH.Host(op) == h, a, op.now), y.who + {AH.Host(op)}))
  {
    AttemptTimes(o, atr, h, op, a, auth);
    more := AH.Then(atr, op, a, auth);
  }

  lemma Rotated(o: A.Options, atr: AH.Trace, h: string, y: Tally, key: string) returns (more: AH.Trace)
    requires o.Normal() && Matches(o, atr, h, y) && A.IsKey(key)
    ensures Matches(o, more, h, y.(auth := A.State(key, map[], map[]), wrong := [], compared := []))
  {
    more := AH.Then(atr, A.Regenerate(key), A.Done, A.State(key, map[], map[]));
  }

  /** The heartbeat: one session let go after another. */
  lemma {:induction false} Dropped(o: A.Options, atr: AH.Trace, h: string, y: Tally, gone: set<A.Token>)
    returns (more: AH.Trace)
    requires o.Normal() && h != "" && Matches(o, atr, h, y)
    ensures Matches(o, more, h, y.(auth := WithoutSessions(y.auth, gone)))
    decreases gone
  {
    if gone == {} {
      assert WithoutSessions(y.auth, {}) == y.auth;
      more := atr;
    } else {
      var token :| token in gone;
      var one := WithoutSessions(y.auth, {token});
      var next := Aside(o, atr, h, y, A.Remove(token), A.Done, one, y.clock);
      more := Dropped(o, next, h, y.(auth := one), gone - {token});
      assert y.auth.sessions - {token} - (gone - {token}) == y.auth.sessions - gone;
    }
  }

  // ---------------------------------------------------------------- what an operation leaves of the auth manager

  lemma AnsweredAuth(env: Env, s: State, id: Id, m: Msg, now: nat, v: Verdict)
    requires id in s.conns && !m.Auth? && !BringsPin(m)
    ensures AsksPin(s.settings, m).None? && Answered(env, s, id, m, now, v).auth == s.auth
  {
  }

  lemma PinAnsweredAuth(env: Env, s: State, id: Id, m: Msg, now: nat, v: Verdict)
    requires id in s.conns && BringsPin(m)
    ensures Answered(env, s, id, m, now, v).auth == if AsksPin(s.settings, m).Some? then v.auth else s.auth
  {
  }

  lemma AuthedAuth(env: Env, s: State, id: Id, m: Msg, v: Verdict)
    requires id in s.conns && m.Auth?
    ensures Authed(env, s, id, m, v).auth ==
      if !Judged(m) then s.auth
      else if v.answer.Granted? then Retired(v.auth, s.conns[id].token, v.answer.token)
      else v.auth
  {
  }

  /** What a message leaves: nothing but the dead session gone; or, of what the question was
      put to, the answer's state, less the session a socket that pairs anew had before. */
  lemma MessageAuth(env: Env, s: State, op: Op, v: Verdict)
    requires op.Message? && Possible(env, s, op, v)
    ensures var after, c := Apply(env, s, op, v).auth, s.conns[op.id];
      if !StillLive(env, s, op.id, op.msg, op.now) then
        after == Removed(s, op.id).auth
      else if Asks(env, s, op).None? then
        after == Asking(env, s, op)
      else
        after == if op.msg.Auth? && v.answer.Granted? then Retired(v.auth, c.token, v.answer.token) else v.auth
  {
    var t := Touched(env, s, op.id, op.msg, op.now);
    if StillLive(env, s, op.id, op.msg, op.now) && op.allowed {
      if op.msg.Auth? {
        AuthedAuth(env, t, op.id, op.msg, v);
      } else if t.conns[op.id].authenticated {
        if BringsPin(op.msg) {
          PinAnsweredAuth(env, t, op.id, op.msg, op.now, v);
        } else {
          AnsweredAuth(env, t, op.id, op.msg, op.now, v);
        }
      }
    }
  }

  // ---------------------------------------------------------------- one step

  /** The tally after a step. */
  ghost function NextTally(env: Env, y: Tally, s: State, op: Op, v: Verdict, auth: A.State, h: string): Tally {
    var now := if Time(op).Some? then Time(op).value else y.clock;
    var q := Asks(env, s, op);
    Tally(auth, now, NextWrong(env, y.wrong, s, op, v, now, h), NextJudged(env, y.compared, s, op, v.answer, now, h),
          y.who + if q.Some? then {AH.Host(q.value)} else {})
  }

  /** The session check a message begins with. */
  lemma FirstTouched(env: Env, s: State, op: Op, v: Verdict, atr: AH.Trace, h: string, y: Tally)
    returns (more: AH.Trace)
    requires op.Message? && Possible(env, s, op, v) && h != ""
    requires Matches(env.opts, atr, h, y) && y.auth == s.auth && y.clock <= op.now
    requires s.conns[op.id].authenticated ==> s.conns[op.id].token != ""
    ensures StillLive(env, s, op.id, op.msg, op.now) ==>
              Matches(env.opts, more, h, y.(auth := Asking(env, s, op), clock := op.now))
    ensures !StillLive(env, s, op.id, op.msg, op.now) ==>
              Matches(env.opts, more, h, y.(auth := Removed(s, op.id).auth, clock := op.now))
  {
    var c := s.conns[op.id];
    if c.authenticated && !op.msg.Auth? {
      var live := A.IsLive(env.opts, s.auth, c.token, op.now);
      var auth := if live then Asking(env, s, op) else Removed(s, op.id).auth;
      more := Aside(env.opts, atr, h, y, A.Touch(c.token, op.now), A.Live(live), auth, op.now);
    } else {
      Later(env.opts, atr, h, y, op.now);
      more := atr;
    }
  }

  lemma AskedNow(env: Env, s: State, op: Op)
    requires Asks(env, s, op).Some?
    ensures var q := Asks(env, s, op).value; (q.Key? || q.Pin?) && Time(op) == Some(q.now) && !op.Rotate?
  {
  }

  /** What a question adds, said of the hub's operation. */
  lemma AskedTally(env: Env, y: Tally, s: State, op: Op, v: Verdict, h: string)
    requires Asks(env, s, op).Some? && y.auth == Asking(env, s, op) && Time(op) == Some(y.clock)
    ensures var q := Asks(env, s, op).value;
      Tally(v.auth, y.clock, AH.NextWrong(env.opts, y.wrong, y.auth, q, v.answer, v.auth, y.clock, h),
            NextCompared(y.compared, AH.Host(q) == h, v.answer, y.clock), y.who + {AH.Host(q)})
      == NextTally(env, y, s, op, v, v.auth, h)
  {
    AskedNow(env, s, op);
  }

  lemma Questioned(env: Env, s: State, op: Op, v: Verdict, atr: AH.Trace, h: string, y: Tally)
    returns (more: AH.Trace)
    requires Possible(env, s, op, v) && Asks(env, s, op).Some? && y.auth == Asking(env, s, op)
    requires Matches(env.opts, atr, h, y) && Time(op) == Some(y.clock)
    ensures Matches(env.opts, more, h, NextTally(env, y, s, op, v, v.auth, h))
  {
    AskedNow(env, s, op);
    AskedTally(env, y, s, op, v, h);
    more := Attempt(env.opts, atr, h, y, Asks(env, s, op).value, v.answer, v.auth);
  }

  lemma SameTally(env: Env, y: Tally, z: Tally, s: State, op: Op, v: Verdict, auth: A.State, h: string)
    requires z == y.(auth := z.auth, clock := z.clock)
    requires Time(op) == Some(z.clock)
    ensures NextTally(env, y, s, op, v, auth, h) == NextTally(env, z, s, op, v, auth, h)
    ensures NextTally(env, z, s, op, v, auth, h)
            == NextTally(env, z, s, op, v, v.auth, h).(auth := auth, clock := z.clock)
  {
  }

  /** The earlier session given up, when there was one and a new one came. */
  lemma GaveUp(env: Env, atr: AH.Trace, h: string, y: Tally, earlier: A.Token, token: A.Token)
    returns (more: AH.Trace)
    requires env.opts.Normal() && h != "" && Matches(env.opts, atr, h, y)
    ensures Matches(env.opts, more, h, y.(auth := Retired(y.auth, earlier, token)))
  {
    more := atr;
    if earlier != "" && earlier != token {
      more := Dropped(env.opts, atr, h, y, {earlier});
    }
  }

  lemma MessageAsked(env: Env, s: State, op: Op, v: Verdict, atr: AH.Trace, h: string, y: Tally)
    returns (more: AH.Trace)
    requires op.Message? && Possible(env, s, op, v) && h != "" && Asks(env, s, op).Some?
    requires Matches(env.opts, atr, h, y.(auth := Asking(env, s, op), clock := op.now))
    ensures Matches(env.opts, more, h, NextTally(env, y, s, op, v, Apply(env, s, op, v).auth, h))
  {
    var z, after := y.(auth := Asking(env, s, op), clock := op.now), Apply(env, s, op, v).auth;
    MessageAuth(env, s, op, v);
    SameTally(env, y, z, s, op, v, after, h);
    more := Questioned(env, s, op, v, atr, h, z);
    if op.msg.Auth? && v.answer.Granted? {
      more := GaveUp(env, more, h, NextTally(env, z, s, op, v, v.auth, h), s.conns[op.id].token, v.answer.token);
    }
  }

  lemma MessageFollowed(env: Env, s: State, op: Op, v: Verdict, atr: AH.Trace, h: string, y: Tally)
    returns (more: AH.Trace)
    requires op.Message? && Possible(env, s, op, v) && h != ""
    requires Matches(env.opts, atr, h, y) && y.auth == s.auth && y.clock <= op.now
    requires s.conns[op.id].authenticated ==> s.conns[op.id].token != ""
    ensures Matches(env.opts, more, h, NextTally(env, y, s, op, v, Apply(env, s, op, v).auth, h))
  {
    more := FirstTouched(env, s, op, v, atr, h, y);
    if Asks(env, s, op).Some? {
      more := MessageAsked(env, s, op, v, more, h, y);
    } else {
      MessageAuth(env, s, op, v);
    }
  }

  /** Sessions let go, and nothing judged. */
  lemma LetGo(env: Env, s: State, op: Op, v: Verdict, atr: AH.Trace, h: string, y: Tally, gone: set<A.Token>)
    returns (more: AH.Trace)
    requires Possible(env, s, op, v) && h != "" && Asks(env, s, op).None? && !op.Rotate?
    requires Matches(env.opts, atr, h, y) && y.auth == s.auth && (Time(op).Some? ==> y.clock <= Time(op).value)
    ensures Matches(env.opts, more, h, NextTally(env, y, s, op, v, WithoutSessions(s.auth, gone), h))
  {
    var now := if Time(op).Some? then Time(op).value else y.clock;
    Later(env.opts, atr, h, y, now);
    more := Dropped(env.opts, atr, h, y.(clock := now), gone);
  }

  /** The sessions an operation other than a message lets go when it judges nothing. */
  function Ended(env: Env, s: State, op: Op): set<A.Token> {
    match op
    case Gone(id) => if id in s.conns && s.conns[id].token != "" then {s.conns[id].token} else {}
    case Heartbeat(now) => Tokens(s.conns, Expired(env, s, now))
    case _ => {}
  }

  lemma EndedAuth(env: Env, s: State, op: Op, v: Verdict)
    requires !op.Message? && !op.Rotate? && Possible(env, s, op, v) && Asks(env, s, op).None?
    ensures Apply(env, s, op, v).auth == WithoutSessions(s.auth, Ended(env, s, op))
  {
    if !op.Gone? && !op.Heartbeat? {
      ElsewhereAuth(env, s, op, v);
      assert s.auth.sessions - {} == s.auth.sessions;
    } else if op.Gone? {
      GoneAuth(env, s, op.id);
    }
  }

  lemma GoneAuth(env: Env, s: State, id: Id)
    requires id in s.conns
    ensures Left(env, s, id).auth == WithoutSessions(s.auth, Ended(env, s, Gone(id)))
  {
    assert s.auth.sessions - {} == s.auth.sessions;
  }

  lemma ElsewhereAuth(env: Env, s: State, op: Op, v: Verdict)
    requires Possible(env, s, op, v) && Asks(env, s, op).None?
    requires !op.Message? && !op.Gone? && !op.Heartbeat? && !op.Rotate?
    ensures Apply(env, s, op, v).auth == s.auth
  {
  }

  lemma ConsoleAsked(env: Env, s: State, op: Op, v: Verdict, atr: AH.Trace, h: string, y: Tally)
    returns (more: AH.Trace)
    requires !op.Message? && Possible(env, s, op, v) && Asks(env, s, op).Some?
    requires Matches(env.opts, atr, h, y) && y.auth == s.auth && (Time(op).Some? ==> y.clock <= Time(op).value)
    ensures Matches(env.opts, more, h, NextTally(env, y, s, op, v, Apply(env, s, op, v).auth, h))
  {
    var z := y.(clock := op.now);
    Later(env.opts, atr, h, y, op.now);
    SameTally(env, y, z, s, op, v, v.auth, h);
    more := Questioned(env, s, op, v, atr, h, z);
  }

  /** Everything else. */
  lemma OtherFollowed(env: Env, s: State, op: Op, v: Verdict, atr: AH.Trace, h: string, y: Tally)
    returns (more: AH.Trace)
    requires !op.Message? && Possible(env, s, op, v) && h != ""
    requires Matches(env.opts, atr, h, y) && y.auth == s.auth && (Time(op).Some? ==> y.clock <= Time(op).value)
    ensures Matches(env.opts, more, h, NextTally(env, y, s, op, v, Apply(env, s, op, v).auth, h))
  {
    if op.Rotate? {
      more := Rotated(env.opts, atr, h, y, op.key);
    } else if Asks(env, s, op).Some? {
      more := ConsoleAsked(env, s, op, v, atr, h, y);
    } else {
      EndedAuth(env, s, op, v);
      more := LetGo(env, s, op, v, atr, h, y, Ended(env, s, op));
    }
  }

  // ---------------------------------------------------------------- over every run

  lemma TallyMore(env: Env, tr: Trace, h: string)
    requires tr.Then?
    ensures HubTally(env, tr, h) ==
            NextTally(env, HubTally(env, tr.before, h), Last(tr.before), tr.op, tr.verdict, tr.after.auth, h)
  {
  }

  /** Beside every run of the hub there is one of the auth manager with the same questions,
      answers and times. */
  lemma {:induction false} Accompanied(env: Env, tr: Trace, h: string) returns (atr: AH.Trace)
    requires Run(env, tr) && ClockForward(tr) && env.opts.Normal() && h != ""
    ensures Matches(env.opts, atr, h, HubTally(env, tr, h))
  {
    match tr
    case Start(s) =>
      atr := AH.Start(s.auth);
    case Then(before, op, v, after) =>
      var rest := Accompanied(env, before, h);
      AlwaysInv(env, before);
      if op.Message? {
        atr := MessageFollowed(env, Last(before), op, v, rest, h, HubTally(env, before, h));
      } else {
        atr := OtherFollowed(env, Last(before), op, v, rest, h, HubTally(env, before, h));
      }
      TallyMore(env, tr, h);
  }

  /** Over every run of the hub: in any window one lockout period long an address has at most
      maxAttempts wrong proofs and PINs judged, from all its sockets together, counting afresh
      when its record is pushed out. */
  lemma HubLockoutBound(env: Env, tr: Trace, h: string, start: int)
    requires Run(env, tr) && ClockForward(tr) && env.opts.Normal() && h != ""
    ensures Population.WindowHolds(env.opts, JudgedWrong(env, tr, h), start)
  {
    var atr := Accompanied(env, tr, h);
    Population.WindowOfWrong(env.opts, atr, h, start);
  }

  /** The bound, whatever is pushed out. */
  ghost predicate HeldThroughout(env: Env, tr: Trace, h: string) {
    forall start: int :: Population.WindowHolds(env.opts, JudgedTimes(env, tr, h), start)
  }

  lemma HubHeldWhenRoom(env: Env, tr: Trace, h: string, hs: set<string>)
    requires Run(env, tr) && ClockForward(tr) && env.opts.Normal() && h != ""
    requires Askers(env, tr) <= hs && |hs| <= env.opts.maxTracked
    ensures HeldThroughout(env, tr, h)
  {
    var atr := Accompanied(env, tr, h);
    Population.HeldWhenRoom(env.opts, atr, hs, h);
    forall start: int
      ensures Population.WindowHolds(env.opts, JudgedTimes(env, tr, h), start)
    {
      assert Population.WindowHolds(env.opts, AH.ComparedTimes(env.opts, atr, h), start);
    }
  }

  // ---------------------------------------------------------------- one address too many

  // A guess, as sockets make one: connect, offer a proof that does not hold, and go.

  /** Nobody is connected, and n sockets have been. */
  ghost predicate Idle(s: State, n: nat) {
    && s.held == multiset{} && s.auth.sessions == map[]
    && forall id :: id in s.conns ==> id < n && s.conns[id].token == ""
  }

  function Knock(n: nat, addr: string): Op {
    Connect(n, addr, seq(NONCE_HEX_LEN, _ => '0'))
  }

  function Offer(n: nat): Op {
    Message(n, Auth(Junk(""), ENC_CHACHA, "", "minted"), 0, true)
  }

  /** The last of them, connected from addr, waits to pair. */
  ghost predicate Waits(env: Env, s: State, n: nat, addr: string) {
    && s.held == multiset{env.Host(addr)} && s.auth.sessions == map[]
    && (forall id :: id in s.conns ==> id <= n && s.conns[id].token == "")
    && n in s.conns && s.conns[n].addr == addr
    && s.conns[n].open && !s.conns[n].authenticated && s.conns[n].pendingHeld
  }

  lemma Knocked(env: Env, s: State, n: nat, addr: string) returns (t: State)
    requires env.opts.Normal() && Idle(s, n)
    ensures Step(env, s, Knock(n, addr), Unasked(s), t) && Waits(env, t, n, addr) && t.auth == s.auth
  {
    t := Apply(env, s, Knock(n, addr), Unasked(s));
  }

  lemma Offered(env: Env, s: State, n: nat, addr: string, v: Verdict) returns (t: State)
    requires env.opts.Normal() && Waits(env, s, n, addr) && v.auth.sessions == map[]
    requires A.Step(env.opts, s.auth, Population.Guess(env.Host(addr)), v.answer, v.auth)
    requires v.answer.Refused? || v.answer.NowLocked?
    ensures Asks(env, s, Offer(n)) == Some(Population.Guess(env.Host(addr)))
    ensures Step(env, s, Offer(n), v, t) && Waits(env, t, n, addr) && t.auth == v.auth
  {
    OfferAsks(env, s, n, addr);
    t := Sent(s.(auth := v.auth), n, AuthFail);
    assert Unused(s, "minted");
  }

  lemma OfferAsks(env: Env, s: State, n: nat, addr: string)
    requires Waits(env, s, n, addr)
    ensures Asks(env, s, Offer(n)) == Some(Population.Guess(env.Host(addr))) && Asking(env, s, Offer(n)) == s.auth
  {
  }

  lemma Went(env: Env, s: State, n: nat, addr: string) returns (t: State)
    requires env.opts.Normal() && Waits(env, s, n, addr)
    ensures Step(env, s, Gone(n), Unasked(s), t) && Idle(t, n + 1) && t.auth == s.auth
  {
    t := Apply(env, s, Gone(n), Unasked(s));
  }

  lemma StillNoSessions(o: A.Options, s: A.State, g: string, a: A.Answer, after: A.State)
    requires o.Normal() && s.sessions == map[] && A.Step(o, s, Population.Guess(g), a, after)
    requires a.Refused? || a.NowLocked?
    ensures after.sessions == map[]
  {
    assert A.Swept(o, map[], 0) == map[];
  }

  /** A run at one instant, with h judged at the times w, and those who asked. */
  ghost predicate Counted(env: Env, tr: Trace, h: string, w: seq<nat>, who: set<string>) {
    && Run(env, tr) && ClockForward(tr) && Clock(tr) == 0
    && JudgedTimes(env, tr, h) == w && Askers(env, tr) == who
  }

  lemma NothingAsked(env: Env, tr: Trace, op: Op, v: Verdict, after: State, h: string, w: seq<nat>, who: set<string>)
    requires Counted(env, tr, h, w, who) && Step(env, Last(tr), op, v, after)
    requires Asks(env, Last(tr), op).None? && Time(op).None? && !op.Rotate?
    ensures Counted(env, Then(tr, op, v, after), h, w, who)
  {
  }

  lemma GuessAsked(env: Env, tr: Trace, op: Op, v: Verdict, after: State, g: string, h: string, w: seq<nat>,
                   who: set<string>)
    requires Counted(env, tr, h, w, who) && Step(env, Last(tr), op, v, after) && Time(op) == Some(0)
    requires Asks(env, Last(tr), op) == Some(Population.Guess(g)) && (v.answer.Refused? || v.answer.NowLocked?)
    ensures Counted(env, Then(tr, op, v, after), h, if g == h then w + [0] else w, who + {g})
  {
    GuessTimes(env, tr, op, v, after, g, h);
  }

  lemma GuessTimes(env: Env, tr: Trace, op: Op, v: Verdict, after: State, g: string, h: string)
    requires Time(op) == Some(0) && (v.answer.Refused? || v.answer.NowLocked?)
    requires Asks(env, Last(tr), op) == Some(Population.Guess(g))
    ensures var more := Then(tr, op, v, after);
      && JudgedTimes(env, more, h) == (if g == h then JudgedTimes(env, tr, h) + [0] else JudgedTimes(env, tr, h))
      && Askers(env, more) == Askers(env, tr) + {g}
  {
    AskedNow(env, Last(tr), op);
  }

  /** How the hub's run stands beside one of the auth manager's. */
  ghost predicate Level(env: Env, tr: Trace, n: nat, h: string, auth: A.State, w: seq<nat>, who: set<string>) {
    Counted(env, tr, h, w, who) && Idle(Last(tr), n) && Last(tr).auth == auth
  }

  lemma KnockMade(env: Env, tr: Trace, n: nat, h: string, w: seq<nat>, who: set<string>, addr: string)
    returns (more: Trace)
    requires env.opts.Normal() && Counted(env, tr, h, w, who) && Idle(Last(tr), n)
    ensures Counted(env, more, h, w, who) && Waits(env, Last(more), n, addr) && Last(more).auth == Last(tr).auth
  {
    var s := Last(tr);
    var t := Knocked(env, s, n, addr);
    NothingAsked(env, tr, Knock(n, addr), Unasked(s), t, h, w, who);
    more := Then(tr, Knock(n, addr), Unasked(s), t);
  }

  lemma OfferMade(env: Env, tr: Trace, n: nat, h: string, w: seq<nat>, who: set<string>, addr: string, v: Verdict)
    returns (more: Trace)
    requires env.opts.Normal() && Counted(env, tr, h, w, who) && Waits(env, Last(tr), n, addr)
    requires A.Step(env.opts, Last(tr).auth, Population.Guess(env.Host(addr)), v.answer, v.auth)
    requires v.answer.Refused? || v.answer.NowLocked?
    ensures Counted(env, more, h, if env.Host(addr) == h then w + [0] else w, who + {env.Host(addr)})
    ensures Waits(env, Last(more), n, addr) && Last(more).auth == v.auth
  {
    StillNoSessions(env.opts, Last(tr).auth, env.Host(addr), v.answer, v.auth);
    var t := Offered(env, Last(tr), n, addr, v);
    GuessAsked(env, tr, Offer(n), v, t, env.Host(addr), h, w, who);
    more := Then(tr, Offer(n), v, t);
  }

  lemma GoneThen(env: Env, tr: Trace, n: nat, h: string, w: seq<nat>, who: set<string>, addr: string)
    returns (more: Trace)
    requires env.opts.Normal() && Counted(env, tr, h, w, who) && Waits(env, Last(tr), n, addr)
    ensures Level(env, more, n + 1, h, Last(tr).auth, w, who)
  {
    var s := Last(tr);
    var t := Went(env, s, n, addr);
    NothingAsked(env, tr, Gone(n), Unasked(s), t, h, w, who);
    more := Then(tr, Gone(n), Unasked(s), t);
  }

  lemma GuessMade(env: Env, tr: Trace, n: nat, h: string, auth: A.State, w: seq<nat>, who: set<string>, addr: string,
                  v: Verdict) returns (more: Trace)
    requires env.opts.Normal() && Level(env, tr, n, h, auth, w, who)
    requires A.Step(env.opts, auth, Population.Guess(env.Host(addr)), v.answer, v.auth)
    requires v.answer.Refused? || v.answer.NowLocked?
    ensures Level(env, more, n + 1, h, v.auth, if env.Host(addr) == h then w + [0] else w, who + {env.Host(addr)})
  {
    var g := env.Host(addr);
    more := KnockMade(env, tr, n, h, w, who, addr);
    more := OfferMade(env, more, n, h, w, who, addr, v);
    more := GoneThen(env, more, n, h, if g == h then w + [0] else w, who + {g}, addr);
  }

  function Hosts(env: Env, addrs: set<string>): set<string> {
    set addr | addr in addrs :: env.Host(addr)
  }

  /** A run of nothing but wrong guesses, had through the hub. */
  lemma {:induction false} ThroughTheHub(env: Env, addrs: set<string>, atr: AH.Trace, h: string)
    returns (tr: Trace, n: nat)
    requires env.opts.Normal() && AH.Run(env.opts, atr) && Population.Guesses(atr)
    requires Population.OnlyFrom(atr, Hosts(env, addrs))
    ensures Level(env, tr, n, h, AH.Last(atr), AH.ComparedTimes(env.opts, atr, h), Population.Attempters(atr))
  {
    match atr
    case Start(auth) =>
      n := 0;
      tr := FromTheStart(env, auth, h);
    case Then(before, op, a, after) =>
      Population.GuessAdds(env.opts, atr, h);
      var rest, m := ThroughTheHub(env, addrs, before, h);
      var addr := HostedAt(env, addrs, AH.Host(op));
      tr := GuessMade(env, rest, m, h, AH.Last(before), AH.ComparedTimes(env.opts, before, h),
                      Population.Attempters(before), addr, Verdict(a, after));
      n := m + 1;
  }

  lemma FromTheStart(env: Env, auth: A.State, h: string) returns (tr: Trace)
    requires A.IsKey(auth.key) && auth.sessions == map[] && auth.byAddr == map[]
    ensures Level(env, tr, 0, h, auth, [], {})
  {
    var panel := Panel(false, false, "", "", map[], []);
    tr := Start(State(panel, Settings(false, "", false, {}), map[], {}, auth, multiset{}));
  }

  lemma HostedAt(env: Env, addrs: set<string>, g: string) returns (addr: string)
    requires g in Hosts(env, addrs)
    ensures addr in addrs && env.Host(addr) == g
  {
    addr :| addr in addrs && env.Host(addr) == g;
  }

  lemma HubNotHeldWhenCrowded(env: Env, addrs: set<string>, h: string) returns (tr: Trace)
    requires env.opts.Normal() && h in Hosts(env, addrs) && |Hosts(env, addrs)| > env.opts.maxTracked
    ensures Run(env, tr) && ClockForward(tr) && Askers(env, tr) <= Hosts(env, addrs) && !HeldThroughout(env, tr, h)
  {
    var atr := Population.NotHeldWhenCrowded(env.opts, h, Hosts(env, addrs));
    var run, n := ThroughTheHub(env, addrs, atr, h);
    tr := run;
    assert !Population.WindowHolds(env.opts, JudgedTimes(env, tr, h), 0);
  }

  /** So over the hub too: every run holds h to its allowance, in every window one lockout period
      long, exactly when the table has room for everybody who connects. */
  lemma HubLockoutHoldsExactly(env: Env, addrs: set<string>, h: string)
    requires env.opts.Normal() && h in Hosts(env, addrs)
    ensures (forall tr :: Run(env, tr) && ClockForward(tr) && Askers(env, tr) <= Hosts(env, addrs) ==>
               HeldThroughout(env, tr, h))
            <==> |Hosts(env, addrs)| <= env.opts.maxTracked
  {
    var hs := Hosts(env, addrs);
    if |hs| <= env.opts.maxTracked {
      forall tr | Run(env, tr) && ClockForward(tr) && Askers(env, tr) <= hs
        ensures HeldThroughout(env, tr, h)
      {
        HubHeldWhenRoom(env, tr, h, hs);
      }
    } else {
      var tr := HubNotHeldWhenCrowded(env, addrs, h);
    }
  }
}
