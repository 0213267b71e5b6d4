/** What the hub promises, over every run. */
module HubSafety {
  import opened Common
  import opened Handshake
  import opened HubState
  import opened HubHistory
  import A = Auth
  import P = Pending
  import S = Session

  // ---------------------------------------------------------------- the alarm

  /** Only an armed machine has an alarm sounding; the siren is on exactly while one is, and
      between two triggers it is always told to stop. */
  lemma AlarmAndSiren(env: Env, tr: Trace)
    requires Run(env, tr)
    ensures var p := Last(tr).panel;
      && (p.active ==> p.armed)
      && (p.active <==> Ringing(p.siren))
      && forall i, j :: 0 <= i < j < |p.siren| && p.siren[i] == p.siren[j] == Trigger ==>
           exists k :: i < k < j && p.siren[k] == Dismiss
  {
    AlwaysInv(env, tr);
    var siren := Last(tr).panel.siren;
    forall i, j | 0 <= i < j < |siren| && siren[i] == siren[j] == Trigger
      ensures exists k :: i < k < j && siren[k] == Dismiss
    {
      assert siren[i + 1] == Dismiss;
    }
  }

  /** Every registered phone, whenever it paired, was last told what is so: of this very
      alarm while one is sounding, and of none while none is. */
  lemma PhonesAgree(env: Env, tr: Trace, id: Id)
    requires Run(env, tr) && id in Last(tr).clients
    ensures id in Last(tr).conns && Believes(Last(tr).conns[id].told) == Sounding(Last(tr).panel)
  {
    AlwaysInv(env, tr);
    assert NewsFor(Last(tr), id);
  }

  /** An alert on an armed machine, from a sensor not held quiet and other than the screen
      locking, ends with an alarm every registered phone believes in. */
  lemma AlertIsHeard(env: Env, tr: Trace, sensor: string, message: string, now: nat, v: Verdict, after: State, id: Id)
    requires Run(env, tr) && Step(env, Last(tr), SensorAlert(sensor, message, now), v, after)
    requires var s := Last(tr);
      s.panel.armed && AutoArmed(s, sensor, message).None?
      && !(sensor in s.panel.suppressed && now < s.panel.suppressed[sensor])
    requires id in Last(tr).clients
    ensures after.panel.active && id in after.conns && Believes(after.conns[id].told) == Sounding(after.panel)
    ensures !Last(tr).panel.active ==> Sounding(after.panel) == Some((sensor, message))
  {
    PhonesAgree(env, Then(tr, SensorAlert(sensor, message, now), v, after), id);
  }

  // ---------------------------------------------------------------- sessions

  /** Every session there is belongs to one registered socket and to no other socket,
      registered or gone. */
  lemma OneSessionOneSocket(env: Env, tr: Trace, token: A.Token)
    requires Run(env, tr) && token in Last(tr).auth.sessions
    ensures exists id :: id in Last(tr).clients && id in Last(tr).conns && Last(tr).conns[id].token == token
                         && forall j :: j in Last(tr).conns && Last(tr).conns[j].token == token ==> j == id
  {
    AlwaysInv(env, tr);
  }

  /** After a heartbeat the sessions are exactly those of the registered phones, all live. */
  lemma HeartbeatSettles(env: Env, tr: Trace, now: nat, v: Verdict, after: State)
    requires Run(env, tr) && Step(env, Last(tr), Heartbeat(now), v, after)
    ensures after.auth.sessions.Keys == Tokens(after.conns, after.clients)
    ensures forall id :: id in after.clients ==>
              id in after.conns && A.IsLive(env.opts, after.auth, after.conns[id].token, now)
  {
    AlwaysInv(env, tr);
    StepKeeps(env, Last(tr), Heartbeat(now), v, after);
    forall id | id in after.clients
      ensures id in after.conns && A.IsLive(env.opts, after.auth, after.conns[id].token, now)
    {
      KeptIsLive(env, Last(tr), now, id);
    }
    TokensOfSessions(after);
  }

  /** A phone the heartbeat keeps had a live session, and still has it. */
  lemma KeptIsLive(env: Env, s: State, now: nat, id: Id)
    requires Owners(s) && id in Swept(env, s, now).clients
    ensures var t := Swept(env, s, now); id in t.conns && A.IsLive(env.opts, t.auth, t.conns[id].token, now)
  {
    var stale := Expired(env, s, now);
    assert id in Audience(s) && id !in stale;
    assert s.conns[id].token !in Tokens(s.conns, stale);
  }

  lemma TokensOfSessions(s: State)
    requires Owners(s)
    requires forall id :: id in s.clients ==> s.conns[id].token in s.auth.sessions
    ensures s.auth.sessions.Keys == Tokens(s.conns, s.clients)
  {
  }

  /** A pairing succeeds exactly when the app proves, for this socket's challenge, that it
      holds the key in force, the address is not locked out and a session is free. The
      session key can then always be derived, the slot goes back, and a session the socket
      had before is gone; otherwise nobody is registered and no session is added. */
  lemma PairingDecided(env: Env, tr: Trace, id: Id, m: Msg, now: nat, v: Verdict, after: State)
    requires Run(env, tr) && m.Auth? && Step(env, Last(tr), Message(id, m, now, true), v, after)
    ensures var s := Last(tr); var c := s.conns[id];
      (id in after.clients && m.minted in after.auth.sessions) <==>
        && m.proof != NoProof && m.encrypt == ENC_CHACHA
        && c.serverNonce != "" && ValidNonce(m.nonce)
        && ProofHolds(env.stretch(s.auth.key), CLIENT, c.serverNonce, m.nonce, ENC_CHACHA, m.proof)
        && !A.Locked(A.RecordFor(s.auth.byAddr, env.Host(c.addr), now), now)
        && |A.Swept(env.opts, s.auth.sessions, now)| < env.opts.maxSessions
    ensures m.minted in after.auth.sessions ==>
      var s := Last(tr); var c := s.conns[id]; var d := after.conns[id];
      && d.seal == Some(S.ToApp(env.stretch(s.auth.key), c.serverNonce, m.nonce))
      && d.token == m.minted && !d.pendingHeld
      && (c.token != "" ==> c.token !in after.auth.sessions)
    ensures m.minted !in after.auth.sessions ==>
      after.clients == Last(tr).clients && after.auth.sessions.Keys <= Last(tr).auth.sessions.Keys
  {
    AlwaysInv(env, tr);
    var s := Last(tr);
    if Judged(m) {
      GrantDecided(env, s, id, m, now, v);
    }
    PairingEffect(env, s, id, m, now, v);
  }

  /** What a pairing message leaves, granted or not. */
  lemma PairingEffect(env: Env, s: State, id: Id, m: Msg, now: nat, v: Verdict)
    requires Inv(env, s) && m.Auth? && Possible(env, s, Message(id, m, now, true), v)
    ensures var after := Authed(env, s, id, m, v); var c, d := s.conns[id], after.conns[id];
      if Judged(m) && v.answer.Granted? then
        && id in after.clients && m.minted in after.auth.sessions
        && d.seal == Some(S.ToApp(env.stretch(s.auth.key), c.serverNonce, m.nonce))
        && d.token == m.minted && !d.pendingHeld
        && (c.token != "" ==> c.token !in after.auth.sessions)
      else
        && m.minted !in after.auth.sessions
        && after.clients == s.clients && after.auth.sessions.Keys <= s.auth.sessions.Keys
  {
    if Judged(m) {
      GrantDecided(env, s, id, m, now, v);
      if v.answer.Granted? {
        GrantMeans(env, s, id, m, now, v);
      }
    }
  }

  /** The key manager grants exactly what the proof, the lockout and the session cap allow. */
  lemma GrantDecided(env: Env, s: State, id: Id, m: Msg, now: nat, v: Verdict)
    requires A.IsKey(s.auth.key) && env.opts.Normal() && id in s.conns && m.Auth?
    requires A.Step(env.opts, s.auth,
      A.Key(env.Host(s.conns[id].addr), AuthKey(env, s.auth.key, s.conns[id], m), m.minted, now), v.answer, v.auth)
    ensures v.answer.Granted? <==>
      && s.conns[id].serverNonce != "" && ValidNonce(m.nonce)
      && ProofHolds(env.stretch(s.auth.key), CLIENT, s.conns[id].serverNonce, m.nonce, m.encrypt, m.proof)
      && !A.Locked(A.RecordFor(s.auth.byAddr, env.Host(s.conns[id].addr), now), now)
      && |A.Swept(env.opts, s.auth.sessions, now)| < env.opts.maxSessions
    ensures v.answer.Granted? ==> m.minted in v.auth.sessions
    ensures !v.answer.Granted? ==> v.auth.sessions.Keys <= s.auth.sessions.Keys
  {
    NothingToStrip(s.auth.key);
    assert A.StripDashes(REFUSED_KEY) == "";
  }

  /** A connection that was never greeted, such as one over another transport, never pairs. */
  lemma NeverGreetedNeverPairs(env: Env, tr: Trace, id: Id)
    requires Run(env, tr) && id in Last(tr).conns && Last(tr).conns[id].serverNonce == ""
    ensures !Last(tr).conns[id].authenticated && id !in Last(tr).clients && Last(tr).conns[id].token == ""
  {
    AlwaysInv(env, tr);
  }

  /** A message from a socket that has not paired, and does not pair by it, changes nothing
      for anybody else: not the alarm, the settings, the phones or what they are told. */
  lemma StrangersChangeNothing(env: Env, s: State, id: Id, m: Msg, now: nat, allowed: bool, v: Verdict, after: State)
    requires Step(env, s, Message(id, m, now, allowed), v, after)
    requires !s.conns[id].authenticated && !(m.Auth? && v.answer.Granted?)
    ensures after.panel == s.panel && after.settings == s.settings && after.clients == s.clients && after.held == s.held
    ensures after.auth.sessions.Keys <= s.auth.sessions.Keys && after.auth.key == s.auth.key
    ensures after.conns.Keys == s.conns.Keys
    ensures forall j :: j in s.conns && j != id ==> after.conns[j] == s.conns[j]
  {
  }

  // ---------------------------------------------------------------- waiting sockets

  predicate Waiting(c: Conn) {
    c.open && !c.authenticated && c.serverNonce != ""
  }

  function WaitingAt(env: Env, conns: map<Id, Conn>, h: string): set<Id> {
    set id | id in conns && Waiting(conns[id]) && env.Host(conns[id].addr) == h
  }

  function AllWaiting(conns: map<Id, Conn>): set<Id> {
    set id | id in conns && Waiting(conns[id])
  }

  lemma HoldersWait(env: Env, conns: map<Id, Conn>, h: string)
    requires forall id :: id in conns ==> ConnOk(conns[id])
    ensures AllWaiting(conns) == Holders(conns) && WaitingAt(env, conns, h) == HoldersAt(env, conns, h)
  {
  }

  /** The slots taken are those of the greeted sockets that are open and have not paired:
      in all, and for each address, with both caps kept. */
  lemma SlotsAreWaitingSockets(env: Env, tr: Trace, h: string)
    requires Run(env, tr)
    ensures var s := Last(tr);
      && |s.held| == |AllWaiting(s.conns)| <= P.MAX_PENDING
      && s.held[h] == |WaitingAt(env, s.conns, h)| <= P.MAX_PER_ADDR
  {
    AlwaysInv(env, tr);
    var s := Last(tr);
    HoldersWait(env, s.conns, h);
    assert SlotsAt(env, s.conns, s.held, h);
  }

  // ---------------------------------------------------------------- the PIN

  predicate Guarded(s: State) {
    s.panel.armed && s.settings.PinRequired()
  }

  /** The operation brings a PIN that matches the stored hash. */
  predicate BringsRightPin(env: Env, s: State, op: Op) {
    Asks(env, s, op).Some? && Asks(env, s, op).value.Pin? && Asks(env, s, op).value.good
  }

  /** The screen coming on, with automatic arming in force. */
  predicate ScreenOn(s: State, op: Op) {
    op.SensorAlert? && op.sensor == SCREEN && s.settings.autoArm && Contains(op.message, "on")
  }

  lemma GuardAnswered(env: Env, s: State, id: Id, m: Msg, now: nat, v: Verdict)
    requires id in s.conns && !m.Auth? && !BringsPin(m) && Guarded(s)
    ensures var t := Answered(env, s, id, m, now, v); Guarded(t) && t.settings.pinHash == s.settings.pinHash
  {
  }

  lemma GuardPinAnswered(env: Env, s: State, id: Id, m: Msg, now: nat, v: Verdict)
    requires id in s.conns && BringsPin(m) && Guarded(s)
    requires AsksPin(s.settings, m).Some? ==> !v.answer.Accepted?
    ensures var t := Answered(env, s, id, m, now, v); Guarded(t) && t.settings.pinHash == s.settings.pinHash
  {
  }

  lemma GuardHandled(env: Env, s: State, op: Op, v: Verdict)
    requires op.Message? && Possible(env, s, op, v) && Guarded(s) && !BringsRightPin(env, s, op)
    ensures var t := Handled(env, s, op.id, op.msg, op.now, op.allowed, v);
      Guarded(t) && t.settings.pinHash == s.settings.pinHash
  {
    var t := Touched(env, s, op.id, op.msg, op.now);
    if StillLive(env, s, op.id, op.msg, op.now) && op.allowed && !op.msg.Auth? && t.conns[op.id].authenticated {
      if BringsPin(op.msg) {
        GuardPinAnswered(env, t, op.id, op.msg, op.now, v);
      } else {
        GuardAnswered(env, t, op.id, op.msg, op.now, v);
      }
    }
  }

  lemma GuardHolds(env: Env, s: State, op: Op, v: Verdict, after: State)
    requires Step(env, s, op, v, after) && Guarded(s)
    requires !BringsRightPin(env, s, op) && !ScreenOn(s, op)
    ensures Guarded(after) && after.settings.pinHash == s.settings.pinHash
  {
    if op.Message? {
      GuardHandled(env, s, op, v);
    }
  }

  /** A run going on from another with no right PIN given and no screen coming on since. */
  ghost predicate Unanswered(env: Env, start: Trace, tr: Trace) {
    tr == start ||
    match tr
    case Start(_) => false
    case Then(before, op, _, _) =>
      !BringsRightPin(env, Last(before), op) && !ScreenOn(Last(before), op) && Unanswered(env, start, before)
  }

  /** An armed machine that asks for a PIN stays armed and keeps asking for the same one,
      whatever phones and console do, until somebody gives it or the screen comes on. */
  lemma {:induction false} NoPinNoDisarm(env: Env, start: Trace, tr: Trace)
    requires Run(env, tr) && Guarded(Last(start)) && Unanswered(env, start, tr)
    ensures Guarded(Last(tr)) && Last(tr).settings.pinHash == Last(start).settings.pinHash
  {
    if tr != start {
      NoPinNoDisarm(env, start, tr.before);
      GuardHolds(env, Last(tr.before), tr.op, tr.verdict, tr.after);
    }
  }

  lemma AnsweredSensors(env: Env, s: State, id: Id, m: Msg, now: nat, v: Verdict)
    requires id in s.conns && !m.Auth? && !BringsPin(m) && s.panel.armed
    ensures var t := Answered(env, s, id, m, now, v);
      || s.settings.enabled == t.settings.enabled
      || ((m.PauseSensor? || m.DisableSensor?) && s.panel.sensor != ""
          && s.settings.enabled - {s.panel.sensor} == t.settings.enabled)
  {
  }

  lemma PinAnsweredSensors(env: Env, s: State, id: Id, m: Msg, now: nat, v: Verdict)
    requires id in s.conns && BringsPin(m) && s.panel.armed
    ensures s.settings.enabled <= Answered(env, s, id, m, now, v).settings.enabled
  {
    if m.SaveConfig? && !WouldChange(s.settings.enabled, m.want) {
      assert Wanted(s.settings.enabled, m.want) == s.settings.enabled;
    }
  }

  lemma HandledSensors(env: Env, s: State, op: Op, v: Verdict)
    requires op.Message? && Possible(env, s, op, v) && s.panel.armed
    ensures var t := Handled(env, s, op.id, op.msg, op.now, op.allowed, v);
      || s.settings.enabled <= t.settings.enabled
      || ((op.msg.PauseSensor? || op.msg.DisableSensor?) && s.panel.sensor != ""
          && s.settings.enabled - {s.panel.sensor} == t.settings.enabled)
  {
    var t := Touched(env, s, op.id, op.msg, op.now);
    if StillLive(env, s, op.id, op.msg, op.now) && op.allowed && !op.msg.Auth? && t.conns[op.id].authenticated {
      if BringsPin(op.msg) {
        PinAnsweredSensors(env, t, op.id, op.msg, op.now, v);
      } else {
        AnsweredSensors(env, t, op.id, op.msg, op.now, v);
      }
    }
  }

  /** While the machine is armed nothing switches a sensor off but a phone's answer to a
      sounding alarm, and that only the sensor that raised it. The alarm may be one that a
      phone had raised by a test: see TestThenDisable. */
  lemma SensorsHeldWhileArmed(env: Env, tr: Trace, op: Op, v: Verdict, after: State, sensor: string)
    requires Run(env, tr) && Step(env, Last(tr), op, v, after) && Last(tr).panel.armed
    requires sensor in Last(tr).settings.enabled && sensor !in after.settings.enabled
    ensures Last(tr).panel.active && Last(tr).panel.sensor == sensor
    ensures op.Message? && (op.msg.PauseSensor? || op.msg.DisableSensor?)
  {
    AlwaysInv(env, tr);
    if op.Message? {
      HandledSensors(env, Last(tr), op, v);
    }
  }

  /** A phone answering an alarm by pausing or disabling the sensor. */
  predicate AnswersOff(env: Env, s: State, op: Op) {
    && op.Message? && (op.msg.PauseSensor? || op.msg.DisableSensor?) && op.allowed
    && op.id in s.conns && s.conns[op.id].authenticated && StillLive(env, s, op.id, op.msg, op.now)
  }

  lemma AnsweredOff(env: Env, s: State, op: Op, v: Verdict)
    requires Possible(env, s, op, v) && AnswersOff(env, s, op)
    ensures Apply(env, s, op, v).settings.enabled
            == if s.panel.sensor == "" then s.settings.enabled else s.settings.enabled - {s.panel.sensor}
  {
  }

  lemma NotAnsweredOff(env: Env, s: State, op: Op, v: Verdict)
    requires op.Message? && Possible(env, s, op, v) && !AnswersOff(env, s, op) && s.panel.armed
    ensures s.settings.enabled <= Apply(env, s, op, v).settings.enabled
  {
    var t := Touched(env, s, op.id, op.msg, op.now);
    if StillLive(env, s, op.id, op.msg, op.now) && op.allowed && !op.msg.Auth? && t.conns[op.id].authenticated {
      if BringsPin(op.msg) {
        PinAnsweredSensors(env, t, op.id, op.msg, op.now, v);
      } else {
        AnsweredSensors(env, t, op.id, op.msg, op.now, v);
      }
    }
  }

  /** While the machine is armed, an operation leaves fewer sensors on exactly when it is a paired
      phone's answer to an alarm of a sensor that is on. */
  lemma EnabledShrinksExactly(env: Env, tr: Trace, op: Op, v: Verdict, after: State)
    requires Run(env, tr) && Step(env, Last(tr), op, v, after) && Last(tr).panel.armed
    ensures var s := Last(tr);
      !(s.settings.enabled <= after.settings.enabled) <==>
        AnswersOff(env, s, op) && s.panel.active && s.panel.sensor != "" && s.panel.sensor in s.settings.enabled
  {
    AlwaysInv(env, tr);
    if AnswersOff(env, Last(tr), op) {
      AnsweredOff(env, Last(tr), op, v);
    } else if op.Message? {
      NotAnsweredOff(env, Last(tr), op, v);
    }
  }

  /** A sensor a phone can ask to have tested. */
  predicate Testable(env: Env, sensor: string) {
    sensor != "" && sensor in env.sensors && env.sensors[sensor] != ""
  }

  /** A run going on from another by phones' messages alone, none with the right PIN. */
  ghost predicate PhonesOnly(env: Env, start: Trace, tr: Trace) {
    tr == start ||
    match tr
    case Start(_) => false
    case Then(before, op, _, _) =>
      op.Message? && !BringsRightPin(env, Last(before), op) && PhonesOnly(env, start, before)
  }

  lemma AnsweredPanel(env: Env, s: State, id: Id, m: Msg, now: nat, v: Verdict)
    requires id in s.conns && !m.Auth? && !BringsPin(m)
    ensures var p := Answered(env, s, id, m, now, v).panel;
      p.active ==> Testable(env, p.sensor) || (s.panel.active && p.sensor == s.panel.sensor)
  {
  }

  lemma PinAnsweredPanel(env: Env, s: State, id: Id, m: Msg, now: nat, v: Verdict)
    requires id in s.conns && BringsPin(m)
    ensures var p := Answered(env, s, id, m, now, v).panel;
      p.active ==> s.panel.active && p.sensor == s.panel.sensor
  {
  }

  /** A message leaves an alarm as it was, or raises one of a sensor that can be tested. */
  lemma MessagePanel(env: Env, s: State, op: Op, v: Verdict)
    requires op.Message? && Possible(env, s, op, v)
    ensures var p := Apply(env, s, op, v).panel;
      p.active ==> Testable(env, p.sensor) || (s.panel.active && p.sensor == s.panel.sensor)
  {
    var t := Touched(env, s, op.id, op.msg, op.now);
    if StillLive(env, s, op.id, op.msg, op.now) && op.allowed && !op.msg.Auth? && t.conns[op.id].authenticated {
      if BringsPin(op.msg) {
        PinAnsweredPanel(env, t, op.id, op.msg, op.now, v);
      } else {
        AnsweredPanel(env, t, op.id, op.msg, op.now, v);
      }
    }
  }

  /** What phones alone can bring about from a silent guarded machine. */
  ghost predicate OnlyTestableLost(env: Env, was: set<string>, s: State) {
    && Guarded(s) && (s.panel.active ==> Testable(env, s.panel.sensor))
    && forall x :: x in was && x !in s.settings.enabled ==> Testable(env, x)
  }

  lemma {:induction false} PhonesLoseTestable(env: Env, start: Trace, tr: Trace)
    requires Run(env, tr) && PhonesOnly(env, start, tr)
    requires Guarded(Last(start)) && !Last(start).panel.active
    ensures OnlyTestableLost(env, Last(start).settings.enabled, Last(tr))
  {
    if tr != start {
      PhonesLoseTestable(env, start, tr.before);
      PhoneStep(env, tr.before, tr.op, tr.verdict, tr.after, Last(start).settings.enabled);
    }
  }

  lemma PhoneStep(env: Env, tr: Trace, op: Op, v: Verdict, after: State, was: set<string>)
    requires Run(env, tr) && Step(env, Last(tr), op, v, after) && op.Message?
    requires !BringsRightPin(env, Last(tr), op) && OnlyTestableLost(env, was, Last(tr))
    ensures OnlyTestableLost(env, was, after)
  {
    GuardHolds(env, Last(tr), op, v, after);
    MessagePanel(env, Last(tr), op, v);
    forall x | x in was && x !in after.settings.enabled
      ensures Testable(env, x)
    {
      if x in Last(tr).settings.enabled {
        SensorsHeldWhileArmed(env, tr, op, v, after, x);
      }
    }
  }

  /** A registered phone whose session is live at now. */
  predicate LivePhone(env: Env, s: State, id: Id, now: nat) {
    && id in s.clients && id in s.conns && s.conns[id].open && s.conns[id].authenticated
    && A.IsLive(env.opts, s.auth, s.conns[id].token, now)
  }

  lemma TouchedLive(env: Env, s: State, id: Id, m: Msg, now: nat)
    requires LivePhone(env, s, id, now)
    ensures LivePhone(env, Touched(env, s, id, m, now), id, now)
    ensures var t := Touched(env, s, id, m, now);
      t.panel == s.panel && t.settings == s.settings && t.conns == s.conns
  {
  }

  lemma PushedLive(env: Env, s: State, n: Notice, id: Id, now: nat)
    requires LivePhone(env, s, id, now)
    ensures LivePhone(env, Pushed(s, n), id, now)
  {
  }

  /** A phone has a sensor tested: on a silent armed machine that is an alarm of it. */
  lemma TestRaises(env: Env, s: State, id: Id, now: nat, x: string)
    requires env.opts.Normal() && LivePhone(env, s, id, now) && Testable(env, x)
    requires s.panel.armed && !s.panel.active
    ensures var op, v := Message(id, TriggerSensor(x), now, true), Unasked(s);
      && Possible(env, s, op, v) && !BringsRightPin(env, s, op)
      && var t := Apply(env, s, op, v);
         t.settings == s.settings && t.panel.armed && t.panel.active && t.panel.sensor == x
         && LivePhone(env, t, id, now)
  {
    var m := TriggerSensor(x);
    var t := Touched(env, s, id, m, now);
    TouchedLive(env, s, id, m, now);
    var u := Pushed(t, Alert(x));
    PushedLive(env, t, Alert(x), id, now);
    var message := env.sensors[x] + " triggered (manual test)";
    PushedLive(env, Rang(Claimed(u, x, message), Trigger), AlarmActive(x, message), id, now);
  }

  /** And answers it by disabling the sensor. */
  lemma DisableAnswers(env: Env, s: State, id: Id, now: nat)
    requires env.opts.Normal() && LivePhone(env, s, id, now) && s.panel.armed && s.panel.sensor != ""
    ensures var op, v := Message(id, DisableSensor, now, true), Unasked(s);
      && Possible(env, s, op, v) && !BringsRightPin(env, s, op)
      && var t := Apply(env, s, op, v);
         && t.settings == s.settings.(enabled := s.settings.enabled - {s.panel.sensor})
         && t.panel.armed && !t.panel.active
  {
    TouchedLive(env, s, id, DisableSensor, now);
  }

  /** Two messages and no PIN: the sensor is off, and the machine as armed, silent and guarded
      as it was. */
  lemma TestThenDisable(env: Env, start: Trace, id: Id, now: nat, x: string) returns (tr: Trace)
    requires Run(env, start) && env.opts.Normal() && Guarded(Last(start)) && !Last(start).panel.active
    requires LivePhone(env, Last(start), id, now) && Testable(env, x)
    ensures Run(env, tr) && PhonesOnly(env, start, tr)
    ensures Guarded(Last(tr)) && !Last(tr).panel.active && x !in Last(tr).settings.enabled
  {
    var s := Last(start);
    var trigger, disable := Message(id, TriggerSensor(x), now, true), Message(id, DisableSensor, now, true);
    TestRaises(env, s, id, now, x);
    var t := Apply(env, s, trigger, Unasked(s));
    DisableAnswers(env, t, id, now);
    var u := Apply(env, t, disable, Unasked(t));
    var tested := Then(start, trigger, Unasked(s), t);
    assert Run(env, tested) && PhonesOnly(env, start, tested);
    tr := Then(tested, disable, Unasked(t), u);
  }

  /** Whether phones alone, without the PIN, can have a sensor off on a machine that is armed,
      silent and asks for one: exactly when it is a sensor that can be tested. */
  lemma PhonesSwitchOffExactlyTestable(env: Env, start: Trace, id: Id, now: nat, x: string)
    requires Run(env, start) && env.opts.Normal() && Guarded(Last(start)) && !Last(start).panel.active
    requires LivePhone(env, Last(start), id, now) && x in Last(start).settings.enabled
    ensures (exists tr :: Run(env, tr) && PhonesOnly(env, start, tr) && x !in Last(tr).settings.enabled)
            <==> Testable(env, x)
  {
    if Testable(env, x) {
      var tr := TestThenDisable(env, start, id, now, x);
    }
    forall tr | Run(env, tr) && PhonesOnly(env, start, tr) && x !in Last(tr).settings.enabled
      ensures Testable(env, x)
    {
      PhonesLoseTestable(env, start, tr);
    }
  }

  // ---------------------------------------------------------------- the input sensor's grace

  function Time(op: Op): Option<nat> {
    match op
    case Message(_, _, now, _) => Some(now)
    case Heartbeat(now) => Some(now)
    case SensorAlert(_, _, now) => Some(now)
    case ConsoleDisarm(_, now) => Some(now)
    case _ => None
  }

  function Clock(tr: Trace): nat {
    match tr
    case Start(_) => 0
    case Then(before, op, _, _) => if Time(op).Some? then Time(op).value else Clock(before)
  }

  predicate ClockForward(tr: Trace) {
    match tr
    case Start(_) => true
    case Then(before, op, _, _) => ClockForward(before) && Clock(before) <= Clock(tr)
  }

  /** A phone dismissing an alarm the input sensor raised. */
  predicate DismissesInput(env: Env, s: State, op: Op) {
    && op.Message? && op.msg.DismissAlarm? && op.allowed
    && op.id in s.conns && s.conns[op.id].authenticated && StillLive(env, s, op.id, op.msg, op.now)
    && s.panel.sensor == INPUT
  }

  /** When that last happened. */
  function LastDismissal(env: Env, tr: Trace): Option<nat> {
    match tr
    case Start(_) => None
    case Then(before, op, _, _) =>
      if DismissesInput(env, Last(before), op) then Some(op.now) else LastDismissal(env, before)
  }

  ghost predicate StillQuiet(p: Panel, dismissed: nat, clock: nat) {
    (INPUT in p.suppressed && p.suppressed[INPUT] == dismissed + INPUT_GRACE) || dismissed + INPUT_GRACE <= clock
  }

  lemma AnsweredSuppressed(env: Env, s: State, id: Id, m: Msg, now: nat, v: Verdict)
    requires id in s.conns && !m.Auth? && !BringsPin(m) && !(m.DismissAlarm? && s.panel.sensor == INPUT)
    ensures Answered(env, s, id, m, now, v).panel.suppressed == s.panel.suppressed
  {
  }

  lemma PinAnsweredSuppressed(env: Env, s: State, id: Id, m: Msg, now: nat, v: Verdict)
    requires id in s.conns && BringsPin(m)
    ensures Answered(env, s, id, m, now, v).panel.suppressed == s.panel.suppressed
  {
  }

  lemma SuppressedSame(env: Env, s: State, op: Op, v: Verdict, after: State)
    requires Step(env, s, op, v, after) && !DismissesInput(env, s, op) && !op.SensorAlert?
    ensures after.panel.suppressed == s.panel.suppressed
  {
    if op.Message? {
      var t := Touched(env, s, op.id, op.msg, op.now);
      if StillLive(env, s, op.id, op.msg, op.now) && op.allowed && !op.msg.Auth? && t.conns[op.id].authenticated {
        if BringsPin(op.msg) {
          PinAnsweredSuppressed(env, t, op.id, op.msg, op.now, v);
        } else {
          AnsweredSuppressed(env, t, op.id, op.msg, op.now, v);
        }
      }
    }
  }

  lemma AlertQuiet(s: State, sensor: string, message: string, now: nat, dismissed: nat, clock: nat)
    requires StillQuiet(s.panel, dismissed, clock) && clock <= now
    ensures StillQuiet(Dispatched(s, sensor, message, now).panel, dismissed, now)
  {
  }

  lemma {:induction false} QuietSince(env: Env, tr: Trace)
    requires Run(env, tr) && ClockForward(tr) && LastDismissal(env, tr).Some?
    ensures StillQuiet(Last(tr).panel, LastDismissal(env, tr).value, Clock(tr))
  {
    match tr
    case Start(_) =>
    case Then(before, op, v, after) =>
      var s := Last(before);
      if !DismissesInput(env, s, op) {
        QuietSince(env, before);
        if op.SensorAlert? {
          AlertQuiet(s, op.sensor, op.message, op.now, LastDismissal(env, before).value, Clock(before));
        } else {
          SuppressedSame(env, s, op, v, after);
        }
      }
  }

  /** Once a phone has dismissed an alarm the input sensor raised, no alert of that sensor
      raises another for five seconds. */
  lemma InputKeptQuiet(env: Env, tr: Trace)
    requires Run(env, tr) && ClockForward(tr) && tr.Then? && tr.op.SensorAlert? && tr.op.sensor == INPUT
    requires !Last(tr.before).panel.active && tr.after.panel.active
    requires LastDismissal(env, tr.before).Some?
    ensures LastDismissal(env, tr.before).value + INPUT_GRACE <= tr.op.now
  {
    QuietSince(env, tr.before);
  }

  // ---------------------------------------------------------------- what raises an alarm

  predicate Sounds(s: State, x: string) {
    s.panel.active && s.panel.sensor == x
  }

  /** An alert of x on an armed machine that is neither held quiet nor taken for the screen. */
  predicate AlertsOf(s: State, op: Op, x: string) {
    && op.SensorAlert? && op.sensor == x && AutoArmed(s, x, op.message).None?
    && !(x in s.panel.suppressed && op.now < s.panel.suppressed[x])
  }

  /** A test of x, by the console or by a paired phone whose session is live. */
  predicate TestsOf(env: Env, s: State, op: Op, x: string) {
    match op
    case ConsoleTest(sensor) => sensor == x && x in env.sensors && env.sensors[x] != ""
    case Message(id, m, now, allowed) =>
      && m == TriggerSensor(x) && Testable(env, x) && allowed
      && id in s.conns && s.conns[id].authenticated && StillLive(env, s, id, m, now)
    case _ => false
  }

  lemma AnsweredAlarm(env: Env, s: State, id: Id, m: Msg, now: nat, v: Verdict, x: string)
    requires id in s.conns && !m.Auth? && !BringsPin(m) && !s.panel.active
    ensures Sounds(Answered(env, s, id, m, now, v), x) <==> s.panel.armed && m == TriggerSensor(x) && Testable(env, x)
  {
  }

  lemma MessageAlarm(env: Env, s: State, op: Op, v: Verdict, x: string)
    requires op.Message? && Possible(env, s, op, v) && !s.panel.active
    ensures Sounds(Apply(env, s, op, v), x) <==> s.panel.armed && TestsOf(env, s, op, x)
  {
    var t := Touched(env, s, op.id, op.msg, op.now);
    if StillLive(env, s, op.id, op.msg, op.now) && op.allowed && !op.msg.Auth? && t.conns[op.id].authenticated {
      if BringsPin(op.msg) {
        PinAnsweredPanel(env, t, op.id, op.msg, op.now, v);
      } else {
        AnsweredAlarm(env, t, op.id, op.msg, op.now, v, x);
      }
    }
  }

  lemma AlertAlarm(s: State, sensor: string, message: string, now: nat, x: string)
    requires !s.panel.active
    ensures Sounds(Dispatched(s, sensor, message, now), x)
            <==> s.panel.armed && AlertsOf(s, SensorAlert(sensor, message, now), x)
  {
  }

  /** A silent machine goes into an alarm of x exactly when it is armed and x is tested, or
      alerts without being held quiet. */
  lemma AlarmRaisedExactly(env: Env, s: State, op: Op, v: Verdict, after: State, x: string)
    requires Step(env, s, op, v, after) && !s.panel.active
    ensures Sounds(after, x) <==> s.panel.armed && (TestsOf(env, s, op, x) || AlertsOf(s, op, x))
  {
    if op.Message? {
      MessageAlarm(env, s, op, v, x);
    } else if op.SensorAlert? {
      AlertAlarm(s, op.sensor, op.message, op.now, x);
    }
  }

  /** So for five seconds after a phone has dismissed an alarm the input sensor raised, a silent
      machine goes into another alarm of that sensor exactly when it is armed and somebody
      tests the sensor. */
  lemma InputOnlyByTest(env: Env, tr: Trace, op: Op, v: Verdict, after: State)
    requires Run(env, tr) && Step(env, Last(tr), op, v, after) && ClockForward(Then(tr, op, v, after))
    requires !Last(tr).panel.active && LastDismissal(env, tr).Some?
    requires Clock(Then(tr, op, v, after)) < LastDismissal(env, tr).value + INPUT_GRACE
    ensures Sounds(after, INPUT) <==> Last(tr).panel.armed && TestsOf(env, Last(tr), op, INPUT)
  {
    QuietSince(env, tr);
    AlarmRaisedExactly(env, Last(tr), op, v, after, INPUT);
  }
}
