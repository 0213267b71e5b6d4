/** Exactly which operations change what at the hub: armed, the alarm, the sensors watching, the
    settings, who is registered: internal/ws/hub.go. */
module HubChanges {
  import opened Common
  import opened Handshake
  import opened HubState
  import opened HubHistory
  import opened HubSafety
  import A = Auth
  import P = Pending
  import Population

  /** A message let through from a paired phone whose session is live. */
  predicate Heard(env: Env, s: State, op: Op) {
    && op.Message? && op.allowed && !op.msg.Auth? && op.id in s.conns && s.conns[op.id].authenticated
    && A.IsLive(env.opts, s.auth, s.conns[op.id].token, op.now)
  }

  /** The PIN in force, from an address that is not locked out. */
  predicate RightPin(env: Env, s: State, addr: string, pin: string, now: nat) {
    env.pinHolds(pin, s.settings.pinHash) && !A.Locked(A.RecordFor(s.auth.byAddr, env.Host(addr), now), now)
  }

  /** No PIN is asked for, or the message brings the right one. */
  predicate PinGiven(env: Env, s: State, op: Op, pin: string)
    requires op.Message? && op.id in s.conns
  {
    s.settings.PinRequired() ==> RightPin(env, s, s.conns[op.id].addr, pin, op.now)
  }

  lemma HandledHeard(env: Env, s: State, op: Op, v: Verdict)
    requires op.Message? && Possible(env, s, op, v) && Heard(env, s, op) && !op.msg.Ping?
    ensures Apply(env, s, op, v)
            == Answered(env, Touched(env, s, op.id, op.msg, op.now), op.id, op.msg, op.now, v)
  {
  }

  lemma HandledUnheard(env: Env, s: State, op: Op, v: Verdict)
    requires op.Message? && Possible(env, s, op, v) && (!Heard(env, s, op) || op.msg.Ping?)
    ensures var t := Apply(env, s, op, v); t.panel == s.panel && t.settings == s.settings
  {
  }

  /** The PIN's verdict, when a message asks for one. */
  lemma PinVerdict(env: Env, s: State, op: Op, v: Verdict, pin: string)
    requires op.Message? && Possible(env, s, op, v) && Heard(env, s, op) && AsksPin(s.settings, op.msg) == Some(pin)
    ensures v.answer.Accepted? <==> RightPin(env, s, s.conns[op.id].addr, pin, op.now)
  {
    assert Asks(env, s, op) ==
           Some(A.Pin(env.Host(s.conns[op.id].addr), env.pinHolds(pin, s.settings.pinHash), op.now));
  }

  // ---------------------------------------------------------------- armed and disarmed

  /** A phone or the console arming the machine, its being restored, or the screen going off with
      auto-arming in force and a phone there. */
  predicate Arms(env: Env, s: State, op: Op) {
    || op.ConsoleArm? || op.RestoreArmed?
    || (Heard(env, s, op) && op.msg.Arm?)
    || (op.SensorAlert? && op.sensor == SCREEN && s.settings.autoArm && s.clients != {}
        && Contains(op.message, "off"))
  }

  /** A phone or the console disarming it, with the PIN if there is one, or the screen coming on. */
  predicate Disarms(env: Env, s: State, op: Op) {
    || (Heard(env, s, op) && op.msg.Disarm? && !s.settings.PinRequired())
    || (Heard(env, s, op) && op.msg.DisarmPin? && PinGiven(env, s, op, op.msg.pin))
    || (op.ConsoleDisarm? && (s.settings.PinRequired() ==> RightPin(env, s, CONSOLE, op.pin, op.now)))
    || (op.SensorAlert? && op.sensor == SCREEN && s.settings.autoArm && s.clients != {}
        && Contains(op.message, "on"))
  }

  lemma AnsweredArmed(env: Env, s: State, id: Id, m: Msg, now: nat, v: Verdict)
    requires id in s.conns && !m.Auth? && !BringsPin(m)
    ensures Answered(env, s, id, m, now, v).panel.armed ==
      if m.Arm? then true else if m.Disarm? && !s.settings.PinRequired() then false else s.panel.armed
  {
  }

  lemma PinAnsweredArmed(env: Env, s: State, id: Id, m: Msg, now: nat, v: Verdict)
    requires id in s.conns && BringsPin(m)
    ensures Answered(env, s, id, m, now, v).panel.armed ==
      (s.panel.armed && !(m.DisarmPin? && (s.settings.PinRequired() ==> v.answer.Accepted?)))
  {
  }

  lemma MessageArmed(env: Env, s: State, op: Op, v: Verdict)
    requires op.Message? && Possible(env, s, op, v)
    ensures Apply(env, s, op, v).panel.armed == if s.panel.armed then !Disarms(env, s, op) else Arms(env, s, op)
  {
    if Heard(env, s, op) && !op.msg.Ping? {
      var t := Touched(env, s, op.id, op.msg, op.now);
      HandledHeard(env, s, op, v);
      if BringsPin(op.msg) {
        PinAnsweredArmed(env, t, op.id, op.msg, op.now, v);
        if op.msg.DisarmPin? && s.settings.PinRequired() {
          PinVerdict(env, s, op, v, op.msg.pin);
        }
      } else {
        AnsweredArmed(env, t, op.id, op.msg, op.now, v);
      }
    } else {
      HandledUnheard(env, s, op, v);
    }
  }

  lemma AlertArmed(env: Env, s: State, op: Op)
    requires op.SensorAlert?
    ensures Dispatched(s, op.sensor, op.message, op.now).panel.armed
            == if s.panel.armed then !Disarms(env, s, op) else Arms(env, s, op)
  {
  }

  /** The console's PIN. */
  lemma ConsoleVerdict(env: Env, s: State, op: Op, v: Verdict)
    requires op.ConsoleDisarm? && Possible(env, s, op, v) && s.settings.PinRequired()
    ensures v.answer.Accepted? <==> RightPin(env, s, CONSOLE, op.pin, op.now)
  {
    assert Asks(env, s, op) == Some(A.Pin(env.Host(CONSOLE), env.pinHolds(op.pin, s.settings.pinHash), op.now));
  }

  lemma OtherArmed(env: Env, s: State, op: Op, v: Verdict)
    requires !op.Message? && !op.SensorAlert? && Possible(env, s, op, v)
    ensures Apply(env, s, op, v).panel.armed == if s.panel.armed then !Disarms(env, s, op) else Arms(env, s, op)
  {
    if op.ConsoleDisarm? && s.settings.PinRequired() {
      ConsoleVerdict(env, s, op, v);
    }
  }

  /** A disarmed machine is armed, and an armed one disarmed, by exactly these. */
  lemma ArmedExactly(env: Env, s: State, op: Op, v: Verdict, after: State)
    requires Step(env, s, op, v, after)
    ensures !s.panel.armed ==> (after.panel.armed <==> Arms(env, s, op))
    ensures s.panel.armed ==> (!after.panel.armed <==> Disarms(env, s, op))
  {
    if op.Message? {
      MessageArmed(env, s, op, v);
    } else if op.SensorAlert? {
      AlertArmed(env, s, op);
    } else {
      OtherArmed(env, s, op, v);
    }
  }

  // ---------------------------------------------------------------- the alarm ending

  /** A phone answering the alarm, or the console stopping it. */
  predicate Answers(env: Env, s: State, op: Op) {
    op.ConsoleStop? || (Heard(env, s, op) && (op.msg.DismissAlarm? || op.msg.PauseSensor? || op.msg.DisableSensor?))
  }

  lemma AnsweredActive(env: Env, s: State, id: Id, m: Msg, now: nat, v: Verdict)
    requires id in s.conns && !m.Auth? && !BringsPin(m) && s.panel.active
    ensures var t := Answered(env, s, id, m, now, v).panel;
      if m.DismissAlarm? || m.PauseSensor? || m.DisableSensor? || (m.Disarm? && !s.settings.PinRequired())
      then !t.active else t.active && t.sensor == s.panel.sensor && t.message == s.panel.message
  {
  }

  lemma PinAnsweredActive(env: Env, s: State, id: Id, m: Msg, now: nat, v: Verdict)
    requires id in s.conns && BringsPin(m) && s.panel.active
    ensures var t := Answered(env, s, id, m, now, v).panel;
      if m.DisarmPin? && (s.settings.PinRequired() ==> v.answer.Accepted?)
      then !t.active else t.active && t.sensor == s.panel.sensor && t.message == s.panel.message
  {
  }

  lemma MessageEnds(env: Env, s: State, op: Op, v: Verdict)
    requires op.Message? && Possible(env, s, op, v) && s.panel.active && s.panel.armed
    ensures var t := Apply(env, s, op, v).panel;
      if Answers(env, s, op) || Disarms(env, s, op) then !t.active
      else t.active && t.sensor == s.panel.sensor && t.message == s.panel.message
  {
    if Heard(env, s, op) && !op.msg.Ping? {
      var t := Touched(env, s, op.id, op.msg, op.now);
      HandledHeard(env, s, op, v);
      if BringsPin(op.msg) {
        PinAnsweredActive(env, t, op.id, op.msg, op.now, v);
        if op.msg.DisarmPin? && s.settings.PinRequired() {
          PinVerdict(env, s, op, v, op.msg.pin);
        }
      } else {
        AnsweredActive(env, t, op.id, op.msg, op.now, v);
      }
    } else {
      HandledUnheard(env, s, op, v);
    }
  }

  lemma AlertEnds(env: Env, s: State, op: Op)
    requires op.SensorAlert? && s.panel.active && s.panel.armed
    ensures var t := Dispatched(s, op.sensor, op.message, op.now).panel;
      if Disarms(env, s, op) then !t.active
      else t.active && t.sensor == s.panel.sensor && t.message == s.panel.message
  {
  }

  lemma OtherEnds(env: Env, s: State, op: Op, v: Verdict)
    requires !op.Message? && !op.SensorAlert? && Possible(env, s, op, v) && s.panel.active && s.panel.armed
    ensures var t := Apply(env, s, op, v).panel;
      if Answers(env, s, op) || Disarms(env, s, op) then !t.active
      else t.active && t.sensor == s.panel.sensor && t.message == s.panel.message
  {
  }

  /** An alarm goes on as it is, whatever else alerts, until somebody answers it, stops it or
      disarms the machine. */
  lemma AlarmEndsExactly(env: Env, tr: Trace, op: Op, v: Verdict, after: State)
    requires Run(env, tr) && Step(env, Last(tr), op, v, after) && Last(tr).panel.active
    ensures !after.panel.active <==> Answers(env, Last(tr), op) || Disarms(env, Last(tr), op)
    ensures after.panel.active ==> Sounding(after.panel) == Sounding(Last(tr).panel)
  {
    AlwaysInv(env, tr);
    if op.Message? {
      MessageEnds(env, Last(tr), op, v);
    } else if op.SensorAlert? {
      AlertEnds(env, Last(tr), op);
    } else {
      OtherEnds(env, Last(tr), op, v);
    }
  }

  lemma TestTold(env: Env, s: State, x: string, id: Id)
    requires Testable(env, x) && id in Audience(s)
    ensures var was, now := s.conns[id].told, Tested(env, s, x).conns[id].told;
      |now| > |was| && now[..|was|] == was && now[|was|] == Alert(x)
  {
  }

  /** A test of a sensor is an alert to every registered phone, armed or not. */
  lemma TestIsHeard(env: Env, tr: Trace, op: Op, v: Verdict, after: State, x: string, id: Id)
    requires Run(env, tr) && Step(env, Last(tr), op, v, after) && Testable(env, x) && TestsOf(env, Last(tr), op, x)
    requires id in Last(tr).clients
    ensures id in Last(tr).conns && id in after.conns
    ensures var was, now := Last(tr).conns[id].told, after.conns[id].told;
      |now| > |was| && now[..|was|] == was && now[|was|] == Alert(x)
  {
    AlwaysInv(env, tr);
    if op.Message? {
      HandledHeard(env, Last(tr), op, v);
      TestTold(env, Touched(env, Last(tr), op.id, op.msg, op.now), x, id);
    } else {
      TestTold(env, Last(tr), x, id);
    }
  }

  // ---------------------------------------------------------------- sensors and settings

  /** A phone saving settings, with the PIN where changing it asks for one. */
  predicate Saves(env: Env, s: State, op: Op) {
    && Heard(env, s, op) && op.msg.SaveConfig?
    && (op.msg.pinEnabled != s.settings.pinEnabled || op.msg.newHash.Some? ==> PinGiven(env, s, op, op.msg.pin))
  }

  predicate Resets(env: Env, s: State, op: Op) {
    Heard(env, s, op) && op.msg.ResetConfig? && PinGiven(env, s, op, op.msg.pin)
  }

  /** What a phone asks of a sensor, in a message that asks it of any. */
  function Asked(op: Op, x: string): Option<bool> {
    if op.Message? && op.msg.Configure? && x in op.msg.want then Some(op.msg.want[x])
    else if op.Message? && op.msg.SaveConfig? && x in op.msg.want then Some(op.msg.want[x])
    else None
  }

  lemma AnsweredWatching(env: Env, s: State, id: Id, m: Msg, now: nat, v: Verdict, x: string)
    requires id in s.conns && !m.Auth? && !BringsPin(m) && !s.panel.armed && s.panel.sensor == ""
    ensures x in Answered(env, s, id, m, now, v).settings.enabled <==>
      if m.Configure? && x in m.want then m.want[x] else x in s.settings.enabled
  {
  }

  lemma PinAnsweredWatching(env: Env, s: State, id: Id, m: Msg, now: nat, v: Verdict, x: string)
    requires id in s.conns && BringsPin(m) && !s.panel.armed
    ensures x in Answered(env, s, id, m, now, v).settings.enabled <==>
      if m.SaveConfig? && (AsksPin(s.settings, m).Some? ==> v.answer.Accepted?) && x in m.want then m.want[x]
      else if m.ResetConfig? && (AsksPin(s.settings, m).Some? ==> v.answer.Accepted?)
      then x in s.settings.enabled || x in env.sensors
      else x in s.settings.enabled
  {
  }

  lemma MessageWatching(env: Env, s: State, op: Op, v: Verdict, x: string)
    requires op.Message? && Possible(env, s, op, v) && !s.panel.armed && s.panel.sensor == ""
    ensures x in Apply(env, s, op, v).settings.enabled <==>
      if ((Heard(env, s, op) && op.msg.Configure?) || Saves(env, s, op)) && Asked(op, x).Some? then Asked(op, x).value
      else if Resets(env, s, op) then x in s.settings.enabled || x in env.sensors
      else x in s.settings.enabled
  {
    if Heard(env, s, op) && !op.msg.Ping? {
      var t := Touched(env, s, op.id, op.msg, op.now);
      HandledHeard(env, s, op, v);
      if BringsPin(op.msg) {
        PinAnsweredWatching(env, t, op.id, op.msg, op.now, v, x);
        if AsksPin(s.settings, op.msg).Some? {
          PinVerdict(env, s, op, v, AsksPin(s.settings, op.msg).value);
        }
      } else {
        AnsweredWatching(env, t, op.id, op.msg, op.now, v, x);
      }
    } else {
      HandledUnheard(env, s, op, v);
    }
  }

  /** On a disarmed machine a sensor is watched after an operation exactly as a phone's message
      asks, if it asks anything of it, or if the settings were reset, or its pause ran out, or it
      was being watched. */
  lemma WatchedExactly(env: Env, tr: Trace, op: Op, v: Verdict, after: State, x: string)
    requires Run(env, tr) && Step(env, Last(tr), op, v, after) && !Last(tr).panel.armed
    ensures var s := Last(tr);
      x in after.settings.enabled <==>
        if ((Heard(env, s, op) && op.msg.Configure?) || Saves(env, s, op)) && Asked(op, x).Some?
        then Asked(op, x).value
        else x in s.settings.enabled || (Resets(env, s, op) && x in env.sensors) || op == Unpause(x)
  {
    AlwaysInv(env, tr);
    if op.Message? {
      MessageWatching(env, Last(tr), op, v, x);
    }
  }

  lemma PinAnsweredSettings(env: Env, s: State, id: Id, m: Msg, now: nat, v: Verdict)
    requires id in s.conns && BringsPin(m)
    ensures var t := Answered(env, s, id, m, now, v).settings;
      (t.pinEnabled, t.pinHash, t.autoArm) ==
      if m.SaveConfig? && (AsksPin(s.settings, m).Some? ==> v.answer.Accepted?)
      then (m.pinEnabled, if m.newHash.Some? then m.newHash.value else s.settings.pinHash, m.autoArm)
      else if m.ResetConfig? && (AsksPin(s.settings, m).Some? ==> v.answer.Accepted?) then (false, "", false)
      else (s.settings.pinEnabled, s.settings.pinHash, s.settings.autoArm)
  {
  }

  lemma AnsweredSettings(env: Env, s: State, id: Id, m: Msg, now: nat, v: Verdict)
    requires id in s.conns && !m.Auth? && !BringsPin(m)
    ensures var t := Answered(env, s, id, m, now, v).settings;
      (t.pinEnabled, t.pinHash, t.autoArm) == (s.settings.pinEnabled, s.settings.pinHash, s.settings.autoArm)
  {
  }

  /** The PIN and auto-arming are as a phone that may change them asks, or gone with a reset, and
      nothing else changes them. */
  lemma SettingsExactly(env: Env, s: State, op: Op, v: Verdict, after: State)
    requires Step(env, s, op, v, after)
    ensures var t := after.settings;
      (t.pinEnabled, t.pinHash, t.autoArm) ==
      if Saves(env, s, op)
      then (op.msg.pinEnabled, if op.msg.newHash.Some? then op.msg.newHash.value else s.settings.pinHash,
            op.msg.autoArm)
      else if Resets(env, s, op) then (false, "", false)
      else (s.settings.pinEnabled, s.settings.pinHash, s.settings.autoArm)
  {
    if op.Message? && Heard(env, s, op) && !op.msg.Ping? {
      var t := Touched(env, s, op.id, op.msg, op.now);
      HandledHeard(env, s, op, v);
      if BringsPin(op.msg) {
        PinAnsweredSettings(env, t, op.id, op.msg, op.now, v);
        if AsksPin(s.settings, op.msg).Some? {
          PinVerdict(env, s, op, v, AsksPin(s.settings, op.msg).value);
        }
      } else {
        AnsweredSettings(env, t, op.id, op.msg, op.now, v);
      }
    } else if op.Message? {
      HandledUnheard(env, s, op, v);
    }
  }

  // ---------------------------------------------------------------- who is connected and registered

  /** A socket that arrives is greeted with its challenge exactly when fewer sockets are waiting to
      pair than may, in all and at its address; otherwise it is told and closed. */
  lemma GreetedExactly(env: Env, tr: Trace, id: Id, addr: string, nonce: string, v: Verdict, after: State)
    requires Run(env, tr) && Step(env, Last(tr), Connect(id, addr, nonce), v, after)
    ensures var s, c := Last(tr), after.conns[id];
      if |AllWaiting(s.conns)| < 32 && |WaitingAt(env, s.conns, env.Host(addr))| < 4
      then c.open && c.serverNonce == nonce && c.told == []
      else !c.open && c.serverNonce == "" && c.told == [AuthFail]
    ensures !after.conns[id].authenticated && after.conns[id].addr == addr
    ensures forall j :: j in Last(tr).conns ==> after.conns[j] == Last(tr).conns[j]
  {
    AlwaysInv(env, tr);
    SlotsAreWaitingSockets(env, tr, env.Host(addr));
  }

  /** A pairing that succeeds: see HubSafety.PairingDecided. */
  predicate Pairs(env: Env, s: State, op: Op) {
    && op.Message? && op.msg.Auth? && op.allowed && op.id in s.conns
    && op.msg.proof != NoProof && op.msg.encrypt == ENC_CHACHA
    && s.conns[op.id].serverNonce != "" && ValidNonce(op.msg.nonce)
    && ProofHolds(env.stretch(s.auth.key), CLIENT, s.conns[op.id].serverNonce, op.msg.nonce, ENC_CHACHA, op.msg.proof)
    && !A.Locked(A.RecordFor(s.auth.byAddr, env.Host(s.conns[op.id].addr), op.now), op.now)
    && |A.Swept(env.opts, s.auth.sessions, op.now)| < env.opts.maxSessions
  }

  /** A registered phone that goes, or sends a message or is found by the heartbeat after its
      session has ended. */
  predicate Leaves(env: Env, s: State, op: Op, id: Id)
    requires id in s.conns
  {
    || op == Gone(id)
    || (op.Message? && op.id == id && !op.msg.Auth? && !A.IsLive(env.opts, s.auth, s.conns[id].token, op.now))
    || (op.Heartbeat? && !A.IsLive(env.opts, s.auth, s.conns[id].token, op.now))
  }

  lemma AnsweredClients(env: Env, s: State, id: Id, m: Msg, now: nat, v: Verdict)
    requires id in s.conns && !m.Auth? && !BringsPin(m)
    ensures Answered(env, s, id, m, now, v).clients == s.clients
  {
  }

  lemma PinAnsweredClients(env: Env, s: State, id: Id, m: Msg, now: nat, v: Verdict)
    requires id in s.conns && BringsPin(m)
    ensures Answered(env, s, id, m, now, v).clients == s.clients
  {
  }

  lemma PairingRegisters(env: Env, s: State, op: Op, v: Verdict)
    requires Inv(env, s) && Possible(env, s, op, v) && op.Message? && op.msg.Auth?
    ensures Apply(env, s, op, v).clients == if Pairs(env, s, op) then s.clients + {op.id} else s.clients
  {
    if op.allowed && Judged(op.msg) {
      GrantDecided(env, s, op.id, op.msg, op.now, v);
    }
  }

  lemma MessageRegisters(env: Env, s: State, op: Op, v: Verdict)
    requires Inv(env, s) && Possible(env, s, op, v) && op.Message? && !op.msg.Auth?
    ensures Apply(env, s, op, v).clients
            == if StillLive(env, s, op.id, op.msg, op.now) then s.clients else s.clients - {op.id}
  {
    var t := Touched(env, s, op.id, op.msg, op.now);
    if StillLive(env, s, op.id, op.msg, op.now) && op.allowed && t.conns[op.id].authenticated {
      if BringsPin(op.msg) {
        PinAnsweredClients(env, t, op.id, op.msg, op.now, v);
      } else {
        AnsweredClients(env, t, op.id, op.msg, op.now, v);
      }
    }
  }

  lemma OtherRegisters(env: Env, s: State, op: Op, v: Verdict, id: Id)
    requires Owners(s) && Possible(env, s, op, v) && !op.Message?
    ensures id in Apply(env, s, op, v).clients <==> id in s.clients && id in s.conns && !Leaves(env, s, op, id)
  {
  }

  /** A phone is registered after an operation exactly when it was and neither went nor was found
      with its session over, or has just paired. */
  lemma RegisteredExactly(env: Env, tr: Trace, op: Op, v: Verdict, after: State, id: Id)
    requires Run(env, tr) && Step(env, Last(tr), op, v, after)
    ensures var s := Last(tr);
      id in after.clients <==>
        (id in s.clients && id in s.conns && !Leaves(env, s, op, id)) || (Pairs(env, s, op) && id == op.id)
  {
    AlwaysInv(env, tr);
    if op.Message? && op.msg.Auth? {
      PairingRegisters(env, Last(tr), op, v);
    } else if op.Message? {
      MessageRegisters(env, Last(tr), op, v);
    } else {
      OtherRegisters(env, Last(tr), op, v, id);
    }
  }

  /** The heartbeat tells and closes exactly the registered phones whose session has ended, and
      leaves every other socket as it was. */
  lemma HeartbeatDrops(env: Env, tr: Trace, now: nat, v: Verdict, after: State, id: Id)
    requires Run(env, tr) && Step(env, Last(tr), Heartbeat(now), v, after) && id in Last(tr).conns
    ensures var s := Last(tr); var c := s.conns[id];
      id in after.conns && after.conns[id] ==
        if id in s.clients && !A.IsLive(env.opts, s.auth, c.token, now)
        then c.(open := false, told := c.told + [AuthFail]) else c
    ensures forall t :: t in after.auth.sessions ==>
      t in Last(tr).auth.sessions && after.auth.sessions[t] == Last(tr).auth.sessions[t]
  {
    AlwaysInv(env, tr);
  }

  lemma AnsweredSessions(env: Env, s: State, id: Id, m: Msg, now: nat, v: Verdict)
    requires id in s.conns && !m.Auth? && !BringsPin(m)
    ensures Answered(env, s, id, m, now, v).auth == s.auth
  {
  }

  lemma PinAnsweredSessions(env: Env, s: State, id: Id, m: Msg, now: nat, v: Verdict)
    requires id in s.conns && BringsPin(m) && (AsksPin(s.settings, m).Some? ==> v.auth.sessions == s.auth.sessions)
    ensures Answered(env, s, id, m, now, v).auth.sessions == s.auth.sessions
  {
  }

  lemma ActivityNoted(env: Env, s: State, op: Op, v: Verdict)
    requires Possible(env, s, op, v) && Heard(env, s, op) && !op.msg.Ping?
    ensures Apply(env, s, op, v).auth.sessions == Touched(env, s, op.id, op.msg, op.now).auth.sessions
  {
    var t := Touched(env, s, op.id, op.msg, op.now);
    HandledHeard(env, s, op, v);
    if BringsPin(op.msg) {
      if AsksPin(s.settings, op.msg).Some? {
        PinKeepsSessions(env, s, op, v);
      }
      PinAnsweredSessions(env, t, op.id, op.msg, op.now, v);
    } else {
      AnsweredSessions(env, t, op.id, op.msg, op.now, v);
    }
  }

  lemma PinKeepsSessions(env: Env, s: State, op: Op, v: Verdict)
    requires op.Message? && Possible(env, s, op, v) && Heard(env, s, op) && AsksPin(s.settings, op.msg).Some?
    ensures v.auth.sessions == Touched(env, s, op.id, op.msg, op.now).auth.sessions
  {
    var pin := AsksPin(s.settings, op.msg).value;
    assert Asks(env, s, op) ==
           Some(A.Pin(env.Host(s.conns[op.id].addr), env.pinHolds(pin, s.settings.pinHash), op.now));
  }

  /** Anything a phone sends on a live session is activity: its idle time starts again, and no
      other session's does. The heartbeat's own checks are none: see HeartbeatDrops. */
  lemma MessagesAreActivity(env: Env, s: State, op: Op, v: Verdict, after: State)
    requires Step(env, s, op, v, after) && Heard(env, s, op)
    ensures var token := s.conns[op.id].token;
      && after.auth.sessions.Keys == s.auth.sessions.Keys
      && after.auth.sessions[token] == s.auth.sessions[token].(lastSeen := op.now)
      && forall t :: t in s.auth.sessions && t != token ==> after.auth.sessions[t] == s.auth.sessions[t]
  {
    if !op.msg.Ping? {
      ActivityNoted(env, s, op, v);
    }
  }

  // ---------------------------------------------------------------- there is such a machine

  const CHALLENGE := seq(NONCE_HEX_LEN, _ => '0')

  /** A machine with a PIN, before anything has happened. */
  lemma Unarmed(env: Env) returns (s: State)
    requires env.opts.Normal()
    ensures Run(env, Start(s)) && s.settings.PinRequired() && s.conns == map[] && s.clients == {}
    ensures !s.panel.active && s.held == multiset{} && s.auth.sessions == map[] && s.auth.byAddr == map[]
  {
    var key := Population.SomeKey();
    s := State(Panel(false, false, "", "", map[], []), Settings(true, "hash", false, env.sensors.Keys), map[], {},
               A.State(key, map[], map[]), multiset{});
  }

  /** A phone connects and proves it holds the key. */
  lemma PhonePairs(env: Env, s: State, now: nat) returns (tr: Trace)
    requires env.opts.Normal() && Run(env, Start(s)) && s.settings.PinRequired()
    ensures Run(env, tr) && LivePhone(env, Last(tr), 0, now)
    ensures Last(tr).settings == s.settings && Last(tr).panel == s.panel
  {
    var connect := Connect(0, "", CHALLENGE);
    var t := Apply(env, s, connect, Unasked(s));
    var greeted := Then(Start(s), connect, Unasked(s), t);
    GreetedExactly(env, Start(s), 0, "", CHALLENGE, Unasked(s), t);
    var proof := HandshakeProof(env.stretch(s.auth.key), CLIENT, CHALLENGE, CHALLENGE, ENC_CHACHA);
    var m := Auth(proof, ENC_CHACHA, CHALLENGE, "token");
    var session := A.Session(now, now);
    var v := Verdict(A.Granted("token"), A.State(s.auth.key, map["token" := session], map[]));
    GrantedFirst(env, t, m, now, v);
    var op := Message(0, m, now, true);
    tr := Then(greeted, op, v, Apply(env, t, op, v));
  }

  lemma GrantedFirst(env: Env, s: State, m: Msg, now: nat, v: Verdict)
    requires env.opts.Normal() && A.IsKey(s.auth.key) && s.auth.sessions == map[] && s.auth.byAddr == map[]
    requires 0 in s.conns && s.conns.Keys == {0} && s.conns[0].open && !s.conns[0].authenticated
    requires s.conns[0].token == "" && s.conns[0].serverNonce == CHALLENGE
    requires m == Auth(HandshakeProof(env.stretch(s.auth.key), CLIENT, CHALLENGE, CHALLENGE, ENC_CHACHA), ENC_CHACHA,
                       CHALLENGE, "token")
    requires v == Verdict(A.Granted("token"), A.State(s.auth.key, map["token" := A.Session(now, now)], map[]))
    ensures Possible(env, s, Message(0, m, now, true), v)
    ensures var t := Apply(env, s, Message(0, m, now, true), v);
      LivePhone(env, t, 0, now) && t.settings == s.settings && t.panel == s.panel
  {
    NothingToStrip(s.auth.key);
    assert A.Swept(env.opts, map[], now) == map[];
    assert AuthKey(env, s.auth.key, s.conns[0], m) == s.auth.key;
  }

  /** There is a run to an armed machine that asks for a PIN, with a phone there whose session is
      live: what is said of such machines is said of something. */
  lemma GuardedReachable(env: Env, now: nat) returns (tr: Trace, id: Id)
    requires env.opts.Normal()
    ensures Run(env, tr) && Guarded(Last(tr)) && !Last(tr).panel.active && LivePhone(env, Last(tr), id, now)
  {
    var s := Unarmed(env);
    var paired := PhonePairs(env, s, now);
    id := 0;
    var t := Last(paired);
    var after := Apply(env, t, ConsoleArm, Unasked(t));
    tr := Then(paired, ConsoleArm, Unasked(t), after);
    ArmedExactly(env, t, ConsoleArm, Unasked(t), after);
    AlwaysInv(env, tr);
  }
}
