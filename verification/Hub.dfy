/** The hub itself, whose fields every operation updates: internal/ws/hub.go. Each operation
    is one step of HubState, and keeps what HubHistory proves of all runs. */
module Hub {
  import opened Common
  import opened Handshake
  import opened HubState
  import opened HubHistory
  import A = Auth
  import P = Pending
  import S = Session

  class Hub {
    const env: Env
    const authManager: A.Manager
    const pending: P.PendingConns
    var armed: bool
    var alarmActive: bool
    var alarmSensor: string
    var alarmMessage: string
    var suppressed: map<string, nat>
    var siren: seq<Ring>
    var pinEnabled: bool
    var pinHash: string
    var autoArmOnLock: bool
    var enabled: set<string>
    var conns: map<Id, Conn>
    var clients: set<Id>

    ghost function View(): State
      reads this, authManager, pending
    {
      State(Panel(armed, alarmActive, alarmSensor, alarmMessage, suppressed, siren),
            Settings(pinEnabled, pinHash, autoArmOnLock, enabled),
            conns, clients, authManager.View(), pending.held)
    }

    /** The parts are sound, with nothing said yet of how they agree. */
    ghost predicate Ready()
      reads this, authManager, pending
    {
      && authManager.opts == env.opts && authManager.split == env.split && authManager.Valid()
      && pending.limit == P.MAX_PENDING && pending.perAddr == P.MAX_PER_ADDR && pending.Valid()
      && clients <= conns.Keys
    }

    ghost predicate Valid()
      reads this, authManager, pending
    {
      Ready() && Inv(env, View())
    }

    constructor (e: Env, manager: A.Manager, pinOn: bool, hash: string, autoArm: bool, watching: set<string>)
      requires manager.Valid() && manager.opts == e.opts && manager.split == e.split
      requires manager.sessions == map[]
      ensures Valid() && env == e && authManager == manager && fresh(pending)
      ensures View() == State(Panel(false, false, "", "", map[], []), Settings(pinOn, hash, autoArm, watching),
                              map[], {}, manager.View(), multiset{})
    {
      env, authManager := e, manager;
      pending := new P.PendingConns(P.MAX_PENDING, P.MAX_PER_ADDR);
      armed, alarmActive, alarmSensor, alarmMessage, suppressed, siren := false, false, "", "", map[], [];
      pinEnabled, pinHash, autoArmOnLock, enabled := pinOn, hash, autoArm, watching;
      conns, clients := map[], {};
      new;
      assert Holders(conns) == {};
      assert forall h :: HoldersAt(env, conns, h) == {};
    }

    // -------------------------------------------------------------- telling phones

    method Send(id: Id, n: Notice)
      requires Ready() && id in conns
      modifies this`conns
      ensures Ready() && View() == Sent(old(View()), id, n)
    {
      conns := conns[id := conns[id].(told := conns[id].told + [n])];
    }

    method PushAlert(n: Notice)
      requires Ready()
      modifies this`conns
      ensures Ready() && View() == Pushed(old(View()), n)
      ensures conns.Keys == old(conns).Keys
      ensures forall id :: id in conns ==>
        conns[id].told == old(conns)[id].told + if id in clients && old(conns)[id].authenticated then [n] else []
    {
      var targets: set<Id> := {};
      var rest := clients;
      while rest != {}
        invariant rest <= clients && targets == Audience(View()) - rest
        decreases rest
      {
        var id :| id in rest;
        if conns[id].authenticated {
          targets := targets + {id};
        }
        rest := rest - {id};
      }
      ghost var was, all := conns, targets;
      assert all == Audience(View());
      assert conns == Told(was, all - targets, n);
      while targets != {}
        invariant targets <= all && all <= was.Keys && conns == Told(was, all - targets, n)
        decreases targets
      {
        var id :| id in targets;
        ToldOneMore(was, all - targets, id, n);
        assert all - targets + {id} == all - (targets - {id});
        conns := conns[id := conns[id].(told := conns[id].told + [n])];
        targets := targets - {id};
      }
      assert all - {} == all;
    }

    // -------------------------------------------------------------- the alarm

    method FireAlarm(r: Ring)
      requires Ready()
      modifies this`siren
      ensures Ready() && View() == Rang(old(View()), r)
    {
      siren := siren + [r];
    }

    method ClearAlarm() returns (sensor: string)
      requires Ready()
      modifies this
      ensures Ready() && View() == Cleared(old(View())) && sensor == old(alarmSensor)
    {
      sensor := alarmSensor;
      alarmActive, alarmSensor, alarmMessage := false, "", "";
      FireAlarm(Dismiss);
      PushAlert(AlarmCleared);
    }

    method Arm()
      requires Ready()
      modifies this
      ensures Ready() && View() == Armed(old(View()))
    {
      armed := true;
    }

    method Disarm()
      requires Ready()
      modifies this
      ensures Ready() && View() == Disarmed(old(View()))
    {
      armed := false;
      var _ := ClearAlarm();
    }

    method ClaimAlarm(sensor: string, message: string, now: nat) returns (won: bool)
      requires Ready()
      modifies this
      ensures Ready()
      ensures var s := old(View()); var quiet := sensor in s.panel.suppressed && now < s.panel.suppressed[sensor];
        && (won <==> !quiet && !s.panel.active)
        && var free := s.(panel := s.panel.(suppressed := s.panel.suppressed - {sensor}));
        View() == if quiet then s else if s.panel.active then free else Claimed(free, sensor, message)
    {
      if sensor in suppressed {
        if now < suppressed[sensor] {
          return false;
        }
      }
      suppressed := suppressed - {sensor};
      if alarmActive {
        return false;
      }
      alarmActive, alarmSensor, alarmMessage := true, sensor, message;
      won := true;
    }

    method RaiseAlarm(sensor: string, message: string)
      requires Ready()
      modifies this
      ensures Ready()
      ensures View() == Pushed(Rang(Pushed(old(View()), Alert(sensor)), Trigger), AlarmActive(sensor, message))
    {
      PushAlert(Alert(sensor));
      FireAlarm(Trigger);
      PushAlert(AlarmActive(sensor, message));
    }

    method TryAutoArm(sensor: string, message: string) returns (did: bool)
      requires Ready()
      modifies this
      ensures Ready() && did == AutoArmed(old(View()), sensor, message).Some?
      ensures View() == if did then AutoArmed(old(View()), sensor, message).value else old(View())
    {
      if !autoArmOnLock || sensor != SCREEN || clients == {} {
        return false;
      }
      if Contains(message, "off") && !armed {
        Arm();
        return true;
      }
      if Contains(message, "on") && armed {
        Disarm();
        return true;
      }
      did := false;
    }

    method DispatchAlert(sensor: string, message: string, now: nat)
      requires Valid()
      modifies this
      ensures Valid()
      ensures Step(env, old(View()), SensorAlert(sensor, message, now), Unasked(old(View())), View())
    {
      ghost var s := View();
      DispatchLocked(sensor, message, now);
      StepKeeps(env, s, SensorAlert(sensor, message, now), Unasked(s), View());
    }

    method DispatchLocked(sensor: string, message: string, now: nat)
      requires Ready()
      modifies this
      ensures Ready() && View() == Dispatched(old(View()), sensor, message, now)
    {
      var did := TryAutoArm(sensor, message);
      if did {
        return;
      }
      if !armed {
        return;
      }
      var won := ClaimAlarm(sensor, message, now);
      if !won {
        return;
      }
      RaiseAlarm(sensor, message);
    }

    method TriggerSensorTest(sensor: string) returns (found: bool)
      requires Ready()
      modifies this
      ensures Ready() && View() == Tested(env, old(View()), sensor)
      ensures found <==> sensor in env.sensors && env.sensors[sensor] != ""
    {
      var displayName := if sensor in env.sensors then env.sensors[sensor] else "";
      if displayName == "" {
        return false;
      }
      var message := displayName + " triggered (manual test)";
      PushAlert(Alert(sensor));
      if armed && !alarmActive {
        alarmActive, alarmSensor, alarmMessage := true, sensor, message;
        FireAlarm(Trigger);
        PushAlert(AlarmActive(sensor, message));
      }
      found := true;
    }

    // -------------------------------------------------------------- leaving

    method RemoveClient(id: Id)
      requires Ready() && id in conns
      modifies this`clients, authManager
      ensures Ready() && View() == Removed(old(View()), id)
    {
      clients := clients - {id};
      if conns[id].token != "" {
        authManager.RemoveSession(conns[id].token);
      }
    }

    method ReleasePending(id: Id)
      requires Ready() && id in conns && (conns[id].pendingHeld ==> env.Host(conns[id].addr) in pending.held)
      modifies this`conns, pending
      ensures Ready() && View() == Released(env, old(View()), id)
    {
      var c := conns[id];
      if !c.pendingHeld {
        return;
      }
      conns := conns[id := c.(pendingHeld := false)];
      pending.Release(env.Host(c.addr));
    }

    method Close(id: Id)
      requires Ready() && id in conns
      modifies this`conns
      ensures Ready() && View() == old(View()).(conns := old(conns)[id := old(conns)[id].(open := false)])
    {
      conns := conns[id := conns[id].(open := false)];
    }

    /** The end of a connection's goroutine. */
    method EndConnection(id: Id)
      requires Valid() && id in conns
      modifies this, authManager, pending
      ensures Valid() && Step(env, old(View()), Gone(id), Unasked(old(View())), View())
    {
      ghost var s := View();
      if conns[id].pendingHeld {
        HolderCounted(env, s.conns, s.held, id);
      }
      ReleasePending(id);
      Close(id);
      RemoveClient(id);
      StepKeeps(env, s, Gone(id), Unasked(s), View());
    }

    method DropExpiredSessions(now: nat)
      requires Valid()
      modifies this, authManager
      ensures Valid() && Step(env, old(View()), Heartbeat(now), Unasked(old(View())), View())
    {
      ghost var s := View();
      var stale := FindExpired(now);
      DropAll(stale);
      StepKeeps(env, s, Heartbeat(now), Unasked(s), View());
    }

    /** Checking a session that has ended drops it. */
    method FindExpired(now: nat) returns (stale: set<Id>)
      requires Ready()
      modifies authManager
      ensures Ready() && stale == Expired(env, old(View()), now)
      ensures View() == old(View()).(auth := WithoutSessions(old(View()).auth, Tokens(conns, stale)))
    {
      ghost var s := View();
      stale := {};
      var rest := clients;
      while rest != {}
        invariant rest <= clients && Ready()
        invariant stale == Expired(env, s, now) - rest
        invariant View() == s.(auth := WithoutSessions(s.auth, Tokens(s.conns, stale)))
        decreases rest
      {
        var id :| id in rest;
        ExpiredOneMore(env, s, now, rest, id);
        rest := rest - {id};
        if conns[id].authenticated {
          DroppedAlready(env, s, stale, id, now);
          var alive := authManager.ValidateSession(conns[id].token, now);
          if !alive {
            TokensOneMore(s, stale, id);
            stale := stale + {id};
          }
        }
      }
    }

    /** Told that its session is over, closed, and let go. */
    method DropClient(id: Id)
      requires Ready() && id in conns
      modifies this`conns, this`clients, authManager
      ensures Ready() && View() == Severed(old(View()), id)
    {
      ghost var s := View();
      Send(id, AuthFail);
      Close(id);
      RemoveClient(id);
      UpdatedTwice(s.conns, id, Hear(s.conns[id], AuthFail), conns[id]);
    }

    method DropAll(stale: set<Id>)
      requires Ready() && stale <= conns.Keys
      requires Tokens(conns, stale) !! authManager.sessions.Keys
      modifies this`conns, this`clients, authManager
      ensures Ready()
      ensures View() == old(View()).(conns := Shut(old(conns), stale), clients := old(clients) - stale)
    {
      ghost var s := View();
      var rest := stale;
      while rest != {}
        invariant rest <= stale && Ready()
        invariant View() == s.(conns := Shut(s.conns, stale - rest), clients := s.clients - (stale - rest))
        decreases rest
      {
        var id :| id in rest;
        ShutOneMore(s.conns, stale - rest, id);
        assert stale - rest + {id} == stale - (rest - {id});
        assert s.conns[id].token in Tokens(s.conns, stale);
        NothingToDrop(s.auth, s.conns[id].token);
        DropClient(id);
        rest := rest - {id};
      }
    }

    // -------------------------------------------------------------- arriving

    method AcquirePending(id: Id) returns (ok: bool)
      requires Ready() && id in conns
      modifies this`conns, pending
      ensures Ready()
      ensures var h := env.Host(old(conns)[id].addr); var s := old(View());
        && (ok <==> |s.held| < P.MAX_PENDING && s.held[h] < P.MAX_PER_ADDR)
        && View() == if ok then s.(conns := s.conns[id := s.conns[id].(pendingHeld := true)],
                                   held := s.held + multiset{h})
                     else s
    {
      ok := pending.Acquire(env.Host(conns[id].addr));
      if ok {
        conns := conns[id := conns[id].(pendingHeld := true)];
      }
    }

    /** A socket arriving: let in and greeted with a fresh challenge, or told and closed. */
    method BeginConnection(id: Id, addr: string, nonce: string) returns (ok: bool)
      requires Valid() && id !in conns && ValidNonce(nonce)
      modifies this, pending
      ensures Valid() && Step(env, old(View()), Connect(id, addr, nonce), Unasked(old(View())), View())
      ensures ok == conns[id].open
    {
      ghost var s := View();
      ok := AdmitConnection(id, addr, nonce);
      StepKeeps(env, s, Connect(id, addr, nonce), Unasked(s), View());
    }

    method AdmitConnection(id: Id, addr: string, nonce: string) returns (ok: bool)
      requires Ready() && id !in conns
      modifies this`conns, pending
      ensures Ready() && View() == Connected(env, old(View()), id, addr, nonce)
      ensures ok == conns[id].open
    {
      ghost var was := conns;
      var c := Unpaired(addr);
      conns := conns[id := c];
      ok := AcquirePending(id);
      if ok {
        conns := conns[id := conns[id].(serverNonce := nonce)];
        UpdatedTwice(was, id, c, c.(pendingHeld := true));
      } else {
        Refuse(id);
      }
      UpdatedTwice(was, id, c, conns[id]);
      assert conns == was[id := conns[id]];
    }

    method Refuse(id: Id)
      requires Ready() && id in conns
      modifies this`conns
      ensures Ready() && conns == old(conns)[id := Hear(old(conns)[id], AuthFail).(open := false)]
    {
      ghost var was := conns;
      Send(id, AuthFail);
      Close(id);
      UpdatedTwice(was, id, Hear(was[id], AuthFail), conns[id]);
    }

    method RegisterExternalClient(id: Id)
      requires Valid() && id !in conns
      modifies this
      ensures Valid() && Step(env, old(View()), External(id), Unasked(old(View())), View())
    {
      ghost var s := View();
      conns := conns[id := Unpaired(A.UNKNOWN_ADDR)];
      StepKeeps(env, s, External(id), Unasked(s), View());
    }

    // -------------------------------------------------------------- pairing

    method ChooseKey(c: Conn, m: Msg, key: string) returns (k: string)
      requires m.Auth?
      ensures k == AuthKey(env, key, c, m)
    {
      var shaped := IsValidNonce(m.nonce);
      if c.serverNonce == "" || !shaped {
        return REFUSED_KEY;
      }
      if !ProofHolds(env.stretch(key), CLIENT, c.serverNonce, m.nonce, m.encrypt, m.proof) {
        return REFUSED_KEY;
      }
      k := key;
    }

    /** A proof that does not hold is judged as a key that never matches. */
    method HandleAuth(id: Id, m: Msg, now: nat) returns (ghost v: Verdict)
      requires Valid() && id in conns && m.Auth?
      modifies this, authManager, pending
      ensures Ready() && View() == Authed(env, old(View()), id, m, v)
      ensures Judged(m) ==> A.Step(env.opts, old(View()).auth,
        A.Key(env.Host(old(conns)[id].addr), AuthKey(env, old(View()).auth.key, old(conns)[id], m), m.minted, now),
        v.answer, v.auth)
    {
      ghost var s := View();
      var key := authManager.pairingKey;
      if m.proof == NoProof {
        Send(id, AuthFail);
        return Unasked(s);
      }
      if m.encrypt != ENC_CHACHA {
        Send(id, AuthFail);
        return Unasked(s);
      }
      var judged := ChooseKey(conns[id], m, key);
      var answer := authManager.Authenticate(conns[id].addr, judged, now, m.minted);
      v := Verdict(answer, authManager.View());
      if !answer.Granted? {
        Send(id, AuthFail);
        return;
      }
      GrantMeans(env, s, id, m, now, v);
      if conns[id].pendingHeld {
        HolderCounted(env, s.conns, s.held, id);
      }
      AcceptPairing(id, m.nonce, key, answer.token);
    }

    method AcceptPairing(id: Id, nonce: string, key: string, token: A.Token)
      requires Ready() && id in conns && nonce != "" && conns[id].serverNonce != ""
      requires conns[id].pendingHeld ==> env.Host(conns[id].addr) in pending.held
      modifies this, authManager, pending
      ensures Ready() && View() == HubState.Accepted(env, old(View()), id, nonce, key, token)
    {
      ghost var s := View();
      RetireSession(conns[id].token, token);
      ReleasePending(id);
      RegisterSealed(id, nonce, key, token);
      AcceptedInSteps(env, s, id, nonce, key, token);
    }

    method RegisterSealed(id: Id, nonce: string, key: string, token: A.Token)
      requires Ready() && id in conns && nonce != "" && conns[id].serverNonce != ""
      modifies this`conns, this`clients
      ensures Ready() && View() == Registered(env, old(View()), id, nonce, key, token)
    {
      clients := clients + {id};
      SealConnection(id, nonce, key, token);
    }

    /** Pairing again on a paired socket gives its earlier session back. */
    method RetireSession(earlier: A.Token, token: A.Token)
      requires Ready()
      modifies authManager
      ensures Ready() && View() == old(View()).(auth := Retired(old(View()).auth, earlier, token))
    {
      if earlier != "" && earlier != token {
        authManager.RemoveSession(earlier);
      }
    }

    /** Deriving the session cannot fail by the time it is reached: both nonces are there. */
    method SealConnection(id: Id, nonce: string, key: string, token: A.Token)
      requires Ready() && id in conns && nonce != "" && conns[id].serverNonce != ""
      modifies this`conns
      ensures Ready()
      ensures var c := old(conns)[id]; var d := AcceptedConn(env, old(View()).panel, c, nonce, key, token);
        conns == old(conns)[id := d.(pendingHeld := c.pendingHeld)]
    {
      ghost var s := View();
      var c := conns[id];
      var derived := S.NewSession(env.stretch(key), c.serverNonce, nonce, true);
      if derived.Err? {
        assert false;
      }
      conns := conns[id := c.(authenticated := true, token := token, seal := Some(derived.value.send))];
      TellAccepted(id, token);
      UpdatedTwice(s.conns, id, s.conns[id], conns[id]);
    }

    method TellAccepted(id: Id, token: A.Token)
      requires Ready() && id in conns
      modifies this`conns
      ensures Ready()
      ensures var c := old(conns)[id];
        conns == old(conns)[id := c.(told := c.told + [AuthOk(token)] + News(old(View()).panel))]
    {
      ghost var was, c := conns, conns[id];
      ghost var p := View().panel;
      Send(id, AuthOk(token));
      assert conns == was[id := Hear(c, AuthOk(token))];
      if alarmActive {
        Send(id, AlarmActive(alarmSensor, alarmMessage));
        UpdatedTwice(was, id, Hear(c, AuthOk(token)), conns[id]);
        assert News(p) == [AlarmActive(alarmSensor, alarmMessage)];
      } else {
        assert c.told + [AuthOk(token)] + News(p) == c.told + [AuthOk(token)];
      }
    }

    // -------------------------------------------------------------- a paired phone's messages

    /** What CheckPin says of a PIN brought by addr. */
    method CheckPin(addr: string, pin: string, now: nat) returns (ok: bool, ghost v: Verdict)
      requires Ready()
      modifies authManager
      ensures Ready() && View() == old(View()).(auth := v.auth)
      ensures A.Step(env.opts, old(View()).auth,
        A.Pin(env.Host(addr), env.pinHolds(pin, pinHash), now), v.answer, v.auth)
      ensures ok == v.answer.Accepted?
    {
      var answer := authManager.CheckPin(addr, env.pinHolds(pin, pinHash), now);
      ok := answer.Accepted?;
      v := Verdict(answer, authManager.View());
    }

    method DisarmWithPin(source: string, pin: string, now: nat) returns (ok: bool, ghost v: Verdict)
      requires Ready()
      modifies this, authManager
      ensures Ready() && View() == DisarmedWithPin(old(View()), v)
      ensures ok <==> (old(View()).settings.PinRequired() ==> v.answer.Accepted?)
      ensures old(View()).settings.PinRequired() ==>
        A.Step(env.opts, old(View()).auth,
          A.Pin(env.Host(source), env.pinHolds(pin, old(pinHash)), now), v.answer, v.auth)
    {
      v := Unasked(View());
      if pinEnabled && pinHash != "" {
        ok, v := CheckPin(source, pin, now);
        if !ok {
          return;
        }
      }
      Disarm();
      ok := true;
    }

    method HandleDisarm(id: Id)
      requires Ready() && id in conns
      modifies this
      ensures Ready()
      ensures View() == if old(View()).settings.PinRequired() then Sent(old(View()), id, NeedPin)
                        else Disarmed(old(View()))
    {
      if pinEnabled && pinHash != "" {
        Send(id, NeedPin);
        return;
      }
      Disarm();
    }

    method DismissAlarm(now: nat)
      requires Ready()
      modifies this
      ensures Ready() && View() == Dismissed(old(View()), now)
    {
      var sensor := ClearAlarm();
      if sensor == INPUT {
        suppressed := suppressed[INPUT := now + INPUT_GRACE];
      }
    }

    /** Pausing a sensor and disabling it: both answer the alarm that sensor raised. */
    method SwitchOffAlarmSensor()
      requires Ready()
      modifies this
      ensures Ready() && View() == SwitchedOff(old(View()))
    {
      var sensor := ClearAlarm();
      if sensor == "" {
        return;
      }
      enabled := enabled - {sensor};
    }

    method ApplySensors(want: map<string, bool>)
      requires Ready()
      modifies this`enabled
      ensures Ready() && enabled == Wanted(old(enabled), want)
    {
      ghost var was := enabled;
      var rest := want.Keys;
      while rest != {}
        invariant rest <= want.Keys
        invariant forall n :: n in enabled <==> if n in want && n !in rest then want[n] else n in was
        decreases rest
      {
        var name :| name in rest;
        enabled := if want[name] then enabled + {name} else enabled - {name};
        rest := rest - {name};
      }
    }

    method SensorsWouldChange(want: map<string, bool>) returns (change: bool)
      ensures change == WouldChange(enabled, want)
    {
      var rest := want.Keys;
      while rest != {}
        invariant rest <= want.Keys
        invariant forall n :: n in want && n !in rest ==> want[n] == (n in enabled)
        decreases rest
      {
        var name :| name in rest;
        if want[name] != (name in enabled) {
          return true;
        }
        rest := rest - {name};
      }
      change := false;
    }

    method HandleConfigure(want: map<string, bool>)
      requires Ready()
      modifies this
      ensures Ready() && View() == Configured(old(View()), want)
    {
      if armed {
        PushAlert(Alert("system"));
        return;
      }
      ApplySensors(want);
    }

    method ApplyConfigUpdate(id: Id, m: Msg, now: nat) returns (ok: bool, ghost v: Verdict)
      requires Ready() && id in conns && m.SaveConfig?
      modifies this, authManager
      ensures Ready() && View() == Saved(old(View()), m, v)
      ensures var guarded := old(View()).settings.PinRequired() && ChangesPin(old(View()).settings, m);
        && (ok <==> (guarded ==> v.answer.Accepted?))
        && (guarded ==> A.Step(env.opts, old(View()).auth,
              A.Pin(env.Host(old(conns)[id].addr), env.pinHolds(m.pin, old(pinHash)), now), v.answer, v.auth))
    {
      v := Unasked(View());
      var pinActive := pinEnabled && pinHash != "";
      var changingPin := m.pinEnabled != pinEnabled || m.newHash.Some?;
      if pinActive && changingPin {
        ok, v := CheckPin(conns[id].addr, m.pin, now);
        if !ok {
          return;
        }
      }
      ok := true;
      StoreSettings(m);
    }

    method StoreSettings(m: Msg)
      requires Ready() && m.SaveConfig?
      modifies this
      ensures Ready() && View() == Stored(old(View()), m)
    {
      StorePin(m);
      var change := SensorsWouldChange(m.want);
      if armed && change {
        PushAlert(Alert("system"));
        return;
      }
      ApplySensors(m.want);
    }

    method StorePin(m: Msg)
      requires Ready() && m.SaveConfig?
      modifies this`pinHash, this`pinEnabled, this`autoArmOnLock
      ensures Ready()
      ensures pinHash == if m.newHash.Some? then m.newHash.value else old(pinHash)
      ensures pinEnabled == m.pinEnabled && autoArmOnLock == m.autoArm
    {
      if m.newHash.Some? {
        pinHash := m.newHash.value;
      }
      pinEnabled, autoArmOnLock := m.pinEnabled, m.autoArm;
    }

    method ResetWithPin(id: Id, pin: string, now: nat) returns (ok: bool, ghost v: Verdict)
      requires Ready() && id in conns
      modifies this, authManager
      ensures Ready() && View() == Reset(env, old(View()), v)
      ensures ok <==> (old(View()).settings.PinRequired() ==> v.answer.Accepted?)
      ensures old(View()).settings.PinRequired() ==>
        A.Step(env.opts, old(View()).auth,
          A.Pin(env.Host(old(conns)[id].addr), env.pinHolds(pin, old(pinHash)), now), v.answer, v.auth)
    {
      v := Unasked(View());
      if pinEnabled && pinHash != "" {
        ok, v := CheckPin(conns[id].addr, pin, now);
        if !ok {
          return;
        }
      }
      DefaultSettings();
      ok := true;
    }

    method DefaultSettings()
      requires Ready()
      modifies this
      ensures Ready() && View() == Defaulted(env, old(View()))
    {
      pinEnabled, pinHash, autoArmOnLock := false, "", false;
      enabled := enabled + env.sensors.Keys;
    }

    method HandleDisarmPin(id: Id, pin: string, now: nat) returns (ghost v: Verdict)
      requires Ready() && id in conns
      modifies this, authManager
      ensures Ready() && View() == Answered(env, old(View()), id, DisarmPin(pin), now, v)
      ensures AsksPin(old(View()).settings, DisarmPin(pin)).Some? ==>
        A.Step(env.opts, old(View()).auth,
          A.Pin(env.Host(old(conns)[id].addr),
                env.pinHolds(AsksPin(old(View()).settings, DisarmPin(pin)).value, old(pinHash)), now), v.answer, v.auth)
    {
      var ok;
      ok, v := DisarmWithPin(conns[id].addr, pin, now);
      if !ok {
        Send(id, AuthFail);
      }
    }

    method HandleUpdateConfig(id: Id, m: Msg, now: nat) returns (ghost v: Verdict)
      requires Ready() && id in conns && m.SaveConfig?
      modifies this, authManager
      ensures Ready() && View() == Answered(env, old(View()), id, m, now, v)
      ensures AsksPin(old(View()).settings, m).Some? ==>
        A.Step(env.opts, old(View()).auth,
          A.Pin(env.Host(old(conns)[id].addr),
                env.pinHolds(AsksPin(old(View()).settings, m).value, old(pinHash)), now), v.answer, v.auth)
    {
      var ok;
      ok, v := ApplyConfigUpdate(id, m, now);
      if !ok {
        Send(id, NeedPin);
      }
    }

    method HandleResetConfig(id: Id, pin: string, now: nat) returns (ghost v: Verdict)
      requires Ready() && id in conns
      modifies this, authManager
      ensures Ready() && View() == Answered(env, old(View()), id, ResetConfig(pin), now, v)
      ensures AsksPin(old(View()).settings, ResetConfig(pin)).Some? ==>
        A.Step(env.opts, old(View()).auth,
          A.Pin(env.Host(old(conns)[id].addr),
                env.pinHolds(AsksPin(old(View()).settings, ResetConfig(pin)).value, old(pinHash)), now),
          v.answer, v.auth)
    {
      var ok;
      ok, v := ResetWithPin(id, pin, now);
      if !ok {
        Send(id, NeedPin);
      }
    }

    method HandlePairedMessage(id: Id, m: Msg, now: nat) returns (ghost v: Verdict)
      requires Ready() && id in conns && !m.Auth?
      modifies this, authManager
      ensures Ready() && View() == Answered(env, old(View()), id, m, now, v)
      ensures AsksPin(old(View()).settings, m).Some? ==>
        A.Step(env.opts, old(View()).auth,
          A.Pin(env.Host(old(conns)[id].addr),
                env.pinHolds(AsksPin(old(View()).settings, m).value, old(pinHash)), now), v.answer, v.auth)
    {
      v := Unasked(View());
      match m
      case Ping =>
      case Arm => Arm();
      case Disarm => HandleDisarm(id);
      case DisarmPin(pin) => v := HandleDisarmPin(id, pin, now);
      case TestAlert => PushAlert(Alert("test"));
      case TriggerSensor(sensor) =>
        if sensor != "" {
          var _ := TriggerSensorTest(sensor);
        }
      case DismissAlarm => DismissAlarm(now);
      case PauseSensor => SwitchOffAlarmSensor();
      case DisableSensor => SwitchOffAlarmSensor();
      case Configure(want) => HandleConfigure(want);
      case SaveConfig(_, _, _, _, _) => v := HandleUpdateConfig(id, m, now);
      case ResetConfig(pin) => v := HandleResetConfig(id, pin, now);
    }

    // -------------------------------------------------------------- any message

    method SessionStillLive(id: Id, m: Msg, now: nat) returns (live: bool)
      requires Ready() && id in conns && (conns[id].authenticated ==> conns[id].token != "")
      modifies this`conns, this`clients, authManager
      ensures Ready() && live == StillLive(env, old(View()), id, m, now)
      ensures View() == if live then Touched(env, old(View()), id, m, now) else Severed(old(View()), id)
    {
      ghost var s := View();
      if !conns[id].authenticated || m.Auth? {
        return true;
      }
      live := authManager.TouchSession(conns[id].token, now);
      if live {
        return;
      }
      assert authManager.View() == WithoutSessions(s.auth, {conns[id].token});
      DroppedTwice(s.auth, {conns[id].token});
      DropClient(id);
    }

    /** One message from an open socket. allowed is its rate limiter's answer; a token minted
        by a pairing has never been held before. */
    method HandleMessage(id: Id, m: Msg, now: nat, allowed: bool) returns (ghost v: Verdict)
      requires Valid() && id in conns && conns[id].open && (m.Auth? ==> Unused(View(), m.minted))
      modifies this, authManager, pending
      ensures Valid() && Step(env, old(View()), Message(id, m, now, allowed), v, View())
    {
      ghost var s := View();
      v := Respond(id, m, now, allowed);
      HandledStep(env, s, id, m, now, allowed, v, View());
    }

    method Respond(id: Id, m: Msg, now: nat, allowed: bool) returns (ghost v: Verdict)
      requires Valid() && id in conns
      modifies this, authManager, pending
      ensures Ready() && View() == Handled(env, old(View()), id, m, now, allowed, v)
      ensures AskedRightly(env, old(View()), Message(id, m, now, allowed), v)
    {
      v := Unasked(View());
      ghost var s := View();
      TouchedInv(env, s, id, m, now);
      var live := SessionStillLive(id, m, now);
      if !live || !allowed {
        AskedNothing(env, s, id, m, now, allowed, v);
        return;
      }
      v := RespondLive(s, id, m, now);
    }

    /** The rest of it, on a session found good and a message let through. s is how things were
        when it came. */
    method RespondLive(ghost s: State, id: Id, m: Msg, now: nat) returns (ghost v: Verdict)
      requires Valid() && id in conns && id in s.conns && StillLive(env, s, id, m, now)
      requires View() == Touched(env, s, id, m, now)
      modifies this, authManager, pending
      ensures Ready() && View() == Handled(env, s, id, m, now, true, v)
      ensures AskedRightly(env, s, Message(id, m, now, true), v)
    {
      if m.Auth? {
        v := HandleAuth(id, m, now);
        AskedForKey(env, s, id, m, now, v);
        return;
      }
      v := RespondPaired(id, m, now);
      AskedForPin(env, s, id, m, now, v);
    }

    method RespondPaired(id: Id, m: Msg, now: nat) returns (ghost v: Verdict)
      requires Ready() && id in conns && !m.Auth?
      modifies this, authManager
      ensures Ready()
      ensures View() == if m.Ping? then old(View())
                        else if !old(conns)[id].authenticated then Sent(old(View()), id, AuthFail)
                        else Answered(env, old(View()), id, m, now, v)
      ensures old(conns)[id].authenticated && AsksPin(old(View()).settings, m).Some? ==>
        A.Step(env.opts, old(View()).auth,
          A.Pin(env.Host(old(conns)[id].addr),
                env.pinHolds(AsksPin(old(View()).settings, m).value, old(pinHash)), now), v.answer, v.auth)
    {
      v := Unasked(View());
      if m.Ping? {
        return;
      }
      if !conns[id].authenticated {
        Send(id, AuthFail);
        return;
      }
      v := HandlePairedMessage(id, m, now);
    }

    // -------------------------------------------------------------- console and start-up

    method ArmFromConsole()
      requires Valid()
      modifies this
      ensures Valid() && Step(env, old(View()), ConsoleArm, Unasked(old(View())), View())
    {
      ghost var s := View();
      Arm();
      StepKeeps(env, s, ConsoleArm, Unasked(s), View());
    }

    method RestoreArmed()
      requires Valid()
      modifies this
      ensures Valid() && Step(env, old(View()), HubState.RestoreArmed, Unasked(old(View())), View())
    {
      ghost var s := View();
      armed := true;
      StepKeeps(env, s, HubState.RestoreArmed, Unasked(s), View());
    }

    method StopAlarm()
      requires Valid()
      modifies this
      ensures Valid() && Step(env, old(View()), ConsoleStop, Unasked(old(View())), View())
    {
      ghost var s := View();
      var _ := ClearAlarm();
      StepKeeps(env, s, ConsoleStop, Unasked(s), View());
    }

    method TestSensorFromConsole(sensor: string) returns (found: bool)
      requires Valid()
      modifies this
      ensures Valid() && Step(env, old(View()), ConsoleTest(sensor), Unasked(old(View())), View())
    {
      ghost var s := View();
      found := TriggerSensorTest(sensor);
      StepKeeps(env, s, ConsoleTest(sensor), Unasked(s), View());
    }

    method DisarmFromConsole(pin: string, now: nat) returns (ok: bool, ghost v: Verdict)
      requires Valid()
      modifies this, authManager
      ensures Valid() && Step(env, old(View()), ConsoleDisarm(pin, now), v, View())
      ensures ok ==> !armed
      ensures !ok ==> armed == old(armed) && alarmActive == old(alarmActive)
    {
      ghost var s := View();
      ok, v := DisarmWithPin(CONSOLE, pin, now);
      StepKeeps(env, s, ConsoleDisarm(pin, now), v, View());
    }

    method UnpauseSensor(sensor: string)
      requires Valid()
      modifies this
      ensures Valid() && Step(env, old(View()), Unpause(sensor), Unasked(old(View())), View())
    {
      ghost var s := View();
      enabled := enabled + {sensor};
      StepKeeps(env, s, Unpause(sensor), Unasked(s), View());
    }

    method RotateKey(generated: string)
      requires Valid() && A.IsKey(generated)
      modifies authManager
      ensures Valid() && Step(env, old(View()), Rotate(generated), Unasked(old(View())), View())
    {
      ghost var s := View();
      authManager.Regenerate(generated);
      StepKeeps(env, s, Rotate(generated), Unasked(s), View());
    }
  }
}
