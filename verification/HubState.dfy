/** The hub as a value: armed and alarm state, connections, pairing and what each phone is
    told, and what every operation makes of them: internal/ws/hub.go. */
module HubState {
  import opened Common
  import opened Handshake
  import A = Auth
  import P = Pending
  import S = Session

  type Id = nat

  const ENC_CHACHA := "chacha20-poly1305"
  const SCREEN := "screen"
  const INPUT := "input"
  const CONSOLE := "console"
  const REFUSED_KEY := ""
  const INPUT_GRACE: nat := 5_000_000_000

  /** What a phone can be told, as far as it concerns pairing and the alarm. */
  datatype Notice =
    | AuthOk(token: A.Token) | AuthFail | NeedPin
    | Alert(sensor: string) | AlarmActive(sensor: string, message: string) | AlarmCleared

  /** The siren callbacks, in the order they fired. */
  datatype Ring = Trigger | Dismiss

  /** One socket. told is everything sent to it of the kinds above, oldest first. */
  datatype Conn = Conn(addr: string, serverNonce: string, open: bool, authenticated: bool, token: A.Token,
                       pendingHeld: bool, seal: Option<S.Key>, told: seq<Notice>)

  datatype Panel = Panel(armed: bool, active: bool, sensor: string, message: string,
                         suppressed: map<string, nat>, siren: seq<Ring>)

  datatype Settings = Settings(pinEnabled: bool, pinHash: string, autoArm: bool, enabled: set<string>) {
    predicate PinRequired() {
      pinEnabled && pinHash != ""
    }
  }

  datatype State = State(panel: Panel, settings: Settings, conns: map<Id, Conn>, clients: set<Id>,
                         auth: A.State, held: multiset<string>)

  /** What the hub runs on: the pairing policy, the sensors by name with their display
      names, how a key is stretched and whether a PIN matches a stored hash. */
  datatype Env = Env(opts: A.Options, split: string -> Option<string>, sensors: map<string, string>,
                     stretch: string -> Stretched, pinHolds: (string, string) -> bool) {
    function Host(addr: string): (h: string)
      ensures h != ""
    {
      A.NormalizeAddr(split, addr)
    }
  }

  datatype Msg =
    | Auth(proof: Proof, encrypt: string, nonce: string, minted: A.Token)
    | Ping
    | Arm | Disarm | DisarmPin(pin: string)
    | TestAlert | TriggerSensor(sensor: string)
    | DismissAlarm | PauseSensor | DisableSensor
    | Configure(want: map<string, bool>)
    | SaveConfig(pinEnabled: bool, newHash: Option<string>, autoArm: bool, want: map<string, bool>, pin: string)
    | ResetConfig(pin: string)

  datatype Op =
    | Connect(id: Id, addr: string, nonce: string)
    | External(id: Id)
    | Message(id: Id, msg: Msg, now: nat, allowed: bool)
    | Gone(id: Id)
    | Heartbeat(now: nat)
    | SensorAlert(sensor: string, message: string, now: nat)
    | ConsoleTest(sensor: string)
    | ConsoleArm | RestoreArmed | ConsoleStop
    | ConsoleDisarm(pin: string, now: nat)
    | Unpause(sensor: string)
    | Rotate(key: string)

  /** What the auth manager answered, and its state after. */
  datatype Verdict = Verdict(answer: A.Answer, auth: A.State)

  // ---------------------------------------------------------------- telling phones

  function Hear(c: Conn, n: Notice): Conn {
    c.(told := c.told + [n])
  }

  function Told(conns: map<Id, Conn>, who: set<Id>, n: Notice): map<Id, Conn> {
    map id | id in conns :: if id in who then Hear(conns[id], n) else conns[id]
  }

  /** The phones an alert goes to: registered and paired. */
  function Audience(s: State): set<Id> {
    set id | id in s.clients && id in s.conns && s.conns[id].authenticated
  }

  function Pushed(s: State, n: Notice): State {
    s.(conns := Told(s.conns, Audience(s), n))
  }

  function Sent(s: State, id: Id, n: Notice): State
    requires id in s.conns
  {
    s.(conns := s.conns[id := Hear(s.conns[id], n)])
  }

  lemma UpdatedTwice<K, V>(m: map<K, V>, k: K, a: V, b: V)
    ensures m[k := a][k := b] == m[k := b]
  {
  }

  lemma ToldOneMore(conns: map<Id, Conn>, who: set<Id>, id: Id, n: Notice)
    requires id in conns && id !in who
    ensures Told(conns, who + {id}, n) == Told(conns, who, n)[id := Hear(Told(conns, who, n)[id], n)]
  {
  }

  // ---------------------------------------------------------------- the alarm

  function Rang(s: State, r: Ring): State {
    s.(panel := s.panel.(siren := s.panel.siren + [r]))
  }

  function Cleared(s: State): State {
    Pushed(Rang(s.(panel := s.panel.(active := false, sensor := "", message := "")), Dismiss), AlarmCleared)
  }

  function Armed(s: State): State {
    s.(panel := s.panel.(armed := true))
  }

  function Disarmed(s: State): State {
    Cleared(s.(panel := s.panel.(armed := false)))
  }

  function Claimed(s: State, sensor: string, message: string): State {
    s.(panel := s.panel.(active := true, sensor := sensor, message := message))
  }

  /** An alert that may be the alarm: kept quiet, behind another alarm, or the alarm. */
  function Alarmed(s: State, sensor: string, message: string, now: nat): State {
    if sensor in s.panel.suppressed && now < s.panel.suppressed[sensor] then s
    else
      var free := s.(panel := s.panel.(suppressed := s.panel.suppressed - {sensor}));
      if s.panel.active then free
      else Pushed(Rang(Pushed(Claimed(free, sensor, message), Alert(sensor)), Trigger), AlarmActive(sensor, message))
  }

  predicate StandsAt(sub: string, s: string, i: nat) {
    i + |sub| <= |s| && s[i..i + |sub|] == sub
  }

  predicate Contains(s: string, sub: string) {
    exists i: nat :: i <= |s| && StandsAt(sub, s, i)
  }

  /** The screen locking or unlocking, with a phone there to answer for it. */
  function AutoArmed(s: State, sensor: string, message: string): Option<State> {
    if !s.settings.autoArm || sensor != SCREEN || s.clients == {} then None
    else if Contains(message, "off") && !s.panel.armed then Some(Armed(s))
    else if Contains(message, "on") && s.panel.armed then Some(Disarmed(s))
    else None
  }

  function Dispatched(s: State, sensor: string, message: string, now: nat): State {
    var auto := AutoArmed(s, sensor, message);
    if auto.Some? then auto.value
    else if !s.panel.armed then s
    else Alarmed(s, sensor, message, now)
  }

  function Tested(env: Env, s: State, sensor: string): State {
    if sensor !in env.sensors || env.sensors[sensor] == "" then s
    else
      var message := env.sensors[sensor] + " triggered (manual test)";
      var t := Pushed(s, Alert(sensor));
      if t.panel.armed && !t.panel.active
      then Pushed(Rang(Claimed(t, sensor, message), Trigger), AlarmActive(sensor, message))
      else t
  }

  function Dismissed(s: State, now: nat): State {
    var t := Cleared(s);
    if s.panel.sensor == INPUT
    then t.(panel := t.panel.(suppressed := t.panel.suppressed[INPUT := now + INPUT_GRACE])) else t
  }

  function SwitchedOff(s: State): State {
    var t := Cleared(s);
    if s.panel.sensor == "" then t else t.(settings := t.settings.(enabled := t.settings.enabled - {s.panel.sensor}))
  }

  // ---------------------------------------------------------------- leaving

  function WithoutSessions(a: A.State, gone: set<A.Token>): A.State {
    a.(sessions := a.sessions - gone)
  }

  function Removed(s: State, id: Id): State
    requires id in s.conns
  {
    s.(clients := s.clients - {id},
       auth := if s.conns[id].token == "" then s.auth else WithoutSessions(s.auth, {s.conns[id].token}))
  }

  function Severed(s: State, id: Id): State
    requires id in s.conns
  {
    var c := s.conns[id];
    Removed(s.(conns := s.conns[id := Hear(c, AuthFail).(open := false)]), id)
  }

  function Released(env: Env, s: State, id: Id): State
    requires id in s.conns
  {
    var c := s.conns[id];
    if !c.pendingHeld then s
    else s.(conns := s.conns[id := c.(pendingHeld := false)], held := s.held - multiset{env.Host(c.addr)})
  }

  /** The socket's own goroutine ending: its slot back, its session gone. */
  function Left(env: Env, s: State, id: Id): State
    requires id in s.conns
  {
    var t := Released(env, s, id);
    Removed(t.(conns := t.conns[id := t.conns[id].(open := false)]), id)
  }

  function Expired(env: Env, s: State, now: nat): set<Id> {
    set id | id in Audience(s) && !A.IsLive(env.opts, s.auth, s.conns[id].token, now)
  }

  function Tokens(conns: map<Id, Conn>, who: set<Id>): set<A.Token> {
    set id | id in who && id in conns :: conns[id].token
  }

  function Shut(conns: map<Id, Conn>, who: set<Id>): map<Id, Conn> {
    map id | id in conns :: if id in who then Hear(conns[id], AuthFail).(open := false) else conns[id]
  }

  /** Every paired phone whose session has ended: told, closed and let go, all at once. */
  function Swept(env: Env, s: State, now: nat): State {
    var stale := Expired(env, s, now);
    s.(conns := Shut(s.conns, stale), clients := s.clients - stale,
       auth := WithoutSessions(s.auth, Tokens(s.conns, stale)))
  }

  // ---------------------------------------------------------------- pairing

  /** What the message is judged against: the key, once it has been shown to be held. */
  function AuthKey(env: Env, key: string, c: Conn, m: Msg): string
    requires m.Auth?
  {
    if c.serverNonce == "" || !ValidNonce(m.nonce) then REFUSED_KEY
    else if !ProofHolds(env.stretch(key), CLIENT, c.serverNonce, m.nonce, m.encrypt, m.proof) then REFUSED_KEY
    else key
  }

  predicate Judged(m: Msg)
    requires m.Auth?
  {
    m.proof != NoProof && m.encrypt == ENC_CHACHA
  }

  function News(p: Panel): seq<Notice> {
    if p.active then [AlarmActive(p.sensor, p.message)] else []
  }

  /** A socket given a session: an earlier one given back, its slot too, and the phone told. */
  function Accepted(env: Env, s: State, id: Id, nonce: string, key: string, token: A.Token): State
    requires id in s.conns
  {
    var c := s.conns[id];
    s.(conns := s.conns[id := AcceptedConn(env, s.panel, c, nonce, key, token)],
       clients := s.clients + {id},
       auth := Retired(s.auth, c.token, token),
       held := if c.pendingHeld then s.held - multiset{env.Host(c.addr)} else s.held)
  }

  function Retired(a: A.State, earlier: A.Token, token: A.Token): A.State {
    if earlier != "" && earlier != token then WithoutSessions(a, {earlier}) else a
  }

  /** Registered, and everything from here on sealed. */
  function Registered(env: Env, s: State, id: Id, nonce: string, key: string, token: A.Token): State
    requires id in s.conns
  {
    var c := s.conns[id];
    s.(conns := s.conns[id := AcceptedConn(env, s.panel, c, nonce, key, token).(pendingHeld := c.pendingHeld)],
       clients := s.clients + {id})
  }

  /** Being accepted is: the earlier session retired, the slot given back, then registered. */
  lemma AcceptedInSteps(env: Env, s: State, id: Id, nonce: string, key: string, token: A.Token)
    requires id in s.conns
    ensures var t := Released(env, s.(auth := Retired(s.auth, s.conns[id].token, token)), id);
      Registered(env, t, id, nonce, key, token) == Accepted(env, s, id, nonce, key, token)
  {
    var c := s.conns[id];
    UpdatedTwice(s.conns, id, c.(pendingHeld := false), AcceptedConn(env, s.panel, c, nonce, key, token));
  }

  function AcceptedConn(env: Env, p: Panel, c: Conn, nonce: string, key: string, token: A.Token): Conn {
    c.(authenticated := true, token := token, pendingHeld := false,
       seal := Some(S.ToApp(env.stretch(key), c.serverNonce, nonce)),
       told := c.told + [AuthOk(token)] + News(p))
  }

  function Paired(env: Env, s: State, id: Id, m: Msg, v: Verdict): State
    requires id in s.conns && m.Auth? && v.answer.Granted?
  {
    Accepted(env, s.(auth := v.auth), id, m.nonce, s.auth.key, v.answer.token)
  }

  function Authed(env: Env, s: State, id: Id, m: Msg, v: Verdict): State
    requires id in s.conns && m.Auth?
  {
    if !Judged(m) then Sent(s, id, AuthFail)
    else if v.answer.Granted? then Paired(env, s, id, m, v)
    else Sent(s.(auth := v.auth), id, AuthFail)
  }

  // ---------------------------------------------------------------- a paired phone's messages

  function DisarmedWithPin(s: State, v: Verdict): State {
    if !s.settings.PinRequired() then Disarmed(s)
    else if v.answer.Accepted? then Disarmed(s.(auth := v.auth))
    else s.(auth := v.auth)
  }

  function Wanted(enabled: set<string>, want: map<string, bool>): set<string> {
    set n | n in enabled + want.Keys && if n in want then want[n] else n in enabled
  }

  predicate WouldChange(enabled: set<string>, want: map<string, bool>) {
    exists n :: n in want && want[n] != (n in enabled)
  }

  function Configured(s: State, want: map<string, bool>): State {
    if s.panel.armed then Pushed(s, Alert("system"))
    else s.(settings := s.settings.(enabled := Wanted(s.settings.enabled, want)))
  }

  predicate ChangesPin(s: Settings, m: Msg)
    requires m.SaveConfig?
  {
    m.pinEnabled != s.pinEnabled || m.newHash.Some?
  }

  /** The settings a phone saves: the PIN as it asks, the sensors only while disarmed. */
  function Stored(s: State, m: Msg): State
    requires m.SaveConfig?
  {
    var hash := if m.newHash.Some? then m.newHash.value else s.settings.pinHash;
    var refused := s.panel.armed && WouldChange(s.settings.enabled, m.want);
    var enabled := if refused then s.settings.enabled else Wanted(s.settings.enabled, m.want);
    var t := s.(settings := Settings(m.pinEnabled, hash, m.autoArm, enabled));
    if refused then Pushed(t, Alert("system")) else t
  }

  function Saved(s: State, m: Msg, v: Verdict): State
    requires m.SaveConfig?
  {
    if s.settings.PinRequired() && ChangesPin(s.settings, m) then
      if v.answer.Accepted? then Stored(s.(auth := v.auth), m) else s.(auth := v.auth)
    else Stored(s, m)
  }

  function Reset(env: Env, s: State, v: Verdict): State {
    var t := if s.settings.PinRequired() then s.(auth := v.auth) else s;
    if s.settings.PinRequired() && !v.answer.Accepted? then t
    else Defaulted(env, t)
  }

  /** The settings a reset leaves: no PIN, no auto-arming, every sensor watching. */
  function Defaulted(env: Env, s: State): State {
    s.(settings := Settings(false, "", false, s.settings.enabled + env.sensors.Keys))
  }

  /** Whether a paired phone's message needs the PIN, and the PIN it brings. */
  function AsksPin(s: Settings, m: Msg): Option<string> {
    if !s.PinRequired() then None
    else match m
      case DisarmPin(pin) => Some(pin)
      case SaveConfig(_, _, _, _, pin) => if ChangesPin(s, m) then Some(pin) else None
      case ResetConfig(pin) => Some(pin)
      case _ => None
  }

  function Answered(env: Env, s: State, id: Id, m: Msg, now: nat, v: Verdict): State
    requires id in s.conns && !m.Auth?
  {
    match m
    case Auth(_, _, _, _) => s
    case Ping => s
    case Arm => Armed(s)
    case Disarm => if s.settings.PinRequired() then Sent(s, id, NeedPin) else Disarmed(s)
    case DisarmPin(_) =>
      var t := DisarmedWithPin(s, v);
      if s.settings.PinRequired() && !v.answer.Accepted? then Sent(t, id, AuthFail) else t
    case TestAlert => Pushed(s, Alert("test"))
    case TriggerSensor(sensor) => if sensor != "" then Tested(env, s, sensor) else s
    case DismissAlarm => Dismissed(s, now)
    case PauseSensor => SwitchedOff(s)
    case DisableSensor => SwitchedOff(s)
    case Configure(want) => Configured(s, want)
    case SaveConfig(_, _, _, _, _) =>
      var t := Saved(s, m, v);
      if s.settings.PinRequired() && ChangesPin(s.settings, m) && !v.answer.Accepted? then Sent(t, id, NeedPin) else t
    case ResetConfig(_) =>
      var t := Reset(env, s, v);
      if s.settings.PinRequired() && !v.answer.Accepted? then Sent(t, id, NeedPin) else t
  }

  // ---------------------------------------------------------------- any message

  /** Whether the session a message arrives on is still good; pairing has none to check. */
  predicate StillLive(env: Env, s: State, id: Id, m: Msg, now: nat)
    requires id in s.conns
  {
    var c := s.conns[id];
    !c.authenticated || m.Auth? || A.IsLive(env.opts, s.auth, c.token, now)
  }

  function Touched(env: Env, s: State, id: Id, m: Msg, now: nat): State
    requires id in s.conns
  {
    var c := s.conns[id];
    if c.authenticated && !m.Auth? && A.IsLive(env.opts, s.auth, c.token, now)
    then s.(auth := s.auth.(sessions := s.auth.sessions[c.token := s.auth.sessions[c.token].(lastSeen := now)]))
    else s
  }

  function Handled(env: Env, s: State, id: Id, m: Msg, now: nat, allowed: bool, v: Verdict): State
    requires id in s.conns
  {
    if !StillLive(env, s, id, m, now) then Severed(s, id)
    else
      var t := Touched(env, s, id, m, now);
      if !allowed then t
      else if m.Auth? then Authed(env, t, id, m, v)
      else if m.Ping? then t
      else if !t.conns[id].authenticated then Sent(t, id, AuthFail)
      else Answered(env, t, id, m, now, v)
  }

  // ---------------------------------------------------------------- one step

  /** The question an operation puts to the auth manager's guess counter, if any. */
  function Asks(env: Env, s: State, op: Op): Option<A.Op> {
    match op
    case Message(id, m, now, allowed) =>
      if id !in s.conns || !allowed || !StillLive(env, s, id, m, now) then None
      else
        var c := s.conns[id];
        if m.Auth? then
          if Judged(m) then Some(A.Key(env.Host(c.addr), AuthKey(env, s.auth.key, c, m), m.minted, now)) else None
        else if c.authenticated && AsksPin(s.settings, m).Some? then
          Some(A.Pin(env.Host(c.addr), env.pinHolds(AsksPin(s.settings, m).value, s.settings.pinHash), now))
        else None
    case ConsoleDisarm(pin, now) =>
      if s.settings.PinRequired() then Some(A.Pin(env.Host(CONSOLE), env.pinHolds(pin, s.settings.pinHash), now))
      else None
    case _ => None
  }

  /** The state the question is put in. */
  function Asking(env: Env, s: State, op: Op): A.State {
    match op
    case Message(id, m, now, _) => if id in s.conns then Touched(env, s, id, m, now).auth else s.auth
    case _ => s.auth
  }

  /** Nobody has held this token before. */
  predicate Unused(s: State, token: A.Token) {
    && token != "" && token !in s.auth.sessions
    && forall id :: id in s.conns ==> s.conns[id].token != token
  }

  /** The verdict is the auth manager's on the question put, if there is one. */
  ghost predicate AskedRightly(env: Env, s: State, op: Op, v: Verdict)
    requires env.opts.Normal()
  {
    Asks(env, s, op).Some? ==> A.Step(env.opts, Asking(env, s, op), Asks(env, s, op).value, v.answer, v.auth)
  }

  /** An operation that can happen now, with the verdict the auth manager would give. */
  ghost predicate Possible(env: Env, s: State, op: Op, v: Verdict) {
    && env.opts.Normal() && AskedRightly(env, s, op, v)
    && match op
       case Connect(id, _, nonce) => id !in s.conns && ValidNonce(nonce)
       case External(id) => id !in s.conns
       case Message(id, m, _, _) => id in s.conns && s.conns[id].open && (m.Auth? ==> Unused(s, m.minted))
       case Gone(id) => id in s.conns
       case Rotate(key) => A.IsKey(key)
       case _ => true
  }

  /** A connection nothing has happened on yet. */
  function Unpaired(addr: string): Conn {
    Conn(addr, "", true, false, "", false, None, [])
  }

  /** A socket that is let in waits with a slot; one that is not is told and closed. */
  function Connected(env: Env, s: State, id: Id, addr: string, nonce: string): State {
    var h := env.Host(addr);
    if |s.held| < P.MAX_PENDING && s.held[h] < P.MAX_PER_ADDR
    then s.(conns := s.conns[id := Unpaired(addr).(serverNonce := nonce, pendingHeld := true)],
            held := s.held + multiset{h})
    else s.(conns := s.conns[id := Hear(Unpaired(addr), AuthFail).(open := false)])
  }

  function Apply(env: Env, s: State, op: Op, v: Verdict): State
    requires op.Message? || op.Gone? ==> op.id in s.conns
  {
    match op
    case Connect(id, addr, nonce) => Connected(env, s, id, addr, nonce)
    case External(id) =>
      s.(conns := s.conns[id := Unpaired(A.UNKNOWN_ADDR)])
    case Message(id, m, now, allowed) => Handled(env, s, id, m, now, allowed, v)
    case Gone(id) => Left(env, s, id)
    case Heartbeat(now) => Swept(env, s, now)
    case SensorAlert(sensor, message, now) => Dispatched(s, sensor, message, now)
    case ConsoleTest(sensor) => Tested(env, s, sensor)
    case ConsoleArm => Armed(s)
    case RestoreArmed => Armed(s)
    case ConsoleStop => Cleared(s)
    case ConsoleDisarm(_, _) => DisarmedWithPin(s, v)
    case Unpause(sensor) => s.(settings := s.settings.(enabled := s.settings.enabled + {sensor}))
    case Rotate(key) => s.(auth := A.State(key, map[], map[]))
  }

  ghost predicate Step(env: Env, s: State, op: Op, v: Verdict, after: State) {
    Possible(env, s, op, v) && after == Apply(env, s, op, v)
  }

  /** The verdict when nothing was asked. */
  function Unasked(s: State): Verdict {
    Verdict(A.Done, s.auth)
  }

  lemma ShutOneMore(conns: map<Id, Conn>, who: set<Id>, id: Id)
    requires id in conns && id !in who
    ensures Shut(conns, who + {id}) ==
            Shut(conns, who)[id := Hear(Shut(conns, who)[id], AuthFail).(open := false)]
  {
  }

  lemma DroppedTwice(a: A.State, gone: set<A.Token>)
    ensures WithoutSessions(WithoutSessions(a, gone), gone) == WithoutSessions(a, gone)
  {
    assert a.sessions - gone - gone == a.sessions - gone;
  }

  lemma NothingToDrop(a: A.State, token: A.Token)
    requires token !in a.sessions
    ensures WithoutSessions(a, {token}) == a
  {
    assert a.sessions - {token} == a.sessions;
  }

  /** One more phone looked at: it is expired, and among those found, or it is not. */
  lemma ExpiredOneMore(env: Env, s: State, now: nat, rest: set<Id>, id: Id)
    requires id in rest && id in s.clients && id in s.conns
    ensures var expired := s.conns[id].authenticated && !A.IsLive(env.opts, s.auth, s.conns[id].token, now);
      Expired(env, s, now) - (rest - {id}) ==
        if expired then Expired(env, s, now) - rest + {id} else Expired(env, s, now) - rest
  {
  }

  lemma TokensOneMore(s: State, stale: set<Id>, id: Id)
    requires id in s.conns
    ensures WithoutSessions(WithoutSessions(s.auth, Tokens(s.conns, stale)), {s.conns[id].token})
            == WithoutSessions(s.auth, Tokens(s.conns, stale + {id}))
  {
    var gone := Tokens(s.conns, stale);
    assert Tokens(s.conns, stale + {id}) == gone + {s.conns[id].token};
    assert s.auth.sessions - gone - {s.conns[id].token} == s.auth.sessions - (gone + {s.conns[id].token});
  }

  /** Dropping the sessions of other phones found expired does not change what is found of this one. */
  lemma DroppedAlready(env: Env, s: State, stale: set<Id>, id: Id, now: nat)
    requires id in s.conns && stale <= Expired(env, s, now)
    ensures A.IsLive(env.opts, WithoutSessions(s.auth, Tokens(s.conns, stale)), s.conns[id].token, now)
            == A.IsLive(env.opts, s.auth, s.conns[id].token, now)
  {
  }
}
