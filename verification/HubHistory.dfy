/** What the hub keeps true over every run of operations. */
module HubHistory {
  import opened Common
  import opened Handshake
  import opened HubState
  import A = Auth
  import P = Pending
  import S = Session
  import AuthHistory
  import Luhn

  /** A run: the state it starts from, then one operation after another. */
  datatype Trace = Start(first: State) | Then(before: Trace, op: Op, verdict: Verdict, after: State)

  function Last(tr: Trace): State {
    match tr case Start(s) => s case Then(_, _, _, after) => after
  }

  predicate Unstarted(s: State) {
    && s.panel == Panel(false, false, "", "", map[], [])
    && s.conns == map[] && s.clients == {} && s.held == multiset{}
    && s.auth.sessions == map[] && s.auth.byAddr == map[]
  }

  ghost predicate Run(env: Env, tr: Trace) {
    match tr
    case Start(s) => Unstarted(s) && A.IsKey(s.auth.key)
    case Then(before, op, v, after) => Run(env, before) && Step(env, Last(before), op, v, after)
  }

  // ---------------------------------------------------------------- the invariants

  predicate Ringing(siren: seq<Ring>) {
    siren != [] && siren[|siren| - 1] == Trigger
  }

  /** Between two triggers the siren is always told to stop. */
  predicate NeverTwice(siren: seq<Ring>) {
    forall i :: 0 <= i && i + 1 < |siren| && siren[i] == Trigger ==> siren[i + 1] == Dismiss
  }

  predicate AlarmOk(p: Panel) {
    && (p.active ==> p.armed)
    && (!p.active ==> p.sensor == "" && p.message == "")
    && Ringing(p.siren) == p.active
    && NeverTwice(p.siren)
  }

  /** The alarm a phone believes is sounding, from the last it was told of one. */
  function Believes(told: seq<Notice>): Option<(string, string)> {
    if told == [] then None
    else match told[|told| - 1]
      case AlarmActive(sensor, message) => Some((sensor, message))
      case AlarmCleared => None
      case _ => Believes(told[..|told| - 1])
  }

  function Sounding(p: Panel): Option<(string, string)> {
    if p.active then Some((p.sensor, p.message)) else None
  }

  /** Registered phones believe what is so; sockets that never paired believe nothing. */
  ghost predicate NewsOk(s: State) {
    forall id :: id in s.conns ==> NewsFor(s, id)
  }

  ghost predicate NewsFor(s: State, id: Id)
    requires id in s.conns
  {
    && (id in s.clients ==> Believes(s.conns[id].told) == Sounding(s.panel))
    && (!s.conns[id].authenticated ==> Believes(s.conns[id].told) == None)
  }

  /** What one socket looks like on its own. */
  predicate ConnOk(c: Conn) {
    && (c.authenticated ==> c.token != "" && c.seal.Some? && c.serverNonce != "")
    && (!c.authenticated ==> c.token == "" && c.seal.None?)
    && (c.pendingHeld <==> c.open && !c.authenticated && c.serverNonce != "")
  }

  /** Registered sockets are exactly the open paired ones, every token belongs to one socket,
      and every session to a registered one. */
  ghost predicate Owners(s: State) {
    && s.clients <= s.conns.Keys
    && (forall id :: id in s.conns ==> ConnOk(s.conns[id]))
    && (forall id :: id in s.conns ==> (id in s.clients <==> s.conns[id].open && s.conns[id].authenticated))
    && (forall i, j :: i in s.conns && j in s.conns && i != j && s.conns[i].token != "" ==>
          s.conns[i].token != s.conns[j].token)
    && (forall t :: t in s.auth.sessions ==> exists id :: id in s.clients && s.conns[id].token == t)
  }

  function Holders(conns: map<Id, Conn>): set<Id> {
    set id | id in conns && conns[id].pendingHeld
  }

  function HoldersAt(env: Env, conns: map<Id, Conn>, h: string): set<Id> {
    set id | id in conns && conns[id].pendingHeld && env.Host(conns[id].addr) == h
  }

  /** The slots counted are those held, address by address and in all, and both caps hold. */
  ghost predicate Slots(env: Env, conns: map<Id, Conn>, held: multiset<string>) {
    && |held| == |Holders(conns)| <= P.MAX_PENDING
    && forall h :: SlotsAt(env, conns, held, h)
  }

  ghost predicate SlotsAt(env: Env, conns: map<Id, Conn>, held: multiset<string>, h: string) {
    held[h] == |HoldersAt(env, conns, h)| <= P.MAX_PER_ADDR
  }

  ghost predicate Inv(env: Env, s: State) {
    AlarmOk(s.panel) && NewsOk(s) && Owners(s) && Slots(env, s.conns, s.held) && A.IsKey(s.auth.key)
  }

  // ---------------------------------------------------------------- operations that only say things

  function Core(c: Conn): Conn {
    c.(told := [])
  }

  /** Nothing but what has been said, the panel and the settings changed; no session was added. */
  ghost predicate Beside(s: State, t: State) {
    && t.clients == s.clients && t.held == s.held && t.auth.key == s.auth.key
    && t.conns.Keys == s.conns.Keys
    && (forall id :: id in s.conns ==> Core(t.conns[id]) == Core(s.conns[id]))
    && t.auth.sessions.Keys <= s.auth.sessions.Keys
  }

  lemma BesideOwners(s: State, t: State)
    requires Owners(s) && Beside(s, t)
    ensures Owners(t)
  {
    forall id | id in s.conns
      ensures t.conns[id].token == s.conns[id].token && ConnOk(t.conns[id])
      ensures t.conns[id].open == s.conns[id].open && t.conns[id].authenticated == s.conns[id].authenticated
    {
      assert Core(t.conns[id]) == Core(s.conns[id]);
    }
    forall k | k in t.auth.sessions
      ensures exists id :: id in t.clients && t.conns[id].token == k
    {
      var id :| id in s.clients && s.conns[id].token == k;
      assert t.conns[id].token == k;
    }
  }

  lemma BesideSlots(env: Env, s: State, t: State)
    requires Slots(env, s.conns, s.held) && Beside(s, t)
    ensures Slots(env, t.conns, t.held)
  {
    forall id | id in s.conns
      ensures t.conns[id].pendingHeld == s.conns[id].pendingHeld && t.conns[id].addr == s.conns[id].addr
    {
      assert Core(t.conns[id]) == Core(s.conns[id]);
    }
    assert Holders(t.conns) == Holders(s.conns);
    forall h
      ensures SlotsAt(env, t.conns, t.held, h)
    {
      assert SlotsAt(env, s.conns, s.held, h);
      assert HoldersAt(env, t.conns, h) == HoldersAt(env, s.conns, h);
    }
  }

  lemma HeardNews(told: seq<Notice>, n: Notice)
    ensures Believes(told + [n]) ==
            match n case AlarmActive(a, b) => Some((a, b)) case AlarmCleared => None case _ => Believes(told)
  {
    assert (told + [n])[..|told|] == told;
  }

  lemma PushedBeside(s: State, n: Notice)
    ensures Beside(s, Pushed(s, n))
  {
  }

  /** What a push leaves every registered phone believing. */
  lemma PushedNews(s: State, n: Notice, id: Id)
    requires Owners(s) && id in s.clients
    ensures Believes(Pushed(s, n).conns[id].told) ==
            match n case AlarmActive(a, b) => Some((a, b)) case AlarmCleared => None
                    case _ => Believes(s.conns[id].told)
  {
    HeardNews(s.conns[id].told, n);
  }

  predicate IsNews(n: Notice) {
    n.AlarmActive? || n.AlarmCleared?
  }

  lemma QuietPush(s: State, n: Notice)
    requires Owners(s) && NewsOk(s) && !IsNews(n)
    ensures NewsOk(Pushed(s, n)) && Beside(s, Pushed(s, n))
  {
    PushedBeside(s, n);
    forall id | id in s.conns
      ensures NewsFor(Pushed(s, n), id)
    {
      if id in s.clients {
        PushedNews(s, n, id);
      }
    }
  }

  ghost predicate StrangersBelieveNothing(s: State) {
    forall id :: id in s.conns && !s.conns[id].authenticated ==> Believes(s.conns[id].told) == None
  }

  /** Whatever they believed, phones told of the alarm as it now stands all agree with it. */
  lemma NewsPush(s: State, n: Notice)
    requires Owners(s) && StrangersBelieveNothing(s)
    requires if s.panel.active then n == AlarmActive(s.panel.sensor, s.panel.message) else n == AlarmCleared
    ensures NewsOk(Pushed(s, n)) && Beside(s, Pushed(s, n))
  {
    PushedBeside(s, n);
    forall id | id in s.conns
      ensures NewsFor(Pushed(s, n), id)
    {
      if id in s.clients {
        PushedNews(s, n, id);
      }
    }
  }

  lemma QuietSend(s: State, id: Id, n: Notice)
    requires NewsOk(s) && id in s.conns && !IsNews(n)
    ensures NewsOk(Sent(s, id, n)) && Beside(s, Sent(s, id, n))
  {
    HeardNews(s.conns[id].told, n);
  }

  lemma BesideInv(env: Env, s: State, t: State)
    requires Inv(env, s) && Beside(s, t) && AlarmOk(t.panel) && NewsOk(t)
    ensures Inv(env, t)
  {
    BesideOwners(s, t);
    BesideSlots(env, s, t);
  }

  // ---------------------------------------------------------------- the alarm

  /** Stopping the alarm: nobody believes in one any more, and the siren is told. */
  lemma ClearedKeeps(s: State)
    requires Owners(s) && StrangersBelieveNothing(s) && NeverTwice(s.panel.siren)
    ensures AlarmOk(Cleared(s).panel) && NewsOk(Cleared(s)) && Beside(s, Cleared(s))
  {
    var t := Rang(s.(panel := s.panel.(active := false, sensor := "", message := "")), Dismiss);
    BesideOwners(s, t);
    NewsPush(t, AlarmCleared);
  }

  /** Raising it, from a silent armed machine. */
  lemma RaisedKeeps(s: State, sensor: string, message: string)
    requires Owners(s) && NewsOk(s) && AlarmOk(s.panel) && s.panel.armed && !s.panel.active
    ensures var t := Pushed(Rang(Claimed(s, sensor, message), Trigger), AlarmActive(sensor, message));
      AlarmOk(t.panel) && NewsOk(t) && Beside(s, t)
  {
    var t := Rang(Claimed(s, sensor, message), Trigger);
    BesideOwners(s, t);
    NewsPush(t, AlarmActive(sensor, message));
  }

  lemma AlarmedKeeps(s: State, sensor: string, message: string, now: nat)
    requires Owners(s) && AlarmOk(s.panel) && NewsOk(s) && s.panel.armed
    ensures var t := Alarmed(s, sensor, message, now); AlarmOk(t.panel) && NewsOk(t) && Beside(s, t)
  {
    var free := s.(panel := s.panel.(suppressed := s.panel.suppressed - {sensor}));
    FreedKeeps(s, free);
    if !s.panel.active && !(sensor in s.panel.suppressed && now < s.panel.suppressed[sensor]) {
      var t := Pushed(free, Alert(sensor));
      assert Pushed(Claimed(free, sensor, message), Alert(sensor)) == Claimed(t, sensor, message);
      QuietPush(free, Alert(sensor));
      BesideOwners(free, t);
      RaisedKeeps(t, sensor, message);
    }
  }

  lemma FreedKeeps(s: State, t: State)
    requires Owners(s) && NewsOk(s)
    requires t == s.(panel := s.panel.(suppressed := t.panel.suppressed))
    ensures Owners(t) && NewsOk(t) && Beside(s, t)
  {
    assert forall id :: id in t.conns ==> NewsFor(s, id);
  }

  lemma DispatchedKeeps(s: State, sensor: string, message: string, now: nat)
    requires Owners(s) && AlarmOk(s.panel) && NewsOk(s)
    ensures var t := Dispatched(s, sensor, message, now); AlarmOk(t.panel) && NewsOk(t) && Beside(s, t)
  {
    var auto := AutoArmed(s, sensor, message);
    if auto.Some? {
      if auto.value == Armed(s) {
      } else {
        ClearedKeeps(s.(panel := s.panel.(armed := false)));
      }
    } else if s.panel.armed {
      AlarmedKeeps(s, sensor, message, now);
    }
  }

  lemma TestedKeeps(env: Env, s: State, sensor: string)
    requires Owners(s) && AlarmOk(s.panel) && NewsOk(s)
    ensures var t := Tested(env, s, sensor); AlarmOk(t.panel) && NewsOk(t) && Beside(s, t)
  {
    if sensor in env.sensors && env.sensors[sensor] != "" {
      QuietPush(s, Alert(sensor));
      var t := Pushed(s, Alert(sensor));
      BesideOwners(s, t);
      if t.panel.armed && !t.panel.active {
        RaisedKeeps(t, sensor, env.sensors[sensor] + " triggered (manual test)");
      }
    }
  }

  // ---------------------------------------------------------------- slots

  lemma HoldersUpdated(conns: map<Id, Conn>, id: Id, c: Conn)
    ensures Holders(conns[id := c]) == if c.pendingHeld then Holders(conns) + {id} else Holders(conns) - {id}
  {
  }

  lemma HoldersAtUpdated(env: Env, conns: map<Id, Conn>, id: Id, c: Conn, h: string)
    ensures HoldersAt(env, conns[id := c], h) ==
            if c.pendingHeld && env.Host(c.addr) == h then HoldersAt(env, conns, h) + {id}
            else HoldersAt(env, conns, h) - {id}
  {
  }

  /** A socket that neither had a slot nor gets one. */
  lemma SlotsKept(env: Env, conns: map<Id, Conn>, held: multiset<string>, id: Id, c: Conn)
    requires Slots(env, conns, held) && !c.pendingHeld && (id in conns ==> !conns[id].pendingHeld)
    ensures Slots(env, conns[id := c], held)
  {
    HoldersUpdated(conns, id, c);
    assert Holders(conns) - {id} == Holders(conns);
    var after := conns[id := c];
    forall h
      ensures SlotsAt(env, after, held, h)
    {
      assert SlotsAt(env, conns, held, h);
      SlotsKeptAt(env, conns, held, id, c, h);
    }
  }

  lemma SlotsKeptAt(env: Env, conns: map<Id, Conn>, held: multiset<string>, id: Id, c: Conn, h: string)
    requires SlotsAt(env, conns, held, h) && !c.pendingHeld && (id in conns ==> !conns[id].pendingHeld)
    ensures SlotsAt(env, conns[id := c], held, h)
  {
    HoldersAtUpdated(env, conns, id, c, h);
    assert HoldersAt(env, conns, h) - {id} == HoldersAt(env, conns, h);
  }

  lemma SlotTaken(env: Env, conns: map<Id, Conn>, held: multiset<string>, id: Id, c: Conn)
    requires Slots(env, conns, held) && id !in conns && c.pendingHeld
    requires |held| < P.MAX_PENDING && held[env.Host(c.addr)] < P.MAX_PER_ADDR
    ensures Slots(env, conns[id := c], held + multiset{env.Host(c.addr)})
  {
    HoldersUpdated(conns, id, c);
    var after, more := conns[id := c], held + multiset{env.Host(c.addr)};
    forall h
      ensures SlotsAt(env, after, more, h)
    {
      assert SlotsAt(env, conns, held, h);
      SlotTakenAt(env, conns, held, id, c, h);
    }
  }

  lemma SlotTakenAt(env: Env, conns: map<Id, Conn>, held: multiset<string>, id: Id, c: Conn, h: string)
    requires SlotsAt(env, conns, held, h) && id !in conns && c.pendingHeld
    requires held[env.Host(c.addr)] < P.MAX_PER_ADDR
    ensures SlotsAt(env, conns[id := c], held + multiset{env.Host(c.addr)}, h)
  {
    HoldersAtUpdated(env, conns, id, c, h);
    assert HoldersAt(env, conns, h) - {id} == HoldersAt(env, conns, h);
  }

  /** A holder's address is among those counted. */
  lemma HolderCounted(env: Env, conns: map<Id, Conn>, held: multiset<string>, id: Id)
    requires Slots(env, conns, held) && id in conns && conns[id].pendingHeld
    ensures env.Host(conns[id].addr) in held
  {
    var h := env.Host(conns[id].addr);
    assert SlotsAt(env, conns, held, h);
    assert id in HoldersAt(env, conns, h);
  }

  lemma SlotGivenBack(env: Env, conns: map<Id, Conn>, held: multiset<string>, id: Id, c: Conn)
    requires Slots(env, conns, held) && id in conns && conns[id].pendingHeld
    requires !c.pendingHeld && c.addr == conns[id].addr
    ensures Slots(env, conns[id := c], held - multiset{env.Host(c.addr)})
  {
    HolderCounted(env, conns, held, id);
    HoldersUpdated(conns, id, c);
    var after, less := conns[id := c], held - multiset{env.Host(c.addr)};
    forall h
      ensures SlotsAt(env, after, less, h)
    {
      assert SlotsAt(env, conns, held, h);
      SlotGivenBackAt(env, conns, held, id, c, h);
    }
  }

  lemma SlotGivenBackAt(env: Env, conns: map<Id, Conn>, held: multiset<string>, id: Id, c: Conn, h: string)
    requires SlotsAt(env, conns, held, h) && id in conns && conns[id].pendingHeld
    requires !c.pendingHeld && c.addr == conns[id].addr
    ensures SlotsAt(env, conns[id := c], held - multiset{env.Host(c.addr)}, h)
  {
    HoldersAtUpdated(env, conns, id, c, h);
    if h != env.Host(c.addr) {
      assert HoldersAt(env, conns, h) - {id} == HoldersAt(env, conns, h);
    } else {
      assert id in HoldersAt(env, conns, h);
    }
  }

  // ---------------------------------------------------------------- arriving and leaving

  lemma ArrivedKeeps(s: State, id: Id, c: Conn)
    requires Owners(s) && NewsOk(s) && id !in s.conns
    requires ConnOk(c) && !c.authenticated && Believes(c.told) == None
    ensures Owners(s.(conns := s.conns[id := c])) && NewsOk(s.(conns := s.conns[id := c]))
  {
    var t := s.(conns := s.conns[id := c]);
    forall k | k in t.auth.sessions
      ensures exists j :: j in t.clients && t.conns[j].token == k
    {
      var j :| j in s.clients && s.conns[j].token == k;
      assert t.conns[j].token == k;
    }
  }

  /** Who holds slots is nothing to owners or news. */
  lemma HeldAside(s: State, t: State)
    requires Owners(s) && NewsOk(s) && t == s.(held := t.held)
    ensures Owners(t) && NewsOk(t)
  {
    SameNews(s, t);
  }

  lemma ConnectedKeeps(env: Env, s: State, id: Id, addr: string, nonce: string)
    requires Inv(env, s) && id !in s.conns && ValidNonce(nonce)
    ensures Inv(env, Connected(env, s, id, addr, nonce))
  {
    var t := Connected(env, s, id, addr, nonce);
    ArrivedKeeps(s, id, t.conns[id]);
    HeldAside(s.(conns := t.conns), t);
    if t.conns[id].pendingHeld {
      SlotTaken(env, s.conns, s.held, id, t.conns[id]);
    } else {
      SlotsKept(env, s.conns, s.held, id, t.conns[id]);
    }
  }

  /** A socket leaving, for any reason, takes its session with it and nobody else's. */
  lemma RemovedKeeps(s: State, id: Id, c: Conn)
    requires Owners(s) && NewsOk(s) && id in s.conns
    requires ConnOk(c) && !c.open && c.token == s.conns[id].token && c.authenticated == s.conns[id].authenticated
    requires c.authenticated || c.told == s.conns[id].told
    ensures var t := Removed(s.(conns := s.conns[id := c]), id); Owners(t) && NewsOk(t)
  {
    var t := Removed(s.(conns := s.conns[id := c]), id);
    forall k | k in t.auth.sessions
      ensures exists j :: j in t.clients && t.conns[j].token == k
    {
      var j :| j in s.clients && s.conns[j].token == k;
      assert j != id && t.conns[j].token == k;
    }
  }

  lemma SeveredKeeps(env: Env, s: State, id: Id)
    requires Inv(env, s) && id in s.clients
    ensures Inv(env, Severed(s, id))
  {
    var c := Hear(s.conns[id], AuthFail).(open := false);
    RemovedKeeps(s, id, c);
    SlotsKept(env, s.conns, s.held, id, c);
  }

  lemma LeftKeeps(env: Env, s: State, id: Id)
    requires Inv(env, s) && id in s.conns
    ensures Inv(env, Left(env, s, id))
  {
    var c := s.conns[id].(open := false, pendingHeld := false);
    RemovedKeeps(s, id, c);
    HeldAside(Removed(s.(conns := s.conns[id := c]), id), Left(env, s, id));
    if s.conns[id].pendingHeld {
      SlotGivenBack(env, s.conns, s.held, id, c);
    } else {
      SlotsKept(env, s.conns, s.held, id, c);
    }
  }

  lemma SweptOwners(env: Env, s: State, now: nat)
    requires Owners(s)
    ensures Owners(Swept(env, s, now))
  {
    var stale, t := Expired(env, s, now), Swept(env, s, now);
    forall k | k in t.auth.sessions
      ensures exists j :: j in t.clients && t.conns[j].token == k
    {
      var j :| j in s.clients && s.conns[j].token == k;
      assert j !in stale && t.conns[j].token == k;
    }
  }

  lemma ShutSlots(env: Env, conns: map<Id, Conn>, held: multiset<string>, who: set<Id>)
    requires Slots(env, conns, held)
    ensures Slots(env, Shut(conns, who), held)
  {
    assert Holders(Shut(conns, who)) == Holders(conns);
    forall h
      ensures SlotsAt(env, Shut(conns, who), held, h)
    {
      assert SlotsAt(env, conns, held, h);
      assert HoldersAt(env, Shut(conns, who), h) == HoldersAt(env, conns, h);
    }
  }

  lemma SweptKeeps(env: Env, s: State, now: nat)
    requires Inv(env, s)
    ensures Inv(env, Swept(env, s, now))
  {
    var t := Swept(env, s, now);
    SweptOwners(env, s, now);
    ShutSlots(env, s.conns, s.held, Expired(env, s, now));
    forall j | j in t.conns
      ensures NewsFor(t, j)
    {
      assert NewsFor(s, j);
    }
  }

  // ---------------------------------------------------------------- pairing

  /** The digits of a key are the key: there are no dashes in one to strip. */
  lemma {:induction false} NothingToStrip(s: string)
    requires Luhn.AllDigits(s)
    ensures A.StripDashes(s) == s
  {
    if s != "" {
      NothingToStrip(s[..|s| - 1]);
    }
  }

  /** The verdict on a granted pairing: who proved what, and what the table holds after. */
  lemma GrantMeans(env: Env, s: State, id: Id, m: Msg, now: nat, v: Verdict)
    requires A.IsKey(s.auth.key) && env.opts.Normal() && id in s.conns && m.Auth?
    requires v.answer.Granted?
    requires A.Step(env.opts, s.auth,
      A.Key(env.Host(s.conns[id].addr), AuthKey(env, s.auth.key, s.conns[id], m), m.minted, now), v.answer, v.auth)
    ensures v.answer.token == m.minted && v.auth.key == s.auth.key
    ensures v.auth.sessions.Keys <= s.auth.sessions.Keys + {m.minted}
    ensures s.conns[id].serverNonce != "" && ValidNonce(m.nonce)
    ensures ProofHolds(env.stretch(s.auth.key), CLIENT, s.conns[id].serverNonce, m.nonce, m.encrypt, m.proof)
  {
    assert A.StripDashes(REFUSED_KEY) == "";
  }

  lemma PairedOwners(s: State, t: State, id: Id, c: Conn)
    requires Owners(s) && id in s.conns && s.conns[id].open
    requires ConnOk(c) && c.open && c.authenticated && Unused(s, c.token)
    requires t.conns == s.conns[id := c] && t.clients == s.clients + {id}
    requires t.auth.sessions.Keys <= s.auth.sessions.Keys + {c.token} - {s.conns[id].token}
    ensures Owners(t)
  {
    forall k | k in t.auth.sessions
      ensures exists j :: j in t.clients && t.conns[j].token == k
    {
      if k == c.token {
        assert t.conns[id].token == k;
      } else {
        var j :| j in s.clients && s.conns[j].token == k;
        assert j != id && t.conns[j].token == k;
      }
    }
  }

  /** A phone that pairs into a sounding alarm is told of it; told of a calm one, it
      keeps what it believed. */
  lemma PairedNews(s: State, id: Id, token: A.Token)
    requires Owners(s) && AlarmOk(s.panel) && NewsOk(s) && id in s.conns
    requires s.conns[id].open
    ensures Believes(s.conns[id].told + [AuthOk(token)] + News(s.panel)) == Sounding(s.panel)
  {
    var told := s.conns[id].told;
    assert NewsFor(s, id);
    HeardNews(told, AuthOk(token));
    if s.panel.active {
      HeardNews(told + [AuthOk(token)], AlarmActive(s.panel.sensor, s.panel.message));
    } else {
      assert told + [AuthOk(token)] + News(s.panel) == told + [AuthOk(token)];
    }
  }

  lemma AcceptedNews(env: Env, s: State, id: Id, nonce: string, key: string, token: A.Token)
    requires Owners(s) && AlarmOk(s.panel) && NewsOk(s) && id in s.conns && s.conns[id].open
    ensures NewsOk(Accepted(env, s, id, nonce, key, token))
  {
    var t := Accepted(env, s, id, nonce, key, token);
    PairedNews(s, id, token);
    forall j | j in t.conns
      ensures NewsFor(t, j)
    {
      assert j in s.conns && NewsFor(s, j);
    }
  }

  lemma PairedKeeps(env: Env, s: State, id: Id, m: Msg, now: nat, v: Verdict)
    requires Inv(env, s) && env.opts.Normal() && id in s.conns && s.conns[id].open && m.Auth?
    requires v.answer.Granted? && Unused(s, m.minted)
    requires A.Step(env.opts, s.auth,
      A.Key(env.Host(s.conns[id].addr), AuthKey(env, s.auth.key, s.conns[id], m), m.minted, now), v.answer, v.auth)
    ensures Inv(env, Paired(env, s, id, m, v))
  {
    var t := Paired(env, s, id, m, v);
    GrantMeans(env, s, id, m, now, v);
    PairedOwners(s, t, id, t.conns[id]);
    AcceptedNews(env, s, id, m.nonce, s.auth.key, m.minted);
    SameNews(Accepted(env, s, id, m.nonce, s.auth.key, m.minted), t);
    if s.conns[id].pendingHeld {
      SlotGivenBack(env, s.conns, s.held, id, t.conns[id]);
    } else {
      SlotsKept(env, s.conns, s.held, id, t.conns[id]);
    }
  }

  lemma SameNews(s: State, t: State)
    requires NewsOk(s) && t.panel == s.panel && t.conns == s.conns && t.clients == s.clients
    ensures NewsOk(t)
  {
    assert forall j :: j in t.conns ==> NewsFor(s, j);
  }

  lemma AuthedKeeps(env: Env, s: State, id: Id, m: Msg, now: nat, v: Verdict)
    requires Inv(env, s) && env.opts.Normal() && id in s.conns && s.conns[id].open && m.Auth? && Unused(s, m.minted)
    requires Judged(m) ==> A.Step(env.opts, s.auth,
      A.Key(env.Host(s.conns[id].addr), AuthKey(env, s.auth.key, s.conns[id], m), m.minted, now), v.answer, v.auth)
    ensures Inv(env, Authed(env, s, id, m, v))
  {
    if !Judged(m) {
      SaidKeeps(env, s, s, id, AuthFail);
    } else if v.answer.Granted? {
      PairedKeeps(env, s, id, m, now, v);
    } else {
      SaidKeeps(env, s, s.(auth := v.auth), id, AuthFail);
    }
  }

  /** Something told to one socket, with sessions only going. */
  lemma SaidKeeps(env: Env, s: State, t: State, id: Id, n: Notice)
    requires Inv(env, s) && id in s.conns && !IsNews(n)
    requires t == s.(auth := t.auth) && t.auth.key == s.auth.key && t.auth.sessions.Keys <= s.auth.sessions.Keys
    ensures Inv(env, t) && Inv(env, Sent(t, id, n))
  {
    assert forall j :: j in t.conns ==> NewsFor(s, j);
    BesideInv(env, s, t);
    QuietSend(t, id, n);
    BesideInv(env, t, Sent(t, id, n));
  }

  // ---------------------------------------------------------------- a paired phone's messages

  lemma ClearedInv(env: Env, s: State, t: State)
    requires Inv(env, s) && t == Cleared(s.(panel := s.panel.(armed := t.panel.armed)))
    ensures Inv(env, t)
  {
    var u := s.(panel := s.panel.(armed := t.panel.armed));
    assert forall j :: j in s.conns ==> NewsFor(s, j);
    ClearedKeeps(u);
    BesideInv(env, s, t);
  }

  lemma ArmedInv(env: Env, s: State)
    requires Inv(env, s)
    ensures Inv(env, Armed(s))
  {
    assert forall j :: j in s.conns ==> NewsFor(s, j);
    BesideInv(env, s, Armed(s));
  }

  lemma SettingsInv(env: Env, s: State, settings: Settings)
    requires Inv(env, s)
    ensures Inv(env, s.(settings := settings))
  {
    assert forall j :: j in s.conns ==> NewsFor(s, j);
    BesideInv(env, s, s.(settings := settings));
  }

  lemma SuppressedInv(env: Env, s: State, t: State)
    requires Inv(env, s) && t == s.(panel := s.panel.(suppressed := t.panel.suppressed))
    ensures Inv(env, t)
  {
    FreedKeeps(s, t);
    BesideInv(env, s, t);
  }

  lemma PushedInv(env: Env, s: State, n: Notice)
    requires Inv(env, s) && !IsNews(n)
    ensures Inv(env, Pushed(s, n))
  {
    QuietPush(s, n);
    BesideInv(env, s, Pushed(s, n));
  }

  lemma SentInv(env: Env, s: State, id: Id, n: Notice)
    requires Inv(env, s) && id in s.conns && !IsNews(n)
    ensures Inv(env, Sent(s, id, n))
  {
    SaidKeeps(env, s, s, id, n);
  }

  /** The auth manager only counting a guess. */
  predicate OnlyCounted(s: State, v: Verdict) {
    v.auth.key == s.auth.key && v.auth.sessions == s.auth.sessions
  }

  lemma CountedInv(env: Env, s: State, v: Verdict)
    requires Inv(env, s) && OnlyCounted(s, v)
    ensures Inv(env, s.(auth := v.auth))
  {
    assert forall j :: j in s.conns ==> NewsFor(s, j);
    BesideInv(env, s, s.(auth := v.auth));
  }

  lemma DisarmedWithPinInv(env: Env, s: State, v: Verdict)
    requires Inv(env, s) && (s.settings.PinRequired() ==> OnlyCounted(s, v))
    ensures Inv(env, DisarmedWithPin(s, v)) && DisarmedWithPin(s, v).conns.Keys == s.conns.Keys
  {
    var u := if s.settings.PinRequired() then s.(auth := v.auth) else s;
    if s.settings.PinRequired() {
      CountedInv(env, s, v);
    }
    ClearedInv(env, u, Disarmed(u));
  }

  lemma SavedInv(env: Env, s: State, m: Msg, v: Verdict)
    requires Inv(env, s) && m.SaveConfig?
    requires s.settings.PinRequired() && ChangesPin(s.settings, m) ==> OnlyCounted(s, v)
    ensures Inv(env, Saved(s, m, v)) && Saved(s, m, v).conns.Keys == s.conns.Keys
  {
    if s.settings.PinRequired() && ChangesPin(s.settings, m) {
      CountedInv(env, s, v);
      if v.answer.Accepted? {
        StoredInv(env, s.(auth := v.auth), m);
      }
    } else {
      StoredInv(env, s, m);
    }
  }

  lemma StoredInv(env: Env, s: State, m: Msg)
    requires Inv(env, s) && m.SaveConfig?
    ensures Inv(env, Stored(s, m)) && Stored(s, m).conns.Keys == s.conns.Keys
  {
    var u := s.(settings := Stored(s, m).settings);
    SettingsInv(env, s, u.settings);
    PushedInv(env, u, Alert("system"));
  }

  lemma ResetInv(env: Env, s: State, v: Verdict)
    requires Inv(env, s) && (s.settings.PinRequired() ==> OnlyCounted(s, v))
    ensures Inv(env, Reset(env, s, v)) && Reset(env, s, v).conns.Keys == s.conns.Keys
  {
    var t := if s.settings.PinRequired() then s.(auth := v.auth) else s;
    if s.settings.PinRequired() {
      CountedInv(env, s, v);
    }
    SettingsInv(env, t, Reset(env, s, v).settings);
  }

  predicate BringsPin(m: Msg) {
    m.DisarmPin? || m.SaveConfig? || m.ResetConfig?
  }

  /** What a message with a PIN does, before the phone is told of a refusal. */
  function PinOutcome(env: Env, s: State, m: Msg, v: Verdict): State
    requires BringsPin(m)
  {
    if m.DisarmPin? then DisarmedWithPin(s, v) else if m.SaveConfig? then Saved(s, m, v) else Reset(env, s, v)
  }

  lemma PinOutcomeInv(env: Env, s: State, m: Msg, v: Verdict)
    requires Inv(env, s) && BringsPin(m)
    requires AsksPin(s.settings, m).Some? ==> OnlyCounted(s, v)
    ensures Inv(env, PinOutcome(env, s, m, v)) && PinOutcome(env, s, m, v).conns.Keys == s.conns.Keys
  {
    if m.DisarmPin? {
      DisarmedWithPinInv(env, s, v);
    } else if m.SaveConfig? {
      SavedInv(env, s, m, v);
    } else {
      ResetInv(env, s, v);
    }
  }

  lemma PinAnswer(env: Env, s: State, id: Id, m: Msg, now: nat, v: Verdict)
    requires id in s.conns && BringsPin(m) && id in PinOutcome(env, s, m, v).conns
    ensures var t := PinOutcome(env, s, m, v); var r := Answered(env, s, id, m, now, v);
      r == t || r == Sent(t, id, AuthFail) || r == Sent(t, id, NeedPin)
  {
  }

  lemma PinAnsweredKeeps(env: Env, s: State, id: Id, m: Msg, now: nat, v: Verdict)
    requires Inv(env, s) && id in s.conns && BringsPin(m)
    requires AsksPin(s.settings, m).Some? ==> OnlyCounted(s, v)
    ensures Inv(env, Answered(env, s, id, m, now, v))
  {
    PinOutcomeInv(env, s, m, v);
    PinAnswer(env, s, id, m, now, v);
    SentInvs(env, PinOutcome(env, s, m, v), id, Answered(env, s, id, m, now, v));
  }

  lemma SentInvs(env: Env, t: State, id: Id, r: State)
    requires Inv(env, t) && id in t.conns
    requires r == t || r == Sent(t, id, AuthFail) || r == Sent(t, id, NeedPin)
    ensures Inv(env, r)
  {
    if r == Sent(t, id, AuthFail) {
      SentInv(env, t, id, AuthFail);
    } else if r == Sent(t, id, NeedPin) {
      SentInv(env, t, id, NeedPin);
    }
  }

  lemma SwitchedOffInv(env: Env, s: State)
    requires Inv(env, s)
    ensures Inv(env, SwitchedOff(s))
  {
    ClearedInv(env, s, Cleared(s));
    SettingsInv(env, Cleared(s), SwitchedOff(s).settings);
  }

  lemma DismissedInv(env: Env, s: State, now: nat)
    requires Inv(env, s)
    ensures Inv(env, Dismissed(s, now))
  {
    ClearedInv(env, s, Cleared(s));
    SuppressedInv(env, Cleared(s), Dismissed(s, now));
  }

  lemma DispatchedInv(env: Env, s: State, sensor: string, message: string, now: nat)
    requires Inv(env, s)
    ensures Inv(env, Dispatched(s, sensor, message, now))
  {
    DispatchedKeeps(s, sensor, message, now);
    BesideInv(env, s, Dispatched(s, sensor, message, now));
  }

  lemma TestedInv(env: Env, s: State, sensor: string)
    requires Inv(env, s)
    ensures Inv(env, Tested(env, s, sensor))
  {
    TestedKeeps(env, s, sensor);
    BesideInv(env, s, Tested(env, s, sensor));
  }

  lemma ConfiguredInv(env: Env, s: State, want: map<string, bool>)
    requires Inv(env, s)
    ensures Inv(env, Configured(s, want))
  {
    PushedInv(env, s, Alert("system"));
    SettingsInv(env, s, Configured(s, want).settings);
  }

  lemma DisarmAskedInv(env: Env, s: State, id: Id)
    requires Inv(env, s) && id in s.conns
    ensures Inv(env, if s.settings.PinRequired() then Sent(s, id, NeedPin) else Disarmed(s))
  {
    SentInv(env, s, id, NeedPin);
    ClearedInv(env, s, Disarmed(s));
  }

  predicate AnswersAlarm(m: Msg) {
    m.DismissAlarm? || m.PauseSensor? || m.DisableSensor?
  }

  lemma AlarmAnsweredKeeps(env: Env, s: State, id: Id, m: Msg, now: nat, v: Verdict)
    requires Inv(env, s) && id in s.conns && AnswersAlarm(m)
    ensures Inv(env, Answered(env, s, id, m, now, v))
  {
    if m.DismissAlarm? {
      assert Answered(env, s, id, m, now, v) == Dismissed(s, now);
      DismissedInv(env, s, now);
    } else {
      assert Answered(env, s, id, m, now, v) == SwitchedOff(s);
      SwitchedOffInv(env, s);
    }
  }

  lemma AnsweredKeeps(env: Env, s: State, id: Id, m: Msg, now: nat, v: Verdict)
    requires Inv(env, s) && id in s.conns && !m.Auth? && !BringsPin(m) && !AnswersAlarm(m)
    ensures Inv(env, Answered(env, s, id, m, now, v))
  {
    match m
    case Ping =>
    case Arm => ArmedInv(env, s);
    case Disarm => DisarmAskedInv(env, s, id);
    case TestAlert => PushedInv(env, s, Alert("test"));
    case TriggerSensor(sensor) => TestedInv(env, s, sensor);
    case Configure(want) => ConfiguredInv(env, s, want);
  }

  // ---------------------------------------------------------------- every step

  lemma TouchedInv(env: Env, s: State, id: Id, m: Msg, now: nat)
    requires Inv(env, s) && id in s.conns
    ensures var t := Touched(env, s, id, m, now);
      Inv(env, t) && t == s.(auth := t.auth) && t.auth.sessions.Keys == s.auth.sessions.Keys
  {
    var t := Touched(env, s, id, m, now);
    assert forall j :: j in s.conns ==> NewsFor(s, j);
    BesideInv(env, s, t);
  }

  lemma HandledKeeps(env: Env, s: State, id: Id, m: Msg, now: nat, allowed: bool, v: Verdict)
    requires Inv(env, s) && Possible(env, s, Message(id, m, now, allowed), v)
    ensures Inv(env, Handled(env, s, id, m, now, allowed, v))
  {
    var t := Touched(env, s, id, m, now);
    TouchedInv(env, s, id, m, now);
    if !StillLive(env, s, id, m, now) {
      SeveredKeeps(env, s, id);
    } else if allowed {
      if m.Auth? {
        AuthedKeeps(env, t, id, m, now, v);
      } else if !t.conns[id].authenticated {
        SentInv(env, t, id, AuthFail);
      } else if BringsPin(m) {
        PinAnsweredKeeps(env, t, id, m, now, v);
      } else if AnswersAlarm(m) {
        AlarmAnsweredKeeps(env, t, id, m, now, v);
      } else {
        AnsweredKeeps(env, t, id, m, now, v);
      }
    }
  }

  lemma AskedNothing(env: Env, s: State, id: Id, m: Msg, now: nat, allowed: bool, v: Verdict)
    requires env.opts.Normal() && id in s.conns && (!allowed || !StillLive(env, s, id, m, now))
    ensures AskedRightly(env, s, Message(id, m, now, allowed), v)
  {
  }

  lemma AskedForKey(env: Env, s: State, id: Id, m: Msg, now: nat, v: Verdict)
    requires env.opts.Normal() && id in s.conns && m.Auth?
    requires Judged(m) ==> A.Step(env.opts, s.auth,
      A.Key(env.Host(s.conns[id].addr), AuthKey(env, s.auth.key, s.conns[id], m), m.minted, now), v.answer, v.auth)
    ensures AskedRightly(env, s, Message(id, m, now, true), v)
  {
  }

  lemma AskedForPin(env: Env, s: State, id: Id, m: Msg, now: nat, v: Verdict)
    requires env.opts.Normal() && id in s.conns && !m.Auth?
    requires s.conns[id].authenticated && AsksPin(s.settings, m).Some? ==>
      A.Step(env.opts, Touched(env, s, id, m, now).auth,
        A.Pin(env.Host(s.conns[id].addr), env.pinHolds(AsksPin(s.settings, m).value, s.settings.pinHash), now),
        v.answer, v.auth)
    ensures AskedRightly(env, s, Message(id, m, now, true), v)
  {
  }

  lemma HandledStep(env: Env, s: State, id: Id, m: Msg, now: nat, allowed: bool, v: Verdict, after: State)
    requires Inv(env, s) && env.opts.Normal() && id in s.conns && s.conns[id].open && (m.Auth? ==> Unused(s, m.minted))
    requires AskedRightly(env, s, Message(id, m, now, allowed), v)
    requires after == Handled(env, s, id, m, now, allowed, v)
    ensures Inv(env, after) && Step(env, s, Message(id, m, now, allowed), v, after)
  {
    HandledKeeps(env, s, id, m, now, allowed, v);
  }

  lemma RotatedInv(env: Env, s: State, key: string)
    requires Inv(env, s) && A.IsKey(key)
    ensures Inv(env, s.(auth := A.State(key, map[], map[])))
  {
    var t := s.(auth := A.State(key, map[], map[]));
    assert forall j :: j in s.conns ==> NewsFor(s, j);
    assert Beside(s, t.(auth := A.State(s.auth.key, map[], map[])));
    BesideInv(env, s, t.(auth := A.State(s.auth.key, map[], map[])));
    assert forall j :: j in t.conns ==> NewsFor(t, j);
  }

  lemma ExternalInv(env: Env, s: State, id: Id)
    requires Inv(env, s) && id !in s.conns
    ensures Inv(env, s.(conns := s.conns[id := Unpaired(A.UNKNOWN_ADDR)]))
  {
    ArrivedKeeps(s, id, Unpaired(A.UNKNOWN_ADDR));
    SlotsKept(env, s.conns, s.held, id, Unpaired(A.UNKNOWN_ADDR));
  }

  /** Anything a socket does. */
  predicate OfSocket(op: Op) {
    op.Connect? || op.External? || op.Message? || op.Gone? || op.Heartbeat?
  }

  lemma SocketStepKeeps(env: Env, s: State, op: Op, v: Verdict)
    requires Inv(env, s) && Possible(env, s, op, v) && OfSocket(op)
    ensures Inv(env, Apply(env, s, op, v))
  {
    match op
    case Connect(id, addr, nonce) => ConnectedKeeps(env, s, id, addr, nonce);
    case External(id) => ExternalInv(env, s, id);
    case Message(id, m, now, allowed) => HandledKeeps(env, s, id, m, now, allowed, v);
    case Gone(id) => LeftKeeps(env, s, id);
    case Heartbeat(now) => SweptKeeps(env, s, now);
  }

  lemma PanelStepKeeps(env: Env, s: State, op: Op, v: Verdict)
    requires Inv(env, s) && Possible(env, s, op, v) && !OfSocket(op)
    ensures Inv(env, Apply(env, s, op, v))
  {
    match op
    case SensorAlert(sensor, message, now) => DispatchedInv(env, s, sensor, message, now);
    case ConsoleTest(sensor) => TestedInv(env, s, sensor);
    case ConsoleArm => ArmedInv(env, s);
    case RestoreArmed => ArmedInv(env, s);
    case ConsoleStop => ClearedInv(env, s, Cleared(s));
    case ConsoleDisarm(_, _) => DisarmedWithPinInv(env, s, v);
    case Unpause(sensor) => SettingsInv(env, s, s.settings.(enabled := s.settings.enabled + {sensor}));
    case Rotate(key) => RotatedInv(env, s, key);
  }

  lemma StepKeeps(env: Env, s: State, op: Op, v: Verdict, after: State)
    requires Inv(env, s) && Step(env, s, op, v, after)
    ensures Inv(env, after)
  {
    if OfSocket(op) {
      SocketStepKeeps(env, s, op, v);
    } else {
      PanelStepKeeps(env, s, op, v);
    }
  }

  lemma {:induction false} AlwaysInv(env: Env, tr: Trace)
    requires Run(env, tr)
    ensures Inv(env, Last(tr))
  {
    match tr
    case Start(s) =>
      assert Holders(s.conns) == {};
      assert forall h :: HoldersAt(env, s.conns, h) == {};
    case Then(before, op, v, after) =>
      AlwaysInv(env, before);
      StepKeeps(env, Last(before), op, v, after);
  }
}
