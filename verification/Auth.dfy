/** Pairing keys, per-address lockout and sessions: internal/auth/auth.go.

    Times and durations are in nanoseconds; time 0 is Go's zero time. */
module Auth {
  import opened Common
  import Luhn

  type Token = string

  const UNKNOWN_ADDR := "local"
  const KEY_LENGTH := 16

  /** Zero or negative counts mean "use the default"; ttl and idle at zero mean "never". */
  datatype Options = Options(maxSessions: int, maxAttempts: int, lockout: int, maxTracked: int,
                             ttl: int, idle: int) {
    predicate Normal() {
      maxSessions > 0 && maxAttempts > 0 && lockout > 0 && maxTracked > 0
    }

    function WithDefaults(): (o: Options)
      ensures o.Normal()
      ensures Normal() ==> o == this
    {
      Options(if maxSessions <= 0 then 3 else maxSessions,
              if maxAttempts <= 0 then 5 else maxAttempts,
              if lockout <= 0 then 60_000_000_000 else lockout,
              if maxTracked <= 0 then 256 else maxTracked,
              ttl, idle)
    }
  }

  datatype Attempts = Attempts(failures: nat, lockedUntil: nat, lastSeen: nat)
  datatype Session = Session(createdAt: nat, lastSeen: nat)
  type Table = map<string, Attempts>

  datatype State = State(key: string, sessions: map<Token, Session>, byAddr: Table)

  datatype Answer =
    | Granted(token: Token)     // the key was right: a session
    | Accepted                  // the PIN was right
    | LockedOut                 // not compared: serving a lockout
    | Full(remaining: int)      // not compared: no session free
    | Refused(remaining: int)   // compared and wrong
    | NowLocked                 // compared and wrong, and the last one allowed
    | Live(alive: bool)         // whether a session is still good
    | Done

  // ---------------------------------------------------------------- specification

  predicate Locked(r: Attempts, now: nat) {
    now < r.lockedUntil
  }

  /** Past its lockout and quiet for longer than one lockout period. */
  predicate Stale(o: Options, r: Attempts, now: nat) {
    now > r.lockedUntil && now - r.lastSeen > o.lockout
  }

  function StaleHosts(o: Options, t: Table, now: nat): set<string> {
    set h | h in t && Stale(o, t[h], now)
  }

  ghost predicate OldestUnlockedHost(t: Table, now: nat, h: string) {
    && h in t && !Locked(t[h], now)
    && forall g :: g in t && !Locked(t[g], now) ==> t[h].lastSeen <= t[g].lastSeen
  }

  ghost predicate SoonestToEnd(t: Table, h: string) {
    h in t && forall g :: g in t ==> t[h].lockedUntil <= t[g].lockedUntil
  }

  /** Room has been made: every stale record goes; failing that one unlocked record,
      the one seen longest ago; failing that the lockout with least left to run. */
  ghost predicate Evicted(o: Options, t: Table, now: nat, after: Table) {
    var stale := StaleHosts(o, t, now);
    if stale != {} then after == t - stale
    else if exists h :: h in t && !Locked(t[h], now) then
      exists h :: OldestUnlockedHost(t, now, h) && after == t - {h}
    else if t.Keys != {} then exists h :: SoonestToEnd(t, h) && after == t - {h}
    else after == t
  }

  /** The record an attempt by host is judged under. */
  function RecordFor(t: Table, host: string, now: nat): Attempts {
    if host in t then t[host].(lastSeen := now) else Attempts(0, 0, now)
  }

  /** The other addresses' records: untouched, unless room had to be made. */
  ghost predicate OthersKept(o: Options, t: Table, host: string, now: nat, after: Table) {
    if host in t then after - {host} == t - {host}
    else if |t| >= o.maxTracked then Evicted(o, t, now, after - {host})
    else after - {host} == t
  }

  lemma OthersKeptStill(o: Options, t: Table, host: string, now: nat, mid: Table, after: Table)
    requires OthersKept(o, t, host, now, mid)
    requires after == mid - {host} || (host in after && after == mid[host := after[host]])
    ensures OthersKept(o, t, host, now, after)
  {
    assert after - {host} == mid - {host};
  }

  /** A wrong secret: one more failure, or the lockout and a fresh count. */
  function Failed(o: Options, r: Attempts, now: nat): Attempts
    requires o.Normal()
  {
    if r.failures + 1 >= o.maxAttempts then Attempts(0, now + o.lockout, r.lastSeen)
    else r.(failures := r.failures + 1)
  }

  function FailedAnswer(o: Options, r: Attempts): Answer {
    if r.failures + 1 >= o.maxAttempts then NowLocked else Refused(o.maxAttempts - (r.failures + 1))
  }

  predicate Expired(o: Options, s: Session, now: nat) {
    (o.ttl > 0 && now - s.createdAt >= o.ttl) || (o.idle > 0 && now - s.lastSeen >= o.idle)
  }

  function Swept(o: Options, sessions: map<Token, Session>, now: nat): (r: map<Token, Session>)
    ensures r.Keys <= sessions.Keys
  {
    map t | t in sessions && !Expired(o, sessions[t], now) :: sessions[t]
  }

  function StripDashes(s: string): string {
    if s == "" then "" else StripDashes(s[..|s| - 1]) + if s[|s| - 1] == '-' then "" else [s[|s| - 1]]
  }

  datatype Op =
    | Key(host: string, secret: string, minted: Token, now: nat)
    | Pin(host: string, good: bool, now: nat)
    | Validate(token: Token, now: nat)
    | Touch(token: Token, now: nat)
    | Sweep(now: nat)
    | Remove(token: Token)
    | Regenerate(key: string)

  ghost predicate KeyStep(o: Options, s: State, op: Op, a: Answer, after: State)
    requires op.Key? && o.Normal()
  {
    var r := RecordFor(s.byAddr, op.host, op.now);
    var live := Swept(o, s.sessions, op.now);
    && OthersKept(o, s.byAddr, op.host, op.now, after.byAddr)
    && after.key == s.key
    && if Locked(r, op.now) then
         a == LockedOut && Kept(after, op.host, r) && after.sessions == s.sessions
       else if |live| >= o.maxSessions then
         a == Full(o.maxAttempts - r.failures) && Kept(after, op.host, r) && after.sessions == live
       else if StripDashes(op.secret) != s.key then
         a == FailedAnswer(o, r) && Kept(after, op.host, Failed(o, r, op.now)) && after.sessions == live
       else
         a == Granted(op.minted) && op.host !in after.byAddr
         && after.sessions == live[op.minted := Session(op.now, op.now)]
  }

  ghost predicate PinStep(o: Options, s: State, op: Op, a: Answer, after: State)
    requires op.Pin? && o.Normal()
  {
    var r := RecordFor(s.byAddr, op.host, op.now);
    && OthersKept(o, s.byAddr, op.host, op.now, after.byAddr)
    && after.key == s.key && after.sessions == s.sessions
    && if Locked(r, op.now) then a == LockedOut && Kept(after, op.host, r)
       else if !op.good then a == FailedAnswer(o, r) && Kept(after, op.host, Failed(o, r, op.now))
       else a == Accepted && op.host !in after.byAddr
  }

  predicate Kept(s: State, host: string, r: Attempts) {
    host in s.byAddr && s.byAddr[host] == r
  }

  predicate IsLive(o: Options, s: State, token: Token, now: nat) {
    token in s.sessions && !Expired(o, s.sessions[token], now)
  }

  /** One call on the manager: the answer given and the state left behind. */
  ghost predicate Step(o: Options, s: State, op: Op, a: Answer, after: State)
    requires o.Normal()
  {
    match op
    case Key(host, _, _, _) => host != "" && KeyStep(o, s, op, a, after)
    case Pin(host, _, _) => host != "" && PinStep(o, s, op, a, after)
    case Validate(token, now) =>
      a == Live(IsLive(o, s, token, now))
      && after == if IsLive(o, s, token, now) then s else s.(sessions := s.sessions - {token})
    case Touch(token, now) =>
      a == Live(IsLive(o, s, token, now))
      && after == if IsLive(o, s, token, now)
                  then s.(sessions := s.sessions[token := s.sessions[token].(lastSeen := now)])
                  else s.(sessions := s.sessions - {token})
    case Sweep(now) => a == Done && after == s.(sessions := Swept(o, s.sessions, now))
    case Remove(token) => a == Done && after == s.(sessions := s.sessions - {token})
    case Regenerate(key) => a == Done && IsKey(key) && after == State(key, map[], map[])
  }

  /** Sixteen digits with a good check digit: what a key this program issues looks like. */
  ghost predicate IsKey(key: string) {
    |key| == KEY_LENGTH && Luhn.Valid(key)
  }

  /** The identity an address is limited under: the bare host when there is one. split is
      net.SplitHostPort, giving the host of a host:port pair. */
  function NormalizeAddr(split: string -> Option<string>, addr: string): (host: string)
    ensures host != ""
    ensures addr != "" && split(addr).Some? && split(addr).value != "" ==> host == split(addr).value
    ensures addr != "" && (split(addr).None? || split(addr).value == "") ==> host == addr
    ensures addr == "" ==> host == UNKNOWN_ADDR
  {
    if addr == "" then UNKNOWN_ADDR
    else match split(addr)
      case Some(h) => if h != "" then h else addr
      case None => addr
  }

  // ---------------------------------------------------------------- the manager

  class Manager {
    const opts: Options
    const split: string -> Option<string>
    var pairingKey: string
    var sessions: map<Token, Session>
    var byAddr: Table

    ghost function View(): State
      reads this
    {
      State(pairingKey, sessions, byAddr)
    }

    ghost predicate Valid()
      reads this
    {
      opts.Normal() && IsKey(pairingKey) && "" !in byAddr
    }

    /** Starts with a key of its own, empty tables and the policy after defaults. */
    constructor (o: Options, s: string -> Option<string>, generated: string)
      requires IsKey(generated)
      ensures Valid() && opts == o.WithDefaults() && split == s
      ensures View() == State(generated, map[], map[])
    {
      opts, split := o.WithDefaults(), s;
      pairingKey, sessions, byAddr := generated, map[], map[];
    }

    method Authenticate(addr: string, key: string, now: nat, minted: Token) returns (a: Answer)
      requires Valid()
      modifies this
      ensures Valid()
      ensures Step(opts, old(View()), Key(NormalizeAddr(split, addr), key, minted, now), a, View())
    {
      ghost var was := byAddr;
      var host := NormalizeAddr(split, addr);
      Record(host, now);
      ghost var mid := byAddr;
      if now < byAddr[host].lockedUntil {
        return LockedOut;
      }
      SweepSessionsLocked(now);
      if |sessions| >= opts.maxSessions {
        return Full(opts.maxAttempts - byAddr[host].failures);
      }
      var stripped := Stripped(key);
      if stripped != pairingKey {
        a := Fail(host, now);
        OthersKeptStill(opts, was, host, now, mid, byAddr);
        return;
      }
      byAddr := byAddr - {host};
      OthersKeptStill(opts, was, host, now, mid, byAddr);
      sessions := sessions[minted := Session(now, now)];
      a := Granted(minted);
    }

    /** good is the verdict of the PIN hash on what was typed. */
    method CheckPin(addr: string, good: bool, now: nat) returns (a: Answer)
      requires Valid()
      modifies this`byAddr
      ensures Valid()
      ensures Step(opts, old(View()), Pin(NormalizeAddr(split, addr), good, now), a, View())
    {
      ghost var was := byAddr;
      var host := NormalizeAddr(split, addr);
      Record(host, now);
      ghost var mid := byAddr;
      if now < byAddr[host].lockedUntil {
        return LockedOut;
      }
      if !good {
        a := Fail(host, now);
        OthersKeptStill(opts, was, host, now, mid, byAddr);
        return;
      }
      byAddr := byAddr - {host};
      OthersKeptStill(opts, was, host, now, mid, byAddr);
      a := Accepted;
    }

    method Fail(host: string, now: nat) returns (a: Answer)
      requires opts.Normal() && host in byAddr
      modifies this`byAddr
      ensures byAddr == old(byAddr)[host := Failed(opts, old(byAddr)[host], now)]
      ensures a == FailedAnswer(opts, old(byAddr)[host])
    {
      var rec := byAddr[host];
      rec := rec.(failures := rec.failures + 1);
      if rec.failures >= opts.maxAttempts {
        byAddr := byAddr[host := rec.(lockedUntil := now + opts.lockout, failures := 0)];
        return NowLocked;
      }
      byAddr := byAddr[host := rec];
      a := Refused(opts.maxAttempts - rec.failures);
    }

    method Record(host: string, now: nat)
      requires opts.Normal() && host != "" && "" !in byAddr
      modifies this`byAddr
      ensures "" !in byAddr && host in byAddr
      ensures byAddr[host] == RecordFor(old(byAddr), host, now)
      ensures OthersKept(opts, old(byAddr), host, now, byAddr)
    {
      if host in byAddr {
        byAddr := byAddr[host := byAddr[host].(lastSeen := now)];
        return;
      }
      if |byAddr| >= opts.maxTracked {
        EvictLocked(now);
      }
      ghost var roomy := byAddr;
      byAddr := byAddr[host := Attempts(0, 0, now)];
      assert byAddr - {host} == roomy;
    }

    method EvictLocked(now: nat)
      requires opts.Normal() && "" !in byAddr
      modifies this`byAddr
      ensures Evicted(opts, old(byAddr), now, byAddr)
      ensures byAddr.Keys <= old(byAddr).Keys
    {
      ghost var was := byAddr;
      var freed := false;
      var rest := byAddr.Keys;
      while rest != {}
        invariant rest <= was.Keys
        invariant byAddr == was - (StaleHosts(opts, was, now) - rest)
        invariant freed <==> StaleHosts(opts, was, now) - rest != {}
        decreases rest
      {
        var host :| host in rest;
        var rec := byAddr[host];
        ghost var seen := StaleHosts(opts, was, now) - rest;
        if now > rec.lockedUntil && now - rec.lastSeen > opts.lockout {
          byAddr := byAddr - {host};
          freed := true;
          assert StaleHosts(opts, was, now) - (rest - {host}) == seen + {host};
        } else {
          assert StaleHosts(opts, was, now) - (rest - {host}) == seen;
        }
        rest := rest - {host};
      }
      assert StaleHosts(opts, was, now) - {} == StaleHosts(opts, was, now);
      if freed {
        return;
      }
      assert byAddr == was;

      var oldest := OldestUnlockedLocked(now);
      if oldest != "" {
        byAddr := byAddr - {oldest};
        return;
      }

      var soonestHost, soonestUntil := "", 0;
      rest := byAddr.Keys;
      while rest != {}
        invariant rest <= was.Keys
        invariant soonestHost == "" <==> rest == was.Keys
        invariant soonestHost != "" ==> soonestHost in was && was[soonestHost].lockedUntil == soonestUntil
        invariant soonestHost != "" ==> forall g :: g in was.Keys - rest ==> soonestUntil <= was[g].lockedUntil
        decreases rest
      {
        var host :| host in rest;
        if soonestHost == "" || byAddr[host].lockedUntil < soonestUntil {
          soonestHost, soonestUntil := host, byAddr[host].lockedUntil;
        }
        rest := rest - {host};
      }
      if soonestHost != "" {
        assert SoonestToEnd(was, soonestHost);
        byAddr := byAddr - {soonestHost};
      }
    }

    /** The least recently seen address not serving a lockout, or "" when all are. */
    method OldestUnlockedLocked(now: nat) returns (oldest: string)
      requires "" !in byAddr
      ensures oldest == "" <==> forall h :: h in byAddr ==> Locked(byAddr[h], now)
      ensures oldest != "" ==> OldestUnlockedHost(byAddr, now, oldest)
    {
      oldest := "";
      var oldestSeen := 0;
      var rest := byAddr.Keys;
      while rest != {}
        invariant rest <= byAddr.Keys
        invariant oldest == "" <==> forall h :: h in byAddr.Keys - rest ==> Locked(byAddr[h], now)
        invariant oldest != "" ==>
          oldest in byAddr && !Locked(byAddr[oldest], now) && byAddr[oldest].lastSeen == oldestSeen
        invariant oldest != "" ==>
          forall g :: g in byAddr.Keys - rest && !Locked(byAddr[g], now) ==> oldestSeen <= byAddr[g].lastSeen
        decreases rest
      {
        var host :| host in rest;
        rest := rest - {host};
        if now < byAddr[host].lockedUntil {
          continue;
        }
        if oldest == "" || byAddr[host].lastSeen < oldestSeen {
          oldest, oldestSeen := host, byAddr[host].lastSeen;
        }
      }
    }

    method ValidateSession(token: Token, now: nat) returns (alive: bool)
      requires Valid()
      modifies this`sessions
      ensures Valid() && Step(opts, old(View()), Validate(token, now), Live(alive), View())
    {
      alive := ValidSessionLocked(token, now);
    }

    method TouchSession(token: Token, now: nat) returns (alive: bool)
      requires Valid()
      modifies this`sessions
      ensures Valid() && Step(opts, old(View()), Touch(token, now), Live(alive), View())
    {
      alive := ValidSessionLocked(token, now);
      if !alive {
        return;
      }
      sessions := sessions[token := sessions[token].(lastSeen := now)];
    }

    method ValidSessionLocked(token: Token, now: nat) returns (alive: bool)
      modifies this`sessions
      ensures alive == IsLive(opts, old(View()), token, now)
      ensures sessions == if alive then old(sessions) else old(sessions) - {token}
    {
      if token !in sessions {
        return false;
      }
      if SessionExpiredLocked(sessions[token], now) {
        sessions := sessions - {token};
        return false;
      }
      alive := true;
    }

    predicate SessionExpiredLocked(s: Session, now: nat)
      ensures SessionExpiredLocked(s, now) == Expired(opts, s, now)
    {
      if opts.ttl > 0 && now - s.createdAt >= opts.ttl then true
      else opts.idle > 0 && now - s.lastSeen >= opts.idle
    }

    method SweepSessionsLocked(now: nat)
      modifies this`sessions
      ensures sessions == Swept(opts, old(sessions), now)
    {
      if opts.ttl <= 0 && opts.idle <= 0 {
        assert Swept(opts, sessions, now) == sessions;
        return;
      }
      ghost var was := sessions;
      var rest := sessions.Keys;
      while rest != {}
        invariant rest <= was.Keys
        invariant forall t :: t in sessions <==> t in was && (t in rest || !Expired(opts, was[t], now))
        invariant forall t :: t in sessions ==> sessions[t] == was[t]
        decreases rest
      {
        var token :| token in rest;
        if SessionExpiredLocked(sessions[token], now) {
          sessions := sessions - {token};
        }
        rest := rest - {token};
      }
    }

    method SweepSessions(now: nat) returns (removed: int)
      requires Valid()
      modifies this`sessions
      ensures Valid() && Step(opts, old(View()), Sweep(now), Done, View())
      ensures removed == |old(sessions)| - |sessions|
    {
      var before := |sessions|;
      SweepSessionsLocked(now);
      removed := before - |sessions|;
    }

    method RemoveSession(token: Token)
      requires Valid()
      modifies this`sessions
      ensures Valid() && Step(opts, old(View()), Remove(token), Done, View())
    {
      sessions := sessions - {token};
    }

    /** generated is the new key: fifteen random digits and their check digit. */
    method Regenerate(generated: string)
      requires Valid() && IsKey(generated)
      modifies this
      ensures Valid() && Step(opts, old(View()), Op.Regenerate(generated), Done, View())
    {
      pairingKey := generated;
      sessions, byAddr := map[], map[];
    }

    method Stripped(s: string) returns (r: string)
      ensures r == StripDashes(s)
    {
      r := "";
      for i := 0 to |s|
        invariant r == StripDashes(s[..i])
      {
        assert s[..i + 1][..i] == s[..i];
        if s[i] != '-' {
          r := r + [s[i]];
        }
      }
      assert s[..|s|] == s;
    }
  }

  /** digits are fifteen random ones. */
  method GeneratePairingKey(digits: string) returns (key: string)
    requires |digits| == KEY_LENGTH - 1 && Luhn.AllDigits(digits)
    ensures IsKey(key) && key[..KEY_LENGTH - 1] == digits
  {
    var check := Luhn.CheckDigit(digits);
    key := digits + [check];
    Luhn.CheckDigitDecides(digits, check, key);
  }

  /** A key handed in is used as it is, dashes aside, or refused; none means a fresh one. */
  method NewManager(o: Options, split: string -> Option<string>, supplied: string, digits: string)
    returns (r: Result<Manager, string>)
    requires |digits| == KEY_LENGTH - 1 && Luhn.AllDigits(digits)
    ensures r.Ok? ==> fresh(r.value) && r.value.Valid() && r.value.opts == o.WithDefaults()
    ensures r.Err? <==> StripDashes(supplied) != "" && !IsKey(StripDashes(supplied))
    ensures r.Ok? && StripDashes(supplied) != "" ==> r.value.pairingKey == StripDashes(supplied)
    ensures r.Ok? ==> r.value.sessions == map[] && r.value.byAddr == map[]
  {
    var key := StripDashes(supplied);
    if key == "" {
      key := GeneratePairingKey(digits);
    } else {
      var ok := Luhn.IsValid(key);
      if |key| != KEY_LENGTH || !ok {
        return Err("supplied pairing key is not a valid 16-digit key");
      }
    }
    var m := new Manager(o, split, key);
    r := Ok(m);
  }
}
