/** The token buckets on one socket: internal/ws/ratelimit.go.

    Clock readings are nanoseconds, zero being Go's zero time; tokens are reals. */
module RateLimit {

  const SECOND: real := 1_000_000_000.0
  const AUTH_ATTEMPTS_PER_SECOND := 2.0
  const AUTH_ATTEMPT_MARGIN := 3
  const MESSAGES_PER_SECOND := 8.0
  const MESSAGE_BURST := 24.0

  datatype Bucket = Bucket(tokens: real, rate: real, burst: real, last: nat) {
    predicate Valid() {
      rate >= 0.0 && burst >= 0.0 && 0.0 <= tokens <= burst
    }
  }

  function Seconds(nanoseconds: int): (e: real)
    ensures e > 0.0 <==> nanoseconds > 0
  {
    nanoseconds as real / SECOND
  }

  function AtRate(seconds: real, rate: real): real {
    seconds * rate
  }

  /** The tokens that some progress of the clock earns. */
  function Earned(progress: nat, rate: real): real {
    AtRate(Seconds(progress), rate)
  }

  /** The bucket with what the clock has earned it since the latest reading it has seen. */
  function Refilled(b: Bucket, now: nat): Bucket {
    var last := if b.last == 0 then now else b.last;
    if now > last then
      var full := b.tokens + Earned(now - last, b.rate);
      b.(last := now, tokens := if full > b.burst then b.burst else full)
    else b.(last := last)
  }

  /** A whole token is spent when there is one. */
  function Spend(b: Bucket, now: nat): (bool, Bucket) {
    var r := Refilled(b, now);
    if r.tokens < 1.0 then (false, r) else (true, r.(tokens := r.tokens - 1.0))
  }

  class TokenBucket {
    var tokens: real
    const rate: real
    const burst: real
    var last: nat

    ghost function View(): Bucket
      reads this
    {
      Bucket(tokens, rate, burst, last)
    }

    constructor (r: real, b: real)
      ensures View() == Bucket(b, r, b, 0)
    {
      tokens, rate, burst, last := b, r, b, 0;
    }

    /** For messages from a paired phone. */
    constructor Messages()
      ensures View() == Bucket(MESSAGE_BURST, MESSAGES_PER_SECOND, MESSAGE_BURST, 0)
    {
      tokens, rate, burst, last := MESSAGE_BURST, MESSAGES_PER_SECOND, MESSAGE_BURST, 0;
    }

    /** For pairing attempts: room for the whole allowance and a margin over it. */
    constructor Auth(maxAttempts: int)
      ensures View() == NewAuth(maxAttempts)
    {
      var allowed := if maxAttempts < 1 then 1 else maxAttempts;
      tokens, burst := (allowed + AUTH_ATTEMPT_MARGIN) as real, (allowed + AUTH_ATTEMPT_MARGIN) as real;
      rate, last := AUTH_ATTEMPTS_PER_SECOND, 0;
    }

    method Allow(now: nat) returns (ok: bool)
      modifies this
      ensures (ok, View()) == Spend(old(View()), now)
    {
      if last == 0 {
        last := now;
      }
      var elapsed := Seconds(now - last);
      if elapsed > 0.0 {
        last := now;
        tokens := tokens + AtRate(elapsed, rate);
        if tokens > burst {
          tokens := burst;
        }
      }
      if tokens < 1.0 {
        return false;
      }
      tokens := tokens - 1.0;
      ok := true;
    }
  }

  function NewAuth(maxAttempts: int): (b: Bucket)
    ensures b.Valid() && b.tokens == b.burst
  {
    var burst := ((if maxAttempts < 1 then 1 else maxAttempts) + AUTH_ATTEMPT_MARGIN) as real;
    Bucket(burst, AUTH_ATTEMPTS_PER_SECOND, burst, 0)
  }

  // ---------------------------------------------------------------- runs

  function After(b: Bucket, readings: seq<nat>): Bucket {
    if readings == [] then b
    else Spend(After(b, readings[..|readings| - 1]), readings[|readings| - 1]).1
  }

  /** How many of a run of calls were allowed. */
  function Allowed(b: Bucket, readings: seq<nat>): nat {
    if readings == [] then 0
    else
      var earlier := readings[..|readings| - 1];
      Allowed(b, earlier) + if Spend(After(b, earlier), readings[|readings| - 1]).0 then 1 else 0
  }

  /** How far the latest reading seen moved forward over a run: steps back count for nothing,
      and catching up again counts for nothing either. */
  function Progress(b: Bucket, readings: seq<nat>): nat {
    if readings == [] then 0
    else
      var earlier, now := readings[..|readings| - 1], readings[|readings| - 1];
      Progress(b, earlier) + Forward(After(b, earlier), now)
  }

  function Forward(b: Bucket, now: nat): nat {
    if b.last != 0 && now > b.last then now - b.last else 0
  }

  lemma SpendBound(b: Bucket, now: nat)
    requires b.Valid()
    ensures var s := Spend(b, now);
      && s.1.Valid() && s.1.rate == b.rate && s.1.burst == b.burst
      && (if s.0 then 1.0 else 0.0) + s.1.tokens <= b.tokens + Earned(Forward(b, now), b.rate)
      && (s.0 || s.1.tokens < 1.0)
      && s.1.tokens >= b.tokens - 1.0
  {
    assert Earned(Forward(b, now), b.rate) >= 0.0;
  }

  /** Tokens stay between none and the burst, and every token spent was in the bucket at
      the start or has been earned since. */
  lemma {:induction false} TokensAccountedFor(b: Bucket, readings: seq<nat>)
    requires b.Valid()
    ensures After(b, readings).Valid() && After(b, readings).rate == b.rate && After(b, readings).burst == b.burst
    ensures Allowed(b, readings) as real + After(b, readings).tokens
            <= b.tokens + Earned(Progress(b, readings), b.rate)
  {
    if readings != [] {
      TokensAccountedFor(b, readings[..|readings| - 1]);
      OneMoreReading(b, readings[..|readings| - 1], readings[|readings| - 1]);
    }
  }

  lemma OneMoreReading(b: Bucket, earlier: seq<nat>, now: nat)
    requires b.Valid() && After(b, earlier).Valid() && After(b, earlier).rate == b.rate
    requires Allowed(b, earlier) as real + After(b, earlier).tokens <= b.tokens + Earned(Progress(b, earlier), b.rate)
    ensures var s := Spend(After(b, earlier), now);
      (Allowed(b, earlier) + if s.0 then 1 else 0) as real + s.1.tokens
      <= b.tokens + Earned(Progress(b, earlier) + Forward(After(b, earlier), now), b.rate)
    ensures Spend(After(b, earlier), now).1.Valid()
    ensures Spend(After(b, earlier), now).1.rate == b.rate
    ensures Spend(After(b, earlier), now).1.burst == After(b, earlier).burst
  {
    SpendBound(After(b, earlier), now);
    EarnedAdds(Progress(b, earlier), Forward(After(b, earlier), now), b.rate);
  }

  lemma EarnedAdds(x: nat, y: nat, rate: real)
    ensures Earned(x + y, rate) == Earned(x, rate) + Earned(y, rate)
  {
    assert (x + y) as real == x as real + y as real;
    assert (x as real + y as real) / SECOND == x as real / SECOND + y as real / SECOND;
  }

  /** However long the run and however the clock moves, the messages allowed between any
      two calls number at most the burst and what the forward progress of the clock earns. */
  lemma RateBound(b: Bucket, before: seq<nat>, between: seq<nat>)
    requires b.Valid()
    ensures After(b, before).Valid()
    ensures Allowed(After(b, before), between) as real
            <= b.burst + Earned(Progress(After(b, before), between), b.rate)
  {
    TokensAccountedFor(b, before);
    TokensAccountedFor(After(b, before), between);
  }

  /** The progress counted is exactly how far the latest reading seen has moved. */
  lemma {:induction false} ProgressIsForward(b: Bucket, readings: seq<nat>)
    requires b.last != 0
    ensures After(b, readings).last == b.last + Progress(b, readings)
    ensures forall i :: 0 <= i < |readings| ==> readings[i] <= After(b, readings).last
  {
    if readings != [] {
      ProgressIsForward(b, readings[..|readings| - 1]);
    }
  }

  lemma {:induction false} NoneRefusedYet(b: Bucket, readings: seq<nat>)
    requires b.Valid() && b.tokens >= |readings| as real
    ensures Allowed(b, readings) == |readings|
    ensures After(b, readings).Valid() && After(b, readings).tokens >= b.tokens - |readings| as real
  {
    if readings != [] {
      var earlier, now := readings[..|readings| - 1], readings[|readings| - 1];
      NoneRefusedYet(b, earlier);
      SpendBound(After(b, earlier), now);
      assert Refilled(After(b, earlier), now).tokens >= 1.0;
    }
  }

  /** A fresh pairing bucket never refuses any of the first maxAttempts + 3 attempts, whatever
      the clock says: the lockout, which allows fewer, always answers first. */
  lemma LockoutAnswersFirst(maxAttempts: int, readings: seq<nat>)
    requires |readings| <= maxAttempts + AUTH_ATTEMPT_MARGIN
    ensures Allowed(NewAuth(maxAttempts), readings) == |readings|
  {
    NoneRefusedYet(NewAuth(maxAttempts), readings);
  }

  /** And with the clock standing still, the next one is the first to be refused. */
  lemma BurstIsExact(maxAttempts: int, readings: seq<nat>, now: nat)
    requires maxAttempts >= 1 && |readings| == maxAttempts + AUTH_ATTEMPT_MARGIN
    requires now != 0 && forall i :: 0 <= i < |readings| ==> readings[i] == now
    ensures !Spend(After(NewAuth(maxAttempts), readings), now).0
  {
    StandingStill(maxAttempts, readings, now);
  }

  lemma {:induction false} StandingStill(maxAttempts: int, readings: seq<nat>, now: nat)
    requires maxAttempts >= 1 && |readings| <= maxAttempts + AUTH_ATTEMPT_MARGIN
    requires now != 0 && forall i :: 0 <= i < |readings| ==> readings[i] == now
    ensures var b := After(NewAuth(maxAttempts), readings);
      b.tokens == NewAuth(maxAttempts).burst - |readings| as real && (readings != [] ==> b.last == now)
      && (readings == [] ==> b.last == 0)
  {
    if readings != [] {
      StandingStill(maxAttempts, readings[..|readings| - 1], now);
    }
  }

  // ---------------------------------------------------------------- what is not refused

  lemma AfterMore(b: Bucket, earlier: seq<nat>, now: nat)
    ensures After(b, earlier + [now]) == Spend(After(b, earlier), now).1
    ensures Allowed(b, earlier + [now]) == Allowed(b, earlier) + if Spend(After(b, earlier), now).0 then 1 else 0
    ensures Progress(b, earlier + [now]) == Progress(b, earlier) + Forward(After(b, earlier), now)
  {
    assert (earlier + [now])[..|earlier|] == earlier;
  }

  lemma {:induction false} AfterBoth(b: Bucket, u: seq<nat>, v: seq<nat>)
    ensures After(b, u + v) == After(After(b, u), v)
  {
    if v == [] {
      assert u + v == u;
    } else {
      AfterBoth(b, u, v[..|v| - 1]);
      assert (u + v)[..|u + v| - 1] == u + v[..|v| - 1];
    }
  }

  /** How many of a run of calls were refused. */
  function Denied(b: Bucket, readings: seq<nat>): int {
    |readings| - Allowed(b, readings)
  }

  /** What a bucket that held some tokens has left after a run that never filled it: what it
      held, and what the clock earned, less a token for each call allowed. */
  ghost predicate Balanced(b: Bucket, held: real, rest: seq<nat>, left: real) {
    left == held + Earned(Progress(b, rest), b.rate) - Allowed(b, rest) as real
  }

  /** What one call leaves: all that was earned, but for what the burst cuts off, less the token
      it spends. */
  lemma OneCall(b: Bucket, now: nat)
    requires b.Valid() && b.burst >= 1.0
    ensures var full, r := b.tokens + Earned(Forward(b, now), b.rate), Spend(b, now);
      && (r.0 <==> full >= 1.0)
      && r.1.tokens == (if full > b.burst then b.burst else full) - if r.0 then 1.0 else 0.0
  {
    assert Earned(Forward(b, now), b.rate) >= 0.0;
  }

  /** The account since the bucket was last full, or since the start if it has not been: k calls
      in, it was full and spent a token, and from then on nothing was cut off. */
  lemma {:induction false} BalanceSinceFull(b: Bucket, readings: seq<nat>) returns (k: nat)
    requires b.Valid() && b.burst >= 1.0
    ensures k <= |readings|
    ensures Balanced(After(b, readings[..k]), if k == 0 then b.tokens else b.burst - 1.0, readings[k..],
                     After(b, readings).tokens)
  {
    k := 0;
    if readings == [] {
      assert Earned(0, b.rate) == 0.0;
    } else {
      var earlier, now := readings[..|readings| - 1], readings[|readings| - 1];
      k := BalanceSinceFull(b, earlier);
      TokensAccountedFor(b, earlier);
      OneCall(After(b, earlier), now);
      if After(b, earlier).tokens + Earned(Forward(After(b, earlier), now), b.rate) > b.burst {
        k := |readings|;
        assert readings[..k] == readings && readings[k..] == [];
        assert Earned(0, b.rate) == 0.0;
      } else {
        BalanceMore(b, earlier, k, now, if k == 0 then b.tokens else b.burst - 1.0);
        assert readings == earlier + [now];
      }
    }
  }

  lemma BalanceMore(b: Bucket, earlier: seq<nat>, k: nat, now: nat, held: real)
    requires b.Valid() && b.burst >= 1.0 && k <= |earlier| && After(b, earlier).Valid()
    requires After(b, earlier).rate == b.rate && After(b, earlier).burst == b.burst
    requires Balanced(After(b, earlier[..k]), held, earlier[k..], After(b, earlier).tokens)
    requires After(b, earlier).tokens + Earned(Forward(After(b, earlier), now), b.rate) <= b.burst
    ensures Balanced(After(b, (earlier + [now])[..k]), held, (earlier + [now])[k..], After(b, earlier + [now]).tokens)
  {
    TokensAccountedFor(b, earlier[..k]);
    SplitRun(b, earlier, k, now);
    AfterMore(b, earlier, now);
    BalanceOnward(After(b, earlier[..k]), held, earlier[k..], now);
  }

  /** A run cut after k calls, one more call made. */
  lemma SplitRun(b: Bucket, earlier: seq<nat>, k: nat, now: nat)
    requires k <= |earlier|
    ensures (earlier + [now])[..k] == earlier[..k] && (earlier + [now])[k..] == earlier[k..] + [now]
    ensures After(After(b, earlier[..k]), earlier[k..]) == After(b, earlier)
  {
    assert earlier[..k] + earlier[k..] == earlier;
    AfterBoth(b, earlier[..k], earlier[k..]);
  }

  lemma BalanceOnward(c: Bucket, held: real, rest: seq<nat>, now: nat)
    requires After(c, rest).Valid() && After(c, rest).burst >= 1.0 && After(c, rest).rate == c.rate
    requires Balanced(c, held, rest, After(c, rest).tokens)
    requires After(c, rest).tokens + Earned(Forward(After(c, rest), now), c.rate) <= After(c, rest).burst
    ensures Balanced(c, held, rest + [now], Spend(After(c, rest), now).1.tokens)
  {
    AfterMore(c, rest, now);
    OneCall(After(c, rest), now);
    EarnedAdds(Progress(c, rest), Forward(After(c, rest), now), c.rate);
  }

  /** A call is refused exactly when less than a whole token was left of what the bucket held when
      it was last full, or at the start if it has not been since, and of what the forward progress
      of the clock has earned from then to now, after those allowed since. */
  lemma RefusedExactly(b: Bucket, readings: seq<nat>, now: nat) returns (k: nat)
    requires b.Valid() && b.burst >= 1.0
    ensures k <= |readings|
    ensures var full, rest := After(b, readings[..k]), readings[k..];
      var held := if k == 0 then b.tokens else b.burst - 1.0;
      Denied(b, readings + [now]) > Denied(b, readings) <==>
        held + Earned(Progress(full, rest + [now]), b.rate) - Allowed(full, rest) as real < 1.0
  {
    k := BalanceSinceFull(b, readings);
    TokensAccountedFor(b, readings);
    TokensAccountedFor(b, readings[..k]);
    SplitRun(b, readings, k, now);
    AfterMore(b, readings, now);
    OneCall(After(b, readings), now);
    var full, rest := After(b, readings[..k]), readings[k..];
    AfterMore(full, rest, now);
    EarnedAdds(Progress(full, rest), Forward(After(b, readings), now), b.rate);
  }

  /** At least a token's worth of time between one reading and the next. */
  ghost predicate Steady(rate: real, readings: seq<nat>) {
    forall i :: 0 <= i && i + 1 < |readings| ==> TokenApart(rate, readings[i], readings[i + 1])
  }

  predicate TokenApart(rate: real, earlier: nat, later: nat) {
    earlier < later && Earned(later - earlier, rate) >= 1.0
  }

  /** A token is earned in one rate-th of a second, and n of them in n times that. */
  lemma EarnedIn(progress: nat, rate: real, n: real)
    requires rate > 0.0
    ensures Earned(progress, rate) >= n <==> progress as real >= n * SECOND / rate
  {
    var p := progress as real;
    assert Earned(progress, rate) == p * rate / SECOND;
    assert n * SECOND / rate * rate == n * SECOND;
    if p >= n * SECOND / rate {
      assert p * rate >= n * SECOND / rate * rate;
    } else {
      assert p * rate < n * SECOND / rate * rate;
    }
  }

  lemma GapAllows(b: Bucket, now: nat)
    requires b.Valid() && b.burst >= 1.0 && b.last > 0 && TokenApart(b.rate, b.last, now)
    ensures Spend(b, now).0 && Spend(b, now).1.last == now
  {
    OneCall(b, now);
  }

  lemma FirstAllowed(b: Bucket, now: nat)
    requires b.Valid() && b.tokens >= 1.0 && now > 0 && now >= b.last
    ensures Spend(b, now).0 && Spend(b, now).1.last == now
  {
    OneCall(b, now);
    assert Earned(Forward(b, now), b.rate) >= 0.0;
  }

  lemma {:induction false} SteadyRun(b: Bucket, readings: seq<nat>)
    requires b.Valid() && b.tokens >= 1.0 && Steady(b.rate, readings)
    requires readings != [] ==> readings[0] > 0 && readings[0] >= b.last
    ensures Allowed(b, readings) == |readings|
    ensures readings != [] ==> After(b, readings).last == readings[|readings| - 1] > 0
  {
    if readings != [] {
      var earlier, now := readings[..|readings| - 1], readings[|readings| - 1];
      if earlier == [] {
        FirstAllowed(b, now);
      } else {
        assert TokenApart(b.rate, readings[|readings| - 2], readings[|readings| - 1]);
        SteadyRun(b, earlier);
        TokensAccountedFor(b, earlier);
        GapAllows(After(b, earlier), now);
      }
    }
  }

  /** A client that keeps to the rate is never refused: with a token to begin with and one's worth
      of time between one message and the next, every message is allowed. */
  lemma SteadyNeverRefused(b: Bucket, readings: seq<nat>)
    requires b.Valid() && b.tokens >= 1.0 && Steady(b.rate, readings)
    requires readings != [] ==> readings[0] > 0 && readings[0] >= b.last
    ensures Denied(b, readings) == 0
  {
    SteadyRun(b, readings);
  }

  lemma FullAgain(b: Bucket, now: nat)
    requires b.Valid() && b.burst >= 1.0 && 0 < b.last < now && Earned(now - b.last, b.rate) >= b.burst
    ensures Spend(b, now).0 && Spend(b, now).1.Valid() && Spend(b, now).1.tokens == b.burst - 1.0
  {
    OneCall(b, now);
    SpendBound(b, now);
  }

  /** However it was used before: after the time in which a whole burst is earned has passed
      quietly, the next burst of messages is allowed, whatever the clock then does. */
  lemma QuietThenBurst(b: Bucket, before: seq<nat>, burst: seq<nat>)
    requires b.Valid() && b.burst >= 1.0 && burst != [] && |burst| as real <= b.burst
    requires var c := After(b, before);
      0 < c.last < burst[0] && Earned(burst[0] - c.last, b.rate) >= b.burst
    ensures Denied(After(b, before), burst) == 0
  {
    TokensAccountedFor(b, before);
    FullAgain(After(b, before), burst[0]);
    AllowedFromFirst(After(b, before), burst);
    NoneRefusedYet(Spend(After(b, before), burst[0]).1, burst[1..]);
  }

  lemma {:induction false} AllowedFromFirst(b: Bucket, readings: seq<nat>)
    requires readings != []
    ensures var first := Spend(b, readings[0]);
      && Allowed(b, readings) == Allowed(first.1, readings[1..]) + (if first.0 then 1 else 0)
      && After(b, readings) == After(first.1, readings[1..])
  {
    var earlier := readings[..|readings| - 1];
    if earlier == [] {
      assert readings == [] + [readings[0]];
      AfterMore(b, [], readings[0]);
    } else {
      AllowedFromFirst(b, earlier);
      assert readings[1..][..|readings| - 2] == earlier[1..];
    }
  }
}
