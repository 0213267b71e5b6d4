/** The sealed channel: internal/ws/session.go.

    The AEAD (ChaCha20-Poly1305, RFC 8439 section 2.8) is ideal: a body opens under the
    key, nonce and additional data it was sealed under, to what was sealed, and under
    no others. Key derivation (HKDF, RFC 5869) is injective in its inputs. */
module Session {
  import opened Common
  import opened Digits

  const TWO64: nat := 0x1_0000_0000_0000_0000
  type U64 = n: nat | n < TWO64
  const NONCE_SIZE := 12

  const INFO_TO_APP := "leavesafe/v2 session server-to-app"
  const INFO_TO_DAEMON := "leavesafe/v2 session app-to-server"

  /** A directional key, by what it was derived from. */
  datatype Key = Derived(secret: string, salt: string, info: string)

  datatype Body =
    | Sealed(key: Key, nonce: seq<nat>, plaintext: string, ad: seq<nat>)
    | Noise(data: string)

  function AeadOpen(key: Key, nonce: seq<nat>, body: Body, ad: seq<nat>): Option<string> {
    if body.Sealed? && body.key == key && body.nonce == nonce && body.ad == ad
    then Some(body.plaintext) else None
  }

  /** What arrives on the wire, once parsed as far as it will parse. */
  datatype Frame =
    | Frame(seqNo: U64, body: Body)
    | NotSealed        // not JSON, or not of the sealed type
    | BadBase64

  datatype Refusal = ENotSealed | EBadBody | EOutOfOrder | EDidNotOpen | ENeedsKeyAndNonces

  /** The counter as eight bytes, big-endian. */
  function CounterBytes(n: U64): (b: seq<nat>)
    ensures |b| == 8 && InBase(b, 256)
  {
    Digits.Digits(n, 256, 8)
  }

  /** Four zeroes and the counter. */
  function NonceFor(n: U64): (b: seq<nat>)
    ensures |b| == NONCE_SIZE && InBase(b, 256)
  {
    [0, 0, 0, 0] + CounterBytes(n)
  }

  lemma NonceInjective(m: U64, n: U64)
    ensures NonceFor(m) == NonceFor(n) ==> m == n
    ensures CounterBytes(m) == CounterBytes(n) ==> m == n
  {
    assert Pow(256, 2) == 65536;
    assert Pow(256, 4) == 0x1_0000_0000;
    assert Pow(256, 6) == 0x1_0000_0000_0000;
    assert Pow(256, 8) == TWO64;
    assert NonceFor(m)[4..] == CounterBytes(m) && NonceFor(n)[4..] == CounterBytes(n);
    if CounterBytes(m) == CounterBytes(n) {
      DigitsInjective(m, n, 256, 8);
    }
  }

  /** The number eight bytes spell, most significant first. */
  function BigEndian(b: seq<nat>): nat
    requires |b| == 8
  {
    b[0] * 0x100_0000_0000_0000 + b[1] * 0x1_0000_0000_0000 + b[2] * 0x100_0000_0000 + b[3] * 0x1_0000_0000
    + b[4] * 0x100_0000 + b[5] * 0x1_0000 + b[6] * 0x100 + b[7]
  }

  lemma ValueOfEight(b: seq<nat>)
    requires |b| == 8
    ensures Value(b, 256) == BigEndian(b)
  {
    assert Value(b[..1], 256) == b[0] by {
      assert b[..1][..0] == [];
    }
    assert forall i :: 1 <= i < 8 ==> b[..i + 1][..i] == b[..i];
    assert Value(b[..2], 256) == b[0] * 256 + b[1];
    assert Value(b[..3], 256) == b[0] * 0x1_0000 + b[1] * 256 + b[2];
    assert Value(b[..4], 256) == b[0] * 0x100_0000 + b[1] * 0x1_0000 + b[2] * 256 + b[3];
    assert Value(b[..5], 256) == Value(b[..4], 256) * 256 + b[4];
    assert Value(b[..6], 256) == Value(b[..5], 256) * 256 + b[5];
    assert Value(b[..7], 256) == Value(b[..6], 256) * 256 + b[6];
    assert b[..8] == b;
  }

  /** What goes on the wire with a frame: four zeroes and the counter's eight bytes, the most
      significant first, as the nonce, and the same eight bytes as additional data. */
  lemma NonceSpellsCounter(n: U64)
    ensures NonceFor(n)[..4] == [0, 0, 0, 0] && BigEndian(NonceFor(n)[4..]) == n
    ensures BigEndian(CounterBytes(n)) == n
    ensures forall i :: 0 <= i < NONCE_SIZE ==> NonceFor(n)[i] < 256
  {
    assert Pow(256, 2) == 65536;
    assert Pow(256, 4) == 0x1_0000_0000;
    assert Pow(256, 6) == 0x1_0000_0000_0000;
    assert Pow(256, 8) == TWO64;
    ValueOfDigits(n, 256, 8);
    ValueOfEight(CounterBytes(n));
    assert NonceFor(n)[4..] == CounterBytes(n);
  }

  function SealedBody(key: Key, n: U64, plaintext: string): Body {
    Sealed(key, NonceFor(n), plaintext, CounterBytes(n))
  }

  // ---------------------------------------------------------------- sealing

  /** The sending half of a session: its key and the counter the next frame goes under. */
  datatype Tx = Tx(key: Key, sent: U64)

  /** The counter after this one; it wraps at 64 bits. */
  function NextCounter(n: U64): U64 {
    if n == TWO64 - 1 then 0 else n + 1
  }

  function SealedFrame(tx: Tx, plaintext: string): Frame {
    Frame(tx.sent, SealedBody(tx.key, tx.sent, plaintext))
  }

  function AfterSeal(tx: Tx): Tx {
    tx.(sent := NextCounter(tx.sent))
  }

  /** The sender after sealing some messages, one after another. */
  function SealAll(tx: Tx, msgs: seq<string>): Tx {
    if msgs == [] then tx else AfterSeal(SealAll(tx, msgs[..|msgs| - 1]))
  }

  /** The frames it makes of them. */
  function SealedRun(tx: Tx, msgs: seq<string>): (fs: seq<Frame>)
    ensures |fs| == |msgs|
  {
    if msgs == [] then []
    else
      var earlier := msgs[..|msgs| - 1];
      SealedRun(tx, earlier) + [SealedFrame(SealAll(tx, earlier), msgs[|msgs| - 1])]
  }

  /** The counter of a fresh session after any number of frames is that number, wrapped. */
  lemma {:induction false} CounterAfter(tx: Tx, msgs: seq<string>)
    requires tx.sent == 0
    ensures SealAll(tx, msgs) == Tx(tx.key, |msgs| % TWO64)
  {
    if msgs != [] {
      CounterAfter(tx, msgs[..|msgs| - 1]);
      WrapNext(|msgs| - 1);
    }
  }

  lemma WrapNext(n: nat)
    ensures NextCounter(n % TWO64) == (n + 1) % TWO64
  {
  }

  /** Frame k of a fresh session carries message k, under counter k wrapped at 64 bits. */
  lemma NthFrame(tx: Tx, msgs: seq<string>, k: nat)
    requires tx.sent == 0 && k < |msgs|
    ensures SealedRun(tx, msgs)[k] == Frame(k % TWO64, SealedBody(tx.key, k % TWO64, msgs[k]))
  {
    FrameUnder(tx, msgs, k, k % TWO64);
  }

  lemma Unwrapped(i: U64)
    ensures i % TWO64 == i
  {
  }

  lemma {:induction false} FrameUnder(tx: Tx, msgs: seq<string>, k: nat, n: U64)
    requires tx.sent == 0 && k < |msgs| && n == k % TWO64
    ensures SealedRun(tx, msgs)[k] == Frame(n, SealedBody(tx.key, n, msgs[k]))
  {
    var earlier := msgs[..|msgs| - 1];
    if k < |earlier| {
      FrameUnder(tx, earlier, k, n);
    } else {
      CounterAfter(tx, earlier);
    }
  }

  // ---------------------------------------------------------------- receiving

  /** The receiving half of a session. */
  datatype Rx = Rx(key: Key, received: U64, seen: bool)

  /** A frame is taken when its counter moves forward and its body opens under it. */
  function Taken(rx: Rx, f: Frame): Option<string> {
    if f.Frame? && !(rx.seen && f.seqNo <= rx.received)
    then AeadOpen(rx.key, NonceFor(f.seqNo), f.body, CounterBytes(f.seqNo)) else None
  }

  function Receive(rx: Rx, f: Frame): Rx {
    if Taken(rx, f).Some? then rx.(received := f.seqNo, seen := true) else rx
  }

  function ReceiveAll(rx: Rx, fs: seq<Frame>): Rx {
    if fs == [] then rx else Receive(ReceiveAll(rx, fs[..|fs| - 1]), fs[|fs| - 1])
  }

  /** The plaintexts taken from a run of deliveries, with the counters they came under. */
  function Accepted(rx: Rx, fs: seq<Frame>): seq<(U64, string)> {
    if fs == [] then []
    else
      var earlier, f := fs[..|fs| - 1], fs[|fs| - 1];
      var t := Taken(ReceiveAll(rx, earlier), f);
      Accepted(rx, earlier) + if t.Some? then [(f.seqNo, t.value)] else []
  }

  /** Nobody but the peer can seal under the receiving key: any body under it that
      arrives is one of those the peer sealed, under any counter at all. */
  ghost predicate OnlyPeerSeals(key: Key, sent: seq<string>, fs: seq<Frame>) {
    |sent| <= TWO64 &&
    forall k :: 0 <= k < |fs| && fs[k].Frame? && fs[k].body.Sealed? && fs[k].body.key == key ==>
      exists i: U64 :: i < |sent| && fs[k].body == SealedBody(key, i, sent[i])
  }

  /** In order, each at most once, and each what the peer sealed under that counter. */
  ghost predicate InOrder(sent: seq<string>, got: seq<(U64, string)>) {
    && (forall j :: 0 <= j < |got| ==> got[j].0 < |sent| && got[j].1 == sent[got[j].0])
    && (forall j, k :: 0 <= j < k < |got| ==> got[j].0 < got[k].0)
  }

  /** The receiver's counter is that of the last frame it took. */
  ghost predicate Tracks(rx: Rx, got: seq<(U64, string)>) {
    rx.seen == (got != []) && (got != [] ==> rx.received == got[|got| - 1].0)
  }

  lemma TakenIsPeers(rx: Rx, sent: seq<string>, f: Frame)
    requires OnlyPeerSeals(rx.key, sent, [f]) && Taken(rx, f).Some?
    ensures f.seqNo < |sent| && Taken(rx, f).value == sent[f.seqNo]
  {
    assert [f][0] == f;
    var i: U64 :| i < |sent| && f.body == SealedBody(rx.key, i, sent[i]);
    NonceInjective(f.seqNo, i);
  }

  /** Taking one more message, with a counter beyond the last one taken. */
  lemma InOrderMore(sent: seq<string>, rx: Rx, got: seq<(U64, string)>, n: U64)
    requires InOrder(sent, got) && Tracks(rx, got)
    requires n < |sent| && !(rx.seen && n <= rx.received)
    ensures InOrder(sent, got + [(n, sent[n])])
  {
    var more := got + [(n, sent[n])];
    forall j, k | 0 <= j < k < |more|
      ensures more[j].0 < more[k].0
    {
      if k == |got| {
        assert more[j] == got[j] && got[j].0 <= got[|got| - 1].0;
      }
    }
  }

  /** Whatever the network drops, repeats, reorders or makes up, a fresh receiver takes
      an in-order subsequence of what its peer sealed, each message at most once. */
  lemma {:induction false} NetworkSafety(rx: Rx, sent: seq<string>, fs: seq<Frame>)
    requires !rx.seen && OnlyPeerSeals(rx.key, sent, fs)
    ensures InOrder(sent, Accepted(rx, fs))
    ensures Tracks(ReceiveAll(rx, fs), Accepted(rx, fs)) && ReceiveAll(rx, fs).key == rx.key
  {
    if fs != [] {
      var earlier, f := fs[..|fs| - 1], fs[|fs| - 1];
      assert forall k :: 0 <= k < |earlier| ==> earlier[k] == fs[k];
      NetworkSafety(rx, sent, earlier);
      var now := ReceiveAll(rx, earlier);
      if Taken(now, f).Some? {
        assert OnlyPeerSeals(now.key, sent, [f]);
        TakenIsPeers(now, sent, f);
        InOrderMore(sent, now, Accepted(rx, earlier), f.seqNo);
      }
    }
  }

  /** The network delivers frames of the peer's run, whole or taken apart, and whatever else it
      can make without the peer's key. */
  ghost predicate Carries(key: Key, run: seq<Frame>, fs: seq<Frame>) {
    forall k :: 0 <= k < |fs| && fs[k].Frame? && fs[k].body.Sealed? && fs[k].body.key == key ==>
      exists i :: 0 <= i < |run| && run[i].Frame? && fs[k].body == run[i].body
  }

  /** Below the wrap the counter is the number itself. */
  lemma FrameBelowWrap(tx: Tx, msgs: seq<string>, i: U64)
    requires tx.sent == 0 && i < |msgs|
    ensures SealedRun(tx, msgs)[i] == Frame(i, SealedBody(tx.key, i, msgs[i]))
  {
    Unwrapped(i);
    FrameUnder(tx, msgs, i, i);
  }

  lemma BodyIsPeers(tx: Tx, msgs: seq<string>, body: Body)
    requires tx.sent == 0 && |msgs| <= TWO64
    requires exists i :: 0 <= i < |msgs| && SealedRun(tx, msgs)[i].Frame? && body == SealedRun(tx, msgs)[i].body
    ensures exists i: U64 :: i < |msgs| && body == SealedBody(tx.key, i, msgs[i])
  {
    var i :| 0 <= i < |msgs| && SealedRun(tx, msgs)[i].Frame? && body == SealedRun(tx, msgs)[i].body;
    var n: U64 := i;
    FrameBelowWrap(tx, msgs, n);
  }

  lemma CarriesPeers(tx: Tx, msgs: seq<string>, fs: seq<Frame>)
    requires tx.sent == 0 && |msgs| <= TWO64 && Carries(tx.key, SealedRun(tx, msgs), fs)
    ensures OnlyPeerSeals(tx.key, msgs, fs)
  {
    forall k | 0 <= k < |fs| && fs[k].Frame? && fs[k].body.Sealed? && fs[k].body.key == tx.key
      ensures exists i: U64 :: i < |msgs| && fs[k].body == SealedBody(tx.key, i, msgs[i])
    {
      BodyIsPeers(tx, msgs, fs[k].body);
    }
  }

  /** From one end to the other: of the messages one fresh session seals, the session that
      opens them takes an in-order subsequence, each at most once, whatever the network does
      with the frames in between. */
  lemma EndToEnd(tx: Tx, rx: Rx, msgs: seq<string>, fs: seq<Frame>)
    requires tx.sent == 0 && !rx.seen && rx.key == tx.key && |msgs| <= TWO64
    requires Carries(tx.key, SealedRun(tx, msgs), fs)
    ensures InOrder(msgs, Accepted(rx, fs))
  {
    CarriesPeers(tx, msgs, fs);
    NetworkSafety(rx, msgs, fs);
  }

  /** And over a network that carries the run as it is, it takes all of them. */
  lemma EndToEndHonest(tx: Tx, rx: Rx, msgs: seq<string>)
    requires tx.sent == 0 && !rx.seen && rx.key == tx.key && |msgs| <= TWO64
    ensures |Accepted(rx, SealedRun(tx, msgs))| == |msgs|
    ensures forall k :: 0 <= k < |msgs| ==> Accepted(rx, SealedRun(tx, msgs))[k].1 == msgs[k]
  {
    var numbered: seq<(U64, string)> := seq(|msgs|, k requires 0 <= k < |msgs| => (k, msgs[k]));
    forall k | 0 <= k < |msgs|
      ensures SealedRun(tx, msgs)[k] == Frames(rx.key, numbered)[k]
    {
      FrameBelowWrap(tx, msgs, k);
    }
    assert SealedRun(tx, msgs) == Frames(rx.key, numbered);
    HonestDelivery(rx, numbered);
  }

  /** The frames the peer seals some messages into, under the counters given. */
  function Frames(key: Key, msgs: seq<(U64, string)>): seq<Frame> {
    seq(|msgs|, k requires 0 <= k < |msgs| => Frame(msgs[k].0, SealedBody(key, msgs[k].0, msgs[k].1)))
  }

  /** Frames sealed by the peer and delivered in order, none repeated, are all taken,
      whatever was dropped in between. */
  lemma {:induction false} HonestDelivery(rx: Rx, msgs: seq<(U64, string)>)
    requires !rx.seen
    requires forall j, k :: 0 <= j < k < |msgs| ==> msgs[j].0 < msgs[k].0
    ensures Accepted(rx, Frames(rx.key, msgs)) == msgs
    ensures Tracks(ReceiveAll(rx, Frames(rx.key, msgs)), msgs) && ReceiveAll(rx, Frames(rx.key, msgs)).key == rx.key
  {
    if msgs != [] {
      var front, m := msgs[..|msgs| - 1], msgs[|msgs| - 1];
      HonestDelivery(rx, front);
      var fs := Frames(rx.key, msgs);
      assert fs[..|fs| - 1] == Frames(rx.key, front);
      assert msgs == front + [m];
      assert front != [] ==> front[|front| - 1] == msgs[|msgs| - 2];
    }
  }

  // ---------------------------------------------------------------- the session object

  class Session {
    const send: Key
    const receive: Key
    var sent: U64
    var received: U64
    var seen: bool

    ghost function Receiver(): Rx
      reads this
    {
      Rx(receive, received, seen)
    }

    ghost function Sender(): Tx
      reads this
    {
      Tx(send, sent)
    }

    constructor (sendKey: Key, receiveKey: Key)
      ensures send == sendKey && receive == receiveKey && sent == 0 && received == 0 && !seen
    {
      send, receive, sent, received, seen := sendKey, receiveKey, 0, 0, false;
    }

    /** The counter is the next one, and wraps at 64 bits. */
    method Seal(plaintext: string) returns (f: Frame)
      modifies this`sent
      ensures f == SealedFrame(old(Sender()), plaintext) && Sender() == AfterSeal(old(Sender()))
    {
      var n := sent;
      sent := if sent == TWO64 - 1 then 0 else sent + 1;
      f := Frame(n, Sealed(send, NonceFor(n), plaintext, CounterBytes(n)));
    }

    /** A refused frame changes nothing. */
    method Open(f: Frame) returns (r: Result<string, Refusal>)
      modifies this`received, this`seen
      ensures Receiver() == Receive(old(Receiver()), f)
      ensures r.Ok? <==> Taken(old(Receiver()), f).Some?
      ensures r.Ok? ==> r.value == Taken(old(Receiver()), f).value
      ensures r.Err? ==> received == old(received) && seen == old(seen)
      ensures r == Err(EOutOfOrder) <==> f.Frame? && old(seen) && f.seqNo <= old(received)
    {
      match f
      case NotSealed => return Err(ENotSealed);
      case BadBase64 => return Err(EBadBody);
      case Frame(n, body) =>
        if seen && n <= received {
          return Err(EOutOfOrder);
        }
        var plaintext := AeadOpen(receive, NonceFor(n), body, CounterBytes(n));
        if plaintext.None? {
          return Err(EDidNotOpen);
        }
        received, seen := n, true;
        r := Ok(plaintext.value);
    }
  }

  /** The two directional keys of a connection. */
  function ToApp(secret: string, serverNonce: string, clientNonce: string): Key {
    Derived(secret, serverNonce + clientNonce, INFO_TO_APP)
  }

  function ToDaemon(secret: string, serverNonce: string, clientNonce: string): Key {
    Derived(secret, serverNonce + clientNonce, INFO_TO_DAEMON)
  }

  method NewSession(key: string, serverNonce: string, clientNonce: string, forServer: bool)
    returns (r: Result<Session, Refusal>)
    ensures r.Err? <==> key == "" || serverNonce == "" || clientNonce == ""
    ensures r.Ok? ==> fresh(r.value) && r.value.sent == 0 && !r.value.seen
    ensures r.Ok? ==>
      && r.value.send == (if forServer then ToApp else ToDaemon)(key, serverNonce, clientNonce)
      && r.value.receive == (if forServer then ToDaemon else ToApp)(key, serverNonce, clientNonce)
  {
    if |key| == 0 || serverNonce == "" || clientNonce == "" {
      return Err(ENeedsKeyAndNonces);
    }
    var salt := serverNonce + clientNonce;
    var toApp, toDaemon := Derived(key, salt, INFO_TO_APP), Derived(key, salt, INFO_TO_DAEMON);
    var s := if forServer then (toApp, toDaemon) else (toDaemon, toApp);
    var made := new Session(s.0, s.1);
    r := Ok(made);
  }

  // ---------------------------------------------------------------- nonces

  /** Two frames of one run of a fresh session go out under the same nonce exactly when they
      are a multiple of 2^64 frames apart: below that no (key, nonce) pair comes up twice. */
  lemma NonceReuseExactlyAtWrap(tx: Tx, msgs: seq<string>, i: nat, j: nat)
    requires tx.sent == 0 && i < |msgs| && j < |msgs|
    ensures var fs := SealedRun(tx, msgs);
      && fs[i].Frame? && fs[j].Frame? && fs[i].body.Sealed? && fs[j].body.Sealed?
      && fs[i].body.key == fs[j].body.key == tx.key
      && (fs[i].body.nonce == fs[j].body.nonce <==> i % TWO64 == j % TWO64)
      && (i < j < TWO64 ==> fs[i].body.nonce != fs[j].body.nonce)
  {
    var m: U64, n: U64 := i % TWO64, j % TWO64;
    FrameUnder(tx, msgs, i, m);
    FrameUnder(tx, msgs, j, n);
    SameNonce(m, n);
    BelowWrap(i, j);
  }

  lemma SameNonce(m: U64, n: U64)
    ensures NonceFor(m) == NonceFor(n) <==> m == n
  {
    NonceInjective(m, n);
  }

  lemma BelowWrap(i: nat, j: nat)
    ensures i < j < TWO64 ==> i % TWO64 != j % TWO64
  {
  }

  /** The two directions of one connection never share a key, whatever their counters. */
  lemma DirectionsApart(secret: string, serverNonce: string, clientNonce: string, i: U64, j: U64, p: string, q: string)
    ensures SealedBody(ToApp(secret, serverNonce, clientNonce), i, p)
            != SealedBody(ToDaemon(secret, serverNonce, clientNonce), j, q)
    ensures ToApp(secret, serverNonce, clientNonce) != ToDaemon(secret, serverNonce, clientNonce)
  {
    assert INFO_TO_APP[21] == 's' && INFO_TO_DAEMON[21] == 'a';
  }

  /** Nonces of the fixed width on the wire: a key belongs to one pair of them only. */
  lemma KeysNameTheirNonces(secret: string, s1: string, c1: string, s2: string, c2: string)
    requires |s1| == |s2| && ToApp(secret, s1, c1) == ToApp(secret, s2, c2)
    ensures s1 == s2 && c1 == c2
  {
    assert (s1 + c1)[..|s1|] == s1 && (s2 + c2)[..|s2|] == s2;
    assert (s1 + c1)[|s1|..] == c1 && (s2 + c2)[|s2|..] == c2;
  }
}
