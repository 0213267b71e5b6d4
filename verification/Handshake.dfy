/** The pairing handshake: internal/ws/handshake.go.

    HMAC-SHA256 is ideal: a proof is known by the key and the text it was made from. */
module Handshake {

  const DOMAIN := "leavesafe/v2"
  const SERVER := "server"
  const CLIENT := "client"
  const NONCE_HEX_LEN := 64

  /** What Argon2id makes of a pairing key: thirty-two bytes. */
  type Stretched = k: string | |k| == 32 witness seq(32, _ => 'k')

  datatype Proof = NoProof | Hmac(key: Stretched, text: string) | Junk(data: string)

  predicate HexDigit(c: char) {
    '0' <= c <= '9' || 'a' <= c <= 'f'
  }

  /** Sixty-four lower-case hex digits. */
  predicate ValidNonce(s: string) {
    |s| == NONCE_HEX_LEN && forall i :: 0 <= i < |s| ==> HexDigit(s[i])
  }

  method IsValidNonce(s: string) returns (ok: bool)
    ensures ok <==> ValidNonce(s)
  {
    if |s| != NONCE_HEX_LEN {
      return false;
    }
    for i := 0 to |s|
      invariant forall j :: 0 <= j < i ==> HexDigit(s[j])
    {
      var isDigit := '0' <= s[i] <= '9';
      var isLowerHex := 'a' <= s[i] <= 'f';
      if !isDigit && !isLowerHex {
        return false;
      }
    }
    ok := true;
  }

  /** What one side's proof is made over. */
  function Transcript(role: string, serverNonce: string, clientNonce: string, encrypt: string): string {
    DOMAIN + "|" + role + "|" + serverNonce + "|" + clientNonce + "|" + encrypt
  }

  function HandshakeProof(key: Stretched, role: string, serverNonce: string, clientNonce: string,
                          encrypt: string): Proof
  {
    Hmac(key, Transcript(role, serverNonce, clientNonce, encrypt))
  }

  predicate ProofHolds(key: Stretched, role: string, serverNonce: string, clientNonce: string, encrypt: string,
                       offered: Proof)
  {
    offered == HandshakeProof(key, role, serverNonce, clientNonce, encrypt)
  }

  lemma FirstCharacter(a: string, x: string)
    ensures (a + "|" + x)[0] == if a == "" then '|' else a[0]
  {
  }

  /** Up to a separator that the parts before it do not hold, two texts agree part by part. */
  lemma {:induction false} SameUpToBar(a: string, x: string, b: string, y: string)
    requires '|' !in a && '|' !in b && a + "|" + x == b + "|" + y
    ensures a == b && x == y
  {
    FirstCharacter(a, x);
    FirstCharacter(b, y);
    if a == "" {
      assert (a + "|" + x)[1..] == x && (b + "|" + y)[1..] == y;
    } else {
      assert (a + "|" + x)[1..] == a[1..] + "|" + x;
      assert (b + "|" + y)[1..] == b[1..] + "|" + y;
      SameUpToBar(a[1..], x, b[1..], y);
      assert a == [a[0]] + a[1..] && b == [b[0]] + b[1..];
    }
  }

  lemma BarAfter(a: string, b: string, c: string)
    ensures a + "|" + b + "|" + c == a + "|" + (b + "|" + c)
  {
  }

  /** A proof speaks for one role, one pair of nonces and one construction only: change any
      of them and it is no longer the proof. */
  lemma ProofSpeaksForOne(k: Stretched, role: string, s: string, c: string, e: string,
                          k2: Stretched, role2: string, s2: string, c2: string, e2: string)
    requires '|' !in role && '|' !in role2 && '|' !in s && '|' !in s2 && '|' !in c && '|' !in c2
    requires ProofHolds(k2, role2, s2, c2, e2, HandshakeProof(k, role, s, c, e))
    ensures k == k2 && role == role2 && s == s2 && c == c2 && e == e2
  {
    Nested(role, s, c, e);
    Nested(role2, s2, c2, e2);
    SameUpToBar(DOMAIN, role + "|" + (s + "|" + (c + "|" + e)), DOMAIN, role2 + "|" + (s2 + "|" + (c2 + "|" + e2)));
    SameUpToBar(role, s + "|" + (c + "|" + e), role2, s2 + "|" + (c2 + "|" + e2));
    SameUpToBar(s, c + "|" + e, s2, c2 + "|" + e2);
    SameUpToBar(c, e, c2, e2);
  }

  lemma Nested(role: string, s: string, c: string, e: string)
    ensures Transcript(role, s, c, e) == DOMAIN + "|" + (role + "|" + (s + "|" + (c + "|" + e)))
  {
    BarAfter(DOMAIN + "|" + role + "|" + s, c, e);
    BarAfter(DOMAIN + "|" + role, s, c + "|" + e);
    BarAfter(DOMAIN, role, s + "|" + (c + "|" + e));
  }

  /** An answer from this end never passes for one from the other, whatever the nonces. */
  lemma EchoIsNoProof(k: Stretched, k2: Stretched, s: string, c: string, e: string, s2: string, c2: string, e2: string)
    ensures !ProofHolds(k2, CLIENT, s2, c2, e2, HandshakeProof(k, SERVER, s, c, e))
  {
    var p, q := Transcript(SERVER, s, c, e), Transcript(CLIENT, s2, c2, e2);
    assert p[|DOMAIN| + 1] == 's' && q[|DOMAIN| + 1] == 'c';
  }
}
