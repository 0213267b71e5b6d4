/** The pairing code a person types: internal/paircode/paircode.go.

    Thirteen bytes (address, port, key) are written as twenty-one base-32 characters
    through a 16-bit accumulator that overflows, and read back the same way. */
module Paircode {
  import opened Common
  import opened Digits
  import Luhn

  const ALPHABET := "0123456789ABCDEFGHJKMNPQRSTVWXYZ"
  const KEY_BYTES := 7
  const KEY_DIGITS := 16
  const PAYLOAD_BYTES := 13
  const CODE_CHARS := 21
  const MAX_KEY_VALUE: nat := 9999999999999999

  datatype Error = NotACode

  /** Library functions: unicode.ToUpper on one rune, net.ParseIP followed by To4, and
      net.IP.String on four bytes. */
  datatype Library = Library(
    upper: char -> char,
    parseV4: string -> Option<seq<nat>>,
    format: seq<nat> -> string)

  predicate IsV4(b: seq<nat>) {
    |b| == 4 && InBase(b, 256)
  }

  /** What is assumed of them: characters of a code are their own capitals, an address
      parses to four bytes, and four bytes printed parse back. */
  ghost predicate Sound(lib: Library) {
    && (forall c :: c in ALPHABET || c == '-' ==> lib.upper(c) == c)
    && (forall h :: lib.parseV4(h).Some? ==> IsV4(lib.parseV4(h).value))
    && (forall b :: IsV4(b) ==> lib.parseV4(lib.format(b)) == Some(b))
  }

  // ---------------------------------------------------------------- the alphabet

  lemma {:induction false} AlphabetAscends(i: nat, j: nat)
    requires i < j < 32
    ensures ALPHABET[i] < ALPHABET[j]
  {
    AlphabetSteps(j - 1);
    if i < j - 1 {
      AlphabetAscends(i, j - 1);
    }
  }

  lemma AlphabetSteps(i: nat)
    requires i < 31
    ensures ALPHABET[i] < ALPHABET[i + 1]
  {
  }

  /** A character's place in the alphabet. */
  ghost predicate PlaceOf(c: char, v: nat) {
    v < 32 && ALPHABET[v] == c
  }

  lemma PlaceUnique(c: char, v: nat, w: nat)
    requires PlaceOf(c, v) && PlaceOf(c, w)
    ensures v == w
  {
    if v < w {
      AlphabetAscends(v, w);
    } else if w < v {
      AlphabetAscends(w, v);
    }
  }

  method ValueOf(c: char) returns (v: Option<nat>)
    ensures v.Some? ==> PlaceOf(c, v.value)
    ensures v.None? ==> c !in ALPHABET
  {
    for i: int := 0 to |ALPHABET|
      invariant forall k :: 0 <= k < i ==> ALPHABET[k] != c
    {
      if ALPHABET[i] == c {
        return Some(i);
      }
    }
    v := None;
  }

  predicate OverAlphabet(s: string) {
    forall i :: 0 <= i < |s| ==> s[i] in ALPHABET
  }

  /** The characters for some base-32 digits. */
  function Chars(ds: seq<nat>): (s: string)
    requires InBase(ds, 32)
    ensures |s| == |ds| && forall i :: 0 <= i < |ds| ==> PlaceOf(s[i], ds[i])
    ensures OverAlphabet(s)
  {
    seq(|ds|, i requires 0 <= i < |ds| => ALPHABET[ds[i]])
  }

  /** The digits some characters of the alphabet stand for. */
  ghost predicate Reads(s: string, ds: seq<nat>) {
    |ds| == |s| && InBase(ds, 32) && forall i :: 0 <= i < |s| ==> PlaceOf(s[i], ds[i])
  }

  lemma ReadsUnique(s: string, a: seq<nat>, b: seq<nat>)
    requires Reads(s, a) && Reads(s, b)
    ensures a == b
  {
    forall i | 0 <= i < |s|
      ensures a[i] == b[i]
    {
      PlaceUnique(s[i], a[i], b[i]);
    }
  }

  function FindPlace(c: char, from: nat): (v: nat)
    requires exists v :: from <= v < |ALPHABET| && ALPHABET[v] == c
    ensures PlaceOf(c, v)
    decreases |ALPHABET| - from
  {
    if ALPHABET[from] == c then from else FindPlace(c, from + 1)
  }

  function DigitsIn(s: string): (ds: seq<nat>)
    requires OverAlphabet(s)
    ensures Reads(s, ds)
  {
    seq(|s|, i requires 0 <= i < |s| => FindPlace(s[i], 0))
  }

  // ---------------------------------------------------------------- the accumulator

  function P2(k: nat): (p: nat)
    ensures p >= 1
  {
    if k == 0 then 1 else 2 * P2(k - 1)
  }

  const WORD: nat := 0x1_0000

  lemma PowersOfTwo()
    ensures P2(0) == 1 && P2(1) == 2 && P2(2) == 4 && P2(3) == 8 && P2(4) == 16 && P2(5) == 32
    ensures P2(6) == 64 && P2(7) == 128 && P2(8) == 256 && P2(9) == 512 && P2(10) == 1024
    ensures P2(11) == 2048 && P2(12) == 4096
  {
    assert P2(5) == 32;
    assert P2(8) == 256;
    assert P2(10) == 1024;
  }

  /** v with some zero bits put after it. */
  function Scaled(v: nat, bits: nat): nat
    decreases bits, v
  {
    if bits == 0 then v else 2 * Scaled(v, bits - 1)
  }

  /** The low bits of a number. */
  function Low(x: nat, bits: nat): (r: nat)
    ensures r < P2(bits)
    decreases bits, x
  {
    if bits == 0 then 0 else 2 * Low(x / 2, bits - 1) + x % 2
  }

  /** A 16-bit word shifted left, and right: the left shift drops what does not fit. */
  function Shl(buffer: nat, k: nat): nat {
    Scaled(buffer, k) % WORD
  }

  function Shr(buffer: nat, k: nat): nat
    decreases k, buffer
  {
    if k == 0 then buffer else Shr(buffer / 2, k - 1)
  }

  lemma HalvedQuotient(n: nat, p: nat)
    requires p >= 1
    ensures (n / 2) / p == n / (2 * p)
    ensures n % (2 * p) == 2 * ((n / 2) % p) + n % 2
  {
    var q, r := (n / 2) / p, (n / 2) % p;
    assert n / 2 == q * p + r;
    assert q * (2 * p) == 2 * (q * p);
    RemainderIs(n, q, 2 * p, 2 * r + n % 2);
  }

  lemma {:induction false} ShrIs(buffer: nat, k: nat)
    ensures Shr(buffer, k) == buffer / P2(k)
    decreases k
  {
    if k > 0 {
      ShrIs(buffer / 2, k - 1);
      HalvedQuotient(buffer, P2(k - 1));
    }
  }

  lemma {:induction false} ScaledIs(v: nat, bits: nat)
    ensures Scaled(v, bits) == v * P2(bits)
    decreases bits
  {
    if bits > 0 {
      ScaledIs(v, bits - 1);
      Doubled(v, P2(bits - 1));
    }
  }

  lemma Doubled(v: nat, p: nat)
    ensures v * (2 * p) == 2 * (v * p)
  {
  }

  lemma {:induction false} LowIs(x: nat, bits: nat)
    ensures Low(x, bits) == x % P2(bits)
    decreases bits
  {
    if bits > 0 {
      LowIs(x / 2, bits - 1);
      HalvedQuotient(x, P2(bits - 1));
    }
  }

  /** Shifting k bits in keeps what was pending below them, although the word overflows:
      only the low bits are ever read. */
  lemma ShiftIn(buffer: nat, bits: nat, k: nat, x: nat)
    requires bits + k <= 16 && x < P2(k)
    ensures ((buffer * P2(k)) % WORD + x) % P2(bits + k) == (buffer % P2(bits)) * P2(k) + x
  {
    var p, q := P2(bits), P2(k);
    var m := P2(bits + k);
    WordSplits(bits + k);
    P2Sum(bits, k);
    Shifted(buffer, p, q, x, m, P2(16 - (bits + k)));
  }

  lemma WordSplits(n: nat)
    requires n <= 16
    ensures WORD == P2(n) * P2(16 - n)
  {
    P2Sum(n, 16 - n);
    PowersOfTwo();
    P2Sum(8, 8);
  }

  lemma Shifted(buffer: nat, p: nat, q: nat, x: nat, m: nat, t: nat)
    requires p >= 1 && x < q && m == p * q && WORD == m * t
    ensures ((buffer * q) % WORD + x) % m == (buffer % p) * q + x
  {
    var a, r := buffer / p, buffer % p;
    var c := (buffer * q) / WORD;
    assert buffer == a * p + r;
    MulDist(a * p, r, q);
    MulAssoc(a, p, q);
    assert (buffer * q) % WORD == buffer * q - c * WORD;
    MulAssoc(c, t, m);
    MulDist(a, -(c * t), m);
    assert r * q + x < m by {
      MulMonotone(r + 1, p, q);
      MulDist(r, 1, q);
    }
    ShiftedRemainder(buffer, q, x, m, t, a, r, c);
  }

  lemma ShiftedRemainder(buffer: nat, q: nat, x: nat, m: nat, t: nat, a: nat, r: nat, c: nat)
    requires buffer * q == a * m + r * q && 0 <= r * q + x < m
    requires (buffer * q) % WORD == buffer * q - c * WORD && WORD == m * t
    ensures ((buffer * q) % WORD + x) % m == r * q + x
  {
    MulAssoc(c, m, t);
    assert c * WORD == (c * t) * m by {
      MulAssoc(c, t, m);
      assert m * t == t * m;
    }
    MulDist(a, -(c * t), m);
    RemainderIs((buffer * q) % WORD + x, a - c * t, m, r * q + x);
  }

  /** Taking the top k of the pending bits leaves the rest pending. */
  lemma TakeTop(buffer: nat, bits: nat, k: nat)
    ensures buffer % P2(bits + k) == ((buffer / P2(bits)) % P2(k)) * P2(bits) + buffer % P2(bits)
  {
    P2Sum(bits, k);
    TopAndRest(buffer, P2(bits), P2(k), P2(bits + k));
  }

  lemma TopAndRest(buffer: nat, p: nat, q: nat, m: nat)
    requires p >= 1 && q >= 1 && m == p * q
    ensures m >= 1 && buffer % m == ((buffer / p) % q) * p + buffer % p
  {
    MulGrows(p, q);
    var a, r := buffer / p, buffer % p;
    var c, d := a / q, a % q;
    assert buffer == a * p + r;
    assert a == c * q + d;
    assert a * p == c * m + d * p by {
      assert (c * q + d) * p == (c * q) * p + d * p;
      assert (c * q) * p == c * (p * q);
    }
    assert d * p + r < m by {
      MulMonotone(d + 1, q, p);
      assert (d + 1) * p == d * p + p;
    }
    RemainderIs(buffer, c, m, d * p + r);
  }

  /** The last pending bits, padded on the right to five. */
  lemma PadRight(buffer: nat, bits: nat)
    requires 1 <= bits <= 4
    ensures ((buffer * P2(5 - bits)) % WORD) % 32 == (buffer % P2(bits)) * P2(5 - bits)
  {
    PowersOfTwo();
    ShiftIn(buffer, bits, 5 - bits, 0);
  }

  lemma {:induction false} P2Sum(a: nat, b: nat)
    ensures P2(a + b) == P2(a) * P2(b)
  {
    if b > 0 {
      P2Sum(a, b - 1);
      Doubled(P2(a), P2(b - 1));
    }
  }

  // ---------------------------------------------------------------- bits to characters and back

  /** n is the number spelled so far: v already written out, then the low bits of the buffer. */
  ghost predicate Split(n: nat, v: nat, bits: nat, buffer: nat) {
    forall p: nat :: PlaceValue(p, bits) ==> n == v * p + buffer % p
  }

  /** What a one just above the pending bits is worth. */
  ghost predicate PlaceValue(p: nat, bits: nat) {
    p == P2(bits)
  }

  lemma SplitIs(n: nat, v: nat, bits: nat, buffer: nat)
    ensures Split(n, v, bits, buffer) <==> n == v * P2(bits) + buffer % P2(bits)
  {
    assert PlaceValue(P2(bits), bits);
  }

  lemma Regrouped(v: nat, d: nat, r: nat, p: nat, q: nat, m: nat)
    requires m == p * q
    ensures v * m + (d * p + r) == (v * q + d) * p + r
  {
    MulAssoc(v, q, p);
    MulDist(v * q, d, p);
  }

  /** Writing out the top k pending bits as one more digit keeps the number spelled. */
  lemma Emit(n: nat, ds: seq<nat>, bits: nat, buffer: nat, k: nat)
    requires Split(n, Value(ds, P2(k)), bits + k, buffer)
    ensures Split(n, Value(ds + [Low(Shr(buffer, bits), k)], P2(k)), bits, buffer)
  {
    var d := Low(Shr(buffer, bits), k);
    ShrIs(buffer, bits);
    LowIs(Shr(buffer, bits), k);
    SplitIs(n, Value(ds, P2(k)), bits + k, buffer);
    SplitIs(n, Value(ds + [d], P2(k)), bits, buffer);
    ValueSnoc(ds, d, P2(k));
    P2Sum(bits, k);
    TakeTop(buffer, bits, k);
    Regrouped(Value(ds, P2(k)), d, buffer % P2(bits), P2(bits), P2(k), P2(bits + k));
  }

  lemma TakenIn(v: nat, r: nat, x: nat, p: nat, q: nat, m: nat)
    requires m == p * q
    ensures (v * p + r) * q + x == v * m + (r * q + x)
  {
    MulDist(v * p, r, q);
    MulAssoc(v, p, q);
  }

  /** One more digit of the number being read, taken into the accumulator. */
  lemma TakeIn(ds: seq<nat>, x: nat, v: nat, bits: nat, buffer: nat, k: nat)
    requires Split(Value(ds, P2(k)), v, bits, buffer)
    requires bits + k <= 16 && x < P2(k)
    ensures Split(Value(ds + [x], P2(k)), v, bits + k, Shl(buffer, k) + x)
  {
    SplitIs(Value(ds, P2(k)), v, bits, buffer);
    SplitIs(Value(ds + [x], P2(k)), v, bits + k, Shl(buffer, k) + x);
    ValueSnoc(ds, x, P2(k));
    ScaledIs(buffer, k);
    ShiftIn(buffer, bits, k, x);
    P2Sum(bits, k);
    TakenIn(v, buffer % P2(bits), x, P2(bits), P2(k), P2(bits + k));
  }

  lemma Drained(n: nat, v: nat, buffer: nat)
    requires Split(n, v, 0, buffer)
    ensures n == v
  {
    SplitIs(n, v, 0, buffer);
  }

  /** The bits left over at the end, padded into one last character. */
  lemma Pad(n: nat, ds: seq<nat>, bits: nat, buffer: nat)
    requires 1 <= bits <= 4 && Split(n, Value(ds, 32), bits, buffer)
    ensures Value(ds + [Low(Shl(buffer, 5 - bits), 5)], 32) == Scaled(n, 5 - bits)
  {
    ScaledIs(n, 5 - bits);
    PowersOfTwo();
    SplitIs(n, Value(ds, 32), bits, buffer);
    ScaledIs(buffer, 5 - bits);
    LowIs(Shl(buffer, 5 - bits), 5);
    PadRight(buffer, bits);
    P2Sum(bits, 5 - bits);
    TakenIn(Value(ds, 32), buffer % P2(bits), 0, P2(bits), P2(5 - bits), 32);
    ValueSnoc(ds, Low(Shl(buffer, 5 - bits), 5), 32);
  }

  lemma ReadsMore(s: string, ds: seq<nat>, d: nat)
    requires Reads(s, ds) && d < 32
    ensures Reads(s + [ALPHABET[d]], ds + [d])
  {
  }

  lemma Prefix<T>(s: seq<T>, i: nat)
    requires i < |s|
    ensures s[..i + 1] == s[..i] + [s[i]]
  {
  }

  lemma CharCount(chars: nat, bits: nat, bytes: nat)
    requires 5 * chars + bits == 8 * bytes && bits < 5
    ensures CharsFor(bytes) == chars + if bits > 0 then 1 else 0
  {
  }

  lemma LastChar(n: nat, out: string, ds: seq<nat>, bits: nat, buffer: nat)
    requires 1 <= bits <= 4 && Reads(out, ds) && Split(n, Value(ds, 32), bits, buffer)
    ensures var d := Low(Shl(buffer, 5 - bits), 5);
      d < 32 && Reads(out + [ALPHABET[d]], ds + [d]) && Value(ds + [d], 32) == Scaled(n, 5 - bits)
  {
    PowersOfTwo();
    Pad(n, ds, bits, buffer);
    ReadsMore(out, ds, Low(Shl(buffer, 5 - bits), 5));
  }

  /** The characters spell the payload's number, moved left to a whole number of them. */
  method Encode32(payload: seq<nat>) returns (out: string, ghost digits: seq<nat>)
    requires InBase(payload, 256)
    ensures Reads(out, digits) && |out| == CharsFor(|payload|)
    ensures Value(digits, 32) == Scaled(Value(payload, 256), 5 * |out| - 8 * |payload|)
  {
    var bits: nat, buffer: nat;
    out, bits, buffer, digits := WriteChars(payload);
    CharCount(|out|, bits, |payload|);
    if bits > 0 {
      LastChar(Value(payload, 256), out, digits, bits, buffer);
      var d := Low(Shl(buffer, 5 - bits), 5);
      out, digits := out + [ALPHABET[d]], digits + [d];
      assert 5 * |out| - 8 * |payload| == 5 - bits;
    } else {
      Drained(Value(payload, 256), Value(digits, 32), buffer);
      assert 5 * |out| - 8 * |payload| == 0;
    }
  }

  /** The whole characters some bytes make, and the bits still pending. */
  method WriteChars(payload: seq<nat>) returns (out: string, bits: nat, buffer: nat, ghost digits: seq<nat>)
    requires InBase(payload, 256)
    ensures Reads(out, digits) && bits < 5 && 5 * |out| + bits == 8 * |payload|
    ensures Split(Value(payload, 256), Value(digits, 32), bits, buffer)
  {
    PowersOfTwo();
    out, digits := "", [];
    buffer, bits := 0, 0;
    for i := 0 to |payload|
      invariant Reads(out, digits) && bits < 5 && 5 * |out| + bits == 8 * i
      invariant Split(Value(payload[..i], 256), Value(digits, 32), bits, buffer)
    {
      Prefix(payload, i);
      TakeIn(payload[..i], payload[i], Value(digits, 32), bits, buffer, 8);
      buffer := Shl(buffer, 8) + payload[i];
      bits := bits + 8;
      while bits >= 5
        invariant Reads(out, digits) && 5 * |out| + bits == 8 * (i + 1)
        invariant Split(Value(payload[..i + 1], 256), Value(digits, 32), bits, buffer)
      {
        bits := bits - 5;
        var d := Low(Shr(buffer, bits), 5);
        Emit(Value(payload[..i + 1], 256), digits, bits, buffer, 5);
        ReadsMore(out, digits, d);
        out, digits := out + [ALPHABET[d]], digits + [d];
      }
    }
    assert payload[..|payload|] == payload;
  }

  function RuneLen(c: char): nat {
    if c as int < 0x80 then 1 else if c as int < 0x800 then 2 else if c as int < 0x10000 then 3 else 4
  }

  /** The length of a string in bytes, which is what Go's len counts. */
  function ByteLen(s: string): nat {
    if s == "" then 0 else ByteLen(s[..|s| - 1]) + RuneLen(s[|s| - 1])
  }

  lemma {:induction false} AlphabetByteLen(s: string)
    requires OverAlphabet(s)
    ensures ByteLen(s) == |s|
  {
    if s != "" {
      AlphabetByteLen(s[..|s| - 1]);
      AlphabetIsAscii(s[|s| - 1]);
    }
  }

  lemma AlphabetIsAscii(c: char)
    requires c in ALPHABET
    ensures '0' <= c <= 'Z'
  {
    var i :| 0 <= i < |ALPHABET| && ALPHABET[i] == c;
    if i > 0 {
      AlphabetAscends(0, i);
    }
    if i < 31 {
      AlphabetAscends(i, 31);
    }
  }

  lemma BitsLeft(n: nat, v: nat, bits: nat, buffer: nat)
    requires Split(n, v, bits, buffer)
    ensures v == n / P2(bits)
  {
    SplitIs(n, v, bits, buffer);
    RemainderIs(n, v, P2(bits), buffer % P2(bits));
  }

  lemma ReadsNext(cleaned: string, i: nat, digits: seq<nat>, d: nat)
    requires i < |cleaned| && Reads(cleaned[..i], digits) && PlaceOf(cleaned[i], d)
    ensures Reads(cleaned[..i + 1], digits + [d])
  {
    Prefix(cleaned, i);
  }

  lemma ReadsOver(s: string, ds: seq<nat>)
    requires Reads(s, ds)
    ensures OverAlphabet(s) && DigitsIn(s) == ds
  {
    ReadsUnique(s, ds, DigitsIn(s));
  }

  /** Twenty-one characters of the alphabet carry thirteen bytes and one bit that is not read. */
  method Decode32(cleaned: string) returns (r: Result<seq<nat>, Error>)
    ensures r.Ok? <==> |cleaned| == CODE_CHARS && OverAlphabet(cleaned)
    ensures r.Ok? ==>
      && |r.value| == PAYLOAD_BYTES && InBase(r.value, 256)
      && Value(r.value, 256) == Value(DigitsIn(cleaned), 32) / 2
  {
    if OverAlphabet(cleaned) {
      AlphabetByteLen(cleaned);
    }
    if ByteLen(cleaned) != CODE_CHARS {
      return Err(NotACode);
    }
    var payload, bits, digits := ReadChars(cleaned);
    if payload.None? {
      return Err(NotACode);
    }
    // Twenty-one characters always make thirteen bytes, so the last length check cannot fail.
    ReadsOver(cleaned, digits);
    AlphabetByteLen(cleaned);
    r := Ok(payload.value);
  }

  /** One more character read: its digit is pending. */
  lemma TakeChar(cleaned: string, i: nat, digits: seq<nat>, v: nat, out: nat, bits: nat, buffer: nat)
    requires i < |cleaned| && Reads(cleaned[..i], digits) && PlaceOf(cleaned[i], v)
    requires bits < 8 && Split(Value(digits, 32), out, bits, buffer)
    ensures Reads(cleaned[..i + 1], digits + [v])
    ensures Split(Value(digits + [v], 32), out, bits + 5, Shl(buffer, 5) + v)
  {
    PowersOfTwo();
    ReadsNext(cleaned, i, digits, v);
    TakeIn(digits, v, out, bits, buffer, 5);
  }

  /** Eight of the pending bits made into a byte. */
  lemma MakeByte(n: nat, out: seq<nat>, bits: nat, buffer: nat)
    requires bits >= 8 && InBase(out, 256) && Split(n, Value(out, 256), bits, buffer)
    ensures InBase(out + [Low(Shr(buffer, bits - 8), 8)], 256)
    ensures Split(n, Value(out + [Low(Shr(buffer, bits - 8), 8)], 256), bits - 8, buffer)
  {
    PowersOfTwo();
    Emit(n, out, bits - 8, buffer, 8);
  }

  lemma NothingYet()
    ensures Split(Value([], 32), Value([], 256), 0, 0)
  {
  }

  /** The bytes some characters make, but for the last few bits. */
  method ReadChars(cleaned: string) returns (payload: Option<seq<nat>>, bits: nat, ghost digits: seq<nat>)
    ensures payload.None? ==> !OverAlphabet(cleaned)
    ensures payload.Some? ==>
      && Reads(cleaned, digits) && InBase(payload.value, 256)
      && bits < 8 && 8 * |payload.value| + bits == 5 * |cleaned|
      && Value(payload.value, 256) == Value(digits, 32) / P2(bits)
  {
    var out: seq<nat> := [];
    digits := [];
    var buffer: nat;
    buffer, bits := 0, 0;
    NothingYet();
    for i := 0 to |cleaned|
      invariant Reads(cleaned[..i], digits)
      invariant InBase(out, 256) && bits < 8 && 8 * |out| + bits == 5 * i
      invariant Split(Value(digits, 32), Value(out, 256), bits, buffer)
    {
      var value := ValueOf(cleaned[i]);
      if value.None? {
        return None, bits, digits;
      }
      TakeChar(cleaned, i, digits, value.value, Value(out, 256), bits, buffer);
      digits := digits + [value.value];
      buffer := Shl(buffer, 5) + value.value;
      bits := bits + 5;
      if bits >= 8 {
        MakeByte(Value(digits, 32), out, bits, buffer);
        bits := bits - 8;
        out := out + [Low(Shr(buffer, bits), 8)];
      }
    }
    assert cleaned[..|cleaned|] == cleaned;
    BitsLeft(Value(digits, 32), Value(out, 256), bits, buffer);
    payload := Some(out);
  }

  // ---------------------------------------------------------------- cleaning and grouping

  /** What one capital stands for: nothing, the digit it is mistaken for, or itself. */
  function CleanChar(c: char): string {
    if c in ['-', ' ', '\t', '\n', '\r', '_'] then ""
    else if c == 'O' then "0"
    else if c == 'I' || c == 'L' then "1"
    else [c]
  }

  function CleanOf(lib: Library, typed: string): string {
    if typed == "" then ""
    else CleanOf(lib, typed[..|typed| - 1]) + CleanChar(lib.upper(typed[|typed| - 1]))
  }

  method Clean(lib: Library, typed: string) returns (out: string)
    ensures out == CleanOf(lib, typed)
  {
    out := "";
    for i := 0 to |typed|
      invariant out == CleanOf(lib, typed[..i])
    {
      assert typed[..i + 1][..i] == typed[..i];
      var c := lib.upper(typed[i]);
      match c
      case '-' => continue;
      case ' ' => continue;
      case '\t' => continue;
      case '\n' => continue;
      case '\r' => continue;
      case '_' => continue;
      case 'O' => out := out + "0";
      case 'I' => out := out + "1";
      case 'L' => out := out + "1";
      case _ => out := out + [c];
    }
    assert typed[..|typed|] == typed;
  }

  lemma {:induction false} CleanConcat(lib: Library, a: string, b: string)
    ensures CleanOf(lib, a + b) == CleanOf(lib, a) + CleanOf(lib, b)
  {
    if b == "" {
      assert a + b == a;
    } else {
      assert (a + b)[..|a + b| - 1] == a + b[..|b| - 1];
      CleanConcat(lib, a, b[..|b| - 1]);
    }
  }

  lemma CleanPush(lib: Library, front: string, c: char)
    ensures CleanOf(lib, front + [c]) == CleanOf(lib, front) + CleanChar(lib.upper(c))
  {
    assert (front + [c])[..|front|] == front;
  }

  /** Separators anywhere, and any character in place of one that stands for the same
      thing, make no difference to what was meant. */
  lemma TypingForgiven(lib: Library, a: string, b: string, c: char, d: char)
    requires CleanChar(lib.upper(c)) == CleanChar(lib.upper(d))
    ensures CleanOf(lib, a + [c] + b) == CleanOf(lib, a + [d] + b)
    ensures CleanChar(lib.upper(c)) == "" ==> CleanOf(lib, a + [c] + b) == CleanOf(lib, a + b)
  {
    CleanPush(lib, a, c);
    CleanPush(lib, a, d);
    SameAhead(lib, a + [c], a + [d], b);
    if CleanChar(lib.upper(c)) == "" {
      SameAhead(lib, a + [c], a, b);
    }
  }

  /** An O is taken for a nought, an I or an L for a one, in either case; dashes, underscores and
      white space are passed over. */
  lemma LookAlikesRead(lib: Library, a: string, c: char, b: string)
    requires lib.upper('0') == '0' && lib.upper('1') == '1'
    ensures lib.upper(c) == 'O' ==> CleanOf(lib, a + [c] + b) == CleanOf(lib, a + ['0'] + b)
    ensures lib.upper(c) == 'I' || lib.upper(c) == 'L' ==> CleanOf(lib, a + [c] + b) == CleanOf(lib, a + ['1'] + b)
    ensures lib.upper(c) in ['-', '_', ' ', '\t', '\r', '\n'] ==> CleanOf(lib, a + [c] + b) == CleanOf(lib, a + b)
  {
    if lib.upper(c) == 'O' {
      TypingForgiven(lib, a, b, c, '0');
    }
    if lib.upper(c) == 'I' || lib.upper(c) == 'L' {
      TypingForgiven(lib, a, b, c, '1');
    }
    if lib.upper(c) in ['-', '_', ' ', '\t', '\r', '\n'] {
      TypingForgiven(lib, a, b, c, c);
    }
  }

  lemma SameAhead(lib: Library, x: string, y: string, b: string)
    requires CleanOf(lib, x) == CleanOf(lib, y)
    ensures CleanOf(lib, x + b) == CleanOf(lib, y + b)
  {
    CleanConcat(lib, x, b);
    CleanConcat(lib, y, b);
  }

  /** The first k characters of a code, with a dash before every fourth but the first. */
  function Grouped(code: string, k: nat): string
    requires k <= |code|
  {
    if k == 0 then ""
    else Grouped(code, k - 1) + (if k > 1 && (k - 1) % 4 == 0 then "-" else "") + [code[k - 1]]
  }

  method Group(code: string) returns (out: string)
    ensures out == Grouped(code, |code|)
  {
    out := "";
    for i := 0 to |code|
      invariant out == Grouped(code, i)
    {
      if i > 0 && i % 4 == 0 {
        out := out + "-";
      }
      out := out + [code[i]];
    }
  }

  lemma AlphabetIsClean(lib: Library, c: char)
    requires Sound(lib) && c in ALPHABET
    ensures CleanChar(lib.upper(c)) == [c]
  {
    var i :| 0 <= i < |ALPHABET| && ALPHABET[i] == c;
    NotCleaned(i);
  }

  /** None of the characters that cleaning changes is in the alphabet. */
  lemma NotCleaned(i: nat)
    requires i < 32
    ensures CleanChar(ALPHABET[i]) == [ALPHABET[i]]
  {
  }

  /** Cleaning undoes grouping. */
  lemma {:induction false} CleanGrouped(lib: Library, code: string, k: nat)
    requires Sound(lib) && OverAlphabet(code) && k <= |code|
    ensures CleanOf(lib, Grouped(code, k)) == code[..k]
  {
    if k > 0 {
      CleanGrouped(lib, code, k - 1);
      AlphabetIsClean(lib, code[k - 1]);
      CleanSnoc(lib, Grouped(code, k - 1), code[k - 1]);
      Prefix(code, k - 1);
    }
  }

  lemma CleanSnoc(lib: Library, front: string, c: char)
    requires Sound(lib)
    ensures CleanOf(lib, front + "" + [c]) == CleanOf(lib, front) + CleanChar(lib.upper(c))
    ensures CleanOf(lib, front + "-" + [c]) == CleanOf(lib, front) + CleanChar(lib.upper(c))
  {
    CleanPush(lib, front + "", c);
    assert front + "" == front;
    CleanPush(lib, front + "-", c);
    CleanPush(lib, front, '-');
    assert CleanOf(lib, front) + "" == CleanOf(lib, front);
  }

  // ---------------------------------------------------------------- keys as numbers

  /** The number some decimal digits spell. */
  function Decimals(key: string): (ds: seq<nat>)
    requires Luhn.AllDigits(key)
    ensures |ds| == |key| && InBase(ds, 10)
  {
    seq(|key|, i requires 0 <= i < |key| => Luhn.Val(key[i]))
  }

  predicate IsKeyText(key: string) {
    |key| == KEY_DIGITS && Luhn.AllDigits(key)
  }

  /** Sixteen digits exactly, zeroes in front. */
  function Sixteen(n: nat): (key: string)
    requires n <= MAX_KEY_VALUE
    ensures IsKeyText(key)
  {
    var ds := Digits.Digits(n, 10, KEY_DIGITS);
    seq(KEY_DIGITS, i requires 0 <= i < KEY_DIGITS => ('0' as int + ds[i]) as char)
  }

  lemma KeyValueBound(key: string)
    requires IsKeyText(key)
    ensures Value(Decimals(key), 10) <= MAX_KEY_VALUE < Pow(256, KEY_BYTES)
  {
    ValueBound(Decimals(key), 10);
    Powers();
  }

  lemma Powers()
    ensures Pow(10, 16) == MAX_KEY_VALUE + 1
    ensures Pow(256, 7) == 0x100_0000_0000_0000
    ensures Pow(32, 21) == 2 * Pow(256, 13)
  {
    assert Pow(10, 4) == 10000;
    assert Pow(10, 8) == 1_0000_0000;
    assert Pow(10, 12) == 1_0000_0000_0000;
    assert Pow(256, 4) == 0x1_0000_0000;
    assert Pow(256, 8) == 0x1_0000_0000_0000_0000;
    assert Pow(32, 5) == 0x200_0000;
    assert Pow(32, 10) == 0x4_0000_0000_0000;
    assert Pow(32, 15) == 0x800_0000_0000_0000_0000;
    assert Pow(32, 20) == 0x10_0000_0000_0000_0000_0000_0000;
    assert Pow(256, 12) == 0x1_0000_0000_0000_0000_0000_0000;
  }

  lemma SixteenOfValue(key: string)
    requires IsKeyText(key)
    ensures Value(Decimals(key), 10) <= MAX_KEY_VALUE
    ensures Sixteen(Value(Decimals(key), 10)) == key
  {
    KeyValueBound(key);
    DigitsOfValue(Decimals(key), 10);
  }

  lemma ValueOfSixteen(n: nat)
    requires n <= MAX_KEY_VALUE
    ensures Value(Decimals(Sixteen(n)), 10) == n
  {
    Powers();
    ValueOfDigits(n, 10, KEY_DIGITS);
    assert Decimals(Sixteen(n)) == Digits.Digits(n, 10, KEY_DIGITS);
  }

  /** Sixteen digits are always read; the bound on the number they spell never fires. */
  method KeyNumber(key: string) returns (r: Result<nat, Error>)
    ensures r.Ok? <==> IsKeyText(key)
    ensures r.Ok? ==> r.value == Value(Decimals(key), 10) && r.value <= MAX_KEY_VALUE
  {
    if |key| != KEY_DIGITS || !Luhn.AllDigits(key) {
      return Err(NotACode);
    }
    var n := Value(Decimals(key), 10);
    KeyValueBound(key);
    r := Ok(n);
  }

  // ---------------------------------------------------------------- codes

  /** The thirteen bytes for an address, a port and a key's number. */
  function Packed(v4: seq<nat>, port: nat, n: nat): (p: seq<nat>)
    requires IsV4(v4) && port < 65536
    ensures |p| == PAYLOAD_BYTES && InBase(p, 256)
  {
    v4 + [port / 256, port % 256] + Digits.Digits(n, 256, KEY_BYTES)
  }

  /** How many characters some bytes take, and how many whole bytes some characters carry. */
  function CharsFor(bytes: nat): nat {
    (8 * bytes + 4) / 5
  }

  function BytesIn(chars: nat): nat {
    5 * chars / 8
  }

  /** Their number, doubled, in twenty-one base-32 characters. */
  function CodeOf(payload: seq<nat>): (code: string)
    requires |payload| == PAYLOAD_BYTES && InBase(payload, 256)
    ensures |code| == CODE_CHARS && OverAlphabet(code)
  {
    Chars(Digits.Digits(2 * Value(payload, 256), 32, CharsFor(|payload|)))
  }

  /** The text shown for a payload. */
  function Shown(payload: seq<nat>): string
    requires |payload| == PAYLOAD_BYTES && InBase(payload, 256)
  {
    var code := CodeOf(payload);
    Grouped(code, |code|)
  }

  method Encode(lib: Library, host: string, port: int, key: string) returns (r: Result<string, Error>)
    requires Sound(lib)
    ensures r.Ok? <==> lib.parseV4(host).Some? && 0 <= port < 65536 && IsKeyText(key)
    ensures r.Ok? ==>
      r.value == Shown(Packed(lib.parseV4(host).value, port, Value(Decimals(key), 10)))
  {
    var v4 := lib.parseV4(host);
    if v4.None? {
      return Err(NotACode);
    }
    if port < 0 || port > 65535 {
      return Err(NotACode);
    }
    var number := KeyNumber(key);
    if number.Err? {
      return Err(NotACode);
    }
    var payload := Pack(v4.value, port, number.value);
    var code, digits := Encode32(payload);
    TimesTwo(Value(payload, 256), 5 * |code| - 8 * |payload|);
    CodeIs(payload, code, digits);
    var text := Group(code);
    r := Ok(text);
  }

  /** The key's bytes are written from the last one back. */
  method Pack(v4: seq<nat>, port: nat, key: nat) returns (out: seq<nat>)
    requires IsV4(v4) && port < 65536
    ensures out == Packed(v4, port, key)
  {
    var payload := new nat[PAYLOAD_BYTES](_ => 0);
    payload[0], payload[1], payload[2], payload[3] := v4[0], v4[1], v4[2], v4[3];
    payload[4], payload[5] := port / 256, port % 256;
    var digits := key;
    ghost var head := v4 + [port / 256, port % 256];
    assert payload[..6] == head;
    for i := KEY_BYTES downto 0
      invariant payload[..6] == head
      invariant Digits.Digits(key, 256, KEY_BYTES) == Digits.Digits(digits, 256, i) + payload[6 + i..13]
    {
      ghost var written := payload[7 + i..13];
      payload[6 + i] := Remainder(digits, 256);
      assert payload[6 + i..13] == [Remainder(digits, 256)] + written;
      Regroup(Digits.Digits(Quotient(digits, 256), 256, i), [Remainder(digits, 256)], written);
      digits := Quotient(digits, 256);
    }
    out := payload[..];
    assert out == payload[..6] + payload[6..13];
  }

  lemma CharsOfReads(s: string, ds: seq<nat>)
    requires Reads(s, ds)
    ensures Chars(ds) == s
  {
    var t := Chars(ds);
    forall i | 0 <= i < |s|
      ensures t[i] == s[i]
    {
      assert PlaceOf(t[i], ds[i]) && PlaceOf(s[i], ds[i]);
    }
  }

  /** The one text that spells a payload's number doubled. */
  lemma CodeIs(payload: seq<nat>, code: string, digits: seq<nat>)
    requires |payload| == PAYLOAD_BYTES && InBase(payload, 256)
    requires Reads(code, digits) && |code| == CharsFor(|payload|)
    requires Value(digits, 32) == 2 * Value(payload, 256)
    ensures code == CodeOf(payload)
  {
    DigitsAre(digits, 2 * Value(payload, 256), 32, CharsFor(|payload|));
    CharsOfReads(code, digits);
  }

  lemma TimesTwo(v: nat, k: nat)
    requires k == 1
    ensures Scaled(v, k) == 2 * v
  {
  }

  // ---------------------------------------------------------------- reading a code

  datatype Pairing = Pairing(host: string, port: nat, key: string)

  /** What a cleaned text says, if it is a code at all. */
  function Payload(cleaned: string): (p: seq<nat>)
    requires |cleaned| == CODE_CHARS && OverAlphabet(cleaned)
    ensures |p| == PAYLOAD_BYTES && InBase(p, 256)
  {
    Digits.Digits(Value(DigitsIn(cleaned), 32) / 2, 256, BytesIn(|cleaned|))
  }

  function KeyOf(p: seq<nat>): nat
    requires |p| == PAYLOAD_BYTES
  {
    Value(p[6..], 256)
  }

  predicate IsCode(cleaned: string) {
    && |cleaned| == CODE_CHARS && OverAlphabet(cleaned)
    && KeyOf(Payload(cleaned)) <= MAX_KEY_VALUE
  }

  function Meaning(lib: Library, cleaned: string): Pairing
    requires IsCode(cleaned)
  {
    var p := Payload(cleaned);
    Pairing(lib.format(p[..4]), p[4] * 256 + p[5], Sixteen(KeyOf(p)))
  }

  method Decode(lib: Library, typed: string) returns (r: Result<Pairing, Error>)
    ensures r.Ok? <==> IsCode(CleanOf(lib, typed))
    ensures r.Ok? ==> r.value == Meaning(lib, CleanOf(lib, typed))
  {
    var cleaned := Clean(lib, typed);
    var decoded := Decode32(cleaned);
    if decoded.Err? {
      return Err(NotACode);
    }
    var payload := decoded.value;
    DigitsOfValue(payload, 256);
    assert payload == Payload(cleaned);
    var host := lib.format(payload[0..4]);
    var port := payload[4] * 256 + payload[5];
    var number := ReadKey(payload[6..]);
    if number >= 1_0000_0000_0000_0000 {
      return Err(NotACode);
    }
    assert payload[0..4] == payload[..4];
    r := Ok(Pairing(host, port, Sixteen(number)));
  }

  /** Seven bytes as one number: it fits in 64 bits, so the shifts lose nothing. */
  method ReadKey(bytes: seq<nat>) returns (number: nat)
    requires |bytes| == KEY_BYTES && InBase(bytes, 256)
    ensures number == Value(bytes, 256)
  {
    number := 0;
    for i := 0 to |bytes|
      invariant number == Value(bytes[..i], 256)
    {
      Prefix(bytes, i);
      ValueSnoc(bytes[..i], bytes[i], 256);
      ValueBound(bytes[..i + 1], 256);
      SmallPow(i + 1);
      number := (number * 256 + bytes[i]) % 0x1_0000_0000_0000_0000;
    }
    assert bytes[..|bytes|] == bytes;
  }

  lemma {:induction false} SmallPow(k: nat)
    requires k <= 7
    ensures Pow(256, k) <= 0x1_0000_0000_0000_0000
  {
    Powers();
    if k < 7 {
      PowGrows(256, k, 7);
    }
  }

  lemma {:induction false} PowGrows(base: nat, a: nat, b: nat)
    requires a <= b && base >= 1
    ensures Pow(base, a) <= Pow(base, b)
  {
    if a < b {
      PowGrows(base, a, b - 1);
      MulMonotone(1, base, Pow(base, b - 1));
    }
  }

  // ---------------------------------------------------------------- there and back

  lemma PayloadOfCode(payload: seq<nat>)
    requires |payload| == PAYLOAD_BYTES && InBase(payload, 256)
    ensures Payload(CodeOf(payload)) == payload
  {
    var code := CodeOf(payload);
    ValueOfCode(payload, CharsFor(|payload|));
    DigitsAre(payload, Value(DigitsIn(code), 32) / 2, 256, BytesIn(|code|));
  }

  lemma ValueOfCode(payload: seq<nat>, k: nat)
    requires |payload| == PAYLOAD_BYTES && InBase(payload, 256) && k == CharsFor(|payload|)
    ensures Value(DigitsIn(CodeOf(payload)), 32) == 2 * Value(payload, 256)
  {
    var n, code := 2 * Value(payload, 256), CodeOf(payload);
    ValueBound(payload, 256);
    CodeRoom(|payload|);
    ValueOfDigits(n, 32, k);
    ReadsUnique(code, DigitsIn(code), Digits.Digits(n, 32, k));
  }

  /** Twenty-one characters have room for thirteen bytes and a bit. */
  lemma CodeRoom(bytes: nat)
    requires bytes == PAYLOAD_BYTES
    ensures Pow(32, CharsFor(bytes)) == 2 * Pow(256, bytes)
  {
    Powers();
  }

  lemma PackedFields(v4: seq<nat>, port: nat, n: nat)
    requires IsV4(v4) && port < 65536 && n <= MAX_KEY_VALUE
    ensures var p := Packed(v4, port, n);
      p[..4] == v4 && p[4] * 256 + p[5] == port && KeyOf(p) == n
  {
    Powers();
    ValueOfDigits(n, 256, KEY_BYTES);
    assert Packed(v4, port, n)[6..] == Digits.Digits(n, 256, KEY_BYTES);
  }

  /** Decoding undoes encoding, for every address, port and key, however the code was
      typed: any text that cleans to what the shown code cleans to reads the same. */
  lemma DecodeOfEncode(lib: Library, v4: seq<nat>, port: nat, key: string, typed: string)
    requires Sound(lib) && IsV4(v4) && port < 65536 && IsKeyText(key)
    requires CleanOf(lib, typed) == CleanOf(lib, Shown(Packed(v4, port, Value(Decimals(key), 10))))
    ensures IsCode(CleanOf(lib, typed))
    ensures Meaning(lib, CleanOf(lib, typed)) == Pairing(lib.format(v4), port, key)
  {
    var n := Value(Decimals(key), 10);
    SixteenOfValue(key);
    ShownCleans(lib, Packed(v4, port, n));
    PayloadOfCode(Packed(v4, port, n));
    PackedFields(v4, port, n);
  }

  lemma ShownCleans(lib: Library, payload: seq<nat>)
    requires Sound(lib) && |payload| == PAYLOAD_BYTES && InBase(payload, 256)
    ensures CleanOf(lib, Shown(payload)) == CodeOf(payload)
  {
    var code := CodeOf(payload);
    CleanGrouped(lib, code, |code|);
    assert code[..|code|] == code;
  }

  /** Where the last character's low bit is set, the same character without it. */
  ghost predicate SameButLastBit(a: string, b: string) {
    && |a| == |b| == CODE_CHARS && OverAlphabet(a) && OverAlphabet(b)
    && a[..20] == b[..20] && DigitsIn(b)[20] == DigitsIn(a)[20] - DigitsIn(a)[20] % 2
  }

  lemma HalvedValue(front: seq<nat>, d: nat)
    requires d < 32
    ensures Value(front + [d - d % 2], 32) == 2 * (Value(front + [d], 32) / 2)
  {
    ValueSnoc(front, d, 32);
    ValueSnoc(front, d - d % 2, 32);
    EvenPart(16 * Value(front, 32), d);
  }

  lemma EvenPart(n: nat, d: nat)
    ensures 2 * n + (d - d % 2) == 2 * ((2 * n + d) / 2)
  {
  }

  /** Any text accepted as a code encodes again to its own cleaned characters, but for
      the low bit of the last one, which carries nothing. */
  lemma EncodeOfDecode(lib: Library, typed: string)
    requires Sound(lib) && IsCode(CleanOf(lib, typed))
    ensures var m := Meaning(lib, CleanOf(lib, typed));
      && lib.parseV4(m.host).Some? && m.port < 65536 && IsKeyText(m.key)
      && SameButLastBit(CleanOf(lib, typed),
                        CodeOf(Packed(lib.parseV4(m.host).value, m.port, Value(Decimals(m.key), 10))))
  {
    var cleaned := CleanOf(lib, typed);
    var m, p := Meaning(lib, cleaned), Payload(cleaned);
    ValueOfSixteen(KeyOf(p));
    assert p[6..] == Digits.Digits(KeyOf(p), 256, KEY_BYTES) by {
      DigitsOfValue(p[6..], 256);
    }
    assert lib.parseV4(m.host).value == p[..4];
    assert m.port / 256 == p[4] && m.port % 256 == p[5];
    assert Packed(p[..4], m.port, KeyOf(p)) == p;
    CodeOfPayload(cleaned);
  }

  lemma CodeOfPayload(cleaned: string)
    requires |cleaned| == CODE_CHARS && OverAlphabet(cleaned)
    ensures SameButLastBit(cleaned, CodeOf(Payload(cleaned)))
  {
    var ds := DigitsIn(cleaned);
    var other := LastBitCleared(ds);
    ValueOfPayload(cleaned, BytesIn(|cleaned|));
    HalfOf(ds);
    CodeIs(Payload(cleaned), Chars(other), other);
    LastBitOnly(cleaned, Chars(other), ds, other);
  }

  /** The same digits but for the last one's low bit. */
  function LastBitCleared(ds: seq<nat>): (r: seq<nat>)
    requires |ds| == CODE_CHARS && InBase(ds, 32)
    ensures |r| == |ds| && InBase(r, 32) && r[..20] == ds[..20] && r[20] == ds[20] - ds[20] % 2
  {
    ds[..20] + [ds[20] - ds[20] % 2]
  }

  lemma HalfOf(ds: seq<nat>)
    requires |ds| == CODE_CHARS && InBase(ds, 32)
    ensures Value(LastBitCleared(ds), 32) == 2 * (Value(ds, 32) / 2)
  {
    var front, d := ds[..20], ds[20];
    assert ds == front + [d];
    HalvedValue(front, d);
  }

  lemma LastBitOnly(a: string, b: string, x: seq<nat>, y: seq<nat>)
    requires Reads(a, x) && Reads(b, y) && |a| == |b| == CODE_CHARS
    requires x[..20] == y[..20] && y[20] == x[20] - x[20] % 2
    ensures OverAlphabet(a) && OverAlphabet(b) && SameButLastBit(a, b)
  {
    ReadsOver(a, x);
    ReadsOver(b, y);
    SameFront(a, b, x, y, 20);
  }

  lemma ValueOfPayload(cleaned: string, bytes: nat)
    requires |cleaned| == CODE_CHARS && OverAlphabet(cleaned) && bytes == BytesIn(|cleaned|)
    ensures Value(Payload(cleaned), 256) == Value(DigitsIn(cleaned), 32) / 2
  {
    HalfFits(DigitsIn(cleaned), bytes);
    ValueOfDigits(Value(DigitsIn(cleaned), 32) / 2, 256, bytes);
  }

  lemma HalfFits(ds: seq<nat>, bytes: nat)
    requires |ds| == CODE_CHARS && InBase(ds, 32) && bytes == PAYLOAD_BYTES
    ensures Value(ds, 32) / 2 < Pow(256, bytes)
  {
    ValueBound(ds, 32);
    CodeRoom(bytes);
    Halved(Value(ds, 32), Pow(32, |ds|), Pow(256, bytes));
  }

  lemma Halved(v: nat, p: nat, q: nat)
    requires v < p && p == 2 * q
    ensures v / 2 < q
  {
  }

  lemma SameFront(a: string, b: string, x: seq<nat>, y: seq<nat>, k: nat)
    requires Reads(a, x) && Reads(b, y) && k <= |a| && k <= |b| && x[..k] == y[..k]
    ensures a[..k] == b[..k]
  {
    forall i | 0 <= i < k
      ensures a[i] == b[i]
    {
      assert x[i] == x[..k][i] == y[..k][i] == y[i];
      assert PlaceOf(a[i], x[i]) && PlaceOf(b[i], y[i]);
    }
  }
}
