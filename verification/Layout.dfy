/** Cutting a line with color escapes in it to a number of columns:
    cmd/leavesafe/layout.go, with the widths of column_width.go and visLen of main.go.

    Text is a sequence of code points. */
module Layout {
  import opened Common

  const ESC := '\U{1B}'
  const RESET := "\U{1B}[0m"

  // ---------------------------------------------------------------- tokens

  /** Just past the first m at or after j, or the end when there is none. */
  function EscapeEnd(s: string, j: nat): (e: nat)
    requires j <= |s|
    ensures j <= e <= |s|
    decreases |s| - j
  {
    if j == |s| then j else if s[j] == 'm' then j + 1 else EscapeEnd(s, j + 1)
  }

  predicate StartsEscape(s: string) {
    |s| >= 2 && s[0] == ESC && s[1] == '['
  }

  /** The length of the escape or the single character a text begins with. */
  function FirstLen(s: string): (n: nat)
    requires s != ""
    ensures 1 <= n <= |s|
  {
    if StartsEscape(s) then EscapeEnd(s, 2) else 1
  }

  /** A text as escapes and characters; an escape nobody ended runs to the end of it. */
  function Tokens(s: string): seq<string>
    decreases |s|
  {
    if s == "" then [] else [s[..FirstLen(s)]] + Tokens(s[FirstLen(s)..])
  }

  function Flat(ts: seq<string>): string {
    if ts == [] then "" else ts[0] + Flat(ts[1..])
  }

  /** How many columns a character takes. mark is membership of the Unicode categories
      Mn, Mc, Me and Cf. */
  function ColumnWidth(mark: char -> bool, c: char): (w: nat)
    ensures w <= 2
  {
    var r := c as int;
    if r < 32 || 0x7f <= r < 0xa0 || mark(c) then 0
    else if 0x1100 <= r <= 0x115f || (0x2e80 <= r <= 0xa4cf && r != 0x303f) || 0xac00 <= r <= 0xd7a3
         || 0xf900 <= r <= 0xfaff || 0xfe10 <= r <= 0xfe19 || 0xfe30 <= r <= 0xfe6f
         || 0xff01 <= r <= 0xff60 || 0xffe0 <= r <= 0xffe6 || 0x1f300 <= r <= 0x1faff
         || 0x20000 <= r <= 0x3fffd then 2
    else 1
  }

  /** Ideographs, kana, Hangul syllables, full-width forms and emoji take two columns, marks and
      controls none, and what else ASCII prints one. */
  lemma WidthsByKind(mark: char -> bool, c: char)
    ensures mark(c) || c < ' ' || '\U{7f}' <= c < '\U{a0}' ==> ColumnWidth(mark, c) == 0
    ensures !mark(c) && ' ' <= c <= '~' ==> ColumnWidth(mark, c) == 1
    ensures !mark(c) && ('\U{4e00}' <= c <= '\U{9fff}' || '\U{3041}' <= c <= '\U{30ff}') ==> ColumnWidth(mark, c) == 2
    ensures !mark(c) && ('\U{ac00}' <= c <= '\U{d7a3}' || '\U{ff01}' <= c <= '\U{ff60}') ==> ColumnWidth(mark, c) == 2
    ensures !mark(c) && '\U{1f300}' <= c <= '\U{1faff}' ==> ColumnWidth(mark, c) == 2
  {
  }

  function TokenWidth(mark: char -> bool, t: string): nat {
    if t == "" || StartsEscape(t) then 0 else ColumnWidth(mark, t[0])
  }

  function TotalWidth(mark: char -> bool, ts: seq<string>): nat {
    if ts == [] then 0 else TokenWidth(mark, ts[0]) + TotalWidth(mark, ts[1..])
  }

  /** How many columns a text takes on screen. */
  function VisLenOf(mark: char -> bool, s: string): nat {
    TotalWidth(mark, Tokens(s))
  }

  /** The columns of some characters, one after another. */
  function CharsWidth(mark: char -> bool, s: string): nat {
    if s == "" then 0 else ColumnWidth(mark, s[0]) + CharsWidth(mark, s[1..])
  }

  /** With no escape in it, a text takes what its characters take. */
  lemma {:induction false} PlainWidth(mark: char -> bool, s: string)
    requires ESC !in s
    ensures VisLenOf(mark, s) == CharsWidth(mark, s)
  {
    if s != "" {
      assert s[0] in s;
      assert Tokens(s) == [s[..1]] + Tokens(s[1..]);
      PlainWidth(mark, s[1..]);
      assert ([s[..1]] + Tokens(s[1..]))[1..] == Tokens(s[1..]);
    }
  }

  lemma {:induction false} CharsWidthConcat(mark: char -> bool, a: string, b: string)
    ensures CharsWidth(mark, a + b) == CharsWidth(mark, a) + CharsWidth(mark, b)
  {
    if a == "" {
      assert a + b == b;
    } else {
      assert (a + b)[1..] == a[1..] + b;
      CharsWidthConcat(mark, a[1..], b);
    }
  }

  lemma {:induction false} NarrowWidth(mark: char -> bool, s: string)
    requires forall i :: 0 <= i < |s| ==> ColumnWidth(mark, s[i]) <= 1
    ensures CharsWidth(mark, s) <= |s|
  {
    if s != "" {
      NarrowWidth(mark, s[1..]);
    }
  }

  lemma {:induction false} EvenWidth(mark: char -> bool, s: string, w: nat)
    requires forall i :: 0 <= i < |s| ==> ColumnWidth(mark, s[i]) == w
    ensures CharsWidth(mark, s) == w * |s|
  {
    if s != "" {
      EvenWidth(mark, s[1..], w);
      assert w * |s| == w + w * (|s| - 1);
    }
  }

  predicate Colored(ts: seq<string>) {
    exists i :: 0 <= i < |ts| && StartsEscape(ts[i])
  }

  /** How many tokens from the front fit in n columns. */
  function FitCount(mark: char -> bool, ts: seq<string>, n: nat): (k: nat)
    ensures k <= |ts|
  {
    if ts == [] || TokenWidth(mark, ts[0]) > n then 0
    else 1 + FitCount(mark, ts[1..], n - TokenWidth(mark, ts[0]))
  }

  function Columns(maxVisible: int): nat {
    if maxVisible < 0 then 0 else maxVisible
  }

  /** The tokens that fit, with a color among them ended; all of them need no ending. */
  function Truncated(mark: char -> bool, s: string, maxVisible: int): string {
    var ts := Tokens(s);
    var k := FitCount(mark, ts, Columns(maxVisible));
    if k == |ts| then s else Flat(ts[..k]) + if Colored(ts[..k]) then RESET else ""
  }

  // ---------------------------------------------------------------- the code

  method EscapeLen(s: string, i: nat) returns (n: nat)
    requires i <= |s|
    ensures n == if StartsEscape(s[i..]) then FirstLen(s[i..]) else 0
  {
    if i + 1 >= |s| || s[i] != ESC || s[i + 1] != '[' {
      return 0;
    }
    var rest := s[i..];
    var j := i + 2;
    while j < |s| && s[j] != 'm'
      invariant i + 2 <= j <= |s|
      invariant EscapeEnd(rest, 2) == EscapeEnd(rest, j - i)
    {
      j := j + 1;
    }
    if j < |s| {
      j := j + 1;
    }
    n := j - i;
  }

  /** What has been read of a text so far: the tokens up to i, and the rest to come. */
  ghost predicate UpTo(s: string, i: nat, done: seq<string>) {
    i <= |s| && Flat(done) == s[..i] && Tokens(s) == done + Tokens(s[i..])
  }

  lemma NextToken(s: string, i: nat, done: seq<string>, n: nat)
    requires UpTo(s, i, done) && i < |s| && n == FirstLen(s[i..])
    ensures s[i..i + n] == s[i..][..n]
    ensures UpTo(s, i + n, done + [s[i..i + n]])
    ensures Tokens(s)[|done|] == s[i..i + n] && |done| < |Tokens(s)|
  {
    var t := s[i..i + n];
    FirstToken(s, i, n);
    FlatSnoc(done, t);
    Extended(s, i, n);
    Regroup(done, [t], Tokens(s[i + n..]));
  }

  lemma FirstToken(s: string, i: nat, n: nat)
    requires i < |s| && n == FirstLen(s[i..])
    ensures i + n <= |s| && s[i..i + n] == s[i..][..n]
    ensures Tokens(s[i..]) == [s[i..i + n]] + Tokens(s[i + n..])
  {
    assert s[i..][n..] == s[i + n..] && s[i..][..n] == s[i..i + n];
  }

  lemma Extended(s: string, i: nat, n: nat)
    requires i + n <= |s|
    ensures s[..i + n] == s[..i] + s[i..i + n]
  {
  }

  lemma {:induction false} FlatSnoc(ts: seq<string>, t: string)
    ensures Flat(ts + [t]) == Flat(ts) + t
  {
    if ts == [] {
      assert Flat([t]) == t + Flat([]);
    } else {
      assert (ts + [t])[1..] == ts[1..] + [t];
      FlatSnoc(ts[1..], t);
    }
  }

  lemma {:induction false} WidthSnoc(mark: char -> bool, ts: seq<string>, t: string)
    ensures TotalWidth(mark, ts + [t]) == TotalWidth(mark, ts) + TokenWidth(mark, t)
  {
    if ts == [] {
      assert TotalWidth(mark, [t]) == TokenWidth(mark, t) + TotalWidth(mark, []);
    } else {
      assert (ts + [t])[1..] == ts[1..] + [t];
      WidthSnoc(mark, ts[1..], t);
    }
  }

  /** The tokens read so far, and the columns they take. */
  ghost predicate Measured(mark: char -> bool, s: string, i: nat, done: seq<string>, n: nat) {
    UpTo(s, i, done) && n == TotalWidth(mark, done)
  }

  lemma MeasureToken(mark: char -> bool, s: string, i: nat, done: seq<string>, n: nat, len: nat)
    requires Measured(mark, s, i, done, n) && i < |s| && len == FirstLen(s[i..])
    ensures var t := s[i..i + len];
      t == s[i..][..len] && Measured(mark, s, i + len, done + [t], n + TokenWidth(mark, t))
  {
    NextToken(s, i, done, len);
    WidthSnoc(mark, done, s[i..i + len]);
  }

  lemma MeasureEscape(mark: char -> bool, s: string, i: nat, done: seq<string>, n: nat, len: nat)
    requires Measured(mark, s, i, done, n) && i < |s| && len == FirstLen(s[i..]) && StartsEscape(s[i..])
    ensures i + len <= |s| && Measured(mark, s, i + len, done + [s[i..i + len]], n)
  {
    MeasureToken(mark, s, i, done, n, len);
  }

  lemma MeasureCharacter(mark: char -> bool, s: string, i: nat, done: seq<string>, n: nat)
    requires Measured(mark, s, i, done, n) && i < |s| && !StartsEscape(s[i..])
    ensures Measured(mark, s, i + 1, done + [s[i..i + 1]], n + ColumnWidth(mark, s[i]))
  {
    MeasureToken(mark, s, i, done, n, 1);
  }

  lemma AllMeasured(mark: char -> bool, s: string, done: seq<string>, n: nat)
    requires Measured(mark, s, |s|, done, n)
    ensures n == VisLenOf(mark, s)
  {
    assert s[|s|..] == "";
    assert done + [] == done;
  }

  method VisLen(mark: char -> bool, s: string) returns (n: nat)
    ensures n == VisLenOf(mark, s)
  {
    n := 0;
    ghost var done: seq<string> := [];
    var i: nat := 0;
    while i < |s|
      invariant Measured(mark, s, i, done, n)
      decreases |s| - i
    {
      var e := EscapeLen(s, i);
      if e > 0 {
        MeasureEscape(mark, s, i, done, n, e);
        done := done + [s[i..i + e]];
        i := i + e;
        continue;
      }
      MeasureCharacter(mark, s, i, done, n);
      done := done + [s[i..i + 1]];
      n := n + ColumnWidth(mark, s[i]);
      i := i + 1;
    }
    AllMeasured(mark, s, done, n);
  }

  function CloseColor(s: string, colored: bool): string {
    if colored then s + RESET else s
  }

  /** How the running counters stand when the tokens in done have been copied. */
  ghost predicate Copied(mark: char -> bool, s: string, i: nat, done: seq<string>, b: string, seen: nat,
                         colored: bool)
  {
    UpTo(s, i, done) && b == s[..i] && seen == TotalWidth(mark, done) && (colored <==> Colored(done))
  }

  lemma CopyToken(mark: char -> bool, s: string, i: nat, done: seq<string>, b: string, seen: nat, colored: bool, n: nat)
    requires Copied(mark, s, i, done, b, seen, colored) && i < |s| && n == FirstLen(s[i..])
    ensures s[i..i + n] == s[i..][..n]
    ensures var t := s[i..i + n];
      && Copied(mark, s, i + n, done + [t], b + t, seen + TokenWidth(mark, t), colored || StartsEscape(t))
      && |done| < |Tokens(s)| && Tokens(s)[|done|] == t && Tokens(s)[..|done|] == done
  {
    var t := s[i..i + n];
    NextToken(s, i, done, n);
    WidthSnoc(mark, done, t);
    ColoredSnoc(done, t);
  }

  /** An escape copied takes no columns; a character copied takes its own. */
  lemma CopyEscape(mark: char -> bool, s: string, i: nat, done: seq<string>, b: string, seen: nat, colored: bool,
                   n: nat)
    requires Copied(mark, s, i, done, b, seen, colored) && i < |s| && n == FirstLen(s[i..]) && StartsEscape(s[i..])
    ensures i + n <= |s| && Copied(mark, s, i + n, done + [s[i..i + n]], b + s[i..i + n], seen, true)
  {
    CopyToken(mark, s, i, done, b, seen, colored, n);
  }

  lemma CopyCharacter(mark: char -> bool, s: string, i: nat, done: seq<string>, b: string, seen: nat, colored: bool)
    requires Copied(mark, s, i, done, b, seen, colored) && i < |s| && !StartsEscape(s[i..])
    ensures Copied(mark, s, i + 1, done + [s[i..i + 1]], b + s[i..i + 1], seen + ColumnWidth(mark, s[i]), colored)
    ensures |done| < |Tokens(s)| && Tokens(s)[..|done|] == done
    ensures TokenWidth(mark, Tokens(s)[|done|]) == ColumnWidth(mark, s[i])
  {
    CopyToken(mark, s, i, done, b, seen, colored, 1);
  }

  method TruncateVisible(mark: char -> bool, s: string, maxVisible: int) returns (r: string)
    ensures r == Truncated(mark, s, maxVisible)
  {
    var limit := if maxVisible < 0 then 0 else maxVisible;
    var b := "";
    var seen: nat, colored := 0, false;
    ghost var done: seq<string> := [];
    var i: nat := 0;
    while i < |s|
      invariant Copied(mark, s, i, done, b, seen, colored) && seen <= limit
      decreases |s| - i
    {
      var n := EscapeLen(s, i);
      if n > 0 {
        CopyEscape(mark, s, i, done, b, seen, colored, n);
        done := done + [s[i..i + n]];
        b := b + s[i..i + n];
        colored := true;
        i := i + n;
        continue;
      }
      CopyCharacter(mark, s, i, done, b, seen, colored);
      var width := ColumnWidth(mark, s[i]);
      if seen + width > limit {
        CutHere(mark, s, maxVisible, done, b, colored);
        r := CloseColor(b, colored);
        return;
      }
      done := done + [s[i..i + 1]];
      b := b + s[i..i + 1];
      seen := seen + width;
      i := i + 1;
    }
    AllCopied(mark, s, i, done, b, seen, colored, maxVisible);
    r := s;
  }

  lemma AllCopied(mark: char -> bool, s: string, i: nat, done: seq<string>, b: string, seen: nat, colored: bool,
                  maxVisible: int)
    requires Copied(mark, s, i, done, b, seen, colored) && i == |s| && seen <= Columns(maxVisible)
    ensures Truncated(mark, s, maxVisible) == s
  {
    assert s[i..] == "";
    assert done + [] == done;
    AllFit(mark, done, Columns(maxVisible));
  }

  lemma CutHere(mark: char -> bool, s: string, maxVisible: int, done: seq<string>, b: string, colored: bool)
    requires Flat(done) == b && (colored <==> Colored(done))
    requires |done| < |Tokens(s)| && Tokens(s)[..|done|] == done
    requires TotalWidth(mark, done) <= Columns(maxVisible)
    requires Columns(maxVisible) < TotalWidth(mark, done) + TokenWidth(mark, Tokens(s)[|done|])
    ensures Truncated(mark, s, maxVisible) == CloseColor(b, colored)
  {
    FitsHere(mark, Tokens(s), done, Columns(maxVisible));
    assert b + "" == b;
  }

  lemma ColoredSnoc(ts: seq<string>, t: string)
    ensures Colored(ts + [t]) <==> Colored(ts) || StartsEscape(t)
  {
    if Colored(ts) {
      var i :| 0 <= i < |ts| && StartsEscape(ts[i]);
      assert (ts + [t])[i] == ts[i];
    }
    assert (ts + [t])[|ts|] == t;
  }

  // ---------------------------------------------------------------- how many tokens fit

  lemma {:induction false} AllFit(mark: char -> bool, ts: seq<string>, n: nat)
    ensures FitCount(mark, ts, n) == |ts| <==> TotalWidth(mark, ts) <= n
  {
    if ts != [] && TokenWidth(mark, ts[0]) <= n {
      AllFit(mark, ts[1..], n - TokenWidth(mark, ts[0]));
    }
  }

  /** The tokens done fit and the next one does not: that is how many fit. */
  lemma {:induction false} FitsHere(mark: char -> bool, ts: seq<string>, done: seq<string>, n: nat)
    requires |done| < |ts| && ts[..|done|] == done
    requires TotalWidth(mark, done) <= n < TotalWidth(mark, done) + TokenWidth(mark, ts[|done|])
    ensures FitCount(mark, ts, n) == |done|
  {
    if done != [] {
      assert ts[0] == done[0];
      assert ts[1..][..|done| - 1] == done[1..];
      FitsHere(mark, ts[1..], done[1..], n - TokenWidth(mark, ts[0]));
    }
  }

  /** What fits takes at most n columns, and any longer run of tokens takes more. */
  lemma {:induction false} FitIsLongest(mark: char -> bool, ts: seq<string>, n: nat)
    ensures TotalWidth(mark, ts[..FitCount(mark, ts, n)]) <= n
    ensures forall j :: FitCount(mark, ts, n) < j <= |ts| ==> TotalWidth(mark, ts[..j]) > n
  {
    var k := FitCount(mark, ts, n);
    if ts != [] {
      forall j | 1 <= j <= |ts|
        ensures ts[..j][1..] == ts[1..][..j - 1] && ts[..j][0] == ts[0]
      {
      }
      if TokenWidth(mark, ts[0]) <= n {
        FitIsLongest(mark, ts[1..], n - TokenWidth(mark, ts[0]));
      }
    }
  }

  // ---------------------------------------------------------------- tokens survive the cut

  lemma {:induction false} EscapeEndIsM(s: string, j: nat)
    requires j <= |s|
    ensures var e := EscapeEnd(s, j); e < |s| ==> e > j && s[e - 1] == 'm'
    decreases |s| - j
  {
    if j < |s| && s[j] != 'm' {
      EscapeEndIsM(s, j + 1);
    }
  }

  /** Where an ended escape ends depends on nothing after it. */
  lemma {:induction false} EscapeEndLocal(s: string, t: string, j: nat, e: nat)
    requires j < e <= |s| && e <= |t| && s[..e] == t[..e]
    requires EscapeEnd(s, j) == e && s[e - 1] == 'm'
    ensures EscapeEnd(t, j) == e
    decreases |s| - j
  {
    assert s[j] == s[..e][j] == t[..e][j] == t[j];
    if s[j] != 'm' {
      assert j != e - 1;
      EscapeEndLocal(s, t, j + 1, e);
    }
  }

  /** A first token that something follows stays the first token when what follows is cut
      away, or cut down, or replaced by an escape. */
  lemma FirstStable(f: string, rest: string, other: string)
    requires f != "" && rest != "" && FirstLen(f + rest) == |f|
    requires other == "" || other[0] == rest[0] || other[0] == ESC
    ensures FirstLen(f + other) == |f|
  {
    var s, t := f + rest, f + other;
    assert s[..|f|] == f == t[..|f|];
    if StartsEscape(s) {
      EscapeEndIsM(s, 2);
      EscapeEndLocal(s, t, 2, |f|);
    }
  }

  lemma {:induction false} FlatTokens(s: string)
    ensures Flat(Tokens(s)) == s
    decreases |s|
  {
    if s != "" {
      var f, rest := s[..FirstLen(s)], s[FirstLen(s)..];
      FlatTokens(rest);
      FlatCons(f, Tokens(rest));
    }
  }

  /** The first k tokens, with the end of the text or an escape after them, are still the
      same k tokens. */
  lemma {:induction false} CutTokens(s: string, k: nat, x: string)
    requires k < |Tokens(s)| && (x == "" || x[0] == ESC)
    ensures Tokens(Flat(Tokens(s)[..k]) + x) == Tokens(s)[..k] + Tokens(x)
    decreases k
  {
    var ts := Tokens(s);
    if k == 0 {
      assert Flat(ts[..0]) + x == x;
    } else {
      var f, rest := ts[0], s[FirstLen(s)..];
      assert ts == [f] + Tokens(rest);
      TakeCons(f, Tokens(rest), k);
      CutTokens(rest, k - 1, x);
      var kept := Flat(Tokens(rest)[..k - 1]) + x;
      HeadOfFlat(rest, k - 1, x);
      SplitAt(s, FirstLen(s));
      FirstStable(f, rest, kept);
      FlatCons(f, Tokens(rest)[..k - 1]);
      Regroup(f, Flat(Tokens(rest)[..k - 1]), x);
      TokensCons(f, kept);
      Regroup([f], Tokens(rest)[..k - 1], Tokens(x));
    }
  }

  lemma TakeCons<T>(x: T, xs: seq<T>, k: nat)
    requires 0 < k <= |xs| + 1
    ensures ([x] + xs)[..k] == [x] + xs[..k - 1]
  {
  }

  lemma FlatCons(f: string, ts: seq<string>)
    ensures Flat([f] + ts) == f + Flat(ts)
  {
    assert ([f] + ts)[1..] == ts;
  }

  lemma TokensCons(f: string, rest: string)
    requires f != "" && FirstLen(f + rest) == |f|
    ensures Tokens(f + rest) == [f] + Tokens(rest)
  {
    assert (f + rest)[..|f|] == f && (f + rest)[|f|..] == rest;
  }

  /** What is kept of a text begins as the text does, or is only the escape put after it. */
  lemma HeadOfFlat(s: string, k: nat, x: string)
    requires s != "" && k < |Tokens(s)|
    ensures var kept := Flat(Tokens(s)[..k]) + x; if k == 0 then kept == x else kept != "" && kept[0] == s[0]
  {
    if k > 0 {
      var ts := Tokens(s)[..k];
      assert ts[0] == s[..FirstLen(s)];
      assert ts == [ts[0]] + ts[1..];
      FlatCons(ts[0], ts[1..]);
    }
  }

  lemma ResetToken(mark: char -> bool)
    ensures Tokens(RESET) == [RESET] && TokenWidth(mark, RESET) == 0
  {
    assert EscapeEnd(RESET, 3) == 4;
    assert EscapeEnd(RESET, 2) == 4;
    assert RESET[..4] == RESET && RESET[4..] == "";
  }

  lemma {:induction false} WidthConcat(mark: char -> bool, a: seq<string>, b: seq<string>)
    ensures TotalWidth(mark, a + b) == TotalWidth(mark, a) + TotalWidth(mark, b)
  {
    if a == [] {
      assert a + b == b;
    } else {
      assert (a + b)[1..] == a[1..] + b;
      WidthConcat(mark, a[1..], b);
    }
  }

  /** The tokens of a text cut short: those that fit, and a reset when one was a color. */
  lemma TokensOfTruncated(mark: char -> bool, s: string, maxVisible: int)
    ensures var ts, n := Tokens(s), Columns(maxVisible);
      var k := FitCount(mark, ts, n);
      k < |ts| ==> Tokens(Truncated(mark, s, maxVisible)) == ts[..k] + if Colored(ts[..k]) then [RESET] else []
  {
    var ts, n := Tokens(s), Columns(maxVisible);
    var k := FitCount(mark, ts, n);
    if k < |ts| {
      ResetToken(mark);
      CutTokens(s, k, RESET);
      CutTokens(s, k, "");
      assert Flat(ts[..k]) + "" == Flat(ts[..k]);
      assert Tokens("") == [];
    }
  }

  /** The whole contract of a cut line: it takes at most the columns asked for; it is the
      line itself exactly when that fits; otherwise its tokens are the longest run from the
      front that fits, with a reset after them when a color was among them. */
  lemma TruncationIsTight(mark: char -> bool, s: string, maxVisible: int)
    ensures VisLenOf(mark, Truncated(mark, s, maxVisible)) <= Columns(maxVisible)
    ensures Truncated(mark, s, maxVisible) == s <==> VisLenOf(mark, s) <= Columns(maxVisible)
    ensures VisLenOf(mark, s) > Columns(maxVisible) ==>
      exists k :: 0 <= k < |Tokens(s)|
        && Tokens(Truncated(mark, s, maxVisible)) == Kept(s, k)
        && forall j :: k < j <= |Tokens(s)| ==> TotalWidth(mark, Tokens(s)[..j]) > Columns(maxVisible)
  {
    var ts, n := Tokens(s), Columns(maxVisible);
    var k := FitCount(mark, ts, n);
    AllFit(mark, ts, n);
    FitIsLongest(mark, ts, n);
    if k < |ts| {
      TokensOfTruncated(mark, s, maxVisible);
      ResetToken(mark);
      WidthConcat(mark, ts[..k], [RESET]);
      WidthConcat(mark, ts[..k], []);
      assert TotalWidth(mark, [RESET]) == 0;
      assert Tokens(Truncated(mark, s, maxVisible)) == Kept(s, k);
    }
  }

  function Kept(s: string, k: nat): seq<string>
    requires k <= |Tokens(s)|
  {
    Tokens(s)[..k] + if Colored(Tokens(s)[..k]) then [RESET] else []
  }
}
