/** The line the user types on: cmd/leavesafe/input.go.

    The buffer and cursor refine a zipper: the text before the cursor and the text after
    it, each edited only at the end that touches the cursor. */
module InputLine {
  import opened Text
  import L = Layout

  const PROMPT := "> "
  const MASK := '*'

  datatype Key =
    | Char(r: char) | Enter | Backspace | Delete | Left | Right | Home | End | Prev | Next
    | KillLine | KillWord | Interrupt | Eof | Suspend | Ignore

  datatype Action = Nothing | Submit | Interrupted | EndOfInput | Suspended

  // ---------------------------------------------------------------- the zipper

  datatype Zipper = Zipper(before: string, after: string) {
    function Text(): string {
      before + after
    }

    function Insert(c: char): Zipper {
      Zipper(before + [c], after)
    }

    function DropBefore(): Zipper {
      if before == "" then this else Zipper(before[..|before| - 1], after)
    }

    function DropAfter(): Zipper {
      if after == "" then this else Zipper(before, after[1..])
    }

    function Back(): Zipper {
      if before == "" then this else Zipper(before[..|before| - 1], [before[|before| - 1]] + after)
    }

    function Forward(): Zipper {
      if after == "" then this else Zipper(before + [after[0]], after[1..])
    }

    function KillWord(): Zipper {
      Zipper(DropWord(DropSpaces(before)), after)
    }
  }

  function DropSpaces(s: string): string {
    if s != "" && s[|s| - 1] == ' ' then DropSpaces(s[..|s| - 1]) else s
  }

  function DropWord(s: string): string {
    if s != "" && s[|s| - 1] != ' ' then DropWord(s[..|s| - 1]) else s
  }

  // ---------------------------------------------------------------- the editor

  datatype Editor = Editor(zip: Zipper, history: seq<string>, at: nat, draft: string, masked: bool)

  function SetText(e: Editor, s: string): Editor {
    e.(zip := Zipper(s, ""))
  }

  /** Stepping through what was typed before; the line being typed is one past the last. */
  function Walk(e: Editor, step: int): Editor {
    var to := e.at + step;
    if to < 0 || to > |e.history| then e
    else
      var d := if e.at == |e.history| then e.(draft := e.zip.Text()) else e;
      SetText(d.(at := to), if to == |e.history| then d.draft else e.history[to])
  }

  function Apply(e: Editor, k: Key): (Action, Editor) {
    match k
    case Char(r) => (Nothing, e.(zip := e.zip.Insert(r)))
    case Enter => (Submit, e)
    case Backspace => (Nothing, e.(zip := e.zip.DropBefore()))
    case Delete => (Nothing, e.(zip := e.zip.DropAfter()))
    case Left => (Nothing, e.(zip := e.zip.Back()))
    case Right => (Nothing, e.(zip := e.zip.Forward()))
    case Home => (Nothing, e.(zip := Zipper("", e.zip.Text())))
    case End => (Nothing, e.(zip := Zipper(e.zip.Text(), "")))
    case Prev => (Nothing, Walk(e, -1))
    case Next => (Nothing, Walk(e, 1))
    case KillLine => (Nothing, SetText(e, ""))
    case KillWord => (Nothing, e.(zip := e.zip.KillWord()))
    case Interrupt => (Interrupted, e)
    case Suspend => (Suspended, e)
    case Eof => if e.zip.Text() == "" then (EndOfInput, e) else (Nothing, e.(zip := e.zip.DropAfter()))
    case Ignore => (Nothing, e)
  }

  function LastTyped(history: seq<string>): string {
    if history == [] then "" else history[|history| - 1]
  }

  /** What is remembered of a line handed back: nothing blank, masked, or the same again. */
  function Remembered(history: seq<string>, line: string, masked: bool): seq<string> {
    var t := Trim(line);
    if t != "" && !masked && LastTyped(history) != t then history + [t] else history
  }

  function Take(e: Editor): (string, Editor) {
    var line := e.zip.Text();
    var h := Remembered(e.history, line, e.masked);
    (line, Editor(Zipper("", ""), h, |h|, "", e.masked))
  }

  class InputLine {
    var buf: string
    var pos: nat
    var history: seq<string>
    var at: nat
    var draft: string
    var masked: bool

    ghost predicate Valid()
      reads this
    {
      pos <= |buf| && at <= |history|
    }

    ghost function View(): Editor
      reads this
      requires Valid()
    {
      Editor(Zipper(buf[..pos], buf[pos..]), history, at, draft, masked)
    }

    constructor ()
      ensures Valid() && View() == Editor(Zipper("", ""), [], 0, "", false)
    {
      buf, pos, history, at, draft, masked := "", 0, [], 0, "", false;
    }

    method ApplyKey(k: Key) returns (a: Action)
      requires Valid()
      modifies this
      ensures Valid() && (a, View()) == Apply(old(View()), k)
    {
      ghost var was := View();
      assert was.zip.Text() == buf;
      a := Nothing;
      match k
      case Char(r) => Insert(r);
      case Enter => return Submit;
      case Backspace => DeleteBack();
      case Delete => DeleteForward();
      case Left =>
        CutBefore(buf, pos);
        pos := if pos > 0 then pos - 1 else 0;
      case Right =>
        CutAfter(buf, pos);
        pos := if pos + 1 <= |buf| then pos + 1 else |buf|;
      case Home =>
        pos := 0;
        CutAtEnds(buf);
      case End =>
        pos := |buf|;
        CutAtEnds(buf);
      case Prev => WalkBy(-1);
      case Next => WalkBy(1);
      case KillLine => Set("");
      case KillWord => DeleteWord();
      case Interrupt => return Interrupted;
      case Suspend => return Suspended;
      case Eof => a := EndOfFile();
      case Ignore =>
    }

    method EndOfFile() returns (a: Action)
      requires Valid()
      modifies this`buf
      ensures Valid() && (a, View()) == Apply(old(View()), Eof)
    {
      assert View().zip.Text() == buf;
      if |buf| == 0 {
        return EndOfInput;
      }
      DeleteForward();
      a := Nothing;
    }

    /** One cell more at the end, everything from the cursor moved into it, the character
        written over the cursor. */
    method Insert(r: char)
      requires Valid()
      modifies this`buf, this`pos
      ensures Valid() && View() == old(View()).(zip := old(View()).zip.Insert(r))
    {
      ghost var was := buf;
      buf := buf + [' '];
      buf := buf[..pos + 1] + buf[pos..|buf| - 1];
      buf := buf[pos := r];
      pos := pos + 1;
      assert buf[..pos] == was[..pos - 1] + [r];
      assert buf[pos..] == was[pos - 1..];
    }

    method DeleteBack()
      requires Valid()
      modifies this`buf, this`pos
      ensures Valid() && View() == old(View()).(zip := old(View()).zip.DropBefore())
    {
      if pos == 0 {
        return;
      }
      ghost var was := buf;
      buf := buf[..pos - 1] + buf[pos..];
      pos := pos - 1;
      assert buf[..pos] == was[..pos + 1][..pos];
      assert buf[pos..] == was[pos + 1..];
    }

    method DeleteForward()
      requires Valid()
      modifies this`buf
      ensures Valid() && View() == old(View()).(zip := old(View()).zip.DropAfter())
    {
      if pos >= |buf| {
        return;
      }
      ghost var was := buf;
      buf := buf[..pos] + buf[pos + 1..];
      assert buf[..pos] == was[..pos];
      assert buf[pos..] == was[pos..][1..];
    }

    method DeleteWord()
      requires Valid()
      modifies this`buf, this`pos
      ensures Valid() && View() == old(View()).(zip := old(View()).zip.KillWord())
    {
      ghost var was := buf;
      var to: nat := pos;
      while to > 0 && buf[to - 1] == ' '
        invariant to <= pos && DropSpaces(buf[..pos]) == DropSpaces(buf[..to])
      {
        assert buf[..to][..to - 1] == buf[..to - 1];
        to := to - 1;
      }
      ghost var spaced: nat := to;
      assert DropSpaces(buf[..pos]) == buf[..to];
      while to > 0 && buf[to - 1] != ' '
        invariant to <= spaced && DropWord(buf[..spaced]) == DropWord(buf[..to])
      {
        assert buf[..to][..to - 1] == buf[..to - 1];
        to := to - 1;
      }
      assert DropWord(buf[..spaced]) == buf[..to];
      buf := buf[..to] + buf[pos..];
      assert buf[..to] == was[..to] && buf[to..] == was[pos..];
      pos := to;
    }

    method Set(s: string)
      modifies this`buf, this`pos
      ensures buf == s && pos == |s|
    {
      buf := s;
      pos := |buf|;
    }

    method WalkBy(step: int)
      requires Valid()
      modifies this
      ensures Valid() && View() == Walk(old(View()), step)
    {
      assert View().zip.Text() == buf;
      var to := at + step;
      if to < 0 || to > |history| {
        return;
      }
      if at == |history| {
        draft := buf;
      }
      at := to;
      if to == |history| {
        Set(draft);
        assert buf[..pos] == draft && buf[pos..] == "";
        return;
      }
      Set(history[to]);
      assert buf[..pos] == history[to] && buf[pos..] == "";
    }

    method TakeLine() returns (line: string)
      requires Valid()
      modifies this
      ensures Valid() && (line, View()) == Take(old(View()))
    {
      assert View().zip.Text() == buf;
      line := buf;
      buf, pos, draft := "", 0, "";
      var trimmed := Trim(line);
      var last := if |history| == 0 then "" else history[|history| - 1];
      if trimmed != "" && !masked && last != trimmed {
        history := history + [trimmed];
      }
      at := |history|;
    }

    method MaskLine(on: bool)
      requires Valid()
      modifies this`masked
      ensures Valid() && View() == old(View()).(masked := on)
    {
      masked := on;
    }

    method Draw(width: int) returns (text: string, cursor: int)
      requires Valid()
      ensures (text, cursor) == Window(buf, pos, masked, width)
    {
      var room := width - |PROMPT| - 1;
      if room < 1 {
        room := 1;
      }
      var from, to := 0, |buf|;
      if pos >= room {
        from := pos - room + 1;
      }
      if from + room < to {
        to := from + room;
      }
      var shown := buf[from..to];
      if masked {
        shown := Repeat(MASK, |shown|);
      }
      text, cursor := PROMPT + shown, |PROMPT| + (pos - from) + 1;
    }

    method Repeat(c: char, n: nat) returns (s: string)
      ensures s == seq(n, _ => c)
    {
      s := "";
      for i := 0 to n
        invariant s == seq(i, _ => c)
      {
        s := s + [c];
      }
    }
  }

  lemma CutBefore(s: string, i: nat)
    requires i <= |s|
    ensures i > 0 ==> s[..i] == s[..i - 1] + [s[i - 1]] && s[..i][..i - 1] == s[..i - 1]
    ensures i > 0 ==> s[i - 1..] == [s[i - 1]] + s[i..]
  {
  }

  lemma CutAfter(s: string, i: nat)
    requires i <= |s|
    ensures i < |s| ==> s[..i + 1] == s[..i] + [s[i]] && s[i..][1..] == s[i + 1..]
  {
  }

  lemma CutAtEnds(s: string)
    ensures s[..0] == "" && s[0..] == s && s[..|s|] == s && s[|s|..] == ""
  {
  }

  // ---------------------------------------------------------------- what is on screen

  function Room(width: int): (r: nat)
    ensures r >= 1
  {
    if width - |PROMPT| - 1 > 1 then width - |PROMPT| - 1 else 1
  }

  function From(pos: nat, width: int): (f: nat)
    ensures f <= pos < f + Room(width)
  {
    if pos >= Room(width) then pos - Room(width) + 1 else 0
  }

  /** The characters drawn after the prompt. */
  function Shown(buf: string, pos: nat, width: int): string
    requires pos <= |buf|
  {
    var from, room := From(pos, width), Room(width);
    buf[from..if from + room < |buf| then from + room else |buf|]
  }

  /** The part of the line that fits in a window this wide, and the column, from 1, that the
      cursor goes in. */
  function Window(buf: string, pos: nat, masked: bool, width: int): (v: (string, int))
    requires pos <= |buf|
  {
    var shown := Shown(buf, pos, width);
    var drawn := if masked then seq(|shown|, _ => MASK) else shown;
    (PROMPT + drawn, |PROMPT| + (pos - From(pos, width)) + 1)
  }

  /** Counting characters: in a window of at least four cells what is drawn leaves the last
      one free, the character under the cursor is among those drawn, where the cursor is
      put, and a line short enough is shown whole. */
  lemma CursorAlwaysInView(buf: string, pos: nat, masked: bool, width: int)
    requires pos <= |buf| && width >= 4
    ensures var (text, cursor) := Window(buf, pos, masked, width);
      && |text| <= width - 1 && |PROMPT| < cursor <= width - 1 && cursor <= |text| + 1
      && (pos < |buf| ==> cursor <= |text| && text[cursor - 1] == if masked then MASK else buf[pos])
      && (pos == |buf| ==> cursor == |text| + 1)
      && (!masked && |buf| < width - |PROMPT| - 1 ==> text == PROMPT + buf)
  {
    assert buf[0..|buf|] == buf;
  }

  /** On a masked line nothing but its length and the cursor shows. */
  lemma MaskHidesText(a: string, b: string, pos: nat, width: int)
    requires |a| == |b| && pos <= |a|
    ensures Window(a, pos, true, width) == Window(b, pos, true, width)
    ensures forall i :: |PROMPT| <= i < |Window(a, pos, true, width).0| ==> Window(a, pos, true, width).0[i] == MASK
  {
  }

  // ---------------------------------------------------------------- in columns

  /** What is assumed of the Unicode categories: no printable ASCII character is a mark. */
  ghost predicate AsciiUnmarked(mark: char -> bool) {
    forall c :: ' ' <= c <= '~' ==> !mark(c)
  }

  /** The row drawn stays short of the last column. */
  ghost predicate RowFits(mark: char -> bool, buf: string, pos: nat, masked: bool, width: int)
    requires pos <= |buf|
  {
    L.VisLenOf(mark, Window(buf, pos, masked, width).0) <= width - 1
  }

  /** The cursor is put right after the columns of what is drawn before it. */
  ghost predicate CursorInPlace(mark: char -> bool, buf: string, pos: nat, masked: bool, width: int)
    requires pos <= |buf|
  {
    var (text, cursor) := Window(buf, pos, masked, width);
    var ahead := |PROMPT| + (pos - From(pos, width));
    ahead <= |text| && cursor == L.VisLenOf(mark, text[..ahead]) + 1
  }

  lemma RowWidth(mark: char -> bool, shown: string)
    requires AsciiUnmarked(mark) && L.ESC !in shown
    ensures L.VisLenOf(mark, PROMPT + shown) == |PROMPT| + L.CharsWidth(mark, shown)
  {
    L.PlainWidth(mark, PROMPT + shown);
    L.CharsWidthConcat(mark, PROMPT, shown);
    L.EvenWidth(mark, PROMPT, 1);
  }

  /** A line without escapes keeps short of the last column in every window of at least four
      columns, wherever the cursor is, exactly when none of its characters is wide. */
  lemma RowFitsExactly(mark: char -> bool, buf: string)
    requires AsciiUnmarked(mark) && L.ESC !in buf
    ensures (forall pos: nat, width :: pos <= |buf| && width >= 4 ==> RowFits(mark, buf, pos, false, width))
            <==> (forall i :: 0 <= i < |buf| ==> L.ColumnWidth(mark, buf[i]) <= 1)
  {
    if forall i :: 0 <= i < |buf| ==> L.ColumnWidth(mark, buf[i]) <= 1 {
      forall pos: nat, width | pos <= |buf| && width >= 4
        ensures RowFits(mark, buf, pos, false, width)
      {
        NarrowRowFits(mark, buf, pos, width);
      }
    } else {
      var i :| 0 <= i < |buf| && L.ColumnWidth(mark, buf[i]) > 1;
      OneCharacterRow(mark, buf, i);
      assert !RowFits(mark, buf, i, false, 4);
    }
  }

  lemma NarrowRowFits(mark: char -> bool, buf: string, pos: nat, width: int)
    requires AsciiUnmarked(mark) && L.ESC !in buf && pos <= |buf| && width >= 4
    requires forall i :: 0 <= i < |buf| ==> L.ColumnWidth(mark, buf[i]) <= 1
    ensures RowFits(mark, buf, pos, false, width)
  {
    var shown := Shown(buf, pos, width);
    RowWidth(mark, shown);
    L.NarrowWidth(mark, shown);
  }

  /** In four columns there is room for one character, the one under the cursor. */
  lemma OneCharacterRow(mark: char -> bool, buf: string, i: nat)
    requires AsciiUnmarked(mark) && L.ESC !in buf && i < |buf|
    ensures L.VisLenOf(mark, Window(buf, i, false, 4).0) == |PROMPT| + L.ColumnWidth(mark, buf[i])
  {
    assert Shown(buf, i, 4) == [buf[i]];
    RowWidth(mark, [buf[i]]);
    assert L.CharsWidth(mark, [buf[i]]) == L.ColumnWidth(mark, buf[i]) + L.CharsWidth(mark, [buf[i]][1..]);
  }

  /** The cursor is put in the right cell of every window, wherever it is, exactly when every
      character of the line takes one column. */
  lemma CursorInPlaceExactly(mark: char -> bool, buf: string)
    requires AsciiUnmarked(mark) && L.ESC !in buf
    ensures (forall pos: nat, width :: pos <= |buf| && width >= 4 ==> CursorInPlace(mark, buf, pos, false, width))
            <==> (forall i :: 0 <= i < |buf| ==> L.ColumnWidth(mark, buf[i]) == 1)
  {
    if forall i :: 0 <= i < |buf| ==> L.ColumnWidth(mark, buf[i]) == 1 {
      forall pos: nat, width | pos <= |buf| && width >= 4
        ensures CursorInPlace(mark, buf, pos, false, width)
      {
        CursorAfter(mark, buf, pos, width);
        L.EvenWidth(mark, buf[From(pos, width)..pos], 1);
      }
    } else {
      var i :| 0 <= i < |buf| && L.ColumnWidth(mark, buf[i]) != 1;
      CursorAfter(mark, buf, i + 1, 5);
      assert buf[From(i + 1, 5)..i + 1] == [buf[i]];
      assert L.CharsWidth(mark, [buf[i]]) == L.ColumnWidth(mark, buf[i]) + L.CharsWidth(mark, [buf[i]][1..]);
      assert !CursorInPlace(mark, buf, i + 1, false, 5);
    }
  }

  /** The cursor is in place when the characters drawn before it take a column each, in all. */
  lemma CursorAfter(mark: char -> bool, buf: string, pos: nat, width: int)
    requires AsciiUnmarked(mark) && L.ESC !in buf && pos <= |buf| && width >= 4
    ensures var from := From(pos, width);
      CursorInPlace(mark, buf, pos, false, width) <==> L.CharsWidth(mark, buf[from..pos]) == pos - from
  {
    var from, text := From(pos, width), Window(buf, pos, false, width).0;
    assert text[..|PROMPT| + (pos - from)] == PROMPT + buf[from..pos];
    RowWidth(mark, buf[from..pos]);
  }

  /** A masked line meets both, whatever is on it. */
  lemma MaskedRowFits(mark: char -> bool, buf: string, pos: nat, width: int)
    requires AsciiUnmarked(mark) && pos <= |buf| && width >= 4
    ensures RowFits(mark, buf, pos, true, width) && CursorInPlace(mark, buf, pos, true, width)
  {
    var from, text := From(pos, width), Window(buf, pos, true, width).0;
    var stars := seq(|Shown(buf, pos, width)|, _ => MASK);
    RowWidth(mark, stars);
    L.EvenWidth(mark, stars, 1);
    assert text[..|PROMPT| + (pos - from)] == PROMPT + stars[..pos - from];
    RowWidth(mark, stars[..pos - from]);
    L.EvenWidth(mark, stars[..pos - from], 1);
  }

  /** Eight characters of two columns each, in a window of ten: fourteen columns are drawn,
      with the cursor put in the ninth instead of the fifteenth. One of them in a window of
      four is already a column too many. */
  lemma WideCharactersSpill(mark: char -> bool, c: char, eight: string)
    requires AsciiUnmarked(mark) && c == '\U{4E2D}' && !mark(c)
    requires |eight| == 8 && forall i :: 0 <= i < 8 ==> eight[i] == c
    ensures L.VisLenOf(mark, Window([c], 0, false, 4).0) == 4 && !RowFits(mark, [c], 0, false, 4)
    ensures var (text, cursor) := Window(eight, 8, false, 10); L.VisLenOf(mark, text) == 14 && cursor == 9
  {
    OneCharacterRow(mark, [c], 0);
    var shown := Shown(eight, 8, 10);
    RowWidth(mark, shown);
    L.EvenWidth(mark, shown, 2);
  }

  /** What a key read from the terminal can put on the line: no control character, so no escape. */
  predicate Typeable(c: char) {
    var r := c as int;
    !(r < 32 || 0x7f <= r < 0xa0)
  }

  ghost predicate AllIn(ok: char -> bool, s: string) {
    forall i :: 0 <= i < |s| ==> ok(s[i])
  }

  /** Everything the editor holds or remembers. */
  ghost predicate Holds(ok: char -> bool, e: Editor) {
    && AllIn(ok, e.zip.before) && AllIn(ok, e.zip.after) && AllIn(ok, e.draft)
    && e.at <= |e.history| && forall i :: 0 <= i < |e.history| ==> AllIn(ok, e.history[i])
  }

  // ---------------------------------------------------------------- what keys undo

  /** What was typed and taken back, and a step aside and back, leave no trace. */
  lemma KeysUndo(z: Zipper, c: char)
    ensures z.Insert(c).DropBefore() == z
    ensures z.Insert(c).Back().DropAfter() == z
    ensures z.before != "" ==> z.Back().Forward() == z
    ensures z.after != "" ==> z.Forward().Back() == z
    ensures z.Back().Text() == z.Text() == z.Forward().Text()
  {
    assert (z.before + [c])[..|z.before|] == z.before;
    assert ([c] + z.after)[1..] == z.after;
    BackKeepsText(z);
    ForwardKeepsText(z);
  }

  lemma BackKeepsText(z: Zipper)
    ensures z.Back().Text() == z.Text() && (z.before != "" ==> z.Back().Forward() == z)
  {
    if z.before != "" {
      assert z.before == z.before[..|z.before| - 1] + [z.before[|z.before| - 1]];
    }
  }

  lemma ForwardKeepsText(z: Zipper)
    ensures z.Forward().Text() == z.Text() && (z.after != "" ==> z.Forward().Back() == z)
  {
    if z.after != "" {
      assert z.after == [z.after[0]] + z.after[1..];
      assert (z.before + [z.after[0]])[..|z.before|] == z.before;
    }
  }

  /** The part of a line that deleting a word keeps: before it there is a word and the
      spaces after that word, and the word is whole. */
  ghost predicate WordCut(s: string, kept: string, word: string, spaces: string) {
    && s == kept + word + spaces
    && (forall i :: 0 <= i < |spaces| ==> spaces[i] == ' ')
    && (forall i :: 0 <= i < |word| ==> word[i] != ' ')
    && (kept == "" || (kept[|kept| - 1] == ' ' && word != ""))
  }

  lemma {:induction false} SpacesDropped(s: string)
    ensures var r := DropSpaces(s);
      |r| <= |s| && s[..|r|] == r && (r == "" || r[|r| - 1] != ' ')
      && forall i :: |r| <= i < |s| ==> s[i] == ' '
  {
    if s != "" && s[|s| - 1] == ' ' {
      SpacesDropped(s[..|s| - 1]);
    }
  }

  lemma {:induction false} WordDropped(s: string)
    ensures var r := DropWord(s);
      |r| <= |s| && s[..|r|] == r && (r == "" || r[|r| - 1] == ' ')
      && forall i :: |r| <= i < |s| ==> s[i] != ' '
  {
    if s != "" && s[|s| - 1] != ' ' {
      WordDropped(s[..|s| - 1]);
    }
  }

  /** Deleting a word takes exactly one word and the spaces behind it. */
  lemma KillWordTakesOneWord(z: Zipper)
    ensures z.KillWord().after == z.after
    ensures exists word, spaces :: WordCut(z.before, z.KillWord().before, word, spaces)
  {
    var mid := DropSpaces(z.before);
    var kept := DropWord(mid);
    SpacesDropped(z.before);
    WordDropped(mid);
    var word, spaces := mid[|kept|..], z.before[|mid|..];
    assert z.before == kept + word + spaces;
    assert WordCut(z.before, kept, word, spaces);
  }

  /** The editor's text, and where in it the cursor stands. */
  predicate Shows(e: Editor, text: string, pos: nat) {
    e.zip.Text() == text && |e.zip.before| == pos
  }

  /** Which key does what, by position: s is the text before the key and p the cursor's place. */
  lemma KeyEdits(e: Editor, k: Key)
    ensures var (a, f) := Apply(e, k); var s, p := e.zip.Text(), |e.zip.before|;
      match k
      case Char(r) => a.Nothing? && Shows(f, s[..p] + [r] + s[p..], p + 1)
      case Backspace => a.Nothing? && if p == 0 then Shows(f, s, p) else Shows(f, s[..p - 1] + s[p..], p - 1)
      case Delete => a.Nothing? && if p == |s| then Shows(f, s, p) else Shows(f, s[..p] + s[p + 1..], p)
      case Left => a.Nothing? && Shows(f, s, if p == 0 then 0 else p - 1)
      case Right => a.Nothing? && Shows(f, s, if p == |s| then p else p + 1)
      case Home => a.Nothing? && Shows(f, s, 0)
      case End => a.Nothing? && Shows(f, s, |s|)
      case KillLine => a.Nothing? && Shows(f, "", 0)
      case Eof =>
        if s == "" then a.EndOfInput? && f == e
        else a.Nothing? && if p == |s| then Shows(f, s, p) else Shows(f, s[..p] + s[p + 1..], p)
      case Enter => a.Submit? && f == e
      case Interrupt => a.Interrupted? && f == e
      case Suspend => a.Suspended? && f == e
      case Ignore => a.Nothing? && f == e
      case KillWord => a.Nothing? && f.zip.after == e.zip.after
      case Prev => a.Nothing?
      case Next => a.Nothing?
    ensures !k.Prev? && !k.Next? ==>
      var f := Apply(e, k).1; f.history == e.history && f.at == e.at && f.draft == e.draft && f.masked == e.masked
  {
    CutText(e.zip);
    BackKeepsText(e.zip);
    ForwardKeepsText(e.zip);
    BeforeDropped(e.zip);
    AfterDropped(e.zip);
  }

  lemma CutText(z: Zipper)
    ensures z.Text()[..|z.before|] == z.before && z.Text()[|z.before|..] == z.after
  {
  }

  lemma BeforeDropped(z: Zipper)
    ensures var s, p := z.Text(), |z.before|;
      p > 0 ==> z.DropBefore().Text() == s[..p - 1] + s[p..] && |z.DropBefore().before| == p - 1
  {
    CutText(z);
  }

  lemma AfterDropped(z: Zipper)
    ensures var s, p := z.Text(), |z.before|;
      p < |s| ==> z.DropAfter().Text() == s[..p] + s[p + 1..] && |z.DropAfter().before| == p
  {
    CutText(z);
  }

  /** A step back or on in the history: the line there with the cursor at its end, the one being
      typed past the newest, and no step past either end. */
  lemma KeyWalks(e: Editor, k: Key)
    requires (k.Prev? || k.Next?) && e.at <= |e.history|
    ensures var f := Apply(e, k).1; var to: int := if k.Prev? then e.at - 1 else e.at + 1;
      if to < 0 || to > |e.history| then f == e
      else
        && f.at == to && f.history == e.history && f.masked == e.masked && f.zip.after == ""
        && f.zip.before == (if to == |e.history| then e.draft else e.history[to])
        && f.draft == if e.at == |e.history| then e.zip.Text() else e.draft
  {
  }

  // ---------------------------------------------------------------- history, over every run

  datatype Event = Press(k: Key) | TakeEvent | Mask(on: bool)

  function Happen(e: Editor, ev: Event): Editor {
    match ev
    case Press(k) => Apply(e, k).1
    case TakeEvent => Take(e).1
    case Mask(on) => e.(masked := on)
  }

  function Run(e: Editor, evs: seq<Event>): Editor {
    if evs == [] then e else Happen(Run(e, evs[..|evs| - 1]), evs[|evs| - 1])
  }

  /** The lines handed back while the line was not masked, in order. */
  function Typed(e: Editor, evs: seq<Event>): seq<string> {
    if evs == [] then []
    else
      var before := Run(e, evs[..|evs| - 1]);
      Typed(e, evs[..|evs| - 1]) +
        if evs[|evs| - 1].TakeEvent? && !before.masked then [before.zip.Text()] else []
  }

  /** What a shell would remember of some lines: each trimmed, none blank, no repeats in a row. */
  function Digest(lines: seq<string>): seq<string> {
    if lines == [] then []
    else
      var h, t := Digest(lines[..|lines| - 1]), Trim(lines[|lines| - 1]);
      if t == "" || (h != [] && h[|h| - 1] == t) then h else h + [t]
  }

  ghost predicate Tidy(h: seq<string>) {
    && (forall i :: 0 <= i < |h| ==> h[i] != "" && !IsSpace(h[i][0]) && !IsSpace(h[i][|h[i]| - 1]))
    && (forall i :: 0 <= i < |h| - 1 ==> h[i] != h[i + 1])
  }

  lemma {:induction false} DigestIsTidy(lines: seq<string>)
    ensures Tidy(Digest(lines))
  {
    if lines != [] {
      DigestIsTidy(lines[..|lines| - 1]);
      TrimmedEnds(lines[|lines| - 1]);
    }
  }

  const FRESH := Editor(Zipper("", ""), [], 0, "", false)

  lemma StepKeepsHistory(e: Editor, ev: Event)
    requires e.at <= |e.history|
    ensures Happen(e, ev).at <= |Happen(e, ev).history|
    ensures !ev.TakeEvent? ==> Happen(e, ev).history == e.history
    ensures ev.TakeEvent? ==> Happen(e, ev).history == Remembered(e.history, e.zip.Text(), e.masked)
  {
  }

  /** Over every run of keystrokes, lines taken and masking switched on and off: the
      history is exactly the digest of the lines taken unmasked, so it never holds a blank
      entry, the same entry twice in a row, or anything of a masked line. */
  lemma {:induction false} HistoryIsDigest(evs: seq<Event>)
    ensures Run(FRESH, evs).at <= |Run(FRESH, evs).history|
    ensures Run(FRESH, evs).history == Digest(Typed(FRESH, evs))
    ensures Tidy(Run(FRESH, evs).history)
  {
    if evs != [] {
      var earlier, ev := evs[..|evs| - 1], evs[|evs| - 1];
      HistoryIsDigest(earlier);
      var before := Run(FRESH, earlier);
      StepKeepsHistory(before, ev);
      if ev.TakeEvent? && !before.masked {
        assert (Typed(FRESH, earlier) + [before.zip.Text()])[..|Typed(FRESH, earlier)|] == Typed(FRESH, earlier);
      } else {
        assert Typed(FRESH, earlier) + [] == Typed(FRESH, earlier);
      }
    }
    DigestIsTidy(Typed(FRESH, evs));
  }

  // ---------------------------------------------------------------- what is on the line, over every run

  ghost predicate OnlyTypes(ok: char -> bool, evs: seq<Event>) {
    forall i :: 0 <= i < |evs| && evs[i].Press? && evs[i].k.Char? ==> ok(evs[i].k.r)
  }

  lemma DropsKeep(ok: char -> bool, s: string)
    requires AllIn(ok, s)
    ensures AllIn(ok, DropWord(DropSpaces(s)))
  {
    SpacesDropped(s);
    WordDropped(DropSpaces(s));
  }

  lemma TrimKeeps(ok: char -> bool, s: string)
    requires AllIn(ok, s)
    ensures AllIn(ok, Trim(s))
  {
    TrimIsPart(s);
    forall i | 0 <= i < |Trim(s)|
      ensures ok(Trim(s)[i])
    {
      assert Trim(s)[i] in s;
    }
  }

  lemma {:induction false} TrimIsPart(s: string)
    ensures forall c :: c in Trim(s) ==> c in s
  {
    TrimLeftIsPart(s);
  }

  lemma {:induction false} TrimLeftIsPart(s: string)
    ensures forall c :: c in TrimLeft(s) ==> c in s
  {
    if s != "" && IsSpace(s[0]) {
      TrimLeftIsPart(s[1..]);
    }
  }

  lemma WalkHolds(ok: char -> bool, e: Editor, step: int)
    requires Holds(ok, e)
    ensures Holds(ok, Walk(e, step))
  {
    assert AllIn(ok, e.zip.Text());
  }

  ghost predicate ZipHolds(ok: char -> bool, z: Zipper) {
    AllIn(ok, z.before) && AllIn(ok, z.after)
  }

  lemma EditsHold(ok: char -> bool, z: Zipper, c: char)
    requires ZipHolds(ok, z)
    ensures ok(c) ==> ZipHolds(ok, z.Insert(c))
    ensures ZipHolds(ok, z.DropBefore()) && ZipHolds(ok, z.DropAfter()) && ZipHolds(ok, z.Back())
    ensures ZipHolds(ok, z.Forward()) && ZipHolds(ok, z.KillWord()) && AllIn(ok, z.Text())
  {
    DropsKeep(ok, z.before);
  }

  lemma KeyHolds(ok: char -> bool, e: Editor, k: Key)
    requires Holds(ok, e) && (k.Char? ==> ok(k.r))
    ensures Holds(ok, Apply(e, k).1)
  {
    EditsHold(ok, e.zip, if k.Char? then k.r else ' ');
    WalkHolds(ok, e, -1);
    WalkHolds(ok, e, 1);
  }

  lemma TakeHolds(ok: char -> bool, e: Editor)
    requires Holds(ok, e)
    ensures Holds(ok, Take(e).1)
  {
    EditsHold(ok, e.zip, ' ');
    TrimKeeps(ok, e.zip.Text());
  }

  lemma StepHolds(ok: char -> bool, e: Editor, ev: Event)
    requires Holds(ok, e) && (ev.Press? && ev.k.Char? ==> ok(ev.k.r))
    ensures Holds(ok, Happen(e, ev))
  {
    match ev
    case Press(k) => KeyHolds(ok, e, k);
    case TakeEvent => TakeHolds(ok, e);
    case Mask(_) =>
  }

  /** Nothing gets onto the line, into the draft or into the history but what was typed. */
  lemma {:induction false} LineHoldsWhatWasTyped(ok: char -> bool, evs: seq<Event>)
    requires OnlyTypes(ok, evs)
    ensures Holds(ok, Run(FRESH, evs))
  {
    if evs != [] {
      LineHoldsWhatWasTyped(ok, evs[..|evs| - 1]);
      StepHolds(ok, Run(FRESH, evs[..|evs| - 1]), evs[|evs| - 1]);
    }
  }

  /** So there is never an escape on a line typed at the terminal, where no control character
      can be typed. */
  lemma NoEscapeOnLine(evs: seq<Event>)
    requires OnlyTypes(Typeable, evs)
    ensures L.ESC !in Run(FRESH, evs).zip.Text()
  {
    LineHoldsWhatWasTyped(Typeable, evs);
  }

  // ---------------------------------------------------------------- walking back and forth

  function Repeat(e: Editor, k: Key, n: nat): Editor {
    if n == 0 then e else Apply(Repeat(e, k, n - 1), k).1
  }

  /** Where walking back n entries from the line being typed leads. */
  lemma {:induction false} UpsFromCurrent(e: Editor, n: nat)
    requires e.at == |e.history|
    ensures var w := Repeat(e, Prev, n);
      && w.history == e.history && w.masked == e.masked
      && w.at == (if n <= |e.history| then |e.history| - n else 0)
      && (if w.at == |e.history| then w == e
          else w.draft == e.zip.Text() && w.zip == Zipper(e.history[w.at], ""))
  {
    if n > 0 {
      UpsFromCurrent(e, n - 1);
    }
  }

  lemma {:induction false} DownsFromThere(e: Editor, w: Editor, m: nat)
    requires w.history == e.history && w.at < |w.history| && w.draft == e.zip.Text()
    ensures var d := Repeat(w, Next, m);
      && d.history == e.history && d.masked == w.masked
      && d.at == (if w.at + m <= |e.history| then w.at + m else |e.history|)
      && d.draft == e.zip.Text()
      && (d.at == |e.history| ==> d.zip == Zipper(e.zip.Text(), ""))
  {
    if m > 0 {
      DownsFromThere(e, w, m - 1);
    }
  }

  /** From the line being typed, any number of ups and then at least as many downs gives
      back what was being typed. */
  lemma UpsThenDowns(e: Editor, ups: nat, downs: nat)
    requires e.at == |e.history| && downs >= ups
    ensures var d := Repeat(Repeat(e, Prev, ups), Next, downs);
      d.zip.Text() == e.zip.Text() && d.at == e.at && d.history == e.history && d.masked == e.masked
  {
    UpsFromCurrent(e, ups);
    var w := Repeat(e, Prev, ups);
    if w.at == |e.history| {
      StayAtEnd(e, downs);
    } else {
      DownsFromThere(e, w, downs);
      assert e.zip.Text() + "" == e.zip.Text();
    }
  }

  lemma {:induction false} StayAtEnd(e: Editor, n: nat)
    requires e.at == |e.history|
    ensures Repeat(e, Next, n) == e
  {
    if n > 0 {
      StayAtEnd(e, n - 1);
    }
  }
}
