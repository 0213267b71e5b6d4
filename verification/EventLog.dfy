/** The event history: internal/eventlog/eventlog.go.

    Events are appended as newline-ended records to a rotated log and read back from
    the end, through a window that doubles, then through older generations. */
module EventLog {
  import opened Common
  import opened Rotate
  import opened Retention

  const NL: Byte := 10
  const READ_WINDOW: nat := 16384

  /** A zero timestamp stands for "not set". */
  datatype Event = Event(timestamp: nat, kind: string, sensor: string, message: string)

  /** The JSON encoder and decoder, as functions. The encoder may refuse an event. */
  datatype Codec = Codec(marshal: Event -> Option<Bytes>, unmarshal: Bytes -> Option<Event>)

  /** What is assumed of JSON: a record has no raw newline in it and reads back as itself. */
  ghost predicate Faithful(c: Codec) {
    forall e :: c.marshal(e).Some? ==> IsRecord(c, e, c.marshal(e).value)
  }

  ghost predicate IsRecord(c: Codec, e: Event, b: Bytes) {
    b != [] && NL !in b && c.unmarshal(b) == Some(e)
  }

  // ---------------------------------------------------------------- lines

  function FirstNewline(d: Bytes): (i: nat)
    requires NL in d
    ensures i < |d| && d[i] == NL && NL !in d[..i]
  {
    if d[0] == NL then 0 else 1 + FirstNewline(d[1..])
  }

  /** The lines of a file; a final line need not be ended. */
  function Lines(d: Bytes): seq<Bytes>
    decreases |d|
  {
    if d == [] then []
    else if NL !in d then [d]
    else var i := FirstNewline(d); [d[..i]] + Lines(d[i + 1..])
  }

  /** Every line put back with a newline after it. */
  function Unlines(ls: seq<Bytes>): Bytes {
    if ls == [] then [] else ls[0] + [NL] + Unlines(ls[1..])
  }

  /** The file is empty or ends exactly where a record ends. */
  predicate AtBoundary(d: Bytes) {
    d == [] || d[|d| - 1] == NL
  }

  lemma LinesCons(head: Bytes, rest: Bytes)
    requires NL !in head
    ensures Lines(head + [NL] + rest) == [head] + Lines(rest)
  {
    var d, n := head + [NL] + rest, |head|;
    FirstNewlineAfter(head, rest);
    assert d[n] == NL && d[..n] == head && d[n + 1..] == rest;
  }

  lemma {:induction false} FirstNewlineAfter(head: Bytes, rest: Bytes)
    requires NL !in head
    ensures FirstNewline(head + [NL] + rest) == |head|
  {
    if head != [] {
      assert (head + [NL] + rest)[1..] == head[1..] + [NL] + rest;
      FirstNewlineAfter(head[1..], rest);
    }
  }

  /** The first line of a file and the rest of it. */
  lemma Cut(d: Bytes) returns (head: Bytes, rest: Bytes)
    requires NL in d
    ensures d == head + [NL] + rest && NL !in head
    ensures Lines(d) == [head] + Lines(rest)
    ensures AtBoundary(rest) == AtBoundary(d)
  {
    var i := FirstNewline(d);
    head, rest := d[..i], d[i + 1..];
  }

  lemma LastLine(d: Bytes)
    requires NL !in d
    ensures Lines(d) == if d == [] then [] else [d]
    ensures AtBoundary(d) <==> d == []
  {
  }

  lemma UnlinesCons(head: Bytes, ls: seq<Bytes>)
    ensures Unlines([head] + ls) == head + [NL] + Unlines(ls)
  {
    assert ([head] + ls)[1..] == ls;
  }

  /** Lines is the one way to cut a file at its newlines: no line holds one, and the
      lines put back together are the file. */
  lemma {:induction false} LinesRejoin(d: Bytes)
    ensures forall l :: l in Lines(d) ==> NL !in l
    ensures Unlines(Lines(d)) == if AtBoundary(d) then d else d + [NL]
    decreases |d|
  {
    if NL in d {
      var head, rest := Cut(d);
      LinesRejoin(rest);
      UnlinesCons(head, Lines(rest));
      Regroup(head + [NL], rest, [NL]);
    } else if d != [] {
      LastLine(d);
      UnlinesCons(d, []);
    }
  }

  lemma {:induction false} LinesConcat(a: Bytes, b: Bytes)
    requires AtBoundary(a)
    ensures Lines(a + b) == Lines(a) + Lines(b)
    decreases |a|
  {
    if a == [] {
      assert a + b == b;
    } else {
      assert a[|a| - 1] == NL;
      var head, rest := Cut(a);
      LinesConcat(rest, b);
      LinesCons(head, rest + b);
      Regroup(head + [NL], rest, b);
      Regroup([head], Lines(rest), Lines(b));
    }
  }

  function Tail<T>(s: seq<T>): seq<T> {
    if s == [] then [] else s[1..]
  }

  /** The lines read when starting at byte off: the first is dropped mid-file. */
  function TailLines(d: Bytes, off: nat): seq<Bytes>
    requires off <= |d|
  {
    if off > 0 then Tail(Lines(d[off..])) else Lines(d)
  }

  lemma {:induction false} DropFirstLine(skipped: Bytes, read: Bytes)
    requires skipped != []
    ensures IsSuffix(Tail(Lines(read)), Lines(skipped + read))
    decreases |skipped|
  {
    if NL in skipped {
      var head, rest := Cut(skipped);
      LinesCons(head, rest + read);
      Regroup(head + [NL], rest, read);
      SuffixTail([head], Lines(rest + read));
      if rest == [] {
        assert rest + read == read;
      } else {
        DropFirstLine(rest, read);
      }
      SuffixTrans(Tail(Lines(read)), Lines(rest + read), Lines(skipped + read));
    } else if NL in read {
      var head, rest := Cut(read);
      LinesCons(skipped + head, rest);
      Regroup(skipped, head, [NL]);
      Regroup(skipped, head + [NL], rest);
      assert Tail(Lines(read)) == Lines(rest);
    } else {
      LastLine(read);
    }
  }

  /** Wherever in a file reading starts, dropping the first line read leaves whole
      lines of the file, and exactly its last ones. */
  lemma TailLinesSuffix(d: Bytes, off: nat)
    requires off <= |d|
    ensures IsSuffix(TailLines(d, off), Lines(d))
  {
    if off > 0 {
      DropFirstLine(d[..off], d[off..]);
      SplitAt(d, off);
    } else {
      SuffixRefl(Lines(d));
    }
  }

  method SplitLines(data: Bytes) returns (lines: seq<Bytes>)
    ensures lines == Lines(data)
  {
    lines := [];
    var start := 0;
    for i := 0 to |data|
      invariant start <= i
      invariant NL !in data[start..i]
      invariant Lines(data) == lines + Lines(data[start..])
    {
      SplitAround(data, start, i);
      if data[i] == NL {
        LinesCons(data[start..i], data[i + 1..]);
        Regroup(lines, [data[start..i]], Lines(data[i + 1..]));
        lines := lines + [data[start..i]];
        start := i + 1;
      }
    }
    assert data[start..|data|] == data[start..];
    LastLine(data[start..]);
    if start < |data| {
      lines := lines + [data[start..]];
    }
  }

  // ---------------------------------------------------------------- events

  function DecodeLine(c: Codec, line: Bytes): seq<Event> {
    if line == [] then []
    else match c.unmarshal(line) case Some(e) => [e] case None => []
  }

  /** The events on some lines; blank and unreadable lines are skipped. */
  function Decode(c: Codec, lines: seq<Bytes>): seq<Event> {
    if lines == [] then [] else Decode(c, lines[..|lines| - 1]) + DecodeLine(c, lines[|lines| - 1])
  }

  function FileEvents(c: Codec, d: Bytes): seq<Event> {
    Decode(c, Lines(d))
  }

  lemma {:induction false} DecodeConcat(c: Codec, a: seq<Bytes>, b: seq<Bytes>)
    ensures Decode(c, a + b) == Decode(c, a) + Decode(c, b)
  {
    if b == [] {
      assert a + b == a;
    } else {
      assert (a + b)[..|a + b| - 1] == a + b[..|b| - 1];
      DecodeConcat(c, a, b[..|b| - 1]);
    }
  }

  lemma DecodeOne(c: Codec, lines: seq<Bytes>, line: Bytes)
    ensures Decode(c, lines + [line]) == Decode(c, lines) + DecodeLine(c, line)
  {
    assert (lines + [line])[..|lines|] == lines;
  }

  /** A read from the middle of a file finds a suffix of the file's events. */
  lemma TailEventsSuffix(c: Codec, d: Bytes, off: nat)
    requires off <= |d|
    ensures IsSuffix(Decode(c, TailLines(d, off)), FileEvents(c, d))
    ensures off == 0 ==> Decode(c, TailLines(d, off)) == FileEvents(c, d)
  {
    TailLinesSuffix(d, off);
    var all, tail := Lines(d), TailLines(d, off);
    assert all == all[..|all| - |tail|] + tail;
    DecodeConcat(c, all[..|all| - |tail|], tail);
  }

  method DecodeLines(c: Codec, lines: seq<Bytes>) returns (events: seq<Event>)
    ensures events == Decode(c, lines)
  {
    events := [];
    for i := 0 to |lines|
      invariant events == Decode(c, lines[..i])
    {
      DecodeOne(c, lines[..i], lines[i]);
      assert lines[..i + 1] == lines[..i] + [lines[i]];
      if |lines[i]| == 0 {
        continue;
      }
      match c.unmarshal(lines[i])
      case None => continue;
      case Some(e) => events := events + [e];
    }
    assert lines[..|lines|] == lines;
  }

  method ParseTail(c: Codec, d: Bytes, window: nat) returns (events: seq<Event>)
    ensures IsSuffix(events, FileEvents(c, d))
    ensures window >= |d| ==> events == FileEvents(c, d)
    ensures events == Decode(c, TailLines(d, if window <= |d| then |d| - window else 0))
  {
    var offset := |d| - window;
    if offset < 0 {
      offset := 0;
    }
    var lines := SplitLines(d[offset..]);
    assert offset == 0 ==> d[offset..] == d;
    if offset > 0 && |lines| > 0 {
      lines := lines[1..];
    }
    events := DecodeLines(c, lines);
    TailEventsSuffix(c, d, offset);
  }

  /** The end of a suffix that is long enough, or whole, is the end of the whole. */
  lemma EnoughRead<T>(part: seq<T>, all: seq<T>, n: nat)
    requires IsSuffix(part, all) && (|part| >= n || part == all)
    ensures (if |part| > n then part[|part| - n..] else part) == LastN(all, n)
  {
    LastNOfSuffix(part, all, n);
  }

  /** Whatever bytes the file holds, the windowed read is the last n of reading it all. */
  method TailEvents(c: Codec, d: Bytes, n: nat) returns (events: seq<Event>)
    ensures events == LastN(FileEvents(c, d), n)
  {
    var window := READ_WINDOW;
    while true
      invariant window > 0
      decreases |d| - window
    {
      if window > |d| {
        window := |d|;
      }
      events := ParseTail(c, d, window);
      if |events| >= n || window >= |d| {
        EnoughRead(events, FileEvents(c, d), n);
        if |events| > n {
          return events[|events| - n..];
        }
        return events;
      }
      window := window * 2;
    }
  }

  // ---------------------------------------------------------------- across generations

  function EventDir(c: Codec, d: Disk): Dir<Event> {
    map k | k in d :: FileEvents(c, d[k])
  }

  /** Every event in generations m to 0, oldest first. */
  function AllEvents(c: Codec, d: Disk, m: nat): seq<Event> {
    Retained(EventDir(c, d), m)
  }

  lemma EventFile(c: Codec, d: Disk, k: nat)
    ensures File(EventDir(c, d), k) == FileEvents(c, File(d, k))
  {
  }

  /** Generations that are not there hold nothing. */
  lemma {:induction false} SkipMissing<T>(d: Dir<T>, lo: nat, hi: nat)
    requires lo <= hi && forall k: nat :: lo < k <= hi ==> k !in d
    ensures Retained(d, hi) == Retained(d, lo)
  {
    if lo < hi {
      SkipMissing(d, lo, hi - 1);
      assert hi !in d;
    }
  }

  lemma LastNOlder<T>(older: seq<T>, s: seq<T>, n: nat)
    requires |LastN(s, n)| < n
    ensures LastN(s, n) == s
    ensures LastN(older, n - |s|) + s == LastN(older + s, n)
  {
  }

  function Reached(gens: seq<nat>, i: nat): nat
    requires i <= |gens|
  {
    if i == 0 then 0 else gens[i - 1]
  }

  lemma NothingBetween(d: Disk, gens: seq<nat>, i: nat, m: nat, k: nat)
    requires i <= |gens| && Lists(gens, d, m)
    requires Reached(gens, i) < k < (if i < |gens| then gens[i] else m + 1)
    requires k <= m
    ensures k !in d
  {
    forall j | 0 <= j < |gens|
      ensures gens[j] != k
    {
    }
  }

  /** Nothing lies between the generation reached and the next one found, or the limit. */
  lemma NextFound(d: Disk, gens: seq<nat>, i: nat, m: nat)
    requires i <= |gens| && Lists(gens, d, m)
    ensures Reached(gens, i) <= m
    ensures i < |gens| ==> Reached(gens, i) < gens[i] <= m && gens[i] in d
    ensures forall k: nat :: Reached(gens, i) < k <= (if i < |gens| then gens[i] - 1 else m) ==> k !in d
  {
    if i < |gens| {
      assert gens[i] in gens;
    }
    if i > 0 {
      assert gens[i - 1] in gens;
    }
    forall k: nat | Reached(gens, i) < k <= (if i < |gens| then gens[i] - 1 else m)
      ensures k !in d
    {
      NothingBetween(d, gens, i, m, k);
    }
  }

  /** The next older generation's events go in front of what has been read. */
  lemma OlderStep(c: Codec, d: Disk, lo: nat, g: nat, n: nat, events: seq<Event>)
    requires lo < g && g in d && forall k: nat :: lo < k <= g - 1 ==> k !in d
    requires events == LastN(AllEvents(c, d, lo), n) && |events| < n
    ensures LastN(FileEvents(c, d[g]), n - |events|) + events == LastN(AllEvents(c, d, g), n)
  {
    OlderInFront(c, d, lo, g);
    LastNOlder(FileEvents(c, d[g]), AllEvents(c, d, lo), n);
  }

  lemma OlderInFront(c: Codec, d: Disk, lo: nat, g: nat)
    requires lo < g && g in d && forall k: nat :: lo < k <= g - 1 ==> k !in d
    ensures AllEvents(c, d, g) == FileEvents(c, d[g]) + AllEvents(c, d, lo)
  {
    var dir := EventDir(c, d);
    SkipMissing(dir, lo, g - 1);
    EventFile(c, d, g);
    RetainedStep(dir, g);
  }

  lemma RetainedStep<T>(d: Dir<T>, g: nat)
    requires g > 0
    ensures Retained(d, g) == File(d, g) + Retained(d, g - 1)
  {
  }

  /** Enough has been read, or there is nothing older. */
  lemma WalkDone(c: Codec, d: Disk, lo: nat, m: nat, n: nat, events: seq<Event>)
    requires lo <= m && (|events| >= n || forall k: nat :: lo < k <= m ==> k !in d)
    requires events == LastN(AllEvents(c, d, lo), n)
    ensures events == LastN(AllEvents(c, d, m), n)
  {
    if |events| >= n {
      RetainedSuffix(EventDir(c, d), lo, m);
      LastNOfSuffix(AllEvents(c, d, lo), AllEvents(c, d, m), n);
    } else {
      SkipMissing(EventDir(c, d), lo, m);
    }
  }

  /** What has been read with the first i older generations walked. */
  ghost predicate ReadSoFar(c: Codec, d: Disk, gens: seq<nat>, i: nat, n: nat, events: seq<Event>) {
    i <= |gens| && events == LastN(AllEvents(c, d, Reached(gens, i)), n)
  }

  lemma ReadStart(c: Codec, d: Disk, gens: seq<nat>, n: nat, events: seq<Event>)
    requires 0 in d && events == LastN(FileEvents(c, d[0]), n)
    ensures ReadSoFar(c, d, gens, 0, n, events)
  {
    EventFile(c, d, 0);
  }

  lemma ReadOlder(c: Codec, d: Disk, gens: seq<nat>, i: nat, m: nat, n: nat, events: seq<Event>)
    requires Lists(gens, d, m) && ReadSoFar(c, d, gens, i, n, events) && i < |gens| && |events| < n
    ensures gens[i] in d
    ensures ReadSoFar(c, d, gens, i + 1, n, LastN(FileEvents(c, d[gens[i]]), n - |events|) + events)
  {
    NextFound(d, gens, i, m);
    OlderStep(c, d, Reached(gens, i), gens[i], n, events);
  }

  lemma ReadEnough(c: Codec, d: Disk, gens: seq<nat>, i: nat, m: nat, n: nat, events: seq<Event>)
    requires Lists(gens, d, m) && ReadSoFar(c, d, gens, i, n, events) && (i == |gens| || |events| >= n)
    ensures events == LastN(AllEvents(c, d, m), n)
  {
    NextFound(d, gens, i, m);
    WalkDone(c, d, Reached(gens, i), m, n, events);
  }

  /** The walk, i generations in. */
  ghost predicate Walking(c: Codec, d: Disk, gens: seq<nat>, i: nat, m: nat, n: nat, events: seq<Event>) {
    Lists(gens, d, m) && ReadSoFar(c, d, gens, i, n, events)
  }

  method WithOlder(c: Codec, d: Disk, gens: seq<nat>, i: nat, n: nat, events: seq<Event>, ghost m: nat)
    returns (more: seq<Event>)
    requires Walking(c, d, gens, i, m, n, events) && i < |gens| && |events| < n
    ensures Walking(c, d, gens, i + 1, m, n, more)
  {
    ReadOlder(c, d, gens, i, m, n, events);
    var older := TailEvents(c, d[gens[i]], n - |events|);
    more := older + events;
  }

  lemma WalkedEnough(c: Codec, d: Disk, gens: seq<nat>, i: nat, m: nat, n: nat, events: seq<Event>)
    requires Walking(c, d, gens, i, m, n, events) && (i >= |gens| || |events| >= n)
    ensures events == LastN(AllEvents(c, d, m), n)
  {
    ReadEnough(c, d, gens, i, m, n, events);
  }

  /** Generation after older generation goes in front, until there are enough. */
  method WalkBack(c: Codec, d: Disk, gens: seq<nat>, n: nat, newest: seq<Event>, ghost m: nat)
    returns (events: seq<Event>)
    requires Walking(c, d, gens, 0, m, n, newest)
    ensures events == LastN(AllEvents(c, d, m), n)
  {
    events := newest;
    for i := 0 to |gens|
      invariant Walking(c, d, gens, i, m, n, events)
    {
      if |events| >= n {
        WalkedEnough(c, d, gens, i, m, n, events);
        return;
      }
      events := WithOlder(c, d, gens, i, n, events, m);
    }
    // The final trim to n never has anything to cut: events is already at most n long.
    WalkedEnough(c, d, gens, |gens|, m, n, events);
  }

  method ReadLast(c: Codec, d: Disk, wanted: int, maxFiles: int) returns (r: Result<seq<Event>, string>)
    ensures r.Err? <==> 0 !in d
    ensures r.Ok? ==>
      var n, m := if wanted <= 0 then 1 else wanted, if maxFiles > 0 then maxFiles else DEFAULT_MAX_FILES;
      r.value == LastN(AllEvents(c, d, m), n)
  {
    var n := if wanted <= 0 then 1 else wanted;
    if 0 !in d {
      return Err("open");
    }
    var newest := TailEvents(c, d[0], n);
    var gens := Generations(d, maxFiles);
    ReadStart(c, d, gens, n, newest);
    ghost var m := if maxFiles > 0 then maxFiles else DEFAULT_MAX_FILES;
    var events := WalkBack(c, d, gens, n, newest, m);
    r := Ok(events);
  }

  // ---------------------------------------------------------------- logging

  datatype Call = Log(event: Event, now: nat) | Rotate

  function Stamped(e: Event, now: nat): Event {
    if e.timestamp == 0 then e.(timestamp := now) else e
  }

  /** The writes one call makes, and the events it records. */
  function OpsOf(c: Codec, call: Call): seq<Op> {
    match call
    case Rotate => [Force]
    case Log(e, now) =>
      match c.marshal(Stamped(e, now)) case None => [] case Some(b) => [Append(b + [NL])]
  }

  function EventsOf(c: Codec, call: Call): seq<Event> {
    match call
    case Rotate => []
    case Log(e, now) => if c.marshal(Stamped(e, now)).Some? then [Stamped(e, now)] else []
  }

  function CallOps(c: Codec, calls: seq<Call>): seq<Op> {
    if calls == [] then [] else CallOps(c, calls[..|calls| - 1]) + OpsOf(c, calls[|calls| - 1])
  }

  function Logged(c: Codec, calls: seq<Call>): seq<Event> {
    if calls == [] then [] else Logged(c, calls[..|calls| - 1]) + EventsOf(c, calls[|calls| - 1])
  }

  class Logger {
    const writer: Writer
    const maxFiles: int
    const codec: Codec

    /** Zero means the default; a negative count is passed on as it is. */
    constructor (c: Codec, d: Disk, o: Options)
      ensures codec == c && fresh(writer) && writer.Valid() && writer.isOpen
      ensures writer.opts == o.WithDefaults() && writer.disk == d[0 := File(d, 0)]
      ensures maxFiles == if o.maxFiles == 0 then DEFAULT_MAX_FILES else o.maxFiles
    {
      codec := c;
      writer := new Writer(d, o);
      maxFiles := if o.maxFiles == 0 then DEFAULT_MAX_FILES else o.maxFiles;
    }

    method Log(event: Event, now: nat)
      requires writer.Valid()
      modifies writer
      ensures writer.Valid() && writer.isOpen == old(writer.isOpen)
      ensures !writer.isOpen ==> writer.disk == old(writer.disk)
      ensures writer.isOpen ==>
        writer.disk == Run(writer.opts, old(writer.disk), OpsOf(codec, Call.Log(event, now)))
    {
      var stamped := if event.timestamp == 0 then event.(timestamp := now) else event;
      var data := codec.marshal(stamped);
      if data.None? {
        return;
      }
      var ok := writer.Write(data.value + [NL]);
      assert [Append(data.value + [NL])][..0] == [];
    }
  }

  /** A line written after whole records adds what it decodes to, and nothing else. */
  lemma AppendLine(c: Codec, whole: Bytes, line: Bytes)
    requires AtBoundary(whole) && NL !in line
    ensures FileEvents(c, whole + (line + [NL])) == FileEvents(c, whole) + DecodeLine(c, line)
    ensures FileEvents(c, whole + line) == FileEvents(c, whole) + DecodeLine(c, line)
  {
    LinesOfLine(line);
    LinesConcat(whole, line + [NL]);
    LinesConcat(whole, line);
    DecodeOne(c, Lines(whole), line);
    if line == [] {
      assert Lines(whole) + [] == Lines(whole);
    }
  }

  lemma LinesOfLine(line: Bytes)
    requires NL !in line
    ensures Lines(line + [NL]) == [line] && Lines(line) == if line == [] then [] else [line]
  {
    LinesCons(line, []);
    assert line + [NL] + [] == line + [NL];
    LastLine(line);
  }

  /** After a torn write the next record merges with the fragment, and what is read
      in place of both is whatever the two decode to together. */
  lemma TornTailMerges(c: Codec, whole: Bytes, fragment: Bytes, b: Bytes)
    requires AtBoundary(whole) && NL !in fragment && NL !in b
    ensures FileEvents(c, whole + fragment) == FileEvents(c, whole) + DecodeLine(c, fragment)
    ensures FileEvents(c, whole + fragment + (b + [NL])) == FileEvents(c, whole) + DecodeLine(c, fragment + b)
  {
    AppendLine(c, whole, fragment);
    AppendLine(c, whole, fragment + b);
    Regroup(whole, fragment, b + [NL]);
    Regroup(fragment, b, [NL]);
  }

  lemma EventsShifted(c: Codec, d: Disk, kept: nat)
    ensures EventDir(c, Shifted(d, kept)) == Shifted(EventDir(c, d), kept)
  {
    var a, b := EventDir(c, Shifted(d, kept)), Shifted(EventDir(c, d), kept);
    forall k: nat
      ensures k in a <==> k in b
      ensures File(a, k) == File(b, k)
    {
      assert ShiftedHas(d, kept, k) <==> ShiftedHas(EventDir(c, d), kept, k);
      EventFile(c, Shifted(d, kept), k);
      EventFile(c, d, k);
      if k > 0 {
        EventFile(c, d, k - 1);
      }
    }
    SameFiles(a, b);
  }

  lemma EventsAppended(c: Codec, d: Disk, e: Event, b: Bytes)
    requires AtBoundary(File(d, 0)) && IsRecord(c, e, b)
    ensures EventDir(c, Appended(d, b + [NL])) == Appended(EventDir(c, d), [e])
  {
    AppendLine(c, File(d, 0), b);
    var x, y := EventDir(c, Appended(d, b + [NL])), Appended(EventDir(c, d), [e]);
    forall k: nat
      ensures k in x <==> k in y
      ensures File(x, k) == File(y, k)
    {
      EventFile(c, d, k);
      EventFile(c, Appended(d, b + [NL]), k);
    }
    SameFiles(x, y);
  }

  lemma BoundaryAppended(d: Bytes, b: Bytes)
    ensures AtBoundary(d + (b + [NL]))
  {
  }

  /** One call keeps the live file ending on a record and what is read a suffix of the history. */
  lemma CallSuffix(c: Codec, o: Options, d: Disk, call: Call, m: nat, history: seq<Event>)
    requires Faithful(c) && o.Normal() && AtBoundary(File(d, 0)) && m <= o.maxFiles
    requires IsSuffix(AllEvents(c, d, m), history)
    ensures AtBoundary(File(Run(o, d, OpsOf(c, call)), 0))
    ensures IsSuffix(AllEvents(c, Run(o, d, OpsOf(c, call)), m), history + EventsOf(c, call))
  {
    var x := EventsOf(c, call);
    RunOne(o, d, OpsOf(c, call));
    if x != [] {
      assert IsRecord(c, x[0], c.marshal(x[0]).value);
      RecordSuffix(c, o, d, x[0], c.marshal(x[0]).value, m, history);
      assert x == [x[0]];
    } else {
      assert history + x == history;
      if call.Rotate? {
        RotatedSuffix(c, o, d, m, history);
      }
    }
  }

  lemma RotatedSuffix(c: Codec, o: Options, d: Disk, m: nat, history: seq<Event>)
    requires o.Normal() && m <= o.maxFiles && IsSuffix(AllEvents(c, d, m), history)
    ensures AtBoundary(File(Shifted(d, o.maxFiles), 0))
    ensures IsSuffix(AllEvents(c, Shifted(d, o.maxFiles), m), history)
  {
    assert File(Shifted(d, o.maxFiles), 0) == [];
    EventsShifted(c, d, o.maxFiles);
    StepSuffix(EventDir(c, d), o.maxFiles, m, [], history);
  }

  lemma RecordSuffix(c: Codec, o: Options, d: Disk, e: Event, b: Bytes, m: nat, history: seq<Event>)
    requires o.Normal() && AtBoundary(File(d, 0)) && m <= o.maxFiles && IsRecord(c, e, b)
    requires IsSuffix(AllEvents(c, d, m), history)
    ensures AtBoundary(File(Step(o, d, Append(b + [NL])), 0))
    ensures IsSuffix(AllEvents(c, Step(o, d, Append(b + [NL])), m), history + [e])
  {
    var s := Shifted(d, o.maxFiles);
    assert File(s, 0) == [];
    EventsShifted(c, d, o.maxFiles);
    StepSuffix(EventDir(c, d), o.maxFiles, m, [e], history);
    RecordAppended(c, d, e, b);
    RecordAppended(c, s, e, b);
  }

  lemma RecordAppended(c: Codec, d: Disk, e: Event, b: Bytes)
    requires AtBoundary(File(d, 0)) && IsRecord(c, e, b)
    ensures EventDir(c, Appended(d, b + [NL])) == Appended(EventDir(c, d), [e])
    ensures AtBoundary(File(Appended(d, b + [NL]), 0))
  {
    EventsAppended(c, d, e, b);
    BoundaryAppended(File(d, 0), b);
  }

  lemma RunOne(o: Options, d: Disk, ops: seq<Op>)
    requires o.Normal() && |ops| <= 1
    ensures Run(o, d, ops) == if ops == [] then d else Step(o, d, ops[0])
  {
    if ops != [] {
      assert ops[..0] == [];
      assert Run(o, d, ops[..0]) == d;
    }
  }

  lemma RunMore(o: Options, d: Disk, a: seq<Op>, b: seq<Op>)
    requires o.Normal() && |b| <= 1
    ensures Run(o, d, a + b) == Run(o, Run(o, d, a), b)
  {
    RunOne(o, Run(o, d, a), b);
    if b == [] {
      assert a + b == a;
    } else {
      assert (a + b)[..|a|] == a;
    }
  }

  /** What a reader of m generations sees after some calls is a suffix of the history. */
  ghost predicate SuffixAfter(c: Codec, o: Options, d: Disk, calls: seq<Call>, m: nat)
    requires o.Normal()
  {
    IsSuffix(AllEvents(c, Run(o, d, CallOps(c, calls)), m), AllEvents(c, d, m) + Logged(c, calls))
  }

  lemma HistoryStep(c: Codec, o: Options, d: Disk, earlier: seq<Call>, call: Call, m: nat)
    requires Faithful(c) && o.Normal() && m <= o.maxFiles
    requires AtBoundary(File(Run(o, d, CallOps(c, earlier)), 0)) && SuffixAfter(c, o, d, earlier, m)
    ensures AtBoundary(File(Run(o, d, CallOps(c, earlier) + OpsOf(c, call)), 0))
    ensures IsSuffix(AllEvents(c, Run(o, d, CallOps(c, earlier) + OpsOf(c, call)), m),
                     AllEvents(c, d, m) + (Logged(c, earlier) + EventsOf(c, call)))
  {
    var was := AllEvents(c, d, m);
    CallSuffix(c, o, Run(o, d, CallOps(c, earlier)), call, m, was + Logged(c, earlier));
    RunMore(o, d, CallOps(c, earlier), OpsOf(c, call));
    Regroup(was, Logged(c, earlier), EventsOf(c, call));
  }

  lemma {:induction false} HistorySuffix(c: Codec, o: Options, d: Disk, calls: seq<Call>, m: nat)
    requires Faithful(c) && o.Normal() && AtBoundary(File(d, 0)) && m <= o.maxFiles
    ensures AtBoundary(File(Run(o, d, CallOps(c, calls)), 0)) && SuffixAfter(c, o, d, calls, m)
  {
    if calls == [] {
      assert AllEvents(c, d, m) + [] == AllEvents(c, d, m);
    } else {
      HistorySuffix(c, o, d, calls[..|calls| - 1], m);
      HistoryStep(c, o, d, calls[..|calls| - 1], calls[|calls| - 1], m);
    }
  }

  /** Reading back after any run of calls, under any policy that keeps a generation:
      what is still on disk is a suffix of everything there was and everything logged
      since, and asking for the last n gives the last n of that history, as far back as
      the disk goes. A reader given the same file count looks at just the generations kept. */
  lemma ReadBack(c: Codec, asked: Options, d: Disk, calls: seq<Call>, n: nat)
    requires Faithful(c) && AtBoundary(File(d, 0)) && asked.maxFiles >= 0
    ensures var m := asked.WithDefaults().maxFiles;
      var onDisk := AllEvents(c, Run(asked.WithDefaults(), d, CallOps(c, calls)), m);
      var history := AllEvents(c, d, m) + Logged(c, calls);
      && m == (if asked.maxFiles > 0 then asked.maxFiles else DEFAULT_MAX_FILES)
      && IsSuffix(onDisk, history)
      && LastN(onDisk, n) == LastN(history, if |onDisk| < n then |onDisk| else n)
  {
    var o := asked.WithDefaults();
    HistorySuffix(c, o, d, calls, o.maxFiles);
    LastNOfSuffix(AllEvents(c, Run(o, d, CallOps(c, calls)), o.maxFiles),
                  AllEvents(c, d, o.maxFiles) + Logged(c, calls), n);
  }

  /** A reader that asks for enough gets every event of every generation it looks at, older
      generations first. */
  lemma NothingOnDiskMissed(c: Codec, d: Disk, m: nat, n: nat, k: nat) returns (older: seq<Event>)
    requires n >= |AllEvents(c, d, m)| && k <= m
    ensures LastN(AllEvents(c, d, m), n)
            == older + FileEvents(c, File(d, k)) + if k == 0 then [] else AllEvents(c, d, k - 1)
  {
    EventFile(c, d, k);
    older := EveryGeneration(EventDir(c, d), k, m);
  }

  // ---------------------------------------------------------------- how long an event is kept

  lemma KeptAfterMore(o: Options, d: Disk, a: seq<Op>, b: seq<Op>)
    requires o.Normal() && |b| <= 1
    ensures KeptAfter(o, d, a + b) == if b == [] then KeptAfter(o, d, a) else NextKept(o, KeptAfter(o, d, a), b[0])
  {
    if b == [] {
      assert a + b == a;
    } else {
      assert (a + b)[..|a|] == a;
    }
  }

  /** While the file that was live at the start is within r generations, what they hold is its
      events and those logged since. */
  ghost predicate EventsFollow(c: Codec, o: Options, k: Kept, events: seq<Event>)
    requires o.Normal()
  {
    k.rotated <= o.maxFiles ==> AllEvents(c, k.disk, k.rotated) == events
  }

  lemma OneMoreEvent(c: Codec, d: Disk, e: Event, b: Bytes, m: nat)
    requires IsRecord(c, e, b) && AtBoundary(File(d, 0))
    ensures AllEvents(c, Appended(d, b + [NL]), m) == AllEvents(c, d, m) + [e]
  {
    EventsAppended(c, d, e, b);
    RetainedAppended(EventDir(c, d), [e], m);
  }

  lemma OneMoreRotated(c: Codec, o: Options, d: Disk, e: Event, b: Bytes, m: nat)
    requires o.Normal() && IsRecord(c, e, b) && m < o.maxFiles && Rotates(o, d, Append(b + [NL]))
    ensures AllEvents(c, Step(o, d, Append(b + [NL])), m + 1) == AllEvents(c, d, m) + [e]
  {
    var s := Shifted(d, o.maxFiles);
    assert File(s, 0) == [];
    OneMoreEvent(c, s, e, b, m + 1);
    OneRotation(c, d, o.maxFiles, m + 1);
  }

  lemma EventFollows(c: Codec, o: Options, k: Kept, e: Event, b: Bytes, events: seq<Event>)
    requires o.Normal() && IsRecord(c, e, b) && AtBoundary(File(k.disk, 0)) && EventsFollow(c, o, k, events)
    ensures EventsFollow(c, o, NextKept(o, k, Append(b + [NL])), events + [e])
  {
    if Rotates(o, k.disk, Append(b + [NL])) {
      EventRotates(c, o, k, e, b, events);
    } else {
      EventFits(c, o, k, e, b, events);
    }
  }

  lemma EventFits(c: Codec, o: Options, k: Kept, e: Event, b: Bytes, events: seq<Event>)
    requires o.Normal() && IsRecord(c, e, b) && AtBoundary(File(k.disk, 0)) && EventsFollow(c, o, k, events)
    requires !Rotates(o, k.disk, Append(b + [NL]))
    ensures EventsFollow(c, o, NextKept(o, k, Append(b + [NL])), events + [e])
  {
    OneMoreEvent(c, k.disk, e, b, k.rotated);
  }

  lemma EventRotates(c: Codec, o: Options, k: Kept, e: Event, b: Bytes, events: seq<Event>)
    requires o.Normal() && IsRecord(c, e, b) && EventsFollow(c, o, k, events)
    requires Rotates(o, k.disk, Append(b + [NL]))
    ensures EventsFollow(c, o, NextKept(o, k, Append(b + [NL])), events + [e])
  {
    if k.rotated < o.maxFiles {
      OneMoreRotated(c, o, k.disk, e, b, k.rotated);
    }
  }

  lemma CallFollows(c: Codec, o: Options, k: Kept, call: Call, events: seq<Event>)
    requires Faithful(c) && o.Normal() && AtBoundary(File(k.disk, 0)) && EventsFollow(c, o, k, events)
    ensures var ops := OpsOf(c, call);
      EventsFollow(c, o, if ops == [] then k else NextKept(o, k, ops[0]), events + EventsOf(c, call))
  {
    if call.Rotate? {
      assert events + [] == events;
      if k.rotated < o.maxFiles {
        OneRotation(c, k.disk, o.maxFiles, k.rotated + 1);
      }
    } else if c.marshal(Stamped(call.event, call.now)).None? {
      assert events + [] == events;
    } else {
      var e := Stamped(call.event, call.now);
      assert IsRecord(c, e, c.marshal(e).value);
      EventFollows(c, o, k, e, c.marshal(e).value, events);
    }
  }

  lemma {:induction false} RunEventsFollow(c: Codec, o: Options, d: Disk, calls: seq<Call>)
    requires Faithful(c) && o.Normal() && AtBoundary(File(d, 0))
    ensures EventsFollow(c, o, KeptAfter(o, d, CallOps(c, calls)), FileEvents(c, File(d, 0)) + Logged(c, calls))
  {
    var was := FileEvents(c, File(d, 0));
    if calls == [] {
      EventFile(c, d, 0);
      assert was + [] == was;
    } else {
      var earlier, call := calls[..|calls| - 1], calls[|calls| - 1];
      RunEventsFollow(c, o, d, earlier);
      EventsFollowOn(c, o, d, earlier, call, was);
    }
  }

  lemma EventsFollowOn(c: Codec, o: Options, d: Disk, earlier: seq<Call>, call: Call, was: seq<Event>)
    requires Faithful(c) && o.Normal() && AtBoundary(File(d, 0))
    requires EventsFollow(c, o, KeptAfter(o, d, CallOps(c, earlier)), was + Logged(c, earlier))
    ensures EventsFollow(c, o, KeptAfter(o, d, CallOps(c, earlier) + OpsOf(c, call)),
                         was + (Logged(c, earlier) + EventsOf(c, call)))
  {
    HistorySuffix(c, o, d, earlier, 0);
    KeptAfterRun(o, d, CallOps(c, earlier));
    CallFollows(c, o, KeptAfter(o, d, CallOps(c, earlier)), call, was + Logged(c, earlier));
    KeptAfterMore(o, d, CallOps(c, earlier), OpsOf(c, call));
    Regroup(was, Logged(c, earlier), EventsOf(c, call));
  }

  /** No event is lost before the log has been written round: while fewer bytes than the kept
      generations must hold have been logged, a reader that asks for the last n, at most as many
      as were logged, gets just the last n logged. */
  lemma RecentEventsRead(c: Codec, o: Options, d: Disk, calls: seq<Call>, longest: nat, n: nat)
    requires Faithful(c) && o.Normal() && AtBoundary(File(d, 0))
    requires AppendsOnly(CallOps(c, calls)) && WritesWithin(CallOps(c, calls), longest)
    requires |Written(CallOps(c, calls))| < o.maxFiles * (o.maxBytes - longest + 1)
    requires n <= |Logged(c, calls)|
    ensures LastN(AllEvents(c, Run(o, d, CallOps(c, calls)), o.maxFiles), n) == LastN(Logged(c, calls), n)
  {
    var ops := CallOps(c, calls);
    var r, after := KeptAfter(o, d, ops).rotated, AllEvents(c, Run(o, d, ops), o.maxFiles);
    FewRotations(o, d, ops, longest);
    KeptAfterRun(o, d, ops);
    RunEventsFollow(c, o, d, calls);
    RetainedSuffix(EventDir(c, Run(o, d, ops)), r, o.maxFiles);
    var kept := FileEvents(c, File(d, 0)) + Logged(c, calls);
    SuffixTail(FileEvents(c, File(d, 0)), Logged(c, calls));
    SuffixTrans(Logged(c, calls), kept, after);
    LastNOfSuffix(Logged(c, calls), after, n);
  }

  // ---------------------------------------------------------------- keeping no generation

  /** What lies in generations lo + 1 to hi, oldest first. */
  function Above<T>(d: Dir<T>, lo: nat, hi: nat): seq<T> {
    if hi <= lo then [] else File(d, hi) + Above(d, lo, hi - 1)
  }

  lemma {:induction false} RetainedAbove<T>(d: Dir<T>, lo: nat, hi: nat)
    requires lo <= hi
    ensures Retained(d, hi) == Above(d, lo, hi) + Retained(d, lo)
  {
    if lo < hi {
      RetainedAbove(d, lo, hi - 1);
      Regroup(File(d, hi), Above(d, lo, hi - 1), Retained(d, lo));
    }
  }

  lemma {:induction false} AboveSame<T>(a: Dir<T>, b: Dir<T>, lo: nat, hi: nat)
    requires forall k: nat :: k > lo ==> File(a, k) == File(b, k)
    ensures Above(a, lo, hi) == Above(b, lo, hi)
  {
    if hi > lo {
      AboveSame(a, b, lo, hi - 1);
    }
  }

  /** Generations older than the kept ones are never touched. */
  lemma {:induction false} RunLeavesOlder(o: Options, d: Disk, ops: seq<Op>, k: nat)
    requires o.Normal() && k > o.maxFiles
    ensures File(Run(o, d, ops), k) == File(d, k)
  {
    if ops != [] {
      RunLeavesOlder(o, d, ops[..|ops| - 1], k);
      var before := Run(o, d, ops[..|ops| - 1]);
      assert File(Shifted(before, o.maxFiles), k) == ShiftedFile(before, o.maxFiles, k);
    }
  }

  lemma StaleEventsStay(c: Codec, o: Options, d: Disk, ops: seq<Op>, m: nat)
    requires o.Normal() && m >= o.maxFiles
    ensures AllEvents(c, Run(o, d, ops), m)
            == Above(EventDir(c, d), o.maxFiles, m) + AllEvents(c, Run(o, d, ops), o.maxFiles)
  {
    var after := Run(o, d, ops);
    forall k: nat | k > o.maxFiles
      ensures File(EventDir(c, after), k) == File(EventDir(c, d), k)
    {
      RunLeavesOlder(o, d, ops, k);
      EventFile(c, d, k);
      EventFile(c, after, k);
    }
    AboveSame(EventDir(c, after), EventDir(c, d), o.maxFiles, m);
    RetainedAbove(EventDir(c, after), o.maxFiles, m);
  }

  /** A reader that looks further back than the writer keeps, as any reader of two generations
      does under a policy that keeps one or none: reading back is then right after every run
      exactly when the generations beyond hold no event from an earlier policy. */
  lemma StaleGenerationsDecide(c: Codec, o: Options, d: Disk, other: Event, m: nat)
    requires Faithful(c) && o.Normal() && AtBoundary(File(d, 0)) && m > o.maxFiles
    requires other.timestamp != 0 && c.marshal(other).Some?
    requires var stale := Above(EventDir(c, d), o.maxFiles, m); stale != [] ==> stale[|stale| - 1] != other
    ensures (forall calls :: SuffixAfter(c, o, d, calls, m)) <==> Above(EventDir(c, d), o.maxFiles, m) == []
  {
    if Above(EventDir(c, d), o.maxFiles, m) == [] {
      forall calls
        ensures SuffixAfter(c, o, d, calls, m)
      {
        NothingStale(c, o, d, calls, m);
      }
    } else {
      var calls := StaleEventsWin(c, o, d, other, m);
    }
  }

  lemma NothingStale(c: Codec, o: Options, d: Disk, calls: seq<Call>, m: nat)
    requires Faithful(c) && o.Normal() && m >= o.maxFiles && AtBoundary(File(d, 0))
    requires Above(EventDir(c, d), o.maxFiles, m) == []
    ensures SuffixAfter(c, o, d, calls, m)
  {
    HistorySuffix(c, o, d, calls, o.maxFiles);
    StaleEventsStay(c, o, d, CallOps(c, calls), m);
    RetainedAbove(EventDir(c, d), o.maxFiles, m);
    var was, now := AllEvents(c, d, o.maxFiles), AllEvents(c, Run(o, d, CallOps(c, calls)), o.maxFiles);
    assert [] + was == was && [] + now == now;
  }

  lemma SuffixLast<T>(a: seq<T>, b: seq<T>, x: T)
    requires IsSuffix(a, b + [x]) && a != []
    ensures a[|a| - 1] == x
  {
  }

  lemma LoggedMore(c: Codec, earlier: seq<Call>, call: Call)
    ensures Logged(c, earlier + [call]) == Logged(c, earlier) + EventsOf(c, call)
    ensures CallOps(c, earlier + [call]) == CallOps(c, earlier) + OpsOf(c, call)
  {
    assert (earlier + [call])[..|earlier|] == earlier;
  }

  lemma RotatedLast(c: Codec, o: Options, d: Disk, earlier: seq<Call>)
    requires o.Normal()
    ensures Run(o, d, CallOps(c, earlier + [Rotate])) == Shifted(Run(o, d, CallOps(c, earlier)), o.maxFiles)
    ensures Logged(c, earlier + [Rotate]) == Logged(c, earlier)
  {
    LoggedMore(c, earlier, Rotate);
    RunMore(o, d, CallOps(c, earlier), [Force]);
    RunOne(o, Run(o, d, CallOps(c, earlier)), [Force]);
  }

  /** After one event and n rotations, the first n generations hold nothing. */
  lemma {:induction false} RotationsForget(c: Codec, o: Options, d: Disk, other: Event, n: nat)
    returns (calls: seq<Call>, after: Disk)
    requires o.Normal() && other.timestamp != 0 && c.marshal(other).Some?
    ensures after == Run(o, d, CallOps(c, calls)) && Logged(c, calls) == [other]
    ensures forall k: nat :: k < n && k <= o.maxFiles ==> AllEvents(c, after, k) == []
    decreases n
  {
    if n == 0 {
      calls := [] + [Log(other, 0)];
      LoggedMore(c, [], Log(other, 0));
      after := Run(o, d, CallOps(c, calls));
    } else {
      var earlier, before := RotationsForget(c, o, d, other, n - 1);
      calls, after := earlier + [Rotate], Shifted(before, o.maxFiles);
      RotatedLast(c, o, d, earlier);
      forall k: nat | k < n && k <= o.maxFiles
        ensures AllEvents(c, after, k) == []
      {
        ForgottenToo(c, o.maxFiles, before, after, k);
      }
    }
  }

  lemma ForgottenToo(c: Codec, kept: nat, before: Disk, after: Disk, k: nat)
    requires after == Shifted(before, kept) && k <= kept && (k > 0 ==> AllEvents(c, before, k - 1) == [])
    ensures AllEvents(c, after, k) == []
  {
    OneRotation(c, before, kept, k);
  }

  lemma OneRotation(c: Codec, d: Disk, kept: nat, k: nat)
    requires k <= kept
    ensures AllEvents(c, Shifted(d, kept), k) == if k == 0 then [] else AllEvents(c, d, k - 1)
  {
    EventsShifted(c, d, kept);
    RetainedShifted(EventDir(c, d), kept, k);
  }

  lemma StaleEventsWin(c: Codec, o: Options, d: Disk, other: Event, m: nat) returns (calls: seq<Call>)
    requires o.Normal() && m >= o.maxFiles && other.timestamp != 0 && c.marshal(other).Some?
    requires var stale := Above(EventDir(c, d), o.maxFiles, m); stale != [] && stale[|stale| - 1] != other
    ensures !SuffixAfter(c, o, d, calls, m)
  {
    var after: Disk;
    calls, after := RotationsForget(c, o, d, other, o.maxFiles + 1);
    var stale := Above(EventDir(c, d), o.maxFiles, m);
    StaleEventsStay(c, o, d, CallOps(c, calls), m);
    assert AllEvents(c, after, o.maxFiles) == [] && stale + [] == stale;
    if SuffixAfter(c, o, d, calls, m) {
      SuffixLast(stale, AllEvents(c, d, m), other);
      assert false;
    }
  }
}
