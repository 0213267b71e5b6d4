/** One connection's writes, and the switch from clear to sealed: internal/ws/client.go. */
module Client {
  import opened Common
  import S = Session
  import W = SealWindow

  datatype Wire = Clear(msg: string) | UnderSeal(frame: S.Frame)

  /** What a peer sent: a frame as far as it parses as one, and the raw text of it. */
  datatype Incoming = Incoming(text: string, frame: S.Frame)

  /** A write as it is on the wire and as SealWindow has it: keys are the sessions' sending keys. */
  ghost predicate SameWrite(keys: seq<S.Key>, w: Wire, x: W.Written) {
    match x
    case Plain(msg, _) => w == Clear(msg)
    case InSession(k, n, msg) =>
      k < |keys| && n < S.TWO64 && w == UnderSeal(S.SealedFrame(S.Tx(keys[k], n), msg))
  }

  ghost predicate SameWires(keys: seq<S.Key>, ws: seq<Wire>, xs: seq<W.Written>) {
    |ws| == |xs| && forall i :: 0 <= i < |ws| ==> SameWrite(keys, ws[i], xs[i])
  }

  class Client {
    var sealed: S.Session?
    var wire: seq<Wire>           // everything written so far
    ghost var conn: W.Conn        // the same connection, as SealWindow has it
    ghost var keys: seq<S.Key>    // the sending key of each session so far

    /** The connection is what SealWindow says it is. */
    ghost predicate Linked()
      reads this, if sealed == null then {} else {sealed}
    {
      && W.WellFormed(conn) && |keys| == |conn.counters| && SameWires(keys, wire, conn.wire)
      && (sealed == null <==> conn.counters == [])
      && (sealed != null ==> sealed.Sender() == S.Tx(keys[|keys| - 1], sealed.sent)
                             && conn.counters[|keys| - 1] == sealed.sent)
    }

    /** Not at the last counter there is: after it the session's own counter wraps. */
    ghost predicate BelowWrap()
      reads this, if sealed == null then {} else {sealed}
    {
      sealed != null ==> sealed.sent < S.TWO64 - 1
    }

    constructor ()
      ensures sealed == null && wire == [] && Linked() && conn == W.INIT.conn
    {
      sealed, wire := null, [];
      conn, keys := W.INIT.conn, [];
    }

    /** out is how encoding and writing went. job is the message, and whether it is an acceptance. */
    method SendLocked(msg: string, out: W.Outcome, ghost job: W.Job)
      requires job.msg == msg
      modifies this`wire, this`conn, if sealed == null then {} else {sealed}
      ensures sealed != null ==> sealed.Receiver() == old(sealed.Receiver())
      ensures out.EncodeFailed? ==> wire == old(wire) && (sealed != null ==> sealed.Sender() == old(sealed.Sender()))
      ensures !out.EncodeFailed? && sealed != null ==> sealed.Sender() == S.AfterSeal(old(sealed.Sender()))
      ensures out.WriteFailed? ==> wire == old(wire)
      ensures out.Delivered? ==>
        wire == old(wire) + [if sealed == null then Clear(msg) else UnderSeal(S.SealedFrame(old(sealed.Sender()), msg))]
      ensures old(Linked() && BelowWrap()) ==> Linked() && conn == W.Tried(old(conn), job, out)
    {
      ghost var before := conn;
      if out.EncodeFailed? {
        conn := if W.WellFormed(conn) then W.Tried(conn, job, out) else conn;
        return;
      }
      var w := Clear(msg);
      if sealed != null {
        var f := sealed.Seal(msg);
        w := UnderSeal(f);
      }
      if out.Delivered? {
        wire := wire + [w];
      }
      conn := if W.WellFormed(conn) then W.Tried(conn, job, out) else conn;
    }

    method Send(msg: string, out: W.Outcome)
      modifies this`wire, this`conn, if sealed == null then {} else {sealed}
      ensures out.Delivered? ==>
        wire == old(wire) + [if sealed == null then Clear(msg) else UnderSeal(S.SealedFrame(old(sealed.Sender()), msg))]
      ensures old(Linked() && BelowWrap()) ==> Linked() && conn == W.Do(old(conn), W.Send(msg), out)
    {
      SendLocked(msg, out, W.Send(msg));
    }

    /** The acceptance goes out the way the connection stood; everything after it is sealed. */
    method AcceptAndSeal(msg: string, out: W.Outcome, s: S.Session)
      requires s != sealed && s.sent == 0
      modifies this, if sealed == null then {} else {sealed}
      ensures sealed == s && s.sent == 0 && s.Receiver() == old(s.Receiver())
      ensures out.Delivered? ==>
        wire == old(wire)
          + [if old(sealed) == null then Clear(msg) else UnderSeal(S.SealedFrame(old(sealed.Sender()), msg))]
      ensures !out.Delivered? ==> wire == old(wire)
      ensures old(Linked() && BelowWrap()) ==> Linked() && conn == W.Do(old(conn), W.Accept(msg), out)
    {
      SendLocked(msg, out, W.Accept(msg));
      sealed := s;
      conn := W.Install(conn);
      keys := keys + [s.send];
    }

    /** The text of an unsealed connection's frame as it is; of a sealed one, only what opens. */
    method Unseal(data: Incoming) returns (r: Result<string, S.Refusal>)
      modifies if sealed == null then {} else {sealed}
      ensures sealed == null ==> r == Ok(data.text)
      ensures sealed != null ==>
        && sealed.Receiver() == S.Receive(old(sealed.Receiver()), data.frame)
        && (r.Ok? <==> S.Taken(old(sealed.Receiver()), data.frame).Some?)
        && (r.Ok? ==> r.value == S.Taken(old(sealed.Receiver()), data.frame).value)
    {
      if sealed == null {
        return Ok(data.text);
      }
      r := sealed.Open(data.frame);
    }
  }
}

/** Many goroutines writing to one connection: the lock around "is it sealed yet" and the
    write, step by step. Broadcasts may arrive at any point of a pairing. */
module SealWindow {
  import opened Common

  type Thread = nat

  datatype Job = Send(msg: string) | Accept(msg: string)

  datatype Written = Plain(msg: string, acceptance: bool) | InSession(session: nat, counter: nat, msg: string)

  /** The session in force, by number; each session's next counter; what has been written. */
  datatype Conn = Conn(sealed: Option<nat>, counters: seq<nat>, wire: seq<Written>)

  datatype Outcome = Delivered | EncodeFailed | WriteFailed

  // ---------------------------------------------------------------- one job at a time

  predicate WellFormed(c: Conn) {
    c.sealed == if c.counters == [] then None else Some(|c.counters| - 1)
  }

  function Encode(c: Conn, job: Job): Written
    requires WellFormed(c)
  {
    match c.sealed
    case None => Plain(job.msg, job.Accept?)
    case Some(k) => InSession(k, c.counters[k], job.msg)
  }

  function Counted(c: Conn): Conn
    requires WellFormed(c)
  {
    match c.sealed case None => c case Some(k) => c.(counters := c.counters[k := c.counters[k] + 1])
  }

  function Tried(c: Conn, job: Job, out: Outcome): Conn
    requires WellFormed(c)
  {
    match out
    case EncodeFailed => c
    case WriteFailed => Counted(c)
    case Delivered => Counted(c).(wire := c.wire + [Encode(c, job)])
  }

  function Install(c: Conn): Conn {
    c.(sealed := Some(|c.counters|), counters := c.counters + [0])
  }

  /** A whole job, with nothing in between. */
  function Do(c: Conn, job: Job, out: Outcome): (r: Conn)
    requires WellFormed(c)
    ensures WellFormed(r)
  {
    if job.Accept? then Install(Tried(c, job, out)) else Tried(c, job, out)
  }

  function DoAll(jobs: seq<(Job, Outcome)>): (c: Conn)
    ensures WellFormed(c)
  {
    if jobs == [] then Conn(None, [], [])
    else Do(DoAll(jobs[..|jobs| - 1]), jobs[|jobs| - 1].0, jobs[|jobs| - 1].1)
  }

  // ---------------------------------------------------------------- step by step

  /** Where a goroutine is in its write. */
  datatype Pc =
    | Waiting(job: Job)
    | Holding(job: Job)                            // has the lock
    | Chosen(job: Job, under: Option<nat>)         // has read which session is in force
    | Ready(job: Job, frame: Written)              // has encoded, and counted if sealed
    | Attempted(job: Job, out: Outcome)            // the write has been tried
    | Switched(job: Job, out: Outcome)             // the new session is in force

  /** done is the jobs completed, in the order they let go of the lock. */
  datatype Sys = Sys(conn: Conn, lock: Option<Thread>, threads: map<Thread, Pc>, done: seq<(Job, Outcome)>)

  datatype Step =
    | Arrive(t: Thread, job: Job) | Acquire(t: Thread) | Choose(t: Thread)
    | EncodeOk(t: Thread) | EncodeFail(t: Thread) | WriteOk(t: Thread) | WriteFail(t: Thread)
    | Switch(t: Thread) | Release(t: Thread)

  function At(s: Sys, t: Thread, pc: Pc): Sys {
    s.(threads := s.threads[t := pc])
  }

  predicate Enabled(s: Sys, step: Step) {
    match step
    case Arrive(t, _) => t !in s.threads
    case Acquire(t) => t in s.threads && s.threads[t].Waiting? && s.lock == None
    case Choose(t) => t in s.threads && s.threads[t].Holding?
    case EncodeOk(t) => t in s.threads && s.threads[t].Chosen?
    case EncodeFail(t) => t in s.threads && s.threads[t].Chosen?
    case WriteOk(t) => t in s.threads && s.threads[t].Ready?
    case WriteFail(t) => t in s.threads && s.threads[t].Ready?
    case Switch(t) => t in s.threads && s.threads[t].Attempted? && s.threads[t].job.Accept?
    case Release(t) =>
      t in s.threads && (s.threads[t].Switched? || (s.threads[t].Attempted? && s.threads[t].job.Send?))
  }

  function Next(s: Sys, step: Step): Sys
    requires Enabled(s, step)
  {
    match step
    case Arrive(t, job) => At(s, t, Waiting(job))
    case Acquire(t) => At(s, t, Holding(s.threads[t].job)).(lock := Some(t))
    case Choose(t) => At(s, t, Chosen(s.threads[t].job, s.conn.sealed))
    case EncodeOk(t) =>
      var pc := s.threads[t];
      match pc.under {
        case None => At(s, t, Ready(pc.job, Plain(pc.job.msg, pc.job.Accept?)))
        case Some(k) =>
          // A session in force has a counter: the guard below always holds.
          if k >= |s.conn.counters| then s else
          var n := s.conn.counters[k];
          At(s, t, Ready(pc.job, InSession(k, n, pc.job.msg)))
            .(conn := s.conn.(counters := s.conn.counters[k := n + 1]))
      }
    case EncodeFail(t) => At(s, t, Attempted(s.threads[t].job, EncodeFailed))
    case WriteOk(t) =>
      At(s, t, Attempted(s.threads[t].job, Delivered))
        .(conn := s.conn.(wire := s.conn.wire + [s.threads[t].frame]))
    case WriteFail(t) => At(s, t, Attempted(s.threads[t].job, WriteFailed))
    case Switch(t) =>
      At(s, t, Switched(s.threads[t].job, s.threads[t].out)).(conn := Install(s.conn))
    case Release(t) =>
      Sys(s.conn, None, s.threads - {t}, s.done + [(s.threads[t].job, s.threads[t].out)])
  }

  const INIT := Sys(Conn(None, [], []), None, map[], [])

  /** The system after some steps, if each could happen when it did. */
  function After(steps: seq<Step>): Option<Sys> {
    if steps == [] then Some(INIT)
    else
      match After(steps[..|steps| - 1])
      case None => None
      case Some(s) =>
        if Enabled(s, steps[|steps| - 1]) then Some(Next(s, steps[|steps| - 1])) else None
  }

  // ---------------------------------------------------------------- the lock makes jobs whole

  /** How the connection looks part-way through a job that found it at c. */
  ghost predicate PartWay(c: Conn, pc: Pc, now: Conn)
    requires WellFormed(c)
  {
    match pc
    case Waiting(_) => false
    case Holding(_) => now == c
    case Chosen(_, under) => now == c && under == c.sealed
    case Ready(job, frame) => now == Counted(c) && frame == Encode(c, job)
    case Attempted(job, out) => now == Tried(c, job, out)
    case Switched(job, out) => job.Accept? && now == Do(c, job, out)
  }

  ghost predicate Serial(s: Sys) {
    && (forall t :: t in s.threads && s.lock != Some(t) ==> s.threads[t].Waiting?)
    && match s.lock
       case None => s.conn == DoAll(s.done)
       case Some(t) => t in s.threads && PartWay(DoAll(s.done), s.threads[t], s.conn)
  }

  lemma StepSerial(s: Sys, step: Step)
    requires Serial(s) && Enabled(s, step)
    ensures Serial(Next(s, step))
  {
    if step.Release? {
      var pc := s.threads[step.t];
      var done := s.done + [(pc.job, pc.out)];
      assert done[..|done| - 1] == s.done;
      assert s.lock == Some(step.t);
    }
  }

  /** In every interleaving, the connection is as the completed jobs left it, run whole one
      after another in the order they finished, plus at most one job part-way. */
  lemma {:induction false} Serializable(steps: seq<Step>)
    ensures After(steps).Some? ==> Serial(After(steps).value)
  {
    if steps != [] {
      Serializable(steps[..|steps| - 1]);
      if After(steps).Some? {
        StepSerial(After(steps[..|steps| - 1]).value, steps[|steps| - 1]);
      }
    }
  }

  // ---------------------------------------------------------------- what reaches the wire

  /** a was written before b under seal, in an earlier session or under a lower counter. */
  predicate Before(a: Written, b: Written) {
    a.InSession? && b.InSession? ==>
      a.session < b.session || (a.session == b.session && a.counter < b.counter)
  }

  /** Nothing is clear after a clear acceptance or after anything sealed, and counters only go up. */
  ghost predicate SafeWire(w: seq<Written>) {
    && (forall i, j :: 0 <= i < j < |w| && w[i].Plain? && w[i].acceptance ==> w[j].InSession?)
    && (forall i, j :: 0 <= i < j < |w| && w[i].InSession? ==> w[j].InSession?)
    && (forall i, j :: 0 <= i < j < |w| ==> Before(w[i], w[j]))
  }

  ghost predicate Good(c: Conn) {
    && WellFormed(c) && SafeWire(c.wire)
    && (c.sealed.None? ==> forall i :: 0 <= i < |c.wire| ==> c.wire[i].Plain? && !c.wire[i].acceptance)
    && (forall i :: 0 <= i < |c.wire| && c.wire[i].InSession? ==>
          c.wire[i].session < |c.counters| && c.wire[i].counter < c.counters[c.wire[i].session])
  }

  /** What b may follow. */
  ghost predicate MayFollow(a: Written, b: Written) {
    (a.InSession? || a.acceptance ==> b.InSession?) && Before(a, b)
  }

  lemma SafeMore(w: seq<Written>, x: Written)
    requires SafeWire(w) && forall i :: 0 <= i < |w| ==> MayFollow(w[i], x)
    ensures SafeWire(w + [x])
  {
    var v := w + [x];
    forall i, j | 0 <= i < j < |v|
      ensures MayFollow(v[i], v[j])
    {
      assert v[i] == w[i];
      assert j == |w| || v[j] == w[j];
    }
  }

  lemma NextMayFollow(c: Conn, job: Job, i: nat)
    requires Good(c) && i < |c.wire|
    ensures MayFollow(c.wire[i], Encode(c, job))
  {
  }

  /** Good, but for a first acceptance that is on the wire with its session not yet in force. */
  lemma TriedSafe(c: Conn, job: Job, out: Outcome)
    requires Good(c)
    ensures SafeWire(Tried(c, job, out).wire)
    ensures job.Send? ==> Good(Tried(c, job, out))
    ensures Good(Install(Tried(c, job, out)))
  {
    var n := Tried(c, job, out);
    if out.Delivered? {
      forall i | 0 <= i < |c.wire|
        ensures MayFollow(c.wire[i], Encode(c, job))
      {
        NextMayFollow(c, job, i);
      }
      SafeMore(c.wire, Encode(c, job));
    }
    forall i | 0 <= i < |n.wire| && n.wire[i].InSession?
      ensures n.wire[i].session < |n.counters| && n.wire[i].counter < n.counters[n.wire[i].session]
    {
      if i < |c.wire| {
        assert n.wire[i] == c.wire[i];
      }
    }
  }

  lemma {:induction false} DoAllGood(jobs: seq<(Job, Outcome)>)
    ensures Good(DoAll(jobs))
  {
    if jobs != [] {
      DoAllGood(jobs[..|jobs| - 1]);
      TriedSafe(DoAll(jobs[..|jobs| - 1]), jobs[|jobs| - 1].0, jobs[|jobs| - 1].1);
    }
  }

  /** However broadcasts and pairings on one connection interleave, and whichever writes
      fail: once the first acceptance, or anything sealed, is on the wire nothing clear follows
      it, and in each session the counters written strictly increase. */
  lemma NoClearAfterAcceptance(steps: seq<Step>)
    requires After(steps).Some?
    ensures SafeWire(After(steps).value.conn.wire)
  {
    Serializable(steps);
    var s := After(steps).value;
    DoAllGood(s.done);
    if s.lock.Some? {
      var c, pc := DoAll(s.done), s.threads[s.lock.value];
      if pc.Attempted? || pc.Switched? {
        TriedSafe(c, pc.job, pc.out);
      }
    }
  }

  function Messages(w: seq<Written>): seq<string> {
    seq(|w|, i requires 0 <= i < |w| => w[i].msg)
  }

  function DeliveredMessages(jobs: seq<(Job, Outcome)>): seq<string> {
    if jobs == [] then []
    else
      var j := jobs[|jobs| - 1];
      DeliveredMessages(jobs[..|jobs| - 1]) + if j.1.Delivered? then [j.0.msg] else []
  }

  /** Between writes, the wire holds exactly the messages delivered, in order, each once. */
  lemma {:induction false} WireIsWhatWasDelivered(jobs: seq<(Job, Outcome)>)
    ensures Messages(DoAll(jobs).wire) == DeliveredMessages(jobs)
  {
    if jobs != [] {
      WireIsWhatWasDelivered(jobs[..|jobs| - 1]);
    }
  }
}
