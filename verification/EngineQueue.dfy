/**
 * The bounded, ordered engine-bound byte queue behind the mediator: frames are
 * admitted under a lock, one writer thread writes them on a non-blocking pipe.
 */
module EngineQueue {
  import opened Collections

  const ACP_FRAME_MAX_BYTES := 64 * 1024 * 1024
  const ENGINE_QUEUE_MAX_BYTES := 4 * ACP_FRAME_MAX_BYTES

  datatype Writer = Waiting | Writing(view: Bytes, size: nat) | Ended(drained: bool)

  datatype State = State(
    admitted: seq<Bytes>,        // every frame accepted so far, in order
    queue: seq<Option<Bytes>>,   // frames waiting for the writer; None ends it
    queuedBytes: int,
    inputClosed: bool,
    abort: bool,
    writer: Writer,
    dropped: Bytes,              // the unwritten part of the frame a failed writer held
    pipe: Bytes)                 // bytes the pipe took

  const Init := State([], [], 0, false, false, Waiting, [], [])

  // -- the sections that hold the queue lock, and the writer's own steps ---------

  predicate Accepts(q: State, data: Bytes) {
    !q.inputClosed && q.queuedBytes + |data| <= ENGINE_QUEUE_MAX_BYTES
  }

  function Admit(q: State, data: Bytes): State {
    if q.inputClosed then q
    else if q.queuedBytes + |data| > ENGINE_QUEUE_MAX_BYTES then
      q.(inputClosed := true, queue := q.queue + [None], abort := true)
    else
      q.(queuedBytes := q.queuedBytes + |data|, queue := q.queue + [Some(data)], admitted := q.admitted + [data])
  }

  function Stop(q: State): State {
    if q.inputClosed then q else q.(inputClosed := true, queue := q.queue + [None])
  }

  function Get(q: State): State
    requires q.writer.Waiting? && q.queue != []
  {
    var rest := q.(queue := q.queue[1..]);
    if q.queue[0].Some? then rest.(writer := Writing(q.queue[0].value, |q.queue[0].value|))
    else rest.(writer := Ended(true), inputClosed := true)
  }

  function Write(q: State, n: nat): State
    requires q.writer.Writing? && 0 < n <= |q.writer.view|
  {
    q.(pipe := q.pipe + q.writer.view[..n], writer := Writing(q.writer.view[n..], q.writer.size))
  }

  function Complete(q: State): State
    requires q.writer.Writing? && q.writer.view == []
  {
    q.(queuedBytes := q.queuedBytes - q.writer.size, writer := Waiting)
  }

  function Fail(q: State): State
    requires q.writer.Writing?
  {
    q.(writer := Ended(false), dropped := q.writer.view, inputClosed := true)
  }

  datatype Step = Admits(data: Bytes) | Stops | Aborts | Gets | Writes(n: nat) | Completes | Fails

  ghost predicate Stepped(q: State, e: Step, r: State) {
    match e
    case Admits(data) => r == Admit(q, data)
    case Stops => r == Stop(q)
    case Aborts => r == q.(abort := true)
    case Gets => q.writer.Waiting? && q.queue != [] && r == Get(q)
    case Writes(n) => q.writer.Writing? && 0 < n <= |q.writer.view| && r == Write(q, n)
    case Completes => q.writer.Writing? && q.writer.view == [] && r == Complete(q)
    case Fails => q.writer.Writing? && r == Fail(q)
  }

  ghost predicate Run(steps: seq<Step>, states: seq<State>) {
    && |states| == |steps| + 1
    && states[0] == Init
    && forall i :: 0 <= i < |steps| ==> Stepped(states[i], steps[i], states[i + 1])
  }

  // -- what every run keeps --------------------------------------------------------

  ghost function Flat(frames: seq<Bytes>): Bytes
    decreases |frames|
  {
    if frames == [] then [] else Flat(frames[..|frames| - 1]) + frames[|frames| - 1]
  }

  ghost function Frames(queue: seq<Option<Bytes>>): Bytes
    decreases |queue|
  {
    if queue == [] then []
    else (if queue[0].Some? then queue[0].value else []) + Frames(queue[1..])
  }

  lemma {:induction false} FramesAppend(queue: seq<Option<Bytes>>, x: Option<Bytes>)
    ensures Frames(queue + [x]) == Frames(queue) + (if x.Some? then x.value else [])
    decreases |queue|
  {
    if queue != [] {
      assert (queue + [x])[1..] == queue[1..] + [x];
      FramesAppend(queue[1..], x);
    }
  }

  ghost function InHand(q: State): Bytes {
    match q.writer
    case Writing(view, _) => view
    case Ended(false) => q.dropped
    case _ => []
  }

  ghost function HeldSize(q: State): nat {
    if q.writer.Writing? then q.writer.size else 0
  }

  ghost predicate Ok(q: State) {
    && q.pipe + InHand(q) + Frames(q.queue) == Flat(q.admitted)
    && (!q.writer.Ended? ==> q.queuedBytes == HeldSize(q) + |Frames(q.queue)|)
    && (q.writer.Ended? ==> |InHand(q)| + |Frames(q.queue)| <= q.queuedBytes)
    && (q.writer.Writing? ==> |q.writer.view| <= q.writer.size)
    && q.queuedBytes <= ENGINE_QUEUE_MAX_BYTES
    && (forall i :: 0 <= i < |q.queue| && q.queue[i].None? ==> i == |q.queue| - 1 && q.inputClosed)
    && (q.writer.Ended? ==> q.inputClosed)
    && (q.writer == Ended(true) ==> q.queue == [])
  }

  lemma OkAdmit(q: State, data: Bytes)
    requires Ok(q)
    ensures Ok(Admit(q, data))
  {
    var r := Admit(q, data);
    FramesAppend(q.queue, None);
    if Accepts(q, data) {
      FramesAppend(q.queue, Some(data));
      assert r.admitted[..|q.admitted|] == q.admitted;
      var done := q.pipe + InHand(q);
      assert done + (Frames(q.queue) + data) == done + Frames(q.queue) + data;
    }
  }

  lemma OkGet(q: State)
    requires Ok(q) && q.writer.Waiting? && q.queue != []
    ensures Ok(Get(q))
  {
    var r := Get(q);
    if q.queue[0].Some? {
      assert q.pipe + [] + (q.queue[0].value + Frames(q.queue[1..])) == q.pipe + q.queue[0].value + Frames(q.queue[1..]);
    } else {
      assert |q.queue| == 1;
      assert q.pipe + [] + ([] + Frames(q.queue[1..])) == q.pipe + [] + Frames(q.queue[1..]);
    }
  }

  lemma OkWrite(q: State, n: nat)
    requires Ok(q) && q.writer.Writing? && 0 < n <= |q.writer.view|
    ensures Ok(Write(q, n)) && q.pipe <= Write(q, n).pipe
  {
    var view, rest := q.writer.view, Frames(q.queue);
    assert view == view[..n] + view[n..];
    assert q.pipe + view[..n] + view[n..] + rest == q.pipe + view + rest;
  }

  lemma OkStep(q: State, e: Step, r: State)
    requires Ok(q) && Stepped(q, e, r)
    ensures Ok(r) && q.pipe <= r.pipe
  {
    match e
    case Admits(data) => OkAdmit(q, data);
    case Stops => FramesAppend(q.queue, None);
    case Gets => OkGet(q);
    case Writes(n) => OkWrite(q, n);
    case _ =>
  }

  lemma {:induction false} StaysOk(steps: seq<Step>, states: seq<State>, k: nat)
    requires Run(steps, states) && k <= |steps|
    ensures Ok(states[k])
  {
    if k > 0 {
      StaysOk(steps, states, k - 1);
      assert Stepped(states[k - 1], steps[k - 1], states[k]);
      OkStep(states[k - 1], steps[k - 1], states[k]);
    }
  }

  /** Whatever was written is a prefix of the admitted frames in admission order,
      and the bytes not yet written never exceed the bound. */
  lemma WrittenIsPrefixAndRestIsBounded(steps: seq<Step>, states: seq<State>, k: nat)
    requires Run(steps, states) && k <= |steps|
    ensures states[k].pipe <= Flat(states[k].admitted)
    ensures |Flat(states[k].admitted)| - |states[k].pipe| <= ENGINE_QUEUE_MAX_BYTES
  {
    StaysOk(steps, states, k);
    var q := states[k];
    assert q.pipe == Flat(q.admitted)[..|q.pipe|];
  }

  /** A writer that ended on the closing mark has written every admitted byte. */
  lemma DrainedMeansAllWritten(steps: seq<Step>, states: seq<State>, k: nat)
    requires Run(steps, states) && k <= |steps| && states[k].writer == Ended(true)
    ensures states[k].pipe == Flat(states[k].admitted)
  {
    StaysOk(steps, states, k);
  }

  /** Once a frame was refused, or input was closed, nothing is admitted again. */
  lemma {:induction false} ClosedForGood(steps: seq<Step>, states: seq<State>, j: nat, k: nat)
    requires Run(steps, states) && j <= k <= |steps| && states[j].inputClosed
    ensures states[k].inputClosed && states[k].admitted == states[j].admitted
  {
    if j < k {
      ClosedForGood(steps, states, j, k - 1);
      assert Stepped(states[k - 1], steps[k - 1], states[k]);
    }
  }

  /** A frame is admitted, last, exactly while the input is open and it fits; otherwise
      the input is closed, and only an overflow aborts. */
  lemma AdmittedExactly(steps: seq<Step>, states: seq<State>, k: nat)
    requires Run(steps, states) && k < |steps| && steps[k].Admits?
    ensures (
      var q, r := states[k], states[k + 1];
      var fits := |Flat(q.admitted)| - |q.pipe| + |steps[k].data| <= ENGINE_QUEUE_MAX_BYTES;
      && r.pipe == q.pipe && r.writer == q.writer
      && (!q.inputClosed && q.writer.Waiting? && fits ==> r.admitted == q.admitted + [steps[k].data] && !r.inputClosed)
      && (q.inputClosed || !fits ==> r.admitted == q.admitted && r.inputClosed)
      && (r.abort <==> q.abort || (!q.inputClosed && r.inputClosed)))
  {
    assert Stepped(states[k], steps[k], states[k + 1]);
    StaysOk(steps, states, k);
    var q := states[k];
    assert |Flat(q.admitted)| == |q.pipe| + |InHand(q)| + |Frames(q.queue)|;
  }

  /** A writer that ended, drained or not, writes nothing more. */
  lemma {:induction false} EndedForGood(steps: seq<Step>, states: seq<State>, j: nat, k: nat)
    requires Run(steps, states) && j <= k <= |steps| && states[j].writer.Ended?
    ensures states[k].writer == states[j].writer && states[k].pipe == states[j].pipe && states[k].inputClosed
  {
    StaysOk(steps, states, j);
    if j < k {
      EndedForGood(steps, states, j, k - 1);
      assert Stepped(states[k - 1], steps[k - 1], states[k]);
    }
  }

  /** A failed write ends the writer and closes the input. */
  lemma FailureEndsTheWriter(q: State, r: State)
    requires Stepped(q, Fails, r)
    ensures r.writer == Ended(false) && r.inputClosed && r.pipe == q.pipe && r.admitted == q.admitted
  {
  }

  // -- and what is admitted can be written -----------------------------------------------

  ghost predicate Leads(q: State, steps: seq<Step>, r: State)
    decreases |steps|
  {
    if steps == [] then q == r else exists m :: Stepped(q, steps[0], m) && Leads(m, steps[1..], r)
  }

  lemma LeadsOn(q: State, e: Step, m: State, steps: seq<Step>, r: State)
    requires Stepped(q, e, m) && Leads(m, steps, r)
    ensures Leads(q, [e] + steps, r)
  {
    assert ([e] + steps)[1..] == steps;
  }

  lemma {:induction false} LeadsThrough(q: State, a: seq<Step>, m: State, b: seq<Step>, r: State)
    requires Leads(q, a, m) && Leads(m, b, r)
    ensures Leads(q, a + b, r)
    decreases |a|
  {
    if a == [] {
      assert a + b == b;
    } else {
      var n :| Stepped(q, a[0], n) && Leads(n, a[1..], m);
      LeadsThrough(n, a[1..], m, b, r);
      LeadsOn(q, a[0], n, a[1..] + b, r);
      assert [a[0]] + (a[1..] + b) == a + b;
    }
  }

  /** The frame in hand can be written to its end. */
  lemma FinishFrame(q: State) returns (steps: seq<Step>, r: State)
    requires q.writer.Writing?
    ensures Leads(q, steps, r) && r.writer.Waiting? && r.queue == q.queue && r.pipe == q.pipe + q.writer.view
    ensures r.admitted == q.admitted && r.inputClosed == q.inputClosed
  {
    var whole := if q.writer.view == [] then q else Write(q, |q.writer.view|);
    r := Complete(whole);
    LeadsOn(whole, Completes, r, [], r);
    steps := [Completes] + [];
    if q.writer.view != [] {
      LeadsOn(q, Writes(|q.writer.view|), whole, steps, r);
      steps := [Writes(|q.writer.view|)] + steps;
    } else {
      assert q.pipe + q.writer.view == q.pipe;
    }
  }

  /** From every state that keeps the accounts, an undisturbed writer that has not ended
      empties the queue, and ends drained exactly if the end mark was there. */
  lemma {:induction false} Drains(q: State) returns (steps: seq<Step>, r: State)
    requires Ok(q) && !q.writer.Ended?
    ensures Leads(q, steps, r) && r.queue == [] && r.admitted == q.admitted
    ensures r.pipe == q.pipe + InHand(q) + Frames(q.queue)
    ensures r.writer == if None in q.queue then Ended(true) else Waiting
    decreases |q.queue|, if q.writer.Writing? then 1 else 0
  {
    if q.writer.Writing? {
      var a, m := FinishFrame(q);
      LeadsKeepsOk(q, a, m);
      var b;
      b, r := Drains(m);
      LeadsThrough(q, a, m, b, r);
      steps := a + b;
    } else if q.queue == [] {
      steps, r := [], q;
    } else {
      var m := Get(q);
      assert Stepped(q, Gets, m);
      OkGet(q);
      if m.writer.Ended? {
        r := m;
        LeadsOn(q, Gets, m, [], m);
        steps := [Gets] + [];
        assert q.queue == [None];
      } else {
        var b;
        b, r := Drains(m);
        LeadsOn(q, Gets, m, b, r);
        steps := [Gets] + b;
        assert q.pipe + [] + (q.queue[0].value + Frames(q.queue[1..])) == q.pipe + q.queue[0].value + Frames(q.queue[1..]);
        assert None in q.queue <==> None in q.queue[1..];
      }
    }
  }

  lemma {:induction false} LeadsKeepsOk(q: State, steps: seq<Step>, r: State)
    requires Ok(q) && Leads(q, steps, r)
    ensures Ok(r)
    decreases |steps|
  {
    if steps != [] {
      var m :| Stepped(q, steps[0], m) && Leads(m, steps[1..], r);
      OkStep(q, steps[0], m);
      LeadsKeepsOk(m, steps[1..], r);
    }
  }

  /** In every run, as long as the writer has not ended, everything admitted can still be
      written, byte for byte; with the input stopped the writer then ends drained. */
  lemma EverythingCanBeWritten(steps: seq<Step>, states: seq<State>, k: nat)
    requires Run(steps, states) && k <= |steps| && !states[k].writer.Ended?
    ensures exists more, r :: (
      && Leads(states[k], more, r) && r.pipe == Flat(states[k].admitted) && r.admitted == states[k].admitted
      && (None in states[k].queue ==> r.writer == Ended(true)))
  {
    StaysOk(steps, states, k);
    var more, r := Drains(states[k]);
  }

  // -- the object ------------------------------------------------------------------

  datatype Outcome = Took(n: nat) | WouldBlock | Broken

  /** How much one answer takes of what is left, or that it breaks the frame off. */
  function Taken(view: Bytes, answer: Outcome, abort: bool): (r: Option<nat>)
    ensures r.Some? ==> r.value <= |view|
  {
    match answer
    case Took(n) => if n == 0 then None else Some(if n <= |view| then n else |view|)
    case WouldBlock => if abort then None else Some(0)
    case Broken => None
  }

  /** How much of a frame the pipe takes, and whether it then breaks. */
  function Progress(view: Bytes, answers: seq<Outcome>, abort: bool): (r: (nat, bool))
    ensures r.0 <= |view|
    decreases |answers|
  {
    if view == [] || answers == [] then (0, false)
    else
      var taken := Taken(view, answers[0], abort);
      if taken.None? then (0, true)
      else
        var (rest, broke) := Progress(view[taken.value..], answers[1..], abort);
        (taken.value + rest, broke)
  }

  lemma ProgressStep(frame: Bytes, answers: seq<Outcome>, abort: bool, done: nat, i: nat)
    requires done < |frame| && i < |answers|
    ensures (
      var view, taken := frame[done..], Taken(frame[done..], answers[i], abort);
      if taken.None? then Progress(view, answers[i..], abort) == (0, true)
      else
        && done + taken.value <= |frame| && view[taken.value..] == frame[done + taken.value..]
        && (forall start: Bytes :: start + frame[..done] + view[..taken.value] == start + frame[..done + taken.value])
        && (var rest := Progress(frame[done + taken.value..], answers[i + 1..], abort);
            Progress(view, answers[i..], abort) == (taken.value + rest.0, rest.1)))
  {
    assert answers[i..][0] == answers[i] && answers[i..][1..] == answers[i + 1..];
    var view, taken := frame[done..], Taken(frame[done..], answers[i], abort);
    if taken.Some? {
      assert view[taken.value..] == frame[done + taken.value..];
      assert frame[..done] + view[..taken.value] == frame[..done + taken.value];
      forall start: Bytes ensures start + frame[..done] + view[..taken.value] == start + frame[..done + taken.value] {
        assert start + frame[..done] + view[..taken.value] == start + (frame[..done] + view[..taken.value]);
      }
    }
  }

  function Total(answers: seq<Outcome>): nat
    decreases |answers|
  {
    if answers == [] then 0 else (if answers[0].Took? then answers[0].n else 0) + Total(answers[1..])
  }

  /** A pipe that neither breaks nor takes nothing, and blocks only while writing is not
      aborted, takes the whole frame as soon as it has taken as much in all. */
  lemma {:induction false} WillingPipeTakesAll(view: Bytes, answers: seq<Outcome>, abort: bool)
    requires forall i :: 0 <= i < |answers| ==>
      !answers[i].Broken? && (answers[i].Took? ==> answers[i].n > 0) && (answers[i].WouldBlock? ==> !abort)
    ensures Progress(view, answers, abort) == (if Total(answers) < |view| then Total(answers) else |view|, false)
    decreases |answers|
  {
    if view != [] && answers != [] {
      WillingPipeTakesAll(view[Taken(view, answers[0], abort).value..], answers[1..], abort);
    }
  }

  /** The first answer that fails while something is left ends the frame there. */
  lemma {:induction false} FailingPipeBreaks(view: Bytes, before: seq<Outcome>, last: Outcome, after: seq<Outcome>, abort: bool)
    requires forall i :: 0 <= i < |before| ==>
      !before[i].Broken? && (before[i].Took? ==> before[i].n > 0) && (before[i].WouldBlock? ==> !abort)
    requires Total(before) < |view| && (last.Broken? || last == Took(0) || (last.WouldBlock? && abort))
    ensures Progress(view, before + [last] + after, abort) == (Total(before), true)
    decreases |before|
  {
    var all := before + [last] + after;
    if before == [] {
      assert all[0] == last;
    } else {
      assert all[0] == before[0] && all[1..] == before[1..] + [last] + after;
      FailingPipeBreaks(view[Taken(view, before[0], abort).value..], before[1..], last, after, abort);
    }
  }

  class Channel {
    ghost var admitted: seq<Bytes>
    var queue: seq<Option<Bytes>>
    var queuedBytes: int
    var inputClosed: bool
    var abort: bool
    var writer: Writer
    var dropped: Bytes
    var pipe: Bytes

    ghost function Abstract(): State
      reads this
    {
      State(admitted, queue, queuedBytes, inputClosed, abort, writer, dropped, pipe)
    }

    constructor ()
      ensures Abstract() == Init
    {
      admitted, queue, queuedBytes := [], [], 0;
      inputClosed, abort := false, false;
      writer, dropped, pipe := Waiting, [], [];
    }

    method ToEngine(data: Bytes) returns (accepted: bool)
      modifies this
      ensures Abstract() == Admit(old(Abstract()), data)
      ensures accepted == Accepts(old(Abstract()), data)
      ensures !accepted ==> inputClosed
    {
      if inputClosed { return false; }
      if queuedBytes + |data| > ENGINE_QUEUE_MAX_BYTES {
        inputClosed := true;
        queue := queue + [None];
        abort := true;
        return false;
      }
      queuedBytes := queuedBytes + |data|;
      queue := queue + [Some(data)];
      admitted := admitted + [data];
      return true;
    }

    method Close()
      modifies this
      ensures Abstract() == Stop(old(Abstract()))
    {
      if !inputClosed {
        inputClosed := true;
        queue := queue + [None];
      }
    }

    /** Write the frame in hand, one pipe answer at a time: `answers` is what the
        pipe and the poll produce. On return the frame is fully written, the
        write failed, or the answers ran out while it was still stalled. What
        reached the pipe is exactly the prefix the answers took. */
    method WriteFrame(answers: seq<Outcome>) returns (failed: bool)
      requires writer.Writing?
      modifies this
      ensures (
        var (n, broke) := Progress(old(writer.view), answers, abort);
        && failed == broke && n <= |old(writer.view)| && pipe == old(pipe) + old(writer.view)[..n]
        && (if failed then writer == Ended(false) && dropped == old(writer.view)[n..] && inputClosed
            else writer == Writing(old(writer.view)[n..], old(writer.size)) && inputClosed == old(inputClosed)))
      ensures abort == old(abort)
      ensures queue == old(queue) && queuedBytes == old(queuedBytes) && admitted == old(admitted)
    {
      var i := 0;
      ghost var start, frame, size := pipe, writer.view, writer.size;
      ghost var done: nat := 0;
      ghost var all := Progress(frame, answers, abort);
      assert frame[0..] == frame && answers[0..] == answers && start + frame[..0] == start;
      while writer.view != [] && i < |answers|
        invariant 0 <= i <= |answers| && done <= |frame|
        invariant writer == Writing(frame[done..], size) && pipe == start + frame[..done]
        invariant all.0 == done + Progress(frame[done..], answers[i..], abort).0
        invariant all.1 == Progress(frame[done..], answers[i..], abort).1
        invariant abort == old(abort) && inputClosed == old(inputClosed)
        invariant queue == old(queue) && queuedBytes == old(queuedBytes) && admitted == old(admitted)
      {
        ProgressStep(frame, answers, abort, done, i);
        ghost var taken := Taken(frame[done..], answers[i], abort);
        failed := TakeAnswer(answers[i]);
        if failed {
          assert all == (done, true);
          return;
        }
        done := done + taken.value;
        i := i + 1;
      }
      assert all == (done, false);
      failed := false;
    }

    /** One answer of the pipe or the poll. */
    method TakeAnswer(answer: Outcome) returns (failed: bool)
      requires writer.Writing? && writer.view != []
      modifies this`pipe, this`writer, this`dropped, this`inputClosed
      ensures failed <==> Taken(old(writer.view), answer, abort).None?
      ensures failed ==> writer == Ended(false) && dropped == old(writer.view) && inputClosed && pipe == old(pipe)
      ensures !failed ==> (
        var n := Taken(old(writer.view), answer, abort).value;
        && pipe == old(pipe) + old(writer.view)[..n] && writer == Writing(old(writer.view)[n..], old(writer.size))
        && inputClosed == old(inputClosed))
    {
      match answer {
        case Took(n) =>
          if n > 0 {
            var taken := if n <= |writer.view| then n else |writer.view|;
            pipe, writer := pipe + writer.view[..taken], Writing(writer.view[taken..], writer.size);
            return false;
          }
        case WouldBlock =>
          if !abort {
            assert pipe + writer.view[..0] == pipe;
            return false;
          }
        case Broken =>
      }
      writer, dropped, inputClosed := Ended(false), writer.view, true;
      return true;
    }
  }
}
