/**
 * The byte queue behind the mediator's admission interface: for every run of the
 * queue and the writer, the frames it accepts and refuses are ones that `ToEngine`
 * accepts and refuses in the mediator, with some choice of `room` at each offer.
 */
module EngineAdmission {
  import opened Collections
  import MediatorModel
  import EngineQueue

  type Frame = MediatorModel.EngineFrame
  type Mediator = MediatorModel.State

  /** Room for one more frame exactly when its bytes fit. */
  function RoomFor(q: EngineQueue.State, e: EngineQueue.Step): nat {
    if e.Admits? && EngineQueue.Accepts(q, e.data) then 1 else 0
  }

  /** The mediator's side of one step of the queue: an offer after the environment set
      the room, or nothing but a possible closing of the input. */
  function Mirrored(m: Mediator, q: EngineQueue.State, e: EngineQueue.Step, r: EngineQueue.State, f: Frame): Mediator {
    if e.Admits? then MediatorModel.ToEngine(m.(room := RoomFor(q, e)), f)
    else if r.inputClosed then m.(closed := true)
    else m
  }

  /** The mediator after k steps of the queue, offering names[i] at step i. */
  ghost function Mirror(steps: seq<EngineQueue.Step>, states: seq<EngineQueue.State>, names: seq<Frame>, k: nat): Mediator
    requires k <= |steps| && |states| == |steps| + 1 && |names| == |steps|
    decreases k
  {
    if k == 0 then MediatorModel.Init
    else Mirrored(Mirror(steps, states, names, k - 1), states[k - 1], steps[k - 1], states[k], names[k - 1])
  }

  /** Accepted and refused, closed and open, agree at every step of every run; each
      mirrored step is a setting of the room, an offer, or a closing of the input. */
  lemma {:induction false} ByteAdmissionRefinesRoom(
      steps: seq<EngineQueue.Step>, states: seq<EngineQueue.State>, names: seq<Frame>, k: nat)
    requires EngineQueue.Run(steps, states) && |names| == |steps| && k <= |steps|
    ensures Mirror(steps, states, names, k).closed == states[k].inputClosed
    ensures |Mirror(steps, states, names, k).engine| == |states[k].admitted|
    ensures k > 0 && steps[k - 1].Admits? ==> (
      var before := Mirror(steps, states, names, k - 1).(room := RoomFor(states[k - 1], steps[k - 1]));
      && (MediatorModel.Admits(before) <==> states[k].admitted == states[k - 1].admitted + [steps[k - 1].data])
      && (MediatorModel.Admits(before) <==> Mirror(steps, states, names, k).engine == before.engine + [names[k - 1]])
      && (!MediatorModel.Admits(before) ==> states[k].admitted == states[k - 1].admitted))
    decreases k
  {
    if k > 0 {
      ByteAdmissionRefinesRoom(steps, states, names, k - 1);
      assert EngineQueue.Stepped(states[k - 1], steps[k - 1], states[k]);
      assert |states[k - 1].admitted + [[]]| == |states[k - 1].admitted| + 1;
    }
  }
}
