/** A device object under an arbitrary schedule of frames, timers and sends of its faces. */
module DrivenDevice {
  import opened Ndn
  import opened CsmaDevice
  import CsmaRuns
  import E = Emulator

  /** What the event loop can do to a device; a timer that is not pending does nothing. */
  datatype Occurrence =
    | FrameArrives(frame: E.Packet)
    | ReceiveTimer
    | FaceSends(face: E.LinkFace, frame: E.Packet, draw: nat)
    | CsmaTimer(draw: nat)

  function Frames(schedule: seq<Occurrence>): set<E.Packet> {
    set o | o in schedule && o.FaceSends? :: o.frame
  }

  /** Only faces of the device send through it. */
  predicate For(dev: E.LinkDevice, o: Occurrence) {
    o.FaceSends? ==> o.face.device == dev
  }

  predicate IsTimer(o: Occurrence) {
    o.ReceiveTimer? || o.CsmaTimer?
  }

  predicate Causes(o: Occurrence, e: Event<E.Packet>) {
    match o
    case FrameArrives(frame) => e == Arrive(frame)
    case ReceiveTimer => e.RxExpires?
    case FaceSends(_, frame, draw) => e == CsmaDevice.Send(frame, frame.length, draw)
    case CsmaTimer(draw) => e.CsmaExpires? && e.draw == draw
  }

  /** The events are the schedule, in order, without some of the timers. */
  predicate Follows(es: seq<Event<E.Packet>>, schedule: seq<Occurrence>)
    decreases |schedule|
  {
    if schedule == [] then es == []
    else
      var before, o := schedule[..|schedule| - 1], schedule[|schedule| - 1];
      (IsTimer(o) && Follows(es, before))
      || (es != [] && Causes(o, es[|es| - 1]) && Follows(es[..|es| - 1], before))
  }

  /** These events lead from one device and trace to another. */
  ghost predicate Leads<P>(c: Config, d: Device<P>, tr: seq<Action<P>>, es: seq<Event<P>>,
                           d': Device<P>, tr': seq<Action<P>>)
  {
    Possible(c, d, es) && Run(c, d, tr, es) == Stepped(d', tr')
  }

  lemma LeadsFurther<P>(c: Config, d: Device<P>, tr: seq<Action<P>>, es: seq<Event<P>>,
                        d1: Device<P>, tr1: seq<Action<P>>, e: Event<P>, d2: Device<P>, tr2: seq<Action<P>>)
    requires Leads(c, d, tr, es, d1, tr1) && Enabled(d1, e)
    requires Step(c, d1, e).Stepped? && Step(c, d1, e).device == d2 && tr2 == tr1 + Step(c, d1, e).trace
    ensures Leads(c, d, tr, es + [e], d2, tr2)
  {
    CsmaRuns.RunThenStep(c, d, tr, es, e);
  }

  /** The object is in a state that some run has led to. */
  ghost predicate Sound(dev: E.LinkDevice)
    reads dev, dev.node
  {
    dev.Valid() && CsmaRuns.Inv(dev.Config(), dev.View(), dev.trace)
  }

  /** The object took this step of the state machine. */
  twostate predicate Took(dev: E.LinkDevice, new e: Event<E.Packet>)
    reads dev
  {
    Enabled(old(dev.View()), e)
    && var r := Step(dev.Config(), old(dev.View()), e);
       r.Stepped? && dev.View() == r.device && dev.trace == old(dev.trace) + r.trace
  }

  /** The node has one more face, on this device. */
  twostate predicate NewFaceOf(dev: E.LinkDevice)
    reads dev.node
  {
    var node, id := dev.node, old(dev.node.faceCounter);
    id in node.faceTable && node.faceTable[id].Net? && node.faceTable[id].link.device == dev
    && node.AddedFace(id, old(node.faceTable), node.faceTable[id])
  }

  method Hear(dev: E.LinkDevice, frame: E.Packet)
    requires Sound(dev)
    modifies dev
    ensures Sound(dev) && Took(dev, Arrive(frame)) && dev.posted == old(dev.posted)
  {
    CsmaRuns.StepKeeps(dev.Config(), dev.View(), dev.trace, Arrive(frame));
    var threw := dev.StartRx(frame);
    assert !threw;
  }

  /** The frame is read for its addresses when its reception ends. */
  method EndReception(dev: E.LinkDevice) returns (ghost e: Event<E.Packet>)
    requires Sound(dev) && dev.rxTimer && dev.node.faceCounter < MAX_INT
    modifies dev, dev.node`faceCounter, dev.node`faceTable
    ensures Sound(dev) && Took(dev, e) && e.RxExpires?
    ensures old(dev.pendingRx) != null ==> e.dst == old(dev.pendingRx.dst) && e.src == old(dev.pendingRx.src)
    ensures unchanged(dev.node) || NewFaceOf(dev)
  {
    ghost var dst := if dev.pendingRx == null then 0 else dev.pendingRx.dst;
    ghost var src := if dev.pendingRx == null then 0 else dev.pendingRx.src;
    e := RxExpires(dst, src, dev.node.faceCounter);
    CsmaRuns.StepKeeps(dev.Config(), dev.View(), dev.trace, e);
    var threw := dev.PostRx(false);
    assert !threw;
  }

  method SendThrough(face: E.LinkFace, frame: E.Packet, draw: nat)
    requires Sound(face.device)
    modifies face.device, frame
    ensures Sound(face.device) && Took(face.device, CsmaDevice.Send(frame, frame.length, draw))
  {
    var dev := face.device;
    CsmaRuns.StepKeeps(dev.Config(), dev.View(), dev.trace, CsmaDevice.Send(frame, frame.length, draw));
    face.Send(frame, draw);
  }

  method EndBackoff(dev: E.LinkDevice, draw: nat) returns (ghost e: Event<E.Packet>)
    requires Sound(dev) && dev.csmaTimer.Some?
    modifies dev
    ensures Sound(dev) && Took(dev, e) && e.CsmaExpires? && e.draw == draw
  {
    var Csma(NB, BE, _) := dev.csmaTimer.value;
    ghost var airTime := if dev.queue == [] then 0 else dev.link.AirTime(dev.queue[0].length);
    e := CsmaExpires(draw, airTime);
    CsmaRuns.StepKeeps(dev.Config(), dev.View(), dev.trace, e);
    var threw := dev.DoCsma(NB, BE, false, draw);
    assert !threw;
  }

  method Occur(dev: E.LinkDevice, o: Occurrence) returns (ghost e: Option<Event<E.Packet>>)
    requires Sound(dev) && For(dev, o) && dev.node.faceCounter < MAX_INT
    modifies dev, dev.node`faceCounter, dev.node`faceTable, Frames([o])
    ensures Sound(dev) && old(dev.node.faceCounter) <= dev.node.faceCounter <= old(dev.node.faceCounter) + 1
    ensures if e.Some? then Causes(o, e.value) && Took(dev, e.value) else unchanged(dev)
    ensures e.None? <==> (o.ReceiveTimer? && !old(dev.rxTimer)) || (o.CsmaTimer? && old(dev.csmaTimer).None?)
  {
    e := None;
    match o
    case FrameArrives(frame) =>
      Hear(dev, frame);
      e := Some(Arrive(frame));
    case ReceiveTimer =>
      if dev.rxTimer {
        ghost var ended := EndReception(dev);
        e := Some(ended);
      }
    case FaceSends(face, frame, draw) =>
      assert frame in Frames([o]);
      SendThrough(face, frame, draw);
      e := Some(CsmaDevice.Send(frame, frame.length, draw));
    case CsmaTimer(draw) =>
      if dev.csmaTimer.Some? {
        ghost var ended := EndBackoff(dev, draw);
        e := Some(ended);
      }
  }

  /** One occurrence more of a run. */
  method Continue(dev: E.LinkDevice, o: Occurrence, ghost d: Device<E.Packet>, ghost tr: seq<Action<E.Packet>>,
                  ghost es: seq<Event<E.Packet>>)
    returns (ghost es': seq<Event<E.Packet>>)
    requires Sound(dev) && For(dev, o) && dev.node.faceCounter < MAX_INT
    requires Leads(dev.Config(), d, tr, es, dev.View(), dev.trace)
    modifies dev, dev.node`faceCounter, dev.node`faceTable, Frames([o])
    ensures Sound(dev) && dev.node.faceCounter <= old(dev.node.faceCounter) + 1
    ensures Leads(dev.Config(), d, tr, es', dev.View(), dev.trace)
    ensures (IsTimer(o) && es' == es) || (es' != [] && es'[..|es'| - 1] == es && Causes(o, es'[|es'| - 1]))
  {
    ghost var d1, tr1 := dev.View(), dev.trace;
    ghost var e := Occur(dev, o);
    es' := es;
    if e.Some? {
      LeadsFurther(dev.Config(), d, tr, es, d1, tr1, e.value, dev.View(), dev.trace);
      es' := es + [e.value];
    }
  }

  /** Whatever the schedule, no handler throws and no assertion fails; the device object goes
      through a run of the state machine, so all that holds of runs holds of it. */
  method Drive(dev: E.LinkDevice, schedule: seq<Occurrence>) returns (ghost es: seq<Event<E.Packet>>)
    requires Sound(dev) && dev.node.faceCounter + |schedule| <= MAX_INT
    requires forall o :: o in schedule ==> For(dev, o)
    modifies dev, dev.node`faceCounter, dev.node`faceTable, Frames(schedule)
    ensures Sound(dev) && Possible(dev.Config(), old(dev.View()), es)
    ensures Run(dev.Config(), old(dev.View()), old(dev.trace), es) == Stepped(dev.View(), dev.trace)
    ensures Follows(es, schedule)
    ensures forall p: E.Packet :: old(allocated(p)) && p !in Frames(schedule) ==>
              p.dst == old(p.dst) && p.src == old(p.src)
  {
    es := [];
    ghost var d, tr := dev.View(), dev.trace;
    for k := 0 to |schedule|
      invariant Sound(dev) && dev.node.faceCounter + (|schedule| - k) <= MAX_INT
      invariant Follows(es, schedule[..k]) && Leads(dev.Config(), d, tr, es, dev.View(), dev.trace)
    {
      assert schedule[..k + 1][..k] == schedule[..k];
      assert Frames([schedule[k]]) <= Frames(schedule);
      es := Continue(dev, schedule[k], d, tr, es);
    }
    assert schedule[..|schedule|] == schedule;
  }
}
