/** A device object that reads a frame's addresses off the frame itself when it dispatches it,
    and whose handlers leave every frame's addresses alone. */
module FaithfulDevice {
  import opened Ndn
  import opened CsmaDevice
  import CsmaRuns
  import opened DeviceTraffic
  import opened DrivenDevice
  import E = Emulator

  /** What the device read when it dispatched a frame is what the frame says. */
  ghost predicate ReadAt(d: E.LinkDevice, i: nat)
    requires i < |d.trace| && d.trace[i].Dispatched?
    reads d, d.trace[i].frame
  {
    var frame := d.trace[i].frame;
    d.trace[i].dst == frame.dst && i + 1 < |d.trace| && d.trace[i + 1] == Ended(frame.dst, frame.src)
  }

  ghost function DispatchedFrames(d: E.LinkDevice): set<E.Packet>
    reads d
  {
    set i | 0 <= i < |d.trace| && d.trace[i].Dispatched? :: d.trace[i].frame
  }

  ghost predicate Truthful(d: E.LinkDevice)
    reads d, DispatchedFrames(d)
  {
    forall i :: 0 <= i < |d.trace| && d.trace[i].Dispatched? ==> ReadAt(d, i)
  }

  ghost predicate Faithful(d: E.LinkDevice)
    reads d, d.node, DispatchedFrames(d)
  {
    Sound(d) && Truthful(d)
  }

  lemma QuietSteps(c: Config, d: Device<E.Packet>, e: Event<E.Packet>)
    requires Enabled(d, e) && Step(c, d, e).Stepped? && !e.RxExpires?
    ensures forall a :: a in Step(c, d, e).trace ==> !a.Dispatched?
  {
  }

  twostate lemma StaysTruthful(d: E.LinkDevice)
    requires old(Truthful(d)) && NoneDispatched(old(d.trace), d.trace)
    requires forall p :: p in old(DispatchedFrames(d)) ==> unchanged(p)
    ensures Truthful(d)
  {
    forall i | 0 <= i < |d.trace| && d.trace[i].Dispatched? ensures ReadAt(d, i) {
      assert d.trace[i] == old(d.trace)[i] && d.trace[i].frame in old(DispatchedFrames(d));
      assert old(ReadAt(d, i));
      assert d.trace[i + 1] == old(d.trace)[i + 1];
    }
  }

  twostate lemma StaysFaithful(d: E.LinkDevice)
    requires old(Faithful(d)) && unchanged(d) && old(d.node.faceCounter) <= d.node.faceCounter
    requires forall p :: p in old(DispatchedFrames(d)) ==> unchanged(p)
    ensures Faithful(d)
  {
    StaysTruthful(d);
  }

  twostate lemma QuietStepTruthful(d: E.LinkDevice, new e: Event<E.Packet>)
    requires old(Truthful(d)) && Took(d, e) && !e.RxExpires?
    requires forall p :: p in old(DispatchedFrames(d)) ==> unchanged(p)
    ensures Truthful(d)
  {
    QuietSteps(d.Config(), old(d.View()), e);
    StaysTruthful(d);
  }

  method ContendAgain(dev: E.LinkDevice, draw: nat)
    requires Faithful(dev) && dev.csmaTimer.Some?
    modifies dev
    ensures Faithful(dev)
  {
    ghost var e := EndBackoff(dev, draw);
    QuietStepTruthful(dev, e);
  }

  /** The frame that is dispatched, if any, is the pending one, and is read as it stands. */
  method FinishReception(dev: E.LinkDevice)
    requires Faithful(dev) && dev.rxTimer && dev.node.faceCounter < MAX_INT
    modifies dev, dev.node`faceCounter, dev.node`faceTable
    ensures Faithful(dev)
    ensures unchanged(dev.node) || NewFaceOf(dev)
  {
    ghost var tr := dev.trace;
    ghost var e := EndReception(dev);
    assert |dev.trace| <= |tr| + 2;
    forall i | 0 <= i < |dev.trace| && dev.trace[i].Dispatched? ensures ReadAt(dev, i) {
      if i < |tr| {
        assert dev.trace[i] == tr[i] && tr[i].frame in old(DispatchedFrames(dev));
        assert old(ReadAt(dev, i));
        assert dev.trace[i + 1] == tr[i + 1];
      } else {
        assert i == |tr| && dev.trace[i].frame == old(dev.pendingRx);
      }
    }
  }

  twostate lemma HearingStaysFaithful(d: E.LinkDevice, new frame: E.Packet)
    requires old(Faithful(d)) && d.Heard(frame) && old(d.node.faceCounter) <= d.node.faceCounter
    requires forall p :: p in old(DispatchedFrames(d)) ==> unchanged(p)
    ensures Faithful(d)
  {
    CsmaRuns.StepKeeps(d.Config(), old(d.View()), old(d.trace), Arrive(frame));
    QuietSteps(d.Config(), old(d.View()), Arrive(frame));
    StaysTruthful(d);
  }
}
