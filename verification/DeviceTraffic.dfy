/** What sending a packet to a set of faces does to the devices behind them. */
module DeviceTraffic {
  import opened Ndn
  import opened CsmaDevice
  import CsmaRuns
  import opened FaceOrder
  import opened FrameAddresses
  import E = Emulator

  ghost predicate SoundState(dev: E.LinkDevice, r: Result<E.Packet>) {
    r.Stepped? && CsmaRuns.Inv(dev.Config(), r.device, r.trace)
  }

  /** More has happened since, and no frame was dispatched. */
  ghost predicate NoneDispatched(before: seq<Action<E.Packet>>, now: seq<Action<E.Packet>>) {
    before <= now && forall i :: |before| <= i < |now| ==> !now[i].Dispatched?
  }

  /** The device is still in such a state, and has dispatched nothing since. */
  ghost predicate Fared(dev: E.LinkDevice, before: Result<E.Packet>, now: Result<E.Packet>) {
    before.Stepped? && SoundState(dev, now) && NoneDispatched(before.trace, now.trace)
  }

  lemma SendFares(dev: E.LinkDevice, r: Result<E.Packet>, pkt: E.Packet, draw: nat)
    requires SoundState(dev, r)
    ensures var s := StartTx(dev.Config(), r.device, pkt, pkt.length, draw);
            s.Stepped? && Fared(dev, r, Stepped(s.device, r.trace + s.trace))
  {
    CsmaRuns.StepKeeps(dev.Config(), r.device, r.trace, CsmaDevice.Send(pkt, pkt.length, draw));
  }

  lemma FaredFurther(dev: E.LinkDevice, r1: Result<E.Packet>, r2: Result<E.Packet>, r3: Result<E.Packet>)
    requires Fared(dev, r1, r2) && Fared(dev, r2, r3)
    ensures Fared(dev, r1, r3)
  {
    forall i | |r1.trace| <= i < |r3.trace| ensures !r3.trace[i].Dispatched? {
      if i < |r2.trace| { assert r3.trace[i] == r2.trace[i]; }
    }
  }

  lemma FaredInOneSend(table: FaceTable, w: E.World, pkt: E.Packet, f: FaceId, draws: Draws, dev: E.LinkDevice)
    requires Plugged(table, w) && dev in w.devices && SoundState(dev, w.devices[dev])
    ensures var w' := E.Sent(table, w, pkt, f, draws);
            dev in w'.devices && Fared(dev, w.devices[dev], w'.devices[dev])
  {
    SendFares(dev, w.devices[dev], pkt, draws(f));
  }

  /** Every device stays in a state that its state machine can be in, and dispatches nothing. */
  lemma {:induction false} DeviceFares(table: FaceTable, w: E.World, pkt: E.Packet, out: set<FaceId>, draws: Draws,
                                       dev: E.LinkDevice)
    requires Plugged(table, w) && dev in w.devices && SoundState(dev, w.devices[dev])
    ensures var w' := After(table, w, pkt, out, draws);
            dev in w'.devices && Fared(dev, w.devices[dev], w'.devices[dev])
    decreases |out|
  {
    if out == {} {
      assert After(table, w, pkt, out, draws) == w;
    } else {
      var m := Min(out);
      var w1 := E.Sent(table, w, pkt, m, draws);
      AfterFirst(table, w, pkt, out, draws);
      SentKeepsPlugged(table, w, pkt, m, draws);
      FaredInOneSend(table, w, pkt, m, draws, dev);
      DeviceFares(table, w1, pkt, out - {m}, draws, dev);
      FaredFurther(dev, w.devices[dev], w1.devices[dev], After(table, w, pkt, out, draws).devices[dev]);
    }
  }
}
