/** What the link device does for its users: which frames it takes, hears, misses and
    dispatches, when it finds the channel busy, and how long it waits. */
module CsmaService {
  import opened Ndn
  import opened CsmaDevice
  import opened CsmaRuns
  import CsmaProgress
  import opened Subsequences

  // ---- One event --------------------------------------------------------------------------

  /** A frame is accepted exactly if it fits the link and the queue has room, and then a first
      backoff of 0 to 7 periods of 320 us begins. */
  lemma SendOutcome<P>(c: Config, d: Device<P>, frame: P, length: nat, draw: nat)
    ensures var r := Step(c, d, Send(frame, length, draw));
            var wait := (draw % 8) * 320;
            r == if length <= c.mtu && |d.queue| < c.limit
                 then Stepped(d.(queue := d.queue + [frame], csmaTimer := Some(Csma(0, 3, wait))),
                              [Accepted(frame), Backoff(wait)])
                 else Stepped(d, [Refused(frame)])
  {
    CsmaProgress.SlotValues();
  }

  /** The backoff of the next entry, if there is one, when the head has left. */
  function NextBackoff<P>(queue: seq<P>, draw: nat): seq<Action<P>> {
    if |queue| > 1 then [Backoff((draw % 8) * 320)] else []
  }

  /** A csma expiry ends the transmission that is on the air; otherwise it finds the channel
      clear and transmits, if no reception has begun since the last one ended, or finds it
      busy: the first time it waits 0 to 15 periods, the next three times 0 to 31, and the
      fifth time it gives the entry up. */
  lemma CsmaOutcome<P>(c: Config, d: Device<P>, tr: seq<Action<P>>, draw: nat, frameTime: nat)
    requires Inv(c, d, tr) && d.csmaTimer.Some?
    ensures d.queue != []
    ensures var s, head := Sum(tr), d.queue[0];
            Step(c, d, CsmaExpires(draw, frameTime)).Stepped?
            && Step(c, d, CsmaExpires(draw, frameTime)).trace
               == if |s.posted| > |s.completed| then [Completed(head)] + NextBackoff(d.queue, draw)
                  else if s.onAir == [] then [Posted(head)]
                  else if s.busyInARow == 0 then [Busy, Backoff((draw % 16) * 320)]
                  else if s.busyInARow < 4 then [Busy, Backoff((draw % 32) * 320)]
                  else [Busy, GaveUp(head)] + NextBackoff(d.queue, draw)
  {
    CsmaProgress.SlotValues();
    assert |InFlight(d)| == |Sum(tr).posted| - |Sum(tr).completed|;
  }

  /** The wait that is pending afterwards is the last backoff begun, or the air time of the
      frame just posted. */
  lemma CsmaWaits<P>(c: Config, d: Device<P>, tr: seq<Action<P>>, draw: nat, frameTime: nat)
    requires Inv(c, d, tr) && d.csmaTimer.Some?
    ensures var r := Step(c, d, CsmaExpires(draw, frameTime));
            && r.Stepped? && r.trace != []
            && match r.trace[|r.trace| - 1]
               case Backoff(wait) => r.device.csmaTimer.Some? && r.device.csmaTimer.value.wait == wait
               case Posted(_) => r.device.csmaTimer.Some? && r.device.csmaTimer.value.wait == frameTime
               case _ => r.device.csmaTimer.None?
  {
    StepKeeps(c, d, tr, CsmaExpires(draw, frameTime));
  }

  /** An arriving frame is missed exactly while a transmission is on the air; otherwise its
      reception begins and its timer is armed. */
  lemma ArrivalOutcome<P>(c: Config, d: Device<P>, tr: seq<Action<P>>, p: P)
    requires Inv(c, d, tr)
    ensures var s, r := Sum(tr), Step(c, d, Arrive(p));
            && r.Stepped?
            && if |s.posted| > |s.completed| then r == Stepped(d, [Missed(p)])
               else r.trace == [Began(p, d.state)]
                    && r.device == d.(state := if s.onAir == [] then Rx else RxCollide,
                                      pendingRx := Some(p), rxTimer := true)
  {
    assert |InFlight(d)| == |Sum(tr).posted| - |Sum(tr).completed|;
  }

  // ---- Every arrival counts ---------------------------------------------------------------

  function Arrivals<P>(es: seq<Event<P>>): seq<P>
    decreases |es|
  {
    if es == [] then [] else (if es[0].Arrive? then [es[0].frame] else []) + Arrivals(es[1..])
  }

  /** The frames whose reception began or that were missed, in order. */
  function Noticed<P>(tr: seq<Action<P>>): seq<P> {
    if tr == [] then []
    else Noticed(tr[..|tr| - 1])
         + (if tr[|tr| - 1].Began? || tr[|tr| - 1].Missed? then [tr[|tr| - 1].frame] else [])
  }

  lemma NoticedMore<P>(tr: seq<Action<P>>, a: Action<P>)
    ensures Noticed(tr + [a]) == Noticed(tr) + (if a.Began? || a.Missed? then [a.frame] else [])
  {
    assert (tr + [a])[..|tr|] == tr;
  }

  lemma {:induction false} NothingNoticed<P>(tr: seq<Action<P>>, acts: seq<Action<P>>)
    requires forall a :: a in acts ==> !a.Began? && !a.Missed?
    ensures Noticed(tr + acts) == Noticed(tr)
    decreases |acts|
  {
    if acts == [] {
      assert tr + acts == tr;
    } else {
      NoticedMore(tr, acts[0]);
      NothingNoticed(tr + [acts[0]], acts[1..]);
      assert (tr + [acts[0]]) + acts[1..] == tr + acts;
    }
  }

  lemma QuietStep<P>(c: Config, d: Device<P>, e: Event<P>)
    requires Enabled(d, e) && Step(c, d, e).Stepped? && !e.Arrive?
    ensures forall a :: a in Step(c, d, e).trace ==> !a.Began? && !a.Missed?
  {
  }

  lemma NoticedInStep<P>(c: Config, d: Device<P>, tr: seq<Action<P>>, e: Event<P>)
    requires Inv(c, d, tr) && Enabled(d, e)
    ensures var r := Step(c, d, e);
            r.Stepped? && Inv(c, r.device, tr + r.trace)
            && Noticed(tr + r.trace) == Noticed(tr) + (if e.Arrive? then [e.frame] else [])
  {
    StepKeeps(c, d, tr, e);
    if e.Arrive? {
      ArrivalOutcome(c, d, tr, e.frame);
      NoticedMore(tr, Step(c, d, e).trace[0]);
    } else {
      QuietStep(c, d, e);
      NothingNoticed(tr, Step(c, d, e).trace);
    }
  }

  /** On every run, no frame that arrives goes unnoticed. */
  lemma {:induction false} EveryArrivalNoticed<P>(c: Config, d: Device<P>, tr: seq<Action<P>>, es: seq<Event<P>>)
    requires Inv(c, d, tr) && Possible(c, d, es)
    ensures Run(c, d, tr, es).Stepped? && Noticed(Run(c, d, tr, es).trace) == Noticed(tr) + Arrivals(es)
    decreases |es|
  {
    if es == [] {
      assert Noticed(tr) + [] == Noticed(tr);
    } else {
      var r := Step(c, d, es[0]);
      NoticedInStep(c, d, tr, es[0]);
      EveryArrivalNoticed(c, r.device, tr + r.trace, es[1..]);
      Regroup(Noticed(tr), if es[0].Arrive? then [es[0].frame] else [], Arrivals(es[1..]));
    }
  }

  /** On every run from start-up, a frame is missed only while a transmission is on the air,
      and a reception begins, an entry is transmitted or the channel is found busy only while
      none is; and it is found busy during a reception, clear without one. */
  lemma ChannelSensing<P>(c: Config, faces: map<Mac, FaceId>, es: seq<Event<P>>, i: nat)
    requires Possible(c, Start(faces), es)
    requires var r := Run(c, Start(faces), [], es); r.Stepped? && i < |r.trace|
    ensures var tr := Run(c, Start(faces), [], es).trace;
            var sending := |Sum(tr[..i]).posted| > |Sum(tr[..i]).completed|;
            && (tr[i].Missed? || tr[i].Completed? ==> sending)
            && (tr[i].Began? || tr[i].Posted? ==> !sending)
            && (tr[i].Busy? ==> Sum(tr[..i]).onAir != [])
            && (tr[i].Posted? ==> Sum(tr[..i]).onAir == [])
  {
    StartHolds<P>(c, faces);
    RunKeeps(c, Start(faces), [], es);
    assert JustifiedAt(c, Run(c, Start(faces), [], es).trace, i);
  }

  // ---- A frame that is alone is dispatched -------------------------------------------------

  /** Sends and csma expiries only. */
  predicate NothingHeard<P>(es: seq<Event<P>>) {
    forall k :: 0 <= k < |es| ==> es[k].Send? || es[k].CsmaExpires?
  }

  lemma StillReceiving<P>(c: Config, d: Device<P>, tr: seq<Action<P>>, e: Event<P>)
    requires Inv(c, d, tr) && Enabled(d, e) && d.state == Rx && (e.Send? || e.CsmaExpires?)
    ensures var r := Step(c, d, e);
            r.Stepped? && Inv(c, r.device, tr + r.trace) && r.device.state == Rx && r.device.rxTimer
            && r.device.pendingRx == d.pendingRx && r.device.faces == d.faces
  {
    StepKeeps(c, d, tr, e);
  }

  lemma {:induction false} ReceivingThroughout<P>(c: Config, d: Device<P>, tr: seq<Action<P>>, es: seq<Event<P>>)
    requires Inv(c, d, tr) && Possible(c, d, es) && d.state == Rx && NothingHeard(es)
    ensures var r := Run(c, d, tr, es);
            r.Stepped? && Inv(c, r.device, r.trace) && r.device.state == Rx && r.device.rxTimer
            && r.device.pendingRx == d.pendingRx && r.device.faces == d.faces
    decreases |es|
  {
    if es == [] {
    } else {
      var r := Step(c, d, es[0]);
      StillReceiving(c, d, tr, es[0]);
      ReceivingThroughout(c, r.device, tr + r.trace, es[1..]);
    }
  }

  /** What the end of an undisturbed reception adds: the frame, to the face its sender already
      has or a new one, if it is addressed to the device. */
  function Delivery<P>(c: Config, d: Device<P>, p: P, dst: Mac, src: Mac, newFace: FaceId): seq<Action<P>> {
    if dst == c.mac || dst == 0xffff
    then [Dispatched(p, dst, if src in d.faces then d.faces[src] else newFace), Ended(dst, src)]
    else [Ended(dst, src)]
  }

  lemma EndsDelivered<P>(c: Config, d: Device<P>, p: P, dst: Mac, src: Mac, newFace: FaceId)
    requires d.state == Rx && d.pendingRx == Some(p) && d.rxTimer
    ensures var r := Step(c, d, RxExpires(dst, src, newFace));
            && r.Stepped? && r.trace == Delivery(c, d, p, dst, src, newFace)
            && r.device.state == Idle && !r.device.rxTimer
            && r.device.faces == if dst == c.mac || dst == 0xffff
                                 then d.faces[src := if src in d.faces then d.faces[src] else newFace] else d.faces
  {
  }

  /** A frame that reaches an idle device while no other arrives is dispatched when its
      reception ends, if it is addressed to the device, and only then, whatever is sent and
      however often the channel is assessed in between. */
  lemma LoneFrameIsDispatched<P>(c: Config, d: Device<P>, tr: seq<Action<P>>, p: P, between: seq<Event<P>>,
                                 dst: Mac, src: Mac, newFace: FaceId)
    requires Inv(c, d, tr) && d.state == Idle && NothingHeard(between) && Possible(c, d, [Arrive(p)] + between)
    ensures Possible(c, d, ([Arrive(p)] + between) + [RxExpires(dst, src, newFace)])
    ensures var es := ([Arrive(p)] + between) + [RxExpires(dst, src, newFace)];
            var before, after := Run(c, d, tr, [Arrive(p)] + between), Run(c, d, tr, es);
            && before.Stepped? && after.Stepped?
            && after.trace == before.trace + Delivery(c, d, p, dst, src, newFace)
            && after.device.state == Idle
            && after.device.faces == if dst == c.mac || dst == 0xffff
                                     then d.faces[src := if src in d.faces then d.faces[src] else newFace]
                                     else d.faces
  {
    var first := Step(c, d, Arrive(p));
    StepKeeps(c, d, tr, Arrive(p));
    assert ([Arrive(p)] + between)[1..] == between;
    ReceivingThroughout(c, first.device, tr + first.trace, between);
    var before := Run(c, d, tr, [Arrive(p)] + between);
    EndsDelivered(c, before.device, p, dst, src, newFace);
    RunThenStep(c, d, tr, [Arrive(p)] + between, RxExpires(dst, src, newFace));
  }
}
