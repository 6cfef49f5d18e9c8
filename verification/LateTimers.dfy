/** The link device when a timer is re-armed too late: the discarded wait had already expired,
    its handler is queued, and still runs.

    One thread runs one queue. A wait that expires is queued behind what is queued already, so
    the handler of a discarded wait runs before any wait of its timer armed after it can
    expire, and no timer has more than one discarded wait in the queue. */
module LateTimers {
  import opened Ndn
  import opened CsmaDevice

  /** A device, whether the handler of a discarded receive wait is queued, and the arguments
      of the discarded csma wait whose handler is queued, if there is one. */
  datatype Loop<P> = Loop(device: Device<P>, lateRx: bool, lateCsma: Option<Csma>)

  /** `tooLate`: the wait that the event discards has expired, and its handler is queued. */
  datatype Firing<P> =
    | OnTime(event: Event<P>, tooLate: bool)
    | LateReceive(dst: Mac, src: Mac, newFace: FaceId)
    | LateCsma(draw: nat, frameTime: nat)

  function Begin<P>(faces: map<Mac, FaceId>): Loop<P> {
    Loop(Start(faces), false, None)
  }

  predicate DiscardsReceive<P>(d: Device<P>, e: Event<P>) {
    e.Arrive? && d.state != Tx && d.rxTimer
  }

  predicate DiscardsCsma<P>(c: Config, d: Device<P>, e: Event<P>) {
    e.Send? && e.length <= c.mtu && |d.queue| < c.limit && d.csmaTimer.Some?
  }

  /** A pending wait expires only after the handlers queued before it have run. */
  predicate InOrder<P>(l: Loop<P>, e: Event<P>) {
    (e.RxExpires? ==> !l.lateRx) && (e.CsmaExpires? ==> l.lateCsma.None?)
  }

  predicate CanFire<P>(c: Config, l: Loop<P>, f: Firing<P>) {
    match f
    case OnTime(e, tooLate) =>
      && Enabled(l.device, e) && InOrder(l, e)
      && (tooLate ==> (DiscardsReceive(l.device, e) && !l.lateRx)
                      || (DiscardsCsma(c, l.device, e) && l.lateCsma.None?))
    case LateReceive(_, _, _) => l.lateRx
    case LateCsma(_, _) => l.lateCsma.Some?
  }

  /** A late handler is the same code. It leaves the pending wait of its timer alone unless
      it arms the timer itself. */
  function Handled<P>(c: Config, l: Loop<P>, f: Firing<P>): Result<P>
    requires CanFire(c, l, f)
  {
    match f
    case OnTime(e, _) => Step(c, l.device, e)
    case LateReceive(dst, src, newFace) =>
      var r := PostRx(c, l.device, dst, src, newFace);
      if r.Stepped? then Stepped(r.device.(rxTimer := l.device.rxTimer), r.trace) else r
    case LateCsma(draw, frameTime) =>
      var r := DoCsma(l.device.(csmaTimer := l.lateCsma), draw, frameTime);
      if r.Stepped? && r.device.csmaTimer.None? then Stepped(r.device.(csmaTimer := l.device.csmaTimer), r.trace)
      else r
  }

  function After<P>(c: Config, l: Loop<P>, f: Firing<P>): Loop<P>
    requires CanFire(c, l, f) && Handled(c, l, f).Stepped?
  {
    var d := Handled(c, l, f).device;
    match f
    case OnTime(e, tooLate) =>
      Loop(d, l.lateRx || (tooLate && e.Arrive?), if tooLate && e.Send? then l.device.csmaTimer else l.lateCsma)
    case LateReceive(_, _, _) => Loop(d, false, l.lateCsma)
    case LateCsma(_, _) => Loop(d, l.lateRx, None)
  }

  predicate CanRun<P>(c: Config, l: Loop<P>, fs: seq<Firing<P>>)
    decreases |fs|
  {
    fs != [] ==>
      CanFire(c, l, fs[0]) && (Handled(c, l, fs[0]).Stepped? ==> CanRun(c, After(c, l, fs[0]), fs[1..]))
  }

  datatype Outcome<P> = Going(loop: Loop<P>, trace: seq<Action<P>>) | Faulted(why: Result<P>)

  function RunLate<P>(c: Config, l: Loop<P>, tr: seq<Action<P>>, fs: seq<Firing<P>>): Outcome<P>
    requires CanRun(c, l, fs)
    decreases |fs|
  {
    if fs == [] then Going(l, tr)
    else
      var r := Handled(c, l, fs[0]);
      if r.Stepped? then RunLate(c, After(c, l, fs[0]), tr + r.trace, fs[1..]) else Faulted(r)
  }

  // ---- What holds even then -------------------------------------------------------------

  predicate Receiving<P>(d: Device<P>) {
    d.state == Rx || d.state == RxCollide
  }

  /** The csma timer is in step with the queue, a queued csma handler finds an entry besides
      the one it may take, and a queued receive handler finds a reception. */
  predicate Ordered<P>(l: Loop<P>) {
    var d := l.device;
    && d.state != Sleep && d.state != Failure
    && (d.state == Rx ==> d.pendingRx.Some?)
    && (d.state == Tx ==> d.queue != [])
    && (d.queue != [] <==> d.csmaTimer.Some?)
    && (Receiving(d) ==> d.rxTimer)
    && (l.lateCsma.Some? ==> |d.queue| >= 2)
    && (l.lateRx ==> Receiving(d))
  }

  /** The receive timer expires while the device sends. */
  predicate Hits<P>(d: Device<P>, f: Firing<P>) {
    f.OnTime? && f.event.RxExpires? && d.state == Tx
  }

  lemma OnTimeFaultsIffHits<P>(c: Config, l: Loop<P>, e: Event<P>, tooLate: bool)
    requires Ordered(l) && CanFire(c, l, OnTime(e, tooLate))
    ensures var f := OnTime(e, tooLate);
            var r := Handled(c, l, f);
            && (r.Stepped? <==> !Hits(l.device, f))
            && (!r.Stepped? ==> r == IllegalState)
            && (r.Stepped? ==> Ordered(After(c, l, f)))
  {
  }

  lemma LateNeverFaults<P>(c: Config, l: Loop<P>, f: Firing<P>)
    requires Ordered(l) && CanFire(c, l, f) && !f.OnTime?
    ensures Handled(c, l, f).Stepped? && Ordered(After(c, l, f))
  {
  }

  /** Only that faults: no late handler throws, and no csma handler fails its assertion. */
  lemma FaultsIffHits<P>(c: Config, l: Loop<P>, f: Firing<P>)
    requires Ordered(l) && CanFire(c, l, f)
    ensures var r := Handled(c, l, f);
            && (r.Stepped? <==> !Hits(l.device, f))
            && (!r.Stepped? ==> r == IllegalState)
            && (r.Stepped? ==> Ordered(After(c, l, f)))
  {
    match f
    case OnTime(e, tooLate) => OnTimeFaultsIffHits(c, l, e, tooLate);
    case _ => LateNeverFaults(c, l, f);
  }

  /** The run comes to a firing that hits. */
  predicate SomeHit<P>(c: Config, l: Loop<P>, fs: seq<Firing<P>>)
    requires CanRun(c, l, fs)
    decreases |fs|
  {
    fs != []
    && (Hits(l.device, fs[0]) || (Handled(c, l, fs[0]).Stepped? && SomeHit(c, After(c, l, fs[0]), fs[1..])))
  }

  lemma {:induction false} FaultsIffSomeHit<P>(c: Config, l: Loop<P>, tr: seq<Action<P>>, fs: seq<Firing<P>>)
    requires Ordered(l) && CanRun(c, l, fs)
    ensures if SomeHit(c, l, fs) then RunLate(c, l, tr, fs) == Faulted(IllegalState)
            else RunLate(c, l, tr, fs).Going? && Ordered(RunLate(c, l, tr, fs).loop)
    decreases |fs|
  {
    if fs == [] {
      assert !SomeHit(c, l, fs);
    } else {
      var r := Handled(c, l, fs[0]);
      FaultsIffHits(c, l, fs[0]);
      if r.Stepped? {
        FaultsIffSomeHit(c, After(c, l, fs[0]), tr + r.trace, fs[1..]);
      }
    }
  }

  /** A run from start-up faults if and only if the receive timer expires while the device
      sends, and then a receive handler throws; no assertion fails on any run. */
  lemma RunFaultsIff<P>(c: Config, faces: map<Mac, FaceId>, fs: seq<Firing<P>>)
    requires CanRun(c, Begin(faces), fs)
    ensures RunLate(c, Begin(faces), [], fs).Faulted? <==> SomeHit(c, Begin(faces), fs)
    ensures RunLate(c, Begin(faces), [], fs) != Faulted(AssertionFailed)
    ensures match RunLate(c, Begin(faces), [], fs)
            case Going(l, _) => Ordered(l)
            case Faulted(why) => why == IllegalState
  {
    FaultsIffSomeHit(c, Begin(faces), [], fs);
  }

  // ---- Which late handlers do harm -------------------------------------------------------

  /** The receive timer is pending exactly during a reception, as it is on every run without
      late handlers. */
  predicate InStep<P>(d: Device<P>) {
    d.rxTimer <==> Receiving(d)
  }

  /** A late receive handler always does harm: it ends the reception whose timer is pending.
      No other handler does. */
  lemma StaysInStepIff<P>(c: Config, l: Loop<P>, f: Firing<P>)
    requires Ordered(l) && InStep(l.device) && CanFire(c, l, f)
    ensures Handled(c, l, f).Stepped?
    ensures InStep(Handled(c, l, f).device) <==> !f.LateReceive?
    ensures f.LateReceive? ==>
              Receiving(l.device) && Handled(c, l, f).device.state == Idle && Handled(c, l, f).device.rxTimer
  {
  }

  /** It takes a late receive handler to make a run fault. */
  lemma {:induction false} HarmlessRunsInStep<P>(c: Config, l: Loop<P>, tr: seq<Action<P>>, fs: seq<Firing<P>>)
    requires Ordered(l) && InStep(l.device) && CanRun(c, l, fs)
    requires forall f :: f in fs ==> !f.LateReceive?
    ensures RunLate(c, l, tr, fs).Going? && InStep(RunLate(c, l, tr, fs).loop.device)
    decreases |fs|
  {
    if fs == [] {
      assert RunLate(c, l, tr, fs) == Going(l, tr);
    } else {
      StaysInStepIff(c, l, fs[0]);
      FaultsIffHits(c, l, fs[0]);
      HarmlessRunsInStep(c, After(c, l, fs[0]), tr + Handled(c, l, fs[0]).trace, fs[1..]);
    }
  }

  // ---- Without late handlers -------------------------------------------------------------

  function Punctual<P>(es: seq<Event<P>>): seq<Firing<P>>
    decreases |es|
  {
    if es == [] then [] else [OnTime(es[0], false)] + Punctual(es[1..])
  }

  /** A run in which every wait is discarded in time is a run of the device with exact
      cancellation. */
  lemma {:induction false} PunctualIsExact<P>(c: Config, l: Loop<P>, tr: seq<Action<P>>, es: seq<Event<P>>)
    requires Possible(c, l.device, es) && !l.lateRx && l.lateCsma.None?
    ensures CanRun(c, l, Punctual(es))
    ensures match RunLate(c, l, tr, Punctual(es))
            case Going(l', tr') => Run(c, l.device, tr, es) == Stepped(l'.device, tr')
            case Faulted(why) => Run(c, l.device, tr, es) == why
    decreases |es|
  {
    if es == [] {
      assert RunLate(c, l, tr, Punctual(es)) == Going(l, tr);
    } else {
      var f := OnTime(es[0], false);
      assert Punctual(es)[0] == f && Punctual(es)[1..] == Punctual(es[1..]);
      if Step(c, l.device, es[0]).Stepped? {
        PunctualIsExact(c, After(c, l, f), tr + Step(c, l.device, es[0]).trace, es[1..]);
      }
    }
  }

  // ---- A run that faults -----------------------------------------------------------------

  lemma FireFirst<P>(c: Config, l: Loop<P>, tr: seq<Action<P>>, f: Firing<P>, rest: seq<Firing<P>>)
    requires CanFire(c, l, f) && Handled(c, l, f).Stepped? && CanRun(c, After(c, l, f), rest)
    ensures CanRun(c, l, [f] + rest)
    ensures RunLate(c, l, tr, [f] + rest) == RunLate(c, After(c, l, f), tr + Handled(c, l, f).trace, rest)
  {
    assert ([f] + rest)[1..] == rest;
  }

  lemma FireLast<P>(c: Config, l: Loop<P>, tr: seq<Action<P>>, f: Firing<P>)
    requires CanFire(c, l, f) && !Handled(c, l, f).Stepped?
    ensures CanRun(c, l, [f]) && RunLate(c, l, tr, [f]) == Faulted(Handled(c, l, f))
  {
  }

  /** A frame collides with one whose receive timer has just expired. The queued handler ends
      the second reception too, the device takes the channel for clear and sends, and the
      second reception's own timer finds it sending. */
  function ThrowingRun<P>(pkt: P, length: nat, a: P, b: P): seq<Firing<P>> {
    [OnTime(Send(pkt, length, 0), false)] + ([OnTime(Arrive(a), false)] + ([OnTime(Arrive(b), true)]
    + ([LateReceive(0, 0, 1)] + ([OnTime(CsmaExpires(0, 1), false)] + [OnTime(RxExpires(0, 0, 1), false)]))))
  }

  /** The fault happens on a run from start-up, for any frames and any packet the device takes. */
  lemma LateHandlerThrows<P>(c: Config, faces: map<Mac, FaceId>, pkt: P, length: nat, a: P, b: P)
    requires c.limit > 0 && length <= c.mtu
    ensures CanRun(c, Begin(faces), ThrowingRun(pkt, length, a, b))
    ensures RunLate(c, Begin(faces), [], ThrowingRun(pkt, length, a, b)) == Faulted(IllegalState)
  {
    var f1, f2, f3 := OnTime(Send(pkt, length, 0), false), OnTime(Arrive(a), false), OnTime(Arrive(b), true);
    var f4: Firing<P>, f5: Firing<P>, f6: Firing<P> :=
      LateReceive(0, 0, 1), OnTime(CsmaExpires(0, 1), false), OnTime(RxExpires(0, 0, 1), false);
    var l0: Loop<P> := Begin(faces);
    var l1 := After(c, l0, f1);
    var l2 := After(c, l1, f2);
    var l3 := After(c, l2, f3);
    var l4 := After(c, l3, f4);
    var l5 := After(c, l4, f5);
    var t1 := [] + Handled(c, l0, f1).trace;
    var t2 := t1 + Handled(c, l1, f2).trace;
    var t3 := t2 + Handled(c, l2, f3).trace;
    var t4 := t3 + Handled(c, l3, f4).trace;
    var t5 := t4 + Handled(c, l4, f5).trace;
    FireLast(c, l5, t5, f6);
    FireFirst(c, l4, t4, f5, [f6]);
    FireFirst(c, l3, t3, f4, [f5] + [f6]);
    FireFirst(c, l2, t2, f3, [f4] + ([f5] + [f6]));
    FireFirst(c, l1, t1, f2, [f3] + ([f4] + ([f5] + [f6])));
    FireFirst(c, l0, [], f1, [f2] + ([f3] + ([f4] + ([f5] + [f6]))));
  }
}
