/** The link device as a state machine over its radio state, its transmit queue and its two
    one-shot timers: unslotted CSMA-CA as in section 7.5.1.4 of IEEE 802.15.4-2006.

    `P` identifies a frame. A timer is pending or not; arming a pending timer discards the
    earlier wait, so an expiry can only be the latest one. */
module CsmaDevice {
  import opened Ndn

  type Mac = nat

  const SYMBOL_TIME: nat := 16
  const BACKOFF_PERIOD: nat := 20 * SYMBOL_TIME
  const MIN_BE: int := 3
  const MAX_BE: int := 5
  const MAX_CSMA_BACKOFFS: int := 4
  const BROADCAST: Mac := 0xffff

  datatype PhyState = Idle | Tx | Rx | RxCollide | Sleep | Failure

  /** A pending csma wait: the arguments bound to its handler, and its length in us. */
  datatype Csma = Csma(NB: int, BE: int, wait: nat)

  datatype Config = Config(mac: Mac, limit: nat, mtu: nat)

  datatype Device<P> = Device(
    state: PhyState,
    pendingRx: Option<P>,
    rxTimer: bool,
    queue: seq<P>,
    csmaTimer: Option<Csma>,
    faces: map<Mac, FaceId>)

  /** `draw` stands for the random engine, `frameTime` for the air time of the head frame,
      `dst` and `src` for the addresses the frame carries when the timer expires. */
  datatype Event<P> =
    | Arrive(frame: P)
    | RxExpires(dst: Mac, src: Mac, newFace: FaceId)
    | Send(frame: P, length: nat, draw: nat)
    | CsmaExpires(draw: nat, frameTime: nat)

  /** What a step does that others can see, in order. */
  datatype Action<P> =
    | Accepted(frame: P)
    | Refused(frame: P)
    | Backoff(wait: nat)
    | Busy
    | Posted(frame: P)
    | Completed(frame: P)
    | GaveUp(frame: P)
    | Began(frame: P, prior: PhyState)
    | Missed(frame: P)
    | Dispatched(frame: P, dst: Mac, face: FaceId)
    | Ended(dst: Mac, src: Mac)

  datatype Result<P> =
    | Stepped(device: Device<P>, trace: seq<Action<P>>)
    | IllegalState
    | AssertionFailed
    | NoFrame

  function Start<P>(faces: map<Mac, FaceId>): Device<P> {
    Device(Idle, None, false, [], None, faces)
  }

  /** The number of values a backoff exponent allows. */
  function Slots(be: int): nat {
    if be <= 0 then 1 else 2 * Slots(be - 1)
  }

  /** The uniform draw from 0 to 2^BE - 1, in backoff periods. */
  function Wait(draw: nat, be: int): nat {
    SlotsPositive(be);
    (draw % Slots(be)) * BACKOFF_PERIOD
  }

  lemma {:induction false} SlotsPositive(be: int)
    ensures Slots(be) > 0
  {
    if be > 0 { SlotsPositive(be - 1); }
  }

  function FirstBackoff(draw: nat): Csma {
    Csma(0, MIN_BE, Wait(draw, MIN_BE))
  }

  function StartRx<P>(d: Device<P>, frame: P): Result<P> {
    match d.state
    case Idle => Stepped(d.(state := Rx, pendingRx := Some(frame), rxTimer := true), [Began(frame, d.state)])
    case Rx => Stepped(d.(state := RxCollide, pendingRx := Some(frame), rxTimer := true), [Began(frame, d.state)])
    case RxCollide => Stepped(d.(pendingRx := Some(frame), rxTimer := true), [Began(frame, d.state)])
    case Tx => Stepped(d, [Missed(frame)])
    case _ => IllegalState
  }

  predicate Addressed(c: Config, dst: Mac) {
    dst == c.mac || dst == BROADCAST
  }

  function PostRx<P>(c: Config, d: Device<P>, dst: Mac, src: Mac, newFace: FaceId): Result<P> {
    var quiet := d.(state := Idle, rxTimer := false);
    match d.state
    case Rx =>
      if d.pendingRx.None? then NoFrame
      else if Addressed(c, dst) then
        var face := if src in d.faces then d.faces[src] else newFace;
        Stepped(quiet.(faces := d.faces[src := face]), [Dispatched(d.pendingRx.value, dst, face), Ended(dst, src)])
      else Stepped(quiet, [Ended(dst, src)])
    case RxCollide => Stepped(quiet, [Ended(dst, src)])
    case Idle => Stepped(quiet, [Ended(dst, src)])
    case _ => IllegalState
  }

  function StartTx<P>(c: Config, d: Device<P>, frame: P, length: nat, draw: nat): Result<P> {
    if length > c.mtu || |d.queue| >= c.limit then Stepped(d, [Refused(frame)])
    else
      var csma := FirstBackoff(draw);
      Stepped(d.(queue := d.queue + [frame], csmaTimer := Some(csma)), [Accepted(frame), Backoff(csma.wait)])
  }

  /** The head leaves the queue; the next entry, if any, starts its own backoff. */
  function Next<P>(d: Device<P>, why: seq<Action<P>>, draw: nat): Result<P>
    requires d.queue != []
  {
    var d' := d.(queue := d.queue[1..], csmaTimer := None);
    if d'.queue == [] then Stepped(d', why)
    else Stepped(d'.(csmaTimer := Some(FirstBackoff(draw))), why + [Backoff(FirstBackoff(draw).wait)])
  }

  function DoCsma<P>(d: Device<P>, draw: nat, frameTime: nat): Result<P>
    requires d.csmaTimer.Some?
  {
    var Csma(nb, be, _) := d.csmaTimer.value;
    if d.queue == [] then AssertionFailed
    else
      var head := d.queue[0];
      match d.state
      case Idle => Stepped(d.(state := Tx, csmaTimer := Some(Csma(-1, -1, frameTime))), [Posted(head)])
      case Tx => Next(d.(state := Idle), [Completed(head)], draw)
      case Rx => ChannelBusy(d, nb + 1, be, draw)
      case RxCollide => ChannelBusy(d, nb + 1, be, draw)
      case _ => IllegalState
  }

  function ChannelBusy<P>(d: Device<P>, nb: int, be: int, draw: nat): Result<P>
    requires d.queue != []
  {
    if nb > MAX_CSMA_BACKOFFS then Next(d, [Busy, GaveUp(d.queue[0])], draw)
    else
      var be' := if be + 1 > MAX_BE then MAX_BE else be + 1;
      var csma := Csma(nb, be', Wait(draw, be'));
      Stepped(d.(csmaTimer := Some(csma)), [Busy, Backoff(csma.wait)])
  }

  /** An expiry happens only for a pending timer; calls from outside can always happen. */
  predicate Enabled<P>(d: Device<P>, e: Event<P>) {
    match e
    case RxExpires(_, _, _) => d.rxTimer
    case CsmaExpires(_, _) => d.csmaTimer.Some?
    case _ => true
  }

  function Step<P>(c: Config, d: Device<P>, e: Event<P>): Result<P>
    requires Enabled(d, e)
  {
    match e
    case Arrive(frame) => StartRx(d, frame)
    case RxExpires(dst, src, newFace) => PostRx(c, d, dst, src, newFace)
    case Send(frame, length, draw) => StartTx(c, d, frame, length, draw)
    case CsmaExpires(draw, frameTime) => DoCsma(d, draw, frameTime)
  }

  /** A run in which every timer event has its timer pending. */
  predicate Possible<P>(c: Config, d: Device<P>, es: seq<Event<P>>)
    decreases |es|
  {
    es != [] ==>
      Enabled(d, es[0])
      && (Step(c, d, es[0]).Stepped? ==> Possible(c, Step(c, d, es[0]).device, es[1..]))
  }

  /** The run that continues from device `d` after trace `tr`; a fault stops it. */
  function Run<P>(c: Config, d: Device<P>, tr: seq<Action<P>>, es: seq<Event<P>>): Result<P>
    requires Possible(c, d, es)
    decreases |es|
  {
    if es == [] then Stepped(d, tr)
    else
      match Step(c, d, es[0])
      case Stepped(d', acts) => Run(c, d', tr + acts, es[1..])
      case fault => fault
  }

  // ---- What a trace says --------------------------------------------------------------

  /** What a trace adds up to. */
  datatype Summary<P> = Summary(
    accepted: seq<P>,
    retired: seq<P>,           // entries that left the queue, in that order
    posted: seq<P>,            // handed to `Link::Transmit`
    completed: seq<P>,         // left the queue because their transmission ended
    onAir: seq<Action<P>>,     // receptions that began since the last one ended
    delivering: bool,          // the last action dispatched a frame
    busyInARow: nat,           // busy channel assessments of the current attempt
    waited: nat)               // backoff time armed so far, in us

  function Nothing<P>(): Summary<P> {
    Summary([], [], [], [], [], false, 0, 0)
  }

  function Note<P>(s: Summary<P>, a: Action<P>): Summary<P> {
    var s := s.(delivering := a.Dispatched?);
    match a
    case Accepted(p) => s.(accepted := s.accepted + [p], busyInARow := 0)
    case Backoff(w) => s.(waited := s.waited + w)
    case Busy => s.(busyInARow := s.busyInARow + 1)
    case Posted(p) => s.(posted := s.posted + [p], busyInARow := 0)
    case Completed(p) => s.(completed := s.completed + [p], retired := s.retired + [p], busyInARow := 0)
    case GaveUp(p) => s.(retired := s.retired + [p], busyInARow := 0)
    case Began(_, _) => s.(onAir := s.onAir + [a])
    case Ended(_, _) => s.(onAir := [])
    case _ => s
  }

  function Sum<P>(tr: seq<Action<P>>): Summary<P> {
    if tr == [] then Nothing() else Note(Sum(tr[..|tr| - 1]), tr[|tr| - 1])
  }

  /** Handed to the link, and not yet retired as completed. */
  predicate OnTheAir<P>(s: Summary<P>) {
    |s.posted| > |s.completed|
  }

  /** An action fits what happened before it: a dispatched frame is alone on the air since
      the device was last idle, and addressed to the device; a reception that ends has been
      dispatched exactly when that is so; an entry is given up only after the channel was
      found busy five times in a row; an arriving frame is missed exactly while the device
      transmits; and the channel is found busy exactly during a reception. */
  ghost predicate Justifies<P>(c: Config, s: Summary<P>, a: Action<P>) {
    match a
    case Dispatched(p, dst, _) => s.onAir == [Began(p, Idle)] && Addressed(c, dst)
    case Ended(dst, _) => s.delivering <==> |s.onAir| == 1 && Addressed(c, dst)
    case GaveUp(_) => s.busyInARow == MAX_CSMA_BACKOFFS + 1
    case Began(_, _) => !s.delivering && !OnTheAir(s)
    case Missed(_) => !s.delivering && OnTheAir(s)
    case Busy => !s.delivering && s.onAir != []
    case Posted(_) => !s.delivering && s.onAir == [] && !OnTheAir(s)
    case Completed(_) => !s.delivering && OnTheAir(s)
    case _ => !s.delivering
  }

  ghost predicate JustifiedAt<P>(c: Config, tr: seq<Action<P>>, i: nat)
    requires i < |tr|
  {
    Justifies(c, Sum(tr[..i]), tr[i])
  }

  ghost predicate Justified<P>(c: Config, tr: seq<Action<P>>) {
    forall i: nat :: i < |tr| ==> JustifiedAt(c, tr, i)
  }

  function Expiries<P>(es: seq<Event<P>>): nat
    decreases |es|
  {
    if es == [] then 0 else (if es[0].CsmaExpires? then 1 else 0) + Expiries(es[1..])
  }
}
