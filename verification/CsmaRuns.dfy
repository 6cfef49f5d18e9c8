/** What holds of the link device on every run, whatever the interleaving of upper-layer
    sends, frame arrivals and timer expiries. */
module CsmaRuns {
  import opened Ndn
  import opened CsmaDevice
  import opened Subsequences

  // ---- The invariant ------------------------------------------------------------------

  function ExponentAt(nb: int): int {
    if MIN_BE + nb > MAX_BE then MAX_BE else MIN_BE + nb
  }

  predicate BackoffInRange(w: Csma) {
    0 <= w.NB <= MAX_CSMA_BACKOFFS && w.BE == ExponentAt(w.NB)
    && w.wait <= (Slots(w.BE) - 1) * BACKOFF_PERIOD
  }

  /** A pending csma wait is a transmission in progress or a backoff of the current attempt;
      an accepted send can turn the former into a first backoff. */
  predicate WaitMatchesState(state: PhyState, w: Csma) {
    if state == Tx then w.NB == w.BE == -1 || (w.NB == 0 && BackoffInRange(w))
    else BackoffInRange(w)
  }

  ghost predicate Safe<P>(c: Config, d: Device<P>) {
    && (d.queue != [] <==> d.csmaTimer.Some?)
    && (d.rxTimer <==> d.state == Rx || d.state == RxCollide)
    && d.state != Sleep && d.state != Failure
    && (d.state == Tx ==> d.queue != [])
    && |d.queue| <= c.limit
    && (d.state == Rx ==> d.pendingRx.Some?)
    && (d.csmaTimer.Some? ==> WaitMatchesState(d.state, d.csmaTimer.value))
  }

  function InFlight<P>(d: Device<P>): seq<P> {
    if d.state == Tx && d.queue != [] then [d.queue[0]] else []
  }

  ghost predicate AirMatches<P>(d: Device<P>, onAir: seq<Action<P>>) {
    match d.state
    case Rx => d.pendingRx.Some? && onAir == [Began(d.pendingRx.value, Idle)]
    case RxCollide => |onAir| >= 2
    case _ => onAir == []
  }

  ghost predicate Accounted<P>(d: Device<P>, s: Summary<P>) {
    && s.accepted == s.retired + d.queue
    && s.posted == s.completed + InFlight(d)
    && (d.csmaTimer.Some? && d.state != Tx ==> s.busyInARow == d.csmaTimer.value.NB)
    && !s.delivering
    && AirMatches(d, s.onAir)
  }

  ghost predicate Inv<P>(c: Config, d: Device<P>, tr: seq<Action<P>>) {
    Safe(c, d) && Accounted(d, Sum(tr)) && Justified(c, tr)
  }

  // ---- Several actions at once --------------------------------------------------------

  function NoteAll<P>(s: Summary<P>, acts: seq<Action<P>>): Summary<P>
    decreases |acts|
  {
    if acts == [] then s else NoteAll(Note(s, acts[0]), acts[1..])
  }

  ghost predicate JustifiesAll<P>(c: Config, s: Summary<P>, acts: seq<Action<P>>)
    decreases |acts|
  {
    acts != [] ==> Justifies(c, s, acts[0]) && JustifiesAll(c, Note(s, acts[0]), acts[1..])
  }

  lemma First<P>(c: Config, s: Summary<P>, a: Action<P>, rest: seq<Action<P>>)
    ensures NoteAll(s, [a] + rest) == NoteAll(Note(s, a), rest)
    ensures JustifiesAll(c, s, [a] + rest) <==> Justifies(c, s, a) && JustifiesAll(c, Note(s, a), rest)
  {
    assert ([a] + rest)[1..] == rest;
  }

  lemma Two<P>(c: Config, s: Summary<P>, a: Action<P>, b: Action<P>)
    ensures NoteAll(s, [a, b]) == Note(Note(s, a), b)
    ensures JustifiesAll(c, s, [a, b]) <==> Justifies(c, s, a) && Justifies(c, Note(s, a), b)
  {
    First(c, s, a, [b]);
    assert [a] + [b] == [a, b];
  }

  lemma ExtendByOne<P>(c: Config, tr: seq<Action<P>>, a: Action<P>)
    requires Justified(c, tr) && Justifies(c, Sum(tr), a)
    ensures Justified(c, tr + [a]) && Sum(tr + [a]) == Note(Sum(tr), a)
  {
    var tr' := tr + [a];
    assert tr'[..|tr|] == tr;
    forall i: nat | i < |tr'| ensures JustifiedAt(c, tr', i) {
      if i < |tr| {
        assert tr'[..i] == tr[..i];
        assert JustifiedAt(c, tr, i);
      }
    }
  }

  lemma {:induction false} Extend<P>(c: Config, tr: seq<Action<P>>, acts: seq<Action<P>>)
    requires Justified(c, tr) && JustifiesAll(c, Sum(tr), acts)
    ensures Justified(c, tr + acts) && Sum(tr + acts) == NoteAll(Sum(tr), acts)
    decreases |acts|
  {
    if acts == [] {
      assert tr + acts == tr;
    } else {
      ExtendByOne(c, tr, acts[0]);
      Extend(c, tr + [acts[0]], acts[1..]);
      assert (tr + [acts[0]]) + acts[1..] == tr + acts;
    }
  }

  // ---- Every step keeps the invariant -------------------------------------------------

  /** The step succeeds, its actions are justified, and the invariant holds after it. */
  ghost predicate Kept<P>(c: Config, s: Summary<P>, r: Result<P>) {
    r.Stepped? && Safe(c, r.device) && JustifiesAll(c, s, r.trace) && Accounted(r.device, NoteAll(s, r.trace))
  }

  lemma WaitInRange(draw: nat, be: int)
    ensures Wait(draw, be) <= (Slots(be) - 1) * BACKOFF_PERIOD
  {
    SlotsPositive(be);
  }

  lemma StartRxKeeps<P>(c: Config, d: Device<P>, s: Summary<P>, frame: P)
    requires Safe(c, d) && Accounted(d, s)
    ensures Kept(c, s, StartRx(d, frame))
  {
    First(c, s, StartRx(d, frame).trace[0], []);
  }

  lemma PostRxKeeps<P>(c: Config, d: Device<P>, s: Summary<P>, dst: Mac, src: Mac, newFace: FaceId)
    requires Safe(c, d) && Accounted(d, s) && d.rxTimer
    ensures Kept(c, s, PostRx(c, d, dst, src, newFace))
  {
    var acts := PostRx(c, d, dst, src, newFace).trace;
    if |acts| == 2 {
      Two(c, s, acts[0], acts[1]);
    }
  }

  lemma StartTxKeeps<P>(c: Config, d: Device<P>, s: Summary<P>, frame: P, length: nat, draw: nat)
    requires Safe(c, d) && Accounted(d, s)
    ensures Kept(c, s, StartTx(c, d, frame, length, draw))
  {
    var acts := StartTx(c, d, frame, length, draw).trace;
    WaitInRange(draw, MIN_BE);
    if |acts| == 2 {
      Two(c, s, acts[0], acts[1]);
    }
  }

  /** The head leaves with action `gone`. */
  lemma NextKeeps<P>(c: Config, d: Device<P>, s: Summary<P>, gone: Action<P>, draw: nat)
    requires d.queue != [] && (gone == Completed(d.queue[0]) || gone == GaveUp(d.queue[0]))
    requires d.state == Idle || d.state == Rx || d.state == RxCollide
    requires (d.rxTimer <==> d.state != Idle) && |d.queue| <= c.limit && AirMatches(d, s.onAir)
    requires s.accepted == s.retired + d.queue && !s.delivering
    requires s.posted == s.completed + (if gone.Completed? then [gone.frame] else [])
    requires Justifies(c, s, gone)
    ensures Kept(c, s, Next(d, [gone], draw))
  {
    var r := Next(d, [gone], draw);
    var s' := Note(s, gone);
    assert d.queue == [d.queue[0]] + d.queue[1..];
    assert s'.accepted == s'.retired + d.queue[1..];
    WaitInRange(draw, MIN_BE);
    if |d.queue| == 1 {
      First(c, s, gone, []);
    } else {
      Two(c, s, gone, r.trace[1]);
    }
  }

  lemma ChannelBusyKeeps<P>(c: Config, d: Device<P>, s: Summary<P>, draw: nat)
    requires Safe(c, d) && Accounted(d, s) && d.csmaTimer.Some? && (d.state == Rx || d.state == RxCollide)
    ensures Kept(c, s, ChannelBusy(d, d.csmaTimer.value.NB + 1, d.csmaTimer.value.BE, draw))
  {
    var nb, be := d.csmaTimer.value.NB + 1, d.csmaTimer.value.BE;
    var r := ChannelBusy(d, nb, be, draw);
    if nb > MAX_CSMA_BACKOFFS {
      var gone := GaveUp(d.queue[0]);
      var rest := Next(d, [gone], draw).trace;
      NextKeeps(c, d, Note(s, Busy), gone, draw);
      First(c, s, Busy, rest);
      assert r.trace == [Busy] + rest;
    } else {
      WaitInRange(draw, r.device.csmaTimer.value.BE);
      Two(c, s, Busy, r.trace[1]);
    }
  }

  lemma DoCsmaKeeps<P>(c: Config, d: Device<P>, s: Summary<P>, draw: nat, frameTime: nat)
    requires Safe(c, d) && Accounted(d, s) && d.csmaTimer.Some?
    ensures Kept(c, s, DoCsma(d, draw, frameTime))
  {
    match d.state
    case Idle => First(c, s, Posted(d.queue[0]), []);
    case Tx => NextKeeps(c, d.(state := Idle), s, Completed(d.queue[0]), draw);
    case _ => ChannelBusyKeeps(c, d, s, draw);
  }

  lemma StepKeeps<P>(c: Config, d: Device<P>, tr: seq<Action<P>>, e: Event<P>)
    requires Inv(c, d, tr) && Enabled(d, e)
    ensures Kept(c, Sum(tr), Step(c, d, e))
    ensures Inv(c, Step(c, d, e).device, tr + Step(c, d, e).trace)
  {
    match e {
      case Arrive(frame) => StartRxKeeps(c, d, Sum(tr), frame);
      case RxExpires(dst, src, newFace) => PostRxKeeps(c, d, Sum(tr), dst, src, newFace);
      case Send(frame, length, draw) => StartTxKeeps(c, d, Sum(tr), frame, length, draw);
      case CsmaExpires(draw, frameTime) => DoCsmaKeeps(c, d, Sum(tr), draw, frameTime);
    }
    Extend(c, tr, Step(c, d, e).trace);
  }

  lemma {:induction false} RunKeeps<P>(c: Config, d: Device<P>, tr: seq<Action<P>>, es: seq<Event<P>>)
    requires Inv(c, d, tr) && Possible(c, d, es)
    ensures Run(c, d, tr, es).Stepped? && Inv(c, Run(c, d, tr, es).device, Run(c, d, tr, es).trace)
    decreases |es|
  {
    if es == [] {
    } else {
      StepKeeps(c, d, tr, es[0]);
      RunKeeps(c, Step(c, d, es[0]).device, tr + Step(c, d, es[0]).trace, es[1..]);
    }
  }

  lemma {:induction false} RunThenStep<P>(c: Config, d: Device<P>, tr: seq<Action<P>>, es: seq<Event<P>>, e: Event<P>)
    requires Possible(c, d, es) && Run(c, d, tr, es).Stepped?
    requires Enabled(Run(c, d, tr, es).device, e) && Step(c, Run(c, d, tr, es).device, e).Stepped?
    ensures Possible(c, d, es + [e])
    ensures var before := Run(c, d, tr, es);
            var r := Step(c, before.device, e);
            Run(c, d, tr, es + [e]) == Stepped(r.device, before.trace + r.trace)
    decreases |es|
  {
    if es == [] {
      assert es + [e] == [e] && [e][1..] == [];
      assert Possible(c, Step(c, d, e).device, []);
    } else {
      assert (es + [e])[0] == es[0] && (es + [e])[1..] == es[1..] + [e];
      var r := Step(c, d, es[0]);
      RunThenStep(c, r.device, tr + r.trace, es[1..], e);
    }
  }

  // ---- Safety over whole runs ---------------------------------------------------------

  lemma StartHolds<P>(c: Config, faces: map<Mac, FaceId>)
    ensures Inv(c, Start<P>(faces), [])
  {
  }

  /** No interleaving reaches the assertion, an illegal-state exception or a missing frame;
      timers, state and queue stay in step. */
  lemma DeviceSafety<P>(c: Config, faces: map<Mac, FaceId>, es: seq<Event<P>>)
    requires Possible(c, Start(faces), es)
    ensures var r := Run(c, Start(faces), [], es);
            r.Stepped? && Safe(c, r.device)
  {
    StartHolds<P>(c, faces);
    RunKeeps(c, Start(faces), [], es);
  }

  lemma {:induction false} CompletedInOrder<P>(tr: seq<Action<P>>)
    ensures IsSubsequence(Sum(tr).completed, Sum(tr).retired)
  {
    if tr == [] {
      assert Sum(tr).completed == [];
    } else {
      var before, last := tr[..|tr| - 1], tr[|tr| - 1];
      CompletedInOrder(before);
      if last.Completed? || last.GaveUp? {
        SubsequenceGrows(Sum(before).completed, Sum(before).retired, last.frame);
      }
    }
  }

  lemma PostedInOrder<P>(d: Device<P>, s: Summary<P>)
    requires Accounted(d, s) && IsSubsequence(s.completed, s.retired)
    ensures IsSubsequence(s.posted, s.accepted)
  {
    if d.state == Tx && d.queue != [] {
      SubsequenceGrows(s.completed, s.retired, d.queue[0]);
      SubsequenceOfMore(s.posted, s.retired + [d.queue[0]], d.queue[1..]);
      assert s.accepted == (s.retired + [d.queue[0]]) + d.queue[1..];
    } else {
      SubsequenceOfMore(s.completed, s.retired, d.queue);
      assert s.posted == s.completed;
    }
  }

  /** Entries leave in acceptance order, none is lost, and exactly the completed ones and
      the one on the air have been handed to the link, once each and in acceptance order. */
  lemma FifoConservation<P>(c: Config, faces: map<Mac, FaceId>, es: seq<Event<P>>)
    requires Possible(c, Start(faces), es)
    ensures var r := Run(c, Start(faces), [], es);
            r.Stepped?
            && Sum(r.trace).accepted == Sum(r.trace).retired + r.device.queue
            && Sum(r.trace).posted == Sum(r.trace).completed
               + InFlight(r.device)
            && IsSubsequence(Sum(r.trace).completed, Sum(r.trace).retired)
            && IsSubsequence(Sum(r.trace).posted, Sum(r.trace).accepted)
  {
    StartHolds<P>(c, faces);
    RunKeeps(c, Start(faces), [], es);
    var r := Run(c, Start(faces), [], es);
    CompletedInOrder(r.trace);
    PostedInOrder(r.device, Sum(r.trace));
  }

  lemma {:induction false} SumLast<P>(tr: seq<Action<P>>)
    requires tr != []
    ensures Sum(tr) == Note(Sum(tr[..|tr| - 1]), tr[|tr| - 1])
    ensures Sum(tr).delivering <==> tr[|tr| - 1].Dispatched?
  {
  }

  /** The reception that is alone on the air began at `j`, and none began or ended since. */
  ghost predicate AloneSince<P>(tr: seq<Action<P>>, j: nat, a: Action<P>) {
    j < |tr| && tr[j] == a && forall k :: j < k < |tr| ==> !tr[k].Began? && !tr[k].Ended?
  }

  lemma {:induction false} AloneOnAir<P>(tr: seq<Action<P>>, a: Action<P>) returns (j: nat)
    requires Sum(tr).onAir == [a]
    ensures AloneSince(tr, j, a)
  {
    var before, last := tr[..|tr| - 1], tr[|tr| - 1];
    SumLast(tr);
    if last.Began? {
      assert Sum(tr).onAir == Sum(before).onAir + [last];
      assert Sum(tr).onAir[|Sum(before).onAir|] == last;
      j := |before|;
    } else {
      j := AloneOnAir(before, a);
    }
  }

  /** On every run, a dispatched frame is the only one whose reception began between the
      device's last idle moment and the expiry of the receive timer, and it is addressed to
      the device. */
  lemma CollisionSafety<P>(c: Config, faces: map<Mac, FaceId>, es: seq<Event<P>>, i: nat) returns (j: nat)
    requires Possible(c, Start(faces), es)
    requires var r := Run(c, Start(faces), [], es); r.Stepped? && i < |r.trace| && r.trace[i].Dispatched?
    ensures var tr := Run(c, Start(faces), [], es).trace;
            AloneSince(tr[..i], j, Began(tr[i].frame, Idle)) && Addressed(c, tr[i].dst)
  {
    StartHolds<P>(c, faces);
    RunKeeps(c, Start(faces), [], es);
    var tr := Run(c, Start(faces), [], es).trace;
    assert JustifiedAt(c, tr, i);
    j := AloneOnAir(tr[..i], Began(tr[i].frame, Idle));
  }

  /** Conversely, when a reception ends, the frame has just been dispatched if it was alone
      and addressed to the device, and only then. */
  lemma ReceptionOutcome<P>(c: Config, faces: map<Mac, FaceId>, es: seq<Event<P>>, i: nat)
    requires Possible(c, Start(faces), es)
    requires var r := Run(c, Start(faces), [], es); r.Stepped? && i < |r.trace| && r.trace[i].Ended?
    ensures var tr := Run(c, Start(faces), [], es).trace;
            (i > 0 && tr[i - 1].Dispatched?) <==> (|Sum(tr[..i]).onAir| == 1 && Addressed(c, tr[i].dst))
  {
    StartHolds<P>(c, faces);
    RunKeeps(c, Start(faces), [], es);
    var tr := Run(c, Start(faces), [], es).trace;
    assert JustifiedAt(c, tr, i);
    if i > 0 { SumLast(tr[..i]); }
  }

  function BusyCount<P>(acts: seq<Action<P>>): nat {
    if acts == [] then 0 else BusyCount(acts[..|acts| - 1]) + (if acts[|acts| - 1].Busy? then 1 else 0)
  }

  /** Part of one channel-access attempt: nothing was accepted, sent or retired. */
  ghost predicate OneAttempt<P>(acts: seq<Action<P>>) {
    forall a :: a in acts ==> !a.Accepted? && !a.Posted? && !a.Completed? && !a.GaveUp?
  }

  lemma BusyCountMore<P>(acts: seq<Action<P>>, a: Action<P>)
    ensures BusyCount(acts + [a]) == BusyCount(acts) + (if a.Busy? then 1 else 0)
  {
    assert (acts + [a])[..|acts|] == acts;
  }

  lemma {:induction false} BusyAttempt<P>(tr: seq<Action<P>>) returns (j: nat)
    ensures j <= |tr| && OneAttempt(tr[j..]) && BusyCount(tr[j..]) == Sum(tr).busyInARow
  {
    j := |tr|;
    if tr == [] {
    } else {
      var before, last := tr[..|tr| - 1], tr[|tr| - 1];
      SumLast(tr);
      if !last.Accepted? && !last.Posted? && !last.Completed? && !last.GaveUp? {
        j := BusyAttempt(before);
        BusyCountMore(before[j..], last);
        assert tr[j..] == before[j..] + [last];
      }
    }
  }

  /** An entry is dropped only right after one uninterrupted attempt in which the channel
      was found busy five times. */
  lemma GivesUpOnlyAfterFive<P>(c: Config, faces: map<Mac, FaceId>, es: seq<Event<P>>, i: nat) returns (j: nat)
    requires Possible(c, Start(faces), es)
    requires var r := Run(c, Start(faces), [], es); r.Stepped? && i < |r.trace| && r.trace[i].GaveUp?
    ensures var tr := Run(c, Start(faces), [], es).trace;
            j <= i && OneAttempt(tr[..i][j..]) && BusyCount(tr[..i][j..]) == MAX_CSMA_BACKOFFS + 1
  {
    StartHolds<P>(c, faces);
    RunKeeps(c, Start(faces), [], es);
    var tr := Run(c, Start(faces), [], es).trace;
    assert JustifiedAt(c, tr, i);
    j := BusyAttempt(tr[..i]);
  }
}
