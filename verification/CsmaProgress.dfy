/** How long the head of the transmit queue can stay there, although every accepted send
    restarts its backoff. */
module CsmaProgress {
  import opened Ndn
  import opened CsmaDevice
  import opened CsmaRuns

  /** The longest channel-access attempt, in us: 7, 15, 31, 31 and 31 backoff periods. */
  const LONGEST_ATTEMPT: nat := 36800

  predicate HeadLeaves<P>(d: Device<P>, e: Event<P>) {
    e.CsmaExpires? && d.csmaTimer.Some?
    && (d.state == Tx
        || ((d.state == Rx || d.state == RxCollide) && d.csmaTimer.value.NB == MAX_CSMA_BACKOFFS))
  }

  /** Csma expiries the head can still sit through. */
  function ExpiriesLeft<P>(c: Config, d: Device<P>): int {
    4 * (c.limit - |d.queue|)
    + (if d.state == Tx then 1 else if d.csmaTimer.Some? then 6 - d.csmaTimer.value.NB else 0)
  }

  /** Backoff time the current attempt can still arm. */
  function AttemptLeft<P>(d: Device<P>): nat {
    if d.state == Tx || d.csmaTimer.None? then 0
    else
      match d.csmaTimer.value.NB
      case 0 => 34560
      case 1 => 29760
      case 2 => 19840
      case 3 => 9920
      case _ => 0
  }

  /** An entry that has just become head, and the wait of its first backoff. */
  predicate FreshHead<P>(d: Device<P>) {
    d.queue != [] && d.state != Tx && d.csmaTimer.Some? && d.csmaTimer.value.NB == 0
  }

  lemma SlotValues()
    ensures Slots(3) == 8 && Slots(4) == 16 && Slots(5) == 32
  {
    assert Slots(1) == 2 && Slots(2) == 4;
  }

  // ---- What one step adds to the retired entries and to the time waited ----------------

  function Gone<P>(acts: seq<Action<P>>): seq<P>
    decreases |acts|
  {
    if acts == [] then []
    else GoneFirst(acts[0]) + Gone(acts[1..])
  }

  function Waits<P>(acts: seq<Action<P>>): nat
    decreases |acts|
  {
    if acts == [] then 0 else (if acts[0].Backoff? then acts[0].wait else 0) + Waits(acts[1..])
  }

  function GoneFirst<P>(a: Action<P>): seq<P> {
    match a
    case Completed(p) => [p]
    case GaveUp(p) => [p]
    case _ => []
  }

  lemma NoteAdds<P>(s: Summary<P>, a: Action<P>)
    ensures Note(s, a).retired == s.retired + GoneFirst(a)
    ensures Note(s, a).waited == s.waited + if a.Backoff? then a.wait else 0
  {
  }

  lemma {:induction false} NoteAllAdds<P>(s: Summary<P>, acts: seq<Action<P>>)
    ensures NoteAll(s, acts).retired == s.retired + Gone(acts)
    ensures NoteAll(s, acts).waited == s.waited + Waits(acts)
    decreases |acts|
  {
    if acts == [] {
      assert s.retired + [] == s.retired;
    } else {
      NoteAdds(s, acts[0]);
      NoteAllAdds(Note(s, acts[0]), acts[1..]);
      assert s.retired + (GoneFirst(acts[0]) + Gone(acts[1..])) == (s.retired + GoneFirst(acts[0])) + Gone(acts[1..]);
    }
  }

  lemma OneAction<P>(a: Action<P>)
    ensures Gone([a]) == GoneFirst(a)
    ensures Waits([a]) == if a.Backoff? then a.wait else 0
  {
    assert [a][1..] == [];
  }

  lemma MoreActions<P>(a: Action<P>, rest: seq<Action<P>>)
    ensures Gone([a] + rest) == Gone([a]) + Gone(rest)
    ensures Waits([a] + rest) == Waits([a]) + Waits(rest)
  {
    assert ([a] + rest)[1..] == rest && [a][1..] == [];
  }

  lemma TwoActions<P>(a: Action<P>, b: Action<P>)
    ensures Gone([a, b]) == Gone([a]) + Gone([b]) && Waits([a, b]) == Waits([a]) + Waits([b])
  {
    assert [a, b] == [a] + [b];
    MoreActions(a, [b]);
  }

  lemma NextAdds<P>(d: Device<P>, gone: Action<P>, draw: nat)
    requires d.queue != [] && (gone == Completed(d.queue[0]) || gone == GaveUp(d.queue[0]))
    ensures Gone(Next(d, [gone], draw).trace) == [d.queue[0]]
  {
    var acts := Next(d, [gone], draw).trace;
    OneAction(gone);
    if |acts| == 2 {
      OneAction(acts[1]);
      TwoActions(gone, acts[1]);
    }
  }

  lemma LeavingStep<P>(c: Config, d: Device<P>, e: Event<P>)
    requires Safe(c, d) && Enabled(d, e) && HeadLeaves(d, e)
    ensures Step(c, d, e).Stepped? && Gone(Step(c, d, e).trace) == [d.queue[0]]
  {
    if d.state == Tx {
      NextAdds(d.(state := Idle), Completed(d.queue[0]), e.draw);
    } else {
      var gone := GaveUp(d.queue[0]);
      NextAdds(d, gone, e.draw);
      assert Step(c, d, e).trace == [Busy] + Next(d, [gone], e.draw).trace;
      MoreActions(Busy, Next(d, [gone], e.draw).trace);
      OneAction<P>(Busy);
    }
  }

  lemma UpToTwoActions<P>(acts: seq<Action<P>>)
    requires 1 <= |acts| <= 2
    ensures Gone(acts) == Gone([acts[0]]) + (if |acts| == 2 then Gone([acts[1]]) else [])
    ensures Waits(acts) == Waits([acts[0]]) + (if |acts| == 2 then Waits([acts[1]]) else 0)
  {
    if |acts| == 2 {
      assert acts == [acts[0], acts[1]];
      TwoActions(acts[0], acts[1]);
    } else {
      assert acts == [acts[0]];
    }
  }

  lemma StayingStep<P>(c: Config, d: Device<P>, e: Event<P>)
    requires Safe(c, d) && Enabled(d, e) && !HeadLeaves(d, e)
    ensures var r := Step(c, d, e);
            r.Stepped? && 1 <= |r.trace| <= 2
            && (forall a :: a in r.trace ==> !a.Completed? && !a.GaveUp?)
  {
  }

  /** Among the handlers, only an expiry that makes the head leave retires an entry. */
  lemma StepRetires<P>(c: Config, d: Device<P>, e: Event<P>)
    requires Safe(c, d) && Enabled(d, e) && Step(c, d, e).Stepped?
    ensures Gone(Step(c, d, e).trace) == if HeadLeaves(d, e) then [d.queue[0]] else []
  {
    if HeadLeaves(d, e) {
      LeavingStep(c, d, e);
    } else {
      var acts := Step(c, d, e).trace;
      StayingStep(c, d, e);
      UpToTwoActions(acts);
      OneAction(acts[0]);
      OneAction(acts[|acts| - 1]);
    }
  }

  /** While the head stays, it stays head, and every expiry uses up the allowance. */
  lemma StepProgress<P>(c: Config, d: Device<P>, e: Event<P>)
    requires Safe(c, d) && Enabled(d, e) && d.queue != [] && !HeadLeaves(d, e)
    ensures var r := Step(c, d, e);
            r.Stepped? && d.queue <= r.device.queue
            && ExpiriesLeft(c, r.device) + (if e.CsmaExpires? then 1 else 0) <= ExpiriesLeft(c, d)
  {
  }

  /** While the head stays, a step arms a backoff only where the queue grows or the channel
      was busy. */
  lemma WaitsOfStep<P>(c: Config, d: Device<P>, e: Event<P>)
    requires Safe(c, d) && Enabled(d, e) && d.queue != [] && !HeadLeaves(d, e)
    ensures var r := Step(c, d, e);
            r.Stepped?
            && Waits(r.trace)
               == if |r.device.queue| > |d.queue| || (e.CsmaExpires? && d.state != Idle)
                  then r.device.csmaTimer.value.wait else 0
  {
    var acts := Step(c, d, e).trace;
    OneAction(acts[0]);
    match e {
      case Arrive(_) =>
      case _ =>
        if |acts| == 2 {
          OneAction(acts[1]);
          TwoActions(acts[0], acts[1]);
        }
    }
  }

  lemma StepWaits<P>(c: Config, d: Device<P>, e: Event<P>)
    requires Safe(c, d) && Enabled(d, e) && d.queue != [] && !HeadLeaves(d, e)
    ensures var r := Step(c, d, e);
            r.Stepped?
            && Waits(r.trace) + AttemptLeft(r.device)
               <= LONGEST_ATTEMPT * (|r.device.queue| - |d.queue|) + AttemptLeft(d)
  {
    WaitsOfStep(c, d, e);
    SlotValues();
    match e {
      case Send(_, _, draw) => WaitInRange(draw, MIN_BE);
      case CsmaExpires(draw, _) =>
        var be := d.csmaTimer.value.BE + 1;
        WaitInRange(draw, if be > MAX_BE then MAX_BE else be);
      case _ =>
    }
  }

  // ---- Runs ---------------------------------------------------------------------------

  lemma StepSums<P>(c: Config, d: Device<P>, tr: seq<Action<P>>, e: Event<P>)
    requires Inv(c, d, tr) && Enabled(d, e)
    ensures var r := Step(c, d, e);
            r.Stepped? && Inv(c, r.device, tr + r.trace)
            && Sum(tr + r.trace).retired == Sum(tr).retired + (if HeadLeaves(d, e) then [d.queue[0]] else [])
            && Sum(tr + r.trace).waited == Sum(tr).waited + Waits(r.trace)
  {
    StepKeeps(c, d, tr, e);
    Extend(c, tr, Step(c, d, e).trace);
    NoteAllAdds(Sum(tr), Step(c, d, e).trace);
    StepRetires(c, d, e);
  }

  lemma {:induction false} RetiredGrows<P>(c: Config, d: Device<P>, tr: seq<Action<P>>, es: seq<Event<P>>)
    requires Inv(c, d, tr) && Possible(c, d, es)
    ensures Run(c, d, tr, es).Stepped? && Sum(tr).retired <= Sum(Run(c, d, tr, es).trace).retired
    decreases |es|
  {
    if es == [] {
    } else {
      StepSums(c, d, tr, es[0]);
      RetiredGrows(c, Step(c, d, es[0]).device, tr + Step(c, d, es[0]).trace, es[1..]);
    }
  }

  /** Every entry is a fresh head at the moment it reaches the front. */
  lemma NewHeadIsFresh<P>(c: Config, d: Device<P>, e: Event<P>)
    requires Safe(c, d) && Enabled(d, e) && (d.queue == [] || HeadLeaves(d, e))
    requires Step(c, d, e).Stepped? && Step(c, d, e).device.queue != []
    ensures FreshHead(Step(c, d, e).device)
  {
  }

  /** When the head leaves the rest moves up, and the allowance starts anew. */
  lemma NextInLine<P>(c: Config, d: Device<P>, e: Event<P>)
    requires Safe(c, d) && Enabled(d, e) && HeadLeaves(d, e)
    ensures var r := Step(c, d, e);
            r.Stepped? && d.queue != [] && r.device.queue == d.queue[1..]
            && 1 <= ExpiriesLeft(c, d)
            && (r.device.queue != [] ==> ExpiriesLeft(c, r.device) <= 4 * c.limit + 2)
  {
  }

  /** `out` is everything that has left once the entry at position k has. */
  ghost predicate LeavesWith<P>(d: Device<P>, tr: seq<Action<P>>, k: nat, out: seq<P>) {
    k < |d.queue| && out == Sum(tr).retired + d.queue[..k + 1]
  }

  lemma HeadMoves<T>(left: seq<T>, queue: seq<T>, k: nat)
    requires k < |queue|
    ensures left + queue[..k + 1] == (left + [queue[0]]) + queue[1..][..k]
  {
  }

  lemma SamePlace<T>(queue: seq<T>, longer: seq<T>, k: nat)
    requires k < |queue| && queue <= longer
    ensures longer[..k + 1] == queue[..k + 1]
  {
  }

  lemma OneFewerBefore<P>(c: Config, d: Device<P>, tr: seq<Action<P>>, e: Event<P>, k: nat, out: seq<P>)
    requires Inv(c, d, tr) && Enabled(d, e) && LeavesWith(d, tr, k, out)
    ensures var r := Step(c, d, e);
            && r.Stepped? && Inv(c, r.device, tr + r.trace)
            && (!HeadLeaves(d, e) ==> LeavesWith(r.device, tr + r.trace, k, out))
            && (HeadLeaves(d, e) && k > 0 ==> LeavesWith(r.device, tr + r.trace, k - 1, out))
            && (HeadLeaves(d, e) && k == 0 ==> out == Sum(tr + r.trace).retired)
  {
    var r := Step(c, d, e);
    StepSums(c, d, tr, e);
    if HeadLeaves(d, e) {
      NextInLine(c, d, e);
      HeadMoves(Sum(tr).retired, d.queue, k);
    } else {
      StepProgress(c, d, e);
      SamePlace(d.queue, r.device.queue, k);
      assert Sum(tr).retired + [] == Sum(tr).retired;
    }
  }

  /** The allowance of the `k` entries before another one. */
  function Ahead(k: nat, each: nat): nat {
    if k == 0 then 0 else each + Ahead(k - 1, each)
  }

  lemma {:induction false} AheadIsProduct(k: nat, each: nat)
    ensures Ahead(k, each) == k * each
  {
    if k == 0 {
      assert k * each == 0;
    } else {
      AheadIsProduct(k - 1, each);
      assert k * each == (k - 1) * each + each;
    }
  }

  lemma SomeLeft<P>(c: Config, d: Device<P>)
    requires Safe(c, d) && d.queue != []
    ensures ExpiriesLeft(c, d) > 0
  {
  }

  lemma {:induction false} LeftInTime<P>(c: Config, d: Device<P>, tr: seq<Action<P>>, es: seq<Event<P>>, k: nat,
                                      each: nat, out: seq<P>)
    requires Inv(c, d, tr) && Possible(c, d, es) && LeavesWith(d, tr, k, out)
    requires each == 4 * c.limit + 6 && Expiries(es) >= ExpiriesLeft(c, d) + Ahead(k, each)
    ensures Run(c, d, tr, es).Stepped? && out <= Sum(Run(c, d, tr, es).trace).retired
    decreases |es|
  {
    if es == [] {
      SomeLeft(c, d);
    } else {
      var e, r := es[0], Step(c, d, es[0]);
      OneFewerBefore(c, d, tr, e, k, out);
      if !HeadLeaves(d, e) {
        StepProgress(c, d, e);
        LeftInTime(c, r.device, tr + r.trace, es[1..], k, each, out);
      } else if k > 0 {
        NextInLine(c, d, e);
        LeftInTime(c, r.device, tr + r.trace, es[1..], k - 1, each, out);
      } else {
        RetiredGrows(c, r.device, tr + r.trace, es[1..]);
      }
    }
  }

  /** The entry at position k leaves within the head's allowance and, for each entry before
      it, that of a fresh head at most; so do all before it, in order. */
  lemma EntryLeavesInTime<P>(c: Config, d: Device<P>, tr: seq<Action<P>>, es: seq<Event<P>>, k: nat)
    requires Inv(c, d, tr) && Possible(c, d, es) && k < |d.queue|
    requires Expiries(es) >= ExpiriesLeft(c, d) + k * (4 * c.limit + 6)
    ensures Run(c, d, tr, es).Stepped?
            && Sum(tr).retired + d.queue[..k + 1] <= Sum(Run(c, d, tr, es).trace).retired
  {
    AheadIsProduct(k, 4 * c.limit + 6);
    LeftInTime(c, d, tr, es, k, 4 * c.limit + 6, Sum(tr).retired + d.queue[..k + 1]);
  }

  /** After as many csma expiries as the allowance, the head is the next entry to have left,
      whatever else happened in between. */
  lemma HeadLeavesInTime<P>(c: Config, d: Device<P>, tr: seq<Action<P>>, es: seq<Event<P>>)
    requires Inv(c, d, tr) && Possible(c, d, es) && d.queue != []
    requires Expiries(es) >= ExpiriesLeft(c, d)
    ensures Run(c, d, tr, es).Stepped?
            && Sum(tr).retired + [d.queue[0]] <= Sum(Run(c, d, tr, es).trace).retired
  {
    assert d.queue[..1] == [d.queue[0]];
    EntryLeavesInTime(c, d, tr, es, 0);
  }

  /** The bound for an entry that becomes head of a queue of length s. */
  lemma FreshHeadLeavesInTime<P>(c: Config, d: Device<P>, tr: seq<Action<P>>, es: seq<Event<P>>)
    requires Inv(c, d, tr) && Possible(c, d, es) && FreshHead(d)
    requires Expiries(es) >= 4 * (c.limit - |d.queue|) + 6
    ensures Run(c, d, tr, es).Stepped?
            && Sum(tr).retired + [d.queue[0]] <= Sum(Run(c, d, tr, es).trace).retired
  {
    HeadLeavesInTime(c, d, tr, es);
  }

  /** Backoff armed while the head stays. */
  lemma {:induction false} BackoffWhileHead<P>(c: Config, d: Device<P>, tr: seq<Action<P>>, es: seq<Event<P>>)
    requires Inv(c, d, tr) && Possible(c, d, es) && d.queue != []
    requires Run(c, d, tr, es).Stepped? && Sum(Run(c, d, tr, es).trace).retired == Sum(tr).retired
    ensures var r := Run(c, d, tr, es);
            Sum(r.trace).waited - Sum(tr).waited
            <= LONGEST_ATTEMPT * (|r.device.queue| - |d.queue|) + AttemptLeft(d) - AttemptLeft(r.device)
            && |r.device.queue| <= c.limit
    decreases |es|
  {
    if es == [] {
    } else {
      var e, r := es[0], Step(c, d, es[0]);
      StepSums(c, d, tr, e);
      RetiredGrows(c, r.device, tr + r.trace, es[1..]);
      StepProgress(c, d, e);
      StepWaits(c, d, e);
      BackoffWhileHead(c, r.device, tr + r.trace, es[1..]);
    }
  }

  lemma FirstWait<P>(c: Config, d: Device<P>)
    requires Safe(c, d) && FreshHead(d)
    ensures d.csmaTimer.value.wait <= 2240 && AttemptLeft(d) == LONGEST_ATTEMPT - 2240
  {
    SlotValues();
  }

  /** An attempt that no accepted send interrupts arms at most 36800 us of backoff, and a
      head entry at most that times (limit - s + 1), restarts included. */
  lemma HeadBackoffBound<P>(c: Config, d: Device<P>, tr: seq<Action<P>>, es: seq<Event<P>>)
    requires Inv(c, d, tr) && Possible(c, d, es) && FreshHead(d)
    requires Run(c, d, tr, es).Stepped? && Sum(Run(c, d, tr, es).trace).retired == Sum(tr).retired
    ensures var r := Run(c, d, tr, es);
            var waited := d.csmaTimer.value.wait + Sum(r.trace).waited - Sum(tr).waited;
            waited <= LONGEST_ATTEMPT * (c.limit - |d.queue| + 1)
            && (|r.device.queue| == |d.queue| ==> waited <= LONGEST_ATTEMPT)
  {
    BackoffWhileHead(c, d, tr, es);
    FirstWait(c, d);
  }

  // ---- The bounds are the best possible ------------------------------------------------

  function BusyThen<P>(n: nat, rest: seq<Event<P>>): seq<Event<P>> {
    if n == 0 then rest else [CsmaExpires(31, 0)] + BusyThen(n - 1, rest)
  }

  /** Each of `k` sends arrives after the channel was found busy four times; then the
      channel clears and the head is transmitted. Every draw is the longest. */
  function WorstCase<P>(c: Config, frame: P, length: nat, k: nat): seq<Event<P>> {
    if k == 0 then BusyThen(4, [RxExpires(c.mac, 0, 1), CsmaExpires(31, 0)])
    else BusyThen(4, [Send(frame, length, 31)] + WorstCase(c, frame, length, k - 1))
  }

  lemma RunFirst<P>(c: Config, d: Device<P>, tr: seq<Action<P>>, e: Event<P>, rest: seq<Event<P>>)
    returns (d': Device<P>, tr': seq<Action<P>>)
    requires Inv(c, d, tr) && Enabled(d, e) && !HeadLeaves(d, e)
    ensures Step(c, d, e).Stepped? && d' == Step(c, d, e).device && Inv(c, d', tr')
    ensures Sum(tr').retired == Sum(tr).retired && Sum(tr').waited == Sum(tr).waited + Waits(Step(c, d, e).trace)
    ensures Possible(c, d, [e] + rest) <==> Possible(c, d', rest)
    ensures Possible(c, d', rest) ==> Run(c, d, tr, [e] + rest) == Run(c, d', tr', rest)
    ensures Expiries([e] + rest) == (if e.CsmaExpires? then 1 else 0) + Expiries(rest)
  {
    StepSums(c, d, tr, e);
    d', tr' := Step(c, d, e).device, tr + Step(c, d, e).trace;
    assert ([e] + rest)[1..] == rest;
  }

  lemma BusyStep<P>(c: Config, d: Device<P>)
    requires Safe(c, d) && d.state == Rx && d.csmaTimer.Some? && d.csmaTimer.value.NB < MAX_CSMA_BACKOFFS
    ensures var r := Step(c, d, CsmaExpires(31, 0));
            r.Stepped? && r.device.csmaTimer.Some? && r.device == d.(csmaTimer := r.device.csmaTimer)
            && r.device.csmaTimer.value.NB == d.csmaTimer.value.NB + 1
            && Waits(r.trace) == AttemptLeft(d) - AttemptLeft(r.device)
  {
    SlotValues();
    TwoActions(Busy, Step(c, d, CsmaExpires(31, 0)).trace[1]);
  }

  lemma SendStep<P>(c: Config, d: Device<P>, frame: P, length: nat)
    requires Safe(c, d) && |d.queue| < c.limit && d.state == Rx && length <= c.mtu
    ensures var r := Step(c, d, Send(frame, length, 31));
            r.Stepped? && r.device == d.(queue := d.queue + [frame], csmaTimer := Some(Csma(0, 3, 2240)))
            && FreshHead(r.device) && Waits(r.trace) == 2240
  {
    SlotValues();
    TwoActions(Accepted(frame), Backoff(2240));
  }

  /** The first run comes down to the second, with so many expiries fewer. */
  ghost predicate ComesDownTo<P>(c: Config, d: Device<P>, tr: seq<Action<P>>, es: seq<Event<P>>,
                                 d': Device<P>, tr': seq<Action<P>>, rest: seq<Event<P>>, n: nat)
  {
    && Inv(c, d', tr') && (Possible(c, d, es) <==> Possible(c, d', rest))
    && (Possible(c, d', rest) ==> Run(c, d, tr, es) == Run(c, d', tr', rest))
    && Expiries(es) == n + Expiries(rest) && Sum(tr').retired == Sum(tr).retired
  }

  lemma ComesFurtherDown<P>(c: Config, d: Device<P>, tr: seq<Action<P>>, es: seq<Event<P>>, n: nat,
                            d1: Device<P>, tr1: seq<Action<P>>, es1: seq<Event<P>>, n1: nat,
                            d2: Device<P>, tr2: seq<Action<P>>, es2: seq<Event<P>>)
    requires ComesDownTo(c, d, tr, es, d1, tr1, es1, n) && ComesDownTo(c, d1, tr1, es1, d2, tr2, es2, n1)
    ensures ComesDownTo(c, d, tr, es, d2, tr2, es2, n + n1)
  {
  }

  /** One busy assessment more. */
  lemma BusyFirst<P>(c: Config, d: Device<P>, tr: seq<Action<P>>, rest: seq<Event<P>>)
    returns (d': Device<P>, tr': seq<Action<P>>)
    requires Inv(c, d, tr) && d.state == Rx && d.csmaTimer.Some? && d.csmaTimer.value.NB < MAX_CSMA_BACKOFFS
    ensures ComesDownTo(c, d, tr, [CsmaExpires(31, 0)] + rest, d', tr', rest, 1)
    ensures d' == d.(csmaTimer := d'.csmaTimer) && d'.csmaTimer.Some?
    ensures d'.csmaTimer.value.NB == d.csmaTimer.value.NB + 1
    ensures Sum(tr').waited == Sum(tr).waited + AttemptLeft(d) - AttemptLeft(d')
  {
    BusyStep(c, d);
    d', tr' := RunFirst(c, d, tr, CsmaExpires(31, 0), rest);
  }

  lemma {:induction false} RunBusyThen<P>(c: Config, d: Device<P>, tr: seq<Action<P>>, n: nat, rest: seq<Event<P>>)
    returns (d': Device<P>, tr': seq<Action<P>>)
    requires Inv(c, d, tr) && d.state == Rx && d.csmaTimer.Some?
    requires d.csmaTimer.value.NB + n <= MAX_CSMA_BACKOFFS
    ensures ComesDownTo(c, d, tr, BusyThen(n, rest), d', tr', rest, n)
    ensures d' == d.(csmaTimer := d'.csmaTimer) && d'.csmaTimer.Some?
    ensures d'.csmaTimer.value.NB == d.csmaTimer.value.NB + n
    ensures Sum(tr').waited == Sum(tr).waited + AttemptLeft(d) - AttemptLeft(d')
    decreases n
  {
    if n == 0 {
      d', tr' := d, tr;
    } else {
      var later := BusyThen(n - 1, rest);
      var d1, tr1 := BusyFirst(c, d, tr, later);
      d', tr' := RunBusyThen(c, d1, tr1, n - 1, rest);
      ComesFurtherDown(c, d, tr, BusyThen(n, rest), 1, d1, tr1, later, n - 1, d', tr', rest);
    }
  }

  /** The reception ends, and then the channel is clear. */
  lemma ClearSteps<P>(c: Config, d: Device<P>)
    requires Safe(c, d) && d.queue != [] && d.csmaTimer.Some? && d.state == Rx
    ensures var r := Step(c, d, RxExpires(c.mac, 0, 1));
            r.Stepped? && r.device.state == Idle && Waits(r.trace) == 0 && r.device.queue == d.queue
            && r.device.csmaTimer == d.csmaTimer
            && var r' := Step(c, r.device, CsmaExpires(31, 0));
               r'.Stepped? && Waits(r'.trace) == 0
  {
    var r := Step(c, d, RxExpires(c.mac, 0, 1));
    TwoActions(r.trace[0], r.trace[1]);
    OneAction(r.trace[0]);
    OneAction(r.trace[1]);
    OneAction(Posted(d.queue[0]));
  }

  lemma ClearAndSend<P>(c: Config, d: Device<P>, tr: seq<Action<P>>)
    requires Inv(c, d, tr) && d.state == Rx && d.queue != []
    ensures var es: seq<Event<P>> := [RxExpires(c.mac, 0, 1), CsmaExpires(31, 0)];
            var r := Run(c, d, tr, es);
            Possible(c, d, es) && Expiries(es) == 1
            && r.Stepped? && Sum(r.trace).retired == Sum(tr).retired && Sum(r.trace).waited == Sum(tr).waited
  {
    var send: Event<P>, clear := CsmaExpires(31, 0), RxExpires(c.mac, 0, 1);
    ClearSteps(c, d);
    var d1, tr1 := RunFirst(c, d, tr, clear, [send]);
    var d2, tr2 := RunFirst(c, d1, tr1, send, []);
    assert [clear] + [send] == [clear, send] && [send] + [] == [send];
  }

  lemma LastAttempt<P>(c: Config, d: Device<P>, tr: seq<Action<P>>)
    requires Inv(c, d, tr) && FreshHead(d) && d.state == Rx
    ensures var es := BusyThen(4, [RxExpires(c.mac, 0, 1), CsmaExpires(31, 0)]);
            Possible(c, d, es) && Expiries(es) == 5
            && Run(c, d, tr, es).Stepped? && Sum(Run(c, d, tr, es).trace).retired == Sum(tr).retired
            && Sum(Run(c, d, tr, es).trace).waited == Sum(tr).waited + 34560
  {
    var d1, tr1 := RunBusyThen(c, d, tr, 4, [RxExpires(c.mac, 0, 1), CsmaExpires(31, 0)]);
    ClearAndSend(c, d1, tr1);
  }

  /** Four busy assessments, and a send that starts the attempt over. */
  lemma Interrupted<P>(c: Config, d: Device<P>, tr: seq<Action<P>>, frame: P, length: nat, rest: seq<Event<P>>)
    returns (d': Device<P>, tr': seq<Action<P>>)
    requires Inv(c, d, tr) && FreshHead(d) && d.state == Rx && |d.queue| < c.limit && length <= c.mtu
    ensures Inv(c, d', tr') && FreshHead(d') && d'.state == Rx && |d'.queue| == |d.queue| + 1
    ensures d'.csmaTimer.value.wait == 2240
    ensures Sum(tr').retired == Sum(tr).retired && Sum(tr').waited == Sum(tr).waited + 36800
    ensures var es := BusyThen(4, [Send(frame, length, 31)] + rest);
            && (Possible(c, d, es) <==> Possible(c, d', rest))
            && (Possible(c, d', rest) ==> Run(c, d, tr, es) == Run(c, d', tr', rest))
            && Expiries(es) == 4 + Expiries(rest)
  {
    var d1, tr1 := RunBusyThen(c, d, tr, 4, [Send(frame, length, 31)] + rest);
    SendStep(c, d1, frame, length);
    d', tr' := RunFirst(c, d1, tr1, Send(frame, length, 31), rest);
  }

  /** From any state with a fresh head and a reception in progress there is a run of one
      expiry fewer than the bound after which the head is still there; and if the head drew
      the longest first backoff, it has then waited as long as the bound on its backoff. */
  lemma {:induction false} BoundIsTight<P>(c: Config, d: Device<P>, tr: seq<Action<P>>, frame: P, length: nat,
                                        k: nat)
    requires Inv(c, d, tr) && FreshHead(d) && d.state == Rx && |d.queue| + k == c.limit
    requires length <= c.mtu
    ensures Possible(c, d, WorstCase(c, frame, length, k))
    ensures Expiries(WorstCase(c, frame, length, k)) == 4 * (c.limit - |d.queue|) + 5
    ensures var r := Run(c, d, tr, WorstCase(c, frame, length, k));
            && r.Stepped? && Sum(r.trace).retired == Sum(tr).retired
            && (d.csmaTimer.value.wait == 2240 ==>
                  2240 + Sum(r.trace).waited - Sum(tr).waited == 36800 * (c.limit - |d.queue| + 1))
    decreases k
  {
    if k == 0 {
      LastAttempt(c, d, tr);
    } else {
      var d1, tr1 := Interrupted(c, d, tr, frame, length, WorstCase(c, frame, length, k - 1));
      BoundIsTight(c, d1, tr1, frame, length, k - 1);
    }
  }
}
