/** What the periodic cleanup of the pending-interest table does to a node: nothing that
    anyone can see, unless a nonce comes back after its record was cleaned up. */
module NodeCleanUp {
  import opened Ndn
  import opened ForwardingNode
  import FibTable
  import PIT = PendingInterests
  import CS = ContentStore
  import opened ForwardingRuns
  import opened Subsequences

  /** The run without the cleanups. */
  function Uncleaned(es: seq<Event>): seq<Event>
    decreases |es|
  {
    if es == [] then [] else (if es[0].PitTimer? then [] else [es[0]]) + Uncleaned(es[1..])
  }

  function WithoutTimers(tr: Trace): Trace {
    if tr == [] then [] else (if tr[0].event.PitTimer? then [] else [tr[0]]) + WithoutTimers(tr[1..])
  }

  /** Two nodes that differ only in the records one of them has cleaned up. */
  predicate Cleaner(n: Node, m: Node, purge: Option<Time>) {
    m == n.(pit := m.pit) && n.pit == PIT.Trim(m.pit, purge)
  }

  /** Two outcomes that look the same, and leave such nodes. */
  predicate Alike(o: Outcome, o': Outcome, purge: Option<Time>) {
    o.sent == o'.sent && o.calls == o'.calls && o.inserts == o'.inserts && o.registered == o'.registered
    && Cleaner(o.node, o'.node, purge)
  }

  predicate Past(purge: Option<Time>, now: Time) {
    purge.Some? ==> purge.value <= now
  }

  lemma SameData(n: Node, m: Node, d: Data, now: Time, purge: Option<Time>)
    requires Cleaner(n, m, purge) && Past(purge, now)
    ensures Alike(HandleData(n, d, now), HandleData(m, d, now), purge)
  {
    if purge.Some? {
      PIT.TrimmedWaiting(m.pit, purge.value, d.name, now);
      PIT.TrimmedAnswer(m.pit, purge.value, d.name);
    }
  }

  lemma SameCommand(lib: Library, n: Node, m: Node, face: FaceId, i: Interest, now: Time, purge: Option<Time>)
    requires Cleaner(n, m, purge) && Past(purge, now) && Readable(i.name)
    ensures Alike(ProcessCommand(lib, n, face, i, now), ProcessCommand(lib, m, face, i, now), purge)
  {
    var given := lib.decode(i.name[|RIB_PREFIX| + 1]);
    if i.name[|RIB_PREFIX|] == REGISTER && given.Some? {
      var p := Defaulted(given.value, face);
      if ValidRequest(lib, p) {
        var fib := FibTable.WithRoute(n.fib, p.name.value, ToInt(p.faceId.value));
        var response := ControlResponse(200, "Success", Some(p));
        SameData(n.(fib := fib), m.(fib := fib), Data(i.name, lib.freshness, lib.sign(i.name, response)), now, purge);
      } else {
        var response := ControlResponse(400, "Malformed command", None);
        SameData(n, m, Data(i.name, lib.freshness, lib.sign(i.name, response)), now, purge);
      }
    }
  }

  lemma SameInterest(lib: Library, n: Node, m: Node, face: FaceId, i: Interest, now: Time, purge: Option<Time>)
    requires Cleaner(n, m, purge) && Past(purge, now) && CommandsReadable(n, i) && i.lifetime >= 0
    requires CS.Lookup(n.cache, i, now).None? ==> !PIT.Revives(m.pit, purge, i)
    ensures Alike(HandleInterest(lib, n, face, i, now), HandleInterest(lib, m, face, i, now), purge)
  {
    if CS.Lookup(n.cache, i, now).None? {
      var ask := PIT.Ask(face, i, now);
      PIT.TrimmedFresh(m.pit, purge, i);
      PIT.TrimmedApply(m.pit, purge, ask);
      var n', m' := n.(pit := PIT.Asked(n.pit, ask)), m.(pit := PIT.Asked(m.pit, ask));
      var out := FibTable.Faces(n.fib, i.name) - {face};
      if PIT.Fresh(n.pit, i) && RIB_FACE in out {
        SameCommand(lib, n', m', face, i, now, purge);
      }
    }
  }

  /** The nonce of the Interest is not that of a record cleaned up before. */
  predicate RevivesNone(n: Node, m: Node, e: Event, purge: Option<Time>) {
    e.InterestIn? && CS.Lookup(n.cache, e.interest, e.at).None? ==> !PIT.Revives(m.pit, purge, e.interest)
  }

  lemma SameOutcome(lib: Library, n: Node, m: Node, e: Event, t: Time, purge: Option<Time>)
    requires Cleaner(n, m, purge) && Past(purge, t) && t <= ClockAfter(t, e) && Enabled(n, e) && !e.PitTimer?
    requires e.InterestIn? ==> e.interest.lifetime >= 0
    requires RevivesNone(n, m, e, purge)
    ensures Enabled(m, e) && Alike(Handle(lib, n, e), Handle(lib, m, e), purge)
  {
    match e
    case InterestIn(f, i, now) => SameInterest(lib, n, m, f, i, now, purge);
    case DataIn(_, d, now) => SameData(n, m, d, now, purge);
    case _ =>
  }

  // ---- Histories ------------------------------------------------------------------------

  lemma {:induction false} UnpurgedAppend(h: PIT.History, calls: PIT.History)
    requires forall c :: c in calls ==> !c.Purge?
    ensures PIT.Unpurged(h + calls) == PIT.Unpurged(h) + calls && PIT.LastPurge(h + calls) == PIT.LastPurge(h)
    decreases |calls|
  {
    if calls == [] {
      assert h + calls == h;
    } else {
      var before, last := calls[..|calls| - 1], calls[|calls| - 1];
      assert h + calls == (h + before) + [last] && before + [last] == calls;
      UnpurgedAppend(h, before);
      PIT.UnpurgedExtend(h + before, last);
    }
  }

  lemma ReplayMore(h: PIT.History, calls: PIT.History)
    ensures PIT.Replay(h + calls) == ApplyAll(PIT.Replay(h), calls)
  {
    ReplayIsApplyAll(h);
    ReplayIsApplyAll(h + calls);
    ApplyAllAppend(map[], h, calls);
  }

  /** The node without cleanups holds what its calls, with the cleanups struck out, add up to. */
  predicate HoldsUnpurged(m: Node, h: PIT.History) {
    m.pit == PIT.Replay(PIT.Unpurged(h))
  }

  lemma NoPurgeAmong(lib: Library, m: Node, e: Event)
    requires Enabled(m, e) && !e.PitTimer?
    ensures forall c :: c in Handle(lib, m, e).calls ==> !c.Purge?
  {
  }

  lemma HoldsAppended(h: PIT.History, calls: PIT.History, before: PIT.Table, after: PIT.Table)
    requires before == PIT.Replay(PIT.Unpurged(h)) && after == ApplyAll(before, calls)
    requires forall c :: c in calls ==> !c.Purge?
    ensures after == PIT.Replay(PIT.Unpurged(h + calls)) && PIT.LastPurge(h + calls) == PIT.LastPurge(h)
  {
    UnpurgedAppend(h, calls);
    ReplayMore(PIT.Unpurged(h), calls);
  }

  lemma HoldsAfter(lib: Library, m: Node, e: Event, h: PIT.History)
    requires HoldsUnpurged(m, h) && Enabled(m, e) && !e.PitTimer?
    ensures var o := Handle(lib, m, e);
            HoldsUnpurged(o.node, h + o.calls) && PIT.LastPurge(h + o.calls) == PIT.LastPurge(h)
  {
    var o := Handle(lib, m, e);
    HandleLogged(lib, m, e);
    NoPurgeAmong(lib, m, e);
    HoldsAppended(h, o.calls, m.pit, o.node.pit);
  }

  /** A run without revivals has none at its first event. */
  lemma NoneRevivedFirst(lib: Library, n: Node, m: Node, e: Event, h: PIT.History, rest: PIT.History)
    requires Enabled(n, e) && HoldsUnpurged(m, h) && PIT.NoRevival(h + (Handle(lib, n, e).calls + rest))
    ensures RevivesNone(n, m, e, PIT.LastPurge(h))
  {
    var all := h + (Handle(lib, n, e).calls + rest);
    if e.InterestIn? && CS.Lookup(n.cache, e.interest, e.at).None? {
      assert all[|h|] == PIT.Ask(e.face, e.interest, e.at) && all[..|h|] == h;
      assert !PIT.RevivedAt(all, |h|);
    }
  }

  // ---- Whole runs -----------------------------------------------------------------------

  predicate LifetimesNonnegative(es: seq<Event>) {
    forall e :: e in es && e.InterestIn? ==> e.interest.lifetime >= 0
  }

  lemma AfterCleanUp(n: Node, m: Node, h: PIT.History, at: Time)
    requires Cleaner(n, m, PIT.LastPurge(h)) && HoldsUnpurged(m, h) && Past(PIT.LastPurge(h), at)
    ensures var h' := h + [PIT.Purge(at)];
            && Cleaner(CleanUpPit(n, at).node, m, PIT.LastPurge(h')) && HoldsUnpurged(m, h')
            && PIT.LastPurge(h') == Some(at)
  {
    PIT.TrimmedApply(m.pit, PIT.LastPurge(h), PIT.Purge(at));
    PIT.UnpurgedExtend(h, PIT.Purge(at));
  }

  lemma FirstEntry(lib: Library, n: Node, es: seq<Event>, h: PIT.History)
    requires es != [] && Possible(lib, n, es)
    ensures var o := Handle(lib, n, es[0]);
            var rest := TraceOf(lib, o.node, es[1..]);
            && CallsOf(TraceOf(lib, n, es)) == o.calls + CallsOf(rest)
            && h + CallsOf(TraceOf(lib, n, es)) == (h + o.calls) + CallsOf(rest)
            && WithoutTimers(TraceOf(lib, n, es))
               == (if es[0].PitTimer? then [] else [EntryOf(es[0], o)]) + WithoutTimers(rest)
  {
    var o := Handle(lib, n, es[0]);
    var rest := TraceOf(lib, o.node, es[1..]);
    assert TraceOf(lib, n, es)[1..] == rest;
    Regroup(h, o.calls, CallsOf(rest));
  }

  lemma OneEventFirst(lib: Library, m: Node, e: Event, rest: seq<Event>)
    requires Enabled(m, e) && Possible(lib, Handle(lib, m, e).node, rest)
    ensures Possible(lib, m, [e] + rest)
    ensures var o := Handle(lib, m, e);
            TraceOf(lib, m, [e] + rest) == [EntryOf(e, o)] + TraceOf(lib, o.node, rest)
            && Run(lib, m, [e] + rest) == Run(lib, o.node, rest)
  {
    assert ([e] + rest)[1..] == rest;
  }

  lemma {:induction false} CleanedRunLooksTheSame(lib: Library, n: Node, m: Node, es: seq<Event>, h: PIT.History,
                                                  t: Time)
    requires Possible(lib, n, es) && Cleaner(n, m, PIT.LastPurge(h)) && HoldsUnpurged(m, h)
    requires Past(PIT.LastPurge(h), t) && ClockRuns(t, es) && LifetimesNonnegative(es)
    requires PIT.NoRevival(h + CallsOf(TraceOf(lib, n, es)))
    ensures Possible(lib, m, Uncleaned(es))
    ensures TraceOf(lib, m, Uncleaned(es)) == WithoutTimers(TraceOf(lib, n, es))
    ensures Cleaner(Run(lib, n, es), Run(lib, m, Uncleaned(es)), PIT.LastPurge(h + CallsOf(TraceOf(lib, n, es))))
    decreases |es|
  {
    if es == [] {
      assert h + CallsOf(TraceOf(lib, n, es)) == h;
    } else {
      var e, o, later := es[0], Handle(lib, n, es[0]), es[1..];
      FirstEntry(lib, n, es, h);
      if e.PitTimer? {
        AfterCleanUp(n, m, h, e.at);
        assert Uncleaned(es) == Uncleaned(later);
        CleanedRunLooksTheSame(lib, o.node, m, later, h + o.calls, e.at);
      } else {
        NoneRevivedFirst(lib, n, m, e, h, CallsOf(TraceOf(lib, o.node, later)));
        SameOutcome(lib, n, m, e, t, PIT.LastPurge(h));
        HoldsAfter(lib, m, e, h);
        CleanedRunLooksTheSame(lib, o.node, Handle(lib, m, e).node, later, h + o.calls, ClockAfter(t, e));
        OneEventFirst(lib, m, e, Uncleaned(later));
      }
    }
  }

  lemma LifetimesOfCalls(lib: Library, n: Node, e: Event)
    requires Enabled(n, e) && (e.InterestIn? ==> e.interest.lifetime >= 0)
    ensures forall c :: c in Handle(lib, n, e).calls && c.Ask? ==> c.interest.lifetime >= 0
  {
  }

  lemma {:induction false} CallLifetimes(lib: Library, n: Node, es: seq<Event>)
    requires Possible(lib, n, es) && LifetimesNonnegative(es)
    ensures forall c :: c in CallsOf(TraceOf(lib, n, es)) && c.Ask? ==> c.interest.lifetime >= 0
    decreases |es|
  {
    if es == [] {
    } else {
      LifetimesOfCalls(lib, n, es[0]);
      CallLifetimes(lib, Handle(lib, n, es[0]).node, es[1..]);
      FirstEntry(lib, n, es, []);
    }
  }

  /** From start-up: a run without its cleanups is possible, makes the same calls, sends,
      caches and registers the same at every event, and ends in the same state but for
      records that the last cleanup drops, if no Interest of the run repeats a nonce whose
      record had expired before the last cleanup. Otherwise some Interest is answered
      differently. */
  lemma CleanUpIsInvisible(lib: Library, cacheLimit: nat, es: seq<Event>, t: Time)
    requires Possible(lib, Init(cacheLimit), es) && ClockRuns(t, es) && LifetimesNonnegative(es)
    ensures var n := Init(cacheLimit);
            var calls := CallsOf(TraceOf(lib, n, es));
            && (PIT.NoRevival(calls) <==> PIT.SameAnswers(calls))
            && (PIT.NoRevival(calls) ==>
                  && Possible(lib, n, Uncleaned(es))
                  && TraceOf(lib, n, Uncleaned(es)) == WithoutTimers(TraceOf(lib, n, es))
                  && Cleaner(Run(lib, n, es), Run(lib, n, Uncleaned(es)), PIT.LastPurge(calls)))
  {
    var n := Init(cacheLimit);
    var calls := CallsOf(TraceOf(lib, n, es));
    CallsFollowClock(lib, n, es, t);
    CallLifetimes(lib, n, es);
    assert forall j :: 0 <= j < |calls| ==> calls[j] in calls;
    PIT.AnswersAgreeIff(calls);
    if PIT.NoRevival(calls) {
      assert [] + calls == calls;
      CleanedRunLooksTheSame(lib, n, n, es, [], t);
    }
  }

  /** Otherwise it shows: an Interest that a node has forwarded, and whose record has expired
      before a cleanup, is forwarded again when it is repeated, but not without the cleanup. */
  lemma RepeatIsForwardedAgain(lib: Library, n: Node, f: FaceId, i: Interest, first: Time, at: Time, again: Time)
    requires Enabled(n, InterestIn(f, i, first)) && first + i.lifetime < at
    requires CS.Lookup(n.cache, i, first).None? && CS.Lookup(n.cache, i, again).None?
    requires HandleInterest(lib, n, f, i, first).sent.Forward? && RIB_FACE !in FibTable.Faces(n.fib, i.name) - {f}
    ensures var o := HandleInterest(lib, n, f, i, first);
            && o.sent.packet == InterestPacket(i)
            && Enabled(o.node, InterestIn(f, i, again))
            && HandleInterest(lib, o.node, f, i, again).sent == Quiet
            && HandleInterest(lib, CleanUpPit(o.node, at).node, f, i, again).sent == o.sent
  {
    var pit := HandleInterest(lib, n, f, i, first).node.pit;
    assert PIT.Has(pit, i.name, i.nonce) && pit[i.name][i.nonce].expire < at;
    PIT.TrimmedFresh(pit, Some(at), i);
  }
}
