/** What holds of the forwarder over whole runs, from start-up, in any order of packets,
    timers, clients and face removals. */
module ForwardingRuns {
  import opened Ndn
  import opened ForwardingNode
  import FibTable
  import PIT = PendingInterests
  import CS = ContentStore

  // ---- Flow balance -------------------------------------------------------------------

  function SentData(s: Sent, face: FaceId): nat {
    if s.Forward? && s.packet.DataPacket? && face in s.to then 1 else 0
  }

  function Debt(n: Node, face: FaceId): nat {
    |PIT.Held(n.pit, face)|
  }

  lemma HandleDataBalance(n: Node, d: Data, now: Time, face: FaceId)
    ensures var o := HandleData(n, d, now);
            SentData(o.sent, face) + Debt(o.node, face) <= Debt(n, face)
  {
    PIT.AnswerReleases(n.pit, d.name, now, face);
  }

  lemma ProcessCommandBalance(lib: Library, n: Node, from: FaceId, i: Interest, now: Time, face: FaceId)
    requires Readable(i.name)
    ensures var o := ProcessCommand(lib, n, from, i, now);
            SentData(o.sent, face) + Debt(o.node, face) <= Debt(n, face)
  {
    var given := lib.decode(i.name[|RIB_PREFIX| + 1]);
    if i.name[|RIB_PREFIX|] == REGISTER && given.Some? {
      var p := Defaulted(given.value, from);
      if ValidRequest(lib, p) {
        var n' := n.(fib := FibTable.WithRoute(n.fib, p.name.value, ToInt(p.faceId.value)));
        var response := ControlResponse(200, "Success", Some(p));
        HandleDataBalance(n', Data(i.name, lib.freshness, lib.sign(i.name, response)), now, face);
      } else {
        var response := ControlResponse(400, "Malformed command", None);
        HandleDataBalance(n, Data(i.name, lib.freshness, lib.sign(i.name, response)), now, face);
      }
    }
  }

  /** In one event, Data sent to a face plus records it holds grow by the Interest received
      from it at most. */
  lemma EventBalance(lib: Library, n: Node, e: Event, face: FaceId)
    requires Enabled(n, e)
    ensures var o := Handle(lib, n, e);
            SentData(o.sent, face) + Debt(o.node, face)
            <= Debt(n, face) + if e.InterestIn? && e.face == face then 1 else 0
  {
    match e
    case InterestIn(f, i, now) =>
      var ask := PIT.Ask(f, i, now);
      PIT.AskHolds(n.pit, ask, face);
      if CS.Lookup(n.cache, i, now).None? && PIT.Fresh(n.pit, i) && RIB_FACE in FibTable.Faces(n.fib, i.name) - {f} {
        ProcessCommandBalance(lib, n.(pit := PIT.Asked(n.pit, ask)), f, i, now, face);
      }
    case DataIn(_, d, now) => HandleDataBalance(n, d, now, face);
    case PitTimer(now) => PIT.PurgeReleases(n.pit, now, face);
    case _ =>
  }

  lemma {:induction false} FlowBalanceFrom(lib: Library, n: Node, es: seq<Event>, face: FaceId)
    requires Possible(lib, n, es)
    ensures DataTo(TraceOf(lib, n, es), face) + Debt(Run(lib, n, es), face)
         <= Debt(n, face) + InterestsFrom(TraceOf(lib, n, es), face)
    decreases |es|
  {
    if es == [] {
    } else {
      EventBalance(lib, n, es[0], face);
      var n', rest := Handle(lib, n, es[0]).node, es[1..];
      FlowBalanceFrom(lib, n', rest, face);
      assert TraceOf(lib, n, es)[1..] == TraceOf(lib, n', rest);
    }
  }

  /** On every run the node sends a face at most as many Data packets as it received
      Interests from it, the Interests still pending included. */
  lemma FlowBalance(lib: Library, cacheLimit: nat, es: seq<Event>, face: FaceId)
    requires Possible(lib, Init(cacheLimit), es)
    ensures var tr := TraceOf(lib, Init(cacheLimit), es);
            DataTo(tr, face) + Debt(Run(lib, Init(cacheLimit), es), face) <= InterestsFrom(tr, face)
  {
    assert Debt(Init(cacheLimit), face) == 0 by {
      assert PIT.Held(Init(cacheLimit).pit, face) == {};
    }
    FlowBalanceFrom(lib, Init(cacheLimit), es, face);
  }

  // ---- The tables are what their histories say ----------------------------------------

  function ApplyAll(t: PIT.Table, calls: PIT.History): PIT.Table
    decreases |calls|
  {
    if calls == [] then t else ApplyAll(PIT.Apply(t, calls[0]), calls[1..])
  }

  lemma {:induction false} ApplyAllAppend(t: PIT.Table, calls: PIT.History, more: PIT.History)
    ensures ApplyAll(t, calls + more) == ApplyAll(ApplyAll(t, calls), more)
    decreases |calls|
  {
    if calls == [] {
      assert calls + more == more;
    } else {
      assert (calls + more)[1..] == calls[1..] + more;
      ApplyAllAppend(PIT.Apply(t, calls[0]), calls[1..], more);
    }
  }

  lemma {:induction false} ReplayIsApplyAll(h: PIT.History)
    ensures PIT.Replay(h) == ApplyAll(map[], h)
  {
    if h == [] {
    } else {
      var before, last := h[..|h| - 1], [h[|h| - 1]];
      ReplayIsApplyAll(before);
      ApplyAllAppend(map[], before, last);
      assert before + last == h && last[1..] == [];
    }
  }

  function InsertAll(q: CS.Queue, limit: nat, entries: CS.Queue): CS.Queue
    decreases |entries|
  {
    if entries == [] then q else InsertAll(CS.Inserted(q, limit, entries[0]), limit, entries[1..])
  }

  lemma {:induction false} InsertAllAppend(q: CS.Queue, limit: nat, entries: CS.Queue, more: CS.Queue)
    ensures InsertAll(q, limit, entries + more) == InsertAll(InsertAll(q, limit, entries), limit, more)
    decreases |entries|
  {
    if entries == [] {
      assert entries + more == more;
    } else {
      assert (entries + more)[1..] == entries[1..] + more;
      InsertAllAppend(CS.Inserted(q, limit, entries[0]), limit, entries[1..], more);
    }
  }

  lemma {:induction false} ReplayIsInsertAll(entries: CS.Queue, limit: nat)
    ensures CS.Replay(entries, limit) == InsertAll([], limit, entries)
  {
    if entries == [] {
    } else {
      var before, last := entries[..|entries| - 1], [entries[|entries| - 1]];
      ReplayIsInsertAll(before, limit);
      InsertAllAppend([], limit, before, last);
      assert before + last == entries && last[1..] == [];
    }
  }

  ghost predicate FollowsLog(n: Node, o: Outcome) {
    && o.node.pit == ApplyAll(n.pit, o.calls)
    && o.node.cache == InsertAll(n.cache, n.cacheLimit, o.inserts)
    && o.node.cacheLimit == n.cacheLimit
  }

  lemma OneCall(t: PIT.Table, e: PIT.Event, rest: PIT.History)
    ensures ApplyAll(t, [e]) == PIT.Apply(t, e)
    ensures ApplyAll(t, [e] + rest) == ApplyAll(PIT.Apply(t, e), rest)
  {
    assert [e][1..] == [] && ([e] + rest)[1..] == rest;
  }

  lemma HandleDataLogged(n: Node, d: Data, now: Time)
    ensures FollowsLog(n, HandleData(n, d, now))
  {
    var o := HandleData(n, d, now);
    OneCall(n.pit, PIT.Answer(d.name, now), []);
    if o.inserts != [] { assert o.inserts[1..] == []; }
  }

  lemma ProcessCommandLogged(lib: Library, n: Node, face: FaceId, i: Interest, now: Time)
    requires Readable(i.name)
    ensures FollowsLog(n, ProcessCommand(lib, n, face, i, now))
  {
    var given := lib.decode(i.name[|RIB_PREFIX| + 1]);
    if i.name[|RIB_PREFIX|] == REGISTER && given.Some? {
      var p := Defaulted(given.value, face);
      if ValidRequest(lib, p) {
        var n' := n.(fib := FibTable.WithRoute(n.fib, p.name.value, ToInt(p.faceId.value)));
        var response := ControlResponse(200, "Success", Some(p));
        HandleDataLogged(n', Data(i.name, lib.freshness, lib.sign(i.name, response)), now);
      } else {
        var response := ControlResponse(400, "Malformed command", None);
        HandleDataLogged(n, Data(i.name, lib.freshness, lib.sign(i.name, response)), now);
      }
    }
  }

  lemma HandleLogged(lib: Library, n: Node, e: Event)
    requires Enabled(n, e)
    ensures FollowsLog(n, Handle(lib, n, e))
  {
    match e
    case InterestIn(f, i, now) =>
      var ask := PIT.Ask(f, i, now);
      var n' := n.(pit := PIT.Asked(n.pit, ask));
      OneCall(n.pit, ask, []);
      if CS.Lookup(n.cache, i, now).None? && PIT.Fresh(n.pit, i) && RIB_FACE in FibTable.Faces(n.fib, i.name) - {f} {
        ProcessCommandLogged(lib, n', f, i, now);
        OneCall(n.pit, ask, ProcessCommand(lib, n', f, i, now).calls);
      }
    case DataIn(_, d, now) => HandleDataLogged(n, d, now);
    case PitTimer(now) => OneCall(n.pit, PIT.Purge(now), []);
    case _ =>
  }

  lemma {:induction false} TablesFollowLog(lib: Library, n: Node, es: seq<Event>)
    requires Possible(lib, n, es)
    ensures var tr, end := TraceOf(lib, n, es), Run(lib, n, es);
            end.pit == ApplyAll(n.pit, CallsOf(tr))
            && end.cache == InsertAll(n.cache, n.cacheLimit, InsertsOf(tr)) && end.cacheLimit == n.cacheLimit
    decreases |es|
  {
    if es == [] {
    } else {
      var o := Handle(lib, n, es[0]);
      var rest := TraceOf(lib, o.node, es[1..]);
      HandleLogged(lib, n, es[0]);
      TablesFollowLog(lib, o.node, es[1..]);
      assert TraceOf(lib, n, es)[1..] == rest;
      ApplyAllAppend(n.pit, o.calls, CallsOf(rest));
      InsertAllAppend(n.cache, n.cacheLimit, o.inserts, InsertsOf(rest));
    }
  }

  lemma RunFollowsLog(lib: Library, cacheLimit: nat, es: seq<Event>)
    requires Possible(lib, Init(cacheLimit), es)
    ensures var tr, end := TraceOf(lib, Init(cacheLimit), es), Run(lib, Init(cacheLimit), es);
            end.pit == PIT.Replay(CallsOf(tr)) && end.cache == CS.Replay(InsertsOf(tr), cacheLimit)
  {
    var tr := TraceOf(lib, Init(cacheLimit), es);
    TablesFollowLog(lib, Init(cacheLimit), es);
    ReplayIsApplyAll(CallsOf(tr));
    ReplayIsInsertAll(InsertsOf(tr), cacheLimit);
  }

  /** The clock reading after an event, given the one before it. */
  function ClockAfter(t: Time, e: Event): Time {
    match e
    case InterestIn(_, _, at) => at
    case DataIn(_, _, at) => at
    case PitTimer(at) => at
    case _ => t
  }

  /** Clock readings never decrease along the run. */
  predicate ClockRuns(t: Time, es: seq<Event>)
    decreases |es|
  {
    es != [] ==> t <= ClockAfter(t, es[0]) && ClockRuns(ClockAfter(t, es[0]), es[1..])
  }

  function ClockAtEnd(t: Time, es: seq<Event>): Time
    decreases |es|
  {
    if es == [] then t else ClockAtEnd(ClockAfter(t, es[0]), es[1..])
  }

  ghost predicate Within(h: PIT.History, from: Time, to: Time) {
    PIT.Chronological(h) && forall c :: c in h ==> from <= c.at <= to
  }

  lemma WithinAppend(h: PIT.History, more: PIT.History, from: Time, mid: Time, to: Time)
    requires Within(h, from, mid) && Within(more, mid, to) && from <= mid <= to
    ensures Within(h + more, from, to)
  {
    forall i, j | 0 <= i <= j < |h + more| ensures (h + more)[i].at <= (h + more)[j].at {
      if i < |h| <= j {
        assert h[i] in h && more[j - |h|] in more;
      }
    }
  }

  lemma CallsAtEventTime(lib: Library, n: Node, e: Event, t: Time)
    requires Enabled(n, e)
    ensures forall c :: c in Handle(lib, n, e).calls ==> c.at == ClockAfter(t, e)
  {
  }

  lemma {:induction false} CallsFollowClock(lib: Library, n: Node, es: seq<Event>, t: Time)
    requires Possible(lib, n, es) && ClockRuns(t, es)
    ensures t <= ClockAtEnd(t, es)
    ensures Within(CallsOf(TraceOf(lib, n, es)), t, ClockAtEnd(t, es))
    decreases |es|
  {
    if es == [] {
    } else {
      var o, t' := Handle(lib, n, es[0]), ClockAfter(t, es[0]);
      CallsAtEventTime(lib, n, es[0], t);
      CallsFollowClock(lib, o.node, es[1..], t');
      assert TraceOf(lib, n, es)[1..] == TraceOf(lib, o.node, es[1..]);
      assert Within(o.calls, t, t') by {
        assert forall i :: 0 <= i < |o.calls| ==> o.calls[i] in o.calls;
      }
      WithinAppend(o.calls, CallsOf(TraceOf(lib, o.node, es[1..])), t, t', ClockAtEnd(t, es));
    }
  }

  /** Data goes to the existing faces that wait for it and is cached if any face waits; no
      entry for a prefix of its name is left, and no other entry is touched. */
  lemma DataOutcome(n: Node, d: Data, now: Time)
    ensures var o, waiting := HandleData(n, d, now), PIT.Waiting(n.pit, d.name, now);
            && o.calls == [PIT.Answer(d.name, now)] && o.registered.None?
            && o.sent == (if waiting == {} then Quiet else Forward(DataPacket(d), waiting * n.faces))
            && o.inserts == (if waiting == {} then [] else [CS.CacheEntry(d, now + d.freshness)])
            && (forall p :: p in o.node.pit <==> p in n.pit && !(p <= d.name))
            && (forall p :: p in o.node.pit ==> o.node.pit[p] == n.pit[p])
  {
  }

  /** Exact delivery at the node: after any run, a Data packet goes to exactly the existing
      faces from which some Interest, accepted under a prefix of its name, is unexpired and
      unanswered, and it is cached exactly when there is such a face, existing or not. */
  lemma DataReachesExactlyTheOwed(lib: Library, cacheLimit: nat, es: seq<Event>, t: Time, d: Data, now: Time)
    requires Possible(lib, Init(cacheLimit), es)
    requires ClockRuns(t, es) && ClockAtEnd(t, es) <= now
    ensures var h := CallsOf(TraceOf(lib, Init(cacheLimit), es));
            var n := Run(lib, Init(cacheLimit), es);
            var o := HandleData(n, d, now);
            (forall f :: PIT.Owed(h, f, d.name, now) && f in n.faces <==>
                         o.sent.Forward? && o.sent.packet == DataPacket(d) && f in o.sent.to)
            && (o.inserts == [CS.CacheEntry(d, now + d.freshness)] <==> exists f :: PIT.Owed(h, f, d.name, now))
            && o.calls == [PIT.Answer(d.name, now)]
  {
    var h, n := CallsOf(TraceOf(lib, Init(cacheLimit), es)), Run(lib, Init(cacheLimit), es);
    RunFollowsLog(lib, cacheLimit, es);
    CallsFollowClock(lib, Init(cacheLimit), es, t);
    if h != [] { assert h[|h| - 1] in h; }
    forall f ensures f in PIT.Waiting(n.pit, d.name, now) <==> PIT.Owed(h, f, d.name, now) {
      PIT.ExactDelivery(h, d.name, now, f);
    }
    var waiting := PIT.Waiting(n.pit, d.name, now);
    DataOutcome(n, d, now);
    if waiting != {} {
      var f :| f in waiting;
      assert PIT.Owed(h, f, d.name, now);
    }
  }

  /** What the node answers from its cache is the oldest match in the longest suffix, that
      fits the limit, of the eligible Data it ever cached. */
  lemma CacheAnswersFromWindow(lib: Library, cacheLimit: nat, es: seq<Event>, i: Interest, now: Time)
    returns (k: nat, m: nat)
    requires Possible(lib, Init(cacheLimit), es)
    ensures var h := CS.Eligible(InsertsOf(TraceOf(lib, Init(cacheLimit), es)), cacheLimit);
            var n := Run(lib, Init(cacheLimit), es);
            CS.LongestFitting(h, k, cacheLimit) && n.cache == h[k..]
            && match CS.Lookup(n.cache, i, now)
               case None => forall j :: k <= j < |h| ==> !CS.Matches(h[j], i, now)
               case Some(d) => k <= m < |h| && CS.Matches(h[m], i, now) && h[m].data == d
                               && forall j :: k <= j < m ==> !CS.Matches(h[j], i, now)
  {
    var ins := InsertsOf(TraceOf(lib, Init(cacheLimit), es));
    RunFollowsLog(lib, cacheLimit, es);
    k, m := CS.AnswerIsOldestInWindow(ins, cacheLimit, i, now);
  }
}
