/** Face ids, the FIB manager's face 0 and route registration over whole runs. */
module ForwardingFaces {
  import opened Ndn
  import opened ForwardingNode
  import FibTable
  import PIT = PendingInterests
  import CS = ContentStore

  // ---- Identity of faces --------------------------------------------------------------

  ghost predicate FacesInOrder(n: Node) {
    && 1 <= n.counter <= MAX_INT
    && (forall f :: f in n.faces ==> 1 <= f < n.counter)
    && (n.listening.Some? ==> 1 <= n.listening.value < n.counter && n.listening.value !in n.faces)
    && (n.started <==> n.listening.Some?)
  }

  /** Face 0 is where the FIB manager put it, and nowhere before it exists. */
  ghost predicate RibRouted(n: Node) {
    && (n.started ==> RIB_PREFIX in n.fib && RIB_FACE in n.fib[RIB_PREFIX])
    && (forall p :: p in n.fib && RIB_FACE in n.fib[p] ==> n.started)
    && FibTable.NoEmptyEntry(n.fib)
  }

  ghost predicate Sound(n: Node) {
    FacesInOrder(n) && RibRouted(n)
  }

  lemma RouteKeepsRib(n: Node, prefix: Name, f: FaceId)
    requires RibRouted(n) && (f == RIB_FACE ==> n.started)
    ensures RibRouted(n.(fib := FibTable.WithRoute(n.fib, prefix, f)))
  {
    FibTable.RouteAddsExactly(n.fib, prefix, f, prefix);
  }

  lemma FibOfCommand(lib: Library, n: Node, face: FaceId, i: Interest, now: Time)
    requires Readable(i.name)
    ensures var o := ProcessCommand(lib, n, face, i, now);
            o.node.(pit := n.pit, cache := n.cache, fib := n.fib) == n
            && o.node.fib == if o.registered.None? then n.fib
                             else FibTable.WithRoute(n.fib, o.registered.value.0, ToInt(o.registered.value.1))
  {
  }

  lemma HandleKeepsRib(lib: Library, n: Node, e: Event)
    requires Sound(n) && Enabled(n, e)
    ensures RibRouted(Handle(lib, n, e).node)
  {
    match e
    case InterestIn(f, i, now) =>
      if CS.Lookup(n.cache, i, now).None? && PIT.Fresh(n.pit, i) && RIB_FACE in FibTable.Faces(n.fib, i.name) - {f} {
        var n' := n.(pit := PIT.Asked(n.pit, PIT.Ask(f, i, now)));
        var o := ProcessCommand(lib, n', f, i, now);
        FibOfCommand(lib, n', f, i, now);
        if o.registered.Some? { RouteKeepsRib(n', o.registered.value.0, ToInt(o.registered.value.1)); }
      }
    case RouteAdded(prefix, known) => RouteKeepsRib(n, prefix, if known.Some? then known.value else n.counter);
    case Started => FibTable.RouteAddsExactly(n.fib, RIB_PREFIX, RIB_FACE, RIB_PREFIX);
    case FaceRemoved(f) =>
      FibTable.CleanUpLookup(n.fib, f, RIB_PREFIX);
      assert RIB_FACE in n.fib[RIB_PREFIX] - {f};
    case _ =>
  }

  /** A command changes no face. */
  lemma CommandKeepsFaces(lib: Library, n: Node, e: Event)
    requires e.InterestIn? && Enabled(n, e)
    ensures var o := Handle(lib, n, e);
            o.node.faces == n.faces && o.node.counter == n.counter && o.node.listening == n.listening
            && o.node.started == n.started && (o.sent.Forward? ==> o.sent.to <= n.faces)
  {
    if RIB_FACE in FibTable.Faces(n.fib, e.interest.name) {
      FibOfCommand(lib, n.(pit := PIT.Asked(n.pit, PIT.Ask(e.face, e.interest, e.at))), e.face, e.interest, e.at);
    }
  }

  lemma HandleKeepsOrder(lib: Library, n: Node, e: Event)
    requires FacesInOrder(n) && Enabled(n, e)
    ensures FacesInOrder(Handle(lib, n, e).node)
  {
    if e.InterestIn? { CommandKeepsFaces(lib, n, e); }
  }

  /** Ids are handed out once, in order; sends go only to faces in the table; only a removal
      takes a face out, and only the one it names. */
  lemma HandleSound(lib: Library, n: Node, e: Event)
    requires Sound(n) && Enabled(n, e)
    ensures var o := Handle(lib, n, e);
            Sound(o.node) && n.counter <= o.node.counter
            && n.faces - o.node.faces <= (if e.FaceRemoved? then {e.face} else {})
            && o.node.faces - n.faces <= {n.counter} + (if n.listening.Some? then {n.listening.value} else {})
            && (o.node.listening == n.listening || o.node.listening == Some(n.counter))
            && (o.sent.Forward? ==> o.sent.to <= n.faces)
  {
    HandleKeepsRib(lib, n, e);
    HandleKeepsOrder(lib, n, e);
    if e.InterestIn? { CommandKeepsFaces(lib, n, e); }
  }

  /** An id that was given out and is not in use any more. */
  predicate Retired(n: Node, f: FaceId) {
    1 <= f < n.counter && f !in n.faces && n.listening != Some(f)
  }

  lemma InitSound(cacheLimit: nat)
    ensures Sound(Init(cacheLimit))
  {
  }

  lemma StaysRetired(lib: Library, n: Node, e: Event, f: FaceId)
    requires Sound(n) && Retired(n, f) && Enabled(n, e)
    ensures var o := Handle(lib, n, e);
            Retired(o.node, f) && (o.sent.Forward? ==> f !in o.sent.to)
  {
    HandleSound(lib, n, e);
  }

  /** Sends go only to faces in the table, and a removed face never comes back into it. */
  lemma {:induction false} NothingAfterRemoval(lib: Library, n: Node, es: seq<Event>, f: FaceId)
    requires Sound(n) && Retired(n, f) && Possible(lib, n, es)
    ensures Sound(Run(lib, n, es)) && Retired(Run(lib, n, es), f)
    ensures forall x :: x in TraceOf(lib, n, es) && x.sent.Forward? ==> f !in x.sent.to
    decreases |es|
  {
    if es == [] {
    } else {
      var o := Handle(lib, n, es[0]);
      HandleSound(lib, n, es[0]);
      StaysRetired(lib, n, es[0], f);
      NothingAfterRemoval(lib, o.node, es[1..], f);
      assert TraceOf(lib, n, es) == [EntryOf(es[0], o)] + TraceOf(lib, o.node, es[1..]);
    }
  }

  lemma {:induction false} RunSound(lib: Library, n: Node, es: seq<Event>)
    requires Sound(n) && Possible(lib, n, es)
    ensures Sound(Run(lib, n, es)) && n.counter <= Run(lib, n, es).counter
    decreases |es|
  {
    if es == [] {
    } else {
      HandleSound(lib, n, es[0]);
      RunSound(lib, Handle(lib, n, es[0]).node, es[1..]);
    }
  }

  lemma {:induction false} RunAppend(lib: Library, n: Node, es: seq<Event>, more: seq<Event>)
    requires Possible(lib, n, es + more)
    ensures Possible(lib, n, es) && Possible(lib, Run(lib, n, es), more)
    ensures Run(lib, n, es + more) == Run(lib, Run(lib, n, es), more)
    ensures TraceOf(lib, n, es + more) == TraceOf(lib, n, es) + TraceOf(lib, Run(lib, n, es), more)
    decreases |es|
  {
    if es == [] {
      assert es + more == more;
    } else {
      assert (es + more)[1..] == es[1..] + more;
      RunAppend(lib, Handle(lib, n, es[0]).node, es[1..], more);
    }
  }

  /** From start-up: after a face is removed nothing is ever sent to it again, even while
      pending Interests still name it, and its id is not given out again. */
  lemma RemovedFaceIsSilent(lib: Library, cacheLimit: nat, es: seq<Event>, f: FaceId, more: seq<Event>)
    requires Possible(lib, Init(cacheLimit), es + ([FaceRemoved(f)] + more))
    ensures Possible(lib, Init(cacheLimit), es)
    ensures var n := Run(lib, Init(cacheLimit), es);
            Enabled(n, FaceRemoved(f))
            && Possible(lib, RemoveFace(n, f), more)
            && f !in Run(lib, RemoveFace(n, f), more).faces
            && forall x :: x in TraceOf(lib, RemoveFace(n, f), more) && x.sent.Forward? ==> f !in x.sent.to
  {
    InitSound(cacheLimit);
    RunAppend(lib, Init(cacheLimit), es, [FaceRemoved(f)] + more);
    RunSound(lib, Init(cacheLimit), es);
    var n := Run(lib, Init(cacheLimit), es);
    assert ([FaceRemoved(f)] + more)[1..] == more;
    HandleSound(lib, n, FaceRemoved(f));
    NothingAfterRemoval(lib, RemoveFace(n, f), more, f);
  }

  // ---- The FIB manager's face ---------------------------------------------------------

  lemma CommandsReachManager(lib: Library, n: Node, f: FaceId, i: Interest, now: Time)
    requires Sound(n) && n.started && Enabled(n, InterestIn(f, i, now)) && RIB_PREFIX <= i.name
    ensures var s := HandleInterest(lib, n, f, i, now).sent;
            s.Forward? ==> s.packet.DataPacket?
  {
    assert RIB_FACE in FibTable.Faces(n.fib, i.name);
  }

  /** Once started, the node never forwards an Interest under the command prefix: whatever
      other routes cover it, it goes to the FIB manager. */
  lemma {:induction false} CommandsStayLocal(lib: Library, n: Node, es: seq<Event>)
    requires Sound(n) && n.started && Possible(lib, n, es)
    ensures forall x :: x in TraceOf(lib, n, es) && x.event.InterestIn? && RIB_PREFIX <= x.event.interest.name ==>
              (x.sent.Forward? ==> x.sent.packet.DataPacket?)
    ensures Run(lib, n, es).started
    decreases |es|
  {
    if es == [] {
    } else {
      var e := es[0];
      HandleSound(lib, n, e);
      if e.InterestIn? && RIB_PREFIX <= e.interest.name {
        CommandsReachManager(lib, n, e.face, e.interest, e.at);
      }
      CommandsStayLocal(lib, Handle(lib, n, e).node, es[1..]);
    }
  }

  /** The FIB manager is only called once it exists. */
  lemma ManagerExists(lib: Library, cacheLimit: nat, es: seq<Event>, i: Interest)
    requires Possible(lib, Init(cacheLimit), es)
    requires RIB_FACE in FibTable.Faces(Run(lib, Init(cacheLimit), es).fib, i.name)
    ensures Run(lib, Init(cacheLimit), es).started
  {
    InitSound(cacheLimit);
    RunSound(lib, Init(cacheLimit), es);
  }

  /** The route a command name asks for, if it is a valid `register` command. */
  function CommandRoute(lib: Library, face: FaceId, name: Name): Option<(Name, nat)>
    requires Readable(name)
  {
    if name[|RIB_PREFIX|] != REGISTER then None
    else
      match lib.decode(name[|RIB_PREFIX| + 1])
      case None => None
      case Some(given) =>
        var p := Defaulted(given, face);
        if ValidRequest(lib, p) then Some((p.name.value, p.faceId.value)) else None
  }

  /** The route an event asks for, read off the Interest and the tables before the node
      handles it: a new Interest that the cache does not answer and the FIB leads to face 0. */
  function Requested(lib: Library, n: Node, e: Event): Option<(Name, nat)>
    requires Enabled(n, e)
  {
    if !e.InterestIn? || CS.Lookup(n.cache, e.interest, e.at).Some? || !PIT.Fresh(n.pit, e.interest)
       || RIB_FACE !in FibTable.Faces(n.fib, e.interest.name) - {e.face}
    then None
    else CommandRoute(lib, e.face, e.interest.name)
  }

  lemma RegisteredIsRequested(lib: Library, n: Node, e: Event)
    requires Enabled(n, e)
    ensures Handle(lib, n, e).registered == Requested(lib, n, e)
  {
  }

  /** A route for another prefix whose 64-bit face id is a multiple of 2^32, which reads as
      face 0 once it has been narrowed to `int`. */
  predicate AliasesManager(route: Option<(Name, nat)>) {
    route.Some? && route.value.0 != RIB_PREFIX && route.value.1 % 0x1_0000_0000 == 0
  }

  /** On the way such a route is asked for. */
  predicate AliasRequested(lib: Library, n: Node, es: seq<Event>)
    requires Possible(lib, n, es)
    decreases |es|
  {
    es != []
    && (AliasesManager(Requested(lib, n, es[0])) || AliasRequested(lib, Handle(lib, n, es[0]).node, es[1..]))
  }

  ghost predicate ManagerElsewhere(n: Node) {
    exists p :: p in n.fib && p != RIB_PREFIX && RIB_FACE in n.fib[p]
  }

  lemma NarrowedToZero(v: nat)
    ensures ToInt(v) == RIB_FACE <==> v % 0x1_0000_0000 == 0
  {
  }

  lemma RouteElsewhere(n: Node, prefix: Name, f: FaceId)
    ensures ManagerElsewhere(n.(fib := FibTable.WithRoute(n.fib, prefix, f)))
            <==> ManagerElsewhere(n) || (prefix != RIB_PREFIX && f == RIB_FACE)
  {
    var n' := n.(fib := FibTable.WithRoute(n.fib, prefix, f));
    if ManagerElsewhere(n) {
      var p :| p in n.fib && p != RIB_PREFIX && RIB_FACE in n.fib[p];
      assert p in n'.fib && RIB_FACE in n'.fib[p];
    }
    if prefix != RIB_PREFIX && f == RIB_FACE { assert RIB_FACE in n'.fib[prefix]; }
  }

  lemma StepElsewhere(lib: Library, n: Node, e: Event)
    requires Sound(n) && Enabled(n, e)
    ensures var o := Handle(lib, n, e);
            ManagerElsewhere(o.node) <==> ManagerElsewhere(n) || AliasesManager(Requested(lib, n, e))
  {
    RegisteredIsRequested(lib, n, e);
    match e
    case InterestIn(f, i, now) =>
      if CS.Lookup(n.cache, i, now).None? && PIT.Fresh(n.pit, i) && RIB_FACE in FibTable.Faces(n.fib, i.name) - {f} {
        var n' := n.(pit := PIT.Asked(n.pit, PIT.Ask(f, i, now)));
        var o := ProcessCommand(lib, n', f, i, now);
        FibOfCommand(lib, n', f, i, now);
        if o.registered.Some? {
          NarrowedToZero(o.registered.value.1);
          RouteElsewhere(n', o.registered.value.0, ToInt(o.registered.value.1));
          assert ManagerElsewhere(n') == ManagerElsewhere(n);
        }
      }
    case RouteAdded(prefix, known) => RouteElsewhere(n, prefix, if known.Some? then known.value else n.counter);
    case Started => RouteElsewhere(n, RIB_PREFIX, RIB_FACE);
    case FaceRemoved(f) =>
      var n' := RemoveFace(n, f);
      if ManagerElsewhere(n) {
        var p :| p in n.fib && p != RIB_PREFIX && RIB_FACE in n.fib[p];
        assert RIB_FACE in n.fib[p] - {f};
        assert p in n'.fib;
      }
    case _ =>
  }

  lemma {:induction false} ElsewhereIff(lib: Library, n: Node, es: seq<Event>)
    requires Sound(n) && Possible(lib, n, es)
    ensures ManagerElsewhere(Run(lib, n, es)) <==> ManagerElsewhere(n) || AliasRequested(lib, n, es)
    decreases |es|
  {
    if es == [] {
      assert !AliasRequested(lib, n, es);
    } else {
      HandleSound(lib, n, es[0]);
      StepElsewhere(lib, n, es[0]);
      ElsewhereIff(lib, Handle(lib, n, es[0]).node, es[1..]);
    }
  }

  /** Face 0 occurs in the FIB only at the command prefix, except exactly when on the way some
      command asked for another prefix with a face id that is a multiple of 2^32. */
  lemma ManagerFaceOnlyAtPrefix(lib: Library, cacheLimit: nat, es: seq<Event>)
    requires Possible(lib, Init(cacheLimit), es)
    ensures (forall p :: p in Run(lib, Init(cacheLimit), es).fib && RIB_FACE in Run(lib, Init(cacheLimit), es).fib[p]
                         ==> p == RIB_PREFIX)
            <==> !AliasRequested(lib, Init(cacheLimit), es)
  {
    InitSound(cacheLimit);
    ElsewhereIff(lib, Init(cacheLimit), es);
    assert !ManagerElsewhere(Init(cacheLimit));
  }

  /** No command in the event can ask for such a route, whatever state it meets: it names no
      face, or one that is not a multiple of 2^32, or the command prefix. */
  predicate KeepsManagerApart(lib: Library, e: Event) {
    e.InterestIn? && Readable(e.interest.name) && e.interest.name[|RIB_PREFIX|] == REGISTER ==>
      match lib.decode(e.interest.name[|RIB_PREFIX| + 1])
      case None => true
      case Some(given) =>
        given.name == Some(RIB_PREFIX) || given.faceId.None? || given.faceId.value == 0
        || given.faceId.value % 0x1_0000_0000 != 0
  }

  lemma OwnFaceSurvives(f: FaceId)
    requires 1 <= f < MAX_INT
    ensures ToInt(ToUint64(f)) == f && ToUint64(f) != 0
  {
  }

  lemma ApartIsNotRequested(lib: Library, n: Node, e: Event)
    requires Sound(n) && Enabled(n, e) && KeepsManagerApart(lib, e)
    ensures !AliasesManager(Requested(lib, n, e))
  {
    if Requested(lib, n, e).Some? { OwnFaceSurvives(e.face); }
  }

  lemma {:induction false} NoneRequested(lib: Library, n: Node, es: seq<Event>)
    requires Sound(n) && Possible(lib, n, es) && forall e :: e in es ==> KeepsManagerApart(lib, e)
    ensures !AliasRequested(lib, n, es)
    decreases |es|
  {
    if es == [] {
      assert !AliasRequested(lib, n, es);
    } else {
      HandleSound(lib, n, es[0]);
      ApartIsNotRequested(lib, n, es[0]);
      NoneRequested(lib, Handle(lib, n, es[0]).node, es[1..]);
    }
  }

  /** A condition on the schedule alone. */
  lemma ApartByInput(lib: Library, cacheLimit: nat, es: seq<Event>)
    requires Possible(lib, Init(cacheLimit), es) && forall e :: e in es ==> KeepsManagerApart(lib, e)
    ensures forall p :: p in Run(lib, Init(cacheLimit), es).fib && RIB_FACE in Run(lib, Init(cacheLimit), es).fib[p]
                        ==> p == RIB_PREFIX
  {
    InitSound(cacheLimit);
    NoneRequested(lib, Init(cacheLimit), es);
    ManagerFaceOnlyAtPrefix(lib, cacheLimit, es);
  }

  /** In particular when every face id that can be decoded fits an `int`. */
  lemma ApartIfIdsFit(lib: Library, cacheLimit: nat, es: seq<Event>)
    requires Possible(lib, Init(cacheLimit), es)
    requires forall w :: lib.decode(w).Some? && lib.decode(w).value.faceId.Some? ==>
               lib.decode(w).value.faceId.value <= MAX_INT
    ensures forall p :: p in Run(lib, Init(cacheLimit), es).fib && RIB_FACE in Run(lib, Init(cacheLimit), es).fib[p]
                        ==> p == RIB_PREFIX
  {
    assert forall e :: e in es ==> KeepsManagerApart(lib, e);
    ApartByInput(lib, cacheLimit, es);
  }

  /** The node starts, a client connects and sends one command. */
  function AliasRun(i: Interest, now: Time): seq<Event> {
    [Started] + ([ClientAccepted] + [InterestIn(1, i, now)])
  }

  lemma RunsOn(lib: Library, n: Node, e: Event, rest: seq<Event>)
    requires Enabled(n, e) && Possible(lib, Handle(lib, n, e).node, rest)
    ensures Possible(lib, n, [e] + rest) && Run(lib, n, [e] + rest) == Run(lib, Handle(lib, n, e).node, rest)
  {
    assert ([e] + rest)[1..] == rest;
  }

  /** Such a registration goes through from start-up: any prefix can be led to face 0. */
  lemma AliasGoesThrough(lib: Library, cacheLimit: nat, i: Interest, now: Time, given: ControlParameters)
    requires Readable(i.name) && RIB_PREFIX <= i.name && i.name[|RIB_PREFIX|] == REGISTER
    requires lib.decode(i.name[|RIB_PREFIX| + 1]) == Some(given) && ValidRequest(lib, given)
    requires given.faceId.value > 0 && given.faceId.value % 0x1_0000_0000 == 0
    ensures Possible(lib, Init(cacheLimit), AliasRun(i, now))
    ensures var fib := Run(lib, Init(cacheLimit), AliasRun(i, now)).fib;
            given.name.value in fib && RIB_FACE in fib[given.name.value]
  {
    var n0 := Init(cacheLimit);
    var n1 := Handle(lib, n0, Started).node;
    var n2 := Handle(lib, n1, ClientAccepted).node;
    var e := InterestIn(1, i, now);
    assert RIB_FACE in n2.fib[RIB_PREFIX];
    assert RIB_FACE in FibTable.Faces(n2.fib, i.name);
    assert Defaulted(given, 1) == given;
    RegisteredIsRequested(lib, n2, e);
    assert Requested(lib, n2, e) == Some((given.name.value, given.faceId.value));
    FibOfCommand(lib, n2.(pit := PIT.Asked(n2.pit, PIT.Ask(1, i, now))), 1, i, now);
    NarrowedToZero(given.faceId.value);
    assert Run(lib, n2, [e] + []) == Handle(lib, n2, e).node by { RunsOn(lib, n2, e, []); }
    assert [e] + [] == [e];
    RunsOn(lib, n1, ClientAccepted, [e]);
    RunsOn(lib, n0, Started, [ClientAccepted] + [e]);
  }

  // ---- Registering a route, end to end ------------------------------------------------

  lemma AskedIsWaiting(t: PIT.Table, ask: PIT.Event, now: Time)
    requires ask.Ask? && ask.at == now && PIT.Fresh(t, ask.interest)
    ensures PIT.Waiting(PIT.Asked(t, ask), ask.interest.name, now)
         == PIT.Waiting(t, ask.interest.name, now) + (if ask.interest.lifetime > 0 then {ask.face} else {})
  {
    var i, t' := ask.interest, PIT.Asked(t, ask);
    assert t'[i.name][i.nonce] == PIT.Record(ask);
    forall f ensures f in PIT.Waiting(t', i.name, now)
                     <==> f in PIT.Waiting(t, i.name, now) || (i.lifetime > 0 && f == ask.face)
    {
      if f in PIT.Waiting(t, i.name, now) {
        var n, k := PIT.WaitingRecord(t, i.name, now, f);
        assert n in t' && k in t'[n] && t'[n][k] == t[n][k];
      }
      if f in PIT.Waiting(t', i.name, now) {
        var n, k := PIT.WaitingRecord(t', i.name, now, f);
        if !PIT.Has(t, n, k) { assert n == i.name && k == i.nonce; }
      }
    }
  }

  /** One `register` command, through the re-entrant Data path: the FIB gains exactly the
      requested route, no pending Interest is left under the command name, and the response
      goes to the requester, if it still exists, and to whoever else waited for that name. */
  lemma RegisterEndToEnd(lib: Library, n: Node, face: FaceId, i: Interest, now: Time, given: ControlParameters)
    requires Sound(n) && n.started && Enabled(n, InterestIn(face, i, now))
    requires RIB_PREFIX <= i.name && CS.Lookup(n.cache, i, now).None? && PIT.Fresh(n.pit, i) && i.lifetime > 0
    requires Readable(i.name) && i.name[|RIB_PREFIX|] == REGISTER
    requires lib.decode(i.name[|RIB_PREFIX| + 1]) == Some(given) && ValidRequest(lib, Defaulted(given, face))
    ensures var o := HandleInterest(lib, n, face, i, now);
            var target := if given.faceId.None? || given.faceId.value == 0 then face else ToInt(given.faceId.value);
            && o.node.fib == FibTable.WithRoute(n.fib, given.name.value, target)
            && (forall m :: m in o.node.pit ==> !(m <= i.name))
            && o.node.pit == PIT.Answered(n.pit, i.name)
            && o.sent.Forward? && o.sent.packet.DataPacket? && o.sent.packet.data.name == i.name
            && o.sent.packet.data.wire
               == lib.sign(i.name, ControlResponse(200, "Success", Some(Defaulted(given, face))))
            && o.sent.to == (PIT.Waiting(n.pit, i.name, now) + {face}) * n.faces
  {
    var ask := PIT.Ask(face, i, now);
    var n' := n.(pit := PIT.Asked(n.pit, ask));
    assert RIB_FACE in FibTable.Faces(n.fib, i.name);
    OwnFaceSurvives(face);
    AskedIsWaiting(n.pit, ask, now);
    assert PIT.Answered(n'.pit, i.name) == PIT.Answered(n.pit, i.name);
    var p := Defaulted(given, face);
    assert HandleInterest(lib, n, face, i, now).node == ProcessCommand(lib, n', face, i, now).node;
  }
}
