/** What a node answers, forwards, refuses and ignores, and what each event does to its
    routes and faces. */
module NodeAnswers {
  import opened Ndn
  import opened ForwardingNode
  import opened ForwardingRuns
  import FibTable
  import ForwardingFaces
  import PIT = PendingInterests
  import CS = ContentStore

  // ---- Answers from the cache ---------------------------------------------------------------

  predicate NothingMatches(q: CS.Queue, i: Interest, now: Time) {
    forall k :: 0 <= k < |q| ==> !CS.Matches(q[k], i, now)
  }

  lemma LookupFinds(q: CS.Queue, i: Interest, now: Time, m: nat)
    requires m < |q| && CS.Matches(q[m], i, now) && forall j :: 0 <= j < m ==> !CS.Matches(q[j], i, now)
    ensures CS.Lookup(q, i, now) == Some(q[m].data)
  {
    CS.LookupIsOldest(q, i, now);
  }

  /** The oldest match goes back to the face the Interest came from, if that face exists, and
      nothing else happens. */
  lemma AnsweredFromCache(lib: Library, n: Node, f: FaceId, i: Interest, now: Time, m: nat)
    requires Enabled(n, InterestIn(f, i, now))
    requires m < |n.cache| && CS.Matches(n.cache[m], i, now)
    requires forall j :: 0 <= j < m ==> !CS.Matches(n.cache[j], i, now)
    ensures Handle(lib, n, InterestIn(f, i, now))
         == Outcome(n, Forward(DataPacket(n.cache[m].data), {f} * n.faces), [], [], None)
  {
    LookupFinds(n.cache, i, now, m);
  }

  lemma UncachedIsAsked(lib: Library, n: Node, f: FaceId, i: Interest, now: Time)
    requires Enabled(n, InterestIn(f, i, now)) && CS.Lookup(n.cache, i, now).None?
    ensures var o := Handle(lib, n, InterestIn(f, i, now));
            o.calls != [] && o.calls[0] == PIT.Ask(f, i, now)
  {
  }

  /** What was cached matches an Interest under a prefix of its name, as long as its freshness
      period has not run out since or the Interest does not ask. */
  lemma CachedMatches(lib: Library, n: Node, e: Event, c: CS.CacheEntry, i: Interest, now: Time)
    requires Enabled(n, e) && c in Handle(lib, n, e).inserts
    ensures e.InterestIn? || e.DataIn?
    ensures CS.Matches(c, i, now)
            <==> i.name <= c.data.name && (i.mustBeFresh ==> e.at + c.data.freshness > now)
    ensures e.DataIn? ==> c.data == e.data
  {
  }

  ghost predicate CachedBy(x: Entry, c: CS.CacheEntry, i: Interest, now: Time) {
    (x.event.InterestIn? || x.event.DataIn?) && c in x.inserts
    && (CS.Matches(c, i, now) <==> i.name <= c.data.name && (i.mustBeFresh ==> x.event.at + c.data.freshness > now))
  }

  lemma {:induction false} CachedOnTheWay(lib: Library, n: Node, es: seq<Event>, c: CS.CacheEntry, i: Interest,
                                          now: Time)
    returns (k: nat)
    requires Possible(lib, n, es) && c in InsertsOf(TraceOf(lib, n, es))
    ensures k < |es| && k < |TraceOf(lib, n, es)| && CachedBy(TraceOf(lib, n, es)[k], c, i, now)
    decreases |es|
  {
    var o := Handle(lib, n, es[0]);
    var rest := TraceOf(lib, o.node, es[1..]);
    assert TraceOf(lib, n, es)[1..] == rest;
    if c in o.inserts {
      k := 0;
      CachedMatches(lib, n, es[0], c, i, now);
    } else {
      var j := CachedOnTheWay(lib, o.node, es[1..], c, i, now);
      k := j + 1;
    }
  }

  lemma AnsweredByWindow(lib: Library, n: Node, f: FaceId, i: Interest, now: Time, h: CS.Queue, k: nat, m: nat)
    requires Enabled(n, InterestIn(f, i, now)) && k <= |h| && n.cache == h[k..]
    requires match CS.Lookup(n.cache, i, now)
             case None => forall j :: k <= j < |h| ==> !CS.Matches(h[j], i, now)
             case Some(d) => k <= m < |h| && CS.Matches(h[m], i, now) && h[m].data == d
                             && forall j :: k <= j < m ==> !CS.Matches(h[j], i, now)
    ensures var o := Handle(lib, n, InterestIn(f, i, now));
            if exists j :: k <= j < |h| && CS.Matches(h[j], i, now)
            then k <= m < |h| && CS.Matches(h[m], i, now) && (forall j :: k <= j < m ==> !CS.Matches(h[j], i, now))
                 && o == Outcome(n, Forward(DataPacket(h[m].data), {f} * n.faces), [], [], None)
            else o.calls != [] && o.calls[0] == PIT.Ask(f, i, now)
  {
    if CS.Lookup(n.cache, i, now).Some? {
      assert n.cache[m - k] == h[m] && forall j :: 0 <= j < m - k ==> n.cache[j] == h[k + j];
      AnsweredFromCache(lib, n, f, i, now, m - k);
    } else {
      UncachedIsAsked(lib, n, f, i, now);
    }
  }

  /** After any run from start-up: if something in the longest fitting suffix of the eligible
      insertions matches, the oldest such Data is sent to the face of the Interest, no table is
      asked and nothing changes; otherwise the pending-interest table is asked first. */
  lemma CachedDataIsSent(lib: Library, cacheLimit: nat, es: seq<Event>, f: FaceId, i: Interest, now: Time)
    returns (k: nat, m: nat)
    requires Possible(lib, Init(cacheLimit), es)
    requires Enabled(Run(lib, Init(cacheLimit), es), InterestIn(f, i, now))
    ensures var h := CS.Eligible(InsertsOf(TraceOf(lib, Init(cacheLimit), es)), cacheLimit);
            var n := Run(lib, Init(cacheLimit), es);
            var o := Handle(lib, n, InterestIn(f, i, now));
            && CS.LongestFitting(h, k, cacheLimit)
            && if exists j :: k <= j < |h| && CS.Matches(h[j], i, now)
               then k <= m < |h| && CS.Matches(h[m], i, now) && (forall j :: k <= j < m ==> !CS.Matches(h[j], i, now))
                    && o == Outcome(n, Forward(DataPacket(h[m].data), {f} * n.faces), [], [], None)
               else o.calls != [] && o.calls[0] == PIT.Ask(f, i, now)
  {
    var h := CS.Eligible(InsertsOf(TraceOf(lib, Init(cacheLimit), es)), cacheLimit);
    var n := Run(lib, Init(cacheLimit), es);
    k, m := CacheAnswersFromWindow(lib, cacheLimit, es, i, now);
    AnsweredByWindow(lib, n, f, i, now, h, k, m);
  }

  // ---- Interests the cache does not answer --------------------------------------------------

  /** The node with the record of a new Interest. */
  function WithRecord(n: Node, f: FaceId, i: Interest, now: Time): Node {
    var records := if i.name in n.pit then n.pit[i.name] else map[];
    n.(pit := n.pit[i.name := records[i.nonce := PIT.FaceRecord(f, now + i.lifetime)]])
  }

  /** An Interest with a recorded name and nonce changes nothing and goes nowhere. */
  lemma RepeatIsDropped(lib: Library, n: Node, f: FaceId, i: Interest, now: Time)
    requires Enabled(n, InterestIn(f, i, now)) && NothingMatches(n.cache, i, now)
    requires i.name in n.pit && i.nonce in n.pit[i.name]
    ensures Handle(lib, n, InterestIn(f, i, now)) == Outcome(n, Quiet, [PIT.Ask(f, i, now)], [], None)
  {
    CS.LookupIsOldest(n.cache, i, now);
  }

  ghost predicate New(n: Node, i: Interest, now: Time) {
    NothingMatches(n.cache, i, now) && !(i.name in n.pit && i.nonce in n.pit[i.name])
  }

  /** Some entry for a prefix of the name leads to this face. */
  ghost predicate Leads(n: Node, name: Name, g: FaceId) {
    exists p :: p in n.fib && p <= name && g in n.fib[p]
  }

  /** A new Interest that no route leads to the FIB manager goes to every existing face but its
      own that some route leads to, and is recorded; without any route it goes nowhere. */
  lemma NewInterestIsForwarded(lib: Library, n: Node, f: FaceId, i: Interest, now: Time)
    requires Enabled(n, InterestIn(f, i, now)) && New(n, i, now) && !Leads(n, i.name, RIB_FACE)
    ensures var o := Handle(lib, n, InterestIn(f, i, now));
            && o.node == WithRecord(n, f, i, now) && o.calls == [PIT.Ask(f, i, now)]
            && o.inserts == [] && o.registered.None?
            && if exists g :: g != f && Leads(n, i.name, g)
               then o.sent.Forward? && o.sent.packet == InterestPacket(i)
                    && forall g :: g in o.sent.to <==> g != f && g in n.faces && Leads(n, i.name, g)
               else o.sent == Quiet
  {
    CS.LookupIsOldest(n.cache, i, now);
    var faces := FibTable.Faces(n.fib, i.name);
    assert forall g :: g in faces <==> Leads(n, i.name, g);
    if exists g :: g != f && Leads(n, i.name, g) {
      var g :| g != f && Leads(n, i.name, g);
      assert g in faces - {f};
    } else {
      assert faces - {f} == {};
    }
  }

  // ---- Commands -----------------------------------------------------------------------------

  /** A new command Interest, readable and led to the FIB manager. */
  ghost predicate Command(n: Node, f: FaceId, i: Interest, now: Time) {
    Enabled(n, InterestIn(f, i, now)) && New(n, i, now) && Leads(n, i.name, RIB_FACE)
  }

  lemma CommandIsRead(n: Node, f: FaceId, i: Interest, now: Time)
    requires Command(n, f, i, now)
    ensures RIB_FACE in FibTable.Faces(n.fib, i.name) - {f} && Readable(i.name) && |i.name| >= 5
    ensures CS.Lookup(n.cache, i, now).None? && PIT.Fresh(n.pit, i)
  {
    CS.LookupIsOldest(n.cache, i, now);
  }

  /** Other verbs, and parameters that cannot be decoded, get no answer. */
  lemma OtherCommandsAreIgnored(lib: Library, n: Node, f: FaceId, i: Interest, now: Time)
    requires Command(n, f, i, now)
    requires |i.name| >= 5 && (i.name[3] != "register" || lib.decode(i.name[4]).None?)
    ensures Handle(lib, n, InterestIn(f, i, now))
         == Outcome(WithRecord(n, f, i, now), Quiet, [PIT.Ask(f, i, now)], [], None)
  {
    CommandIsRead(n, f, i, now);
  }

  /** The parameters as they are used: without a face id, or with face id 0, the command means
      the face it came from. */
  function Meant(given: ControlParameters, f: nat): ControlParameters {
    ControlParameters(given.name,
                      Some(if given.faceId.None? || given.faceId.value == 0 then f else given.faceId.value))
  }

  predicate Granted(lib: Library, p: ControlParameters) {
    p.name.Some? && lib.acceptable(p)
  }

  /** The response that a command is owed. */
  function ResponseTo(lib: Library, p: ControlParameters): ControlResponse {
    if Granted(lib, p) then ControlResponse(200, "Success", Some(p))
    else ControlResponse(400, "Malformed command", None)
  }

  /** The signed response to a command. */
  function SignedResponse(lib: Library, name: Name, p: ControlParameters): Data {
    Data(name, lib.freshness, lib.sign(name, ResponseTo(lib, p)))
  }

  /** The faces that wait for the name, the face of the command itself among them unless its
      Interest has no lifetime. */
  function WaitingFor(n: Node, f: FaceId, i: Interest, now: Time): set<FaceId> {
    PIT.Waiting(n.pit, i.name, now) + (if i.lifetime > 0 then {f} else {})
  }

  lemma MeantIsDefaulted(given: ControlParameters, f: FaceId)
    requires 1 <= f < MAX_INT
    ensures Defaulted(given, f) == Meant(given, f)
  {
    ForwardingFaces.OwnFaceSurvives(f);
  }

  /** The response is handled as Data of the command's name. */
  lemma ResponseOutcome(lib: Library, n: Node, f: FaceId, i: Interest, now: Time, fib: FibTable.Table,
                        response: ControlResponse)
    requires PIT.Fresh(n.pit, i)
    ensures var o := SendResponse(lib, WithRecord(n, f, i, now).(fib := fib), i.name, response, now);
            var d := Data(i.name, lib.freshness, lib.sign(i.name, response));
            var to := WaitingFor(n, f, i, now);
            && o.calls == [PIT.Answer(i.name, now)] && o.node.fib == fib
            && o.node.pit == PIT.Answered(n.pit, i.name)
            && o.sent == (if to == {} then Quiet else Forward(DataPacket(d), to * n.faces))
            && o.inserts == (if to == {} then [] else [CS.CacheEntry(d, now + lib.freshness)])
  {
    var ask := PIT.Ask(f, i, now);
    assert WithRecord(n, f, i, now).pit == PIT.Asked(n.pit, ask);
    ForwardingFaces.AskedIsWaiting(n.pit, ask, now);
    assert PIT.Answered(PIT.Asked(n.pit, ask), i.name) == PIT.Answered(n.pit, i.name);
    DataOutcome(WithRecord(n, f, i, now).(fib := fib), Data(i.name, lib.freshness, lib.sign(i.name, response)), now);
  }

  /** The table a command leaves. */
  function FibFor(lib: Library, n: Node, p: ControlParameters): FibTable.Table
    requires p.faceId.Some?
  {
    if Granted(lib, p) then FibTable.WithRoute(n.fib, p.name.value, ToInt(p.faceId.value)) else n.fib
  }

  lemma CommandResponds(lib: Library, n: Node, f: FaceId, i: Interest, now: Time, given: ControlParameters)
    requires Command(n, f, i, now) && f < MAX_INT
    requires |i.name| >= 5 && i.name[3] == "register" && lib.decode(i.name[4]) == Some(given)
    ensures var o, p := Handle(lib, n, InterestIn(f, i, now)), Meant(given, f);
            var r := SendResponse(lib, WithRecord(n, f, i, now).(fib := FibFor(lib, n, p)), i.name,
                                  ResponseTo(lib, p), now);
            && o.node == r.node && o.sent == r.sent && o.inserts == r.inserts
            && o.calls == [PIT.Ask(f, i, now)] + r.calls
            && o.registered == (if Granted(lib, p) then Some((p.name.value, p.faceId.value)) else None)
  {
    CommandIsRead(n, f, i, now);
    MeantIsDefaulted(given, f);
    assert WithRecord(n, f, i, now) == n.(pit := PIT.Asked(n.pit, PIT.Ask(f, i, now)));
  }

  /** Every `register` command whose parameters can be decoded is answered under its own name:
      granted and its route added, or refused and no route touched. The response goes to every
      existing face that waits for the name, and is cached if any face waits. */
  lemma CommandIsAnswered(lib: Library, n: Node, f: FaceId, i: Interest, now: Time, given: ControlParameters)
    requires Command(n, f, i, now) && f < MAX_INT
    requires |i.name| >= 5 && i.name[3] == "register" && lib.decode(i.name[4]) == Some(given)
    ensures var o, p := Handle(lib, n, InterestIn(f, i, now)), Meant(given, f);
            var d, to := SignedResponse(lib, i.name, p), WaitingFor(n, f, i, now);
            && o.calls == [PIT.Ask(f, i, now), PIT.Answer(i.name, now)]
            && o.node.pit == PIT.Answered(n.pit, i.name)
            && o.sent == (if to == {} then Quiet else Forward(DataPacket(d), to * n.faces))
            && o.inserts == (if to == {} then [] else [CS.CacheEntry(d, now + lib.freshness)])
            && o.node.fib == FibFor(lib, n, p)
            && o.registered == (if Granted(lib, p) then Some((p.name.value, p.faceId.value)) else None)
  {
    var p := Meant(given, f);
    CommandIsRead(n, f, i, now);
    CommandResponds(lib, n, f, i, now, given);
    ResponseOutcome(lib, n, f, i, now, FibFor(lib, n, p), ResponseTo(lib, p));
  }

  /** Narrowing a 64-bit face id to `int` keeps it modulo 2^32. */
  lemma NarrowingWraps(v: nat)
    ensures -0x8000_0000 <= ToInt(v) <= 0x7fff_ffff && (v - ToInt(v)) % 0x1_0000_0000 == 0
  {
  }

  // ---- Routes and faces ---------------------------------------------------------------------

  /** What an event does to the lookups of a name. */
  function RoutesAfter(n: Node, e: Event, registered: Option<(Name, nat)>, name: Name, before: set<FaceId>)
    : set<FaceId>
  {
    match e
    case RouteAdded(prefix, known) =>
      before + (if prefix <= name then {if known.Some? then known.value else n.counter} else {})
    case Started => before + (if ["localhost", "nfd", "rib"] <= name then {0} else {})
    case FaceRemoved(f) => before - {f}
    case _ =>
      before + (if registered.Some? && registered.value.0 <= name then {ToInt(registered.value.1)} else {})
  }

  /** The lookups after any event are those before it, with the face of the route added, or
      without the face removed; only registrations change them otherwise. */
  lemma LookupsAfter(lib: Library, n: Node, e: Event, name: Name)
    requires Enabled(n, e)
    ensures var o := Handle(lib, n, e);
            FibTable.Faces(o.node.fib, name) == RoutesAfter(n, e, o.registered, name, FibTable.Faces(n.fib, name))
  {
    match e
    case InterestIn(f, i, now) =>
      var ask := PIT.Ask(f, i, now);
      if CS.Lookup(n.cache, i, now).None? && PIT.Fresh(n.pit, i) && RIB_FACE in FibTable.Faces(n.fib, i.name) - {f} {
        var n' := n.(pit := PIT.Asked(n.pit, ask));
        ForwardingFaces.FibOfCommand(lib, n', f, i, now);
        var o := ProcessCommand(lib, n', f, i, now);
        if o.registered.Some? {
          FibTable.RouteAddsExactly(n.fib, o.registered.value.0, ToInt(o.registered.value.1), name);
        }
      }
    case RouteAdded(prefix, known) =>
      FibTable.RouteAddsExactly(n.fib, prefix, if known.Some? then known.value else n.counter, name);
    case Started => FibTable.RouteAddsExactly(n.fib, RIB_PREFIX, RIB_FACE, name);
    case FaceRemoved(f) => FibTable.CleanUpLookup(n.fib, f, name);
    case _ =>
  }

  /** The faces after any event. */
  lemma FacesAfter(lib: Library, n: Node, e: Event)
    requires Enabled(n, e)
    ensures var n' := Handle(lib, n, e).node;
            match e
            case LinkFaceAdded => n'.faces == n.faces + {n.counter} && n'.counter == n.counter + 1
            case RouteAdded(_, known) =>
              if known.Some? then n'.faces == n.faces && n'.counter == n.counter
              else n'.faces == n.faces + {n.counter} && n'.counter == n.counter + 1
            case Started => n'.faces == n.faces && n'.listening == Some(n.counter) && n'.counter == n.counter + 1
            case ClientAccepted =>
              n'.faces == n.faces + {n.listening.value} && n'.listening == Some(n.counter)
              && n'.counter == n.counter + 1
            case FaceRemoved(f) =>
              n'.faces == n.faces - {f} && n'.counter == n.counter && n'.pit == n.pit && n'.cache == n.cache
            case _ => n'.faces == n.faces && n'.counter == n.counter
  {
    if e.InterestIn? { ForwardingFaces.CommandKeepsFaces(lib, n, e); }
  }
}
