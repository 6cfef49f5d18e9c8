/** The forwarder as a state machine: what each handler makes of the tables, what it sends,
    and which calls it makes on the pending-interest table and the content store. */
module ForwardingNode {
  import opened Ndn
  import FibTable
  import PIT = PendingInterests
  import CS = ContentStore

  // ---- Control commands ---------------------------------------------------------------

  const REGISTER: Component := "register"

  /** The fields of the command parameters that the forwarder uses; face ids are 64 bits. */
  datatype ControlParameters = ControlParameters(name: Option<Name>, faceId: Option<nat>)

  datatype ControlResponse = ControlResponse(code: nat, text: string, body: Option<ControlParameters>)

  /** The parts of the packet library the FIB manager relies on. */
  datatype Library = Library(
    decode: Component -> Option<ControlParameters>,
    acceptable: ControlParameters -> bool,
    sign: (Name, ControlResponse) -> seq<Byte>,
    freshness: int)

  predicate ValidRequest(lib: Library, p: ControlParameters) {
    p.name.Some? && p.faceId.Some? && lib.acceptable(p)
  }

  /** The implicit conversion from a 64-bit face id to `int`. */
  function ToInt(v: nat): FaceId {
    var low := v % 0x1_0000_0000;
    if low <= MAX_INT then low else low - 0x1_0000_0000
  }

  function ToUint64(f: FaceId): nat {
    f % 0x1_0000_0000_0000_0000
  }

  // ---- State and outcomes -------------------------------------------------------------

  datatype Node = Node(
    pit: PIT.Table,
    fib: FibTable.Table,
    cache: CS.Queue,
    cacheLimit: nat,
    faces: set<FaceId>,        // the keys of the face table
    counter: FaceId,           // the next face id
    listening: Option<FaceId>, // the application face waiting for its client
    started: bool)             // the FIB manager exists

  function Init(cacheLimit: nat): Node {
    Node(map[], map[], [], cacheLimit, {}, 1, None, false)
  }

  /** One packet handed to `Face::Send` of each face of a set. */
  datatype Sent = Quiet | Forward(packet: Packet, to: set<FaceId>)

  datatype Outcome = Outcome(
    node: Node,
    sent: Sent,
    calls: PIT.History,                 // calls made on the pending-interest table
    inserts: CS.Queue,                  // calls to `CacheManager::Insert`
    registered: Option<(Name, nat)>)    // prefix and 64-bit face id of a registration

  function Silent(n: Node): Outcome {
    Outcome(n, Quiet, [], [], None)
  }

  // ---- Handlers -----------------------------------------------------------------------

  function HandleData(n: Node, d: Data, now: Time): Outcome {
    var out := PIT.Waiting(n.pit, d.name, now);
    var n' := n.(pit := PIT.Answered(n.pit, d.name));
    var calls := [PIT.Answer(d.name, now)];
    if out == {} then Outcome(n', Quiet, calls, [], None)
    else
      var entry := CS.EntryFor(d, now);
      Outcome(n'.(cache := CS.Inserted(n.cache, n.cacheLimit, entry)),
              Forward(DataPacket(d), out * n.faces), calls, [entry], None)
  }

  function SendResponse(lib: Library, n: Node, name: Name, response: ControlResponse, now: Time): Outcome {
    HandleData(n, Data(name, lib.freshness, lib.sign(name, response)), now)
  }

  /** The requester's face unless the command names another one. */
  function Defaulted(p: ControlParameters, face: FaceId): ControlParameters {
    if p.faceId.None? || p.faceId.value == 0 then p.(faceId := Some(ToUint64(face))) else p
  }

  predicate Readable(name: Name) {
    |name| >= |RIB_PREFIX| + 2
  }

  function ProcessCommand(lib: Library, n: Node, face: FaceId, request: Interest, now: Time): Outcome
    requires Readable(request.name)
  {
    var command := request.name;
    if command[|RIB_PREFIX|] != REGISTER then Silent(n)
    else
      match lib.decode(command[|RIB_PREFIX| + 1])
      case None => Silent(n)
      case Some(given) =>
        var p := Defaulted(given, face);
        if !ValidRequest(lib, p) then
          SendResponse(lib, n, command, ControlResponse(400, "Malformed command", None), now)
        else
          var n' := n.(fib := FibTable.WithRoute(n.fib, p.name.value, ToInt(p.faceId.value)));
          SendResponse(lib, n', command, ControlResponse(200, "Success", Some(p)), now)
            .(registered := Some((p.name.value, p.faceId.value)))
  }

  /** Names that reach the FIB manager are long enough to be read as commands. */
  predicate CommandsReadable(n: Node, i: Interest) {
    RIB_FACE in FibTable.Faces(n.fib, i.name) ==> Readable(i.name)
  }

  /** An accepted Interest goes to the FIB manager or to the faces its name leads to. */
  function Forwarded(lib: Library, n: Node, face: FaceId, i: Interest, out: set<FaceId>, now: Time): Outcome
    requires RIB_FACE in out ==> Readable(i.name)
  {
    if out == {} then Silent(n)
    else if RIB_FACE in out then ProcessCommand(lib, n, face, i, now)
    else Outcome(n, Forward(InterestPacket(i), out * n.faces), [], [], None)
  }

  function HandleInterest(lib: Library, n: Node, face: FaceId, i: Interest, now: Time): Outcome
    requires CommandsReadable(n, i)
  {
    match CS.Lookup(n.cache, i, now)
    case Some(d) => Outcome(n, Forward(DataPacket(d), {face} * n.faces), [], [], None)
    case None =>
      var ask := PIT.Ask(face, i, now);
      var n' := n.(pit := PIT.Asked(n.pit, ask));
      if !PIT.Fresh(n.pit, i) then Outcome(n', Quiet, [ask], [], None)
      else
        var o := Forwarded(lib, n', face, i, FibTable.Faces(n.fib, i.name) - {face}, now);
        o.(calls := [ask] + o.calls)
  }

  function CleanUpPit(n: Node, now: Time): Outcome {
    Outcome(n.(pit := PIT.Purged(n.pit, now)), Quiet, [PIT.Purge(now)], [], None)
  }

  function AddLinkFace(n: Node): Node {
    n.(faces := n.faces + {n.counter}, counter := n.counter + 1)
  }

  /** A route through the device's face to that neighbour, created if there is none. */
  function AddRoute(n: Node, prefix: Name, known: Option<FaceId>): Node {
    match known
    case Some(f) => n.(fib := FibTable.WithRoute(n.fib, prefix, f))
    case None => AddLinkFace(n).(fib := FibTable.WithRoute(n.fib, prefix, n.counter))
  }

  function Start(n: Node): Node {
    n.(fib := FibTable.WithRoute(n.fib, RIB_PREFIX, RIB_FACE),
       started := true, listening := Some(n.counter), counter := n.counter + 1)
  }

  function HandleAccept(n: Node): Node
    requires n.listening.Some?
  {
    n.(faces := n.faces + {n.listening.value}, listening := Some(n.counter), counter := n.counter + 1)
  }

  function RemoveFace(n: Node, face: FaceId): Node {
    n.(faces := n.faces - {face}, fib := FibTable.Without(n.fib, face))
  }

  // ---- Events and runs ----------------------------------------------------------------

  datatype Event =
    | InterestIn(face: FaceId, interest: Interest, at: Time)
    | DataIn(face: FaceId, data: Data, at: Time)
    | PitTimer(at: Time)
    | LinkFaceAdded
    | RouteAdded(prefix: Name, known: Option<FaceId>)
    | Started
    | ClientAccepted
    | FaceRemoved(face: FaceId)

  /** What the emulator guarantees of the events it delivers. */
  predicate Enabled(n: Node, e: Event) {
    match e
    case InterestIn(f, i, _) => 1 <= f < n.counter && CommandsReadable(n, i)
    case LinkFaceAdded => n.counter < MAX_INT
    case RouteAdded(_, known) => if known.Some? then known.value in n.faces else n.counter < MAX_INT
    case Started => !n.started && n.counter < MAX_INT
    case ClientAccepted => n.listening.Some? && n.counter < MAX_INT
    case FaceRemoved(f) => n.started && f in n.faces
    case _ => true
  }

  function Handle(lib: Library, n: Node, e: Event): Outcome
    requires Enabled(n, e)
  {
    match e
    case InterestIn(f, i, now) => HandleInterest(lib, n, f, i, now)
    case DataIn(_, d, now) => HandleData(n, d, now)
    case PitTimer(now) => CleanUpPit(n, now)
    case LinkFaceAdded => Silent(AddLinkFace(n))
    case RouteAdded(prefix, known) => Silent(AddRoute(n, prefix, known))
    case Started => Silent(Start(n))
    case ClientAccepted => Silent(HandleAccept(n))
    case FaceRemoved(f) => Silent(RemoveFace(n, f))
  }

  /** One event of a run with what it led to. */
  datatype Entry = Entry(event: Event, sent: Sent, calls: PIT.History, inserts: CS.Queue,
                         registered: Option<(Name, nat)>)

  type Trace = seq<Entry>

  function EntryOf(e: Event, o: Outcome): Entry {
    Entry(e, o.sent, o.calls, o.inserts, o.registered)
  }

  predicate Possible(lib: Library, n: Node, es: seq<Event>)
    decreases |es|
  {
    es != [] ==> Enabled(n, es[0]) && Possible(lib, Handle(lib, n, es[0]).node, es[1..])
  }

  function Run(lib: Library, n: Node, es: seq<Event>): Node
    requires Possible(lib, n, es)
    decreases |es|
  {
    if es == [] then n else Run(lib, Handle(lib, n, es[0]).node, es[1..])
  }

  function TraceOf(lib: Library, n: Node, es: seq<Event>): Trace
    requires Possible(lib, n, es)
    decreases |es|
  {
    if es == [] then []
    else [EntryOf(es[0], Handle(lib, n, es[0]))] + TraceOf(lib, Handle(lib, n, es[0]).node, es[1..])
  }

  // ---- What a trace says --------------------------------------------------------------

  function InterestsFrom(tr: Trace, face: FaceId): nat {
    if tr == [] then 0
    else (if tr[0].event.InterestIn? && tr[0].event.face == face then 1 else 0) + InterestsFrom(tr[1..], face)
  }

  function DataTo(tr: Trace, face: FaceId): nat {
    if tr == [] then 0
    else (if tr[0].sent.Forward? && tr[0].sent.packet.DataPacket? && face in tr[0].sent.to then 1 else 0)
         + DataTo(tr[1..], face)
  }

  function CallsOf(tr: Trace): PIT.History {
    if tr == [] then [] else tr[0].calls + CallsOf(tr[1..])
  }

  function InsertsOf(tr: Trace): CS.Queue {
    if tr == [] then [] else tr[0].inserts + InsertsOf(tr[1..])
  }
}
