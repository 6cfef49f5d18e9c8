/** The emulator's objects: packets, faces, devices, links and nodes, with their mutable
    state, each handler proved against the state machines of the other modules. */
module Emulator {
  import opened Ndn
  import opened CsmaDevice
  import AppStream
  import Framing
  import FibTable
  import FN = ForwardingNode
  import PIT = PendingInterests
  import CS = ContentStore
  import opened FaceOrder

  type NodeId = string
  type DeviceId = string

  /** Transmission rates, in kbit/s. */
  type Rate = r: real | r > 0.0 witness 40.0

  /** A packet object. It is shared: one object can sit in several queues. */
  class Packet {
    var dst: Mac
    var src: Mac
    const content: Ndn.Packet
    const length: nat

    constructor (content: Ndn.Packet, length: nat)
      ensures dst == 0 && src == 0 && this.content == content && this.length == length
    {
      dst, src := 0, 0;
      this.content, this.length := content, length;
    }

    method SetDst(dst: Mac)
      modifies this`dst
      ensures this.dst == dst
    {
      this.dst := dst;
    }

    method SetSrc(src: Mac)
      modifies this`src
      ensures this.src == src
    {
      this.src := src;
    }
  }

  class LinkFace {
    const id: FaceId
    const remoteMac: Mac
    const device: LinkDevice

    constructor (id: FaceId, remoteMac: Mac, device: LinkDevice)
      ensures this.id == id && this.remoteMac == remoteMac && this.device == device
    {
      this.id, this.remoteMac, this.device := id, remoteMac, device;
    }

    /** Overwrites the packet's destination and hands it to the device. */
    method Send(pkt: Packet, draw: nat)
      modifies pkt, device
      ensures device.StepsTo(StartTx(device.Config(), old(device.View()), pkt, pkt.length, draw), old(device.trace))
      ensures device.posted == old(device.posted) && device.faces == old(device.faces)
      ensures pkt.dst == remoteMac
      ensures pkt.src == if device.queue == old(device.queue) then old(pkt.src) else device.mac
    {
      pkt.SetDst(remoteMac);
      device.StartTx(pkt, draw);
    }
  }

  /** Work posted to the event loop. */
  datatype Posted = Transmit(pkt: Packet) | Dispatch(face: LinkFace, content: Ndn.Packet)

  class LinkDevice {
    const mac: Mac
    const node: Node
    const link: Link
    const limit: nat

    var state: PhyState
    var pendingRx: Packet?
    var rxTimer: bool
    var csmaTimer: Option<Csma>
    var queue: seq<Packet>
    var faces: map<Mac, LinkFace>
    var posted: seq<Posted>

    ghost var trace: seq<Action<Packet>>

    ghost function View(): Device<Packet>
      reads this
    {
      var pending: Option<Packet> := if pendingRx == null then None else Some(pendingRx);
      Device(state, pending, rxTimer, queue, csmaTimer, FaceIds())
    }

    ghost function FaceIds(): map<Mac, FaceId>
      reads this
    {
      map m | m in faces :: faces[m].id
    }

    function Config(): CsmaDevice.Config {
      CsmaDevice.Config(mac, limit, link.mtu)
    }

    /** A face of this device, with an id that its node has given out. */
    ghost predicate Owns(face: LinkFace)
      reads node
    {
      face.device == this && 1 <= face.id < node.faceCounter
    }

    /** Every neighbor's face is addressed to it, and frames are dispatched to own faces. */
    ghost predicate Valid()
      reads this, node
    {
      1 <= node.faceCounter
      && (forall m :: m in faces ==> faces[m].remoteMac == m && Owns(faces[m]))
      && (forall q :: q in posted && q.Dispatch? ==> Owns(q.face))
    }

    /** The handler did what the state machine says, or threw where it faults. */
    ghost predicate StepsTo(r: Result<Packet>, before: seq<Action<Packet>>)
      reads this
    {
      r.Stepped? ==> View() == r.device && trace == before + r.trace
    }

    constructor (mac: Mac, node: Node, link: Link, limit: nat)
      ensures View() == Start(map[]) && trace == [] && posted == [] && faces == map[]
      ensures 1 <= node.faceCounter ==> Valid()
      ensures this.mac == mac && this.node == node && this.link == link && this.limit == limit
    {
      this.mac, this.node, this.link, this.limit := mac, node, link, limit;
      state, pendingRx, rxTimer, csmaTimer := Idle, null, false, None;
      queue, faces, posted, trace := [], map[], [], [];
    }

    method AddBroadcastFace()
      requires Valid() && node.faceCounter < MAX_INT
      modifies this`faces, node`faceCounter, node`faceTable
      ensures Valid()
      ensures BROADCAST in faces && faces == old(faces)[BROADCAST := faces[BROADCAST]]
      ensures var face := faces[BROADCAST];
              fresh(face) && face.remoteMac == BROADCAST && face.device == this
              && node.AddedFace(old(node.faceCounter), old(node.faceTable), Net(face))
    {
      var face := node.AddLinkFace(BROADCAST, this);
      faces := faces[BROADCAST := face];
    }

    /** The reception of this frame has begun, or been ignored, as the state machine says. */
    twostate predicate Heard(new pkt: Packet)
      reads this
    {
      var r := CsmaDevice.StartRx(old(View()), pkt);
      r.Stepped? && View() == r.device && trace == old(trace) + r.trace
      && posted == old(posted) && faces == old(faces)
    }

    /** In a state in which no frame can arrive. */
    ghost predicate Unable()
      reads this
    {
      state.Sleep? || state.Failure?
    }

    method StartRx(pkt: Packet) returns (threw: bool)
      modifies this
      ensures threw <==> CsmaDevice.StartRx(old(View()), pkt) == IllegalState
      ensures if threw then unchanged(this) && Unable() else Heard(pkt)
      ensures posted == old(posted) && faces == old(faces)
    {
      match state {
        case Idle =>
          trace := trace + [Began(pkt, state)];
          state, pendingRx, rxTimer := Rx, pkt, true;
        case Rx =>
          trace := trace + [Began(pkt, state)];
          state, pendingRx, rxTimer := RxCollide, pkt, true;
        case RxCollide =>
          trace := trace + [Began(pkt, state)];
          state, pendingRx, rxTimer := RxCollide, pkt, true;
        case Tx =>
          trace := trace + [Missed(pkt)];
        case _ =>
          return true;
      }
      return false;
    }

    /** The face for this neighbour, created on demand. */
    method FaceFor(src: Mac) returns (face: LinkFace)
      requires Valid() && node.faceCounter < MAX_INT
      modifies this`faces, node`faceCounter, node`faceTable
      ensures Valid() && Owns(face) && face.remoteMac == src
      ensures faces == old(faces)[src := face]
      ensures FaceIds() == old(FaceIds())[src := face.id]
      ensures src in old(faces) ==> face == old(faces)[src] && unchanged(node)
      ensures src !in old(faces) ==>
                fresh(face) && face.id == old(node.faceCounter) && face.remoteMac == src && face.device == this
                && node.AddedFace(old(node.faceCounter), old(node.faceTable), Net(face))
    {
      if src !in faces {
        face := node.AddLinkFace(src, this);
        faces := faces[src := face];
      } else {
        face := faces[src];
      }
    }

    /** The branch of `PostRx` for a frame addressed to the device. */
    method DispatchFrame(pkt: Packet, dst: Mac, src: Mac)
      requires Valid() && node.faceCounter < MAX_INT
      modifies this`faces, this`posted, this`trace, node`faceCounter, node`faceTable
      ensures Valid() && src in faces && faces[src].remoteMac == src
      ensures FaceIds() == old(FaceIds())[src := faces[src].id]
      ensures posted == old(posted) + [Dispatch(faces[src], pkt.content)]
      ensures trace == old(trace) + [Dispatched(pkt, dst, faces[src].id), Ended(dst, src)]
      ensures src in old(faces) ==> faces == old(faces) && unchanged(node)
      ensures src !in old(faces) ==>
                fresh(faces[src]) && faces[src].device == this
                && node.AddedFace(old(node.faceCounter), old(node.faceTable), Net(faces[src]))
    {
      var face := FaceFor(src);
      posted := posted + [Dispatch(face, pkt.content)];
      trace := trace + [Dispatched(pkt, dst, face.id), Ended(dst, src)];
    }

    /** The receive timer: dispatches the frame unless it collided or is for someone else,
        creating a face for its sender if there is none. */
    method PostRx(error: bool) returns (threw: bool)
      requires Valid() && (!error ==> node.faceCounter < MAX_INT)
      modifies this, node`faceCounter, node`faceTable
      ensures Valid()
      ensures error ==> !threw && unchanged(this) && unchanged(node)
      ensures !error ==>
                var (dst, src) := old(if pendingRx == null then (0, 0) else (pendingRx.dst, pendingRx.src));
                var r := CsmaDevice.PostRx(Config(), old(View()), dst, src, old(node.faceCounter));
                (threw <==> !r.Stepped?) && StepsTo(r, old(trace)) && (threw ==> unchanged(this))
                && var heard := old(state) == Rx && old(pendingRx) != null && Addressed(Config(), dst);
                (heard ==> src in faces && faces[src].remoteMac == src
                           && posted == old(posted) + [Dispatch(faces[src], old(pendingRx).content)])
                && (!heard ==> posted == old(posted))
                && (heard && src !in old(faces) ==>
                      fresh(faces[src]) && faces[src].remoteMac == src && faces[src].device == this
                      && node.AddedFace(old(node.faceCounter), old(node.faceTable), Net(faces[src])))
                && (!(heard && src !in old(faces)) ==> unchanged(node) && faces == old(faces))
    {
      if error {
        return false;
      }
      match state {
        case Rx =>
          if pendingRx == null {
            return true;
          }
          var pkt: Packet := pendingRx;
          var dst, src := pkt.dst, pkt.src;
          if dst == mac || dst == BROADCAST {
            DispatchFrame(pkt, dst, src);
          } else {
            trace := trace + [Ended(dst, src)];
          }
        case RxCollide => Unheard();
        case Idle => Unheard();
        case _ => return true;
      }
      state, rxTimer := Idle, false;
      return false;
    }

    /** Records, in the ghost trace only, the end of a reception that is not dispatched. */
    ghost method Unheard()
      modifies this`trace
      ensures trace == old(trace) + [if pendingRx == null then Ended(0, 0) else Ended(pendingRx.dst, pendingRx.src)]
    {
      trace := trace + [if pendingRx == null then Ended(0, 0) else Ended(pendingRx.dst, pendingRx.src)];
    }

    method StartTx(pkt: Packet, draw: nat)
      modifies this, pkt`src
      ensures StepsTo(CsmaDevice.StartTx(Config(), old(View()), pkt, pkt.length, draw), old(trace))
      ensures queue == old(queue) || queue == old(queue) + [pkt]
      ensures pkt.src == if queue == old(queue) then old(pkt.src) else mac
      ensures posted == old(posted) && faces == old(faces)
    {
      if pkt.length > link.mtu {
        trace := trace + [Refused(pkt)];
        return;
      }
      if |queue| < limit {
        pkt.SetSrc(mac);
        queue := queue + [pkt];
        trace := trace + [Accepted(pkt)];
        StartCsma(draw);
        assert trace == old(trace) + [Accepted(pkt), Backoff(FirstBackoff(draw).wait)];
      } else {
        trace := trace + [Refused(pkt)];
      }
    }

    method StartCsma(draw: nat)
      modifies this`csmaTimer, this`trace
      ensures csmaTimer == Some(FirstBackoff(draw))
      ensures trace == old(trace) + [Backoff(FirstBackoff(draw).wait)]
    {
      var NB, BE := 0, MIN_BE;
      var backoff := Wait(draw, BE);
      csmaTimer := Some(Csma(NB, BE, backoff));
      trace := trace + [Backoff(backoff)];
    }

    /** `NB` and `BE` are the arguments bound when the timer was armed. */
    method DoCsma(NB: int, BE: int, error: bool, draw: nat) returns (threw: bool)
      requires !error ==> csmaTimer.Some? && csmaTimer.value.NB == NB && csmaTimer.value.BE == BE
      modifies this
      ensures error ==> !threw && unchanged(this)
      ensures !error ==>
                var airTime := if old(queue) == [] then 0 else link.AirTime(old(queue)[0].length);
                var r := CsmaDevice.DoCsma(old(View()), draw, airTime);
                (threw <==> !r.Stepped?) && StepsTo(r, old(trace))
                && (threw ==> View() == old(View()) && trace == old(trace))
                && posted == old(posted) + (if r.Stepped? && old(state) == Idle then [Transmit(old(queue)[0])] else [])
      ensures faces == old(faces)
    {
      if error {
        return false;
      }
      if |queue| < 1 {
        return true;
      }
      match state {
        case Idle =>
          state := Tx;
          var pkt := queue[0];
          posted := posted + [Transmit(pkt)];
          csmaTimer := Some(Csma(-1, -1, link.AirTime(pkt.length)));
          trace := trace + [Posted(pkt)];
        case Tx =>
          trace := trace + [Completed(queue[0])];
          queue := queue[1..];
          state := Idle;
          csmaTimer := None;
          if |queue| != 0 {
            StartCsma(draw);
          }
        case Rx => ChannelBusy(NB, BE, draw);
        case RxCollide => ChannelBusy(NB, BE, draw);
        case _ => return true;
      }
      return false;
    }

    /** The branch of `DoCsma` for a busy channel. */
    method ChannelBusy(NB: int, BE: int, draw: nat)
      requires queue != []
      modifies this`queue, this`csmaTimer, this`trace
      ensures StepsTo(CsmaDevice.ChannelBusy(old(View()), NB + 1, BE, draw), old(trace))
    {
      var nb, be := NB + 1, BE;
      trace := trace + [Busy];
      if nb > MAX_CSMA_BACKOFFS {
        trace := trace + [GaveUp(queue[0])];
        queue := queue[1..];
        csmaTimer := None;
        if |queue| != 0 {
          StartCsma(draw);
        }
        return;
      }
      be := be + 1;
      if be > MAX_BE {
        be := MAX_BE;
      }
      var backoff := Wait(draw, be);
      csmaTimer := Some(Csma(nb, be, backoff));
      trace := trace + [Backoff(backoff)];
    }
  }

  /** `x` is at least `low`, and above it by less than a step. */
  ghost predicate WithinAStep(low: real, x: real, step: real) {
    low <= x < low + step
  }

  lemma LessThanOne(fraction: real, unit: real)
    requires 0.0 <= fraction < 1.0 && unit > 0.0
    ensures 0.0 <= fraction * unit < unit
  {
  }

  lemma FloorTimes(q: real, unit: real)
    requires unit > 0.0
    ensures WithinAStep(q.Floor as real * unit, q * unit, unit)
  {
    LessThanOne(q - q.Floor as real, unit);
    assert (q - q.Floor as real) * unit == q * unit - q.Floor as real * unit;
  }

  lemma DividedExactly(x: real, unit: real)
    requires unit > 0.0
    ensures (x / unit) * unit == x
  {
  }

  datatype Connection = Connected | SelfEdge | UnknownNode(id: NodeId)

  class Link {
    const txRate: Rate
    const mtu: nat

    var nodeTable: map<NodeId, LinkDevice>

    /** Loss rates, by sender and receiver. */
    var linkMatrix: map<NodeId, map<NodeId, real>>

    /** Every end of a connection is on the link, and none is connected to itself. */
    ghost predicate Valid()
      reads this
    {
      forall from :: from in linkMatrix ==> from !in linkMatrix[from] && linkMatrix[from].Keys <= nodeTable.Keys
    }

    /** Every device is on the link under the id of its own node. */
    ghost predicate OwnIds()
      reads this
    {
      forall n :: n in nodeTable ==> nodeTable[n].node.id == n
    }

    ghost function Neighbors(id: NodeId): set<NodeId>
      reads this
    {
      if id in linkMatrix then linkMatrix[id].Keys else {}
    }

    ghost function Receivers(id: NodeId): set<LinkDevice>
      reads this
      requires Valid()
    {
      set n | n in Neighbors(id) :: nodeTable[n]
    }

    constructor (txRate: Rate, mtu: nat)
      ensures this.txRate == txRate && this.mtu == mtu
      ensures Valid() && OwnIds() && nodeTable == map[] && linkMatrix == map[]
    {
      this.txRate, this.mtu := txRate, mtu;
      nodeTable, linkMatrix := map[], map[];
    }

    /** In bits per second. */
    function BitRate(): (r: real)
      ensures r > 0.0
    {
      txRate * 1024.0
    }

    /** The time a frame of this length spends on the air, in us. */
    function AirTime(length: nat): nat {
      assert length as real * 8.0 * 1000000.0 / BitRate() >= 0.0;
      (length as real * 8.0 * 1000000.0 / BitRate()).Floor
    }

    /** So many whole us carry no more than the frame's bits, and one us more carries more. */
    lemma AirTimeIsExact(length: nat)
      ensures WithinAStep(AirTime(length) as real * BitRate(), length as real * 8.0 * 1000000.0, BitRate())
    {
      var scaled := length as real * 8.0 * 1000000.0;
      DividedExactly(scaled, BitRate());
      FloorTimes(scaled / BitRate(), BitRate());
    }

    /** A node's later device on the same link replaces the earlier one. */
    method AddNodeDevice(id: NodeId, dev: LinkDevice)
      requires Valid()
      modifies this`nodeTable
      ensures Valid() && nodeTable == old(nodeTable)[id := dev]
      ensures old(OwnIds()) && dev.node.id == id ==> OwnIds()
    {
      nodeTable := nodeTable[id := dev];
    }

    method AddConnection(from: NodeId, to: NodeId, loss: real) returns (r: Connection)
      requires Valid()
      modifies this`linkMatrix
      ensures Valid()
      ensures r == (if from == to then SelfEdge
                    else if from !in nodeTable then UnknownNode(from)
                    else if to !in nodeTable then UnknownNode(to)
                    else Connected)
      ensures !r.Connected? ==> unchanged(this)
      ensures r.Connected? ==>
                && Neighbors(from) == old(Neighbors(from)) + {to} && linkMatrix[from][to] == loss
                && forall id :: id != from ==> Neighbors(id) == old(Neighbors(id))
    {
      if from == to {
        return SelfEdge;
      }
      if from !in nodeTable {
        return UnknownNode(from);
      }
      if to !in nodeTable {
        return UnknownNode(to);
      }
      if from !in linkMatrix {
        linkMatrix := linkMatrix[from := map[]];
      }
      linkMatrix := linkMatrix[from := linkMatrix[from][to := loss]];
      return Connected;
    }

    /** Hands the frame to each of these devices; one in an illegal state ends the walk. */
    static method Deliver(pkt: Packet, hearers: set<LinkDevice>) returns (threw: bool)
      modifies hearers
      ensures forall d :: d in hearers ==> unchanged(d) || d.Heard(pkt)
      ensures !threw ==> forall d :: d in hearers ==> d.Heard(pkt)
      ensures threw ==> exists d :: d in hearers && unchanged(d) && d.Unable()
    {
      var todo := hearers;
      while todo != {}
        invariant todo <= hearers
        invariant forall d :: d in todo ==> unchanged(d)
        invariant forall d :: d in hearers - todo ==> d.Heard(pkt)
        decreases |todo|
      {
        var d :| d in todo;
        todo := todo - {d};
        threw := d.StartRx(pkt);
        if threw {
          return;
        }
      }
      return false;
    }

    /** Hands the frame to every neighbor of the sender except those that lose it. */
    method Transmit(id: NodeId, pkt: Packet, lost: set<NodeId>) returns (threw: bool)
      requires Valid() && OwnIds()
      modifies this`linkMatrix, Receivers(id)
      ensures Valid() && nodeTable == old(nodeTable) && Neighbors(id) == old(Neighbors(id))
      ensures forall n :: n in Neighbors(id) ==> unchanged(nodeTable[n]) || (n !in lost && nodeTable[n].Heard(pkt))
      ensures !threw ==> forall n :: n in Neighbors(id) && n !in lost ==> nodeTable[n].Heard(pkt)
      ensures threw ==> exists n :: n in Neighbors(id) && n !in lost && nodeTable[n].Unable()
    {
      if id !in linkMatrix {
        linkMatrix := linkMatrix[id := map[]];
      }
      var hearers := set n | n in linkMatrix[id] && n !in lost :: nodeTable[n];
      threw := Deliver(pkt, hearers);
    }
  }

  datatype Face = App(app: AppStream.AppFace) | Net(link: LinkFace) {
    function Id(): FaceId {
      if App? then app.id else link.id
    }
  }

  // ---- What forwarding to a set of faces does -----------------------------------------

  /** The surroundings of a packet. Sending can change the devices' state, the application
      sockets and the addresses of the packet, and leaves the devices' faces and the work
      they have posted alone. */
  datatype World = World(
    devices: map<LinkDevice, Result<Packet>>,
    sockets: map<FaceId, seq<Ndn.Packet>>,
    ports: map<LinkDevice, (map<Mac, LinkFace>, seq<Posted>)>,
    dst: Mac,
    src: Mac)

  /** `Face::Send` of one face, if it exists. */
  ghost function Sent(table: map<FaceId, Face>, w: World, pkt: Packet, f: FaceId, draws: Draws): World {
    if f !in table then w
    else
      match table[f]
      case App(_) =>
        if f in w.sockets then w.(sockets := w.sockets[f := w.sockets[f] + [pkt.content]]) else w
      case Net(link) =>
        var dev := link.device;
        if dev !in w.devices || !w.devices[dev].Stepped? then w
        else
          var d := w.devices[dev];
          var r := CsmaDevice.StartTx(dev.Config(), d.device, pkt, pkt.length, draws(f));
          if !r.Stepped? then w
          else w.(devices := w.devices[dev := Stepped(r.device, d.trace + r.trace)],
                  dst := link.remoteMac,
                  src := if r.device.queue == d.device.queue then w.src else dev.mac)
  }

  ghost function SentAll(table: map<FaceId, Face>, w: World, pkt: Packet, fs: seq<FaceId>, draws: Draws): World
    decreases |fs|
  {
    if fs == [] then w else SentAll(table, Sent(table, w, pkt, fs[0], draws), pkt, fs[1..], draws)
  }

  /** Sending to a set of faces is sending to those of them that exist. */
  lemma {:induction false} OnlyExistingFaces(table: map<FaceId, Face>, w: World, pkt: Packet, out: set<FaceId>,
                                             draws: Draws)
    ensures SentAll(table, w, pkt, Ascending(out), draws)
         == SentAll(table, w, pkt, Ascending(out * table.Keys), draws)
    decreases |out|
  {
    if out == {} {
      assert out * table.Keys == {};
    } else {
      var m := Min(out);
      var rest := out - {m};
      OnlyExistingFaces(table, Sent(table, w, pkt, m, draws), pkt, rest, draws);
      assert Ascending(out)[1..] == Ascending(rest);
      if m in table {
        assert m in out * table.Keys && Min(out * table.Keys) == m;
        assert out * table.Keys - {m} == rest * table.Keys;
        assert Ascending(out * table.Keys)[1..] == Ascending(rest * table.Keys);
      } else {
        assert out * table.Keys == rest * table.Keys;
      }
    }
  }

  lemma AcceptedInterest(lib: FN.Library, n: FN.Node, face: FaceId, i: Interest, out: set<FaceId>, now: Time,
                         before: PIT.History)
    requires FN.CommandsReadable(n, i) && CS.Lookup(n.cache, i, now).None? && PIT.Fresh(n.pit, i)
    requires out == FibTable.Faces(n.fib, i.name) - {face}
    ensures var ask := PIT.Ask(face, i, now);
            var rest := FN.Forwarded(lib, n.(pit := PIT.Asked(n.pit, ask)), face, i, out, now);
            FN.HandleInterest(lib, n, face, i, now) == rest.(calls := [ask] + rest.calls)
            && (before + [ask]) + rest.calls == before + ([ask] + rest.calls)
  {
  }

  lemma RefusedInterest(lib: FN.Library, n: FN.Node, face: FaceId, i: Interest, now: Time)
    requires FN.CommandsReadable(n, i) && CS.Lookup(n.cache, i, now).None? && !PIT.Fresh(n.pit, i)
    ensures var ask := PIT.Ask(face, i, now);
            FN.HandleInterest(lib, n, face, i, now)
            == FN.Outcome(n.(pit := PIT.Asked(n.pit, ask)), FN.Quiet, [ask], [], None)
  {
  }

  class Node {
    const id: NodeId
    const lib: FN.Library
    const reader: Framing.Reader

    /** The wire size of a packet. */
    const lengthOf: Ndn.Packet -> nat

    const pit: PIT.Pit
    const fib: FibTable.Fib
    const cache: CS.CacheManager

    var fibManager: FibManager?
    var faceCounter: FaceId
    var faceTable: map<FaceId, Face>
    var deviceTable: map<DeviceId, LinkDevice>

    /** The face waiting for the next client to connect. */
    var client: AppStream.AppFace?

    ghost function View(): FN.Node
      reads this, pit, fib, cache
    {
      FN.Node(pit.entries, fib.table, cache.queue, cache.limit, faceTable.Keys, faceCounter,
              if client == null then None else Some(client.id), fibManager != null)
    }

    ghost predicate Valid()
      reads this, pit, fib, cache
    {
      && cache.Valid() && IdsMatch() && 1 <= faceCounter
      && (fibManager != null ==> fibManager.node == this && fibManager.fib == fib)
    }

    /** The packet object `pkt` carries what was sent, if anything was, to these faces. */
    ghost predicate Effect(sent: FN.Sent, before: World, pkt: Packet?, draws: Draws)
      reads this, Devices(), Apps(), pkt
    {
      match sent
      case Quiet => pkt == null && Outside() == before
      case Forward(p, to) =>
        pkt != null && pkt.content == p && pkt.length == lengthOf(p)
        && Around(pkt) == SentAll(faceTable, before, pkt, Ascending(to), draws)
    }

    /** The state machine's outcome, from tables with these histories and these surroundings. */
    ghost predicate Did(o: FN.Outcome, calls: PIT.History, inserted: CS.Queue, before: World,
                        pkt: Packet?, draws: Draws)
      reads this, pit, fib, cache, Devices(), Apps(), pkt
    {
      View() == o.node && pit.history == calls + o.calls && cache.inserted == inserted + o.inserts
      && Effect(o.sent, before, pkt, draws)
    }

    constructor (id: NodeId, lib: FN.Library, reader: Framing.Reader, lengthOf: Ndn.Packet -> nat, cacheLimit: nat)
      ensures Valid() && View() == FN.Init(cacheLimit)
      ensures fresh(pit) && fresh(fib) && fresh(cache) && deviceTable == map[]
      ensures pit.history == [] && cache.inserted == []
      ensures this.id == id && this.lib == lib && this.reader == reader && this.lengthOf == lengthOf
    {
      this.id := id;
      this.lib, this.reader, this.lengthOf := lib, reader, lengthOf;
      pit := new PIT.Pit();
      fib := new FibTable.Fib();
      cache := new CS.CacheManager(cacheLimit);
      fibManager, client := null, null;
      faceCounter, faceTable, deviceTable := 1, map[], map[];
    }

    twostate predicate AddedFace(counter: FaceId, table: map<FaceId, Face>, new face: Face)
      reads this
    {
      faceCounter == counter + 1 && faceTable == table[counter := face] && face.Id() == counter
    }

    method AddLinkFace(remoteMac: Mac, dev: LinkDevice) returns (face: LinkFace)
      requires faceCounter < MAX_INT
      modifies this`faceCounter, this`faceTable
      ensures fresh(face) && face.remoteMac == remoteMac && face.device == dev
      ensures AddedFace(old(faceCounter), old(faceTable), Net(face))
    {
      var faceId := faceCounter;
      faceCounter := faceCounter + 1;
      face := new LinkFace(faceId, remoteMac, dev);
      faceTable := faceTable[faceId := Net(face)];
    }

    ghost predicate IdsMatch()
      reads this
    {
      forall f :: f in faceTable ==> faceTable[f].Id() == f
    }

    ghost function Devices(): set<LinkDevice>
      reads this
    {
      set f | f in faceTable && faceTable[f].Net? :: faceTable[f].link.device
    }

    ghost function Apps(): set<AppStream.AppFace>
      reads this
    {
      set f | f in faceTable && faceTable[f].App? :: faceTable[f].app
    }

    ghost function DeviceStates(): map<LinkDevice, Result<Packet>>
      reads this, Devices()
    {
      map d | d in Devices() :: Stepped(d.View(), d.trace)
    }

    ghost function Sockets(): map<FaceId, seq<Ndn.Packet>>
      reads this, Apps()
    {
      map f | f in faceTable && faceTable[f].App? :: faceTable[f].app.outgoing
    }

    /** What forwarding leaves alone on the devices. */
    ghost function Ports(): map<LinkDevice, (map<Mac, LinkFace>, seq<Posted>)>
      reads this, Devices()
    {
      map d | d in Devices() :: (d.faces, d.posted)
    }

    /** The surroundings before a packet is created. */
    ghost function Outside(): World
      reads this, Devices(), Apps()
    {
      World(DeviceStates(), Sockets(), Ports(), 0, 0)
    }

    twostate lemma OutsideKept()
      requires unchanged(this)
      requires forall d :: d in old(Devices()) ==> unchanged(d)
      requires forall a :: a in old(Apps()) ==> unchanged(a)
      ensures Outside() == old(Outside())
    {
    }

    ghost function Around(pkt: Packet): World
      reads this, Devices(), Apps(), pkt
    {
      World(DeviceStates(), Sockets(), Ports(), pkt.dst, pkt.src)
    }

    twostate lemma OnlySocketOf(f: FaceId)
      requires unchanged(this) && f in faceTable && faceTable[f].App?
      requires forall d :: d in old(Devices()) ==> unchanged(d)
      requires forall g :: g in faceTable && faceTable[g].App? && g != f ==> unchanged(faceTable[g].app)
      ensures DeviceStates() == old(DeviceStates()) && Ports() == old(Ports())
      ensures Sockets() == old(Sockets())[f := faceTable[f].app.outgoing]
    {
      assert forall g :: g in faceTable && faceTable[g].App? && g != f ==>
               faceTable[g].app.outgoing == old(faceTable[g].app.outgoing);
      assert Sockets() == old(Sockets())[f := faceTable[f].app.outgoing];
    }

    twostate lemma OnlyDeviceOf(f: FaceId)
      requires unchanged(this) && f in faceTable && faceTable[f].Net?
      requires forall d :: d in old(Devices()) && d != faceTable[f].link.device ==> unchanged(d)
      requires forall a :: a in old(Apps()) ==> unchanged(a)
      requires var dev := faceTable[f].link.device; dev.posted == old(dev.posted) && dev.faces == old(dev.faces)
      ensures Sockets() == old(Sockets()) && Ports() == old(Ports())
      ensures var dev := faceTable[f].link.device;
              DeviceStates() == old(DeviceStates())[dev := Stepped(dev.View(), dev.trace)]
    {
    }

    /** Nothing happens if the face is gone. */
    method ForwardToFace(pkt: Packet, outId: FaceId, draws: Draws)
      requires IdsMatch()
      modifies pkt, Devices(), Apps()
      ensures unchanged(this) && unchanged(pit) && unchanged(fib) && unchanged(cache)
      ensures Around(pkt) == Sent(faceTable, old(Around(pkt)), pkt, outId, draws)
    {
      if outId in faceTable {
        match faceTable[outId]
        case App(app) =>
          app.Send(pkt.content);
          assert forall g :: g in faceTable && faceTable[g].App? && g != outId ==> faceTable[g].app != app;
          OnlySocketOf(outId);
        case Net(link) =>
          link.Send(pkt, draws(outId));
          OnlyDeviceOf(outId);
      }
    }

    /** Sends one packet object to every face of the set, in ascending order. */
    method ForwardToFaces(pkt: Packet, out: set<FaceId>, draws: Draws)
      requires IdsMatch()
      modifies pkt, Devices(), Apps()
      ensures unchanged(this) && unchanged(pit) && unchanged(fib) && unchanged(cache)
      ensures Around(pkt) == SentAll(faceTable, old(Around(pkt)), pkt, Ascending(out), draws)
    {
      var todo := out;
      while todo != {}
        invariant unchanged(this) && unchanged(pit) && unchanged(fib) && unchanged(cache)
        invariant SentAll(faceTable, Around(pkt), pkt, Ascending(todo), draws)
               == SentAll(faceTable, old(Around(pkt)), pkt, Ascending(out), draws)
        decreases |todo|
      {
        LeastExists(todo);
        var f :| f in todo && forall g :: g in todo ==> f <= g;
        assert IsLeast(f, todo);
        assert f == Min(todo);
        assert Ascending(todo)[1..] == Ascending(todo - {f});
        ForwardToFace(pkt, f, draws);
        todo := todo - {f};
      }
    }

    /** Sends a new packet object with this content to the faces of the set that exist. */
    method ForwardContent(content: Ndn.Packet, out: set<FaceId>, draws: Draws) returns (ghost pkt: Packet)
      requires IdsMatch()
      modifies Devices(), Apps()
      ensures unchanged(this) && unchanged(pit) && unchanged(fib) && unchanged(cache)
      ensures fresh(pkt) && Effect(FN.Forward(content, out * faceTable.Keys), old(Outside()), pkt, draws)
    {
      var packet := new Packet(content, lengthOf(content));
      assert Around(packet) == old(Outside());
      ForwardToFaces(packet, out, draws);
      OnlyExistingFaces(faceTable, old(Outside()), packet, out, draws);
      pkt := packet;
    }

    method HandleData(faceId: FaceId, d: Data, now: Time, draws: Draws) returns (ghost pkt: Packet?)
      requires Valid()
      modifies pit, cache, Devices(), Apps()
      ensures Valid() && unchanged(this) && unchanged(fib) && (pkt != null ==> fresh(pkt))
      ensures Did(FN.HandleData(old(View()), d, now), old(pit.history), old(cache.inserted), old(Outside()), pkt, draws)
    {
      pkt := null;
      ghost var n := View();
      var outList := pit.ConsumeInterestWithDataName(d.name, now, {});
      OutsideKept();
      assert outList == PIT.Waiting(n.pit, d.name, now) && View() == n.(pit := PIT.Answered(n.pit, d.name));
      if outList != {} {
        pkt := CacheAndForward(d, outList, now, draws);
      }
    }

    /** The rest of `HandleData`, when some face waits. */
    method CacheAndForward(d: Data, outList: set<FaceId>, now: Time, draws: Draws) returns (ghost pkt: Packet)
      requires Valid()
      modifies cache, Devices(), Apps()
      ensures Valid() && unchanged(this) && unchanged(fib) && unchanged(pit) && fresh(pkt)
      ensures View() == old(View()).(cache := CS.Inserted(old(cache.queue), cache.limit, CS.EntryFor(d, now)))
      ensures cache.inserted == old(cache.inserted) + [CS.EntryFor(d, now)]
      ensures Effect(FN.Forward(DataPacket(d), outList * faceTable.Keys), old(Outside()), pkt, draws)
    {
      cache.Insert(d, now);
      OutsideKept();
      pkt := ForwardContent(DataPacket(d), outList, draws);
    }

    method HandleInterest(faceId: FaceId, i: Interest, now: Time, draws: Draws) returns (ghost pkt: Packet?)
      requires Valid() && FN.CommandsReadable(View(), i)
      requires RIB_FACE in FibTable.Faces(fib.table, i.name) ==> fibManager != null
      modifies pit, fib, cache, Devices(), Apps()
      ensures Valid() && unchanged(this) && (pkt != null ==> fresh(pkt))
      ensures Did(FN.HandleInterest(lib, old(View()), faceId, i, now),
                  old(pit.history), old(cache.inserted), old(Outside()), pkt, draws)
    {
      ghost var n, o := View(), FN.HandleInterest(lib, View(), faceId, i, now);
      var d := cache.FindMatchingData(i, now);
      OutsideKept();
      if d.Some? {
        assert o == FN.Outcome(n, FN.Forward(DataPacket(d.value), {faceId} * n.faces), [], [], None);
        pkt := ForwardContent(DataPacket(d.value), {faceId}, draws);
      } else {
        pkt := HandleUncached(faceId, i, now, draws);
      }
    }

    /** The rest of `HandleInterest`, when the cache does not answer. */
    method HandleUncached(faceId: FaceId, i: Interest, now: Time, draws: Draws) returns (ghost pkt: Packet?)
      requires Valid() && FN.CommandsReadable(View(), i) && CS.Lookup(cache.queue, i, now).None?
      requires RIB_FACE in FibTable.Faces(fib.table, i.name) ==> fibManager != null
      modifies pit, fib, cache, Devices(), Apps()
      ensures Valid() && unchanged(this) && (pkt != null ==> fresh(pkt))
      ensures Did(FN.HandleInterest(lib, old(View()), faceId, i, now),
                  old(pit.history), old(cache.inserted), old(Outside()), pkt, draws)
    {
      pkt := null;
      ghost var n := View();
      var accepted := pit.AddInterest(faceId, i, now);
      OutsideKept();
      ghost var ask := PIT.Ask(faceId, i, now);
      ghost var n' := n.(pit := PIT.Asked(n.pit, ask));
      assert View() == n';
      if accepted {
        AcceptedInterest(lib, n, faceId, i, FibTable.Faces(fib.table, i.name) - {faceId}, now, old(pit.history));
        pkt := LookUpAndForward(faceId, i, now, draws);
      } else {
        RefusedInterest(lib, n, faceId, i, now);
      }
    }

    /** An accepted Interest, from the lookup on. */
    method LookUpAndForward(faceId: FaceId, i: Interest, now: Time, draws: Draws) returns (ghost pkt: Packet?)
      requires Valid() && FN.CommandsReadable(View(), i)
      requires RIB_FACE in FibTable.Faces(fib.table, i.name) ==> fibManager != null
      modifies pit, fib, cache, Devices(), Apps()
      ensures Valid() && unchanged(this) && (pkt != null ==> fresh(pkt))
      ensures Did(FN.Forwarded(lib, old(View()), faceId, i, FibTable.Faces(old(fib.table), i.name) - {faceId}, now),
                  old(pit.history), old(cache.inserted), old(Outside()), pkt, draws)
    {
      ghost var n, out := View(), FibTable.Faces(fib.table, i.name) - {faceId};
      var outList := fib.LookUp(i.name, {});
      OutsideKept();
      outList := outList - {faceId};
      assert View() == n && outList == out;
      assert pit.history == old(pit.history) && cache.inserted == old(cache.inserted);
      pkt := ForwardAccepted(faceId, i, outList, now, draws);
    }

    /** The branch of `HandleInterest` for an accepted Interest. */
    method ForwardAccepted(faceId: FaceId, i: Interest, outList: set<FaceId>, now: Time, draws: Draws)
      returns (ghost pkt: Packet?)
      requires Valid() && (RIB_FACE in outList ==> FN.Readable(i.name) && fibManager != null)
      modifies pit, fib, cache, Devices(), Apps()
      ensures Valid() && unchanged(this) && (pkt != null ==> fresh(pkt))
      ensures Did(FN.Forwarded(lib, old(View()), faceId, i, outList, now),
                  old(pit.history), old(cache.inserted), old(Outside()), pkt, draws)
    {
      pkt := null;
      if outList == {} {
        return;
      }
      if RIB_FACE in outList {
        pkt := fibManager.ProcessCommand(faceId, i, now, draws);
      } else {
        pkt := ForwardContent(InterestPacket(i), outList, draws);
      }
    }

    /** The periodic cleanup of the pending-interest table. */
    method CleanUpPit(now: Time)
      requires Valid()
      modifies pit
      ensures Valid() && View() == FN.CleanUpPit(old(View()), now).node
      ensures pit.history == old(pit.history) + [PIT.Purge(now)]
    {
      pit.CleanUp(now);
    }

    method RemoveFace(faceId: FaceId)
      requires Valid() && fibManager != null
      modifies this`faceTable, fib
      ensures Valid() && View() == FN.RemoveFace(old(View()), faceId)
      ensures faceTable == old(faceTable) - {faceId} && fib.table == FibTable.Without(old(fib.table), faceId)
    {
      faceTable := faceTable - {faceId};
      fibManager.CleanUpFib(faceId);
    }

    method Start()
      requires Valid() && faceCounter < MAX_INT
      modifies this`fibManager, this`faceCounter, this`client, fib
      ensures Valid() && View() == FN.Start(old(View()))
      ensures client != null && fresh(client) && client.outgoing == [] && client.id == old(faceCounter)
      ensures fibManager != null && fib.table == FibTable.WithRoute(old(fib.table), RIB_PREFIX, RIB_FACE)
    {
      fibManager := new FibManager(this, fib);
      var faceId := faceCounter;
      faceCounter := faceCounter + 1;
      client := new AppStream.AppFace(faceId, reader);
    }

    method HandleAccept()
      requires Valid() && client != null && faceCounter < MAX_INT
      modifies this`faceCounter, this`client, this`faceTable
      ensures Valid() && View() == FN.HandleAccept(old(View()))
      ensures faceTable == old(faceTable)[old(client).id := App(old(client))]
      ensures client != null && fresh(client) && client.outgoing == [] && client.id == old(faceCounter)
    {
      var face: AppStream.AppFace := client;
      var faceId := faceCounter;
      faceCounter := faceCounter + 1;
      client := new AppStream.AppFace(faceId, reader);
      faceTable := faceTable[face.id := App(face)];
    }

    /** A device id can be used once; the device starts with a face for broadcasts. */
    method AddDevice(devId: DeviceId, mac: Mac, link: Link, limit: nat) returns (dev: Option<LinkDevice>)
      requires Valid() && faceCounter < MAX_INT
      modifies this`faceCounter, this`faceTable, this`deviceTable
      ensures Valid() && (dev.None? <==> devId in old(deviceTable))
      ensures dev.None? ==> unchanged(this)
      ensures dev.Some? ==>
                && fresh(dev.value) && dev.value.mac == mac && dev.value.node == this && dev.value.link == link
                && dev.value.limit == limit
                && dev.value.Valid() && BROADCAST in dev.value.faces && dev.value.trace == [] && dev.value.posted == []
                && faceTable == old(faceTable)[old(faceCounter) := Net(dev.value.faces[BROADCAST])]
                && View() == FN.AddLinkFace(old(View())) && deviceTable == old(deviceTable)[devId := dev.value]
                && dev.value.View() == CsmaDevice.Start(map[BROADCAST := old(faceCounter)])
    {
      if devId in deviceTable {
        return None;
      }
      var device := new LinkDevice(mac, this, link, limit);
      device.AddBroadcastFace();
      assert faceTable.Keys == old(faceTable.Keys) + {old(faceCounter)};
      assert View() == FN.AddLinkFace(old(View()));
      assert device.FaceIds() == map[BROADCAST := old(faceCounter)];
      deviceTable := deviceTable[devId := device];
      dev := Some(device);
    }

    /** A face created for a static route is not entered in the device's own table. */
    method AddRoute(prefix: Name, devId: DeviceId, nexthop: Mac) returns (known: bool)
      requires Valid() && faceCounter < MAX_INT
      modifies this`faceCounter, this`faceTable, fib
      ensures Valid() && (known <==> devId in deviceTable)
      ensures !known ==> unchanged(this) && unchanged(fib)
      ensures known ==>
                var dev := deviceTable[devId];
                var there := if nexthop in dev.faces then Some(dev.faces[nexthop].id) else None;
                View() == FN.AddRoute(old(View()), prefix, there)
                && fib.table == FibTable.WithRoute(old(fib.table), prefix,
                                                   if there.Some? then there.value else old(faceCounter))
                && Devices() <= old(Devices()) + {dev} && Apps() <= old(Apps())
                && (there.Some? ==> faceTable == old(faceTable))
                && (there.None? ==>
                      old(faceCounter) in faceTable && faceTable[old(faceCounter)].Net?
                      && var face := faceTable[old(faceCounter)].link;
                         face.remoteMac == nexthop && face.device == dev
                         && faceTable == old(faceTable)[old(faceCounter) := Net(face)])
    {
      if devId !in deviceTable {
        return false;
      }
      var dev := deviceTable[devId];
      var face;
      if nexthop in dev.faces {
        face := dev.faces[nexthop];
      } else {
        face := AddLinkFace(nexthop, dev);
      }
      fib.AddRoute(prefix, face.id);
      return true;
    }
  }

  class FibManager {
    const node: Node
    const fib: FibTable.Fib

    constructor (node: Node, fib: FibTable.Fib)
      modifies fib
      ensures this.node == node && this.fib == fib
      ensures fib.table == FibTable.WithRoute(old(fib.table), RIB_PREFIX, RIB_FACE)
    {
      this.node, this.fib := node, fib;
      new;
      fib.AddRoute(RIB_PREFIX, RIB_FACE);
    }

    /** Registers a route and answers through the node's own Data path. */
    method ProcessCommand(face: FaceId, request: Interest, now: Time, draws: Draws) returns (ghost pkt: Packet?)
      requires node.Valid() && fib == node.fib && FN.Readable(request.name)
      modifies node.pit, fib, node.cache, node.Devices(), node.Apps()
      ensures node.Valid() && unchanged(node) && (pkt != null ==> fresh(pkt))
      ensures node.Did(FN.ProcessCommand(node.lib, old(node.View()), face, request, now),
                       old(node.pit.history), old(node.cache.inserted), old(node.Outside()), pkt, draws)
    {
      pkt := null;
      var command := request.name;
      var verb := command[|RIB_PREFIX|];
      if verb == FN.REGISTER {
        var extracted := node.lib.decode(command[|RIB_PREFIX| + 1]);
        if extracted.None? {
          return;
        }
        var parameters := extracted.value;
        if parameters.faceId.None? || parameters.faceId.value == 0 {
          parameters := parameters.(faceId := Some(FN.ToUint64(face)));
        }
        var response := AddNextHop(parameters);
        node.OutsideKept();
        pkt := SendResponse(command, response, now, draws);
      }
    }

    method AddNextHop(parameters: FN.ControlParameters) returns (response: FN.ControlResponse)
      modifies fib
      ensures if FN.ValidRequest(node.lib, parameters)
              then response == FN.ControlResponse(200, "Success", Some(parameters))
                   && fib.table == FibTable.WithRoute(old(fib.table), parameters.name.value,
                                                      FN.ToInt(parameters.faceId.value))
              else response == FN.ControlResponse(400, "Malformed command", None) && unchanged(fib)
    {
      if !FN.ValidRequest(node.lib, parameters) {
        return FN.ControlResponse(400, "Malformed command", None);
      }
      fib.AddRoute(parameters.name.value, FN.ToInt(parameters.faceId.value));
      return FN.ControlResponse(200, "Success", Some(parameters));
    }

    method SendResponse(name: Name, response: FN.ControlResponse, now: Time, draws: Draws)
      returns (ghost pkt: Packet?)
      requires node.Valid()
      modifies node.pit, node.cache, node.Devices(), node.Apps()
      ensures node.Valid() && unchanged(node) && (pkt != null ==> fresh(pkt))
      ensures node.Did(FN.SendResponse(node.lib, old(node.View()), name, response, now),
                       old(node.pit.history), old(node.cache.inserted), old(node.Outside()), pkt, draws)
    {
      var data := Data(name, node.lib.freshness, node.lib.sign(name, response));
      pkt := node.HandleData(RIB_FACE, data, now, draws);
    }

    method CleanUpFib(face: FaceId)
      modifies fib
      ensures fib.table == FibTable.Without(old(fib.table), face)
    {
      fib.CleanUp(face);
    }
  }
}
