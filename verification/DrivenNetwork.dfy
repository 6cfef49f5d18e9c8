/** Nodes, devices and links together, under any interleaving of timers, posted callbacks,
    packets from applications and management of the nodes. */
module DrivenNetwork {
  import opened Ndn
  import opened CsmaDevice
  import opened DrivenDevice
  import opened FaithfulDevice
  import DrivenNode
  import AppStream
  import FibTable
  import FN = ForwardingNode
  import FrameAddresses
  import ForwardingFaces
  import E = Emulator

  /** The objects of one emulation. */
  datatype Topology = Topology(nodes: set<E.Node>, devices: set<E.LinkDevice>, links: set<E.Link>)

  datatype Happening =
    | ReceiveTimer(dev: E.LinkDevice)
    | CsmaTimer(dev: E.LinkDevice, draw: nat)
    | PostedCallback(dev: E.LinkDevice, lost: set<E.NodeId>, now: Time, draws: Draws)
    | ClientPacket(node: E.Node, face: FaceId, content: Packet, now: Time, draws: Draws)
    | CleanUpTimer(node: E.Node, now: Time)
    | NodeStarts(node: E.Node)
    | ClientConnects(node: E.Node)
    | FaceFails(node: E.Node, face: FaceId)

  predicate Within(t: Topology, o: Happening) {
    match o
    case ReceiveTimer(dev) => dev in t.devices
    case CsmaTimer(dev, _) => dev in t.devices
    case PostedCallback(dev, _, _, _) => dev in t.devices
    case ClientPacket(node, _, _, _, _) => node in t.nodes
    case CleanUpTimer(node, _) => node in t.nodes
    case NodeStarts(node) => node in t.nodes
    case ClientConnects(node) => node in t.nodes
    case FaceFails(node, _) => node in t.nodes
  }

  predicate OnDevice(h: Happening) {
    h.ReceiveTimer? || h.CsmaTimer? || h.PostedCallback?
  }

  /** The node it happens to. */
  function Host(h: Happening): E.Node {
    match h
    case ReceiveTimer(dev) => dev.node
    case CsmaTimer(dev, _) => dev.node
    case PostedCallback(dev, _, _, _) => dev.node
    case ClientPacket(node, _, _, _, _) => node
    case CleanUpTimer(node, _) => node
    case NodeStarts(node) => node
    case ClientConnects(node) => node
    case FaceFails(node, _) => node
  }

  function EventFor(face: FaceId, content: Packet, now: Time): FN.Event {
    match content
    case InterestPacket(i) => FN.InterestIn(face, i, now)
    case DataPacket(d) => FN.DataIn(face, d, now)
  }

  function EventOf(h: Happening): FN.Event
    requires !OnDevice(h)
  {
    match h
    case ClientPacket(_, face, content, now, _) => EventFor(face, content, now)
    case CleanUpTimer(_, now) => FN.PitTimer(now)
    case NodeStarts(_) => FN.Started
    case ClientConnects(_) => FN.ClientAccepted
    case FaceFails(_, face) => FN.FaceRemoved(face)
  }

  /** What it can be for its node: a frame heard can add a face for its sender, and a posted
      callback can bring a packet. */
  predicate Causes(h: Happening, e: FN.Event) {
    match h
    case ReceiveTimer(_) => e.LinkFaceAdded?
    case CsmaTimer(_, _) => false
    case PostedCallback(_, _, now, _) => (e.InterestIn? || e.DataIn?) && e.at == now
    case _ => e == EventOf(h)
  }

  /** The node can take part: the face was given out, and the state allows the event. */
  predicate Ready(h: Happening, n: FN.Node)
    requires !OnDevice(h)
  {
    (h.ClientPacket? ==> 1 <= h.face < n.counter) && FN.Enabled(n, EventOf(h))
  }

  /** What happens to a node directly takes effect whenever the node is ready for it. */
  predicate Accounts(h: Happening, n: FN.Node, e: Option<FN.Event>) {
    if e.Some? then Causes(h, e.value) else OnDevice(h) || !Ready(h, n)
  }

  /** What an event at one node is for the node one follows. */
  function SeenAt(host: E.Node, node: E.Node, e: Option<FN.Event>): Option<FN.Event> {
    if host == node then e else None
  }

  /** From that state, these are the events of the schedule at the node. */
  ghost predicate Explains(schedule: seq<Happening>, node: E.Node, n: FN.Node, es: seq<FN.Event>)
    decreases |schedule|
  {
    if schedule == [] then es == []
    else
      var before, h := schedule[..|schedule| - 1], schedule[|schedule| - 1];
      if Host(h) != node then Explains(before, node, n, es)
      else
        (Explains(before, node, n, es) && FN.Possible(node.lib, n, es) && Accounts(h, FN.Run(node.lib, n, es), None))
        || (es != [] && Causes(h, es[|es| - 1]) && Explains(before, node, n, es[..|es| - 1]))
  }

  lemma ExplainsFurther(schedule: seq<Happening>, k: nat, node: E.Node, n: FN.Node, es: seq<FN.Event>,
                        e: Option<FN.Event>)
    requires k < |schedule| && Explains(schedule[..k], node, n, es) && FN.Possible(node.lib, n, es)
    requires Host(schedule[k]) == node ==> Accounts(schedule[k], FN.Run(node.lib, n, es), e)
    ensures Explains(schedule[..k + 1], node, n, DrivenNode.WithEvent(es, SeenAt(Host(schedule[k]), node, e)))
  {
    var done := schedule[..k + 1];
    assert done[..|done| - 1] == schedule[..k] && done[|done| - 1] == schedule[k];
    if e.Some? { assert (es + [e.value])[..|es|] == es; }
  }

  // ---- What holds all along -------------------------------------------------------------

  /** Two nodes share no table and no application. */
  ghost predicate Apart(n: E.Node, m: E.Node)
    reads n, m
  {
    n.pit != m.pit && n.fib != m.fib && n.cache != m.cache && DrivenNode.Clients(n) !! DrivenNode.Clients(m)
  }

  ghost predicate AllApart(nodes: set<E.Node>)
    reads nodes
  {
    forall n, m {:trigger Apart(n, m)} :: n in nodes && m in nodes && n != m ==> Apart(n, m)
  }

  ghost predicate NodesWired(t: Topology)
    reads t.nodes
  {
    forall n {:trigger n.Devices()} :: n in t.nodes ==> n.Devices() <= t.devices
  }

  ghost predicate LinksWired(t: Topology)
    reads t.links
  {
    forall l {:trigger l.Valid()} :: l in t.links ==> l.Valid() && l.OwnIds() && l.nodeTable.Values <= t.devices
  }

  /** The objects know only each other, and any two nodes are apart. */
  ghost predicate Wired(t: Topology)
    reads t.nodes, t.links
  {
    && (forall d :: d in t.devices ==> d.node in t.nodes && d.link in t.links)
    && NodesWired(t) && LinksWired(t) && AllApart(t.nodes)
  }

  ghost predicate NodesSound(nodes: set<E.Node>)
    reads nodes, set n | n in nodes :: n.pit, set n | n in nodes :: n.fib, set n | n in nodes :: n.cache
  {
    forall n {:trigger DrivenNode.Sound(n)} :: n in nodes ==> DrivenNode.Sound(n)
  }

  ghost function AllDispatched(devices: set<E.LinkDevice>): set<E.Packet>
    reads devices
  {
    set d, p | d in devices && p in DispatchedFrames(d) :: p
  }

  ghost predicate DevicesFaithful(devices: set<E.LinkDevice>)
    reads devices, set d | d in devices :: d.node
    reads AllDispatched(devices)
  {
    forall d {:trigger Faithful(d)} :: d in devices ==> Faithful(d)
  }

  ghost predicate Running(t: Topology)
    reads t.nodes, t.devices, t.links, set d | d in t.devices :: d.node
    reads set n | n in t.nodes :: n.pit, set n | n in t.nodes :: n.fib, set n | n in t.nodes :: n.cache
    reads AllDispatched(t.devices)
  {
    Wired(t) && NodesSound(t.nodes) && DevicesFaithful(t.devices)
  }

  /** Every client of these nodes, connected or about to be. */
  ghost function Clients(nodes: set<E.Node>): set<AppStream.AppFace>
    reads nodes
  {
    set n, a | n in nodes && a in DrivenNode.Clients(n) :: a
  }

  /** Those that are connected. */
  ghost function Connected(nodes: set<E.Node>): set<AppStream.AppFace>
    reads nodes
  {
    set n, a | n in nodes && a in n.Apps() :: a
  }

  /** At most one more face id, and no client but new ones. */
  twostate predicate NodeGrew(n: E.Node)
    reads n
  {
    old(n.faceCounter) <= n.faceCounter <= old(n.faceCounter) + 1
    && forall x :: x in DrivenNode.Clients(n) ==> x in old(DrivenNode.Clients(n)) || fresh(x)
  }

  twostate predicate Untouched(n: E.Node)
    reads n, n.pit, n.fib, n.cache, DrivenNode.Clients(n)
  {
    unchanged(n) && unchanged(n.pit) && unchanged(n.fib) && unchanged(n.cache)
    && forall a :: a in DrivenNode.Clients(n) ==> unchanged(a)
  }

  /** Only this node was touched. */
  twostate predicate OnlyAt(nodes: set<E.Node>, node: E.Node)
    reads nodes, Clients(nodes)
    reads set n | n in nodes :: n.pit, set n | n in nodes :: n.fib, set n | n in nodes :: n.cache
  {
    forall n {:trigger Untouched(n)} :: n in nodes && n != node ==> Untouched(n)
  }

  /** It did what the event makes of its state, or nothing if there was none. */
  twostate predicate StepAt(nodes: set<E.Node>, node: E.Node, new e: Option<FN.Event>)
    reads nodes, Clients(nodes), node, node.pit, node.fib, node.cache
    reads set n | n in nodes :: n.pit, set n | n in nodes :: n.fib, set n | n in nodes :: n.cache
  {
    DrivenNode.Advanced(node, e) && NodeGrew(node) && DrivenNode.SameFaces(node) && OnlyAt(nodes, node)
  }

  // ---- What a step leaves alone ---------------------------------------------------------

  twostate lemma OtherDevicesKept(devices: set<E.LinkDevice>, new touched: set<E.LinkDevice>)
    requires old(DevicesFaithful(devices))
    requires forall d :: d in touched ==> Faithful(d)
    requires forall d :: d in devices && d !in touched ==> unchanged(d)
    requires forall d :: d in devices ==> old(d.node.faceCounter) <= d.node.faceCounter
    requires forall p :: p in old(AllDispatched(devices)) ==> unchanged(p)
    ensures DevicesFaithful(devices)
  {
    forall d | d in devices && d !in touched ensures Faithful(d) {
      assert forall p :: p in old(DispatchedFrames(d)) ==> p in old(AllDispatched(devices));
      StaysFaithful(d);
    }
  }

  twostate lemma LinksKept(t: Topology)
    requires old(LinksWired(t)) && forall l :: l in t.links ==> l.Valid() && l.nodeTable == old(l.nodeTable)
    ensures LinksWired(t)
  {
    forall l | l in t.links ensures l.OwnIds() && l.nodeTable.Values <= t.devices {
      assert old(l.Valid());
    }
  }

  twostate lemma StillApart(nodes: set<E.Node>, new touched: E.Node)
    requires old(AllApart(nodes)) && touched in nodes && NodeGrew(touched) && OnlyAt(nodes, touched)
    ensures AllApart(nodes)
  {
    forall n, m | n in nodes && m in nodes && n != m ensures Apart(n, m) {
      assert old(Apart(n, m));
      assert (n != touched ==> Untouched(n)) && (m != touched ==> Untouched(m));
    }
  }

  twostate lemma OtherNodesSound(nodes: set<E.Node>, new touched: E.Node)
    requires old(NodesSound(nodes)) && touched in nodes && DrivenNode.Sound(touched) && OnlyAt(nodes, touched)
    ensures NodesSound(nodes)
  {
    forall n | n in nodes ensures DrivenNode.Sound(n) {
      assert n != touched ==> Untouched(n);
    }
  }

  twostate lemma OtherNodesKept(t: Topology, new touched: E.Node)
    requires old(NodesSound(t.nodes)) && old(Wired(t)) && LinksWired(t) && touched in t.nodes
    requires DrivenNode.Sound(touched) && touched.Devices() <= t.devices && NodeGrew(touched)
    requires OnlyAt(t.nodes, touched)
    ensures NodesSound(t.nodes) && Wired(t)
  {
    StillApart(t.nodes, touched);
    OtherNodesSound(t.nodes, touched);
    forall n | n in t.nodes ensures n.Devices() <= t.devices {
      assert n != touched ==> Untouched(n);
    }
  }

  /** What a packet can touch at a node. */
  ghost function Touched(node: E.Node): set<object>
    reads node
  {
    {node.pit as object, node.fib, node.cache} + node.Devices() + node.Apps()
  }

  /** What belongs to a node. */
  ghost function Parts(node: E.Node): set<object>
    reads node
  {
    {node as object, node.pit, node.fib, node.cache} + DrivenNode.Clients(node)
  }

  ghost function Others(nodes: set<E.Node>, node: E.Node): set<object>
    reads nodes
  {
    set n, o | n in nodes && n != node && o in Parts(n) :: o
  }

  lemma OthersApart(nodes: set<E.Node>, node: E.Node)
    requires AllApart(nodes) && node in nodes
    ensures Others(nodes, node) !! Touched(node)
  {
    forall n, o | n in nodes && n != node && o in Parts(n) ensures o !in Touched(node) {
      assert Apart(n, node);
      assert o in DrivenNode.Clients(n) ==> o !in DrivenNode.Clients(node);
    }
  }

  twostate lemma OthersUntouched(nodes: set<E.Node>, new node: E.Node)
    requires node in nodes && forall o :: o in old(Others(nodes, node)) ==> unchanged(o)
    ensures OnlyAt(nodes, node)
  {
    forall n | n in nodes && n != node ensures Untouched(n) {
      assert old(Parts(n)) <= old(Others(nodes, node));
      assert n in old(Parts(n)) && n.pit in old(Parts(n)) && n.fib in old(Parts(n)) && n.cache in old(Parts(n));
      assert forall a :: a in old(DrivenNode.Clients(n)) ==> a in old(Parts(n));
    }
  }

  // ---- Following one node -----------------------------------------------------------------

  ghost predicate IdsLeft(nodes: set<E.Node>, k: nat)
    reads nodes
  {
    forall n :: n in nodes ==> n.faceCounter + k <= MAX_INT
  }

  /** No other node sends to the applications the node is followed on. */
  ghost predicate Watching(nodes: set<E.Node>, w: DrivenNode.Watch)
    reads nodes
  {
    w.node in nodes
    && forall m, f :: m in nodes && m != w.node && f in w.apps ==> w.apps[f] !in DrivenNode.Clients(m)
  }

  /** What following a node takes from all of them. */
  datatype Sight = Sight(log: DrivenNode.Log, counters: map<E.Node, FaceId>,
                         clients: map<E.Node, set<AppStream.AppFace>>)

  ghost function SightOf(nodes: set<E.Node>, w: DrivenNode.Watch): Sight
    reads nodes, w.node, w.node.pit, w.node.fib, w.node.cache, w.apps.Values
  {
    Sight(DrivenNode.LogOf(w.node, w.apps), map n | n in nodes :: n.faceCounter,
          map n | n in nodes :: DrivenNode.Clients(n))
  }

  ghost predicate SeenSoFar(s: Sight, w: DrivenNode.Watch, es: seq<FN.Event>, k: nat) {
    && DrivenNode.Led(w.node.lib, w.apps, w.log, s.log, es)
    && (forall n :: n in s.counters ==> s.counters[n] + k <= MAX_INT)
    && (forall m, f :: m in s.clients && m != w.node && f in w.apps ==> w.apps[f] !in s.clients[m])
  }

  /** The node is followed, these are its events so far, no other node sends to its
      applications, and ids are left for so many more events. */
  ghost predicate Tracked(nodes: set<E.Node>, w: DrivenNode.Watch, es: seq<FN.Event>, k: nat)
    reads nodes, w.node, w.node.pit, w.node.fib, w.node.cache, w.apps.Values
  {
    w.node in nodes && SeenSoFar(SightOf(nodes, w), w, es, k)
  }

  lemma TrackedIff(nodes: set<E.Node>, w: DrivenNode.Watch, es: seq<FN.Event>, k: nat)
    ensures Tracked(nodes, w, es, k) <==> Watching(nodes, w) && DrivenNode.Follows(w, es) && IdsLeft(nodes, k)
  {
    var s := SightOf(nodes, w);
    assert forall n :: n in nodes ==> s.counters[n] == n.faceCounter && s.clients[n] == DrivenNode.Clients(n);
  }

  /** No client but new ones. */
  twostate predicate ClientsGrew(nodes: set<E.Node>)
    reads nodes
  {
    forall x :: x in Clients(nodes) ==> x in old(Clients(nodes)) || fresh(x)
  }

  lemma AppsAreConnected(nodes: set<E.Node>, node: E.Node)
    requires node in nodes
    ensures node.Apps() <= Connected(nodes) <= Clients(nodes)
  {
    assert forall n, a :: n in nodes && a in n.Apps() ==> a in DrivenNode.Clients(n);
  }

  lemma StartWatching(nodes: set<E.Node>, node: E.Node)
    requires AllApart(nodes) && NodesSound(nodes) && node in nodes
    ensures Watching(nodes, DrivenNode.WatchOf(node)) && DrivenNode.Follows(DrivenNode.WatchOf(node), [])
  {
    var apps := DrivenNode.AppsOf(node);
    forall m, f | m in nodes && m != node && f in apps ensures apps[f] !in DrivenNode.Clients(m) {
      assert Apart(m, node) && apps[f] in DrivenNode.Clients(node);
    }
    DrivenNode.FollowsNothing(node);
  }

  function SentBy(lib: FN.Library, n: FN.Node, e: Option<FN.Event>): FN.Sent
    requires e.Some? ==> FN.Enabled(n, e.value)
  {
    DrivenNode.OutcomeOf(lib, n, e).sent
  }

  /** Several nodes, one of them followed. */
  datatype Scene = Scene(nodes: set<E.Node>, watch: DrivenNode.Watch)

  /** What one node does, seen from the one followed. */
  twostate lemma SeenByWatched(s: Scene, new host: E.Node, new e: Option<FN.Event>)
    requires old(NodesSound(s.nodes)) && host in s.nodes && StepAt(s.nodes, host, e)
    requires old(Watching(s.nodes, s.watch)) && old(DrivenNode.AllKept(s.watch.node, s.watch.apps))
    requires DrivenNode.Got(old(DrivenNode.AppsOf(host)), SentBy(host.lib, old(host.View()), e))
    requires forall a :: a in s.watch.apps.Values && a !in old(host.Apps()) ==> unchanged(a)
    ensures DrivenNode.Moved(s.watch.node, s.watch.apps, SeenAt(host, s.watch.node, e))
  {
    var w := s.watch;
    assert old(DrivenNode.Sound(host)) && old(DrivenNode.Sound(w.node));
    forall f | f in w.apps && f !in old(w.node.faceTable) ensures w.apps[f] !in old(host.Apps()) {
      assert old(DrivenNode.Kept(w.node.View(), w.node.faceTable, f, w.apps[f]));
      if host == w.node {
        assert old(host.IdsMatch()) && w.apps[f].id == f;
      } else {
        assert w.apps[f] !in old(DrivenNode.Clients(host));
      }
    }
    if host != w.node {
      assert Untouched(w.node);
      assert forall f :: f in old(DrivenNode.AppsOf(w.node)) ==>
               old(DrivenNode.AppsOf(w.node))[f] in DrivenNode.Clients(w.node);
    }
    DrivenNode.MovedAt(w, SeenAt(host, w.node, e));
  }

  twostate lemma StillWatching(s: Scene, new host: E.Node, new e: Option<FN.Event>)
    requires old(Watching(s.nodes, s.watch)) && host in s.nodes && StepAt(s.nodes, host, e)
    ensures Watching(s.nodes, s.watch)
  {
    forall m | m in s.nodes && m != s.watch.node
      ensures forall f :: f in s.watch.apps ==> s.watch.apps[f] !in DrivenNode.Clients(m)
    {
      assert m != host ==> Untouched(m);
    }
  }

  twostate lemma AllGrew(nodes: set<E.Node>, new host: E.Node, new e: Option<FN.Event>, new k: nat)
    requires old(IdsLeft(nodes, k + 1)) && host in nodes && StepAt(nodes, host, e)
    ensures IdsLeft(nodes, k) && ClientsGrew(nodes)
  {
    forall n | n in nodes ensures NodeGrew(n) {
      assert n != host ==> Untouched(n);
    }
    forall x | x in Clients(nodes) ensures x in old(Clients(nodes)) || fresh(x) {
      var n :| n in nodes && x in DrivenNode.Clients(n);
      assert NodeGrew(n);
    }
  }

  /** One step further: what is followed stays so. */
  twostate lemma TrackedFurther(s: Scene, new host: E.Node, new e: Option<FN.Event>, new es: seq<FN.Event>, new k: nat)
    requires old(NodesSound(s.nodes)) && host in s.nodes && StepAt(s.nodes, host, e)
    requires old(Watching(s.nodes, s.watch)) && old(DrivenNode.Follows(s.watch, es)) && old(IdsLeft(s.nodes, k + 1))
    requires DrivenNode.Got(old(DrivenNode.AppsOf(host)), SentBy(host.lib, old(host.View()), e))
    requires forall a :: a in s.watch.apps.Values && a !in old(host.Apps()) ==> unchanged(a)
    ensures Tracked(s.nodes, s.watch, DrivenNode.WithEvent(es, SeenAt(host, s.watch.node, e)), k)
    ensures ClientsGrew(s.nodes)
  {
    AllGrew(s.nodes, host, e, k);
    StillWatching(s, host, e);
    SeenByWatched(s, host, e);
    DrivenNode.FollowsFurther(s.watch, es, SeenAt(host, s.watch.node, e));
    TrackedIff(s.nodes, s.watch, DrivenNode.WithEvent(es, SeenAt(host, s.watch.node, e)), k);
  }

  // ---- The occurrences ------------------------------------------------------------------

  method BackoffEnds(t: Topology, dev: E.LinkDevice, draw: nat)
    requires Running(t) && dev in t.devices && dev.csmaTimer.Some?
    modifies dev
    ensures Running(t)
  {
    ContendAgain(dev, draw);
    OtherDevicesKept(t.devices, {dev});
  }

  twostate lemma NodeGrows(dev: E.LinkDevice)
    requires NewFaceOf(dev) && old(DrivenNode.Sound(dev.node)) && old(dev.node.faceCounter) < MAX_INT
    requires unchanged(dev.node.pit) && unchanged(dev.node.fib) && unchanged(dev.node.cache)
    requires dev.node.fibManager == old(dev.node.fibManager) && dev.node.client == old(dev.node.client)
    ensures DrivenNode.Sound(dev.node) && dev.node.Devices() <= old(dev.node.Devices()) + {dev}
    ensures dev.node.Apps() <= old(dev.node.Apps())
    ensures DrivenNode.Advanced(dev.node, Some(FN.LinkFaceAdded))
  {
    var n := old(dev.node.View());
    assert dev.node.View() == FN.AddLinkFace(n);
    ForwardingFaces.HandleSound(dev.node.lib, n, FN.LinkFaceAdded);
  }

  twostate lemma NodeGrowsOrStays(dev: E.LinkDevice)
    requires unchanged(dev.node) || NewFaceOf(dev)
    requires old(DrivenNode.Sound(dev.node)) && old(dev.node.faceCounter) < MAX_INT
    requires unchanged(dev.node.pit) && unchanged(dev.node.fib) && unchanged(dev.node.cache)
    requires dev.node.fibManager == old(dev.node.fibManager) && dev.node.client == old(dev.node.client)
    ensures DrivenNode.Sound(dev.node) && dev.node.Devices() <= old(dev.node.Devices()) + {dev}
    ensures NodeGrew(dev.node) && DrivenNode.SameFaces(dev.node)
    ensures DrivenNode.Advanced(dev.node, if unchanged(dev.node) then None else Some(FN.LinkFaceAdded))
  {
    if NewFaceOf(dev) { NodeGrows(dev); }
  }

  /** The reception ends on a device of one node. */
  method ReceptionAt(dev: E.LinkDevice, ghost others: set<object>) returns (ghost e: Option<FN.Event>)
    requires Faithful(dev) && dev.rxTimer && DrivenNode.Sound(dev.node) && dev.node.faceCounter < MAX_INT
    requires dev !in others && dev.node !in others
    modifies dev, dev.node`faceCounter, dev.node`faceTable
    ensures Faithful(dev) && forall o :: o in others ==> unchanged(o)
    ensures DrivenNode.Sound(dev.node) && dev.node.Devices() <= old(dev.node.Devices()) + {dev}
    ensures NodeGrew(dev.node) && DrivenNode.SameFaces(dev.node)
    ensures DrivenNode.Advanced(dev.node, e) && (e.Some? ==> e.value.LinkFaceAdded?)
  {
    FinishReception(dev);
    NodeGrowsOrStays(dev);
    e := if unchanged(dev.node) then None else Some(FN.LinkFaceAdded);
  }

  method ReceptionAmong(ghost nodes: set<E.Node>, ghost devices: set<E.LinkDevice>, dev: E.LinkDevice)
    returns (ghost e: Option<FN.Event>)
    requires DevicesFaithful(devices) && dev in devices && dev.rxTimer && dev.node in nodes
    requires DrivenNode.Sound(dev.node) && dev.node.faceCounter < MAX_INT
    modifies dev, dev.node`faceCounter, dev.node`faceTable
    ensures DevicesFaithful(devices)
    ensures DrivenNode.Sound(dev.node) && dev.node.Devices() <= old(dev.node.Devices()) + {dev}
    ensures StepAt(nodes, dev.node, e) && (e.Some? ==> e.value.LinkFaceAdded?)
  {
    assert Faithful(dev) && dev.node !in Others(nodes, dev.node) && dev !in Others(nodes, dev.node);
    e := ReceptionAt(dev, Others(nodes, dev.node));
    OthersUntouched(nodes, dev.node);
    OtherDevicesKept(devices, {dev});
  }

  method ReceptionEnds(t: Topology, dev: E.LinkDevice) returns (ghost e: Option<FN.Event>)
    requires Running(t) && dev in t.devices && dev.rxTimer && dev.node.faceCounter < MAX_INT
    modifies dev, dev.node`faceCounter, dev.node`faceTable
    ensures Running(t) && StepAt(t.nodes, dev.node, e) && (e.Some? ==> e.value.LinkFaceAdded?)
  {
    e := ReceptionAmong(t.nodes, t.devices, dev);
    OtherNodesKept(t, dev.node);
  }

  twostate lemma ReceiverFaithful(d: E.LinkDevice, new pkt: E.Packet)
    requires old(Faithful(d)) && (unchanged(d) || d.Heard(pkt)) && unchanged(d.node)
    requires forall p :: p in old(DispatchedFrames(d)) ==> unchanged(p)
    ensures Faithful(d) && !d.Unable()
  {
    if unchanged(d) { StaysFaithful(d); } else { HearingStaysFaithful(d, pkt); }
  }

  twostate lemma ReceiversFaithful(receivers: set<E.LinkDevice>, new pkt: E.Packet)
    requires old(DevicesFaithful(receivers))
    requires forall d :: d in receivers ==> (unchanged(d) || d.Heard(pkt)) && unchanged(d.node)
    requires forall p :: p in old(AllDispatched(receivers)) ==> unchanged(p)
    ensures DevicesFaithful(receivers) && forall d :: d in receivers ==> !d.Unable()
  {
    forall d | d in receivers ensures Faithful(d) && !d.Unable() {
      assert forall p :: p in old(DispatchedFrames(d)) ==> p in old(AllDispatched(receivers));
      ReceiverFaithful(d, pkt);
    }
  }

  /** The receivers hear the frame or lose it, and none throws. */
  method Spread(link: E.Link, id: E.NodeId, pkt: E.Packet, lost: set<E.NodeId>)
    requires link.Valid() && link.OwnIds() && DevicesFaithful(link.Receivers(id))
    modifies link`linkMatrix, link.Receivers(id)
    ensures link.Valid() && link.nodeTable == old(link.nodeTable) && DevicesFaithful(old(link.Receivers(id)))
  {
    ghost var receivers := link.Receivers(id);
    var threw := link.Transmit(id, pkt, lost);
    ReceiversFaithful(receivers, pkt);
    assert !threw;
  }

  twostate lemma PostedLess(dev: E.LinkDevice)
    requires old(Faithful(dev)) && old(dev.posted) != [] && dev.posted == old(dev.posted)[1..]
    requires dev.View() == old(dev.View()) && dev.trace == old(dev.trace) && dev.faces == old(dev.faces)
    requires dev.node.faceCounter == old(dev.node.faceCounter)
    requires forall p :: p in old(DispatchedFrames(dev)) ==> unchanged(p)
    ensures Faithful(dev)
  {
    assert forall q :: q in dev.posted ==> q in old(dev.posted);
    StaysTruthful(dev);
  }

  /** The event loop takes the first callback a device has posted. */
  method TakeCallback(ghost devices: set<E.LinkDevice>, dev: E.LinkDevice) returns (work: E.Posted)
    requires DevicesFaithful(devices) && dev in devices && dev.posted != []
    modifies dev`posted
    ensures DevicesFaithful(devices) && work == old(dev.posted)[0]
    ensures work.Dispatch? ==> work.face.device == dev && 1 <= work.face.id < dev.node.faceCounter
  {
    work := dev.posted[0];
    dev.posted := dev.posted[1..];
    PostedLess(dev);
    OtherDevicesKept(devices, {dev});
  }

  /** A posted frame goes to the link. */
  method TransmitAmong(ghost devices: set<E.LinkDevice>, dev: E.LinkDevice, lost: set<E.NodeId>)
    requires DevicesFaithful(devices) && dev in devices && dev.posted != [] && dev.posted[0].Transmit?
    requires dev.link.Valid() && dev.link.OwnIds() && dev.link.Receivers(dev.node.id) <= devices
    modifies dev.link`linkMatrix, devices
    ensures DevicesFaithful(devices) && dev.link.Valid() && dev.link.nodeTable == old(dev.link.nodeTable)
  {
    ghost var receivers := dev.link.Receivers(dev.node.id);
    var work := TakeCallback(devices, dev);
    label Taken:
    Spread(dev.link, dev.node.id, work.pkt, lost);
    OtherDevicesKept@Taken(devices, receivers);
  }

  method Transmission(t: Topology, dev: E.LinkDevice, lost: set<E.NodeId>)
    requires Running(t) && dev in t.devices && dev.posted != [] && dev.posted[0].Transmit?
    modifies dev.link`linkMatrix, t.devices
    ensures Running(t)
  {
    assert dev.link.Valid() && dev.link.Receivers(dev.node.id) <= t.devices;
    TransmitAmong(t.devices, dev, lost);
    LinksKept(t);
  }

  twostate lemma SenderFaithful(d: E.LinkDevice)
    requires old(Faithful(d)) && DrivenNode.Fares(d)
    requires forall p :: p in old(DispatchedFrames(d)) ==> unchanged(p)
    ensures Faithful(d)
  {
    StaysTruthful(d);
  }

  /** The event that a packet on this face is for the node, if it is one at all. */
  ghost function Arrival(node: E.Node, face: FaceId, content: Packet, now: Time): Option<FN.Event>
    reads node, node.pit, node.fib, node.cache
  {
    var e := EventFor(face, content, now);
    if FN.Enabled(node.View(), e) then Some(e) else None
  }

  /** What the node makes of it. */
  ghost function Response(node: E.Node, face: FaceId, content: Packet, now: Time): FN.Sent
    reads node, node.pit, node.fib, node.cache
  {
    SentBy(node.lib, node.View(), Arrival(node, face, content, now))
  }

  /** A packet comes in on a face. An Interest for the FIB manager whose name is too short to
      be read as a command is left out. */
  method Dispatch(node: E.Node, face: FaceId, content: Packet, now: Time, draws: Draws) returns (ghost pkt: E.Packet?)
    requires DrivenNode.Sound(node) && 1 <= face < node.faceCounter
    modifies node.pit, node.fib, node.cache, node.Devices(), node.Apps()
    ensures DrivenNode.Sound(node) && DrivenNode.DevicesFare(node)
    ensures unchanged(node) && (pkt != null ==> fresh(pkt))
    ensures DrivenNode.Advanced(node, old(Arrival(node, face, content, now)))
    ensures DrivenNode.SocketsGot(node, old(Response(node, face, content, now)))
    ensures node.Effect(old(Response(node, face, content, now)), old(node.Outside()), pkt, draws)
  {
    pkt := null;
    match content {
      case InterestPacket(i) =>
        var out := node.fib.LookUp(i.name, {});
        node.OutsideKept();
        assert out == FibTable.Faces(node.fib.table, i.name);
        if RIB_FACE !in out || FN.Readable(i.name) {
          pkt := DrivenNode.ReceiveAndSend(node, DrivenNode.InterestArrives(face, i, now, draws));
        }
      case DataPacket(d) =>
        pkt := DrivenNode.ReceiveAndSend(node, DrivenNode.DataArrives(face, d, now, draws));
    }
  }

  method DispatchApart(ghost others: set<object>, node: E.Node, face: FaceId, content: Packet, now: Time, draws: Draws)
    returns (ghost pkt: E.Packet?)
    requires DrivenNode.Sound(node) && 1 <= face < node.faceCounter && others !! Touched(node)
    modifies node.pit, node.fib, node.cache, node.Devices(), node.Apps()
    ensures DrivenNode.Sound(node) && DrivenNode.DevicesFare(node)
    ensures unchanged(node) && (pkt != null ==> fresh(pkt)) && forall o :: o in others ==> unchanged(o)
    ensures DrivenNode.Advanced(node, old(Arrival(node, face, content, now)))
    ensures DrivenNode.SocketsGot(node, old(Response(node, face, content, now)))
    ensures node.Effect(old(Response(node, face, content, now)), old(node.Outside()), pkt, draws)
  {
    pkt := Dispatch(node, face, content, now, draws);
  }

  method DispatchAmong(ghost nodes: set<E.Node>, node: E.Node, face: FaceId, content: Packet, now: Time, draws: Draws)
    returns (ghost pkt: E.Packet?)
    requires DrivenNode.Sound(node) && 1 <= face < node.faceCounter && node in nodes && AllApart(nodes)
    modifies node.pit, node.fib, node.cache, node.Devices(), node.Apps()
    ensures DrivenNode.Sound(node) && DrivenNode.DevicesFare(node)
    ensures unchanged(node) && (pkt != null ==> fresh(pkt)) && OnlyAt(nodes, node)
    ensures DrivenNode.Advanced(node, old(Arrival(node, face, content, now)))
    ensures DrivenNode.Got(old(DrivenNode.AppsOf(node)), old(Response(node, face, content, now)))
    ensures node.Effect(old(Response(node, face, content, now)), old(node.Outside()), pkt, draws)
  {
    OthersApart(nodes, node);
    pkt := DispatchApart(Others(nodes, node), node, face, content, now, draws);
    OthersUntouched(nodes, node);
    DrivenNode.GotAll(node, old(Response(node, face, content, now)));
  }

  twostate lemma SendersFaithful(node: E.Node)
    requires old(DevicesFaithful(node.Devices())) && DrivenNode.DevicesFare(node) && unchanged(node)
    requires forall p :: p in old(AllDispatched(node.Devices())) ==> unchanged(p)
    ensures DevicesFaithful(node.Devices())
  {
    forall d | d in node.Devices() ensures Faithful(d) {
      assert DrivenNode.Fares(d);
      assert forall p :: p in old(DispatchedFrames(d)) ==> p in old(AllDispatched(node.Devices()));
      SenderFaithful(d);
    }
  }

  method HandleAmong(ghost nodes: set<E.Node>, ghost devices: set<E.LinkDevice>, node: E.Node, face: FaceId,
                     content: Packet, now: Time, draws: Draws)
    returns (ghost pkt: E.Packet?)
    requires DrivenNode.Sound(node) && 1 <= face < node.faceCounter && node in nodes && AllApart(nodes)
    requires node.Devices() <= devices && DevicesFaithful(devices)
    modifies node.pit, node.fib, node.cache, node.Devices(), node.Apps()
    ensures DrivenNode.Sound(node) && DevicesFaithful(devices)
    ensures unchanged(node) && (pkt != null ==> fresh(pkt))
    ensures StepAt(nodes, node, old(Arrival(node, face, content, now)))
    ensures DrivenNode.Got(old(DrivenNode.AppsOf(node)), old(Response(node, face, content, now)))
    ensures node.Effect(old(Response(node, face, content, now)), old(node.Outside()), pkt, draws)
  {
    pkt := DispatchAmong(nodes, node, face, content, now, draws);
    SendersFaithful(node);
    OtherDevicesKept(devices, node.Devices());
  }

  method HandOver(t: Topology, node: E.Node, face: FaceId, content: Packet, now: Time, draws: Draws)
    returns (ghost pkt: E.Packet?)
    requires Running(t) && node in t.nodes && 1 <= face < node.faceCounter
    modifies node.pit, node.fib, node.cache, node.Devices(), node.Apps()
    ensures Running(t) && unchanged(node) && (pkt != null ==> fresh(pkt))
    ensures StepAt(t.nodes, node, old(Arrival(node, face, content, now)))
    ensures DrivenNode.Got(old(DrivenNode.AppsOf(node)), old(Response(node, face, content, now)))
    ensures node.Effect(old(Response(node, face, content, now)), old(node.Outside()), pkt, draws)
  {
    pkt := HandleAmong(t.nodes, t.devices, node, face, content, now, draws);
    OtherNodesKept(t, node);
  }

  method ManageAmong(ghost nodes: set<E.Node>, node: E.Node, o: DrivenNode.Occurrence)
    requires DrivenNode.Sound(node) && FN.Enabled(node.View(), DrivenNode.EventOf(o))
    requires !o.InterestArrives? && !o.DataArrives? && node in nodes && AllApart(nodes)
    modifies node, node.pit, node.fib
    ensures DrivenNode.Sound(node) && node.Devices() <= old(node.Devices())
    ensures StepAt(nodes, node, Some(DrivenNode.EventOf(o)))
  {
    OthersApart(nodes, node);
    assert node !in Others(nodes, node) && node.pit in Touched(node) && node.fib in Touched(node);
    DrivenNode.Manage(node, o);
    OthersUntouched(nodes, node);
  }

  /** Time, clients and failures on a node; nothing is sent. */
  method Housekeep(t: Topology, node: E.Node, o: DrivenNode.Occurrence)
    requires Running(t) && node in t.nodes && FN.Enabled(node.View(), DrivenNode.EventOf(o))
    requires !o.InterestArrives? && !o.DataArrives?
    modifies node, node.pit, node.fib
    ensures Running(t) && StepAt(t.nodes, node, Some(DrivenNode.EventOf(o)))
  {
    ManageAmong(t.nodes, node, o);
    OtherDevicesKept(t.devices, {});
    OtherNodesKept(t, node);
  }

  lemma MoreThanEnough(nodes: set<E.Node>, w: DrivenNode.Watch, es: seq<FN.Event>, k: nat)
    requires Tracked(nodes, w, es, k + 1)
    ensures Tracked(nodes, w, es, k)
  {
  }

  // ---- Every occurrence, with one node followed -------------------------------------------

  method ReceiveTimerFires(t: Topology, dev: E.LinkDevice, ghost w: DrivenNode.Watch, ghost es: seq<FN.Event>,
                           ghost k: nat)
    returns (ghost e: Option<FN.Event>)
    requires Running(t) && dev in t.devices && dev.rxTimer && Tracked(t.nodes, w, es, k + 1)
    modifies dev, dev.node`faceCounter, dev.node`faceTable
    ensures Running(t) && Tracked(t.nodes, w, DrivenNode.WithEvent(es, SeenAt(dev.node, w.node, e)), k)
    ensures ClientsGrew(t.nodes) && (e.Some? ==> e.value.LinkFaceAdded?)
  {
    TrackedIff(t.nodes, w, es, k + 1);
    e := ReceptionEnds(t, dev);
    TrackedFurther(Scene(t.nodes, w), dev.node, e, es, k);
  }

  method PacketComes(t: Topology, node: E.Node, face: FaceId, content: Packet, now: Time, draws: Draws,
                     ghost w: DrivenNode.Watch, ghost es: seq<FN.Event>, ghost k: nat)
    returns (ghost e: Option<FN.Event>)
    requires Running(t) && node in t.nodes && 1 <= face < node.faceCounter && Tracked(t.nodes, w, es, k + 1)
    modifies node.pit, node.fib, node.cache, node.Devices(), node.Apps()
    ensures Running(t) && Tracked(t.nodes, w, DrivenNode.WithEvent(es, SeenAt(node, w.node, e)), k)
    ensures e == old(Arrival(node, face, content, now))
    ensures ClientsGrew(t.nodes)
  {
    e := Arrival(node, face, content, now);
    TrackedIff(t.nodes, w, es, k + 1);
    ghost var pkt := HandOver(t, node, face, content, now, draws);
    TrackedFurther(Scene(t.nodes, w), node, e, es, k);
  }

  method NodeManaged(t: Topology, node: E.Node, o: DrivenNode.Occurrence, ghost w: DrivenNode.Watch,
                     ghost es: seq<FN.Event>, ghost k: nat)
    requires Running(t) && node in t.nodes && FN.Enabled(node.View(), DrivenNode.EventOf(o))
    requires !o.InterestArrives? && !o.DataArrives? && Tracked(t.nodes, w, es, k + 1)
    modifies node, node.pit, node.fib
    ensures Running(t)
    ensures Tracked(t.nodes, w, DrivenNode.WithEvent(es, SeenAt(node, w.node, Some(DrivenNode.EventOf(o)))), k)
    ensures ClientsGrew(t.nodes)
  {
    TrackedIff(t.nodes, w, es, k + 1);
    Housekeep(t, node, o);
    TrackedFurther(Scene(t.nodes, w), node, Some(DrivenNode.EventOf(o)), es, k);
  }

  method TransmitPosted(t: Topology, dev: E.LinkDevice, lost: set<E.NodeId>, ghost w: DrivenNode.Watch,
                        ghost es: seq<FN.Event>, ghost k: nat)
    requires Running(t) && dev in t.devices && dev.posted != [] && dev.posted[0].Transmit?
    requires Tracked(t.nodes, w, es, k + 1)
    modifies dev.link`linkMatrix, t.devices
    ensures Running(t) && Tracked(t.nodes, w, es, k) && ClientsGrew(t.nodes)
  {
    ghost var sight, clients := SightOf(t.nodes, w), Clients(t.nodes);
    Transmission(t, dev, lost);
    assert SightOf(t.nodes, w) == sight && Clients(t.nodes) == clients;
  }

  /** The packet that a device's first callback brings to its node, if it brings one. */
  ghost function PostedArrival(dev: E.LinkDevice, now: Time): Option<FN.Event>
    reads dev, dev.node, dev.node.pit, dev.node.fib, dev.node.cache
  {
    if dev.posted != [] && dev.posted[0].Dispatch?
    then Arrival(dev.node, dev.posted[0].face.id, dev.posted[0].content, now) else None
  }

  method DispatchPosted(t: Topology, dev: E.LinkDevice, now: Time, draws: Draws, ghost w: DrivenNode.Watch,
                        ghost es: seq<FN.Event>, ghost k: nat)
    returns (ghost e: Option<FN.Event>)
    requires Running(t) && dev in t.devices && dev.posted != [] && dev.posted[0].Dispatch?
    requires Tracked(t.nodes, w, es, k + 1)
    modifies dev`posted, dev.node.pit, dev.node.fib, dev.node.cache, dev.node.Devices(), dev.node.Apps()
    ensures Running(t) && Tracked(t.nodes, w, DrivenNode.WithEvent(es, SeenAt(dev.node, w.node, e)), k)
    ensures ClientsGrew(t.nodes) && e == old(PostedArrival(dev, now))
  {
    ghost var sight, clients, view := SightOf(t.nodes, w), Clients(t.nodes), dev.node.View();
    var work := TakeCallback(t.devices, dev);
    assert SightOf(t.nodes, w) == sight && Clients(t.nodes) == clients && dev.node.View() == view;
    e := PacketComes(t, dev.node, work.face.id, work.content, now, draws, w, es, k);
  }

  method CallbackRuns(t: Topology, dev: E.LinkDevice, lost: set<E.NodeId>, now: Time, draws: Draws,
                      ghost w: DrivenNode.Watch, ghost es: seq<FN.Event>, ghost k: nat)
    returns (ghost e: Option<FN.Event>)
    requires Running(t) && dev in t.devices && dev.posted != [] && Tracked(t.nodes, w, es, k + 1)
    modifies dev.link`linkMatrix, t.devices
    modifies dev.node.pit, dev.node.fib, dev.node.cache, dev.node.Devices(), dev.node.Apps()
    ensures Running(t) && Tracked(t.nodes, w, DrivenNode.WithEvent(es, SeenAt(dev.node, w.node, e)), k)
    ensures ClientsGrew(t.nodes) && e == old(PostedArrival(dev, now))
  {
    e := None;
    match dev.posted[0]
    case Transmit(_) => TransmitPosted(t, dev, lost, w, es, k);
    case Dispatch(_, _) => e := DispatchPosted(t, dev, now, draws, w, es, k);
  }

  method CsmaTimerFires(t: Topology, dev: E.LinkDevice, draw: nat, ghost w: DrivenNode.Watch,
                        ghost es: seq<FN.Event>, ghost k: nat)
    requires Running(t) && dev in t.devices && dev.csmaTimer.Some? && Tracked(t.nodes, w, es, k + 1)
    modifies dev
    ensures Running(t) && Tracked(t.nodes, w, es, k) && ClientsGrew(t.nodes)
  {
    ghost var sight, clients := SightOf(t.nodes, w), Clients(t.nodes);
    BackoffEnds(t, dev, draw);
    assert SightOf(t.nodes, w) == sight && Clients(t.nodes) == clients;
  }

  method DeviceHappening(t: Topology, h: Happening, ghost w: DrivenNode.Watch, ghost es: seq<FN.Event>, ghost k: nat)
    returns (ghost e: Option<FN.Event>)
    requires Running(t) && Within(t, h) && OnDevice(h) && Tracked(t.nodes, w, es, k + 1)
    modifies t.nodes, t.devices, t.links, Connected(t.nodes)
    modifies set n | n in t.nodes :: n.pit, set n | n in t.nodes :: n.fib, set n | n in t.nodes :: n.cache
    ensures Running(t) && Tracked(t.nodes, w, DrivenNode.WithEvent(es, SeenAt(Host(h), w.node, e)), k)
    ensures ClientsGrew(t.nodes) && (e.Some? ==> Causes(h, e.value))
    ensures h.PostedCallback? ==> e == old(PostedArrival(h.dev, h.now))
  {
    e := None;
    match h
    case ReceiveTimer(dev) =>
      if dev.rxTimer { e := ReceiveTimerFires(t, dev, w, es, k); }
    case CsmaTimer(dev, draw) =>
      if dev.csmaTimer.Some? { CsmaTimerFires(t, dev, draw, w, es, k); }
    case PostedCallback(dev, lost, now, draws) =>
      AppsAreConnected(t.nodes, dev.node);
      if dev.posted != [] { e := CallbackRuns(t, dev, lost, now, draws, w, es, k); }
  }

  /** What happens to a node without a packet. */
  function Managing(h: Happening): DrivenNode.Occurrence
    requires !OnDevice(h) && !h.ClientPacket?
  {
    match h
    case CleanUpTimer(_, now) => DrivenNode.CleanUpTimer(now)
    case NodeStarts(_) => DrivenNode.NodeStarts
    case ClientConnects(_) => DrivenNode.ClientConnects
    case FaceFails(_, face) => DrivenNode.FaceFails(face)
  }

  predicate CanTake(h: Happening)
    requires !OnDevice(h) && !h.ClientPacket?
    reads Host(h)
  {
    match h
    case CleanUpTimer(_, _) => true
    case NodeStarts(node) => node.fibManager == null
    case ClientConnects(node) => node.client != null
    case FaceFails(node, face) => node.fibManager != null && face in node.faceTable
  }

  lemma ReadyIff(h: Happening)
    requires !OnDevice(h) && !h.ClientPacket? && Host(h).faceCounter < MAX_INT
    ensures CanTake(h) <==> Ready(h, Host(h).View())
  {
  }

  method NodeHappening(t: Topology, h: Happening, ghost w: DrivenNode.Watch, ghost es: seq<FN.Event>, ghost k: nat)
    returns (ghost e: Option<FN.Event>)
    requires Running(t) && Within(t, h) && !OnDevice(h) && Tracked(t.nodes, w, es, k + 1)
    modifies t.nodes, t.devices, Connected(t.nodes)
    modifies set n | n in t.nodes :: n.pit, set n | n in t.nodes :: n.fib, set n | n in t.nodes :: n.cache
    ensures Running(t) && Tracked(t.nodes, w, DrivenNode.WithEvent(es, SeenAt(Host(h), w.node, e)), k)
    ensures ClientsGrew(t.nodes) && Accounts(h, old(Host(h).View()), e)
  {
    e := None;
    if h.ClientPacket? {
      AppsAreConnected(t.nodes, h.node);
      if 1 <= h.face < h.node.faceCounter {
        e := PacketComes(t, h.node, h.face, h.content, h.now, h.draws, w, es, k);
      }
    } else {
      TrackedIff(t.nodes, w, es, k + 1);
      ReadyIff(h);
      if CanTake(h) {
        NodeManaged(t, Host(h), Managing(h), w, es, k);
        e := Some(EventOf(h));
      }
    }
  }

  /** One occurrence; it does nothing if its timer is not pending, there is no callback, the
      face was never given out, or the node is not in the state it needs. */
  method Happen(t: Topology, h: Happening, ghost w: DrivenNode.Watch, ghost es: seq<FN.Event>, ghost k: nat)
    returns (ghost e: Option<FN.Event>)
    requires Running(t) && Within(t, h) && Tracked(t.nodes, w, es, k + 1)
    modifies t.nodes, t.devices, t.links, Connected(t.nodes)
    modifies set n | n in t.nodes :: n.pit, set n | n in t.nodes :: n.fib, set n | n in t.nodes :: n.cache
    ensures Running(t) && Tracked(t.nodes, w, DrivenNode.WithEvent(es, SeenAt(Host(h), w.node, e)), k)
    ensures ClientsGrew(t.nodes) && Accounts(h, old(Host(h).View()), e)
    ensures h.PostedCallback? ==> e == old(PostedArrival(h.dev, h.now))
  {
    if OnDevice(h) {
      e := DeviceHappening(t, h, w, es, k);
    } else {
      e := NodeHappening(t, h, w, es, k);
    }
  }

  /** The next occurrence of a schedule. */
  method TakeNext(t: Topology, schedule: seq<Happening>, k: nat, ghost w: DrivenNode.Watch, ghost es: seq<FN.Event>)
    returns (ghost es': seq<FN.Event>)
    requires Running(t) && k < |schedule| && Within(t, schedule[k]) && Tracked(t.nodes, w, es, |schedule| - k)
    requires Explains(schedule[..k], w.node, w.log.view, es)
    modifies t.nodes, t.devices, t.links, Clients(t.nodes)
    modifies set n | n in t.nodes :: n.pit, set n | n in t.nodes :: n.fib, set n | n in t.nodes :: n.cache
    ensures Running(t) && Tracked(t.nodes, w, es', |schedule| - k - 1) && ClientsGrew(t.nodes)
    ensures Explains(schedule[..k + 1], w.node, w.log.view, es')
  {
    AppsAreConnected(t.nodes, w.node);
    ghost var e := Happen(t, schedule[k], w, es, |schedule| - k - 1);
    ExplainsFurther(schedule, k, w.node, w.log.view, es, e);
    es' := DrivenNode.WithEvent(es, SeenAt(Host(schedule[k]), w.node, e));
  }

  /** A whole schedule, with a node followed. */
  method Continue(t: Topology, schedule: seq<Happening>, ghost w: DrivenNode.Watch) returns (ghost es: seq<FN.Event>)
    requires Running(t) && Tracked(t.nodes, w, [], |schedule|) && forall h :: h in schedule ==> Within(t, h)
    modifies t.nodes, t.devices, t.links, Clients(t.nodes)
    modifies set n | n in t.nodes :: n.pit, set n | n in t.nodes :: n.fib, set n | n in t.nodes :: n.cache
    ensures Running(t) && Tracked(t.nodes, w, es, 0) && Explains(schedule, w.node, w.log.view, es)
  {
    ghost var clients := Clients(t.nodes);
    es := [];
    for k := 0 to |schedule|
      invariant Running(t) && Tracked(t.nodes, w, es, |schedule| - k)
      invariant Explains(schedule[..k], w.node, w.log.view, es)
      invariant forall a :: a in Clients(t.nodes) ==> a in clients || fresh(a)
    {
      es := TakeNext(t, schedule, k, w, es);
    }
    assert schedule[..|schedule|] == schedule;
  }

  /** Whatever happens, in any order and for any topology: no device throws or asserts, every
      device dispatches frames as they are addressed, and no address of a packet that exists
      is ever written again. Whichever node one follows, its tables, histories and sockets
      are those of a run of the state machine on the events of the schedule at this node. */
  method Drive(t: Topology, schedule: seq<Happening>, ghost node: E.Node) returns (ghost es: seq<FN.Event>)
    requires Running(t) && IdsLeft(t.nodes, |schedule|) && node in t.nodes
    requires forall h :: h in schedule ==> Within(t, h)
    modifies t.nodes, t.devices, t.links, Clients(t.nodes)
    modifies set n | n in t.nodes :: n.pit, set n | n in t.nodes :: n.fib, set n | n in t.nodes :: n.cache
    ensures Running(t)
    ensures forall p: E.Packet :: old(allocated(p)) ==> p.dst == old(p.dst) && p.src == old(p.src)
    ensures DrivenNode.Follows(old(DrivenNode.WatchOf(node)), es) && Explains(schedule, node, old(node.View()), es)
  {
    ghost var w := DrivenNode.WatchOf(node);
    StartWatching(t.nodes, node);
    TrackedIff(t.nodes, w, [], |schedule|);
    es := Continue(t, schedule, w);
    TrackedIff(t.nodes, w, es, 0);
  }

  /** The handler sends one link face a packet that its device takes. */
  ghost predicate SendsThrough(node: E.Node, sent: FN.Sent, f: FaceId)
    reads node, node.Devices()
  {
    sent.Forward? && FrameAddresses.LinkFaces(node.faceTable, sent.to) == {f}
    && FrameAddresses.IsLinkFace(node.faceTable, f)
    && var dev := node.faceTable[f].link.device;
       FrameAddresses.Room(dev.Config(), dev.queue, node.lengthOf(sent.packet)) > 0
  }

  /** Whenever the device dispatches this frame it reads these addresses, and the frame is
      for it. */
  ghost predicate ReadsOnly(d: E.LinkDevice, pkt: E.Packet, dst: Mac, src: Mac)
    reads d
  {
    forall i :: 0 <= i < |d.trace| && d.trace[i].Dispatched? && d.trace[i].frame == pkt ==>
      d.trace[i].dst == dst && i + 1 < |d.trace| && d.trace[i + 1] == Ended(dst, src)
      && (d.mac == dst || dst == BROADCAST)
  }

  lemma FaithfulReads(d: E.LinkDevice, pkt: E.Packet)
    requires Faithful(d)
    ensures ReadsOnly(d, pkt, pkt.dst, pkt.src)
  {
    forall i | 0 <= i < |d.trace| && d.trace[i].Dispatched? && d.trace[i].frame == pkt
      ensures d.trace[i].dst == pkt.dst && i + 1 < |d.trace| && d.trace[i + 1] == Ended(pkt.dst, pkt.src)
      ensures d.mac == pkt.dst || pkt.dst == BROADCAST
    {
      assert ReadAt(d, i);
      assert JustifiedAt(d.Config(), d.trace, i);
    }
  }

  method SendToNeighbor(t: Topology, node: E.Node, face: FaceId, content: Packet, now: Time, draws: Draws,
                        ghost f: FaceId)
    returns (ghost pkt: E.Packet)
    requires Running(t) && node in t.nodes && 1 <= face < node.faceCounter
    requires SendsThrough(node, Response(node, face, content, now), f)
    modifies node.pit, node.fib, node.cache, node.Devices(), node.Apps()
    ensures Running(t) && unchanged(node) && fresh(pkt)
    ensures pkt.content == old(Response(node, face, content, now)).packet
    ensures var link := node.faceTable[f].link;
            pkt.dst == link.remoteMac && pkt.src == link.device.mac
            && link.device.queue == old(link.device.queue) + [pkt]
  {
    ghost var sent := Response(node, face, content, now);
    ghost var made := HandOver(t, node, face, content, now, draws);
    pkt := made;
    FrameAddresses.NeighborIsAddressed(node, pkt, sent.to, draws, f);
  }

  /** A node handles a packet and then anything happens, in any order: every device that
      dispatches what the node sent reads the neighbor of its one link face as destination
      and that face's device as source, and is that neighbor, unless the frame is for all. */
  method HandleThenDrive(t: Topology, node: E.Node, face: FaceId, content: Packet, now: Time, draws: Draws,
                         schedule: seq<Happening>, ghost f: FaceId)
    returns (ghost pkt: E.Packet)
    requires Running(t) && IdsLeft(t.nodes, |schedule|) && forall h :: h in schedule ==> Within(t, h)
    requires node in t.nodes && 1 <= face < node.faceCounter
    requires SendsThrough(node, Response(node, face, content, now), f)
    modifies t.nodes, t.devices, t.links, Clients(t.nodes)
    modifies set n | n in t.nodes :: n.pit, set n | n in t.nodes :: n.fib, set n | n in t.nodes :: n.cache
    ensures Running(t) && fresh(pkt)
    ensures pkt.content == old(Response(node, face, content, now)).packet
    ensures var link := old(node.faceTable[f].link);
            forall d :: d in t.devices ==> ReadsOnly(d, pkt, link.remoteMac, link.device.mac)
  {
    ghost var link := node.faceTable[f].link;
    AppsAreConnected(t.nodes, node);
    pkt := SendToNeighbor(t, node, face, content, now, draws, f);
    ghost var es := Drive(t, schedule, node);
    forall d | d in t.devices ensures ReadsOnly(d, pkt, link.remoteMac, link.device.mac) {
      FaithfulReads(d, pkt);
    }
  }
}
