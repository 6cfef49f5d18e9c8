/** Two nodes on one link, built from nothing and run: an Interest crosses to the neighbor
    that a static route names. */
module TwoNodes {
  import opened Ndn
  import opened CsmaDevice
  import opened Configuration
  import opened DrivenNetwork
  import DrivenNode
  import FibTable
  import Framing
  import FrameAddresses
  import FN = ForwardingNode
  import E = Emulator

  const LEFT: E.NodeId := "left"
  const RIGHT: E.NodeId := "right"
  const RADIO: E.DeviceId := "radio"
  const LEFT_MAC: Mac := 1
  const RIGHT_MAC: Mac := 2

  /** What all nodes of an emulation share. */
  datatype Setting = Setting(lib: FN.Library, reader: Framing.Reader, lengthOf: Packet -> nat, cacheLimit: nat,
                             txRate: E.Rate, mtu: nat, limit: nat)

  ghost predicate IsNew(s: Setting, node: E.Node)
    reads node, node.pit, node.fib, node.cache
  {
    node.View() == FN.Init(s.cacheLimit) && node.lib == s.lib && node.lengthOf == s.lengthOf
    && node.deviceTable == map[] && node.faceTable == map[] && node.faceCounter == 1 && DrivenNode.Clients(node) == {}
  }

  method Nodes(s: Setting) returns (t: Topology, a: E.Node, b: E.Node, link: E.Link)
    ensures Running(t) && t == Topology({a, b}, {}, {link}) && a != b
    ensures fresh(a) && fresh(a.pit) && fresh(a.fib) && fresh(a.cache)
    ensures fresh(b) && fresh(b.pit) && fresh(b.fib) && fresh(b.cache) && fresh(link)
    ensures IsNew(s, a) && IsNew(s, b) && a.id == LEFT && b.id == RIGHT
    ensures link.mtu == s.mtu && link.nodeTable == map[] && link.linkMatrix == map[]
  {
    EmptyRuns();
    t, link := AddLink(EMPTY, s.txRate, s.mtu);
    t, a := AddNode(t, LEFT, s.lib, s.reader, s.lengthOf, s.cacheLimit);
    t, b := AddNode(t, RIGHT, s.lib, s.reader, s.lengthOf, s.cacheLimit);
  }

  /** A new node with one device, its face for broadcasts having the first id. */
  ghost predicate HasRadio(s: Setting, node: E.Node, dev: E.LinkDevice)
    reads node, node.pit, node.fib, node.cache, dev
  {
    node.View() == FN.AddLinkFace(FN.Init(s.cacheLimit)) && node.lib == s.lib && node.lengthOf == s.lengthOf
    && node.deviceTable == map[RADIO := dev] && node.faceCounter == 2 && DrivenNode.Clients(node) == {}
    && dev.View() == Start(map[BROADCAST := 1]) && dev.node == node && dev.limit == s.limit && dev.link.mtu == s.mtu
  }

  method Radio(s: Setting, t: Topology, node: E.Node, mac: Mac, link: E.Link) returns (t': Topology, dev: E.LinkDevice)
    requires Running(t) && node in t.nodes && link in t.links && IsNew(s, node) && link.mtu == s.mtu
    modifies node`faceCounter, node`faceTable, node`deviceTable, link`nodeTable
    ensures Running(t') && t' == t.(devices := t.devices + {dev}) && fresh(dev)
    ensures HasRadio(s, node, dev) && dev.mac == mac && dev.link == link
    ensures link.nodeTable == old(link.nodeTable)[node.id := dev]
  {
    var added;
    t', added := AddDevice(t, node, RADIO, mac, link, s.limit);
    dev := added.value;
  }

  method Radios(s: Setting, t: Topology, a: E.Node, b: E.Node, link: E.Link)
    returns (t': Topology, left: E.LinkDevice, right: E.LinkDevice)
    requires Running(t) && t == Topology({a, b}, {}, {link}) && a != b && link.mtu == s.mtu && link.nodeTable == map[]
    requires IsNew(s, a) && IsNew(s, b) && a.id == LEFT && b.id == RIGHT
    modifies a, b, link`nodeTable
    ensures Running(t') && t' == Topology({a, b}, {left, right}, {link}) && fresh(left) && fresh(right)
    ensures HasRadio(s, a, left) && HasRadio(s, b, right) && left.mac == LEFT_MAC && right.mac == RIGHT_MAC
    ensures left.link == link && right.link == link && link.nodeTable == map[LEFT := left, RIGHT := right]
  {
    assert Apart(a, b);
    t', left := Radio(s, t, a, LEFT_MAC, link);
    t', right := Radio(s, t', b, RIGHT_MAC, link);
  }

  method Connect(t: Topology, link: E.Link, loss: real)
    requires Running(t) && link in t.links && link.nodeTable.Keys == {LEFT, RIGHT} && link.linkMatrix == map[]
    modifies link`linkMatrix
    ensures Running(t) && link.Neighbors(LEFT) == {RIGHT} && link.Neighbors(RIGHT) == {LEFT}
  {
    var there := AddConnection(t, link, LEFT, RIGHT, loss);
    var back := AddConnection(t, link, RIGHT, LEFT, loss);
  }

  /** The left node, with a route to the right one on its second face. */
  ghost predicate Routed(s: Setting, node: E.Node, dev: E.LinkDevice, prefix: Name)
    reads node, node.pit, node.fib, node.cache, dev
  {
    node.View() == FN.AddRoute(FN.AddLinkFace(FN.Init(s.cacheLimit)), prefix, None)
    && node.lib == s.lib && node.lengthOf == s.lengthOf && node.faceCounter == 3 && DrivenNode.Clients(node) == {}
    && dev.queue == [] && dev.limit == s.limit && dev.link.mtu == s.mtu
    && FrameAddresses.IsLinkFace(node.faceTable, 2)
    && node.faceTable[2].link.remoteMac == RIGHT_MAC && node.faceTable[2].link.device == dev
  }

  method Route(s: Setting, t: Topology, node: E.Node, dev: E.LinkDevice, prefix: Name)
    requires Running(t) && node in t.nodes && dev in t.devices && HasRadio(s, node, dev)
    modifies node`faceCounter, node`faceTable, node.fib
    ensures Running(t) && Routed(s, node, dev, prefix)
  {
    assert dev.FaceIds() == map[BROADCAST := 1] && forall m :: m in dev.faces ==> m in dev.FaceIds();
    assert FaceTo(dev, RIGHT_MAC).None?;
    var known := AddRoute(t, node, prefix, RADIO, RIGHT_MAC);
  }

  method Hosts(s: Setting)
    returns (t: Topology, a: E.Node, b: E.Node, left: E.LinkDevice, right: E.LinkDevice)
    ensures Running(t) && t == Topology({a, b}, {left, right}, {left.link}) && a != b && left.link == right.link
    ensures fresh(t.nodes) && fresh(t.devices) && fresh(t.links)
    ensures fresh(a.pit) && fresh(a.fib) && fresh(a.cache) && fresh(b.pit) && fresh(b.fib) && fresh(b.cache)
    ensures HasRadio(s, a, left) && HasRadio(s, b, right) && left.mac == LEFT_MAC && right.mac == RIGHT_MAC
    ensures left.link.nodeTable == map[LEFT := left, RIGHT := right] && left.link.linkMatrix == map[]
  {
    var link;
    t, a, b, link := Nodes(s);
    t, left, right := Radios(s, t, a, b, link);
  }

  method Wire(s: Setting, t: Topology, a: E.Node, b: E.Node, left: E.LinkDevice, right: E.LinkDevice, prefix: Name,
              loss: real)
    requires Running(t) && t == Topology({a, b}, {left, right}, {left.link}) && a != b && left.link == right.link
    requires HasRadio(s, a, left) && HasRadio(s, b, right)
    requires left.link.nodeTable == map[LEFT := left, RIGHT := right] && left.link.linkMatrix == map[]
    modifies left.link`linkMatrix, a`faceCounter, a`faceTable, a.fib
    ensures Running(t) && Routed(s, a, left, prefix) && HasRadio(s, b, right)
    ensures left.link.Neighbors(LEFT) == {RIGHT} && left.link.Neighbors(RIGHT) == {LEFT}
  {
    assert Apart(a, b);
    Connect(t, left.link, loss);
    Route(s, t, a, left, prefix);
  }

  /** Two nodes that hear each other, the left one with a route to the right one. */
  method Assemble(s: Setting, prefix: Name, loss: real)
    returns (t: Topology, a: E.Node, b: E.Node, left: E.LinkDevice, right: E.LinkDevice)
    ensures Running(t) && t == Topology({a, b}, {left, right}, {left.link}) && left.link == right.link
    ensures fresh(t.nodes) && fresh(t.devices) && fresh(t.links)
    ensures fresh(a.pit) && fresh(a.fib) && fresh(a.cache) && fresh(b.pit) && fresh(b.fib) && fresh(b.cache)
    ensures Routed(s, a, left, prefix) && HasRadio(s, b, right) && left.mac == LEFT_MAC && right.mac == RIGHT_MAC
    ensures left.link.Neighbors(LEFT) == {RIGHT} && left.link.Neighbors(RIGHT) == {LEFT}
  {
    t, a, b, left, right := Hosts(s);
    Wire(s, t, a, b, left, right, prefix, loss);
  }

  /** An Interest under the prefix leaves on the second face. */
  lemma RouteIsTaken(s: Setting, node: E.Node, dev: E.LinkDevice, prefix: Name, i: Interest, now: Time)
    requires Routed(s, node, dev, prefix) && prefix <= i.name
    requires s.limit > 0 && s.lengthOf(InterestPacket(i)) <= s.mtu
    ensures Response(node, 1, InterestPacket(i), now) == FN.Forward(InterestPacket(i), {2})
    ensures SendsThrough(node, Response(node, 1, InterestPacket(i), now), 2)
  {
    var n := node.View();
    FibTable.RouteAddsExactly(map[], prefix, 2, i.name);
    assert FibTable.Faces(n.fib, i.name) == {2} && {2} - {1} == {2} && {2} * n.faces == {2};
    assert FrameAddresses.LinkFaces(node.faceTable, {2}) == {2};
  }

  /** The left node handles an Interest, and the timers and callbacks that take it across run. */
  method Cross(s: Setting, t: Topology, node: E.Node, left: E.LinkDevice, right: E.LinkDevice, prefix: Name,
               i: Interest, now: Time, draws: Draws)
    returns (ghost frame: E.Packet)
    requires Running(t) && node in t.nodes && t.devices == {left, right} && IdsLeft(t.nodes, 4)
    requires Routed(s, node, left, prefix) && Clients(t.nodes) == {} && left.mac == LEFT_MAC
    requires prefix <= i.name && s.limit > 0 && s.lengthOf(InterestPacket(i)) <= s.mtu
    modifies t.nodes, t.devices, t.links
    modifies set n | n in t.nodes :: n.pit, set n | n in t.nodes :: n.fib, set n | n in t.nodes :: n.cache
    ensures Running(t) && frame.content == InterestPacket(i)
    ensures forall d :: d in t.devices ==> ReadsOnly(d, frame, RIGHT_MAC, LEFT_MAC)
  {
    var schedule := [CsmaTimer(left, draws(0)), PostedCallback(left, {}, now, draws),
                     ReceiveTimer(right), PostedCallback(right, {}, now, draws)];
    RouteIsTaken(s, node, left, prefix, i, now);
    frame := HandleThenDrive(t, node, 1, InterestPacket(i), now, draws, schedule, 2);
  }

  /** The network is assembled from nothing, and the Interest crosses: whoever dispatches the
      frame reads the right node's device as destination and the left one's as source. */
  method InterestCrosses(s: Setting, prefix: Name, loss: real, i: Interest, now: Time, draws: Draws)
    returns (t: Topology, left: E.LinkDevice, right: E.LinkDevice, ghost frame: E.Packet)
    requires prefix <= i.name && s.limit > 0 && s.lengthOf(InterestPacket(i)) <= s.mtu
    ensures Running(t) && t.devices == {left, right} && frame.content == InterestPacket(i)
    ensures ReadsOnly(left, frame, RIGHT_MAC, LEFT_MAC) && ReadsOnly(right, frame, RIGHT_MAC, LEFT_MAC)
  {
    var a, b;
    t, a, b, left, right := Assemble(s, prefix, loss);
    assert Clients(t.nodes) == {};
    frame := Cross(s, t, a, left, right, prefix, i, now, draws);
  }
}
