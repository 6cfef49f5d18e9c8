/** Building an emulation, one node, link, device, route and connection at a time. */
module Configuration {
  import opened Ndn
  import opened CsmaDevice
  import CsmaRuns
  import opened DrivenNetwork
  import opened FaithfulDevice
  import DrivenNode
  import FibTable
  import ForwardingFaces
  import Framing
  import FN = ForwardingNode
  import E = Emulator

  const EMPTY: Topology := Topology({}, {}, {})

  lemma EmptyRuns()
    ensures Running(EMPTY)
  {
  }

  // ---- Nodes and links ------------------------------------------------------------------

  lemma OneMoreNode(t: Topology, node: E.Node)
    requires Running(t) && DrivenNode.Sound(node) && node.Devices() == {} && DrivenNode.Clients(node) == {}
    requires forall n :: n in t.nodes ==> n.pit != node.pit && n.fib != node.fib && n.cache != node.cache
    ensures Running(t.(nodes := t.nodes + {node}))
  {
    var nodes := t.nodes + {node};
    forall n, m | n in nodes && m in nodes && n != m ensures Apart(n, m) {
      assert n in t.nodes && m in t.nodes ==> Apart(n, m);
    }
  }

  /** The node starts with tables of its own, all of them empty. */
  method AddNode(t: Topology, id: E.NodeId, lib: FN.Library, reader: Framing.Reader, lengthOf: Packet -> nat,
                 cacheLimit: nat)
    returns (t': Topology, node: E.Node)
    requires Running(t)
    ensures Running(t') && t' == t.(nodes := t.nodes + {node})
    ensures fresh(node) && fresh(node.pit) && fresh(node.fib) && fresh(node.cache)
    ensures node.id == id && node.lib == lib && node.reader == reader && node.lengthOf == lengthOf
    ensures node.View() == FN.Init(cacheLimit) && node.pit.history == [] && node.cache.inserted == []
    ensures node.faceTable == map[] && node.deviceTable == map[] && node.client == null && node.faceCounter == 1
  {
    node := new E.Node(id, lib, reader, lengthOf, cacheLimit);
    t' := t.(nodes := t.nodes + {node});
    ForwardingFaces.InitSound(cacheLimit);
    assert node.View().faces == {} && node.View().listening.None?;
    OtherDevicesKept(t.devices, {});
    OneMoreNode(t, node);
  }

  lemma OneMoreLink(t: Topology, link: E.Link)
    requires Running(t) && link.Valid() && link.OwnIds() && link.nodeTable == map[]
    ensures Running(t.(links := t.links + {link}))
  {
    var t' := t.(links := t.links + {link});
    forall n | n in t'.nodes ensures n.Devices() <= t'.devices {
      assert n in t.nodes;
    }
    forall l | l in t'.links ensures l.Valid() && l.OwnIds() && l.nodeTable.Values <= t'.devices {
      assert l != link ==> l in t.links;
    }
  }

  method AddLink(t: Topology, txRate: E.Rate, mtu: nat) returns (t': Topology, link: E.Link)
    requires Running(t)
    ensures Running(t') && fresh(link) && t' == t.(links := t.links + {link})
    ensures link.txRate == txRate && link.mtu == mtu && link.nodeTable == map[] && link.linkMatrix == map[]
  {
    link := new E.Link(txRate, mtu);
    t' := t.(links := t.links + {link});
    OtherDevicesKept(t.devices, {});
    OneMoreLink(t, link);
  }

  // ---- Devices --------------------------------------------------------------------------

  twostate lemma NodeWithDevice(node: E.Node, new dev: E.LinkDevice)
    requires old(DrivenNode.Sound(node)) && old(node.faceCounter) < MAX_INT
    requires node.Valid() && node.View() == FN.AddLinkFace(old(node.View())) && node.client == old(node.client)
    requires dev.Valid() && BROADCAST in dev.faces && dev.node == node && dev.faces[BROADCAST].device == dev
    requires node.faceTable == old(node.faceTable)[old(node.faceCounter) := E.Net(dev.faces[BROADCAST])]
    ensures DrivenNode.Sound(node) && NodeGrew(node) && node.Devices() <= old(node.Devices()) + {dev}
    ensures DrivenNode.Clients(node) <= old(DrivenNode.Clients(node))
  {
    ForwardingFaces.HandleSound(node.lib, old(node.View()), FN.LinkFaceAdded);
    assert node.Apps() <= old(node.Apps());
  }

  /** The node's own part. */
  method Attach(ghost others: set<object>, node: E.Node, devId: E.DeviceId, mac: Mac, link: E.Link, limit: nat)
    returns (dev: Option<E.LinkDevice>)
    requires DrivenNode.Sound(node) && node.faceCounter < MAX_INT && node !in others
    modifies node`faceCounter, node`faceTable, node`deviceTable
    ensures DrivenNode.Sound(node) && NodeGrew(node) && forall o :: o in others ==> unchanged(o)
    ensures DrivenNode.Clients(node) <= old(DrivenNode.Clients(node))
    ensures dev.None? <==> devId in old(node.deviceTable)
    ensures dev.None? ==> unchanged(node)
    ensures dev.Some? ==>
              && fresh(dev.value) && dev.value.mac == mac && dev.value.node == node && dev.value.link == link
              && dev.value.limit == limit && Faithful(dev.value)
              && dev.value.View() == Start(map[BROADCAST := old(node.faceCounter)])
              && node.View() == FN.AddLinkFace(old(node.View())) && node.Devices() <= old(node.Devices()) + {dev.value}
              && node.deviceTable == old(node.deviceTable)[devId := dev.value]
  {
    dev := node.AddDevice(devId, mac, link, limit);
    if dev.Some? {
      NodeWithDevice(node, dev.value);
      CsmaRuns.StartHolds<E.Packet>(dev.value.Config(), map[BROADCAST := old(node.faceCounter)]);
    }
  }

  twostate lemma OneMoreDevice(t: Topology, new node: E.Node, new dev: E.LinkDevice)
    requires old(NodesSound(t.nodes)) && old(Wired(t)) && LinksWired(t) && node in t.nodes
    requires dev.node == node && dev.link in t.links
    requires DrivenNode.Sound(node) && NodeGrew(node) && node.Devices() <= old(node.Devices()) + {dev}
    requires OnlyAt(t.nodes, node)
    ensures NodesSound(t.nodes) && Wired(t.(devices := t.devices + {dev}))
  {
    var t' := t.(devices := t.devices + {dev});
    OtherNodesSound(t.nodes, node);
    StillApart(t.nodes, node);
    forall n | n in t.nodes ensures n.Devices() <= t'.devices {
      assert n != node ==> Untouched(n);
      assert old(n.Devices()) <= t.devices;
    }
  }

  lemma OneMoreFaithful(devices: set<E.LinkDevice>, dev: E.LinkDevice)
    requires DevicesFaithful(devices) && Faithful(dev)
    ensures DevicesFaithful(devices + {dev})
  {
  }

  /** The node takes the device; the link does not know it yet. */
  method Mount(t: Topology, node: E.Node, devId: E.DeviceId, mac: Mac, link: E.Link, limit: nat)
    returns (t': Topology, dev: Option<E.LinkDevice>)
    requires Running(t) && node in t.nodes && link in t.links && node.faceCounter < MAX_INT
    modifies node`faceCounter, node`faceTable, node`deviceTable
    ensures Running(t') && (dev.None? <==> devId in old(node.deviceTable))
    ensures NodeGrew(node) && DrivenNode.Clients(node) <= old(DrivenNode.Clients(node))
    ensures dev.None? ==> t' == t && unchanged(node)
    ensures dev.Some? ==>
              && t' == t.(devices := t.devices + {dev.value}) && fresh(dev.value)
              && dev.value.mac == mac && dev.value.node == node && dev.value.link == link && dev.value.limit == limit
              && dev.value.View() == Start(map[BROADCAST := old(node.faceCounter)])
              && node.View() == FN.AddLinkFace(old(node.View()))
              && node.deviceTable == old(node.deviceTable)[devId := dev.value]
  {
    assert DrivenNode.Sound(node) && node !in Others(t.nodes, node);
    dev := Attach(Others(t.nodes, node), node, devId, mac, link, limit);
    OthersUntouched(t.nodes, node);
    OtherDevicesKept(t.devices, {});
    t' := t;
    if dev.Some? {
      OneMoreDevice(t, node, dev.value);
      OneMoreFaithful(t.devices, dev.value);
      t' := t.(devices := t.devices + {dev.value});
    }
  }

  method PlugIn(t: Topology, dev: E.LinkDevice)
    requires Running(t) && dev in t.devices
    modifies dev.link`nodeTable
    ensures Running(t) && dev.link.nodeTable == old(dev.link.nodeTable)[dev.node.id := dev]
  {
    assert forall l :: l in t.links ==> l.Valid();
    dev.link.AddNodeDevice(dev.node.id, dev);
    OtherDevicesKept(t.devices, {});
  }

  /** A device of a node on a link; the node's device ids are told apart. */
  method AddDevice(t: Topology, node: E.Node, devId: E.DeviceId, mac: Mac, link: E.Link, limit: nat)
    returns (t': Topology, dev: Option<E.LinkDevice>)
    requires Running(t) && node in t.nodes && link in t.links && node.faceCounter < MAX_INT
    modifies node`faceCounter, node`faceTable, node`deviceTable, link`nodeTable
    ensures Running(t') && (dev.None? <==> devId in old(node.deviceTable))
    ensures NodeGrew(node) && DrivenNode.Clients(node) <= old(DrivenNode.Clients(node))
    ensures dev.None? ==> t' == t && unchanged(node) && unchanged(link)
    ensures dev.Some? ==>
              && t' == t.(devices := t.devices + {dev.value}) && fresh(dev.value)
              && dev.value.mac == mac && dev.value.node == node && dev.value.link == link && dev.value.limit == limit
              && dev.value.View() == Start(map[BROADCAST := old(node.faceCounter)])
              && node.View() == FN.AddLinkFace(old(node.View()))
              && node.deviceTable == old(node.deviceTable)[devId := dev.value]
              && link.nodeTable == old(link.nodeTable)[node.id := dev.value]
  {
    t', dev := Mount(t, node, devId, mac, link, limit);
    if dev.Some? { PlugIn(t', dev.value); }
  }

  // ---- Connections and routes -----------------------------------------------------------

  method AddConnection(t: Topology, link: E.Link, from: E.NodeId, to: E.NodeId, loss: real) returns (r: E.Connection)
    requires Running(t) && link in t.links
    modifies link`linkMatrix
    ensures Running(t)
    ensures r == (if from == to then E.SelfEdge
                  else if from !in link.nodeTable then E.UnknownNode(from)
                  else if to !in link.nodeTable then E.UnknownNode(to)
                  else E.Connected)
    ensures !r.Connected? ==> unchanged(link)
    ensures r.Connected? ==>
              && link.Neighbors(from) == old(link.Neighbors(from)) + {to} && link.linkMatrix[from][to] == loss
              && forall id :: id != from ==> link.Neighbors(id) == old(link.Neighbors(id))
  {
    assert link.Valid();
    r := link.AddConnection(from, to, loss);
    OtherDevicesKept(t.devices, {});
    LinksKept(t);
  }

  /** The face that a device already has for a neighbor. */
  ghost function FaceTo(dev: E.LinkDevice, nexthop: Mac): Option<FaceId>
    reads dev
  {
    if nexthop in dev.faces then Some(dev.faces[nexthop].id) else None
  }

  /** The table has the route, to the face that was there or else to the one with the next id. */
  ghost predicate RouteLeads(node: E.Node, before: FibTable.Table, prefix: Name, there: Option<FaceId>, next: FaceId)
    reads node, node.fib
  {
    node.fib.table == FibTable.WithRoute(before, prefix, if there.Some? then there.value else next)
  }

  twostate lemma NodeWithRoute(node: E.Node, new prefix: Name, new there: Option<FaceId>)
    requires old(DrivenNode.Sound(node)) && old(node.faceCounter) < MAX_INT
    requires node.Valid() && node.View() == FN.AddRoute(old(node.View()), prefix, there)
    requires there.Some? ==> there.value >= 1
    ensures DrivenNode.Sound(node)
  {
    var n := old(node.View());
    ForwardingFaces.HandleSound(node.lib, n, FN.LinkFaceAdded);
    ForwardingFaces.RouteKeepsRib(n, prefix, if there.Some? then there.value else n.counter);
  }

  method RouteThrough(ghost others: set<object>, node: E.Node, prefix: Name, devId: E.DeviceId, nexthop: Mac)
    returns (known: bool)
    requires DrivenNode.Sound(node) && node.faceCounter < MAX_INT && node !in others && node.fib !in others
    requires devId in node.deviceTable ==> node.deviceTable[devId].Valid()
    modifies node`faceCounter, node`faceTable, node.fib
    ensures DrivenNode.Sound(node) && NodeGrew(node) && (known <==> devId in node.deviceTable)
    ensures forall o :: o in others ==> unchanged(o)
    ensures DrivenNode.Clients(node) <= old(DrivenNode.Clients(node))
    ensures !known ==> unchanged(node) && unchanged(node.fib)
    ensures known ==>
              var dev := node.deviceTable[devId];
              node.View() == FN.AddRoute(old(node.View()), prefix, old(FaceTo(dev, nexthop)))
              && RouteLeads(node, old(node.fib.table), prefix, old(FaceTo(dev, nexthop)), old(node.faceCounter))
              && node.Devices() <= old(node.Devices()) + {dev}
              && (old(FaceTo(dev, nexthop)).None? ==>
                    old(node.faceCounter) in node.faceTable && node.faceTable[old(node.faceCounter)].Net?
                    && var face := node.faceTable[old(node.faceCounter)].link;
                       face.remoteMac == nexthop && face.device == dev)
  {
    ghost var there: Option<FaceId> := None;
    if devId in node.deviceTable {
      there := FaceTo(node.deviceTable[devId], nexthop);
      assert there.Some? ==> there.value >= 1;
    }
    known := node.AddRoute(prefix, devId, nexthop);
    if known { NodeWithRoute(node, prefix, there); }
  }

  /** A static route through a device of the node, to the neighbor with this address. */
  method AddRoute(t: Topology, node: E.Node, prefix: Name, devId: E.DeviceId, nexthop: Mac) returns (known: bool)
    requires Running(t) && node in t.nodes && node.faceCounter < MAX_INT
    requires devId in node.deviceTable ==> node.deviceTable[devId] in t.devices
    modifies node`faceCounter, node`faceTable, node.fib
    ensures Running(t) && NodeGrew(node) && (known <==> devId in node.deviceTable)
    ensures DrivenNode.Clients(node) <= old(DrivenNode.Clients(node))
    ensures !known ==> unchanged(node) && unchanged(node.fib)
    ensures known ==>
              var dev := node.deviceTable[devId];
              node.View() == FN.AddRoute(old(node.View()), prefix, old(FaceTo(dev, nexthop)))
              && RouteLeads(node, old(node.fib.table), prefix, old(FaceTo(dev, nexthop)), old(node.faceCounter))
              && (old(FaceTo(dev, nexthop)).None? ==>
                    old(node.faceCounter) in node.faceTable && node.faceTable[old(node.faceCounter)].Net?
                    && var face := node.faceTable[old(node.faceCounter)].link;
                       face.remoteMac == nexthop && face.device == dev)
  {
    assert DrivenNode.Sound(node) && node.Devices() <= t.devices;
    assert devId in node.deviceTable ==> Faithful(node.deviceTable[devId]);
    OthersApart(t.nodes, node);
    assert node !in Others(t.nodes, node) && node.fib in Touched(node);
    known := RouteThrough(Others(t.nodes, node), node, prefix, devId, nexthop);
    OthersUntouched(t.nodes, node);
    OtherDevicesKept(t.devices, {});
    OtherNodesKept(t, node);
  }
}
