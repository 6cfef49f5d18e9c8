/** The addresses a frame carries once it has been handed to a set of faces. One packet object
    goes to all of them, and every link face overwrites its destination. */
module FrameAddresses {
  import opened Ndn
  import opened CsmaDevice
  import opened FaceOrder
  import E = Emulator
  import FN = ForwardingNode

  type FaceTable = map<FaceId, E.Face>

  /** Every face has its device or its socket in the surroundings. */
  ghost predicate Plugged(table: FaceTable, w: E.World) {
    forall f :: f in table ==>
      match table[f]
      case App(_) => f in w.sockets
      case Net(link) => link.device in w.devices && w.devices[link.device].Stepped?
  }

  ghost predicate IsLinkFace(table: FaceTable, f: FaceId) {
    f in table && table[f].Net?
  }

  ghost function LinkFaces(table: FaceTable, out: set<FaceId>): set<FaceId> {
    set f | f in out && IsLinkFace(table, f)
  }

  /** The faces of the set that send through this device. */
  ghost function Through(table: FaceTable, out: set<FaceId>, dev: E.LinkDevice): set<FaceId> {
    set f | f in out && IsLinkFace(table, f) && table[f].link.device == dev
  }

  ghost function After(table: FaceTable, w: E.World, pkt: E.Packet, out: set<FaceId>, draws: Draws): E.World {
    E.SentAll(table, w, pkt, Ascending(out), draws)
  }

  lemma AfterFirst(table: FaceTable, w: E.World, pkt: E.Packet, out: set<FaceId>, draws: Draws)
    requires out != {}
    ensures var m := Min(out);
            After(table, w, pkt, out, draws) == After(table, E.Sent(table, w, pkt, m, draws), pkt, out - {m}, draws)
  {
    assert Ascending(out)[1..] == Ascending(out - {Min(out)});
  }

  lemma SentKeepsPlugged(table: FaceTable, w: E.World, pkt: E.Packet, f: FaceId, draws: Draws)
    requires Plugged(table, w)
    ensures Plugged(table, E.Sent(table, w, pkt, f, draws))
  {
  }

  lemma {:induction false} PortsKept(table: FaceTable, w: E.World, pkt: E.Packet, out: set<FaceId>, draws: Draws)
    ensures After(table, w, pkt, out, draws).ports == w.ports
    decreases |out|
  {
    if out == {} {
      assert After(table, w, pkt, out, draws) == w;
    } else {
      AfterFirst(table, w, pkt, out, draws);
      PortsKept(table, E.Sent(table, w, pkt, Min(out), draws), pkt, out - {Min(out)}, draws);
    }
  }

  // ---- The destination ----------------------------------------------------------------

  lemma {:induction false} NoLinkFaceNoAddress(table: FaceTable, w: E.World, pkt: E.Packet, out: set<FaceId>,
                                               draws: Draws)
    requires Plugged(table, w) && LinkFaces(table, out) == {}
    ensures After(table, w, pkt, out, draws).dst == w.dst && After(table, w, pkt, out, draws).src == w.src
    decreases |out|
  {
    if out == {} {
    } else {
      var m := Min(out);
      AfterFirst(table, w, pkt, out, draws);
      SentKeepsPlugged(table, w, pkt, m, draws);
      assert m !in LinkFaces(table, out);
      assert LinkFaces(table, out - {m}) <= LinkFaces(table, out);
      NoLinkFaceNoAddress(table, E.Sent(table, w, pkt, m, draws), pkt, out - {m}, draws);
    }
  }

  /** The frame carries the remote address of the greatest link face it was sent to, whether
      or not that face's device accepted it. */
  lemma {:induction false} DestinationIsGreatest(table: FaceTable, w: E.World, pkt: E.Packet, out: set<FaceId>,
                                                 draws: Draws, last: FaceId)
    requires Plugged(table, w) && last in LinkFaces(table, out)
    requires forall f :: f in LinkFaces(table, out) ==> f <= last
    ensures After(table, w, pkt, out, draws).dst == table[last].link.remoteMac
    decreases |out|
  {
    var m := Min(out);
    var w' := E.Sent(table, w, pkt, m, draws);
    AfterFirst(table, w, pkt, out, draws);
    SentKeepsPlugged(table, w, pkt, m, draws);
    assert LinkFaces(table, out - {m}) == LinkFaces(table, out) - {m};
    if m == last {
      assert forall f :: f in LinkFaces(table, out) ==> f == m;
      assert LinkFaces(table, out - {m}) == {};
      NoLinkFaceNoAddress(table, w', pkt, out - {m}, draws);
    } else {
      DestinationIsGreatest(table, w', pkt, out - {m}, draws, last);
    }
  }

  /** Each link face's neighbor is the one addressed exactly when all the link faces in the
      set have the same neighbor: in particular when there is at most one. */
  lemma AddressedToEachIff(table: FaceTable, w: E.World, pkt: E.Packet, out: set<FaceId>, draws: Draws)
    requires Plugged(table, w)
    ensures (forall f :: f in LinkFaces(table, out) ==>
               After(table, w, pkt, out, draws).dst == table[f].link.remoteMac)
            <==> (forall f, g :: f in LinkFaces(table, out) && g in LinkFaces(table, out) ==>
                    table[f].link.remoteMac == table[g].link.remoteMac)
  {
    if LinkFaces(table, out) != {} {
      var last := Max(LinkFaces(table, out));
      DestinationIsGreatest(table, w, pkt, out, draws, last);
    }
  }

  // ---- The queues and the source ------------------------------------------------------

  function Copies(pkt: E.Packet, n: nat): seq<E.Packet> {
    seq(n, _ => pkt)
  }

  /** How many more frames of this length the device takes. */
  function Room(c: Config, queue: seq<E.Packet>, length: nat): nat {
    if length > c.mtu || |queue| >= c.limit then 0 else c.limit - |queue|
  }

  function Least(a: nat, b: nat): nat {
    if a <= b then a else b
  }

  lemma QueuedBySend(table: FaceTable, w: E.World, pkt: E.Packet, f: FaceId, draws: Draws, dev: E.LinkDevice)
    requires Plugged(table, w) && dev in w.devices && w.devices[dev].Stepped?
    ensures var w', queue := E.Sent(table, w, pkt, f, draws), w.devices[dev].device.queue;
            && dev in w'.devices && w'.devices[dev].Stepped?
            && w'.devices[dev].device.queue
               == if IsLinkFace(table, f) && table[f].link.device == dev && Room(dev.Config(), queue, pkt.length) > 0
                  then queue + [pkt] else queue
  {
  }

  lemma OneCopyMore(c: Config, queue: seq<E.Packet>, pkt: E.Packet, faces: nat)
    requires Room(c, queue, pkt.length) > 0
    ensures (queue + [pkt]) + Copies(pkt, Least(faces, Room(c, queue + [pkt], pkt.length)))
         == queue + Copies(pkt, Least(faces + 1, Room(c, queue, pkt.length)))
  {
  }

  /** A device queues one copy for each of its faces in the set, as far as there is room. */
  lemma {:induction false} CopiesQueued(table: FaceTable, w: E.World, pkt: E.Packet, out: set<FaceId>, draws: Draws,
                                        dev: E.LinkDevice)
    requires Plugged(table, w) && dev in w.devices && w.devices[dev].Stepped?
    ensures var w' := After(table, w, pkt, out, draws);
            var queue := w.devices[dev].device.queue;
            && dev in w'.devices && w'.devices[dev].Stepped?
            && w'.devices[dev].device.queue
               == queue + Copies(pkt, Least(|Through(table, out, dev)|, Room(dev.Config(), queue, pkt.length)))
    decreases |out|
  {
    var queue, c := w.devices[dev].device.queue, dev.Config();
    if out == {} {
      assert Through(table, out, dev) == {};
      assert queue + Copies(pkt, 0) == queue;
    } else {
      var m := Min(out);
      var w1 := E.Sent(table, w, pkt, m, draws);
      AfterFirst(table, w, pkt, out, draws);
      SentKeepsPlugged(table, w, pkt, m, draws);
      QueuedBySend(table, w, pkt, m, draws, dev);
      CopiesQueued(table, w1, pkt, out - {m}, draws, dev);
      var rest := Through(table, out - {m}, dev);
      if IsLinkFace(table, m) && table[m].link.device == dev {
        assert Through(table, out, dev) == rest + {m};
        if Room(c, queue, pkt.length) > 0 {
          OneCopyMore(c, queue, pkt, |rest|);
        }
      } else {
        assert Through(table, out, dev) == rest;
      }
    }
  }

  /** How many more copies of the packet the face's device takes. */
  ghost function RoomOf(table: FaceTable, w: E.World, pkt: E.Packet, f: FaceId): nat
    requires Plugged(table, w) && IsLinkFace(table, f)
  {
    var dev := table[f].link.device;
    Room(dev.Config(), w.devices[dev].device.queue, pkt.length)
  }

  ghost function Below(s: set<FaceId>, f: FaceId): set<FaceId> {
    set g | g in s && g < f
  }

  /** The faces whose copy is queued: their device has room for it after the copies of its
      lesser faces. */
  ghost function Takers(table: FaceTable, w: E.World, pkt: E.Packet, out: set<FaceId>): set<FaceId>
    requires Plugged(table, w)
  {
    set f | f in LinkFaces(table, out)
            && |Through(table, Below(out, f), table[f].link.device)| < RoomOf(table, w, pkt, f)
  }

  lemma RoomAfter(table: FaceTable, w: E.World, pkt: E.Packet, m: FaceId, draws: Draws, f: FaceId)
    requires Plugged(table, w) && IsLinkFace(table, f) && f != m
    ensures Plugged(table, E.Sent(table, w, pkt, m, draws))
    ensures RoomOf(table, E.Sent(table, w, pkt, m, draws), pkt, f)
         == if IsLinkFace(table, m) && table[m].link.device == table[f].link.device && RoomOf(table, w, pkt, f) > 0
            then RoomOf(table, w, pkt, f) - 1 else RoomOf(table, w, pkt, f)
  {
    SentKeepsPlugged(table, w, pkt, m, draws);
    QueuedBySend(table, w, pkt, m, draws, table[f].link.device);
  }

  lemma TakesAfter(table: FaceTable, w: E.World, pkt: E.Packet, out: set<FaceId>, draws: Draws, f: FaceId)
    requires Plugged(table, w) && f in LinkFaces(table, out) && f != Min(out)
    ensures Plugged(table, E.Sent(table, w, pkt, Min(out), draws))
    ensures f in Takers(table, E.Sent(table, w, pkt, Min(out), draws), pkt, out - {Min(out)})
            <==> f in Takers(table, w, pkt, out)
  {
    var m, dev := Min(out), table[f].link.device;
    var before, rest := Through(table, Below(out, f), dev), Through(table, Below(out - {m}, f), dev);
    RoomAfter(table, w, pkt, m, draws, f);
    if IsLinkFace(table, m) && table[m].link.device == dev {
      assert before == rest + {m};
    } else {
      assert before == rest;
    }
  }

  lemma TakersAfterFirst(table: FaceTable, w: E.World, pkt: E.Packet, out: set<FaceId>, draws: Draws)
    requires Plugged(table, w) && out != {}
    ensures Plugged(table, E.Sent(table, w, pkt, Min(out), draws))
    ensures Takers(table, E.Sent(table, w, pkt, Min(out), draws), pkt, out - {Min(out)})
         == Takers(table, w, pkt, out) - {Min(out)}
    ensures E.Sent(table, w, pkt, Min(out), draws).src
         == if Min(out) in Takers(table, w, pkt, out) then table[Min(out)].link.device.mac else w.src
  {
    var m := Min(out);
    var w1 := E.Sent(table, w, pkt, m, draws);
    SentKeepsPlugged(table, w, pkt, m, draws);
    forall f | f in LinkFaces(table, out) && f != m
      ensures f in Takers(table, w1, pkt, out - {m}) <==> f in Takers(table, w, pkt, out)
    {
      TakesAfter(table, w, pkt, out, draws, f);
    }
    if IsLinkFace(table, m) {
      assert Through(table, Below(out, m), table[m].link.device) == {};
      QueuedBySend(table, w, pkt, m, draws, table[m].link.device);
    }
  }

  lemma GreatestOfRest(s: set<FaceId>, m: FaceId)
    requires forall f :: f in s ==> m <= f
    ensures s - {m} != {} ==> Max(s) == Max(s - {m})
  {
    if s - {m} != {} {
      var g := Max(s - {m});
      assert g in s && m < g <= Max(s);
      assert Max(s) in s - {m};
    }
  }

  /** The source is untouched if no device took the packet, and otherwise the address of the
      device of the greatest face whose copy was queued. */
  lemma {:induction false} SourceIsLastTaker(table: FaceTable, w: E.World, pkt: E.Packet, out: set<FaceId>,
                                             draws: Draws)
    requires Plugged(table, w)
    ensures var takers := Takers(table, w, pkt, out);
            After(table, w, pkt, out, draws).src
            == if takers == {} then w.src else table[Max(takers)].link.device.mac
    decreases |out|
  {
    if out == {} {
      assert Takers(table, w, pkt, out) == {};
    } else {
      var m := Min(out);
      var takers := Takers(table, w, pkt, out);
      AfterFirst(table, w, pkt, out, draws);
      TakersAfterFirst(table, w, pkt, out, draws);
      SourceIsLastTaker(table, E.Sent(table, w, pkt, m, draws), pkt, out - {m}, draws);
      GreatestOfRest(takers, m);
      if takers - {m} == {} && takers != {} { assert takers == {m}; }
    }
  }

  /** The link faces of the set whose device has room for at least one copy. */
  ghost function Welcome(table: FaceTable, w: E.World, pkt: E.Packet, out: set<FaceId>): set<FaceId>
    requires Plugged(table, w)
  {
    set f | f in LinkFaces(table, out) && RoomOf(table, w, pkt, f) > 0
  }

  lemma TakerIsWelcome(table: FaceTable, w: E.World, pkt: E.Packet, out: set<FaceId>)
    requires Plugged(table, w)
    ensures Takers(table, w, pkt, out) <= Welcome(table, w, pkt, out)
    ensures Welcome(table, w, pkt, out) != {} ==> Takers(table, w, pkt, out) != {}
  {
    if Welcome(table, w, pkt, out) != {} {
      var f := Min(Welcome(table, w, pkt, out));
      var lesser := Through(table, Below(out, f), table[f].link.device);
      assert forall g :: g in lesser ==> g in Welcome(table, w, pkt, out);
      assert lesser == {};
      assert f in Takers(table, w, pkt, out);
    }
  }

  /** Each link face whose device takes the packet is given as its source exactly when all
      these devices have one address: in particular when there is one device. */
  lemma SourceIsSenderIff(table: FaceTable, w: E.World, pkt: E.Packet, out: set<FaceId>, draws: Draws)
    requires Plugged(table, w)
    ensures (forall f :: f in Welcome(table, w, pkt, out) ==>
               After(table, w, pkt, out, draws).src == table[f].link.device.mac)
            <==> (forall f, g :: f in Welcome(table, w, pkt, out) && g in Welcome(table, w, pkt, out) ==>
                    table[f].link.device.mac == table[g].link.device.mac)
  {
    TakerIsWelcome(table, w, pkt, out);
    SourceIsLastTaker(table, w, pkt, out, draws);
    assert Welcome(table, w, pkt, out) != {} ==> Max(Takers(table, w, pkt, out)) in Welcome(table, w, pkt, out);
  }

  /** With faces on two devices that both take the packet, the first device's copy carries the
      second device's address. */
  lemma TwoDevices(table: FaceTable, w: E.World, pkt: E.Packet, draws: Draws, f: FaceId, g: FaceId)
    requires Plugged(table, w) && IsLinkFace(table, f) && IsLinkFace(table, g) && f < g
    requires table[f].link.device != table[g].link.device
    requires RoomOf(table, w, pkt, f) > 0 && RoomOf(table, w, pkt, g) > 0
    ensures var w', dev := After(table, w, pkt, {f, g}, draws), table[f].link.device;
            && dev in w'.devices && w'.devices[dev].Stepped?
            && w'.devices[dev].device.queue == w.devices[dev].device.queue + [pkt]
            && w'.src == table[g].link.device.mac
  {
    var dev, out := table[f].link.device, {f, g};
    assert Through(table, out, dev) == {f};
    assert Through(table, Below(out, g), table[g].link.device) == {};
    assert g in Takers(table, w, pkt, out) && Max(Takers(table, w, pkt, out)) == g;
    SourceIsLastTaker(table, w, pkt, out, draws);
    CopiesQueued(table, w, pkt, out, draws, dev);
    assert Copies(pkt, 1) == [pkt];
  }

  // ---- The sockets --------------------------------------------------------------------

  /** An application gets one copy if its face is in the set, and nothing otherwise. */
  lemma {:induction false} SocketsGetOneCopy(table: FaceTable, w: E.World, pkt: E.Packet, out: set<FaceId>,
                                             draws: Draws, f: FaceId)
    requires Plugged(table, w) && f in table && table[f].App?
    ensures var w' := After(table, w, pkt, out, draws);
            f in w'.sockets && w'.sockets[f] == w.sockets[f] + if f in out then [pkt.content] else []
    decreases |out|
  {
    if out == {} {
      assert w.sockets[f] + [] == w.sockets[f];
    } else {
      var m := Min(out);
      var w1 := E.Sent(table, w, pkt, m, draws);
      AfterFirst(table, w, pkt, out, draws);
      SentKeepsPlugged(table, w, pkt, m, draws);
      SocketsGetOneCopy(table, w1, pkt, out - {m}, draws, f);
      if m == f { assert w1.sockets[f] == w.sockets[f] + [pkt.content]; }
    }
  }

  // ---- What receivers see -------------------------------------------------------------

  /** With one link face in the set and a device that takes the frame, the queued frame
      carries that face's neighbor and the sending device. */
  lemma OneLinkFace(table: FaceTable, w: E.World, pkt: E.Packet, out: set<FaceId>, draws: Draws, f: FaceId)
    requires Plugged(table, w) && LinkFaces(table, out) == {f}
    requires var dev := table[f].link.device;
             Room(dev.Config(), w.devices[dev].device.queue, pkt.length) > 0
    ensures var w', link := After(table, w, pkt, out, draws), table[f].link;
            && link.device in w'.devices && w'.devices[link.device].Stepped?
            && w'.devices[link.device].device.queue == w.devices[link.device].device.queue + [pkt]
            && w'.dst == link.remoteMac && w'.src == link.device.mac
  {
    var dev := table[f].link.device;
    assert f in LinkFaces(table, out);
    assert Through(table, out, dev) == {f};
    DestinationIsGreatest(table, w, pkt, out, draws, f);
    CopiesQueued(table, w, pkt, out, draws, dev);
    SourceIsSenderIff(table, w, pkt, out, draws);
    assert f in Welcome(table, w, pkt, out);
    assert Copies(pkt, 1) == [pkt];
  }

  /** The same of the objects, after a handler that sent this packet from a node. */
  twostate lemma NeighborIsAddressed(node: E.Node, new pkt: E.Packet, new to: set<FaceId>, new draws: Draws,
                                     new f: FaceId)
    requires unchanged(node) && LinkFaces(node.faceTable, to) == {f} && IsLinkFace(node.faceTable, f)
    requires node.Effect(FN.Forward(pkt.content, to), old(node.Outside()), pkt, draws)
    requires var dev := node.faceTable[f].link.device;
             Room(dev.Config(), old(dev.queue), pkt.length) > 0
    ensures var link := node.faceTable[f].link;
            && link.device.queue == old(link.device.queue) + [pkt]
            && pkt.dst == link.remoteMac && pkt.src == link.device.mac
  {
    var link := node.faceTable[f].link;
    assert Plugged(node.faceTable, old(node.Outside()));
    assert old(link.device in node.Devices());
    OneLinkFace(node.faceTable, old(node.Outside()), pkt, to, draws, f);
    assert link.device in node.DeviceStates();
  }

  /** With two neighbors behind one device the frame is queued twice, both times for the
      neighbor of the greater face; the other neighbor is never addressed. */
  lemma TwoNeighbors(table: FaceTable, w: E.World, pkt: E.Packet, draws: Draws, f: FaceId, g: FaceId)
    requires Plugged(table, w) && IsLinkFace(table, f) && IsLinkFace(table, g) && f < g
    requires table[f].link.device == table[g].link.device
    requires var dev := table[f].link.device;
             Room(dev.Config(), w.devices[dev].device.queue, pkt.length) >= 2
    ensures var w', dev := After(table, w, pkt, {f, g}, draws), table[f].link.device;
            && dev in w'.devices && w'.devices[dev].Stepped?
            && w'.devices[dev].device.queue == w.devices[dev].device.queue + [pkt, pkt]
            && w'.dst == table[g].link.remoteMac
  {
    var dev := table[f].link.device;
    assert Through(table, {f, g}, dev) == {f, g};
    DestinationIsGreatest(table, w, pkt, {f, g}, draws, g);
    CopiesQueued(table, w, pkt, {f, g}, draws, dev);
    assert Copies(pkt, 2) == [pkt, pkt];
  }
}
