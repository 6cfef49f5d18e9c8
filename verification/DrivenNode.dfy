/** A node object under a schedule of packets, timers, clients and failing faces. */
module DrivenNode {
  import opened Ndn
  import opened ForwardingNode
  import opened Subsequences
  import ForwardingFaces
  import ForwardingRuns
  import FrameAddresses
  import DeviceTraffic
  import DrivenDevice
  import E = Emulator
  import CsmaDevice
  import AppStream
  import PIT = PendingInterests
  import CS = ContentStore

  datatype Occurrence =
    | InterestArrives(face: FaceId, interest: Interest, now: Time, draws: Draws)
    | DataArrives(face: FaceId, data: Data, now: Time, draws: Draws)
    | CleanUpTimer(now: Time)
    | NodeStarts
    | ClientConnects
    | FaceFails(face: FaceId)

  function EventOf(o: Occurrence): Event {
    match o
    case InterestArrives(face, i, now, _) => InterestIn(face, i, now)
    case DataArrives(face, d, now, _) => DataIn(face, d, now)
    case CleanUpTimer(now) => PitTimer(now)
    case NodeStarts => Started
    case ClientConnects => ClientAccepted
    case FaceFails(face) => FaceRemoved(face)
  }

  function Events(schedule: seq<Occurrence>): (es: seq<Event>)
    ensures |es| == |schedule| && forall k :: 0 <= k < |es| ==> es[k] == EventOf(schedule[k])
  {
    if schedule == [] then [] else [EventOf(schedule[0])] + Events(schedule[1..])
  }

  /** The packets that one outcome, or a trace, sends to a face. */
  function PacketsIn(s: Sent, f: FaceId): seq<Packet> {
    if s.Forward? && f in s.to then [s.packet] else []
  }

  function PacketsTo(tr: Trace, f: FaceId): seq<Packet> {
    if tr == [] then [] else PacketsIn(tr[0].sent, f) + PacketsTo(tr[1..], f)
  }

  lemma {:induction false} OneEntryMore(tr: Trace, x: Entry, f: FaceId)
    ensures CallsOf(tr + [x]) == CallsOf(tr) + x.calls
    ensures InsertsOf(tr + [x]) == InsertsOf(tr) + x.inserts
    ensures PacketsTo(tr + [x], f) == PacketsTo(tr, f) + PacketsIn(x.sent, f)
  {
    if tr == [] {
      assert [x][1..] == [] && tr + [x] == [x];
    } else {
      assert (tr + [x])[0] == tr[0] && (tr + [x])[1..] == tr[1..] + [x];
      OneEntryMore(tr[1..], x, f);
      Regroup(tr[0].calls, CallsOf(tr[1..]), x.calls);
      Regroup(tr[0].inserts, InsertsOf(tr[1..]), x.inserts);
      Regroup(PacketsIn(tr[0].sent, f), PacketsTo(tr[1..], f), PacketsIn(x.sent, f));
    }
  }

  lemma {:induction false} OneEventMore(lib: Library, n: Node, es: seq<Event>, e: Event)
    requires Possible(lib, n, es) && Enabled(Run(lib, n, es), e)
    ensures Possible(lib, n, es + [e])
    ensures var o := Handle(lib, Run(lib, n, es), e);
            Run(lib, n, es + [e]) == o.node && TraceOf(lib, n, es + [e]) == TraceOf(lib, n, es) + [EntryOf(e, o)]
    decreases |es|
  {
    if es == [] {
      assert es + [e] == [e] && [e][1..] == [];
      assert Possible(lib, Handle(lib, n, e).node, []);
    } else {
      assert (es + [e])[0] == es[0] && (es + [e])[1..] == es[1..] + [e];
      OneEventMore(lib, Handle(lib, n, es[0]).node, es[1..], e);
    }
  }

  /** What one event adds to the log of a run. */
  lemma LogGrows(lib: Library, n: Node, es: seq<Event>, e: Event, calls: PIT.History, inserted: CS.Queue)
    requires Possible(lib, n, es) && Enabled(Run(lib, n, es), e)
    ensures Possible(lib, n, es + [e])
    ensures var tr, next := TraceOf(lib, n, es), TraceOf(lib, n, es + [e]);
            var o := Handle(lib, Run(lib, n, es), e);
            && Run(lib, n, es + [e]) == o.node
            && calls + CallsOf(next) == (calls + CallsOf(tr)) + o.calls
            && inserted + InsertsOf(next) == (inserted + InsertsOf(tr)) + o.inserts
  {
    OneEventMore(lib, n, es, e);
    var tr, x := TraceOf(lib, n, es), EntryOf(e, Handle(lib, Run(lib, n, es), e));
    OneEntryMore(tr, x, 0);
    Regroup(calls, CallsOf(tr), x.calls);
    Regroup(inserted, InsertsOf(tr), x.inserts);
  }

  lemma SocketsGrow(lib: Library, n: Node, es: seq<Event>, e: Event)
    requires Possible(lib, n, es) && Enabled(Run(lib, n, es), e)
    ensures Possible(lib, n, es + [e])
    ensures forall f, sent: seq<Packet> ::
              sent + PacketsTo(TraceOf(lib, n, es + [e]), f)
              == (sent + PacketsTo(TraceOf(lib, n, es), f)) + PacketsIn(Handle(lib, Run(lib, n, es), e).sent, f)
  {
    OneEventMore(lib, n, es, e);
    var tr, x := TraceOf(lib, n, es), EntryOf(e, Handle(lib, Run(lib, n, es), e));
    forall f, sent: seq<Packet>
      ensures sent + PacketsTo(tr + [x], f) == (sent + PacketsTo(tr, f)) + PacketsIn(x.sent, f)
    {
      OneEntryMore(tr, x, f);
      Regroup(sent, PacketsTo(tr, f), PacketsIn(x.sent, f));
    }
  }

  ghost predicate Sound(node: E.Node)
    reads node, node.pit, node.fib, node.cache
  {
    node.Valid() && ForwardingFaces.Sound(node.View())
  }

  /** The object did what the state machine says, log included. */
  twostate predicate Took(node: E.Node, o: Outcome)
    reads node, node.pit, node.fib, node.cache
  {
    node.View() == o.node && node.pit.history == old(node.pit.history) + o.calls
    && node.cache.inserted == old(node.cache.inserted) + o.inserts
  }

  ghost predicate IsApp(node: E.Node, f: FaceId)
    reads node
  {
    f in node.faceTable && node.faceTable[f].App?
  }

  lemma SocketsTakeCopies(table: FrameAddresses.FaceTable, w: E.World, pkt: E.Packet, to: set<FaceId>, draws: Draws)
    requires FrameAddresses.Plugged(table, w)
    ensures var w' := FrameAddresses.After(table, w, pkt, to, draws);
            forall f :: f in table && table[f].App? ==>
              f in w'.sockets && f in w.sockets
              && w'.sockets[f] == w.sockets[f] + PacketsIn(Forward(pkt.content, to), f)
  {
    var w' := FrameAddresses.After(table, w, pkt, to, draws);
    forall f | f in table && table[f].App?
      ensures f in w'.sockets && w'.sockets[f] == w.sockets[f] + PacketsIn(Forward(pkt.content, to), f)
    {
      FrameAddresses.SocketsGetOneCopy(table, w, pkt, to, draws, f);
    }
  }

  /** What a handler sent reaches the sockets, starting from these surroundings. */
  lemma SocketsAfter(node: E.Node, sent: Sent, w: E.World, pkt: E.Packet?, draws: Draws)
    requires FrameAddresses.Plugged(node.faceTable, w) && node.Effect(sent, w, pkt, draws)
    ensures forall f :: IsApp(node, f) ==>
              f in w.sockets && node.faceTable[f].app.outgoing == w.sockets[f] + PacketsIn(sent, f)
  {
    if sent.Forward? {
      SocketsTakeCopies(node.faceTable, w, pkt, sent.to, draws);
      assert node.Sockets() == node.Around(pkt).sockets;
    }
    assert forall f :: IsApp(node, f) ==> f in node.Sockets() && node.Sockets()[f] == node.faceTable[f].app.outgoing;
  }

  /** The same for the devices. */
  lemma DevicesAfter(node: E.Node, sent: Sent, w: E.World, pkt: E.Packet?, draws: Draws)
    requires FrameAddresses.Plugged(node.faceTable, w) && node.Effect(sent, w, pkt, draws)
    requires w.devices.Keys == node.Devices() && w.ports.Keys == node.Devices()
    ensures forall d :: d in node.Devices() ==> d.faces == w.ports[d].0 && d.posted == w.ports[d].1
    ensures forall d :: d in node.Devices() && DeviceTraffic.SoundState(d, w.devices[d]) ==>
              DeviceTraffic.Fared(d, w.devices[d], CsmaDevice.Stepped(d.View(), d.trace))
  {
    if sent.Forward? {
      assert node.DeviceStates() == node.Around(pkt).devices && node.Ports() == node.Around(pkt).ports;
      assert node.Around(pkt) == FrameAddresses.After(node.faceTable, w, pkt, sent.to, draws);
      FrameAddresses.PortsKept(node.faceTable, w, pkt, sent.to, draws);
      forall d | d in node.Devices() && DeviceTraffic.SoundState(d, w.devices[d])
        ensures DeviceTraffic.Fared(d, w.devices[d], node.DeviceStates()[d])
      {
        DeviceTraffic.DeviceFares(node.faceTable, w, pkt, sent.to, draws, d);
      }
    } else {
      assert node.Outside() == w;
    }
    assert forall d :: d in node.Devices() ==>
             node.DeviceStates()[d] == CsmaDevice.Stepped(d.View(), d.trace) && node.Ports()[d] == (d.faces, d.posted);
  }

  /** The device is as sound as before, with the same faces and posted work, and has
      dispatched nothing. */
  twostate predicate Fares(d: E.LinkDevice)
    reads d, d.node
  {
    d.faces == old(d.faces) && d.posted == old(d.posted)
    && (old(DrivenDevice.Sound(d)) ==> DrivenDevice.Sound(d) && DeviceTraffic.NoneDispatched(old(d.trace), d.trace))
  }

  twostate lemma DeviceFared(d: E.LinkDevice)
    requires d.faces == old(d.faces) && d.posted == old(d.posted) && old(d.node.faceCounter) <= d.node.faceCounter
    requires old(DrivenDevice.Sound(d)) ==>
               DeviceTraffic.Fared(d, old(CsmaDevice.Stepped(d.View(), d.trace)), CsmaDevice.Stepped(d.View(), d.trace))
    ensures Fares(d)
  {
  }

  /** Devices that have all been driven soundly. */
  ghost predicate AllSound(devices: set<E.LinkDevice>)
    reads devices, set d | d in devices :: d.node
  {
    forall d :: d in devices ==> DrivenDevice.Sound(d)
  }

  twostate lemma StillSound(devices: set<E.LinkDevice>)
    requires old(AllSound(devices))
    requires forall d :: d in devices ==>
               (unchanged(d) && old(d.node.faceCounter) <= d.node.faceCounter) || Fares(d)
    ensures AllSound(devices)
  {
  }

  /** The node's devices fare so. */
  twostate predicate DevicesFare(node: E.Node)
    reads node, node.Devices(), set d | d in node.Devices() :: d.node
  {
    forall d :: d in old(node.Devices()) && d in node.Devices() ==> Fares(d)
  }

  /** The applications the node sends to, now or once the waiting client has connected. */
  ghost function Clients(node: E.Node): set<AppStream.AppFace>
    reads node
  {
    node.Apps() + if node.client == null then {} else {node.client}
  }

  /** Every application has got what was sent to its face, and nothing else. */
  twostate predicate SocketsGot(node: E.Node, sent: Sent)
    requires unchanged(node)
    reads node, node.Apps()
  {
    forall f :: IsApp(node, f) ==>
      node.faceTable[f].app.outgoing == old(node.faceTable[f].app.outgoing) + PacketsIn(sent, f)
  }

  method HandlePacket(node: E.Node, o: Occurrence) returns (ghost pkt: E.Packet?)
    requires Sound(node) && Enabled(node.View(), EventOf(o)) && (o.InterestArrives? || o.DataArrives?)
    modifies node.pit, node.fib, node.cache, node.Devices(), node.Apps()
    ensures Sound(node) && unchanged(node) && Took(node, Handle(node.lib, old(node.View()), EventOf(o)))
    ensures node.Effect(Handle(node.lib, old(node.View()), EventOf(o)).sent, old(node.Outside()), pkt, o.draws)
    ensures pkt != null ==> fresh(pkt)
    ensures forall d :: d in node.Devices() ==> unchanged(d.node)
  {
    ForwardingFaces.HandleSound(node.lib, node.View(), EventOf(o));
    if o.InterestArrives? {
      pkt := node.HandleInterest(o.face, o.interest, o.now, o.draws);
    } else {
      pkt := node.HandleData(o.face, o.data, o.now, o.draws);
    }
  }

  /** The occurrences that bring a packet. */
  method Receive(node: E.Node, o: Occurrence) returns (ghost pkt: E.Packet?)
    requires Sound(node) && Enabled(node.View(), EventOf(o)) && (o.InterestArrives? || o.DataArrives?)
    modifies node.pit, node.fib, node.cache, node.Devices(), node.Apps()
    ensures Sound(node) && unchanged(node) && Took(node, Handle(node.lib, old(node.View()), EventOf(o)))
    ensures node.Effect(Handle(node.lib, old(node.View()), EventOf(o)).sent, old(node.Outside()), pkt, o.draws)
    ensures pkt != null ==> fresh(pkt)
    ensures forall d :: d in node.Devices() ==> unchanged(d.node)
    ensures SocketsGot(node, Handle(node.lib, old(node.View()), EventOf(o)).sent)
  {
    ghost var w := node.Outside();
    assert FrameAddresses.Plugged(node.faceTable, w);
    assert forall f :: IsApp(node, f) ==> f in w.sockets && w.sockets[f] == node.faceTable[f].app.outgoing;
    ghost var sent := Handle(node.lib, node.View(), EventOf(o)).sent;
    pkt := HandlePacket(node, o);
    SocketsAfter(node, sent, w, pkt, o.draws);
  }

  /** The surroundings say of the node's devices what the devices are. */
  ghost predicate SeenFromOutside(node: E.Node)
    reads node, node.Devices(), node.Apps()
  {
    var w := node.Outside();
    && FrameAddresses.Plugged(node.faceTable, w)
    && w.devices.Keys == node.Devices() && w.ports.Keys == node.Devices()
    && forall d :: d in node.Devices() ==>
         w.devices[d] == CsmaDevice.Stepped(d.View(), d.trace) && w.ports[d] == (d.faces, d.posted)
  }

  twostate lemma DevicesFared(node: E.Node, new sent: Sent, new pkt: E.Packet?, new draws: Draws)
    requires unchanged(node) && node.Effect(sent, old(node.Outside()), pkt, draws)
    requires old(SeenFromOutside(node)) && forall d :: d in node.Devices() ==> unchanged(d.node)
    ensures DevicesFare(node)
  {
    DevicesAfter(node, sent, old(node.Outside()), pkt, draws);
    forall d | d in node.Devices() ensures Fares(d) {
      DeviceFared(d);
    }
  }

  /** The same, followed on the devices. */
  method ReceiveAndSend(node: E.Node, o: Occurrence) returns (ghost pkt: E.Packet?)
    requires Sound(node) && Enabled(node.View(), EventOf(o)) && (o.InterestArrives? || o.DataArrives?)
    modifies node.pit, node.fib, node.cache, node.Devices(), node.Apps()
    ensures Sound(node) && unchanged(node) && Took(node, Handle(node.lib, old(node.View()), EventOf(o)))
    ensures node.Effect(Handle(node.lib, old(node.View()), EventOf(o)).sent, old(node.Outside()), pkt, o.draws)
    ensures pkt != null ==> fresh(pkt)
    ensures DevicesFare(node)
    ensures SocketsGot(node, Handle(node.lib, old(node.View()), EventOf(o)).sent)
  {
    ghost var sent := Handle(node.lib, node.View(), EventOf(o)).sent;
    assert SeenFromOutside(node);
    pkt := Receive(node, o);
    DevicesFared(node, sent, pkt, o.draws);
  }

  /** A face that the node has kept is the same object. */
  twostate predicate SameFaces(node: E.Node)
    reads node
  {
    forall f :: f in node.faceTable && f in old(node.faceTable) ==> node.faceTable[f] == old(node.faceTable[f])
  }

  /** The occurrences that bring none, and send nothing. */
  method Manage(node: E.Node, o: Occurrence)
    requires Sound(node) && Enabled(node.View(), EventOf(o)) && !o.InterestArrives? && !o.DataArrives?
    modifies node, node.pit, node.fib
    ensures Sound(node) && Took(node, Handle(node.lib, old(node.View()), EventOf(o)))
    ensures old(node.faceCounter) <= node.faceCounter <= old(node.faceCounter) + 1
    ensures node.Devices() <= old(node.Devices())
    ensures forall x :: x in Clients(node) ==> x in old(Clients(node)) || fresh(x)
    ensures SameFaces(node)
  {
    ForwardingFaces.HandleSound(node.lib, node.View(), EventOf(o));
    match o
    case CleanUpTimer(now) => node.CleanUpPit(now);
    case NodeStarts => node.Start();
    case ClientConnects => node.HandleAccept();
    case FaceFails(face) => node.RemoveFace(face);
  }

  /** A node's tables, its histories, its faces and what these applications have been sent. */
  datatype Log = Log(view: Node, calls: PIT.History, inserted: CS.Queue, faces: map<FaceId, E.Face>,
                     sockets: map<FaceId, seq<Packet>>)

  /** The application on an old face: on that face still, or never to be sent anything again. */
  predicate Kept(view: Node, faces: map<FaceId, E.Face>, f: FaceId, app: AppStream.AppFace) {
    app.id == f && if f in faces then faces[f] == E.App(app) else ForwardingFaces.Retired(view, f)
  }

  lemma FaceStaysOrRetires(lib: Library, n: Node, e: Event, f: FaceId)
    requires ForwardingFaces.Sound(n) && Enabled(n, e) && (f in n.faces || ForwardingFaces.Retired(n, f))
    ensures var o := Handle(lib, n, e);
            && (f in o.node.faces || ForwardingFaces.Retired(o.node, f))
            && (f !in n.faces ==> f !in o.node.faces && PacketsIn(o.sent, f) == [])
  {
    ForwardingFaces.HandleSound(lib, n, e);
  }

  /** The application objects on the node's faces. */
  type Apps = map<FaceId, AppStream.AppFace>

  ghost function AppsOf(node: E.Node): Apps
    reads node
  {
    map f | f in node.faceTable && node.faceTable[f].App? :: node.faceTable[f].app
  }

  /** Each of these applications has got what was sent to its face, and nothing else. */
  twostate predicate Got(apps: Apps, new sent: Sent)
    reads apps.Values
  {
    forall f :: f in apps ==> apps[f].outgoing == old(apps[f].outgoing) + PacketsIn(sent, f)
  }

  twostate lemma GotAll(node: E.Node, new sent: Sent)
    requires unchanged(node) && SocketsGot(node, sent)
    ensures Got(old(AppsOf(node)), sent)
  {
    assert forall f :: f in AppsOf(node) ==> IsApp(node, f);
  }

  /** A node, the applications it is followed on, and its log when one began to follow it. */
  datatype Watch = Watch(node: E.Node, apps: Apps, log: Log)

  /** What an event makes of the node, if there is one. */
  function OutcomeOf(lib: Library, n: Node, e: Option<Event>): Outcome
    requires e.Some? ==> Enabled(n, e.value)
  {
    if e.Some? then Handle(lib, n, e.value) else Silent(n)
  }

  twostate predicate Advanced(node: E.Node, new e: Option<Event>)
    reads node, node.pit, node.fib, node.cache
  {
    (e.Some? ==> Enabled(old(node.View()), e.value)) && Took(node, OutcomeOf(node.lib, old(node.View()), e))
  }

  ghost predicate AllKept(node: E.Node, apps: Apps)
    reads node, node.pit, node.fib, node.cache
  {
    forall f :: f in apps ==> Kept(node.View(), node.faceTable, f, apps[f])
  }

  /** The same, followed on these applications: each got what was sent to its face. */
  twostate predicate Moved(node: E.Node, apps: Apps, new e: Option<Event>)
    reads node, node.pit, node.fib, node.cache, apps.Values
  {
    Advanced(node, e) && AllKept(node, apps) && Got(apps, OutcomeOf(node.lib, old(node.View()), e).sent)
  }

  /** A packet, followed on these devices. */
  method ReceiveSoundly(node: E.Node, o: Occurrence, ghost devices: set<E.LinkDevice>)
    requires Sound(node) && Enabled(node.View(), EventOf(o)) && (o.InterestArrives? || o.DataArrives?)
    requires AllSound(devices)
    modifies node.pit, node.fib, node.cache, node.Devices(), node.Apps()
    ensures Sound(node) && unchanged(node) && Took(node, Handle(node.lib, old(node.View()), EventOf(o)))
    ensures Got(old(AppsOf(node)), Handle(node.lib, old(node.View()), EventOf(o)).sent)
    ensures AllSound(devices)
  {
    ghost var pkt := ReceiveAndSend(node, o);
    GotAll(node, Handle(node.lib, old(node.View()), EventOf(o)).sent);
    StillSound(devices);
  }

  /** Any occurrence, followed on these devices. */
  method Step(node: E.Node, o: Occurrence, ghost devices: set<E.LinkDevice>)
    requires Sound(node) && Enabled(node.View(), EventOf(o)) && AllSound(devices)
    modifies node, node.pit, node.fib, node.cache, node.Devices(), node.Apps()
    ensures Sound(node) && Took(node, Handle(node.lib, old(node.View()), EventOf(o)))
    ensures node.Devices() <= old(node.Devices()) && AllSound(devices)
    ensures forall x :: x in Clients(node) ==> x in old(Clients(node)) || fresh(x)
    ensures SameFaces(node)
    ensures Got(old(AppsOf(node)), Handle(node.lib, old(node.View()), EventOf(o)).sent)
  {
    if o.InterestArrives? || o.DataArrives? {
      ReceiveSoundly(node, o, devices);
    } else {
      Manage(node, o);
      StillSound(devices);
    }
  }

  /** What becomes of a followed face. */
  lemma KeptBy(lib: Library, n: Node, e: Option<Event>, f: FaceId)
    requires ForwardingFaces.Sound(n) && (e.Some? ==> Enabled(n, e.value))
    requires f in n.faces || ForwardingFaces.Retired(n, f)
    ensures var o := OutcomeOf(lib, n, e);
            && (f in o.node.faces || ForwardingFaces.Retired(o.node, f))
            && (f !in n.faces ==> f !in o.node.faces && PacketsIn(o.sent, f) == [])
  {
    if e.Some? { FaceStaysOrRetires(lib, n, e.value, f); }
  }

  /** What the node does, seen from the followed applications, removed ones included. */
  twostate lemma MovedAt(w: Watch, new e: Option<Event>)
    requires old(Sound(w.node)) && old(AllKept(w.node, w.apps)) && Advanced(w.node, e) && SameFaces(w.node)
    requires Got(old(AppsOf(w.node)), OutcomeOf(w.node.lib, old(w.node.View()), e).sent)
    requires forall f :: f in w.apps && f !in old(w.node.faceTable) ==> unchanged(w.apps[f])
    ensures Moved(w.node, w.apps, e)
  {
    var sent := OutcomeOf(w.node.lib, old(w.node.View()), e).sent;
    forall f | f in w.apps
      ensures Kept(w.node.View(), w.node.faceTable, f, w.apps[f])
      ensures w.apps[f].outgoing == old(w.apps[f].outgoing) + PacketsIn(sent, f)
    {
      assert old(Kept(w.node.View(), w.node.faceTable, f, w.apps[f]));
      KeptBy(w.node.lib, old(w.node.View()), e, f);
      if f in old(w.node.faceTable) { assert old(AppsOf(w.node))[f] == w.apps[f]; }
    }
  }

  lemma RemovedAreGone(node: E.Node, apps: Apps)
    requires Sound(node) && AllKept(node, apps)
    ensures forall f :: f in apps && f !in node.faceTable ==> apps[f] !in node.Apps()
  {
    assert forall f :: f in apps ==> Kept(node.View(), node.faceTable, f, apps[f]);
  }

  /** One occurrence, followed on the sockets of these applications. */
  method Occur(node: E.Node, o: Occurrence, ghost apps: Apps, ghost devices: set<E.LinkDevice>)
    requires Sound(node) && Enabled(node.View(), EventOf(o))
    requires AllSound(devices) && AllKept(node, apps)
    modifies node, node.pit, node.fib, node.cache, node.Devices(), node.Apps()
    ensures Sound(node) && Moved(node, apps, Some(EventOf(o)))
    ensures node.Devices() <= old(node.Devices()) && AllSound(devices)
    ensures forall x :: x in Clients(node) ==> x in old(Clients(node)) || fresh(x)
  {
    RemovedAreGone(node, apps);
    Step(node, o, devices);
    MovedAt(Watch(node, apps, old(LogOf(node, apps))), Some(EventOf(o)));
  }

  ghost function LogOf(node: E.Node, apps: Apps): Log
    reads node, node.pit, node.fib, node.cache, apps.Values
  {
    Log(node.View(), node.pit.history, node.cache.inserted, node.faceTable, map f | f in apps :: apps[f].outgoing)
  }

  /** These events led the node from one log to another. */
  ghost predicate Led(lib: Library, apps: Apps, before: Log, now: Log, es: seq<Event>) {
    Possible(lib, before.view, es) && now.view == Run(lib, before.view, es)
    && var tr := TraceOf(lib, before.view, es);
       && now.calls == before.calls + CallsOf(tr)
       && now.inserted == before.inserted + InsertsOf(tr)
       && forall f :: f in apps ==>
            && f in before.sockets && f in now.sockets
            && now.sockets[f] == before.sockets[f] + PacketsTo(tr, f)
            && Kept(now.view, now.faces, f, apps[f])
  }

  ghost predicate Follows(w: Watch, es: seq<Event>)
    reads w.node, w.node.pit, w.node.fib, w.node.cache, w.apps.Values
  {
    Led(w.node.lib, w.apps, w.log, LogOf(w.node, w.apps), es)
  }

  /** The node as it is, followed on the applications that are connected. */
  ghost function WatchOf(node: E.Node): Watch
    reads node, node.pit, node.fib, node.cache, AppsOf(node).Values
  {
    Watch(node, AppsOf(node), LogOf(node, AppsOf(node)))
  }

  lemma FollowsNothing(node: E.Node)
    requires Sound(node)
    ensures Follows(WatchOf(node), [])
  {
  }

  function WithEvent(es: seq<Event>, e: Option<Event>): seq<Event> {
    if e.Some? then es + [e.value] else es
  }

  twostate lemma FollowsFurther(w: Watch, new es: seq<Event>, new e: Option<Event>)
    requires old(Follows(w, es)) && Moved(w.node, w.apps, e)
    ensures Follows(w, WithEvent(es, e))
  {
    if e.Some? {
      LogGrows(w.node.lib, w.log.view, es, e.value, w.log.calls, w.log.inserted);
      SocketsGrow(w.node.lib, w.log.view, es, e.value);
    }
  }

  lemma EnabledNext(lib: Library, n: Node, es: seq<Event>, k: nat)
    requires k < |es| && Possible(lib, n, es)
    ensures Possible(lib, n, es[..k]) && Enabled(Run(lib, n, es[..k]), es[k])
    ensures es[..k + 1] == es[..k] + [es[k]]
  {
    assert es[..k] + es[k..] == es;
    ForwardingFaces.RunAppend(lib, n, es[..k], es[k..]);
  }

  /** One occurrence more of a run. */
  method Continue(node: E.Node, o: Occurrence, ghost w: Watch, ghost es: seq<Event>, ghost devices: set<E.LinkDevice>)
    requires Sound(node) && Enabled(node.View(), EventOf(o)) && AllSound(devices) && w.node == node && Follows(w, es)
    modifies node, node.pit, node.fib, node.cache, node.Devices(), node.Apps()
    ensures Sound(node) && AllSound(devices) && Follows(w, es + [EventOf(o)])
    ensures node.Devices() <= old(node.Devices())
    ensures forall x :: x in Clients(node) ==> x in old(Clients(node)) || fresh(x)
  {
    Occur(node, o, w.apps, devices);
    FollowsFurther(w, es, Some(EventOf(o)));
  }

  /** The object's tables, histories and sockets after a schedule are those of the run, and
      devices that are sound stay so. */
  method Drive(node: E.Node, schedule: seq<Occurrence>, ghost devices: set<E.LinkDevice>)
    requires Sound(node) && AllSound(devices) && Possible(node.lib, node.View(), Events(schedule))
    modifies node, node.pit, node.fib, node.cache, node.Devices(), Clients(node)
    ensures Sound(node) && AllSound(devices) && Follows(old(WatchOf(node)), Events(schedule))
  {
    ghost var w, es, through, clients := WatchOf(node), Events(schedule), node.Devices(), Clients(node);
    FollowsNothing(node);
    for k := 0 to |schedule|
      invariant Sound(node) && AllSound(devices) && Follows(w, es[..k])
      invariant node.Devices() <= through && forall x :: x in Clients(node) ==> x in clients || fresh(x)
    {
      EnabledNext(node.lib, w.log.view, es, k);
      Continue(node, schedule[k], w, es[..k], devices);
    }
    assert es[..|schedule|] == es;
  }

  // ---- What an application gets on its socket -------------------------------------------

  function DataAmong(packets: seq<Packet>): nat {
    if packets == [] then 0 else (if packets[0].DataPacket? then 1 else 0) + DataAmong(packets[1..])
  }

  lemma {:induction false} CountsData(tr: Trace, f: FaceId)
    ensures DataAmong(PacketsTo(tr, f)) == DataTo(tr, f)
  {
    if tr == [] {
    } else {
      CountsData(tr[1..], f);
      var first := PacketsIn(tr[0].sent, f);
      assert (first + PacketsTo(tr[1..], f))[|first|..] == PacketsTo(tr[1..], f);
    }
  }

  /** From any state, the Data on the socket of a face number at most the Interests it sends
      from then on and the records it had pending, less those it has pending at the end. */
  lemma SocketBalance(lib: Library, n: Node, es: seq<Event>, f: FaceId)
    requires Possible(lib, n, es)
    ensures var tr := TraceOf(lib, n, es);
            DataAmong(PacketsTo(tr, f)) + ForwardingRuns.Debt(Run(lib, n, es), f)
            <= ForwardingRuns.Debt(n, f) + InterestsFrom(tr, f)
  {
    CountsData(TraceOf(lib, n, es), f);
    ForwardingRuns.FlowBalanceFrom(lib, n, es, f);
  }
}
