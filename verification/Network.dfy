/** Packets flooding a network of forwarders. A move delivers one copy in flight, or loses
    it; which neighbours get a copy of what a node sends, and in what order copies arrive,
    is left open. */
module Network {
  import opened Ndn
  import opened ForwardingNode
  import FibTable
  import PIT = PendingInterests
  import CS = ContentStore

  type NodeId = string

  datatype Copy = Copy(to: NodeId, packet: Packet)

  datatype Net = Net(nodes: map<NodeId, Node>, flight: multiset<Copy>)

  /** `spread` are the copies that what the node sends puts in flight. The receiving face is
      created on demand when `face` is the node's next id. */
  datatype Move =
    | Deliver(copy: Copy, face: FaceId, now: Time, spread: multiset<Copy>)
    | Lose(copy: Copy)

  /** The receiving node, with the face the packet arrives on. */
  function Receiver(net: Net, m: Move): Node
    requires m.Deliver? && m.copy.to in net.nodes
  {
    var n := net.nodes[m.copy.to];
    if m.face == n.counter then AddLinkFace(n) else n
  }

  predicate Receivable(net: Net, m: Move) {
    m.Deliver? && m.copy.to in net.nodes && 1 <= m.face < Receiver(net, m).counter
    && (m.copy.packet.InterestPacket? ==> CommandsReadable(Receiver(net, m), m.copy.packet.interest))
  }

  function Received(lib: Library, net: Net, m: Move): Outcome
    requires Receivable(net, m)
  {
    match m.copy.packet
    case InterestPacket(i) => HandleInterest(lib, Receiver(net, m), m.face, i, m.now)
    case DataPacket(d) => HandleData(Receiver(net, m), d, m.now)
  }

  /** Each face a packet is sent to yields at most one copy per node. */
  ghost predicate SpreadOf(net: Net, s: Sent, spread: multiset<Copy>) {
    match s
    case Quiet => spread == multiset{}
    case Forward(packet, to) =>
      |spread| <= |to| * |net.nodes| && forall c :: c in spread ==> c.packet == packet && c.to in net.nodes
  }

  function After(lib: Library, net: Net, m: Move): Net
    requires m.Deliver? ==> Receivable(net, m)
  {
    match m
    case Lose(copy) => net.(flight := net.flight - multiset{copy})
    case Deliver(copy, _, _, spread) =>
      Net(net.nodes[copy.to := Received(lib, net, m).node], net.flight - multiset{copy} + spread)
  }

  // ---- Interests flooding, while nothing answers them ---------------------------------

  /** Delivered, recorded or refused, and not answered on the spot by the cache or the FIB
      manager. */
  ghost predicate FloodMove(lib: Library, net: Net, m: Move) {
    m.copy in net.flight && m.copy.packet.InterestPacket?
    && (m.Deliver? ==>
          Receivable(net, m)
          && Received(lib, net, m).calls == [PIT.Ask(m.face, m.copy.packet.interest, m.now)]
          && SpreadOf(net, Received(lib, net, m).sent, m.spread))
  }

  ghost predicate FloodRun(lib: Library, net: Net, ms: seq<Move>)
    decreases |ms|
  {
    ms != [] ==> FloodMove(lib, net, ms[0]) && FloodRun(lib, After(lib, net, ms[0]), ms[1..])
  }

  ghost predicate Accepts(net: Net, m: Move) {
    m.Deliver? && m.copy.packet.InterestPacket? && m.copy.to in net.nodes
    && PIT.Fresh(net.nodes[m.copy.to].pit, m.copy.packet.interest)
  }

  function KeyOf(p: Packet): (Name, Nonce)
    requires p.InterestPacket?
  {
    (p.interest.name, p.interest.nonce)
  }

  predicate HasKey(n: Node, key: (Name, Nonce)) {
    PIT.Has(n.pit, key.0, key.1)
  }

  /** The pairs of a node and an Interest the node has not recorded. */
  function Lacking(net: Net, keys: set<(Name, Nonce)>): set<(NodeId, (Name, Nonce))> {
    set v, k | v in net.nodes && k in keys && !HasKey(net.nodes[v], k) :: (v, k)
  }

  function Routed(fib: FibTable.Table): set<FaceId> {
    set p, f | p in fib && f in fib[p] :: f
  }

  /** Only these Interests are in flight, to nodes of the network, and no FIB names more
      than `degree` faces. */
  ghost predicate Bounded(net: Net, keys: set<(Name, Nonce)>, degree: nat) {
    && (forall c :: c in net.flight ==> c.packet.InterestPacket? && KeyOf(c.packet) in keys)
    && (forall v :: v in net.nodes ==> |Routed(net.nodes[v].fib)| <= degree)
  }

  lemma FloodOutcome(lib: Library, net: Net, m: Move)
    requires FloodMove(lib, net, m) && m.Deliver?
    ensures var o, n, i := Received(lib, net, m), net.nodes[m.copy.to], m.copy.packet.interest;
            o.node.fib == n.fib
            && o.node.pit == PIT.Asked(n.pit, PIT.Ask(m.face, i, m.now))
            && (o.sent.Forward? ==> o.sent.packet == InterestPacket(i) && o.sent.to <= Routed(n.fib) && Accepts(net, m))
  {
    var n, i := Receiver(net, m), m.copy.packet.interest;
    var n' := n.(pit := PIT.Asked(n.pit, PIT.Ask(m.face, i, m.now)));
    if CS.Lookup(n.cache, i, m.now).None? && PIT.Fresh(n.pit, i)
       && RIB_FACE in FibTable.Faces(n.fib, i.name) - {m.face}
    {
      var o := ProcessCommand(lib, n', m.face, i, m.now);
      assert Received(lib, net, m).calls[1..] == o.calls;
      UnansweredCommand(lib, n', m.face, i, m.now);
    }
  }

  lemma UnansweredCommand(lib: Library, n: Node, face: FaceId, i: Interest, now: Time)
    requires Readable(i.name) && ProcessCommand(lib, n, face, i, now).calls == []
    ensures ProcessCommand(lib, n, face, i, now) == Silent(n)
  {
  }

  lemma AskedKeys(n: Node, ask: PIT.Event, key: (Name, Nonce))
    requires ask.Ask?
    ensures HasKey(n.(pit := PIT.Asked(n.pit, ask)), key)
            <==> HasKey(n, key) || key == (ask.interest.name, ask.interest.nonce)
  {
  }

  /** Only the delivered Interest's record is new, and only at the node it reached. */
  lemma RecordsAfter(lib: Library, net: Net, m: Move, v: NodeId, key: (Name, Nonce))
    requires FloodMove(lib, net, m) && v in net.nodes
    ensures var net' := After(lib, net, m);
            net'.nodes.Keys == net.nodes.Keys && net'.nodes[v].fib == net.nodes[v].fib
            && (HasKey(net'.nodes[v], key)
                <==> HasKey(net.nodes[v], key) || (m.Deliver? && m.copy.to == v && key == KeyOf(m.copy.packet)))
  {
    if m.Deliver? {
      FloodOutcome(lib, net, m);
      if m.copy.to == v {
        AskedKeys(net.nodes[v], PIT.Ask(m.face, m.copy.packet.interest, m.now), key);
      }
    }
  }

  lemma BoundedAfter(lib: Library, net: Net, m: Move, keys: set<(Name, Nonce)>, degree: nat)
    requires FloodMove(lib, net, m) && Bounded(net, keys, degree)
    ensures Bounded(After(lib, net, m), keys, degree)
  {
    var net' := After(lib, net, m);
    forall v | v in net'.nodes ensures |Routed(net'.nodes[v].fib)| <= degree {
      RecordsAfter(lib, net, m, v, KeyOf(m.copy.packet));
    }
    if m.Deliver? { FloodOutcome(lib, net, m); }
  }

  lemma LackingAfter(lib: Library, net: Net, m: Move, keys: set<(Name, Nonce)>)
    requires FloodMove(lib, net, m) && KeyOf(m.copy.packet) in keys
    ensures Lacking(After(lib, net, m), keys) <= Lacking(net, keys)
    ensures Accepts(net, m) ==> |Lacking(After(lib, net, m), keys)| < |Lacking(net, keys)|
  {
    var net' := After(lib, net, m);
    forall v, k | v in net.nodes ensures HasKey(net.nodes[v], k) ==> HasKey(net'.nodes[v], k) {
      RecordsAfter(lib, net, m, v, k);
    }
    SameNodes(lib, net, m);
    if Accepts(net, m) {
      var pair := (m.copy.to, KeyOf(m.copy.packet));
      RecordsAfter(lib, net, m, m.copy.to, KeyOf(m.copy.packet));
      PIT.StrictlySmaller(Lacking(net', keys), Lacking(net, keys), pair);
    }
  }

  lemma FlightAfter(lib: Library, net: Net, m: Move, keys: set<(Name, Nonce)>, degree: nat)
    requires FloodMove(lib, net, m) && Bounded(net, keys, degree)
    ensures |After(lib, net, m).flight| < |net.flight| + if Accepts(net, m) then degree * |net.nodes| else 0
    ensures !Accepts(net, m) ==> |After(lib, net, m).flight| < |net.flight|
  {
    if m.Deliver? {
      FloodOutcome(lib, net, m);
      var s := Received(lib, net, m).sent;
      if s.Forward? {
        PIT.SmallerCardinality(s.to, Routed(net.nodes[m.copy.to].fib));
        MultiplyLe(|s.to|, degree, |net.nodes|);
      }
    }
  }

  lemma MultiplyLe(a: nat, b: nat, n: nat)
    requires a <= b
    ensures a * n <= b * n
  {
  }

  /** What is left of the flood: copies in flight, and for each Interest a node has yet to
      record, the copies that recording it can cause. */
  function Remaining(net: Net, keys: set<(Name, Nonce)>, degree: nat): nat {
    |net.flight| + degree * |net.nodes| * |Lacking(net, keys)|
  }

  lemma SameNodes(lib: Library, net: Net, m: Move)
    requires m.Deliver? ==> Receivable(net, m)
    ensures After(lib, net, m).nodes.Keys == net.nodes.Keys && |After(lib, net, m).nodes| == |net.nodes|
  {
    var net' := After(lib, net, m);
    assert net'.nodes.Keys == net.nodes.Keys;
    assert |net'.nodes| == |net'.nodes.Keys|;
  }

  lemma FewerLeft(flight: nat, flight': nat, fan: nat, left: nat, left': nat, accepted: bool)
    requires if accepted then flight' < flight + fan && left' < left else flight' < flight && left' <= left
    ensures flight' + fan * left' < flight + fan * left
  {
    MultiplyLe(if accepted then left' + 1 else left', left, fan);
    assert (left' + 1) * fan == fan * left' + fan && left' * fan == fan * left' && left * fan == fan * left;
  }

  lemma FloodDecreases(lib: Library, net: Net, m: Move, keys: set<(Name, Nonce)>, degree: nat)
    requires FloodMove(lib, net, m) && Bounded(net, keys, degree)
    ensures Bounded(After(lib, net, m), keys, degree)
    ensures Remaining(After(lib, net, m), keys, degree) < Remaining(net, keys, degree)
  {
    var net' := After(lib, net, m);
    BoundedAfter(lib, net, m, keys, degree);
    LackingAfter(lib, net, m, keys);
    PIT.SmallerCardinality(Lacking(net', keys), Lacking(net, keys));
    FlightAfter(lib, net, m, keys, degree);
    SameNodes(lib, net, m);
    FewerLeft(|net.flight|, |net'.flight|, degree * |net.nodes|,
              |Lacking(net, keys)|, |Lacking(net', keys)|, Accepts(net, m));
  }

  /** Whatever the topology, the routes and the losses, a flood of Interests ends: it makes
      at most this many moves. */
  lemma {:induction false} InterestFloodEnds(lib: Library, net: Net, ms: seq<Move>, keys: set<(Name, Nonce)>,
                                             degree: nat)
    requires FloodRun(lib, net, ms) && Bounded(net, keys, degree)
    ensures |ms| <= |net.flight| + degree * |net.nodes| * |Lacking(net, keys)|
    decreases |ms|
  {
    if ms == [] {
    } else {
      FloodDecreases(lib, net, ms[0], keys, degree);
      InterestFloodEnds(lib, After(lib, net, ms[0]), ms[1..], keys, degree);
    }
  }

  /** How often node `v` accepts the Interest with this name and nonce. */
  ghost function Acceptances(lib: Library, net: Net, ms: seq<Move>, v: NodeId, key: (Name, Nonce)): nat
    requires FloodRun(lib, net, ms)
    decreases |ms|
  {
    if ms == [] then 0
    else
      (if Accepts(net, ms[0]) && ms[0].copy.to == v && KeyOf(ms[0].copy.packet) == key then 1 else 0)
      + Acceptances(lib, After(lib, net, ms[0]), ms[1..], v, key)
  }

  /** Loops are cut: every node accepts an Interest at most once, and not at all if it had
      it already. */
  lemma {:induction false} AcceptedAtMostOnce(lib: Library, net: Net, ms: seq<Move>, v: NodeId, key: (Name, Nonce))
    requires FloodRun(lib, net, ms) && v in net.nodes
    ensures Acceptances(lib, net, ms, v, key) <= if HasKey(net.nodes[v], key) then 0 else 1
    decreases |ms|
  {
    if ms == [] {
    } else {
      RecordsAfter(lib, net, ms[0], v, key);
      AcceptedAtMostOnce(lib, After(lib, net, ms[0]), ms[1..], v, key);
    }
  }

  // ---- Data flooding ------------------------------------------------------------------

  ghost predicate DataMove(lib: Library, net: Net, m: Move) {
    m.copy in net.flight && m.copy.packet.DataPacket?
    && (m.Deliver? ==> Receivable(net, m) && SpreadOf(net, Received(lib, net, m).sent, m.spread))
  }

  ghost predicate DataRun(lib: Library, net: Net, ms: seq<Move>)
    decreases |ms|
  {
    ms != [] ==> DataMove(lib, net, ms[0]) && DataRun(lib, After(lib, net, ms[0]), ms[1..])
  }

  /** Every pending record of the network. */
  function Pending(nodes: map<NodeId, Node>): set<(NodeId, (Name, Nonce))> {
    set v, k | v in nodes && k in PIT.Keys(nodes[v].pit) :: (v, k)
  }

  /** The keys of the records that a Data name takes out of a table. */
  function Taken(t: PIT.Table, name: Name): set<(Name, Nonce)> {
    PIT.Keys(t) - PIT.Keys(PIT.Answered(t, name))
  }

  lemma {:induction false} ImageIsSmaller<A, B>(domain: set<A>, image: set<B>, f: A -> B)
    requires forall b :: b in image ==> exists a :: a in domain && f(a) == b
    ensures |image| <= |domain|
    decreases |image|
  {
    if image == {} {
    } else {
      var b :| b in image;
      var a :| a in domain && f(a) == b;
      forall b' | b' in image - {b} ensures exists a' :: a' in domain - {a} && f(a') == b' {
        var a' :| a' in domain && f(a') == b';
        assert a' in domain - {a};
      }
      ImageIsSmaller(domain - {a}, image - {b}, f);
    }
  }

  /** No more faces are answered than records are taken. */
  lemma AnswersCostRecords(t: PIT.Table, name: Name, now: Time)
    ensures |PIT.Waiting(t, name, now)| <= |Taken(t, name)|
  {
    var faceOf := (key: (Name, Nonce)) => if PIT.Has(t, key.0, key.1) then t[key.0][key.1].face else 0;
    forall f | f in PIT.Waiting(t, name, now) ensures exists key :: key in Taken(t, name) && faceOf(key) == f {
      var n, k := PIT.WaitingRecord(t, name, now, f);
      assert (n, k) in Taken(t, name) && faceOf((n, k)) == f;
    }
    ImageIsSmaller(Taken(t, name), PIT.Waiting(t, name, now), faceOf);
  }

  lemma {:induction false} TaggedCardinality(v: NodeId, keys: set<(Name, Nonce)>)
    ensures |set k | k in keys :: (v, k)| == |keys|
  {
    var tagged := set k | k in keys :: (v, k);
    if keys == {} {
      assert tagged == {};
    } else {
      var k :| k in keys;
      TaggedCardinality(v, keys - {k});
      assert tagged == (set j | j in keys - {k} :: (v, j)) + {(v, k)};
    }
  }

  lemma DataOutcome(lib: Library, net: Net, m: Move)
    requires DataMove(lib, net, m) && m.Deliver?
    ensures var o, n, d := Received(lib, net, m), net.nodes[m.copy.to], m.copy.packet.data;
            o.node.pit == PIT.Answered(n.pit, d.name)
            && (o.sent.Forward? ==> o.sent.packet == DataPacket(d) && |o.sent.to| <= |Taken(n.pit, d.name)|)
  {
    var n, d := net.nodes[m.copy.to], m.copy.packet.data;
    var s := Received(lib, net, m).sent;
    AnswersCostRecords(n.pit, d.name, m.now);
    if s.Forward? { PIT.SmallerCardinality(s.to, PIT.Waiting(n.pit, d.name, m.now)); }
  }

  lemma PendingReplaced(nodes: map<NodeId, Node>, v: NodeId, n: Node, taken: set<(Name, Nonce)>)
    requires v in nodes && taken <= PIT.Keys(nodes[v].pit)
    requires PIT.Keys(n.pit) == PIT.Keys(nodes[v].pit) - taken
    ensures |Pending(nodes[v := n])| == |Pending(nodes)| - |taken|
  {
    var tagged := set k | k in taken :: (v, k);
    var after := Pending(nodes[v := n]);
    TaggedCardinality(v, taken);
    forall w, k ensures (w, k) in Pending(nodes) <==> (w, k) in after || (w, k) in tagged {}
    assert Pending(nodes) == after + tagged;
    assert after !! tagged;
  }

  /** The records a move takes out of the network. */
  function TakenBy(net: Net, m: Move): set<(Name, Nonce)>
    requires m.Deliver? ==> m.copy.to in net.nodes
    requires m.copy.packet.DataPacket?
  {
    if m.Lose? then {} else Taken(net.nodes[m.copy.to].pit, m.copy.packet.data.name)
  }

  lemma DataFlightAfter(lib: Library, net: Net, m: Move)
    requires DataMove(lib, net, m)
    ensures |After(lib, net, m).flight| <= |net.flight| - 1 + |TakenBy(net, m)| * |net.nodes|
  {
    if m.Deliver? {
      DataOutcome(lib, net, m);
      var s := Received(lib, net, m).sent;
      if s.Forward? { MultiplyLe(|s.to|, |TakenBy(net, m)|, |net.nodes|); }
    }
  }

  lemma PendingAfter(lib: Library, net: Net, m: Move)
    requires DataMove(lib, net, m)
    ensures |Pending(After(lib, net, m).nodes)| == |Pending(net.nodes)| - |TakenBy(net, m)|
  {
    if m.Deliver? {
      DataOutcome(lib, net, m);
      PendingReplaced(net.nodes, m.copy.to, Received(lib, net, m).node, TakenBy(net, m));
    }
  }

  lemma PaidByRecords(nodes: nat, pending: nat, taken: nat, pending': int)
    requires pending' == pending - taken
    ensures taken * nodes + nodes * pending' == nodes * pending
  {
  }

  lemma DataDecreases(lib: Library, net: Net, m: Move)
    requires DataMove(lib, net, m)
    ensures var net' := After(lib, net, m);
            |net'.nodes| == |net.nodes|
            && |net'.flight| + |net.nodes| * |Pending(net'.nodes)| < |net.flight| + |net.nodes| * |Pending(net.nodes)|
  {
    SameNodes(lib, net, m);
    DataFlightAfter(lib, net, m);
    PendingAfter(lib, net, m);
    PaidByRecords(|net.nodes|, |Pending(net.nodes)|, |TakenBy(net, m)|, |Pending(After(lib, net, m).nodes)|);
  }

  /** While only Data is delivered, every delivery takes pending records or is discarded, so
      propagation ends within this many moves. */
  lemma {:induction false} DataFloodEnds(lib: Library, net: Net, ms: seq<Move>)
    requires DataRun(lib, net, ms)
    ensures |ms| <= |net.flight| + |net.nodes| * |Pending(net.nodes)|
    decreases |ms|
  {
    if ms == [] {
    } else {
      DataDecreases(lib, net, ms[0]);
      DataFloodEnds(lib, After(lib, net, ms[0]), ms[1..]);
    }
  }
}
