/** The pending-interest table, keyed by name and then by nonce, and what it remembers of
    the history of calls made on it. */
module PendingInterests {
  import opened Ndn

  datatype FaceRecord = FaceRecord(face: FaceId, expire: Time)

  type NonceTable = map<Nonce, FaceRecord>

  type Table = map<Name, NonceTable>

  /** One call on the table, with the clock reading it made. */
  datatype Event =
    | Ask(face: FaceId, interest: Interest, at: Time)
    | Answer(name: Name, at: Time)
    | Purge(at: Time)

  // ---- One call -----------------------------------------------------------------------

  predicate Has(t: Table, n: Name, k: Nonce) {
    n in t && k in t[n]
  }

  predicate Fresh(t: Table, i: Interest) {
    !Has(t, i.name, i.nonce)
  }

  function Record(e: Event): FaceRecord
    requires e.Ask?
  {
    FaceRecord(e.face, e.at + e.interest.lifetime)
  }

  function Asked(t: Table, e: Event): Table
    requires e.Ask?
  {
    var i := e.interest;
    if !Fresh(t, i) then t
    else t[i.name := (if i.name in t then t[i.name] else map[])[i.nonce := Record(e)]]
  }

  function Answered(t: Table, name: Name): Table {
    map n | n in t && !(n <= name) :: t[n]
  }

  function Unexpired(records: NonceTable, now: Time): NonceTable {
    map k | k in records && records[k].expire >= now :: records[k]
  }

  function Purged(t: Table, now: Time): Table {
    map n | n in t && Unexpired(t[n], now) != map[] :: Unexpired(t[n], now)
  }

  /** The faces a Data packet with this name is owed to. */
  function Waiting(t: Table, name: Name, now: Time): set<FaceId> {
    set n, k | n in t && n <= name && k in t[n] && t[n][k].expire > now :: t[n][k].face
  }

  /** The faces that one entry still has to answer. */
  function Expecting(records: NonceTable, now: Time): set<FaceId> {
    set k | k in records && records[k].expire > now :: records[k].face
  }

  function Apply(t: Table, e: Event): Table {
    match e
    case Ask(_, _, _) => Asked(t, e)
    case Answer(name, _) => Answered(t, name)
    case Purge(at) => Purged(t, at)
  }

  // ---- Histories ----------------------------------------------------------------------

  type History = seq<Event>

  function Replay(h: History): Table {
    if h == [] then map[] else Apply(Replay(h[..|h| - 1]), h[|h| - 1])
  }

  ghost predicate Chronological(h: History) {
    forall i, j :: 0 <= i <= j < |h| ==> h[i].at <= h[j].at
  }

  /** Did the j-th call record an Interest? */
  predicate AcceptedAt(h: History, j: nat) {
    j < |h| && h[j].Ask? && Fresh(Replay(h[..j]), h[j].interest)
  }

  ghost predicate AnsweredSince(h: History, j: nat, n: Name) {
    exists k :: j < k < |h| && h[k].Answer? && n <= h[k].name
  }

  /** The j-th call recorded an Interest that no Data has answered since. */
  ghost predicate Outstanding(h: History, j: nat) {
    AcceptedAt(h, j) && !AnsweredSince(h, j, h[j].interest.name)
  }

  /** The reference: `face` sent an Interest, accepted under a prefix of `name`, whose lifetime
      has not run out at `now` and that met no Data since. Purges are not mentioned. */
  ghost predicate Owed(h: History, face: FaceId, name: Name, now: Time) {
    exists j: nat :: Outstanding(h, j) && h[j].face == face
                     && h[j].interest.name <= name && h[j].at + h[j].interest.lifetime > now
  }

  ghost predicate Backs(h: History, j: nat, n: Name, k: Nonce, r: FaceRecord) {
    Outstanding(h, j) && h[j].interest.name == n && h[j].interest.nonce == k
    && r == FaceRecord(h[j].face, h[j].at + h[j].interest.lifetime)
  }

  ghost predicate EveryRecordBacked(h: History) {
    forall n, k :: Has(Replay(h), n, k) ==> exists j: nat :: Backs(h, j, n, k, Replay(h)[n][k])
  }

  ghost predicate RecordedAt(t: Table, e: Event)
    requires e.Ask?
  {
    Has(t, e.interest.name, e.interest.nonce)
    && t[e.interest.name][e.interest.nonce] == FaceRecord(e.face, e.at + e.interest.lifetime)
  }

  /** Alive at the last clock reading. */
  ghost predicate Alive(h: History, e: Event)
    requires e.Ask?
  {
    h != [] ==> h[|h| - 1].at <= e.at + e.interest.lifetime
  }

  /** Every outstanding Interest that is still alive at the last clock reading is in the table. */
  ghost predicate EveryLiveInterestRecorded(h: History) {
    forall j: nat :: Outstanding(h, j) && Alive(h, h[j]) ==> RecordedAt(Replay(h), h[j])
  }

  lemma ReplayExtend(h: History, e: Event)
    ensures Replay(h + [e]) == Apply(Replay(h), e)
  {
    assert (h + [e])[..|h|] == h;
  }

  lemma OutstandingExtend(h: History, e: Event, j: nat)
    requires j < |h|
    ensures Outstanding(h + [e], j) <==>
              Outstanding(h, j) && !(e.Answer? && h[j].interest.name <= e.name)
  {
    var h' := h + [e];
    assert h'[..j] == h[..j];
    if h[j].Ask? {
      var n := h[j].interest.name;
      if AnsweredSince(h, j, n) {
        var k :| j < k < |h| && h[k].Answer? && n <= h[k].name;
        assert h'[k] == h[k];
      }
      if e.Answer? && n <= e.name {
        assert h'[|h|] == e;
      }
    }
  }

  lemma NewestOutstanding(h: History, e: Event)
    ensures Outstanding(h + [e], |h|) <==> e.Ask? && Fresh(Replay(h), e.interest)
  {
    assert (h + [e])[..|h|] == h;
  }

  lemma NewRecordBacked(h: History, e: Event, n: Name, k: Nonce)
    requires Has(Replay(h + [e]), n, k) && !Has(Replay(h), n, k)
    ensures Backs(h + [e], |h|, n, k, Replay(h + [e])[n][k])
  {
    ReplayExtend(h, e);
    NewestOutstanding(h, e);
  }

  lemma ReadAgain(t: Table, e: Event, n: Name, k: Nonce)
    requires Has(t, n, k) && Has(Apply(t, e), n, k)
    ensures Apply(t, e)[n][k] == t[n][k]
    ensures !(e.Answer? && n <= e.name)
  {
  }

  lemma OldRecordBacked(h: History, e: Event, n: Name, k: Nonce, r: FaceRecord) returns (j: nat)
    requires EveryRecordBacked(h) && Has(Replay(h), n, k) && Replay(h)[n][k] == r
    requires !(e.Answer? && n <= e.name)
    ensures Backs(h + [e], j, n, k, r)
  {
    j :| Backs(h, j, n, k, r);
    OutstandingExtend(h, e, j);
  }

  lemma BackedStep(h: History, e: Event)
    requires EveryRecordBacked(h)
    ensures EveryRecordBacked(h + [e])
  {
    var h', t, t' := h + [e], Replay(h), Replay(h + [e]);
    ReplayExtend(h, e);
    forall n, k | Has(t', n, k) ensures exists j: nat :: Backs(h', j, n, k, t'[n][k]) {
      if Has(t, n, k) {
        ReadAgain(t, e, n, k);
        var j := OldRecordBacked(h, e, n, k, t[n][k]);
      } else {
        NewRecordBacked(h, e, n, k);
      }
    }
  }

  lemma StillRecorded(t: Table, asked: Event, e: Event)
    requires asked.Ask? && RecordedAt(t, asked)
    requires e.at <= asked.at + asked.interest.lifetime
    requires !(e.Answer? && asked.interest.name <= e.name)
    ensures RecordedAt(Apply(t, e), asked)
  {
    if e.Purge? {
      assert asked.interest.nonce in Unexpired(t[asked.interest.name], e.at);
    }
  }

  lemma RecordedStep(h: History, e: Event)
    requires EveryLiveInterestRecorded(h)
    requires Chronological(h + [e])
    ensures EveryLiveInterestRecorded(h + [e])
  {
    var h' := h + [e];
    ReplayExtend(h, e);
    NewestOutstanding(h, e);
    forall j: nat | Outstanding(h', j) && Alive(h', h'[j]) ensures RecordedAt(Replay(h'), h'[j]) {
      if j < |h| {
        OutstandingExtend(h, e, j);
        assert h[|h| - 1].at <= e.at by { assert h'[|h| - 1] == h[|h| - 1]; }
        StillRecorded(Replay(h), h[j], e);
      }
    }
  }

  lemma {:induction false} HistoryExplainsTable(h: History)
    requires Chronological(h)
    ensures EveryRecordBacked(h) && EveryLiveInterestRecorded(h)
  {
    if h == [] {
    } else {
      var before, e := h[..|h| - 1], h[|h| - 1];
      assert h == before + [e];
      HistoryExplainsTable(before);
      BackedStep(before, e);
      RecordedStep(before, e);
    }
  }

  lemma WaitingRecord(t: Table, name: Name, now: Time, face: FaceId) returns (n: Name, k: Nonce)
    requires face in Waiting(t, name, now)
    ensures Has(t, n, k) && n <= name && t[n][k].face == face && t[n][k].expire > now
  {
    n, k :| n in t && n <= name && k in t[n] && t[n][k].expire > now && t[n][k].face == face;
  }

  lemma WaitingIsOwed(h: History, name: Name, now: Time, face: FaceId)
    requires EveryRecordBacked(h)
    requires face in Waiting(Replay(h), name, now)
    ensures Owed(h, face, name, now)
  {
    var n, k := WaitingRecord(Replay(h), name, now, face);
    var j: nat :| Backs(h, j, n, k, Replay(h)[n][k]);
    assert Outstanding(h, j) && h[j].face == face && h[j].interest.name <= name;
    assert h[j].at + h[j].interest.lifetime > now;
  }

  lemma OwedIsWaiting(h: History, name: Name, now: Time, face: FaceId)
    requires EveryLiveInterestRecorded(h)
    requires h != [] ==> h[|h| - 1].at <= now
    requires Owed(h, face, name, now)
    ensures face in Waiting(Replay(h), name, now)
  {
    var t := Replay(h);
    var j: nat :| Outstanding(h, j) && h[j].face == face
                  && h[j].interest.name <= name && h[j].at + h[j].interest.lifetime > now;
    var n, k := h[j].interest.name, h[j].interest.nonce;
    assert Alive(h, h[j]);
    assert RecordedAt(t, h[j]);
    assert n in t && k in t[n] && t[n][k].face == face;
  }

  /** Exact delivery: at any time after the whole history, the faces found in the table are
      those the history owes the Data to, wherever purges fell. */
  lemma ExactDelivery(h: History, name: Name, now: Time, face: FaceId)
    requires Chronological(h) && (h != [] ==> h[|h| - 1].at <= now)
    ensures face in Waiting(Replay(h), name, now) <==> Owed(h, face, name, now)
  {
    HistoryExplainsTable(h);
    if face in Waiting(Replay(h), name, now) {
      WaitingIsOwed(h, name, now, face);
    } else if Owed(h, face, name, now) {
      OwedIsWaiting(h, name, now, face);
    }
  }

  lemma DeliveryIsOwed(h: History, name: Name, now: Time)
    requires Chronological(h + [Answer(name, now)])
    ensures forall f :: f in Waiting(Replay(h), name, now) <==> Owed(h, f, name, now)
  {
    var h' := h + [Answer(name, now)];
    assert forall i :: 0 <= i < |h| ==> h[i] == h'[i];
    assert Chronological(h);
    if h != [] { assert h[|h| - 1].at <= h'[|h|].at; }
    forall f ensures f in Waiting(Replay(h), name, now) <==> Owed(h, f, name, now) {
      ExactDelivery(h, name, now, f);
    }
  }

  // ---- Cleanup changes nothing a caller can see ---------------------------------------

  function Unpurged(h: History): History {
    if h == [] then []
    else Unpurged(h[..|h| - 1]) + (if h[|h| - 1].Purge? then [] else [h[|h| - 1]])
  }

  function LastPurge(h: History): Option<Time> {
    if h == [] then None
    else if h[|h| - 1].Purge? then Some(h[|h| - 1].at)
    else LastPurge(h[..|h| - 1])
  }

  function Trim(t: Table, purge: Option<Time>): Table {
    if purge.None? then t else Purged(t, purge.value)
  }

  /** The Interest repeats a name and nonce whose record expired before the last purge. */
  predicate Revives(t: Table, purge: Option<Time>, i: Interest) {
    Has(t, i.name, i.nonce) && purge.Some? && t[i.name][i.nonce].expire < purge.value
  }

  /** The j-th call revives a record of the history without purges. */
  ghost predicate RevivedAt(h: History, j: nat)
    requires j < |h|
  {
    h[j].Ask? && Revives(Replay(Unpurged(h[..j])), LastPurge(h[..j]), h[j].interest)
  }

  ghost predicate NoRevival(h: History) {
    forall j: nat :: j < |h| ==> !RevivedAt(h, j)
  }

  /** The j-th call, if it is an Interest, is accepted with purges iff it is without. */
  ghost predicate AnsweredAlikeAt(h: History, j: nat)
    requires j < |h|
  {
    h[j].Ask? ==>
      Fresh(Replay(h[..j]), h[j].interest) == Fresh(Replay(Unpurged(h[..j])), h[j].interest)
  }

  ghost predicate SameAnswers(h: History) {
    forall j: nat :: j < |h| ==> AnsweredAlikeAt(h, j)
  }

  ghost predicate LifetimesNonnegative(h: History) {
    forall j :: 0 <= j < |h| && h[j].Ask? ==> h[j].interest.lifetime >= 0
  }

  ghost predicate NoEmptyEntry(t: Table) {
    forall n :: n in t ==> t[n] != map[]
  }

  lemma {:induction false} NoEmptyEntryEver(h: History)
    ensures NoEmptyEntry(Replay(h))
  {
    if h == [] {
    } else {
      var t, e := Replay(h[..|h| - 1]), h[|h| - 1];
      NoEmptyEntryEver(h[..|h| - 1]);
      if e.Ask? { assert Has(Asked(t, e), e.interest.name, e.interest.nonce); }
    }
  }

  /** A cleanup at `now` keeps exactly the records that expire then or later. */
  lemma PurgeKeepsExactly(t: Table, now: Time, n: Name, k: Nonce)
    ensures Has(Purged(t, now), n, k) <==> Has(t, n, k) && t[n][k].expire >= now
    ensures Has(Purged(t, now), n, k) ==> Purged(t, now)[n][k] == t[n][k]
  {
    if Has(t, n, k) && t[n][k].expire >= now {
      assert k in Unexpired(t[n], now);
    }
  }

  lemma TrimmedFresh(t: Table, purge: Option<Time>, i: Interest)
    ensures Fresh(Trim(t, purge), i) == Fresh(t, i) <==> !Revives(t, purge, i)
  {
    if purge.Some? && Has(t, i.name, i.nonce) {
      var left := Unexpired(t[i.name], purge.value);
      assert i.nonce in left <==> t[i.name][i.nonce].expire >= purge.value;
    }
  }

  lemma TrimmedAsk(t: Table, c: Time, e: Event)
    requires e.Ask? && e.interest.lifetime >= 0 && c <= e.at
    requires !Revives(t, Some(c), e.interest)
    ensures Asked(Purged(t, c), e) == Purged(Asked(t, e), c)
  {
    var i := e.interest;
    TrimmedFresh(t, Some(c), i);
    if Fresh(t, i) {
      TrimmedFreshAsk(t, c, e);
    }
  }

  lemma TrimmedFreshAsk(t: Table, c: Time, e: Event)
    requires e.Ask? && c <= Record(e).expire
    requires Fresh(t, e.interest) && Fresh(Purged(t, c), e.interest)
    ensures Asked(Purged(t, c), e) == Purged(Asked(t, e), c)
  {
    var n, k := e.interest.name, e.interest.nonce;
    var records := if n in t then t[n] else map[];
    var left := if n in Purged(t, c) then Purged(t, c)[n] else map[];
    assert left == Unexpired(records, c);
    assert Unexpired(records[k := Record(e)], c) == left[k := Record(e)];
    assert k in left[k := Record(e)];
  }

  lemma TrimmedAnswer(t: Table, c: Time, name: Name)
    ensures Answered(Purged(t, c), name) == Purged(Answered(t, name), c)
  {
  }

  lemma TrimmedPurge(t: Table, c: Time, later: Time)
    requires c <= later
    ensures Purged(Purged(t, c), later) == Purged(t, later)
  {
    forall n | n in t ensures Unexpired(Unexpired(t[n], c), later) == Unexpired(t[n], later) {}
    forall n | n in t && Unexpired(t[n], later) != map[] ensures Unexpired(t[n], c) != map[] {
      var k :| k in Unexpired(t[n], later);
      assert k in Unexpired(t[n], c);
    }
  }

  lemma TrimmedWaiting(t: Table, c: Time, name: Name, now: Time)
    requires c <= now
    ensures Waiting(Purged(t, c), name, now) == Waiting(t, name, now)
  {
    forall n, k | n in t && k in t[n] && t[n][k].expire > now
      ensures n in Purged(t, c) && k in Purged(t, c)[n] && Purged(t, c)[n][k] == t[n][k]
    {
      assert k in Unexpired(t[n], c);
    }
  }

  lemma TrimmedApply(t: Table, purge: Option<Time>, e: Event)
    requires purge.Some? ==> purge.value <= e.at
    requires e.Ask? ==> e.interest.lifetime >= 0 && !Revives(t, purge, e.interest)
    ensures e.Purge? ==> Apply(Trim(t, purge), e) == Purged(t, e.at)
    ensures !e.Purge? ==> Apply(Trim(t, purge), e) == Trim(Apply(t, e), purge)
  {
    if purge.Some? {
      match e
      case Ask(_, _, _) => TrimmedAsk(t, purge.value, e);
      case Answer(name, _) => TrimmedAnswer(t, purge.value, name);
      case Purge(at) => TrimmedPurge(t, purge.value, at);
    }
  }

  lemma {:induction false} LastPurgeIsPast(h: History)
    requires Chronological(h) && h != [] && LastPurge(h).Some?
    ensures LastPurge(h).value <= h[|h| - 1].at
  {
    if !h[|h| - 1].Purge? {
      LastPurgeIsPast(h[..|h| - 1]);
    }
  }

  lemma RevivedLast(h: History, e: Event)
    ensures RevivedAt(h + [e], |h|) <==> e.Ask? && Revives(Replay(Unpurged(h)), LastPurge(h), e.interest)
  {
    assert (h + [e])[..|h|] == h;
  }

  lemma PrefixAgrees(h: History, e: Event)
    ensures NoRevival(h + [e]) <==> NoRevival(h) && !RevivedAt(h + [e], |h|)
    ensures SameAnswers(h + [e]) <==> SameAnswers(h) && AnsweredAlikeAt(h + [e], |h|)
  {
    var h' := h + [e];
    forall j: nat | j < |h|
      ensures RevivedAt(h', j) == RevivedAt(h, j) && AnsweredAlikeAt(h', j) == AnsweredAlikeAt(h, j)
    {
      assert h'[..j] == h[..j];
    }
  }

  lemma UnpurgedExtend(h: History, e: Event)
    ensures Unpurged(h + [e]) == if e.Purge? then Unpurged(h) else Unpurged(h) + [e]
    ensures LastPurge(h + [e]) == if e.Purge? then Some(e.at) else LastPurge(h)
  {
    assert (h + [e])[..|h|] == h;
    assert e.Purge? ==> Unpurged(h) + [] == Unpurged(h);
  }

  lemma PurgedReplayStep(h: History, e: Event)
    requires Replay(h) == Trim(Replay(Unpurged(h)), LastPurge(h))
    requires LastPurge(h).Some? ==> LastPurge(h).value <= e.at
    requires e.Ask? ==> e.interest.lifetime >= 0 && !Revives(Replay(Unpurged(h)), LastPurge(h), e.interest)
    ensures Replay(h + [e]) == Trim(Replay(Unpurged(h + [e])), LastPurge(h + [e]))
  {
    UnpurgedExtend(h, e);
    ReplayExtend(h, e);
    TrimmedApply(Replay(Unpurged(h)), LastPurge(h), e);
    if !e.Purge? { ReplayExtend(Unpurged(h), e); }
  }

  lemma {:induction false} PurgedReplay(h: History)
    requires Chronological(h) && LifetimesNonnegative(h) && NoRevival(h)
    ensures Replay(h) == Trim(Replay(Unpurged(h)), LastPurge(h))
  {
    if h == [] {
    } else {
      var before, e := h[..|h| - 1], h[|h| - 1];
      assert h == before + [e];
      PrefixAgrees(before, e);
      RevivedLast(before, e);
      PurgedReplay(before);
      if before != [] && LastPurge(before).Some? { LastPurgeIsPast(before); }
      PurgedReplayStep(before, e);
    }
  }

  lemma {:induction false} AnswersAgreeIff(h: History)
    requires Chronological(h) && LifetimesNonnegative(h)
    ensures SameAnswers(h) <==> NoRevival(h)
  {
    if h == [] {
    } else {
      var before, e := h[..|h| - 1], h[|h| - 1];
      assert h == before + [e];
      PrefixAgrees(before, e);
      AnswersAgreeIff(before);
      if NoRevival(before) && e.Ask? {
        PurgedReplay(before);
        TrimmedFresh(Replay(Unpurged(before)), LastPurge(before), e.interest);
      }
    }
  }

  /** Cleanup is transparent exactly on the histories in which no Interest repeats a record
      that expired before the latest purge: the accept and reject answers are those of the
      same history without purges, and so is every later set of faces to deliver to. */
  lemma CleanUpTransparent(h: History, name: Name, now: Time)
    requires Chronological(h) && LifetimesNonnegative(h)
    requires h != [] ==> h[|h| - 1].at <= now
    ensures SameAnswers(h) <==> NoRevival(h)
    ensures NoRevival(h) ==> Waiting(Replay(h), name, now) == Waiting(Replay(Unpurged(h)), name, now)
  {
    AnswersAgreeIff(h);
    if NoRevival(h) {
      PurgedReplay(h);
      if h != [] && LastPurge(h).Some? {
        LastPurgeIsPast(h);
        TrimmedWaiting(Replay(Unpurged(h)), LastPurge(h).value, name, now);
      }
    }
  }

  /** The same Interest twice, and a cleanup between. */
  function RevivingHistory(i: Interest, face: FaceId): History {
    [Ask(face, i, 0)] + [Purge(100)] + [Ask(face, i, 100)]
  }

  /** A repeated nonce is refused without cleanup and accepted after it. */
  lemma RevivalIsVisible(i: Interest, face: FaceId)
    requires i.lifetime == 10
    ensures var h := RevivingHistory(i, face);
            AcceptedAt(h, 2) && Unpurged(h) == [Ask(face, i, 0)] + [Ask(face, i, 100)] && !AcceptedAt(Unpurged(h), 1)
            && RevivedAt(h, 2) && !SameAnswers(h)
  {
    var first, purge, again := Ask(face, i, 0), Purge(100), Ask(face, i, 100);
    var asked := [first];
    var h := asked + [purge];
    assert [] + asked == asked;
    ReplayExtend([], first);
    UnpurgedExtend([], first);
    ReplayExtend(asked, purge);
    UnpurgedExtend(asked, purge);
    UnpurgedExtend(h, again);
    assert Unexpired(Replay(asked)[i.name], 100) == map[];
    assert (h + [again])[..2] == h && (asked + [again])[..1] == asked;
    assert !AnsweredAlikeAt(h + [again], 2);
  }

  // ---- How many records a face holds --------------------------------------------------

  function Keys(t: Table): set<(Name, Nonce)> {
    set n, k | n in t && k in t[n] :: (n, k)
  }

  function Held(t: Table, face: FaceId): set<(Name, Nonce)> {
    set key | key in Keys(t) && t[key.0][key.1].face == face
  }

  lemma SmallerCardinality<T>(a: set<T>, b: set<T>)
    requires a <= b
    ensures |a| <= |b|
  {
    assert b == a + (b - a);
  }

  lemma StrictlySmaller<T>(a: set<T>, b: set<T>, x: T)
    requires a <= b && x in b && x !in a
    ensures |a| < |b|
  {
    SmallerCardinality(a + {x}, b);
  }

  lemma AskKeys(t: Table, e: Event)
    requires e.Ask? && Fresh(t, e.interest)
    ensures Keys(Asked(t, e)) == Keys(t) + {(e.interest.name, e.interest.nonce)}
    ensures (e.interest.name, e.interest.nonce) !in Keys(t)
    ensures forall key :: key in Keys(t) ==> Asked(t, e)[key.0][key.1] == t[key.0][key.1]
  {
  }

  lemma AskHolds(t: Table, e: Event, face: FaceId)
    requires e.Ask?
    ensures |Held(Asked(t, e), face)|
         == |Held(t, face)| + (if Fresh(t, e.interest) && e.face == face then 1 else 0)
  {
    if Fresh(t, e.interest) {
      var key := (e.interest.name, e.interest.nonce);
      AskKeys(t, e);
      var gained := if e.face == face then {key} else {};
      assert Held(Asked(t, e), face) == Held(t, face) + gained;
    }
  }

  /** A face that is answered loses at least one record. */
  lemma AnswerReleases(t: Table, name: Name, now: Time, face: FaceId)
    ensures |Held(Answered(t, name), face)| + (if face in Waiting(t, name, now) then 1 else 0)
         <= |Held(t, face)|
  {
    var t' := Answered(t, name);
    SmallerCardinality(Held(t', face), Held(t, face));
    if face in Waiting(t, name, now) {
      var n, k := WaitingRecord(t, name, now, face);
      StrictlySmaller(Held(t', face), Held(t, face), (n, k));
    }
  }

  lemma PurgeReleases(t: Table, now: Time, face: FaceId)
    ensures |Held(Purged(t, now), face)| <= |Held(t, face)|
  {
    SmallerCardinality(Held(Purged(t, now), face), Held(t, face));
  }

  // ---- The table itself ---------------------------------------------------------------

  /** A table whose entries are answered except those still to do. */
  function AnsweredBut(t: Table, todo: set<Name>, name: Name): Table {
    map n | n in t && (n in todo || !(n <= name)) :: t[n]
  }

  lemma AnswerNext(t: Table, todo: set<Name>, n: Name, name: Name)
    requires todo <= t.Keys && n in todo
    ensures n in AnsweredBut(t, todo, name) && AnsweredBut(t, todo, name)[n] == t[n]
    ensures AnsweredBut(t, todo - {n}, name)
         == if n <= name then AnsweredBut(t, todo, name) - {n} else AnsweredBut(t, todo, name)
  {
  }

  /** The faces collected once all entries but those still to do have been answered. */
  ghost predicate Collecting(t: Table, todo: set<Name>, name: Name, now: Time, before: set<FaceId>, out: set<FaceId>) {
    before <= out <= before + Waiting(t, name, now)
    && forall n :: n in t && n !in todo && n <= name ==> Expecting(t[n], now) <= out
  }

  lemma CollectNext(t: Table, todo: set<Name>, n: Name, name: Name, now: Time, before: set<FaceId>, out: set<FaceId>)
    requires n in todo && n in t && Collecting(t, todo, name, now, before, out)
    ensures Collecting(t, todo - {n}, name, now, before, if n <= name then out + Expecting(t[n], now) else out)
  {
    if n <= name { assert Expecting(t[n], now) <= Waiting(t, name, now); }
  }

  lemma WaitingIsUnion(t: Table, name: Name, now: Time, before: set<FaceId>, out: set<FaceId>)
    requires Collecting(t, {}, name, now, before, out)
    ensures out == before + Waiting(t, name, now)
  {
    forall f | f in Waiting(t, name, now) ensures f in out {
      var n, k := WaitingRecord(t, name, now, f);
      assert f in Expecting(t[n], now);
    }
  }

  lemma AnswerRecorded(h: History, name: Name, now: Time)
    ensures Replay(h + [Answer(name, now)]) == Answered(Replay(h), name)
    ensures Chronological(h + [Answer(name, now)]) ==>
              forall f :: f in Waiting(Replay(h), name, now) <==> Owed(h, f, name, now)
  {
    ReplayExtend(h, Answer(name, now));
    if Chronological(h + [Answer(name, now)]) { DeliveryIsOwed(h, name, now); }
  }

  /** A table whose entries are purged except those still to do. */
  function PurgedBut(t: Table, todo: set<Name>, now: Time): Table {
    map n | n in t && (n in todo || Unexpired(t[n], now) != map[]) :: if n in todo then t[n] else Unexpired(t[n], now)
  }

  lemma PurgeNext(t: Table, todo: set<Name>, n: Name, now: Time)
    requires todo <= t.Keys && n in todo
    ensures n in PurgedBut(t, todo, now) && PurgedBut(t, todo, now)[n] == t[n]
    ensures PurgedBut(t, todo - {n}, now)
         == if Unexpired(t[n], now) == map[] then PurgedBut(t, todo, now) - {n}
            else PurgedBut(t, todo, now)[n := Unexpired(t[n], now)]
  {
  }

  /** The table. An entry is a nonce table; it is owned by the one name it is stored under. */
  class Pit {
    var entries: Table
    ghost var history: History

    /** The table is what the calls made on it so far amount to. */
    ghost predicate Explained()
      reads this
    {
      entries == Replay(history)
    }

    constructor ()
      ensures Explained() && history == [] && entries == map[]
    {
      entries := map[];
      history := [];
    }

    /** Inserts the record unless the nonce is already there. */
    static method AddNonce(records: NonceTable, nonce: Nonce, face: FaceId, expire: Time)
      returns (records': NonceTable, added: bool)
      ensures added <==> nonce !in records
      ensures records' == if added then records[nonce := FaceRecord(face, expire)] else records
    {
      if nonce !in records {
        return records[nonce := FaceRecord(face, expire)], true;
      }
      return records, false;
    }

    method AddInterest(face: FaceId, i: Interest, now: Time) returns (accepted: bool)
      modifies this
      ensures (old(Explained()) ==> Explained()) && history == old(history) + [Ask(face, i, now)]
      ensures entries == Asked(old(entries), Ask(face, i, now))
      ensures accepted == Fresh(old(entries), i)
      ensures accepted <==> !(i.name in old(entries) && i.nonce in old(entries)[i.name])
      ensures accepted ==> entries[i.name][i.nonce] == FaceRecord(face, now + i.lifetime)
    {
      ReplayExtend(history, Ask(face, i, now));
      var expire := now + i.lifetime;
      var records: NonceTable := map[];
      if i.name !in entries {
        records, accepted := AddNonce(records, i.nonce, face, expire);
        entries := entries[i.name := records];
      } else {
        records, accepted := AddNonce(entries[i.name], i.nonce, face, expire);
        entries := entries[i.name := records];
      }
      history := history + [Ask(face, i, now)];
    }

    /** The inner loop of `ConsumeInterestWithDataName`. */
    static method CollectFaces(records: NonceTable, now: Time, before: set<FaceId>) returns (out: set<FaceId>)
      ensures out == before + Expecting(records, now)
    {
      out := before;
      var todo := records.Keys;
      while todo != {}
        invariant todo <= records.Keys
        invariant before <= out <= before + Expecting(records, now)
        invariant forall k :: k in records && k !in todo && records[k].expire > now ==> records[k].face in out
        decreases |todo|
      {
        var k :| k in todo;
        todo := todo - {k};
        if records[k].expire > now {
          out := out + {records[k].face};
        }
      }
      assert forall f :: f in Expecting(records, now) ==> f in out;
    }

    method ConsumeInterestWithDataName(name: Name, now: Time, before: set<FaceId>) returns (out: set<FaceId>)
      modifies this
      ensures (old(Explained()) ==> Explained()) && history == old(history) + [Answer(name, now)]
      ensures entries == Answered(old(entries), name)
      ensures out == before + Waiting(old(entries), name, now)
      ensures old(Explained()) && Chronological(history) ==>
                forall f :: f in out <==> f in before || Owed(old(history), f, name, now)
    {
      ghost var t := entries;
      out := before;
      var todo := entries.Keys;
      while todo != {}
        invariant todo <= t.Keys
        invariant entries == AnsweredBut(t, todo, name)
        invariant Collecting(t, todo, name, now, before, out)
        invariant history == old(history)
        decreases |todo|
      {
        var n :| n in todo;
        AnswerNext(t, todo, n, name);
        CollectNext(t, todo, n, name, now, before, out);
        todo := todo - {n};
        if n <= name {
          out := CollectFaces(entries[n], now, out);
          entries := entries - {n};
        }
      }
      WaitingIsUnion(t, name, now, before, out);
      assert entries == Answered(t, name);
      AnswerRecorded(history, name, now);
      history := history + [Answer(name, now)];
    }

    /** The inner loop of `CleanUp`. */
    static method DropExpired(records: NonceTable, now: Time) returns (left: NonceTable)
      ensures left == Unexpired(records, now)
    {
      left := records;
      var todo := records.Keys;
      while todo != {}
        invariant todo <= left.Keys <= records.Keys
        invariant left == map k | k in records && (k in todo || records[k].expire >= now) :: records[k]
        decreases |todo|
      {
        var k :| k in todo;
        todo := todo - {k};
        if left[k].expire < now {
          left := left - {k};
        }
      }
    }

    method CleanUp(now: Time)
      modifies this
      ensures (old(Explained()) ==> Explained()) && history == old(history) + [Purge(now)]
      ensures entries == Purged(old(entries), now)
    {
      ghost var t := entries;
      var todo := entries.Keys;
      while todo != {}
        invariant todo <= t.Keys
        invariant entries == PurgedBut(t, todo, now)
        invariant history == old(history)
        decreases |todo|
      {
        var n :| n in todo;
        PurgeNext(t, todo, n, now);
        todo := todo - {n};
        var left := DropExpired(entries[n], now);
        if left == map[] {
          entries := entries - {n};
        } else {
          entries := entries[n := left];
        }
      }
      assert entries == Purged(t, now);
      ReplayExtend(history, Purge(now));
      history := history + [Purge(now)];
    }
  }
}
