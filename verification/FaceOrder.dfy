/** The order in which a set of face ids is walked. */
module FaceOrder {
  import opened Ndn

  ghost predicate IsLeast(m: FaceId, s: set<FaceId>) {
    m in s && forall f :: f in s ==> m <= f
  }

  lemma {:induction false} LeastBelow(s: set<FaceId>, x: FaceId) returns (m: FaceId)
    requires x in s
    ensures IsLeast(m, s)
    decreases s
  {
    if y :| y in s && y < x {
      m := LeastBelow(s - {x}, y);
      assert forall f :: f in s ==> f in s - {x} || f == x;
    } else {
      m := x;
    }
  }

  lemma Member<T>(s: set<T>) returns (x: T)
    requires s != {}
    ensures x in s
  {
    x :| x in s;
  }

  lemma LeastExists(s: set<FaceId>)
    ensures s == {} || exists m :: IsLeast(m, s)
  {
    if s != {} {
      var x := Member(s);
      var m := LeastBelow(s, x);
    }
  }

  ghost function Min(s: set<FaceId>): (m: FaceId)
    requires s != {}
    ensures IsLeast(m, s)
  {
    LeastExists(s);
    var m :| IsLeast(m, s);
    m
  }

  ghost predicate IsGreatest(m: FaceId, s: set<FaceId>) {
    m in s && forall f :: f in s ==> f <= m
  }

  lemma {:induction false} GreatestExists(s: set<FaceId>)
    requires s != {}
    ensures exists m :: IsGreatest(m, s)
    decreases |s|
  {
    var least := Min(s);
    var rest := s - {least};
    if rest == {} {
      assert s == {least};
      assert IsGreatest(least, s);
    } else {
      GreatestExists(rest);
      var m :| IsGreatest(m, rest);
      assert forall f :: f in s ==> f == least || f in rest;
      assert IsGreatest(m, s);
    }
  }

  ghost function Max(s: set<FaceId>): (m: FaceId)
    requires s != {}
    ensures IsGreatest(m, s)
  {
    GreatestExists(s);
    var m :| IsGreatest(m, s);
    m
  }

  /** The order in which a `std::set` is walked. */
  ghost function Ascending(s: set<FaceId>): seq<FaceId> {
    if s == {} then [] else [Min(s)] + Ascending(s - {Min(s)})
  }

  lemma {:induction false} AscendingElements(s: set<FaceId>)
    ensures forall f :: f in s <==> f in Ascending(s)
    ensures forall j, k :: 0 <= j < k < |Ascending(s)| ==> Ascending(s)[j] < Ascending(s)[k]
  {
    if s == {} {
    } else {
      var m, rest := Min(s), Ascending(s - {Min(s)});
      AscendingElements(s - {m});
      assert forall f :: f in s <==> f == m || f in s - {m};
      assert forall k :: 0 <= k < |rest| ==> rest[k] in s - {m};
    }
  }
}
