/** The forwarding table: prefix -> faces, with match-all lookup. */
module FibTable {
  import opened Ndn

  type Table = map<Name, set<FaceId>>

  /** No entry is ever left behind with an empty face set. */
  ghost predicate NoEmptyEntry(t: Table) {
    forall p :: p in t ==> t[p] != {}
  }

  function WithRoute(t: Table, prefix: Name, face: FaceId): Table {
    t[prefix := (if prefix in t then t[prefix] else {}) + {face}]
  }

  function Without(t: Table, face: FaceId): Table {
    map p | p in t && t[p] - {face} != {} :: t[p] - {face}
  }

  /** The meaning of a lookup: every face of every entry whose prefix matches the name. */
  function Faces(t: Table, name: Name): set<FaceId> {
    set p, f | p in t && p <= name && f in t[p] :: f
  }

  function WithRoutes(t: Table, prefixes: seq<Name>, face: FaceId): Table
    decreases |prefixes|
  {
    if prefixes == [] then t else WithRoutes(WithRoute(t, prefixes[0], face), prefixes[1..], face)
  }

  ghost predicate Unused(t: Table, face: FaceId) {
    forall p :: p in t ==> face !in t[p]
  }

  lemma RouteAddsExactly(t: Table, prefix: Name, face: FaceId, name: Name)
    ensures Faces(WithRoute(t, prefix, face), name)
         == Faces(t, name) + (if prefix <= name then {face} else {})
    ensures NoEmptyEntry(t) ==> NoEmptyEntry(WithRoute(t, prefix, face))
  {
    var t' := WithRoute(t, prefix, face);
    forall f ensures f in Faces(t', name) <==> f in Faces(t, name) || (prefix <= name && f == face) {
      if f in Faces(t, name) {
        var p :| p in t && p <= name && f in t[p];
        assert p in t' && f in t'[p];
      }
      if prefix <= name && f == face { assert prefix in t' && f in t'[prefix]; }
    }
  }

  /** After a face is cleaned up, every lookup is the old one minus that face. */
  lemma CleanUpLookup(t: Table, face: FaceId, name: Name)
    ensures Faces(Without(t, face), name) == Faces(t, name) - {face}
    ensures NoEmptyEntry(Without(t, face)) && Unused(Without(t, face), face)
  {
    var t' := Without(t, face);
    forall f | f in Faces(t, name) && f != face ensures f in Faces(t', name) {
      var p :| p in t && p <= name && f in t[p];
      assert f in t[p] - {face};
      assert p in t' && f in t'[p];
    }
  }

  lemma CleanUpUndoesRoute(t: Table, prefix: Name, face: FaceId)
    requires NoEmptyEntry(t)
    ensures Without(WithRoute(t, prefix, face), face) == Without(t, face)
  {
    var t' := WithRoute(t, prefix, face);
    assert forall p :: p in t && p != prefix ==> t'[p] == t[p];
    assert t'[prefix] - {face} == (if prefix in t then t[prefix] - {face} else {});
  }

  /** Registering any prefixes for a face the table does not know and then removing the
      face restores the table exactly. */
  lemma RoutesRoundTrip(t: Table, prefixes: seq<Name>, face: FaceId)
    requires NoEmptyEntry(t) && Unused(t, face)
    ensures Without(WithRoutes(t, prefixes, face), face) == t
  {
    RoutesThenCleanUp(t, prefixes, face);
    assert forall p :: p in t ==> t[p] - {face} == t[p];
  }

  lemma {:induction false} RoutesThenCleanUp(t: Table, prefixes: seq<Name>, face: FaceId)
    requires NoEmptyEntry(t)
    ensures Without(WithRoutes(t, prefixes, face), face) == Without(t, face)
    decreases |prefixes|
  {
    if prefixes == [] {
    } else {
      CleanUpUndoesRoute(t, prefixes[0], face);
      RoutesThenCleanUp(WithRoute(t, prefixes[0], face), prefixes[1..], face);
    }
  }

  /** A table from which the face is gone except in the entries still to do. */
  function WithoutBut(t: Table, todo: set<Name>, face: FaceId): Table {
    map p | p in t && (p in todo || t[p] - {face} != {}) :: if p in todo then t[p] else t[p] - {face}
  }

  lemma WithoutNext(t: Table, todo: set<Name>, p: Name, face: FaceId)
    requires todo <= t.Keys && p in todo
    ensures var now, next := WithoutBut(t, todo, face), WithoutBut(t, todo - {p}, face);
            p in now && now[p] == t[p]
            && next == if t[p] - {face} == {} then now[p := {}] - {p} else now[p := t[p] - {face}]
  {
  }

  class Fib {
    var table: Table

    constructor ()
      ensures table == map[]
    {
      table := map[];
    }

    method AddRoute(prefix: Name, face: FaceId)
      modifies this
      ensures table == WithRoute(old(table), prefix, face)
    {
      if prefix !in table {
        table := table[prefix := {}];
      }
      table := table[prefix := table[prefix] + {face}];
    }

    /** Erases while iterating, in an arbitrary order. */
    method CleanUp(face: FaceId)
      modifies this
      ensures table == Without(old(table), face)
    {
      ghost var before := table;
      var todo := table.Keys;
      while todo != {}
        invariant todo <= before.Keys
        invariant table == WithoutBut(before, todo, face)
        decreases |todo|
      {
        var p :| p in todo;
        WithoutNext(before, todo, p, face);
        todo := todo - {p};
        table := table[p := table[p] - {face}];
        if table[p] == {} {
          table := table - {p};
        }
      }
    }

    /** Tries every prefix of the name, longest first, and never stops at a match. */
    method LookUp(name: Name, before: set<FaceId>) returns (out: set<FaceId>)
      ensures out == before + Faces(table, name)
    {
      out := before;
      var i := |name|;
      while i >= 0
        invariant -1 <= i <= |name|
        invariant before <= out
        invariant forall k :: i < k <= |name| && name[..k] in table ==> table[name[..k]] <= out
        invariant forall f :: f in out ==> f in before || f in Faces(table, name)
      {
        var prefix := name[..i];
        if prefix in table {
          out := out + table[prefix];
        }
        i := i - 1;
      }
      forall f | f in Faces(table, name) ensures f in out {
        var p :| p in table && p <= name && f in table[p];
        var k := |p|;
        assert name[..k] == p;
      }
      ghost var matched := Faces(table, name);
      assert forall f :: f in out <==> f in before + matched;
    }
  }
}
