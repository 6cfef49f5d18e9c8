/** Cutting a byte stream into elements, for any reader that recognises an element exactly
    when the buffer holds all of it. */
module Framing {
  import opened Ndn

  type Bytes = seq<Byte>

  /** Returns the size of the element at the front of the buffer, if it is complete. */
  type Reader = r: Bytes -> Option<nat> | SelfDelimiting(r) witness NeverComplete

  function NeverComplete(b: Bytes): Option<nat> { None }

  ghost predicate SelfDelimiting(r: Bytes -> Option<nat>) {
    forall b: Bytes, n: nat :: PrefixLaw(r, b, n)
  }

  /** What the reader says of the first `n` bytes, given what it says of all of them. */
  ghost predicate PrefixLaw(r: Bytes -> Option<nat>, b: Bytes, n: nat) {
    n <= |b| ==>
      match r(b)
      case None => r(b[..n]) == None
      case Some(size) => 0 < size <= |b| && r(b[..n]) == if size <= n then Some(size) else None
  }

  /** A byte string that is exactly one element. */
  predicate IsElement(r: Reader, b: Bytes) {
    r(b) == Some(|b|)
  }

  function Flatten(parts: seq<Bytes>): Bytes {
    if parts == [] then [] else parts[0] + Flatten(parts[1..])
  }

  /** The complete elements at the front of a stream, and what is left behind them. */
  function Elements(r: Reader, s: Bytes): seq<Bytes>
    decreases |s|
  {
    match r(s)
    case None => []
    case Some(n) => assert PrefixLaw(r, s, 0); [s[..n]] + Elements(r, s[n..])
  }

  function Rest(r: Reader, s: Bytes): Bytes
    decreases |s|
  {
    match r(s)
    case None => s
    case Some(n) => assert PrefixLaw(r, s, 0); Rest(r, s[n..])
  }

  lemma NothingInNothing(r: Reader)
    ensures r([]) == None && Elements(r, []) == [] && Rest(r, []) == []
  {
    assert PrefixLaw(r, [], 0);
  }

  lemma ReaderIsStable(r: Reader, b: Bytes, more: Bytes)
    requires r(b).Some?
    ensures r(b + more) == r(b) && 0 < r(b).value <= |b|
  {
    assert PrefixLaw(r, b + more, |b|) && PrefixLaw(r, b, |b|);
    assert (b + more)[..|b|] == b;
  }

  lemma FirstElement(r: Reader, s: Bytes) returns (head: Bytes, tail: Bytes)
    requires r(s).Some?
    ensures 0 < r(s).value <= |s| && |tail| < |s|
    ensures s == head + tail && head == s[..r(s).value] && tail == s[r(s).value..]
    ensures IsElement(r, head) && Elements(r, s) == [head] + Elements(r, tail) && Rest(r, s) == Rest(r, tail)
  {
    var n := r(s).value;
    assert PrefixLaw(r, s, 0) && PrefixLaw(r, s, n);
    head, tail := s[..n], s[n..];
  }

  lemma FlattenCons(e: Bytes, es: seq<Bytes>, rest: Bytes)
    ensures Flatten([e] + es) + rest == e + (Flatten(es) + rest)
  {
    assert ([e] + es)[1..] == es;
  }

  /** Nothing is lost or invented: the elements followed by the rest are the stream. */
  lemma {:induction false} Reassembles(r: Reader, s: Bytes)
    ensures Flatten(Elements(r, s)) + Rest(r, s) == s
    decreases |s|
  {
    if r(s).Some? {
      var head, tail := FirstElement(r, s);
      Reassembles(r, tail);
      FlattenCons(head, Elements(r, tail), Rest(r, tail));
    }
  }

  /** Every part is exactly one element, and no complete element is left behind. */
  lemma {:induction false} PartsAreElements(r: Reader, s: Bytes)
    ensures forall e :: e in Elements(r, s) ==> IsElement(r, e)
    ensures r(Rest(r, s)).None?
    decreases |s|
  {
    if r(s).Some? {
      var head, tail := FirstElement(r, s);
      PartsAreElements(r, tail);
    }
  }

  /** Parsing may stop at any point and resume on the left-over bytes. */
  lemma {:induction false} ParseResumes(r: Reader, s: Bytes, more: Bytes)
    ensures Elements(r, s + more) == Elements(r, s) + Elements(r, Rest(r, s) + more)
    ensures Rest(r, s + more) == Rest(r, Rest(r, s) + more)
    decreases |s|
  {
    if r(s).Some? {
      var n := r(s).value;
      ReaderIsStable(r, s, more);
      assert (s + more)[..n] == s[..n] && (s + more)[n..] == s[n..] + more;
      ParseResumes(r, s[n..], more);
    }
  }

  /** Concatenated elements parse back to themselves. */
  lemma {:induction false} ElementsOfFlatten(r: Reader, es: seq<Bytes>)
    requires forall e :: e in es ==> IsElement(r, e)
    ensures Elements(r, Flatten(es)) == es && Rest(r, Flatten(es)) == []
  {
    if es == [] {
      NothingInNothing(r);
    } else {
      var tail := Flatten(es[1..]);
      assert IsElement(r, es[0]);
      ReaderIsStable(r, es[0], tail);
      assert (es[0] + tail)[..|es[0]|] == es[0] && (es[0] + tail)[|es[0]|..] == tail;
      ElementsOfFlatten(r, es[1..]);
    }
  }
}
