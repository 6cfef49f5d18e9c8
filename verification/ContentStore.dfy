/** The content store: a FIFO queue of Data bounded by its total size in bytes. */
module ContentStore {
  import opened Ndn
  import opened Subsequences

  datatype CacheEntry = CacheEntry(data: Data, expire: Time) {
    function Size(): nat { |data.wire| }
  }

  type Queue = seq<CacheEntry>

  function EntryFor(d: Data, now: Time): CacheEntry {
    CacheEntry(d, now + d.freshness)
  }

  predicate Matches(e: CacheEntry, i: Interest, now: Time) {
    i.name <= e.data.name && (!i.mustBeFresh || e.expire > now)
  }

  /** The oldest match. */
  function Lookup(q: Queue, i: Interest, now: Time): Option<Data> {
    if q == [] then None
    else if Matches(q[0], i, now) then Some(q[0].data)
    else Lookup(q[1..], i, now)
  }

  /** In bytes. */
  function Total(q: Queue): nat {
    if q == [] then 0 else |q[0].data.wire| + Total(q[1..])
  }

  function Evict(q: Queue, room: nat): Queue {
    if Total(q) <= room then q else Evict(q[1..], room)
  }

  function Inserted(q: Queue, limit: nat, e: CacheEntry): Queue {
    if e.Size() > limit then q else Evict(q, limit - e.Size()) + [e]
  }

  /** The sequence of calls to `Insert`, replayed on an empty queue. */
  function Replay(entries: Queue, limit: nat): Queue {
    if entries == [] then []
    else Inserted(Replay(entries[..|entries| - 1], limit), limit, entries[|entries| - 1])
  }

  /** The entries that were ever eligible: those no larger than the limit. */
  function Eligible(entries: Queue, limit: nat): Queue {
    if entries == [] then []
    else
      Eligible(entries[..|entries| - 1], limit)
      + (if |entries[|entries| - 1].data.wire| <= limit then [entries[|entries| - 1]] else [])
  }

  /** The reference: `h[k..]` fits the limit and no longer suffix of `h` does. */
  ghost predicate LongestFitting(h: Queue, k: nat, limit: nat) {
    k <= |h| && Total(h[k..]) <= limit && forall j: nat :: j < k ==> TooLong(h, j, limit)
  }

  lemma {:induction false} TotalAppend(q: Queue, r: Queue)
    ensures Total(q + r) == Total(q) + Total(r)
  {
    if q == [] {
      assert q + r == r;
    } else {
      assert (q + r)[1..] == q[1..] + r;
      TotalAppend(q[1..], r);
    }
  }

  /** Evicting keeps the longest suffix that leaves enough room. */
  lemma {:induction false} EvictIsSuffix(h: Queue, j: nat, room: nat) returns (k: nat)
    requires j <= |h|
    ensures j <= k <= |h| && Evict(h[j..], room) == h[k..] && Total(h[k..]) <= room
    ensures forall m: nat :: j <= m < k ==> TooLong(h, m, room)
    decreases |h| - j
  {
    if Total(h[j..]) <= room {
      k := j;
    } else {
      assert h[j..][1..] == h[j + 1..];
      k := EvictIsSuffix(h, j + 1, room);
    }
  }

  lemma SuffixGrows(h: Queue, e: CacheEntry, j: nat)
    requires j <= |h|
    ensures (h + [e])[j..] == h[j..] + [e]
    ensures Total((h + [e])[j..]) == Total(h[j..]) + e.Size()
  {
    assert (h + [e])[j..] == h[j..] + [e];
    TotalAppend(h[j..], [e]);
  }

  ghost predicate TooLong(h: Queue, j: nat, limit: nat)
    requires j <= |h|
  {
    Total(h[j..]) > limit
  }

  lemma WindowStep(h: Queue, k: nat, limit: nat, e: CacheEntry) returns (k': nat)
    requires LongestFitting(h, k, limit) && e.Size() <= limit
    ensures LongestFitting(h + [e], k', limit)
    ensures Inserted(h[k..], limit, e) == (h + [e])[k'..]
  {
    k' := EvictIsSuffix(h, k, limit - e.Size());
    SuffixGrows(h, e, k');
    forall j: nat | j < k' ensures TooLong(h + [e], j, limit) {
      if j < k { assert TooLong(h, j, limit); }
      assert TooLong(h, j, limit - e.Size());
      SuffixGrows(h, e, j);
    }
  }

  /** The queue is an exact window: the longest suffix, among the insertions that were
      eligible, whose total size fits the limit. */
  lemma {:induction false} CacheIsWindow(entries: Queue, limit: nat) returns (k: nat)
    ensures LongestFitting(Eligible(entries, limit), k, limit)
    ensures Replay(entries, limit) == Eligible(entries, limit)[k..]
  {
    if entries == [] {
      k := 0;
    } else {
      var before, e := entries[..|entries| - 1], entries[|entries| - 1];
      k := CacheIsWindow(before, limit);
      if e.Size() <= limit {
        k := WindowStep(Eligible(before, limit), k, limit, e);
      } else {
        assert Eligible(entries, limit) == Eligible(before, limit);
      }
    }
  }

  lemma {:induction false} LookupIsOldest(q: Queue, i: Interest, now: Time)
    ensures Lookup(q, i, now).None? <==> forall k :: 0 <= k < |q| ==> !Matches(q[k], i, now)
    ensures Lookup(q, i, now).Some? ==>
              exists k :: 0 <= k < |q| && Matches(q[k], i, now) && Lookup(q, i, now).value == q[k].data
                          && forall j :: 0 <= j < k ==> !Matches(q[j], i, now)
  {
    if q != [] && !Matches(q[0], i, now) {
      LookupIsOldest(q[1..], i, now);
      assert forall k :: 0 < k < |q| ==> q[k] == q[1..][k - 1];
      if Lookup(q, i, now).Some? {
        var k :| 0 <= k < |q| - 1 && Matches(q[1..][k], i, now) && Lookup(q[1..], i, now).value == q[1..][k].data
                 && forall j :: 0 <= j < k ==> !Matches(q[1..][j], i, now);
        assert Matches(q[k + 1], i, now);
        assert forall j :: 0 <= j < k + 1 ==> !Matches(q[j], i, now);
      }
    }
  }

  /** What the store answers is the oldest match in the window of its insertion history. */
  lemma AnswerIsOldestInWindow(entries: Queue, limit: nat, i: Interest, now: Time) returns (k: nat, m: nat)
    ensures LongestFitting(Eligible(entries, limit), k, limit)
    ensures Replay(entries, limit) == Eligible(entries, limit)[k..]
    ensures var h := Eligible(entries, limit);
            match Lookup(Replay(entries, limit), i, now)
            case None => forall j :: k <= j < |h| ==> !Matches(h[j], i, now)
            case Some(d) => k <= m < |h| && Matches(h[m], i, now) && h[m].data == d
                            && forall j :: k <= j < m ==> !Matches(h[j], i, now)
  {
    var h, q := Eligible(entries, limit), Replay(entries, limit);
    k := CacheIsWindow(entries, limit);
    LookupIsOldest(q, i, now);
    assert forall j :: k <= j < |h| ==> h[j] == q[j - k];
    m := k;
    if Lookup(q, i, now).Some? {
      var a :| 0 <= a < |q| && Matches(q[a], i, now) && Lookup(q, i, now).value == q[a].data
               && forall j :: 0 <= j < a ==> !Matches(q[j], i, now);
      m := k + a;
    }
  }

  function Unexpired(q: Queue, now: Time): Queue {
    if q == [] then []
    else (if q[0].expire >= now then [q[0]] else []) + Unexpired(q[1..], now)
  }

  lemma {:induction false} UnexpiredAppend(q: Queue, e: CacheEntry, now: Time)
    ensures Unexpired(q + [e], now) == Unexpired(q, now) + (if e.expire >= now then [e] else [])
  {
    if q == [] {
      assert q + [e] == [e];
    } else {
      assert (q + [e])[1..] == q[1..] + [e];
      UnexpiredAppend(q[1..], e, now);
    }
  }

  /** A cleanup at `now` leaves exactly the entries that expire then or later, in order. */
  lemma {:induction false} UnexpiredExactly(q: Queue, now: Time, e: CacheEntry)
    ensures multiset(Unexpired(q, now))[e] == if e.expire >= now then multiset(q)[e] else 0
    ensures IsSubsequence(Unexpired(q, now), q)
  {
    if q == [] {
    } else {
      var before, last := q[..|q| - 1], q[|q| - 1];
      assert q == before + [last];
      UnexpiredExactly(before, now, e);
      UnexpiredAppend(before, last, now);
      SubsequenceGrows(Unexpired(before, now), before, last);
      assert Unexpired(before, now) + [] == Unexpired(before, now);
    }
  }

  lemma {:induction false} TotalWithout(q: Queue, k: nat)
    requires k < |q|
    ensures Total(q[..k] + q[k + 1..]) == Total(q) - q[k].Size()
  {
    assert q == q[..k] + ([q[k]] + q[k + 1..]);
    TotalAppend(q[..k], [q[k]] + q[k + 1..]);
    TotalAppend(q[..k], q[k + 1..]);
  }

  /** The cleanup loop has kept `k` of the first `seen` entries; it looks at one more. */
  lemma OneMoreSeen(q: Queue, before: Queue, k: nat, seen: nat, now: Time)
    requires k < |q| && seen <= |before|
    requires q[..k] == Unexpired(before[..seen], now) && q[k..] == before[seen..]
    ensures seen < |before|
    ensures var rest := if q[k].expire < now then q[..k] + q[k + 1..] else q;
            var k' := if q[k].expire < now then k else k + 1;
            rest[..k'] == Unexpired(before[..seen + 1], now) && rest[k'..] == before[seen + 1..]
  {
    assert q[k] == q[k..][0] == before[seen];
    assert before[..seen + 1] == before[..seen] + [q[k]];
    UnexpiredAppend(before[..seen], q[k], now);
    assert q[k..][1..] == q[k + 1..] && before[seen..][1..] == before[seen + 1..];
  }

  class CacheManager {
    var queue: Queue
    var count: int
    const limit: nat

    /** The calls to `Insert` so far. */
    ghost var inserted: Queue

    ghost predicate Valid()
      reads this
    {
      count == Total(queue) <= limit
    }

    /** Holds as long as `CleanUp` is never scheduled, which is how the node uses the store. */
    ghost predicate IsWindow()
      reads this
    {
      queue == Replay(inserted, limit)
    }

    constructor (limit: nat)
      ensures Valid() && IsWindow() && queue == [] && inserted == [] && this.limit == limit
    {
      this.limit := limit;
      queue, count, inserted := [], 0, [];
    }

    method FindMatchingData(i: Interest, now: Time) returns (out: Option<Data>)
      ensures out == Lookup(queue, i, now)
      ensures out.None? ==>
                forall k :: 0 <= k < |queue| ==>
                  !(i.name <= queue[k].data.name && (i.mustBeFresh ==> queue[k].expire > now))
    {
      LookupIsOldest(queue, i, now);
      var k := 0;
      while k < |queue|
        invariant 0 <= k <= |queue|
        invariant Lookup(queue, i, now) == Lookup(queue[k..], i, now)
      {
        if Matches(queue[k], i, now) {
          return Some(queue[k].data);
        }
        assert queue[k..][1..] == queue[k + 1..];
        k := k + 1;
      }
      return None;
    }

    method Insert(d: Data, now: Time)
      requires Valid()
      modifies this
      ensures Valid()
      ensures queue == Inserted(old(queue), limit, EntryFor(d, now))
      ensures inserted == old(inserted) + [CacheEntry(d, now + d.freshness)]
      ensures old(IsWindow()) ==> IsWindow()
    {
      var size := |d.wire|;
      var entry := EntryFor(d, now);
      inserted := inserted + [entry];
      assert inserted[..|inserted| - 1] == old(inserted);
      if size > limit {
        return;
      }
      while count + size > limit
        invariant count == Total(queue)
        invariant inserted == old(inserted) + [entry]
        invariant Evict(queue, limit - size) == Evict(old(queue), limit - size)
        decreases |queue|
      {
        var front := queue[0].Size();
        queue := queue[1..];
        count := count - front;
      }
      TotalAppend(queue, [entry]);
      queue := queue + [entry];
      count := count + entry.Size();
    }

    /** Keeps the byte count exact; it is what breaks the window. */
    method CleanUp(now: Time)
      requires Valid()
      modifies this
      ensures Valid() && queue == Unexpired(old(queue), now) && inserted == old(inserted)
    {
      ghost var before := queue;
      var k := 0;
      ghost var seen := 0;
      while k < |queue|
        invariant 0 <= k <= |queue| && seen <= |before|
        invariant queue[..k] == Unexpired(before[..seen], now) && queue[k..] == before[seen..]
        invariant count == Total(queue) <= limit
        invariant inserted == old(inserted)
        decreases |queue| - k
      {
        OneMoreSeen(queue, before, k, seen, now);
        if queue[k].expire < now {
          TotalWithout(queue, k);
          count := count - queue[k].Size();
          queue := queue[..k] + queue[k + 1..];
        } else {
          k := k + 1;
        }
        seen := seen + 1;
      }
      assert before[..seen] == before;
      assert queue[..k] == queue;
    }
  }
}
