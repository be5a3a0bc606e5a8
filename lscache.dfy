/** The LSCache sample's `CCache`: a map from an item name to its
    sub-map of values and the time it was last touched, plus a "heap", a
    multimap from time stamps to item names kept in time order, which the
    garbage collector walks from the oldest end. Times are whole minutes
    and are passed in. */
module LSCache {
  import opened Common

  datatype Entry<V> = Entry(submap: map<string, V>, timestamp: int)

  /** One heap element: a time stamp and the item it was taken for. */
  datatype Stamp = Stamp(time: int, idx: string)

  datatype Cache<V> = Cache(entries: map<string, Entry<V>>, heap: seq<Stamp>, expiry: int, maxSize: int)

  /** The state the constructor leaves: two hours' expiry, no size limit. */
  function Initial<V>(): (c: Cache<V>)
    ensures c.entries == map[] && c.heap == [] && c.expiry == 120 && c.maxSize == -1
  {
    Cache(map[], [], 120, -1)
  }

  // ---------------------------------------------------------------
  // The heap as a multimap

  predicate Sorted(h: seq<Stamp>)
  {
    forall i, j :: 0 <= i < j < |h| ==> h[i].time <= h[j].time
  }

  /** Number of leading elements stamped no later than `t`: in a sorted
      heap, the upper bound of `t`'s equal range. */
  function UpperBound(h: seq<Stamp>, t: int): (k: nat)
    ensures k <= |h|
    ensures forall i :: 0 <= i < k ==> h[i].time <= t
    ensures k < |h| ==> h[k].time > t
  {
    if h == [] || h[0].time > t then 0 else 1 + UpperBound(h[1..], t)
  }

  /** `multimap::insert`: a new element goes after every element with an
      equal or earlier stamp. */
  function Insert(h: seq<Stamp>, s: Stamp): (r: seq<Stamp>)
  {
    var k := UpperBound(h, s.time);
    h[..k] + [s] + h[k..]
  }

  /** `r` is `h` with some elements left out, the others in their order. */
  predicate Subsequence(r: seq<Stamp>, h: seq<Stamp>)
    decreases |h|
  {
    if r == [] then true
    else if h == [] then false
    else (r[0] == h[0] && Subsequence(r[1..], h[1..])) || Subsequence(r, h[1..])
  }

  /** `multimap::erase(key)`: every element with stamp `t` goes, and the
      others stay, in their order. */
  function EraseTime(h: seq<Stamp>, t: int): (r: seq<Stamp>)
    ensures |r| <= |h|
    ensures forall x :: x in r <==> x in h && x.time != t
    ensures Subsequence(r, h)
  {
    if h == [] then []
    else if h[0].time == t then EraseTime(h[1..], t)
    else
      var rest := EraseTime(h[1..], t);
      assert ([h[0]] + rest)[1..] == rest;
      [h[0]] + rest
  }

  /** The item names the heap holds. */
  function IdxSet(h: seq<Stamp>): (s: set<string>)
  {
    set i | 0 <= i < |h| :: h[i].idx
  }

  predicate Distinct(h: seq<Stamp>)
  {
    forall i, j :: 0 <= i < j < |h| ==> h[i].idx != h[j].idx
  }

  /** What `GetValue` asserts and the class evidently intends: the heap
      holds, in time order, exactly one stamp per item, the item's own
      time stamp. */
  predicate Consistent<V>(c: Cache<V>)
  {
    Sorted(c.heap) && Distinct(c.heap) && IdxSet(c.heap) == c.entries.Keys &&
    (forall s :: s in c.heap ==> s.idx in c.entries && c.entries[s.idx].timestamp == s.time)
  }

  // ---------------------------------------------------------------
  // The operations as written

  /** `PutValue` as written: a new item gets a sub-map holding the one
      value; an existing one first has every heap element with its old
      stamp erased (whichever item it belongs to), then its stamp set and
      the value stored beside its other values; in both cases the new
      stamp is added to the heap. */
  function PutValueAsWritten<V>(c: Cache<V>, idx: string, key: string, val: V, now: int): (r: Cache<V>)
  {
    if idx !in c.entries then
      c.(entries := c.entries[idx := Entry(map[key := val], now)], heap := Insert(c.heap, Stamp(now, idx)))
    else
      var e := c.entries[idx];
      c.(entries := c.entries[idx := Entry(e.submap[key := val], now)],
         heap := Insert(EraseTime(c.heap, e.timestamp), Stamp(now, idx)))
  }

  datatype GetReply<V> = GetReply(cache: Cache<V>, result: Result<V>)

  /** `GetValue` as written: the item's stamp is refreshed in the map,
      not in the heap, before the key is looked up. */
  function GetValueAsWritten<V>(c: Cache<V>, idx: string, key: string, now: int): (r: GetReply<V>)
  {
    if idx !in c.entries then GetReply(c, Err("Item not found"))
    else
      var e := c.entries[idx];
      var c' := c.(entries := c.entries[idx := e.(timestamp := now)]);
      if key !in e.submap then GetReply(c', Err("key not found"))
      else GetReply(c', Ok(e.submap[key]))
  }

  /** `Remove` as written: the map entry goes, its heap stamp stays. */
  function RemoveAsWritten<V>(c: Cache<V>, idx: string): (r: Cache<V>)
  {
    c.(entries := c.entries - {idx})
  }

  /** How far the collector's iterator gets: past the first `skip`
      elements, then on while the next element is at least `expiry`
      minutes old (when `expiry` is not negative). */
  function ExpiredRun(h: seq<Stamp>, from: nat, now: int, expiry: int): (k: nat)
    requires from <= |h|
    ensures from <= k <= |h|
    decreases |h| - from
  {
    if expiry >= 0 && from < |h| && now - h[from].time >= expiry then ExpiredRun(h, from + 1, now, expiry)
    else from
  }

  /** The count of oldest elements a size limit removes. */
  function SizeSkip<V>(c: Cache<V>): (n: nat)
    ensures n <= |c.heap|
  {
    var over := |c.heap| - c.maxSize;
    if c.maxSize >= 0 && over > 0 then over else 0
  }

  function GcCut<V>(c: Cache<V>, now: int): (k: nat)
    ensures k <= |c.heap|
  {
    ExpiredRun(c.heap, SizeSkip(c), now, c.expiry)
  }

  /** `gc`: the items of the skipped prefix leave the map and the prefix
      leaves the heap. */
  function GcSpec<V>(c: Cache<V>, now: int): (r: Cache<V>)
  {
    var k := GcCut(c, now);
    c.(entries := c.entries - IdxSet(c.heap[..k]), heap := c.heap[k..])
  }

  // ---------------------------------------------------------------
  // Properties of the source as written

  /** `PutValue` on a new item stores a one-value sub-map stamped now and
      adds its stamp; on an existing item it keeps the other values,
      restamps it and replaces every heap element of its old stamp by the
      new stamp. */
  lemma PutValueAsWrittenRules<V>(c: Cache<V>, idx: string, key: string, val: V, now: int)
    ensures var r := PutValueAsWritten(c, idx, key, val, now);
      idx in r.entries && r.entries[idx].timestamp == now && r.entries[idx].submap[key] == val &&
      (forall other :: other != idx ==> (other in r.entries <==> other in c.entries)) &&
      (forall other :: other != idx && other in c.entries ==> r.entries[other] == c.entries[other]) &&
      (idx !in c.entries ==> r.entries[idx].submap == map[key := val] && r.heap == Insert(c.heap, Stamp(now, idx))) &&
      (idx in c.entries ==>
        (forall k :: k != key && k in c.entries[idx].submap ==>
          k in r.entries[idx].submap && r.entries[idx].submap[k] == c.entries[idx].submap[k]) &&
        r.heap == Insert(EraseTime(c.heap, c.entries[idx].timestamp), Stamp(now, idx)))
  {
  }

  /** `GetValue` reports a missing item and a missing key, returns the
      stored value otherwise, and changes only the item's map stamp. */
  lemma GetValueAsWrittenRules<V>(c: Cache<V>, idx: string, key: string, now: int)
    ensures var r := GetValueAsWritten(c, idx, key, now);
      (idx !in c.entries ==> r == GetReply(c, Err("Item not found"))) &&
      (idx in c.entries && key !in c.entries[idx].submap ==> r.result == Err("key not found")) &&
      (idx in c.entries && key in c.entries[idx].submap ==> r.result == Ok(c.entries[idx].submap[key])) &&
      (idx in c.entries ==>
        r.cache.heap == c.heap && r.cache.entries.Keys == c.entries.Keys &&
        r.cache.entries[idx] == c.entries[idx].(timestamp := now))
  {
  }

  /** Removing an item from a consistent cache leaves its stamp behind:
      the sizes `GetValue` asserts equal differ. */
  lemma RemoveAsWrittenBreaksCount<V>(val: V)
    ensures var c := PutValueAsWritten(Initial<V>(), "a", "k", val, 0);
      Consistent(c) && |RemoveAsWritten(c, "a").entries| == 0 && |RemoveAsWritten(c, "a").heap| == 1
  {
    var c := PutValueAsWritten(Initial<V>(), "a", "k", val, 0);
    assert c.heap == [Stamp(0, "a")];
    assert IdxSet(c.heap) == {"a"} by {
      assert c.heap[0].idx == "a";
    }
    assert RemoveAsWritten(c, "a").entries == map[];
  }

  /** Two items stamped with equal clock readings (equal whole minutes
      here) share a heap key: updating one erases the other's stamp too. */
  lemma SharedStampAsWritten<V>(val: V)
    ensures var c := PutValueAsWritten(PutValueAsWritten(Initial<V>(), "a", "k", val, 5), "b", "k", val, 5);
      var r := PutValueAsWritten(c, "a", "k", val, 6);
      |c.entries| == |c.heap| == 2 && |r.entries| == 2 && r.heap == [Stamp(6, "a")]
  {
    var c1 := PutValueAsWritten(Initial<V>(), "a", "k", val, 5);
    assert c1.heap == [Stamp(5, "a")];
    var c := PutValueAsWritten(c1, "b", "k", val, 5);
    assert c.heap == [Stamp(5, "a"), Stamp(5, "b")];
    assert c.entries.Keys == {"a", "b"};
    var r := PutValueAsWritten(c, "a", "k", val, 6);
    assert EraseTime(c.heap, 5) == [];
    assert r.entries.Keys == {"a", "b"};
  }

  /** A read refreshes the map stamp only, so a later update erases
      nothing from the heap and the item ends up stamped twice. */
  lemma GetThenPutAsWritten<V>(val: V)
    ensures var c := PutValueAsWritten(Initial<V>(), "a", "k", val, 0);
      var g := GetValueAsWritten(c, "a", "k", 1).cache;
      var r := PutValueAsWritten(g, "a", "k", val, 2);
      |r.entries| == 1 && r.heap == [Stamp(0, "a"), Stamp(2, "a")]
  {
    var c := PutValueAsWritten(Initial<V>(), "a", "k", val, 0);
    assert c.heap == [Stamp(0, "a")];
    var g := GetValueAsWritten(c, "a", "k", 1).cache;
    assert g.heap == [Stamp(0, "a")];
    assert EraseTime(g.heap, 1) == [Stamp(0, "a")];
    var r := PutValueAsWritten(g, "a", "k", val, 2);
    assert r.entries.Keys == {"a"};
  }

  // ---------------------------------------------------------------
  // Corrected operations: every change of an item's stamp moves its one
  // heap element

  /** Position of the item's element in the heap, if any. */
  function FindIdx(h: seq<Stamp>, idx: string): (p: Option<nat>)
    ensures p.Some? ==> p.value < |h| && h[p.value].idx == idx
    ensures p.None? ==> idx !in IdxSet(h)
  {
    if h == [] then None
    else if h[0].idx == idx then Some(0)
    else match FindIdx(h[1..], idx)
      case None => (assert IdxSet(h) == {h[0].idx} + IdxSet(h[1..]) by { SplitFirst(h); } None)
      case Some(p) => Some(p + 1)
  }

  /** The heap without the item's element. */
  function Unstamp(h: seq<Stamp>, idx: string): (r: seq<Stamp>)
  {
    match FindIdx(h, idx)
    case None => h
    case Some(p) => h[..p] + h[p + 1..]
  }

  /** Moving the item's element to a new stamp. */
  function Restamp(h: seq<Stamp>, idx: string, now: int): (r: seq<Stamp>)
  {
    Insert(Unstamp(h, idx), Stamp(now, idx))
  }

  /** `PutValue`, corrected: an existing item's own element is moved. */
  function PutValueSpec<V>(c: Cache<V>, idx: string, key: string, val: V, now: int): (r: Cache<V>)
  {
    var sub := if idx in c.entries then c.entries[idx].submap[key := val] else map[key := val];
    c.(entries := c.entries[idx := Entry(sub, now)], heap := Restamp(c.heap, idx, now))
  }

  /** `GetValue`, corrected: the refreshed stamp is moved in the heap too. */
  function GetValueSpec<V>(c: Cache<V>, idx: string, key: string, now: int): (r: GetReply<V>)
  {
    if idx !in c.entries then GetReply(c, Err("Item not found"))
    else
      var e := c.entries[idx];
      var c' := c.(entries := c.entries[idx := e.(timestamp := now)], heap := Restamp(c.heap, idx, now));
      if key !in e.submap then GetReply(c', Err("key not found"))
      else GetReply(c', Ok(e.submap[key]))
  }

  /** `Remove`, corrected: the item's element leaves the heap too. */
  function RemoveSpec<V>(c: Cache<V>, idx: string): (r: Cache<V>)
  {
    c.(entries := c.entries - {idx}, heap := Unstamp(c.heap, idx))
  }

  // ---------------------------------------------------------------
  // Heap lemmas

  lemma SplitFirst(h: seq<Stamp>)
    requires h != []
    ensures IdxSet(h) == {h[0].idx} + IdxSet(h[1..])
  {
    forall x | x in IdxSet(h) ensures x in {h[0].idx} + IdxSet(h[1..]) {
      var i :| 0 <= i < |h| && h[i].idx == x;
      if i > 0 {
        assert h[1..][i - 1].idx == x;
      }
    }
    forall x | x in IdxSet(h[1..]) ensures x in IdxSet(h) {
      var i :| 0 <= i < |h[1..]| && h[1..][i].idx == x;
      assert h[i + 1].idx == x;
    }
  }

  /** The names of a heap are those of any prefix and the matching suffix. */
  lemma SplitAt(h: seq<Stamp>, k: nat)
    requires k <= |h|
    ensures IdxSet(h) == IdxSet(h[..k]) + IdxSet(h[k..])
  {
    forall x | x in IdxSet(h) ensures x in IdxSet(h[..k]) + IdxSet(h[k..]) {
      var i :| 0 <= i < |h| && h[i].idx == x;
      if i < k {
        assert h[..k][i].idx == x;
      } else {
        assert h[k..][i - k].idx == x;
      }
    }
    forall x | x in IdxSet(h[k..]) ensures x in IdxSet(h) {
      var i :| 0 <= i < |h[k..]| && h[k..][i].idx == x;
      assert h[i + k].idx == x;
    }
    forall x | x in IdxSet(h[..k]) ensures x in IdxSet(h) {
      var i :| 0 <= i < |h[..k]| && h[..k][i].idx == x;
      assert h[i].idx == x;
    }
  }

  /** A prefix one element longer has one more name. */
  lemma PrefixSnoc(h: seq<Stamp>, i: nat)
    requires i < |h|
    ensures IdxSet(h[..i + 1]) == IdxSet(h[..i]) + {h[i].idx}
  {
    SplitAt(h[..i + 1], i);
    assert h[..i + 1][..i] == h[..i];
    assert h[..i + 1][i..] == [h[i]];
    SplitFirst([h[i]]);
  }

  /** Distinct names: the heap holds as many elements as names. */
  lemma {:induction false} DistinctCard(h: seq<Stamp>)
    requires Distinct(h)
    ensures |IdxSet(h)| == |h|
  {
    if h != [] {
      SplitFirst(h);
      DistinctCard(h[1..]);
      forall j | 0 <= j < |h[1..]| ensures h[1..][j].idx != h[0].idx {
        assert h[1..][j] == h[j + 1];
      }
      assert h[0].idx !in IdxSet(h[1..]);
    }
  }

  /** What `GetValue` asserts holds in a consistent cache. */
  lemma ConsistentSizes<V>(c: Cache<V>)
    requires Consistent(c)
    ensures |c.entries| == |c.heap|
  {
    DistinctCard(c.heap);
    assert |c.entries| == |c.entries.Keys|;
  }

  /** Inserting puts the new element at its upper bound, the others around it in order. */
  lemma InsertElements(h: seq<Stamp>, s: Stamp)
    ensures var r := Insert(h, s); var k := UpperBound(h, s.time);
      |r| == |h| + 1 && r[k] == s &&
      (forall i :: 0 <= i < k ==> r[i] == h[i]) &&
      (forall i :: k < i < |r| ==> r[i] == h[i - 1])
  {
  }

  /** Inserting keeps a heap sorted and distinct when the name is new, and adds that name. */
  lemma InsertKeeps(h: seq<Stamp>, s: Stamp)
    requires Sorted(h) && Distinct(h) && s.idx !in IdxSet(h)
    ensures var r := Insert(h, s);
      Sorted(r) && Distinct(r) && IdxSet(r) == IdxSet(h) + {s.idx} &&
      (forall x :: x in r <==> x in h || x == s)
  {
    InsertSorted(h, s);
    InsertDistinct(h, s);
    InsertNames(h, s);
  }

  /** Inserting at the upper bound keeps the heap sorted. */
  lemma InsertSorted(h: seq<Stamp>, s: Stamp)
    requires Sorted(h)
    ensures Sorted(Insert(h, s))
  {
    var r := Insert(h, s);
    var k := UpperBound(h, s.time);
    InsertElements(h, s);
    forall i, j | 0 <= i < j < |r| ensures r[i].time <= r[j].time {
      if j < k {
      } else if j == k {
      } else if i < k {
        assert h[i].time <= h[j - 1].time;
      } else if i == k {
        assert k < |h| && h[k].time > s.time;
        assert h[k].time <= h[j - 1].time;
      }
    }
  }

  /** Inserting an element with a new name keeps the names distinct. */
  lemma InsertDistinct(h: seq<Stamp>, s: Stamp)
    requires Distinct(h) && s.idx !in IdxSet(h)
    ensures Distinct(Insert(h, s))
  {
    var r := Insert(h, s);
    var k := UpperBound(h, s.time);
    InsertElements(h, s);
    forall i, j | 0 <= i < j < |r| ensures r[i].idx != r[j].idx {
      if i == k {
        assert h[j - 1].idx in IdxSet(h);
      } else if j == k {
        assert h[i].idx in IdxSet(h);
      }
    }
  }

  /** Inserting adds exactly the new element's name. */
  lemma InsertNames(h: seq<Stamp>, s: Stamp)
    ensures var r := Insert(h, s);
      IdxSet(r) == IdxSet(h) + {s.idx} && (forall x :: x in r <==> x in h || x == s)
  {
    var k := UpperBound(h, s.time);
    var a, b := h[..k], h[k..];
    assert h == a + b;
    assert Insert(h, s) == a + [s] + b;
    ConcatNames(a, b, s);
  }

  /** The names and elements of `a + [s] + b`. */
  lemma ConcatNames(a: seq<Stamp>, b: seq<Stamp>, s: Stamp)
    ensures IdxSet(a + [s] + b) == IdxSet(a + b) + {s.idx}
    ensures forall x :: x in a + [s] + b <==> x in a + b || x == s
  {
    var r := a + [s] + b;
    var k := |a|;
    SplitAt(a + b, k);
    assert (a + b)[..k] == a && (a + b)[k..] == b;
    SplitAt(r, k);
    assert r[..k] == a && r[k..] == [s] + b;
    SplitFirst([s] + b);
    assert ([s] + b)[1..] == b;
  }

  /** Where the element at position `i` of the heap without position
      `p` came from. */
  function Shift(p: nat, i: nat): (j: nat)
  {
    if i < p then i else i + 1
  }

  /** The elements after taking out position `p`, by their old positions. */
  lemma RemoveAtElements(h: seq<Stamp>, p: nat)
    requires p < |h|
    ensures var r := h[..p] + h[p + 1..];
      |r| == |h| - 1 && forall i :: 0 <= i < |r| ==> Shift(p, i) < |h| && r[i] == h[Shift(p, i)]
  {
  }

  /** Taking out the element at `p` keeps order and distinctness, and
      drops exactly that element's name. */
  lemma RemoveAtKeeps(h: seq<Stamp>, p: nat)
    requires Sorted(h) && Distinct(h) && p < |h|
    ensures var r := h[..p] + h[p + 1..];
      Sorted(r) && Distinct(r) && IdxSet(r) == IdxSet(h) - {h[p].idx} &&
      (forall x :: x in r ==> x in h && x.idx != h[p].idx)
  {
    RemoveAtOrder(h, p);
    RemoveAtNames(h, p);
  }

  /** Taking out one element keeps order and distinctness. */
  lemma RemoveAtOrder(h: seq<Stamp>, p: nat)
    requires Sorted(h) && Distinct(h) && p < |h|
    ensures var r := h[..p] + h[p + 1..]; Sorted(r) && Distinct(r)
  {
    var r := h[..p] + h[p + 1..];
    RemoveAtElements(h, p);
    assert Sorted(r) by {
      forall i, j | 0 <= i < j < |r| ensures r[i].time <= r[j].time {
        assert Shift(p, i) < Shift(p, j);
      }
    }
    assert Distinct(r) by {
      forall i, j | 0 <= i < j < |r| ensures r[i].idx != r[j].idx {
        assert Shift(p, i) < Shift(p, j);
      }
    }
  }

  /** Taking out the element at `p` drops exactly its name. */
  lemma RemoveAtNames(h: seq<Stamp>, p: nat)
    requires Distinct(h) && p < |h|
    ensures var r := h[..p] + h[p + 1..];
      IdxSet(r) == IdxSet(h) - {h[p].idx} && (forall x :: x in r ==> x in h && x.idx != h[p].idx)
  {
    RemoveAtElements(h, p);
    RemoveAtMembers(h, p);
    RemoveAtIdxSet(h, p);
  }

  /** The elements left after taking out position `p` are elements of
      the heap, none of them with that element's name. */
  lemma RemoveAtMembers(h: seq<Stamp>, p: nat)
    requires Distinct(h) && p < |h|
    requires var r := h[..p] + h[p + 1..];
      |r| == |h| - 1 && forall i :: 0 <= i < |r| ==> Shift(p, i) < |h| && r[i] == h[Shift(p, i)]
    ensures forall x :: x in h[..p] + h[p + 1..] ==> x in h && x.idx != h[p].idx
  {
    var r := h[..p] + h[p + 1..];
    forall x | x in r ensures x in h && x.idx != h[p].idx {
      var i :| 0 <= i < |r| && r[i] == x;
      assert h[Shift(p, i)] == x;
      assert Shift(p, i) != p;
    }
  }

  /** Taking out position `p` drops exactly that element's name. */
  lemma RemoveAtIdxSet(h: seq<Stamp>, p: nat)
    requires Distinct(h) && p < |h|
    requires var r := h[..p] + h[p + 1..];
      |r| == |h| - 1 && forall i :: 0 <= i < |r| ==> Shift(p, i) < |h| && r[i] == h[Shift(p, i)]
    ensures IdxSet(h[..p] + h[p + 1..]) == IdxSet(h) - {h[p].idx}
  {
    var r := h[..p] + h[p + 1..];
    forall x | x in IdxSet(r) ensures x in IdxSet(h) - {h[p].idx} {
      var i :| 0 <= i < |r| && r[i].idx == x;
      assert h[Shift(p, i)].idx == x;
      assert Shift(p, i) != p;
    }
    forall x | x in IdxSet(h) - {h[p].idx} ensures x in IdxSet(r) {
      var i :| 0 <= i < |h| && h[i].idx == x;
      var i' := if i < p then i else i - 1;
      assert Shift(p, i') == i;
      assert r[i'].idx == x;
    }
  }

  /** Removing an item's element keeps the heap sorted and distinct and drops its name. */
  lemma UnstampKeeps(h: seq<Stamp>, idx: string)
    requires Sorted(h) && Distinct(h)
    ensures var r := Unstamp(h, idx);
      Sorted(r) && Distinct(r) && IdxSet(r) == IdxSet(h) - {idx} &&
      (forall x :: x in r ==> x in h && x.idx != idx)
  {
    match FindIdx(h, idx)
    case None =>
      forall x | x in h ensures x.idx != idx {
        var i :| 0 <= i < |h| && h[i] == x;
        assert h[i].idx in IdxSet(h);
      }
    case Some(p) =>
      RemoveAtKeeps(h, p);
  }

  /** Moving an item's element to a new stamp keeps the heap sorted, distinct and its names. */
  lemma RestampKeeps(h: seq<Stamp>, idx: string, now: int)
    requires Sorted(h) && Distinct(h)
    ensures var r := Restamp(h, idx, now);
      Sorted(r) && Distinct(r) && IdxSet(r) == IdxSet(h) + {idx} &&
      (forall x :: x in r <==> x == Stamp(now, idx) || (x in Unstamp(h, idx)))
  {
    UnstampKeeps(h, idx);
    InsertKeeps(Unstamp(h, idx), Stamp(now, idx));
  }

  // ---------------------------------------------------------------
  // The corrected operations keep the heap consistent

  lemma InitialConsistent<V>()
    ensures Consistent(Initial<V>())
  {
  }

  /** The corrected `PutValue` keeps the cache consistent. */
  lemma PutValueConsistent<V>(c: Cache<V>, idx: string, key: string, val: V, now: int)
    requires Consistent(c)
    ensures Consistent(PutValueSpec(c, idx, key, val, now))
  {
    RestampKeeps(c.heap, idx, now);
    UnstampKeeps(c.heap, idx);
  }

  /** The corrected `GetValue` keeps the cache consistent. */
  lemma GetValueConsistent<V>(c: Cache<V>, idx: string, key: string, now: int)
    requires Consistent(c)
    ensures Consistent(GetValueSpec(c, idx, key, now).cache)
  {
    RestampKeeps(c.heap, idx, now);
    UnstampKeeps(c.heap, idx);
  }

  /** A found item: the refreshed cache is consistent, with as many heap
      elements as items, and the reply is the stored value or "key not
      found". */
  lemma GetValueFound<V>(c: Cache<V>, idx: string, key: string, now: int, c': Cache<V>)
    requires Consistent(c) && idx in c.entries
    requires c'.entries == c.entries[idx := c.entries[idx].(timestamp := now)] && c'.heap == Restamp(c.heap, idx, now)
    requires c'.expiry == c.expiry && c'.maxSize == c.maxSize
    ensures Consistent(c') && |c'.entries| == |c'.heap|
    ensures GetValueSpec(c, idx, key, now) ==
      GetReply(c', if key in c.entries[idx].submap then Ok(c.entries[idx].submap[key]) else Err("key not found"))
  {
    GetValueConsistent(c, idx, key, now);
    ConsistentSizes(c');
  }

  /** The corrected `Remove` keeps the cache consistent. */
  lemma RemoveConsistent<V>(c: Cache<V>, idx: string)
    requires Consistent(c)
    ensures Consistent(RemoveSpec(c, idx))
  {
    UnstampKeeps(c.heap, idx);
  }

  /** The collector keeps the cache consistent. */
  lemma GcConsistent<V>(c: Cache<V>, now: int)
    requires Consistent(c)
    ensures Consistent(GcSpec(c, now))
  {
    DropPrefixKeeps(c.heap, GcCut(c, now));
  }

  /** Dropping a prefix of a distinct heap drops exactly the prefix's
      names; the elements left keep their names out of the prefix. */
  lemma DropPrefixKeeps(h: seq<Stamp>, k: nat)
    requires Distinct(h) && k <= |h|
    ensures IdxSet(h[k..]) == IdxSet(h) - IdxSet(h[..k])
    ensures forall s :: s in h[k..] ==> s in h && s.idx !in IdxSet(h[..k])
  {
    SplitAt(h, k);
    forall x | x in IdxSet(h[k..]) ensures x !in IdxSet(h[..k]) {
      var j :| 0 <= j < |h[k..]| && h[k..][j].idx == x;
      forall i | 0 <= i < k ensures h[..k][i].idx != x {
        assert h[..k][i] == h[i] && h[k..][j] == h[k + j];
      }
    }
    forall s | s in h[k..] ensures s in h && s.idx !in IdxSet(h[..k]) {
      var j :| 0 <= j < |h[k..]| && h[k..][j] == s;
      assert h[k + j] == s;
      assert h[k..][j].idx in IdxSet(h[k..]);
    }
  }

  /** The collector: with a size limit the oldest elements beyond it go
      first; then, with an expiry, every following element at least
      `expiry` minutes old; the first younger element stops it. The
      removed items are exactly those of the removed elements, so a
      consistent cache ends no larger than its limit. */
  lemma GcRules<V>(c: Cache<V>, now: int)
    ensures var k := GcCut(c, now); var r := GcSpec(c, now);
      SizeSkip(c) <= k && r.heap == c.heap[k..] && r.entries.Keys == c.entries.Keys - IdxSet(c.heap[..k]) &&
      (c.expiry < 0 ==> k == SizeSkip(c)) &&
      (c.expiry >= 0 ==> forall i :: SizeSkip(c) <= i < k ==> now - c.heap[i].time >= c.expiry) &&
      (c.expiry >= 0 && k < |c.heap| ==> now - c.heap[k].time < c.expiry) &&
      (c.maxSize >= 0 ==> |r.heap| <= c.maxSize) &&
      r.expiry == c.expiry && r.maxSize == c.maxSize
  {
    ExpiredRunRules(c.heap, SizeSkip(c), now, c.expiry);
  }

  /** The expired run stops at the first element younger than `expiry`. */
  lemma {:induction false} ExpiredRunRules(h: seq<Stamp>, from: nat, now: int, expiry: int)
    requires from <= |h|
    ensures var k := ExpiredRun(h, from, now, expiry);
      (expiry < 0 ==> k == from) &&
      (forall i :: from <= i < k ==> now - h[i].time >= expiry) &&
      (expiry >= 0 && k < |h| ==> now - h[k].time < expiry)
    decreases |h| - from
  {
    if expiry >= 0 && from < |h| && now - h[from].time >= expiry {
      ExpiredRunRules(h, from + 1, now, expiry);
    }
  }

  /** `gc`'s first half: the iterator goes past the elements beyond the
      size limit, then past the expired ones. */
  method GcIterator<V>(c: Cache<V>, now: int) returns (it: nat)
    ensures it == GcCut(c, now)
  {
    var h := c.heap;
    it := 0;
    var elementsToBeRemoved := |h| - c.maxSize;
    if c.maxSize >= 0 && elementsToBeRemoved > 0 {
      it := elementsToBeRemoved;
    }
    assert it == SizeSkip(c);
    if c.expiry >= 0 {
      while it < |h| && now - h[it].time >= c.expiry
        invariant it <= |h|
        invariant ExpiredRun(h, it, now, c.expiry) == GcCut(c, now)
        decreases |h| - it
      {
        it := it + 1;
      }
    }
  }

  /** `gc`'s second half: each element the iterator passed takes its item
      out of the map. */
  method EraseItems<V>(entries: map<string, Entry<V>>, h: seq<Stamp>, it: nat) returns (m: map<string, Entry<V>>)
    requires it <= |h|
    ensures m == entries - IdxSet(h[..it])
  {
    m := entries;
    var it2 := 0;
    while it2 < it
      invariant 0 <= it2 <= it
      invariant m == entries - IdxSet(h[..it2])
    {
      PrefixSnoc(h, it2);
      m := m - {h[it2].idx};
      it2 := it2 + 1;
    }
  }

  // ---------------------------------------------------------------
  // The object

  class CCache<V> {
    var entries: map<string, Entry<V>>
    var heap: seq<Stamp>
    var expiry: int
    var maxSize: int

    function State(): (c: Cache<V>)
      reads this
    {
      Cache(entries, heap, expiry, maxSize)
    }

    predicate Valid()
      reads this
    {
      Consistent(State())
    }

    /** The constructor's defaults; starting the collector thread is not
        part of the model. */
    constructor ()
      ensures State() == Initial<V>() && Valid()
    {
      entries := map[];
      heap := [];
      expiry := 120;
      maxSize := -1;
    }

    /** `GetValue`, with the sizes it asserts proved equal. */
    method GetValue(idx: string, key: string, now: int) returns (r: Result<V>)
      requires Valid()
      modifies this
      ensures Valid()
      ensures GetReply(State(), r) == GetValueSpec(old(State()), idx, key, now)
    {
      ghost var c0 := State();
      if idx !in entries {
        return Err("Item not found");
      }
      var e := entries[idx];
      entries := entries[idx := e.(timestamp := now)];
      heap := Restamp(heap, idx, now);
      GetValueFound(c0, idx, key, now, State());
      assert |entries| == |heap|;
      if key !in e.submap {
        return Err("key not found");
      }
      r := Ok(e.submap[key]);
    }

    method GetCount() returns (n: int)
      requires Valid()
      ensures n == |entries| == |heap|
    {
      ConsistentSizes(State());
      n := |entries|;
    }

    method Remove(idx: string)
      requires Valid()
      modifies this
      ensures Valid()
      ensures State() == RemoveSpec(old(State()), idx)
    {
      RemoveConsistent(State(), idx);
      entries := entries - {idx};
      heap := Unstamp(heap, idx);
    }

    method PutValue(idx: string, key: string, val: V, now: int)
      requires Valid()
      modifies this
      ensures Valid()
      ensures State() == PutValueSpec(old(State()), idx, key, val, now)
    {
      PutValueConsistent(State(), idx, key, val, now);
      if idx !in entries {
        entries := entries[idx := Entry(map[key := val], now)];
      } else {
        var e := entries[idx];
        entries := entries[idx := Entry(e.submap[key := val], now)];
      }
      heap := Restamp(heap, idx, now);
    }

    method GetExpiry() returns (minutes: int)
      ensures minutes == expiry
    {
      minutes := expiry;
    }

    /** Setting the expiry also wakes the collector, which the model
        leaves to the caller of `Gc`. */
    method PutExpiry(minutes: int)
      requires Valid()
      modifies this`expiry
      ensures Valid() && expiry == minutes
    {
      expiry := minutes;
    }

    method GetMaxSize() returns (x: int)
      ensures x == maxSize
    {
      x := maxSize;
    }

    method PutMaxSize(x: int)
      requires Valid()
      modifies this`maxSize
      ensures Valid() && maxSize == x
    {
      maxSize := x;
    }

    /** `gc`: find how far the iterator gets, erase the items of the
        elements it passed, then the elements. */
    method Gc(now: int)
      requires Valid()
      modifies this
      ensures Valid()
      ensures State() == GcSpec(old(State()), now)
    {
      var c := State();
      var it := GcIterator(c, now);
      var m := EraseItems(entries, heap, it);
      entries, heap := m, heap[it..];
      assert State() == GcSpec(c, now);
      GcConsistent(c, now);
    }
  }
}
