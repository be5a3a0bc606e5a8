/** `stl_enumeration_t` of stl_enum.h: a COM enumerator (`IEnumXXX`)
    over an STL container, with a cursor `it_` that `Next` and `Skip`
    advance and `Reset` moves back to the first element. The container
    is a sequence, the cursor an index into it. Converting an element
    into the out-array may throw; the indices whose conversion throws
    are fixed up front. */
module StlEnum {
  import opened Common

  const S_OK := 0
  const S_FALSE := 1
  const E_FAIL := 0x8000_4005
  const E_POINTER := 0x8000_4003

  /** Whether converting some element in positions it..it+k-1 throws. */
  predicate ThrowsWithin(failing: set<nat>, it: nat, k: nat)
  {
    exists j :: j in failing && it <= j < it + k
  }

  datatype NextReply<T> = NextReply(cursor: nat, hr: int, fetched: nat, elts: seq<T>)

  /** `Next(celt, rgelt, pceltFetched)`: the fetched count is zeroed,
      a null `rgelt` gives E_POINTER, then up to `celt` elements are
      converted from the cursor on. If a conversion throws, the cursor is
      put back, the out-array cleared and E_FAIL returned with the count
      still 0. */
  function NextSpec<T>(c: seq<T>, failing: set<nat>, it: nat, celt: nat, rgeltGiven: bool): (r: NextReply<T>)
    requires it <= |c|
  {
    if !rgeltGiven then NextReply(it, E_POINTER, 0, [])
    else
      var k := Min(celt, |c| - it);
      if ThrowsWithin(failing, it, k) then NextReply(it, E_FAIL, 0, [])
      else NextReply(it + k, if k == celt then S_OK else S_FALSE, k, c[it..it + k])
  }

  /** With k elements left, `Next(celt)` fetches min(celt, k) of them in
      order and moves the cursor past them, returning S_OK exactly when
      it fetched all `celt` and S_FALSE otherwise; a null array or a
      throwing conversion leaves the cursor where it was. */
  lemma NextRules<T>(c: seq<T>, failing: set<nat>, it: nat, celt: nat, rgeltGiven: bool)
    requires it <= |c|
    ensures var r := NextSpec(c, failing, it, celt, rgeltGiven);
      r.fetched <= celt && r.cursor <= |c| && |r.elts| == r.fetched &&
      (!rgeltGiven ==> r.hr == E_POINTER && r.cursor == it && r.fetched == 0) &&
      (rgeltGiven && !ThrowsWithin(failing, it, Min(celt, |c| - it)) ==>
        r.fetched == Min(celt, |c| - it) && r.cursor == it + r.fetched &&
        r.elts == c[it..it + r.fetched] &&
        (r.hr == S_OK <==> r.fetched == celt) && (r.hr == S_FALSE <==> r.fetched < celt)) &&
      (r.hr == E_FAIL ==> r.cursor == it && r.fetched == 0 && r.elts == [])
  {
  }

  /** Fetching `a` elements and then `b` more gives the same elements,
      in the same order, as fetching `a + b` at once. */
  lemma NextThenNext<T>(c: seq<T>, it: nat, a: nat, b: nat)
    requires it <= |c|
    ensures var r1 := NextSpec(c, {}, it, a, true);
      var r2 := NextSpec(c, {}, r1.cursor, b, true);
      var r := NextSpec(c, {}, it, a + b, true);
      r1.elts + r2.elts == r.elts && r2.cursor == r.cursor && r1.fetched + r2.fetched == r.fetched
  {
    var k1 := Min(a, |c| - it);
    var k2 := Min(b, |c| - it - k1);
    assert Min(a + b, |c| - it) == k1 + k2;
    assert c[it..it + k1] + c[it + k1..it + k1 + k2] == c[it..it + k1 + k2];
  }

  /** Once a fetch comes back short the enumerator is exhausted: every
      later fetch of at least one element returns S_FALSE with nothing. */
  lemma ShortFetchExhausts<T>(c: seq<T>, failing: set<nat>, it: nat, celt: nat, more: nat)
    requires it <= |c| && more > 0
    requires NextSpec(c, failing, it, celt, true).hr == S_FALSE
    ensures var r1 := NextSpec(c, failing, it, celt, true);
      r1.cursor == |c| &&
      NextSpec(c, failing, r1.cursor, more, true) == NextReply(|c|, S_FALSE, 0, [])
  {
  }

  class StlEnumeration<T> {
    const container: seq<T>
    /** Container positions whose conversion into the out-array throws. */
    const failing: set<nat>
    var it: nat

    predicate Valid()
      reads this
    {
      it <= |container|
    }

    /** The constructor puts the cursor at `begin()`. */
    constructor (c: seq<T>, failing0: set<nat>)
      ensures container == c && failing == failing0 && it == 0 && Valid()
    {
      container := c;
      failing := failing0;
      it := 0;
    }

    method Next(celt: nat, rgeltGiven: bool) returns (hr: int, fetched: nat, elts: seq<T>)
      requires Valid()
      modifies this`it
      ensures Valid()
      ensures NextReply(it, hr, fetched, elts) == NextSpec(container, failing, old(it), celt, rgeltGiven)
    {
      fetched, elts := 0, [];
      if !rgeltGiven {
        hr := E_POINTER;
        return;
      }
      var i := 0;
      var backup := it;
      while i < celt && it < |container|
        invariant it == backup + i && it <= |container| && i <= celt
        invariant elts == container[backup..it]
        invariant !ThrowsWithin(failing, backup, i)
        decreases celt - i
      {
        if it in failing {
          assert ThrowsWithin(failing, backup, Min(celt, |container| - backup));
          it := backup;
          elts := [];
          hr := E_FAIL;
          return;
        }
        elts := elts + [container[it]];
        i, it := i + 1, it + 1;
      }
      fetched := i;
      hr := if i == celt then S_OK else S_FALSE;
    }

    method Reset() returns (hr: int)
      modifies this`it
      ensures it == 0 && hr == S_OK && Valid()
    {
      it := 0;
      hr := S_OK;
    }

    /** `Skip(celt)` steps the cursor `celt` times without looking for
        the end; stepping past the end is undefined, hence the
        precondition. */
    method Skip(celt: nat) returns (hr: int)
      requires Valid() && it + celt <= |container|
      modifies this`it
      ensures it == old(it) + celt && hr == S_OK && Valid()
    {
      var n := celt;
      while n > 0
        invariant 0 <= n <= celt && it == old(it) + (celt - n)
      {
        n := n - 1;
        it := it + 1;
      }
      hr := S_OK;
    }

    /** `Clone` builds a fresh enumerator over the same container; it
        starts at the beginning, not at this enumerator's cursor. */
    method Clone() returns (hr: int, e: StlEnumeration<T>)
      ensures fresh(e) && e.container == container && e.failing == failing && e.it == 0 && e.Valid()
      ensures hr == S_OK
    {
      e := new StlEnumeration(container, failing);
      hr := S_OK;
    }
  }
}
