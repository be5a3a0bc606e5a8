/** The older `stl_enumeration_t` of enum.h, and the STL-style iterators
    `variant_iterator` and `itf_iterator` that walk an enumerator one
    element at a time. */
module LegacyEnum {
  import opened Common
  import opened StlEnum

  datatype LegacyReply<T> = LegacyReply(cursor: nat, hr: int, fetched: Option<nat>, elts: seq<T>)

  /** enum.h's `Next`: no null check on `rgelt`, and `*pceltFetched` is
      written only once the loop has finished without a throw (None: the
      caller's variable is left as it was). */
  function LegacyNextSpec<T>(c: seq<T>, failing: set<nat>, it: nat, celt: nat): (r: LegacyReply<T>)
    requires it <= |c|
  {
    var k := Min(celt, |c| - it);
    if ThrowsWithin(failing, it, k) then LegacyReply(it, E_FAIL, None, [])
    else LegacyReply(it + k, if k == celt then S_OK else S_FALSE, Some(k), c[it..it + k])
  }

  /** Given an out-array, the old `Next` moves the cursor, fetches and
      answers exactly as stl_enum.h's does; they differ only in the
      fetched count after a throw, which the old one does not write. */
  lemma LegacyAgreesWithStl<T>(c: seq<T>, failing: set<nat>, it: nat, celt: nat)
    requires it <= |c|
    ensures var o := LegacyNextSpec(c, failing, it, celt);
      var n := NextSpec(c, failing, it, celt, true);
      o.cursor == n.cursor && o.hr == n.hr && o.elts == n.elts &&
      (o.hr != E_FAIL ==> o.fetched == Some(n.fetched)) &&
      (o.hr == E_FAIL ==> o.fetched.None? && n.fetched == 0) &&
      (o.hr == S_OK <==> n.fetched == celt && !ThrowsWithin(failing, it, Min(celt, |c| - it)))
  {
  }

  class LegacyEnumeration<T> {
    const container: seq<T>
    const failing: set<nat>
    var it: nat

    predicate Valid()
      reads this
    {
      it <= |container|
    }

    constructor (c: seq<T>, failing0: set<nat>)
      ensures container == c && failing == failing0 && it == 0 && Valid()
    {
      container := c;
      failing := failing0;
      it := 0;
    }

    method Next(celt: nat) returns (hr: int, fetched: Option<nat>, elts: seq<T>)
      requires Valid()
      modifies this`it
      ensures Valid()
      ensures LegacyReply(it, hr, fetched, elts) == LegacyNextSpec(container, failing, old(it), celt)
    {
      fetched, elts := None, [];
      var i := 0;
      var backup := it;
      while i < celt && it < |container|
        invariant it == backup + i && it <= |container| && i <= celt
        invariant elts == container[backup..it]
        invariant !ThrowsWithin(failing, backup, i)
        decreases celt - i
      {
        if it in failing {
          assert ThrowsWithin(failing, backup, Min(celt, |container| - backup));
          it := backup;
          elts := [];
          hr := E_FAIL;
          return;
        }
        elts := elts + [container[it]];
        i, it := i + 1, it + 1;
      }
      fetched := Some(i);
      hr := if i == celt then S_OK else S_FALSE;
    }

    method Reset() returns (hr: int)
      modifies this`it
      ensures it == 0 && hr == S_OK && Valid()
    {
      it := 0;
      hr := S_OK;
    }

    method Skip(celt: nat) returns (hr: int)
      requires Valid() && it + celt <= |container|
      modifies this`it
      ensures it == old(it) + celt && hr == S_OK && Valid()
    {
      var n := celt;
      while n > 0
        invariant 0 <= n <= celt && it == old(it) + (celt - n)
      {
        n := n - 1;
        it := it + 1;
      }
      hr := S_OK;
    }

    method Clone() returns (hr: int, e: LegacyEnumeration<T>)
      ensures fresh(e) && e.container == container && e.failing == failing && e.it == 0 && e.Valid()
      ensures hr == S_OK
    {
      e := new LegacyEnumeration(container, failing);
      hr := S_OK;
    }
  }

  predicate FailedHr(hr: int)
  {
    hr >= 0x8000_0000
  }

  /** `variant_iterator`: holds the enumerator until a fetch comes back
      empty, then holds null, which is what the end iterator holds. */
  class VariantIterator<T> {
    var enumerator: LegacyEnumeration?<T>
    /** `ce_`, the current element; None when it is empty. */
    var current: Option<T>

    predicate Valid()
      reads this, enumerator
    {
      enumerator != null ==> enumerator.Valid()
    }

    /** The default constructor: the end iterator. */
    constructor End()
      ensures enumerator == null && current.None? && Valid()
    {
      enumerator := null;
      current := None;
    }

    /** `next()`: fetch one element; a fetch of none drops the
        enumerator; a failed HRESULT is raised. */
    method Advance() returns (r: Result<()>)
      requires Valid()
      modifies this, enumerator
      ensures enumerator == null || enumerator == old(enumerator)
      ensures Valid()
      ensures old(enumerator) == null ==> r == Ok(()) && enumerator == null && current == old(current)
      ensures old(enumerator) != null ==>
        var o := LegacyNextSpec(old(enumerator.container), old(enumerator.failing), old(enumerator.it), 1);
        old(enumerator).it == o.cursor &&
        (FailedHr(o.hr) ==> r.Err? && current.None? && enumerator == old(enumerator)) &&
        (!FailedHr(o.hr) && o.fetched == Some(0) ==> r == Ok(()) && enumerator == null && current.None?) &&
        (!FailedHr(o.hr) && o.fetched != Some(0) ==> r == Ok(()) && enumerator == old(enumerator) && current == Some(o.elts[0]))
    {
      if enumerator == null {
        return Ok(());
      }
      current := None;
      var hr, fetched, elts := enumerator.Next(1);
      if FailedHr(hr) {
        return Err("enumerator Next failed");
      }
      if fetched == Some(0) {
        enumerator := null;
      } else {
        current := Some(elts[0]);
      }
      r := Ok(());
    }

    /** The initialiser list of `variant_iterator(e)`: it holds the enumerator
        and no current element yet. */
    constructor Over(e: LegacyEnumeration<T>)
      requires e.Valid()
      ensures enumerator == e && current.None? && Valid()
    {
      enumerator := e;
      current := None;
    }

    /** `variant_iterator(e)`: hold the enumerator and fetch its first remaining
        element; a failed fetch is raised out of the constructor. */
    static method Create(e: LegacyEnumeration<T>) returns (r: Result<VariantIterator<T>>)
      requires e.Valid()
      modifies e
      ensures e.Valid()
      ensures var o := LegacyNextSpec(e.container, e.failing, old(e.it), 1);
        e.it == o.cursor &&
        (r.Err? <==> FailedHr(o.hr)) &&
        (r.Ok? ==> fresh(r.value) && r.value.Valid()) &&
        (r.Ok? && o.fetched == Some(0) ==> r.value.enumerator == null && r.value.current.None?) &&
        (r.Ok? && o.fetched != Some(0) ==> r.value.enumerator == e && r.value.current == Some(o.elts[0]))
    {
      var i := new VariantIterator.Over(e);
      var a := i.Advance();
      if a.Err? {
        return Err(a.msg);
      }
      r := Ok(i);
    }

    /** `operator!=`: only a comparison with the end iterator is
        supported, and it tells whether this one is not at the end. */
    function NotEqual(v: VariantIterator<T>): (r: Result<bool>)
      reads this, v
      ensures r.Err? <==> v.enumerator != null
      ensures r.Ok? ==> (r.value <==> enumerator != null)
    {
      if v.enumerator != null then Err("variant_iterator comparison does not work")
      else Ok(enumerator != null)
    }
  }

  /** `itf_iterator`: as `variant_iterator`, and it also drops the
      current interface pointer when the enumeration ends. The cast of
      the fetched element (`try_cast`) is the element itself here. */
  class ItfIterator<T> {
    var enumerator: LegacyEnumeration?<T>
    /** `p_`, the current interface pointer; None when null. */
    var current: Option<T>

    predicate Valid()
      reads this, enumerator
    {
      enumerator != null ==> enumerator.Valid()
    }

    constructor End()
      ensures enumerator == null && current.None? && Valid()
    {
      enumerator := null;
      current := None;
    }

    method Advance() returns (r: Result<()>)
      requires Valid()
      modifies this, enumerator
      ensures enumerator == null || enumerator == old(enumerator)
      ensures Valid()
      ensures old(enumerator) == null ==> r == Ok(()) && enumerator == null && current == old(current)
      ensures old(enumerator) != null ==>
        var o := LegacyNextSpec(old(enumerator.container), old(enumerator.failing), old(enumerator.it), 1);
        old(enumerator).it == o.cursor &&
        (FailedHr(o.hr) ==> r.Err? && current == old(current) && enumerator == old(enumerator)) &&
        (!FailedHr(o.hr) && o.fetched == Some(0) ==> r == Ok(()) && enumerator == null && current.None?) &&
        (!FailedHr(o.hr) && o.fetched != Some(0) ==> r == Ok(()) && enumerator == old(enumerator) && current == Some(o.elts[0]))
    {
      if enumerator == null {
        return Ok(());
      }
      var hr, fetched, elts := enumerator.Next(1);
      if FailedHr(hr) {
        return Err("enumerator Next failed");
      }
      if fetched == Some(0) {
        enumerator := null;
        current := None;
      } else {
        current := Some(elts[0]);
      }
      r := Ok(());
    }

    /** The initialiser list of `itf_iterator(e)`: it holds the enumerator
        and no current element yet. */
    constructor Over(e: LegacyEnumeration<T>)
      requires e.Valid()
      ensures enumerator == e && current.None? && Valid()
    {
      enumerator := e;
      current := None;
    }

    /** `itf_iterator(e)`: hold the enumerator and fetch its first remaining
        element; a failed fetch is raised out of the constructor. */
    static method Create(e: LegacyEnumeration<T>) returns (r: Result<ItfIterator<T>>)
      requires e.Valid()
      modifies e
      ensures e.Valid()
      ensures var o := LegacyNextSpec(e.container, e.failing, old(e.it), 1);
        e.it == o.cursor &&
        (r.Err? <==> FailedHr(o.hr)) &&
        (r.Ok? ==> fresh(r.value) && r.value.Valid()) &&
        (r.Ok? && o.fetched == Some(0) ==> r.value.enumerator == null && r.value.current.None?) &&
        (r.Ok? && o.fetched != Some(0) ==> r.value.enumerator == e && r.value.current == Some(o.elts[0]))
    {
      var i := new ItfIterator.Over(e);
      var a := i.Advance();
      if a.Err? {
        return Err(a.msg);
      }
      r := Ok(i);
    }

    function NotEqual(v: ItfIterator<T>): (r: Result<bool>)
      reads this, v
      ensures r.Err? <==> v.enumerator != null
      ensures r.Ok? ==> (r.value <==> enumerator != null)
    {
      if v.enumerator != null then Err("itf_iterator comparison does not work")
      else Ok(enumerator != null)
    }
  }

  /** Walking an enumerator one element at a time from cursor `it`
      visits the remaining elements in order, and a fetch at the end
      comes back empty, which is what ends the iterators. */
  lemma {:induction false} OneAtATime<T>(c: seq<T>, it: nat)
    requires it <= |c|
    ensures it == |c| ==> LegacyNextSpec(c, {}, it, 1).fetched == Some(0)
    ensures it < |c| ==> LegacyNextSpec(c, {}, it, 1) == LegacyReply(it + 1, S_OK, Some(1), [c[it]])
    ensures forall k :: it <= k <= |c| ==> LegacyNextSpec(c, {}, it, k - it).elts == c[it..k]
  {
    forall k | it <= k <= |c|
      ensures LegacyNextSpec(c, {}, it, k - it).elts == c[it..k]
    {
      assert Min(k - it, |c| - it) == k - it;
      assert !ThrowsWithin({}, it, k - it);
    }
  }
}
