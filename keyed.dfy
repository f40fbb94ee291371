/** A JavaScript `Map<string, V>` as a Dafny map plus the order in which its keys were first
    set. `Map.prototype.values()` and `Array.from(map.values())` walk the keys in that order,
    so every query that filters, searches or sorts the values depends on it. */
module Keyed {

  predicate Distinct(s: seq<string>) {
    forall i, j :: 0 <= i < j < |s| ==> s[i] != s[j]
  }

  /** `order` lists the keys of `m`, each exactly once. */
  ghost predicate Ordered<V>(order: seq<string>, m: map<string, V>) {
    Distinct(order) && (forall k :: k in order <==> k in m)
  }

  /** The key order after `map.set(k, _)`: a new key goes last, an existing key keeps its place. */
  function Put(order: seq<string>, k: string): (r: seq<string>)
    ensures Distinct(order) ==> Distinct(r)
    ensures forall x :: x in r <==> x in order || x == k
    ensures k in order ==> r == order
  {
    if k in order then order else order + [k]
  }

  /** The key order after `map.delete(k)` for every `k` in `gone`: the rest keep their order. */
  function Without(order: seq<string>, gone: set<string>): (r: seq<string>)
    ensures forall x :: x in r <==> x in order && x !in gone
    ensures Distinct(order) ==> Distinct(r)
    ensures |r| <= |order|
  {
    if order == [] then []
    else
      var init := Without(order[..|order| - 1], gone);
      var last := order[|order| - 1];
      assert forall x :: x in order[..|order| - 1] ==> x in order;
      if last in gone then init
      else
        assert Distinct(order) ==> last !in order[..|order| - 1];
        init + [last]
  }

  /** Deleting no key leaves the order as it was. */
  lemma {:induction false} WithoutNothing(order: seq<string>)
    ensures Without(order, {}) == order
  {
    if order != [] {
      var init := order[..|order| - 1];
      WithoutNothing(init);
      assert order == init + [order[|order| - 1]];
    }
  }

  /** Deleting one batch of keys and then another is deleting both batches at once. */
  lemma {:induction false} WithoutTwice(order: seq<string>, a: set<string>, b: set<string>)
    ensures Without(Without(order, a), b) == Without(order, a + b)
  {
    if order != [] {
      var init := order[..|order| - 1];
      var last := order[|order| - 1];
      WithoutTwice(init, a, b);
      var once := Without(order, a);
      if last !in a {
        assert once[..|once| - 1] == Without(init, a);
      }
    }
  }

  /** The keys listed in `s`. */
  function Members(s: seq<string>): set<string> {
    set k | k in s
  }

  /** A list without repeats has as many members as entries. */
  lemma {:induction false} DistinctSize(s: seq<string>)
    requires Distinct(s)
    ensures |Members(s)| == |s|
  {
    if s != [] {
      var init, last := s[..|s| - 1], s[|s| - 1];
      assert s == init + [last];
      assert Members(s) == Members(init) + {last};
      assert last !in Members(init);
      DistinctSize(init);
    }
  }

  /** The order lists as many keys as the map holds. */
  lemma OrderedSize<V>(order: seq<string>, m: map<string, V>)
    requires Ordered(order, m)
    ensures |order| == |m|
  {
    DistinctSize(order);
    assert Members(order) == m.Keys;
  }

  /** Deleting the same keys from the map and from its order keeps them in step. */
  lemma DeletePreservesOrder<V>(order: seq<string>, m: map<string, V>, gone: set<string>)
    requires Ordered(order, m)
    ensures Ordered(Without(order, gone), m - gone)
  {
  }

  /** `for (const k of ks) m.delete(k);`; the key order loses the same keys. */
  method DeleteKeys<V>(m: map<string, V>, order: seq<string>, ks: seq<string>)
    returns (m': map<string, V>, order': seq<string>)
    ensures m' == m - Members(ks)
    ensures order' == Without(order, Members(ks))
  {
    m' := m;
    ghost var gone: set<string> := {};
    for j := 0 to |ks|
      invariant gone == Members(ks[..j])
      invariant m' == m - gone
    {
      var k := ks[j];
      m' := m' - {k};
      gone := gone + {k};
      assert ks[..j + 1] == ks[..j] + [k];
    }
    assert ks[..|ks|] == ks;
    order' := Without(order, Members(ks));
  }

  /** `Array.from(m.values())`: every value, in key order. */
  function ValuesOf<V>(order: seq<string>, m: map<string, V>): (r: seq<V>)
    requires forall k :: k in order ==> k in m
    ensures |r| == |order|
    ensures forall i :: 0 <= i < |order| ==> r[i] == m[order[i]]
  {
    seq(|order|, i requires 0 <= i < |order| => m[order[i]])
  }

  /** Every value listed by key is a value of the map. */
  lemma ValuesOfIn<V>(order: seq<string>, m: map<string, V>)
    requires forall k :: k in order ==> k in m
    ensures forall v :: v in ValuesOf(order, m) ==> v in m.Values
  {
    var r := ValuesOf(order, m);
    forall v | v in r ensures v in m.Values {
      var i :| 0 <= i < |r| && r[i] == v;
      assert m[order[i]] == v;
    }
  }

  /** The values of `m` that satisfy `p`, in key order: `Array.from(m.values()).filter(p)`. */
  function Select<V>(order: seq<string>, m: map<string, V>, p: V -> bool): (r: seq<V>)
    requires forall k :: k in order ==> k in m
    ensures |r| <= |order|
    ensures forall v :: v in r ==> p(v)
  {
    if order == [] then []
    else
      var init := Select(order[..|order| - 1], m, p);
      var v := m[order[|order| - 1]];
      if p(v) then init + [v] else init
  }

  /** A value is selected exactly when it satisfies `p` and some listed key maps to it. */
  lemma {:induction false} SelectMember<V>(order: seq<string>, m: map<string, V>, p: V -> bool, v: V)
    requires forall k :: k in order ==> k in m
    ensures v in Select(order, m, p) <==> p(v) && exists k :: k in order && m[k] == v
  {
    if order != [] {
      var init := order[..|order| - 1];
      var last := order[|order| - 1];
      SelectMember(init, m, p, v);
      assert forall k :: k in order <==> k in init || k == last;
    }
  }

  /** Over a whole ordered map, the selection holds exactly the stored values satisfying `p`. */
  lemma SelectExactly<V>(order: seq<string>, m: map<string, V>, p: V -> bool)
    requires Ordered(order, m)
    ensures forall v :: v in Select(order, m, p) <==> v in m.Values && p(v)
  {
    forall v ensures v in Select(order, m, p) <==> v in m.Values && p(v) {
      SelectMember(order, m, p, v);
    }
  }

  /** Position of the first key whose value satisfies `p`, or `|order|` when there is none:
      what a `for ... of` loop with an early `return`/`break`, or `Array.prototype.find`, stops at. */
  function FirstIndex<V>(order: seq<string>, m: map<string, V>, p: V -> bool): (i: nat)
    requires forall k :: k in order ==> k in m
    ensures i <= |order|
    ensures i < |order| ==> p(m[order[i]])
    ensures forall j :: 0 <= j < i ==> !p(m[order[j]])
  {
    if order == [] then 0
    else if p(m[order[0]]) then 0
    else 1 + FirstIndex(order[1..], m, p)
  }

  /** `i` is the first position, in insertion order, whose value `p` accepts. */
  predicate FirstMatch<V>(order: seq<string>, m: map<string, V>, p: V -> bool, i: int)
    requires forall k :: k in order ==> k in m
  {
    0 <= i < |order| && p(m[order[i]]) && forall j :: 0 <= j < i ==> !p(m[order[j]])
  }

  /** There is only one first match, and the search finds it. */
  lemma FirstMatchFound<V>(order: seq<string>, m: map<string, V>, p: V -> bool, i: int)
    requires forall k :: k in order ==> k in m
    requires FirstMatch(order, m, p, i)
    ensures i == FirstIndex(order, m, p)
  {
    var f := FirstIndex(order, m, p);
    assert f < |order| ==> p(m[order[f]]);
  }

  /** A search that runs off the end saw no matching value at all. */
  lemma NoneFound<V>(order: seq<string>, m: map<string, V>, p: V -> bool)
    requires Ordered(order, m)
    requires FirstIndex(order, m, p) == |order|
    ensures forall k :: k in m ==> !p(m[k])
  {
    forall k | k in m ensures !p(m[k]) {
      var j :| 0 <= j < |order| && order[j] == k;
    }
  }

  /** `for (const v of m.values()) if (p(v)) return v;` */
  method Scan<V>(order: seq<string>, m: map<string, V>, p: V -> bool) returns (i: nat)
    requires forall k :: k in order ==> k in m
    ensures i == FirstIndex(order, m, p)
  {
    i := 0;
    while i < |order| && !p(m[order[i]])
      invariant i <= |order|
      invariant forall j :: 0 <= j < i ==> !p(m[order[j]])
    {
      i := i + 1;
    }
  }

  /** `const out = []; for (const v of m.values()) if (p(v)) out.push(v); return out;` */
  method Collect<V>(order: seq<string>, m: map<string, V>, p: V -> bool) returns (r: seq<V>)
    requires forall k :: k in order ==> k in m
    ensures r == Select(order, m, p)
  {
    r := [];
    for i := 0 to |order|
      invariant r == Select(order[..i], m, p)
    {
      assert order[..i + 1][..i] == order[..i];
      var v := m[order[i]];
      if p(v) {
        r := r + [v];
      }
    }
    assert order[..|order|] == order;
  }
}
