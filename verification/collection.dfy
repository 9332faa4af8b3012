/**
 A document collection in its natural (insertion) order, the way the
 document store hands records back to `find`, `findOne` and `findById`.
 Every record carries its `_id`; a collection never holds two records with
 the same `_id` (the store's primary-key index).
 */
module Collection {
  import opened Values

  type Id = string

  datatype Doc<+T> = Doc(id: Id, val: T)

  type Table<T> = seq<Doc<T>>

  /** The primary-key invariant: no two records share an `_id`. */
  predicate DistinctIds<T>(t: Table<T>) {
    forall i, j :: 0 <= i < j < |t| ==> t[i].id != t[j].id
  }

  predicate Has<T>(t: Table<T>, id: Id) {
    exists i :: 0 <= i < |t| && t[i].id == id
  }

  /** Index of the first element satisfying `p`, as `Array.prototype.find` and `findOne` pick it. */
  function FirstIndex<T>(s: seq<T>, p: T -> bool): (r: Option<nat>)
    ensures r.Some? ==> r.value < |s| && p(s[r.value]) && forall j :: 0 <= j < r.value ==> !p(s[j])
    ensures r.None? <==> forall j :: 0 <= j < |s| ==> !p(s[j])
  {
    FirstIndexFrom(s, p, 0)
  }

  function FirstIndexFrom<T>(s: seq<T>, p: T -> bool, k: nat): (r: Option<nat>)
    requires k <= |s|
    requires forall j :: 0 <= j < k ==> !p(s[j])
    ensures r.Some? ==> k <= r.value < |s| && p(s[r.value]) && forall j :: 0 <= j < r.value ==> !p(s[j])
    ensures r.None? <==> forall j :: 0 <= j < |s| ==> !p(s[j])
    decreases |s| - k
  {
    if k == |s| then None
    else if p(s[k]) then Some(k)
    else FirstIndexFrom(s, p, k + 1)
  }

  /** Position of the record with `_id == id`, if any. */
  function IndexOf<T>(t: Table<T>, id: Id): (r: Option<nat>)
    ensures r.Some? ==> r.value < |t| && t[r.value].id == id
    ensures r.None? <==> !Has(t, id)
    ensures r.Some? && DistinctIds(t) ==> forall j :: 0 <= j < |t| && t[j].id == id ==> j == r.value
  {
    FirstIndex(t, (d: Doc<T>) => d.id == id)
  }

  /** `findById`. */
  function Get<T>(t: Table<T>, id: Id): (r: Option<T>)
    ensures r.Some? <==> Has(t, id)
    ensures r.Some? ==> exists i :: 0 <= i < |t| && t[i] == Doc(id, r.value)
  {
    match IndexOf(t, id)
    case Some(i) => Some(t[i].val)
    case None => None
  }

  /** Replace the value of the record at position `i`, keeping its `_id` and place. */
  function SetAt<T>(t: Table<T>, i: nat, v: T): (r: Table<T>)
    requires i < |t|
    ensures |r| == |t| && r[i] == Doc(t[i].id, v)
    ensures forall j :: 0 <= j < |t| && j != i ==> r[j] == t[j]
    ensures forall j :: 0 <= j < |t| ==> r[j].id == t[j].id
  {
    t[i := Doc(t[i].id, v)]
  }

  /** Drop the record at position `i`; the others keep their relative order. */
  function RemoveAt<T>(t: Table<T>, i: nat): (r: Table<T>)
    requires i < |t|
    ensures |r| == |t| - 1
    ensures forall j :: 0 <= j < i ==> r[j] == t[j]
    ensures forall j :: i < j < |t| ==> r[j - 1] == t[j]
  {
    t[..i] + t[i + 1..]
  }

  /**
   `r` is `s` with some elements dropped and the rest in their original
   order. Matching each element of `r` against the earliest possible one of
   `s` decides this.
   */
  predicate Subsequence<T(==)>(r: seq<T>, s: seq<T>)
    decreases |s|
  {
    |r| <= |s| &&
    (|r| == 0 || (if r[0] == s[0] then Subsequence(r[1..], s[1..]) else Subsequence(r, s[1..])))
  }

  /**
   `find(filter)`: the records satisfying `p`, in collection order, each as
   often as the collection holds it.
   */
  function Where<T>(s: seq<T>, p: T -> bool): (r: seq<T>)
    ensures |r| <= |s|
    ensures forall i :: 0 <= i < |r| ==> r[i] in s && p(r[i])
    ensures forall i :: 0 <= i < |s| && p(s[i]) ==> s[i] in r
  {
    if |s| == 0 then []
    else
      assert s == [s[0]] + s[1..];
      var rest := Where(s[1..], p);
      if p(s[0]) then [s[0]] + rest else rest
  }

  /** A filter keeps the order of what it keeps. */
  lemma {:induction false} WhereSubsequence<T>(s: seq<T>, p: T -> bool)
    ensures Subsequence(Where(s, p), s)
    decreases |s|
  {
    if |s| > 0 {
      WhereSubsequence(s[1..], p);
      var rest := Where(s[1..], p);
      if p(s[0]) {
        assert ([s[0]] + rest)[1..] == rest;
      } else if |rest| > 0 {
        assert p(rest[0]);
      }
    }
  }

  /** Every record that passes the filter is kept as often as the collection holds it, and no other. */
  lemma {:induction false} WhereCounts<T(!new)>(s: seq<T>, p: T -> bool)
    ensures forall x :: multiset(Where(s, p))[x] == if p(x) then multiset(s)[x] else 0
  {
    if |s| > 0 {
      WhereCounts(s[1..], p);
      assert s == [s[0]] + s[1..];
    }
  }

  /** Filtering a collection with one more record at the end filters the old records, then that one. */
  lemma {:induction false} WhereAppend<T>(s: seq<T>, x: T, p: T -> bool)
    ensures Where(s + [x], p) == Where(s, p) + (if p(x) then [x] else [])
  {
    if |s| > 0 {
      assert (s + [x])[0] == s[0];
      assert (s + [x])[1..] == s[1..] + [x];
      WhereAppend(s[1..], x, p);
    } else {
      assert s + [x] == [x];
      assert [x][1..] == [];
    }
  }

  /** Nothing passes the filter when no element satisfies it. */
  lemma {:induction false} WhereEmpty<T>(s: seq<T>, p: T -> bool)
    requires forall i :: 0 <= i < |s| ==> !p(s[i])
    ensures Where(s, p) == []
  {
    if |s| > 0 {
      WhereEmpty(s[1..], p);
    }
  }

  /** Removing one record keeps the primary-key invariant and loses exactly that `_id`. */
  lemma RemoveAtKeepsIds<T>(t: Table<T>, i: nat)
    requires i < |t| && DistinctIds(t)
    ensures DistinctIds(RemoveAt(t, i))
    ensures forall id :: Has(RemoveAt(t, i), id) <==> Has(t, id) && id != t[i].id
  {
    var r := RemoveAt(t, i);
    forall id | Has(t, id) && id != t[i].id
      ensures Has(r, id)
    {
      var k :| 0 <= k < |t| && t[k].id == id;
      if k < i { assert r[k].id == id; } else { assert r[k - 1].id == id; }
    }
  }

  /** A filtered collection is still free of duplicate `_id`s. */
  lemma {:induction false} WhereKeepsIds<T>(t: Table<T>, p: Doc<T> -> bool)
    requires DistinctIds(t)
    ensures DistinctIds(Where(t, p))
  {
    if |t| > 0 {
      WhereKeepsIds(t[1..], p);
      var rest := Where(t[1..], p);
      if p(t[0]) {
        forall j | 0 <= j < |rest|
          ensures rest[j].id != t[0].id
        {
          assert rest[j] in t[1..];
        }
      }
    }
  }

  /** Appending a record under an unused `_id` keeps the primary-key invariant. */
  lemma AppendKeepsIds<T>(t: Table<T>, id: Id, v: T)
    requires DistinctIds(t) && !Has(t, id)
    ensures DistinctIds(t + [Doc(id, v)])
    ensures forall k :: Has(t + [Doc(id, v)], k) <==> Has(t, k) || k == id
  {
    var r := t + [Doc(id, v)];
    forall k | Has(t, k) ensures Has(r, k) {
      var i :| 0 <= i < |t| && t[i].id == k;
      assert r[i].id == k;
    }
    assert r[|t|].id == id;
  }

  /** A record appended under an unused `_id` is what `findById` returns for it. */
  lemma GetAppendFresh<T>(t: Table<T>, id: Id, v: T)
    requires !Has(t, id)
    ensures Get(t + [Doc(id, v)], id) == Some(v)
  {
    var r := t + [Doc(id, v)];
    assert r[|t|].id == id;
    forall j | 0 <= j < |t| ensures r[j].id != id {
      assert r[j] == t[j];
    }
  }

  /**
   Map every element through `f`, failing as a whole when any element fails:
   `Promise.all` over per-element lookups, or a `map` whose callback throws.
   */
  function MapAll<A, B>(xs: seq<A>, f: A -> Option<B>): (r: Option<seq<B>>)
    ensures r.Some? <==> forall i :: 0 <= i < |xs| ==> f(xs[i]).Some?
    ensures r.Some? ==> |r.value| == |xs| && forall i :: 0 <= i < |xs| ==> f(xs[i]) == Some(r.value[i])
  {
    if |xs| == 0 then Some([])
    else
      match f(xs[0])
      case None => None
      case Some(y) =>
        match MapAll(xs[1..], f)
        case None =>
          assert forall i :: 0 <= i < |xs| - 1 ==> xs[1..][i] == xs[i + 1];
          None
        case Some(ys) => Some([y] + ys)
  }
}
