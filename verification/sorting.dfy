/** Order-by and where clauses of the repository queries, as functions on
    sequences: a stable insertion sort on an integer key and a filter. */
module Sorting {

  ghost predicate Ascending<T>(s: seq<T>, key: T -> int)
  {
    forall i, j :: 0 <= i < j < |s| ==> key(s[i]) <= key(s[j])
  }

  function Insert<T>(x: T, s: seq<T>, key: T -> int): (r: seq<T>)
    requires Ascending(s, key)
    ensures multiset(r) == multiset(s) + multiset{x} && |r| == |s| + 1
    ensures Ascending(r, key)
  {
    if s == [] then [x]
    else if key(x) <= key(s[0]) then
      AscendingCons(x, s, key);
      [x] + s
    else
      var rest := Insert(x, s[1..], key);
      KeysAtLeast(rest, s[1..] + [x], key, key(s[0]));
      AscendingCons(s[0], rest, key);
      assert s == [s[0]] + s[1..];
      [s[0]] + rest
  }

  /** An element no greater than the head of an ascending sequence can go
      in front of it. */
  lemma AscendingCons<T>(h: T, s: seq<T>, key: T -> int)
    requires Ascending(s, key)
    requires s != [] ==> key(h) <= key(s[0])
    ensures Ascending([h] + s, key)
  {
    var r := [h] + s;
    forall i, j | 0 <= i < j < |r| ensures key(r[i]) <= key(r[j]) {
      if i == 0 {
        assert r[j] == s[j - 1];
        if j > 1 { assert key(s[0]) <= key(s[j - 1]); }
      } else {
        assert r[i] == s[i - 1] && r[j] == s[j - 1];
      }
    }
  }

  /** A permutation of elements whose keys are at least `lo` has only such
      keys. */
  lemma KeysAtLeast<T>(r: seq<T>, t: seq<T>, key: T -> int, lo: int)
    requires multiset(r) == multiset(t)
    requires forall i :: 0 <= i < |t| ==> lo <= key(t[i])
    ensures forall i :: 0 <= i < |r| ==> lo <= key(r[i])
  {
    forall i | 0 <= i < |r| ensures lo <= key(r[i]) {
      assert r[i] in multiset(t);
      var j :| 0 <= j < |t| && t[j] == r[i];
    }
  }

  /** Sorts on `key`, ascending; elements with equal keys keep their order. */
  function SortBy<T>(s: seq<T>, key: T -> int): (r: seq<T>)
    ensures multiset(r) == multiset(s) && |r| == |s|
    ensures Ascending(r, key)
  {
    if s == [] then []
    else
      assert s == [s[0]] + s[1..];
      Insert(s[0], SortBy(s[1..], key), key)
  }

  /** Keeps the elements that satisfy `p`, in their order. */
  function Filter<T>(s: seq<T>, p: T -> bool): (r: seq<T>)
    ensures multiset(r) <= multiset(s)
    ensures forall x | x in s :: multiset(r)[x] == if p(x) then multiset(s)[x] else 0
    ensures forall i :: 0 <= i < |r| ==> p(r[i])
    ensures |r| <= |s|
  {
    if s == [] then []
    else
      assert s == [s[0]] + s[1..];
      if p(s[0]) then [s[0]] + Filter(s[1..], p) else Filter(s[1..], p)
  }

  /** Filtering a sequence with one more element at the end. */
  lemma {:induction false} FilterAppend<T>(s: seq<T>, x: T, p: T -> bool)
    ensures Filter(s + [x], p) == Filter(s, p) + (if p(x) then [x] else [])
  {
    var tail := if p(x) then [x] else [];
    if s == [] {
      assert s + [x] == [x];
      FilterCons([x], p);
      assert [x][1..] == [];
    } else {
      var t := s + [x];
      var head := if p(s[0]) then [s[0]] else [];
      var rest := Filter(s[1..], p);
      assert t[0] == s[0] && t[1..] == s[1..] + [x];
      FilterCons(t, p);
      FilterCons(s, p);
      FilterAppend(s[1..], x, p);
      AppendAssoc(head, rest, tail);
    }
  }

  lemma AppendAssoc<T>(a: seq<T>, b: seq<T>, c: seq<T>)
    ensures a + (b + c) == (a + b) + c
  {
  }

  lemma AppendCons<T>(a: seq<T>, b: seq<T>)
    requires a != []
    ensures (a + b)[0] == a[0] && (a + b)[1..] == a[1..] + b
  {
  }

  /** Filtering a non-empty sequence decides its first element, then
      filters the rest. */
  lemma FilterCons<T>(s: seq<T>, p: T -> bool)
    requires s != []
    ensures Filter(s, p) == (if p(s[0]) then [s[0]] else []) + Filter(s[1..], p)
  {
  }

  /** No element occurs twice. */
  predicate Distinct<T(==)>(s: seq<T>)
  {
    forall i, j :: 0 <= i < j < |s| ==> s[i] != s[j]
  }

  lemma {:induction false} DistinctCountsAtMostOne<T>(s: seq<T>, x: T)
    requires Distinct(s)
    ensures multiset(s)[x] <= 1
  {
    if s != [] {
      assert s == [s[0]] + s[1..];
      assert Distinct(s[1..]) by {
        forall i, j | 0 <= i < j < |s[1..]| ensures s[1..][i] != s[1..][j] {
          assert s[1..][i] == s[i + 1] && s[1..][j] == s[j + 1];
        }
      }
      DistinctCountsAtMostOne(s[1..], x);
      if x == s[0] {
        assert x !in s[1..] by {
          forall i | 0 <= i < |s[1..]| ensures s[1..][i] != x {
            assert s[1..][i] == s[i + 1];
          }
        }
      }
    }
  }

  lemma RepeatCountsTwice<T>(s: seq<T>, i: nat, j: nat)
    requires i < j < |s| && s[i] == s[j]
    ensures multiset(s)[s[i]] >= 2
  {
    assert s == s[..j] + [s[j]] + s[j + 1..];
    assert s[i] == s[..j][i];
    assert multiset(s[..j])[s[i]] >= 1;
  }

  /** A sequence holding no element more often than a duplicate-free one
      is itself duplicate-free. */
  lemma DistinctOfSubMultiset<T>(s: seq<T>, t: seq<T>)
    requires Distinct(s) && multiset(t) <= multiset(s)
    ensures Distinct(t)
  {
    forall i, j | 0 <= i < j < |t| ensures t[i] != t[j] {
      if t[i] == t[j] {
        RepeatCountsTwice(t, i, j);
        DistinctCountsAtMostOne(s, t[i]);
        assert false;
      }
    }
  }

  /** `setFirstResult(offset)` then `setMaxResults(limit)`: skip `offset`
      elements, then keep up to `limit` of the rest. */
  function Page<T>(s: seq<T>, limit: nat, offset: nat): (r: seq<T>)
    ensures |r| == if offset >= |s| then 0 else if limit <= |s| - offset then limit else |s| - offset
    ensures offset <= |s| ==> r == s[offset..offset + |r|]
    ensures forall i :: 0 <= i < |r| ==> r[i] == s[offset + i]
  {
    if offset >= |s| then []
    else if limit <= |s| - offset then s[offset..offset + limit]
    else s[offset..]
  }

  /** Consecutive pages of one size tile the sequence: a page followed by
      the next one is the page of twice the size. */
  lemma PagesTile<T>(s: seq<T>, limit: nat, offset: nat)
    ensures Page(s, limit, offset) + Page(s, limit, offset + limit) == Page(s, 2 * limit, offset)
  {
    if offset < |s| && offset + limit <= |s| {
      var k := |Page(s, limit, offset + limit)|;
      assert s[offset..offset + limit + k] == s[offset..offset + limit] + s[offset + limit..offset + limit + k];
    }
  }

  /** A page holds nothing its sequence does not. */
  lemma PageIsSubMultiset<T>(s: seq<T>, limit: nat, offset: nat)
    ensures multiset(Page(s, limit, offset)) <= multiset(s)
  {
    var r := Page(s, limit, offset);
    if offset < |s| {
      assert s == s[..offset] + r + s[offset + |r|..];
    }
  }
}
