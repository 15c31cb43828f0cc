/**
 * The order in which the column scan visits cached reads: the keys of the
 * cache, collected and sorted with Rust's `Ord` for `String`.  That order
 * compares UTF-8 bytes lexicographically, which is the same as comparing
 * the strings' Unicode scalar values lexicographically.
 */
module ReadOrder {

  /** Strict lexicographic order on strings; a proper prefix comes first. */
  predicate LexLess(a: string, b: string)
    decreases |a|
  {
    if |a| == 0 then |b| > 0
    else if |b| == 0 then false
    else if a[0] != b[0] then a[0] < b[0]
    else LexLess(a[1..], b[1..])
  }

  lemma {:induction false} LexLessIrreflexive(a: string)
    ensures !LexLess(a, a)
    decreases |a|
  {
    if |a| > 0 { LexLessIrreflexive(a[1..]); }
  }

  lemma {:induction false} LexLessAsymmetric(a: string, b: string)
    requires LexLess(a, b)
    ensures !LexLess(b, a)
    decreases |a|
  {
    if |a| > 0 && |b| > 0 && a[0] == b[0] { LexLessAsymmetric(a[1..], b[1..]); }
  }

  lemma {:induction false} LexLessTransitive(a: string, b: string, c: string)
    requires LexLess(a, b) && LexLess(b, c)
    ensures LexLess(a, c)
    decreases |a|
  {
    if |a| > 0 && a[0] == b[0] && b[0] == c[0] {
      LexLessTransitive(a[1..], b[1..], c[1..]);
    }
  }

  /** Any two different strings are ordered one way or the other. */
  lemma {:induction false} LexLessTotal(a: string, b: string)
    requires a != b
    ensures LexLess(a, b) || LexLess(b, a)
    decreases |a|
  {
    if |a| > 0 && |b| > 0 && a[0] == b[0] {
      assert a == [a[0]] + a[1..] && b == [b[0]] + b[1..];
      LexLessTotal(a[1..], b[1..]);
    }
  }

  predicate StrictlySorted(ids: seq<string>)
  {
    forall i, j :: 0 <= i < j < |ids| ==> LexLess(ids[i], ids[j])
  }

  function Elements(ids: seq<string>): set<string>
  {
    set x | x in ids
  }

  /** `ids` with `x` put in its sorted place. */
  function InsertSorted(ids: seq<string>, x: string): (r: seq<string>)
    requires StrictlySorted(ids) && x !in ids
    ensures StrictlySorted(r)
    ensures Elements(r) == Elements(ids) + {x}
    ensures |r| == |ids| + 1
    decreases |ids|
  {
    if |ids| == 0 then [x]
    else if LexLess(x, ids[0]) then
      assert forall j :: 0 < j < |ids| ==> LexLess(x, ids[j]) by {
        forall j | 0 < j < |ids| { LexLessTransitive(x, ids[0], ids[j]); }
      }
      [x] + ids
    else
      LexLessTotal(x, ids[0]);
      var rest := InsertSorted(ids[1..], x);
      assert Elements(ids) == {ids[0]} + Elements(ids[1..]);
      assert forall j :: 0 <= j < |rest| ==> LexLess(ids[0], rest[j]) by {
        forall j | 0 <= j < |rest| ensures LexLess(ids[0], rest[j]) {
          assert rest[j] in Elements(rest);
          if rest[j] != x {
            assert rest[j] in Elements(ids[1..]);
            var k :| 0 <= k < |ids[1..]| && ids[1..][k] == rest[j];
            assert ids[k + 1] == rest[j];
          }
        }
      }
      [ids[0]] + rest
  }

  /** A sorted enumeration of a finite set of ids: the order of `keys().collect()` after `sort()`. */
  ghost function SortedKeys(keys: set<string>): (ids: seq<string>)
    ensures StrictlySorted(ids) && Elements(ids) == keys
    decreases keys
  {
    if keys == {} then []
    else
      var x :| x in keys;
      var rest := SortedKeys(keys - {x});
      assert x !in rest by { assert x !in Elements(rest); }
      InsertSorted(rest, x)
  }

  lemma ElementsEmpty(s: seq<string>)
    ensures Elements(s) == {} <==> s == []
  {
    if |s| > 0 {
      assert s[0] in Elements(s);
    }
  }

  /** A strictly sorted sequence is determined by its elements. */
  lemma {:induction false} SortedUnique(a: seq<string>, b: seq<string>)
    requires StrictlySorted(a) && StrictlySorted(b)
    requires Elements(a) == Elements(b)
    ensures a == b
    decreases |a|
  {
    ElementsEmpty(a);
    ElementsEmpty(b);
    if |a| > 0 && |b| > 0 {
      assert a[0] in Elements(b);
      assert b[0] in Elements(a);
      if a[0] != b[0] {
        var i :| 0 <= i < |b| && b[i] == a[0];
        var j :| 0 <= j < |a| && a[j] == b[0];
        assert LexLess(b[0], a[0]);
        assert LexLess(a[0], b[0]);
        LexLessAsymmetric(a[0], b[0]);
      }
      forall x | x in a[1..] ensures x != a[0] {
        var k :| 0 <= k < |a[1..]| && a[1..][k] == x;
        assert LexLess(a[0], a[k + 1]);
        LexLessIrreflexive(a[0]);
      }
      forall x | x in b[1..] ensures x != b[0] {
        var k :| 0 <= k < |b[1..]| && b[1..][k] == x;
        assert LexLess(b[0], b[k + 1]);
        LexLessIrreflexive(b[0]);
      }
      assert a == [a[0]] + a[1..] && b == [b[0]] + b[1..];
      assert Elements(a[1..]) == Elements(a) - {a[0]};
      assert Elements(b[1..]) == Elements(b) - {b[0]};
      SortedUnique(a[1..], b[1..]);
    }
  }

  /**
   * `cache.reads.keys().collect()` followed by `sort()`: the keys taken one at
   * a time and inserted into a sorted vector.
   */
  method SortIds(keys: set<string>) returns (ids: seq<string>)
    ensures StrictlySorted(ids) && Elements(ids) == keys
    ensures ids == SortedKeys(keys)
  {
    ids := [];
    var remaining := keys;
    while remaining != {}
      invariant StrictlySorted(ids)
      invariant Elements(ids) + remaining == keys
      invariant Elements(ids) !! remaining
      decreases remaining
    {
      var x :| x in remaining;
      assert x !in ids by { assert x !in Elements(ids); }
      ids := InsertSorted(ids, x);
      remaining := remaining - {x};
    }
    SortedUnique(ids, SortedKeys(keys));
  }
}
