/** Sequence helpers shared by the projections: filtering, counting, last-wins maps. */
module Collections {
  import opened Wrappers

  /** `s.find(p)`: the first element satisfying `p`, if any. */
  function FindFirst<T>(s: seq<T>, p: T -> bool): (r: Option<T>)
    ensures r.None? <==> forall i :: 0 <= i < |s| ==> !p(s[i])
    ensures r.Some? ==> exists i :: 0 <= i < |s| && s[i] == r.value && p(s[i]) && forall j :: 0 <= j < i ==> !p(s[j])
  {
    if |s| == 0 then None
    else if p(s[0]) then
      assert s[0] == s[0] && p(s[0]);
      Some(s[0])
    else
      var r := FindFirst(s[1..], p);
      assert r.Some? ==> exists i :: 1 <= i < |s| && s[i] == r.value && p(s[i]) && forall j :: 0 <= j < i ==> !p(s[j]) by {
        if r.Some? {
          var i :| 0 <= i < |s[1..]| && s[1..][i] == r.value && p(s[1..][i]) && forall j :: 0 <= j < i ==> !p(s[1..][j]);
          assert s[i + 1] == r.value && forall j :: 0 <= j < i + 1 ==> !p(s[j]) by {
            forall j | 0 <= j < i + 1 ensures !p(s[j]) {
              if j > 0 { assert s[j] == s[1..][j - 1]; }
            }
          }
        }
      }
      r
  }

  /** When `s[i]` satisfies `p` and nothing before it does, `find` returns it. */
  lemma FindFirstAt<T>(s: seq<T>, p: T -> bool, i: int)
    requires 0 <= i < |s| && p(s[i])
    requires forall j :: 0 <= j < i ==> !p(s[j])
    ensures FindFirst(s, p) == Some(s[i])
  {
    var r := FindFirst(s, p);
    var k :| 0 <= k < |s| && s[k] == r.value && p(s[k]) && forall j :: 0 <= j < k ==> !p(s[j]);
    assert k == i;
  }

  /** `s.filter(p)`: the elements satisfying `p`, in their original order. */
  function Filter<T(!new)>(s: seq<T>, p: T -> bool): (r: seq<T>)
    ensures |r| <= |s|
    ensures forall x :: x in r <==> x in s && p(x)
    ensures forall i :: 0 <= i < |r| ==> p(r[i])
    ensures multiset(r) <= multiset(s)
  {
    if |s| == 0 then []
    else
      assert s == [s[0]] + s[1..];
      if p(s[0]) then [s[0]] + Filter(s[1..], p)
      else Filter(s[1..], p)
  }

  /** Filtering distributes over concatenation, so it keeps relative order. */
  lemma {:induction false} FilterAppend<T(!new)>(a: seq<T>, b: seq<T>, p: T -> bool)
    ensures Filter(a + b, p) == Filter(a, p) + Filter(b, p)
  {
    if |a| == 0 {
      assert a + b == b;
    } else {
      assert (a + b)[1..] == a[1..] + b;
      FilterAppend(a[1..], b, p);
    }
  }

  /** Splitting by a predicate and its negation loses and invents nothing. */
  lemma {:induction false} PartitionPermutes<T(!new)>(s: seq<T>, p: T -> bool, q: T -> bool)
    requires forall x :: q(x) <==> !p(x)
    ensures multiset(Filter(s, p)) + multiset(Filter(s, q)) == multiset(s)
  {
    if |s| > 0 {
      PartitionPermutes(s[1..], p, q);
      assert s == [s[0]] + s[1..];
    }
  }

  /** A predicate that holds of every element still holds after a permutation. */
  lemma PermutationKeeps<T>(a: seq<T>, b: seq<T>, p: T -> bool)
    requires multiset(a) == multiset(b)
    requires forall i :: 0 <= i < |b| ==> p(b[i])
    ensures forall i :: 0 <= i < |a| ==> p(a[i])
  {
    forall i | 0 <= i < |a| ensures p(a[i]) {
      assert a[i] in multiset(b);
      var j :| 0 <= j < |b| && b[j] == a[i];
    }
  }

  /** Elements satisfying `p` followed by elements that do not: `p` holds exactly before the seam. */
  lemma SplitAtSeam<T>(a: seq<T>, b: seq<T>, p: T -> bool)
    requires forall i :: 0 <= i < |a| ==> p(a[i])
    requires forall i :: 0 <= i < |b| ==> !p(b[i])
    ensures forall i :: 0 <= i < |a + b| ==> (p((a + b)[i]) <==> i < |a|)
  {
    forall i | 0 <= i < |a + b| ensures p((a + b)[i]) <==> i < |a| {
      if i < |a| {
        assert (a + b)[i] == a[i];
      } else {
        assert (a + b)[i] == b[i - |a|];
      }
    }
  }

  /** `s.filter(p).length`. */
  function Count<T>(s: seq<T>, p: T -> bool): (n: nat)
    ensures n <= |s|
    ensures n == 0 <==> forall i :: 0 <= i < |s| ==> !p(s[i])
    ensures n == |s| <==> forall i :: 0 <= i < |s| ==> p(s[i])
  {
    if |s| == 0 then 0
    else (if p(s[0]) then 1 else 0) + Count(s[1..], p)
  }

  /** Counting is the length of the filtered sequence. */
  lemma {:induction false} CountIsFilterLength<T(!new)>(s: seq<T>, p: T -> bool)
    ensures Count(s, p) == |Filter(s, p)|
  {
    if |s| > 0 {
      CountIsFilterLength(s[1..], p);
    }
  }

  lemma {:induction false} CountAppend<T>(a: seq<T>, b: seq<T>, p: T -> bool)
    ensures Count(a + b, p) == Count(a, p) + Count(b, p)
  {
    if |a| == 0 {
      assert a + b == b;
    } else {
      assert (a + b)[1..] == a[1..] + b;
      CountAppend(a[1..], b, p);
    }
  }

  /** Index `i` holds the last occurrence of its key in `ks`. */
  predicate IsLast<K(==)>(ks: seq<K>, i: int)
    requires 0 <= i < |ks|
  {
    forall k :: i < k < |ks| ==> ks[k] != ks[i]
  }

  /**
   * The map built by setting `ks[i] := vs[i]` for i = 0, 1, ...: a key listed
   * more than once keeps the value of its last occurrence (`Map.set` in a loop).
   */
  function LastWins<K(==), V>(ks: seq<K>, vs: seq<V>): (m: map<K, V>)
    requires |ks| == |vs|
    ensures m.Keys == set k | k in ks
    ensures forall i :: 0 <= i < |ks| && IsLast(ks, i) ==> m[ks[i]] == vs[i]
  {
    if |ks| == 0 then map[]
    else
      var n := |ks| - 1;
      var m0 := LastWins(ks[..n], vs[..n]);
      LastWinsStep(ks[..n], ks[n], vs[..n], vs[n], m0, ks, vs);
      m0[ks[n] := vs[n]]
  }

  /** One step of `LastWins`: setting a final key keeps both of its guarantees. */
  lemma LastWinsStep<K, V>(init: seq<K>, key: K, vinit: seq<V>, v: V, m0: map<K, V>, ks: seq<K>, vs: seq<V>)
    requires |init| == |vinit| && |ks| == |init| + 1 && |vs| == |ks|
    requires init == ks[..|init|] && key == ks[|init|] && vinit == vs[..|init|] && v == vs[|init|]
    requires m0.Keys == set k | k in init
    requires forall i :: 0 <= i < |init| && IsLast(init, i) ==> m0[init[i]] == vinit[i]
    ensures m0[key := v].Keys == set k | k in ks
    ensures forall i :: 0 <= i < |ks| && IsLast(ks, i) ==> m0[key := v][ks[i]] == vs[i]
  {
    assert ks == init + [key] && vs == vinit + [v];
    forall i | 0 <= i < |ks| && IsLast(ks, i) ensures m0[key := v][ks[i]] == vs[i] {
      if i < |init| {
        assert ks[|init|] == key && key != ks[i];
        assert ks[i] == init[i] && (vinit + [v])[i] == vinit[i];
        assert IsLast(init, i) by {
          forall k | i < k < |init| ensures init[k] != init[i] {
            assert ks[k] == init[k];
          }
        }
      }
    }
  }

  /** Every key has a last occurrence, so the map is determined at every key. */
  lemma LastOccurrenceExists<K>(ks: seq<K>, i: int) returns (j: int)
    requires 0 <= i < |ks|
    ensures i <= j < |ks| && ks[j] == ks[i] && IsLast(ks, j)
  {
    j := i;
    while !IsLast(ks, j)
      invariant i <= j < |ks| && ks[j] == ks[i]
      decreases |ks| - j
    {
      var k :| j < k < |ks| && ks[k] == ks[j];
      j := k;
    }
  }
}
