/** Facts about sequences shared by the modules: distinct elements and permutations. */
module Collections {
  /** No element occurs twice. */
  predicate Distinct<T(==)>(s: seq<T>) {
    forall i, j :: 0 <= i < j < |s| ==> s[i] != s[j]
  }

  lemma {:induction false} DistinctCountsOnce<T>(s: seq<T>, x: T)
    requires Distinct(s)
    ensures multiset(s)[x] <= 1
  {
    if |s| > 0 {
      assert s == [s[0]] + s[1..];
      assert Distinct(s[1..]) by {
        forall i, j | 0 <= i < j < |s[1..]| ensures s[1..][i] != s[1..][j] {
          assert s[1..][i] == s[i + 1] && s[1..][j] == s[j + 1];
        }
      }
      DistinctCountsOnce(s[1..], x);
      if x == s[0] {
        assert x !in s[1..] by {
          forall k | 0 <= k < |s[1..]| ensures s[1..][k] != x {
            assert s[1..][k] == s[k + 1];
          }
        }
      }
    }
  }

  /** A sequence is distinct exactly when its front is and its last element is new. */
  lemma DistinctSnoc<T>(s: seq<T>)
    requires |s| > 0
    ensures Distinct(s) <==> Distinct(s[..|s| - 1]) && s[|s| - 1] !in s[..|s| - 1]
  {
    var n := |s| - 1;
    var front := s[..n];
    if Distinct(s) {
      forall i, j | 0 <= i < j < n ensures front[i] != front[j] {
        assert front[i] == s[i] && front[j] == s[j];
      }
      forall k | 0 <= k < n ensures front[k] != s[n] {
        assert front[k] == s[k];
      }
    }
    if Distinct(front) && s[n] !in front {
      forall i, j | 0 <= i < j < |s| ensures s[i] != s[j] {
        if j < n {
          assert front[i] == s[i] && front[j] == s[j];
        } else {
          assert s[i] == front[i];
        }
      }
    }
  }

  lemma PermutationKeepsDistinct<T>(a: seq<T>, b: seq<T>)
    requires Distinct(a) && multiset(a) == multiset(b)
    ensures Distinct(b)
  {
    forall i, j | 0 <= i < j < |b| ensures b[i] != b[j] {
      if b[i] == b[j] {
        assert b == b[..j] + b[j..];
        assert b[i] in b[..j];
        assert b[j] in b[j..];
        assert multiset(b)[b[i]] == multiset(b[..j])[b[i]] + multiset(b[j..])[b[i]];
        DistinctCountsOnce(a, b[i]);
        assert false;
      }
    }
  }

  /** `s` without any copy of `x`, order kept. */
  function RemoveAll<T(==)>(s: seq<T>, x: T): (r: seq<T>)
    ensures |r| <= |s|
  {
    if s == [] then []
    else (if s[0] == x then [] else [s[0]]) + RemoveAll(s[1..], x)
  }

  /** What `RemoveAll` keeps: exactly the elements other than `x`. */
  lemma {:induction false} RemoveAllMembers<T>(s: seq<T>, x: T)
    ensures forall k :: 0 <= k < |RemoveAll(s, x)| ==> RemoveAll(s, x)[k] in s && RemoveAll(s, x)[k] != x
    ensures forall k :: 0 <= k < |s| && s[k] != x ==> s[k] in RemoveAll(s, x)
  {
    if s != [] {
      RemoveAllMembers(s[1..], x);
      var head := if s[0] == x then [] else [s[0]];
      var r, rest := RemoveAll(s, x), RemoveAll(s[1..], x);
      assert r == head + rest;
      forall k | 0 <= k < |r| ensures r[k] in s && r[k] != x {
        if k < |head| {
          assert r[k] == s[0];
        } else {
          assert r[k] == rest[k - |head|];
          assert rest[k - |head|] in s[1..];
        }
      }
      forall k | 0 <= k < |s| && s[k] != x ensures s[k] in r {
        if k > 0 {
          assert s[k] == s[1..][k - 1];
        }
      }
    }
  }

  /** The first occurrence of each element, in order: keep the head, drop its later copies, go on. */
  function Dedupe<T(==)>(s: seq<T>): seq<T>
    decreases |s|
  {
    if s == [] then [] else [s[0]] + Dedupe(RemoveAll(s[1..], s[0]))
  }

  /** The first occurrences hold exactly the elements of `s`. */
  lemma {:induction false} DedupeMembers<T>(s: seq<T>)
    ensures forall k :: 0 <= k < |Dedupe(s)| ==> Dedupe(s)[k] in s
    ensures forall k :: 0 <= k < |s| ==> s[k] in Dedupe(s)
    decreases |s|
  {
    if s != [] {
      var t := RemoveAll(s[1..], s[0]);
      DedupeMembers(t);
      RemoveAllMembers(s[1..], s[0]);
      var r := Dedupe(s);
      assert r == [s[0]] + Dedupe(t);
      forall k | 0 <= k < |r| ensures r[k] in s {
        if k > 0 {
          assert r[k] == Dedupe(t)[k - 1];
          assert Dedupe(t)[k - 1] in t;
          assert Dedupe(t)[k - 1] in s[1..];
        }
      }
      forall k | 0 <= k < |s| ensures s[k] in r {
        if k > 0 && s[k] != s[0] {
          assert s[k] == s[1..][k - 1];
          assert s[k] in t;
          var j :| 0 <= j < |t| && t[j] == s[k];
          assert t[j] in Dedupe(t);
        }
      }
    }
  }

  lemma {:induction false} RemoveAllSnoc<T>(s: seq<T>, x: T, y: T)
    ensures RemoveAll(s + [y], x) == RemoveAll(s, x) + (if y == x then [] else [y])
  {
    if s != [] {
      assert (s + [y])[1..] == s[1..] + [y];
      RemoveAllSnoc(s[1..], x, y);
    } else {
      assert [y][1..] == [];
    }
  }

  /** Removing the copies of `a` keeps every other element. */
  lemma RemoveAllKeepsOthers<T>(t: seq<T>, a: T, x: T)
    requires x != a
    ensures x in RemoveAll(t, a) <==> x in t
  {
    RemoveAllMembers(t, a);
    if x in t {
      var k :| 0 <= k < |t| && t[k] == x;
      assert t[k] in RemoveAll(t, a);
    }
    if x in RemoveAll(t, a) {
      var k :| 0 <= k < |RemoveAll(t, a)| && RemoveAll(t, a)[k] == x;
      assert RemoveAll(t, a)[k] in t;
    }
  }

  /** Appending an element adds it to the first occurrences exactly when it is new. */
  lemma {:induction false} DedupeSnoc<T>(s: seq<T>, x: T)
    ensures Dedupe(s + [x]) == if x in s then Dedupe(s) else Dedupe(s) + [x]
    decreases |s|
  {
    if s == [] {
      assert [x][1..] == [];
    } else if x == s[0] {
      DedupeSnocHead(s, x);
    } else {
      var ra := RemoveAll(s[1..], s[0]);
      DedupeSnoc(ra, x);
      RemoveAllKeepsOthers(s[1..], s[0], x);
      InTail(s, x);
      if x in s {
        DedupeSnocSeen(s, x);
      } else {
        DedupeSnocNew(s, x);
      }
    }
  }

  /** An element other than the head is in `s` exactly when it is in the tail. */
  lemma InTail<T>(s: seq<T>, x: T)
    requires s != [] && x != s[0]
    ensures x in s <==> x in s[1..]
  {
    assert s == [s[0]] + s[1..];
  }

  /** Appending a copy of the head adds nothing. */
  lemma DedupeSnocHead<T>(s: seq<T>, x: T)
    requires s != [] && x == s[0]
    ensures Dedupe(s + [x]) == Dedupe(s)
  {
    var ra := RemoveAll(s[1..], x);
    assert (s + [x])[0] == x && (s + [x])[1..] == s[1..] + [x];
    RemoveAllSnoc(s[1..], x, x);
    assert ra + [] == ra;
  }

  /** Appending an element that occurs after the head adds nothing, given that it adds nothing after removal. */
  lemma DedupeSnocSeen<T>(s: seq<T>, x: T)
    requires s != [] && x != s[0]
    requires Dedupe(RemoveAll(s[1..], s[0]) + [x]) == Dedupe(RemoveAll(s[1..], s[0]))
    ensures Dedupe(s + [x]) == Dedupe(s)
  {
    DedupeSnocUnfold(s, x);
  }

  /** Appending a new element adds it at the end, given that it does so after removal. */
  lemma DedupeSnocNew<T>(s: seq<T>, x: T)
    requires s != [] && x != s[0]
    requires Dedupe(RemoveAll(s[1..], s[0]) + [x]) == Dedupe(RemoveAll(s[1..], s[0])) + [x]
    ensures Dedupe(s + [x]) == Dedupe(s) + [x]
  {
    DedupeSnocUnfold(s, x);
    var d := Dedupe(RemoveAll(s[1..], s[0]));
    assert Dedupe(s) == [s[0]] + d;
    ConsSnoc(s[0], d, x);
  }

  lemma ConsSnoc<T>(h: T, d: seq<T>, x: T)
    ensures [h] + (d + [x]) == [h] + d + [x]
  {
  }

  /** The first occurrences of `s + [x]`, one step unfolded, when `x` is not the head. */
  lemma DedupeSnocUnfold<T>(s: seq<T>, x: T)
    requires s != [] && x != s[0]
    ensures Dedupe(s + [x]) == [s[0]] + Dedupe(RemoveAll(s[1..], s[0]) + [x])
  {
    assert (s + [x])[0] == s[0] && (s + [x])[1..] == s[1..] + [x];
    RemoveAllSnoc(s[1..], s[0], x);
  }

  lemma {:induction false} DedupeDistinct<T>(s: seq<T>)
    ensures Distinct(Dedupe(s))
    decreases |s|
  {
    if s != [] {
      var t := RemoveAll(s[1..], s[0]);
      var rest := Dedupe(t);
      DedupeDistinct(t);
      DedupeMembers(t);
      RemoveAllMembers(s[1..], s[0]);
      assert s[0] !in rest by {
        forall k | 0 <= k < |rest| ensures rest[k] != s[0] {
          assert rest[k] in t;
          var j :| 0 <= j < |t| && t[j] == rest[k];
        }
      }
      var r := [s[0]] + rest;
      forall i, j | 0 <= i < j < |r| ensures r[i] != r[j] {
        if i == 0 {
          assert r[j] == rest[j - 1];
        } else {
          assert r[i] == rest[i - 1] && r[j] == rest[j - 1];
        }
      }
    }
  }

  lemma DedupeSameMembers<T>(s: seq<T>, x: T)
    ensures x in Dedupe(s) <==> x in s
  {
    DedupeMembers(s);
    if x in s {
      var k :| 0 <= k < |s| && s[k] == x;
      assert s[k] in Dedupe(s);
    }
    if x in Dedupe(s) {
      var k :| 0 <= k < |Dedupe(s)| && Dedupe(s)[k] == x;
      assert Dedupe(s)[k] in s;
    }
  }
}
