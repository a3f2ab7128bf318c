/**
 The retention rule of a bounded cache of message indices: while there are too many, drop the
 smallest. `KeptExactly` states the rule without mentioning eviction; `TrimThenInsert` shows that
 it does not matter whether the trimming happens in between insertions or once at the end.
 */
module LargestIndices {

  lemma {:induction false} SubsetSize(a: set<nat>, b: set<nat>)
    requires a <= b
    ensures |a| <= |b|
    ensures |a| == |b| ==> a == b
  {
    assert b == a + (b - a);
  }

  lemma {:induction false} LeastExists(s: set<nat>) returns (m: nat)
    requires s != {}
    ensures m in s && forall y | y in s :: m <= y
  {
    var x :| x in s;
    var rest := s - {x};
    if rest == {} {
      assert s == {x};
      m := x;
    } else {
      var least := LeastExists(rest);
      m := if x < least then x else least;
      assert s == rest + {x};
    }
  }

  function Least(s: set<nat>): (m: nat)
    requires s != {}
    ensures m in s && forall y | y in s :: m <= y
  {
    assert exists m :: m in s && forall y | y in s :: m <= y by {
      var m := LeastExists(s);
    }
    var m :| m in s && forall y | y in s :: m <= y;
    m
  }

  function KeepLargest(s: set<nat>, n: nat): (kept: set<nat>)
    ensures kept <= s
    decreases |s|
  {
    if |s| <= n then s else KeepLargest(s - {Least(s)}, n)
  }

  lemma {:induction false} KeepsAtMost(s: set<nat>, n: nat)
    ensures |KeepLargest(s, n)| <= n
    decreases |s|
  {
    if |s| > n {
      KeepsAtMost(s - {Least(s)}, n);
    }
  }

  /** The indices of `s` above `x`. */
  function Above(s: set<nat>, x: nat): set<nat> {
    set y | y in s && x < y
  }

  /** An index is kept exactly when fewer than `n` indices are larger. */
  lemma {:induction false} KeptExactly(s: set<nat>, n: nat, x: nat)
    requires x in s
    ensures x in KeepLargest(s, n) <==> |Above(s, x)| < n
    decreases |s|
  {
    var least := Least(s);
    if |s| <= n {
      SubsetSize(Above(s, x), s - {x});
    } else if x == least {
      assert Above(s, x) == s - {x};
    } else {
      KeptExactly(s - {least}, n, x);
      assert Above(s - {least}, x) == Above(s, x);
    }
  }

  /** Trimming before an insertion is harmless: only the final trim matters. */
  lemma {:induction false} TrimThenInsert(s: set<nat>, x: nat, n: nat)
    ensures KeepLargest(KeepLargest(s, n) + {x}, n) == KeepLargest(s + {x}, n)
    decreases |s|
  {
    KeepsAtMost(s, n);
    if |s| > n {
      var least := Least(s);
      TrimThenInsert(s - {least}, x, n);
      DropLeastBeforeInsert(s, x, n);
    }
  }

  lemma {:induction false} DropLeastBeforeInsert(s: set<nat>, x: nat, n: nat)
    requires |s| > n
    ensures KeepLargest(s - {Least(s)} + {x}, n) == KeepLargest(s + {x}, n)
  {
    var m := Least(s);
    if x in s {
      assert s + {x} == s;
      assert x == m ==> s - {m} + {x} == s;
      assert x != m ==> s - {m} + {x} == s - {m};
    } else if m < x {
      assert s - {m} + {x} == s + {x} - {m};
      assert Least(s + {x}) == m;
    } else {
      InsertBelowAll(s, x, n);
      InsertBelowAll(s - {m}, x, n);
    }
  }

  /** An index below everything is the first to go. */
  lemma {:induction false} InsertBelowAll(s: set<nat>, x: nat, n: nat)
    requires |s| >= n && forall y | y in s :: x < y
    ensures KeepLargest(s + {x}, n) == KeepLargest(s, n)
  {
    assert Least(s + {x}) == x && s + {x} - {x} == s;
  }
}
