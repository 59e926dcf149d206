/** Small vocabulary shared by the models. */
module Common {
  datatype Option<+T> = None | Some(value: T) {
    function GetOr(default: T): T {
      match this
      case Some(v) => v
      case None => default
    }
  }

  function Max(a: int, b: int): int {
    if a < b then b else a
  }

  /** A finite non-empty set of naturals has a largest element. */
  lemma {:induction false} Largest(s: set<nat>) returns (m: nat)
    requires s != {}
    ensures m in s && forall x | x in s :: x <= m
    decreases |s|
  {
    var x :| x in s;
    var rest := s - {x};
    assert forall y | y in s :: y == x || y in rest;
    if rest == {} {
      m := x;
    } else {
      var n := Largest(rest);
      m := if x < n then n else x;
    }
  }

  /** A set of naturals below n has at most n members, fewer if it misses one, and n if it misses none. */
  lemma {:induction false} BelowBound(s: set<nat>, n: nat)
    requires forall x | x in s :: x < n
    ensures |s| <= n
    ensures (exists x | 0 <= x < n :: x !in s) ==> |s| <= n - 1
    ensures (forall x | 0 <= x < n :: x in s) ==> |s| == n
    decreases n
  {
    if n == 0 {
      assert s == {};
    } else {
      var rest := s - {n - 1};
      BelowBound(rest, n - 1);
      if n - 1 in s {
        assert s == rest + {n - 1};
        assert forall x | 0 <= x < n - 1 :: x in s <==> x in rest;
      } else {
        assert s == rest;
      }
    }
  }

  lemma {:induction false} SubsetSize<T>(a: set<T>, b: set<T>)
    requires a <= b
    ensures |a| <= |b|
  {
    assert b == a + (b - a);
  }

  /** A map that is injective on a set maps it to a set of the same size. */
  lemma {:induction false} ImageSize(f: map<nat, nat>, s: set<nat>)
    requires s <= f.Keys && forall t, u | t in s && u in s && f[t] == f[u] :: t == u
    ensures |set t | t in s :: f[t]| == |s|
    decreases |s|
  {
    if t :| t in s {
      var rest := s - {t};
      ImageSize(f, rest);
      assert s == rest + {t};
      assert (set u | u in s :: f[u]) == (set u | u in rest :: f[u]) + {f[t]};
    }
  }

  /** If every member of s is the image of some member of t, s is no larger than t. */
  lemma {:induction false} Covered<T(!new)>(s: set<T>, t: set<nat>, f: nat -> T)
    requires forall x | x in s :: exists w :: w in t && f(w) == x
    ensures |s| <= |t|
    decreases |s|
  {
    if x :| x in s {
      var w :| w in t && f(w) == x;
      assert s == (s - {x}) + {x};
      assert t == (t - {w}) + {w};
      Covered(s - {x}, t - {w}, f);
    }
  }
}
