/** The countdown shared by the scheduler, the Redis node and the concurrent node: an atomic counter that
    starts at the number of tokens and is decremented once for each token.  The counter is always the number
    of tokens not yet spent, so the decrement that sees the value 1 is the one that spends the last token. */
module Countdown {

  /** The tokens of a counter that starts at n. */
  ghost function Below(n: nat): (fs: set<nat>)
    ensures |fs| == n && forall f: nat :: f in fs <==> f < n
  {
    if n == 0 then {} else Below(n - 1) + {n - 1}
  }

  /** The value of a counter whose tokens in `spent` have been used up. */
  ghost function Left<T>(tokens: set<T>, spent: set<T>): nat {
    |tokens - spent|
  }

  /** A decrement sees exactly the value the counter had, and it sees 1 only when its token is the last one. */
  lemma Spend<T>(tokens: set<T>, spent: set<T>, x: T)
    requires x in tokens && x !in spent
    ensures Left(tokens, spent) >= 1
    ensures Left(tokens, spent + {x}) == Left(tokens, spent) - 1
    ensures Left(tokens, spent) == 1 <==> tokens <= spent + {x}
  {
    assert tokens - (spent + {x}) == (tokens - spent) - {x};
    if Left(tokens, spent) == 1 {
      assert |(tokens - spent) - {x}| == 0;
      assert tokens <= spent + {x};
    }
    if tokens <= spent + {x} {
      assert tokens - spent == {x};
    }
  }

  /** Tokens of another counter do not move this one. */
  lemma Other<T>(tokens: set<T>, spent: set<T>, x: T)
    requires x !in tokens
    ensures Left(tokens, spent + {x}) == Left(tokens, spent)
  {
    assert tokens - (spent + {x}) == tokens - spent;
  }

  /** The counter is at zero exactly when every token has been spent. */
  lemma Zero<T>(tokens: set<T>, spent: set<T>)
    ensures Left(tokens, spent) == 0 <==> tokens <= spent
  {
    if tokens - spent == {} {
      forall x | x in tokens ensures x in spent {
        assert x !in tokens - spent;
      }
    }
  }

  /** A subset has no more elements. */
  lemma SubsetSize<T>(a: set<T>, b: set<T>)
    requires a <= b
    ensures |a| <= |b|
  {
    assert b == a + (b - a);
  }

  /** A proper subset has fewer. */
  lemma ProperSubsetSize<T>(a: set<T>, b: set<T>)
    requires a <= b
    ensures |a| <= |b| && (a < b ==> |a| < |b|)
  {
    assert b == a + (b - a);
    if a < b {
      assert b - a != {};
    }
  }

  /** A set of naturals below n has at most n elements, and n of them only when it has them all. */
  lemma {:induction false} BoundedSize(a: set<nat>, n: nat)
    requires forall x :: x in a ==> x < n
    ensures |a| <= n
    ensures |a| == n ==> forall x: nat :: x < n ==> x in a
  {
    if n == 0 {
      assert a == {};
    } else {
      var b := a - {n - 1};
      BoundedSize(b, n - 1);
      if n - 1 in a {
        assert |a| == |b| + 1;
      } else {
        assert a == b;
      }
    }
  }

  /** A list without repetition has as many elements as positions. */
  lemma {:induction false} DistinctSize<T>(p: seq<T>)
    requires forall i, j :: 0 <= i < j < |p| ==> p[i] != p[j]
    ensures |set x | x in p| == |p|
  {
    if p == [] {
      assert (set x | x in p) == {};
    } else {
      var q := p[..|p| - 1];
      DistinctSize(q);
      assert (set x | x in p) == (set x | x in q) + {p[|p| - 1]} by {
        assert p == q + [p[|p| - 1]];
      }
      assert p[|p| - 1] !in q;
    }
  }
}
