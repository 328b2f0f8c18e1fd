/** Finite sums over sequences (database tables in insertion order) and over sets (of user ids). */
module Sums {

  datatype Option<+T> = None | Some(value: T)

  /** The sum of `f` over the elements of `s`, counted with their multiplicity. */
  ghost function SeqSum<T>(s: seq<T>, f: T -> int): int
  {
    if s == [] then 0 else SeqSum(s[..|s| - 1], f) + f(s[|s| - 1])
  }

  lemma SeqSumAppend<T>(s: seq<T>, x: T, f: T -> int)
    ensures SeqSum(s + [x], f) == SeqSum(s, f) + f(x)
  {
    assert (s + [x])[..|s|] == s;
  }

  lemma {:induction false} SeqSumConcat<T>(s: seq<T>, t: seq<T>, f: T -> int)
    ensures SeqSum(s + t, f) == SeqSum(s, f) + SeqSum(t, f)
  {
    if t == [] {
      assert s + t == s;
    } else {
      assert (s + t)[..|s + t| - 1] == s + t[..|t| - 1];
      SeqSumConcat(s, t[..|t| - 1], f);
    }
  }

  /** Overwriting one row changes the sum by the difference that row makes. */
  lemma {:induction false} SeqSumUpdate<T>(s: seq<T>, i: nat, x: T, f: T -> int)
    requires i < |s|
    ensures SeqSum(s[i := x], f) == SeqSum(s, f) - f(s[i]) + f(x)
  {
    var n := |s| - 1;
    if i == n {
      assert s[i := x][..n] == s[..n];
    } else {
      assert s[i := x][..n] == s[..n][i := x];
      SeqSumUpdate(s[..n], i, x, f);
    }
  }

  /** A single row is at most the whole when no row is negative. */
  lemma {:induction false} SeqSumAtLeast<T>(s: seq<T>, i: nat, f: T -> int)
    requires i < |s|
    requires forall x :: x in s ==> 0 <= f(x)
    ensures f(s[i]) <= SeqSum(s, f)
  {
    SeqSumNonNegative(s[..|s| - 1], f);
    if i < |s| - 1 {
      SeqSumAtLeast(s[..|s| - 1], i, f);
    }
  }

  lemma {:induction false} SeqSumNonNegative<T>(s: seq<T>, f: T -> int)
    requires forall x :: x in s ==> 0 <= f(x)
    ensures 0 <= SeqSum(s, f)
  {
    if s != [] {
      SeqSumNonNegative(s[..|s| - 1], f);
    }
  }

  lemma {:induction false} SeqSumSame<T>(s: seq<T>, f: T -> int, g: T -> int)
    requires forall x :: x in s ==> f(x) == g(x)
    ensures SeqSum(s, f) == SeqSum(s, g)
  {
    if s != [] {
      SeqSumSame(s[..|s| - 1], f, g);
    }
  }

  /** The sum of `f` over the elements of `s`. */
  ghost function SetSum<T>(s: set<T>, f: T -> int): int
  {
    if s == {} then 0 else
      var x :| x in s;
      f(x) + SetSum(s - {x}, f)
  }

  lemma AnyOf<T>(s: set<T>) returns (x: T)
    requires s != {}
    ensures x in s
  {
    x :| x in s;
  }

  /** Any element may be split off first. */
  lemma {:induction false} SetSumSplit<T>(s: set<T>, x: T, f: T -> int)
    requires x in s
    ensures SetSum(s, f) == f(x) + SetSum(s - {x}, f)
    decreases |s|
  {
    var y :| y in s && SetSum(s, f) == f(y) + SetSum(s - {y}, f);
    if y != x {
      SetSumSplit(s - {y}, x, f);
      SetSumSplit(s - {x}, y, f);
      assert s - {y} - {x} == s - {x} - {y};
    }
  }

  lemma SetSumAdd<T>(s: set<T>, x: T, f: T -> int)
    requires x !in s
    ensures SetSum(s + {x}, f) == SetSum(s, f) + f(x)
  {
    SetSumSplit(s + {x}, x, f);
    assert s + {x} - {x} == s;
  }

  lemma SetSumOne<T>(x: T, f: T -> int)
    ensures SetSum({x}, f) == f(x)
  {
    SetSumSplit({x}, x, f);
    assert {x} - {x} == {};
  }

  lemma {:induction false} SetSumSame<T>(s: set<T>, f: T -> int, g: T -> int)
    requires forall x :: x in s ==> f(x) == g(x)
    ensures SetSum(s, f) == SetSum(s, g)
    decreases |s|
  {
    if s != {} {
      var x :| x in s;
      SetSumSplit(s, x, f);
      SetSumSplit(s, x, g);
      SetSumSame(s - {x}, f, g);
    }
  }

  /** Elements on which `f` vanishes may be dropped. */
  lemma {:induction false} SetSumSupport<T>(s: set<T>, t: set<T>, f: T -> int)
    requires t <= s
    requires forall x :: x in s - t ==> f(x) == 0
    ensures SetSum(s, f) == SetSum(t, f)
    decreases |s|
  {
    if s <= t {
      assert s == t;
    } else {
      var x :| x in s && x !in t;
      SetSumSplit(s, x, f);
      SetSumSupport(s - {x}, t, f);
    }
  }

  lemma {:induction false} SetSumPlus<T>(s: set<T>, f: T -> int, g: T -> int, h: T -> int)
    requires forall x :: x in s ==> h(x) == f(x) + g(x)
    ensures SetSum(s, h) == SetSum(s, f) + SetSum(s, g)
    decreases |s|
  {
    if s != {} {
      var x :| x in s;
      SetSumSplit(s, x, f);
      SetSumSplit(s, x, g);
      SetSumSplit(s, x, h);
      SetSumPlus(s - {x}, f, g, h);
    }
  }

  ghost function Scaled<T>(k: int, f: T -> int): T -> int
  {
    x => k * f(x)
  }

  lemma {:induction false} SetSumScaled<T>(s: set<T>, k: int, f: T -> int)
    ensures SetSum(s, Scaled(k, f)) == k * SetSum(s, f)
    decreases |s|
  {
    if s != {} {
      var x :| x in s;
      SetSumSplit(s, x, f);
      SetSumSplit(s, x, Scaled(k, f));
      SetSumScaled(s - {x}, k, f);
      assert k * SetSum(s, f) == k * f(x) + k * SetSum(s - {x}, f);
    }
  }

  lemma {:induction false} SetSumAtMost<T>(s: set<T>, f: T -> int, g: T -> int)
    requires forall x :: x in s ==> f(x) <= g(x)
    ensures SetSum(s, f) <= SetSum(s, g)
    decreases |s|
  {
    if s != {} {
      var x :| x in s;
      SetSumSplit(s, x, f);
      SetSumSplit(s, x, g);
      SetSumAtMost(s - {x}, f, g);
    }
  }

  /** The sum of a real-valued `f` over the elements of `s`. */
  ghost function RealSum<T>(s: set<T>, f: T -> real): real
  {
    if s == {} then 0.0 else
      var x :| x in s;
      f(x) + RealSum(s - {x}, f)
  }

  lemma {:induction false} RealSumSplit<T>(s: set<T>, x: T, f: T -> real)
    requires x in s
    ensures RealSum(s, f) == f(x) + RealSum(s - {x}, f)
    decreases |s|
  {
    var y :| y in s && RealSum(s, f) == f(y) + RealSum(s - {y}, f);
    if y != x {
      RealSumSplit(s - {y}, x, f);
      RealSumSplit(s - {x}, y, f);
      assert s - {y} - {x} == s - {x} - {y};
    }
  }

  lemma {:induction false} RealSumSame<T>(s: set<T>, f: T -> real, g: T -> real)
    requires forall x :: x in s ==> f(x) == g(x)
    ensures RealSum(s, f) == RealSum(s, g)
    decreases |s|
  {
    if s != {} {
      var x :| x in s;
      RealSumSplit(s, x, f);
      RealSumSplit(s, x, g);
      RealSumSame(s - {x}, f, g);
    }
  }

  /** Two functions that differ at one element have sums that differ by as much. */
  lemma RealSumChange<T>(s: set<T>, x: T, f: T -> real, g: T -> real)
    requires x in s && forall y :: y in s && y != x ==> f(y) == g(y)
    ensures RealSum(s, g) == RealSum(s, f) - f(x) + g(x)
  {
    RealSumSplit(s, x, f);
    RealSumSplit(s, x, g);
    RealSumSame(s - {x}, f, g);
  }
}
