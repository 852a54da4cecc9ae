/** Facts about finite sets, and the sum of a finite map's values. */
module Collections {

  lemma SomeMember<T>(s: set<T>)
    requires s != {}
    ensures exists x :: x in s
  {
    assert (forall x :: x !in s) ==> s == {};
  }

  lemma AnyMember<T>(s: set<T>) returns (x: T)
    requires s != {}
    ensures x in s
  {
    SomeMember(s);
    x :| x in s;
  }

  lemma {:induction false} SubsetSize<T>(a: set<T>, b: set<T>)
    requires a <= b
    ensures |a| <= |b|
    ensures |a| == |b| ==> a == b
  {
    if a != {} {
      SomeMember(a);
      var x :| x in a;
      SubsetSize(a - {x}, b - {x});
      assert a == a - {x} + {x} && b == b - {x} + {x};
    } else {
      assert |b| == 0 ==> b == {};
    }
  }

  /** The sum of a function over a set. */
  ghost function Sum<K>(s: set<K>, f: K -> nat): nat
    decreases |s|
  {
    if s == {} then 0
    else
      SomeMember(s);
      var x :| x in s;
      f(x) + Sum(s - {x}, f)
  }

  /** The sum does not depend on the order in which the members are taken. */
  lemma {:induction false} SumRemove<K>(s: set<K>, f: K -> nat, x: K)
    requires x in s
    ensures Sum(s, f) == f(x) + Sum(s - {x}, f)
    decreases |s|
  {
    SomeMember(s);
    var y :| y in s && Sum(s, f) == f(y) + Sum(s - {y}, f);
    if y != x {
      SumRemove(s - {y}, f, x);
      SumRemove(s - {x}, f, y);
      assert s - {y} - {x} == s - {x} - {y};
    }
  }

  /** Lowering values cannot raise the sum. */
  lemma {:induction false} SumMonotone<K>(s: set<K>, low: K -> nat, high: K -> nat)
    requires forall x | x in s :: low(x) <= high(x)
    ensures Sum(s, low) <= Sum(s, high)
    decreases |s|
  {
    if s != {} {
      var x := AnyMember(s);
      SumRemove(s, low, x);
      SumRemove(s, high, x);
      SumMonotone(s - {x}, low, high);
    }
  }

  /** If one value is lowered, the sum falls. */
  lemma SumStrict<K>(s: set<K>, low: K -> nat, high: K -> nat, x: K)
    requires forall y | y in s :: low(y) <= high(y)
    requires x in s && low(x) < high(x)
    ensures Sum(s, low) < Sum(s, high)
  {
    SumRemove(s, low, x);
    SumRemove(s, high, x);
    SumMonotone(s - {x}, low, high);
  }

  lemma {:induction false} SumPositive<K>(s: set<K>, f: K -> nat) returns (x: K)
    requires Sum(s, f) > 0
    ensures x in s && f(x) > 0
    decreases |s|
  {
    x := AnyMember(s);
    if f(x) == 0 {
      SumRemove(s, f, x);
      x := SumPositive(s - {x}, f);
    }
  }

  lemma Distribute(n: nat, bound: nat)
    ensures (n + 1) * bound == n * bound + bound
  {
  }

  /** A sum of values none of which exceeds a bound. */
  lemma {:induction false} SumBounded<K>(s: set<K>, f: K -> nat, bound: nat)
    requires forall x | x in s :: f(x) <= bound
    ensures Sum(s, f) <= |s| * bound
    decreases |s|
  {
    if s != {} {
      var x := AnyMember(s);
      var n := |s| - 1;
      SumRemove(s, f, x);
      SumBounded(s - {x}, f, bound);
      assert |s| * bound == n * bound + bound by { Distribute(n, bound); }
    }
  }
}
