/** Account names, and the other 64-bit table keys.  The value 0 is the empty name. */
module Names {

  const KEY_LIMIT: nat := 0x1_0000_0000_0000_0000

  type Name = n: nat | n < KEY_LIMIT

  const NO_NAME: Name := 0

  datatype Option<+T> = None | Some(value: T)

  predicate IsKey(n: nat) {
    n < KEY_LIMIT
  }

  ghost function AllNames(): set<Name> {
    set n: Name | 0 <= n < KEY_LIMIT && IsKey(n)
  }
}

/** Sums of real-valued quantities over every possible table key. */
module RealSums {
  import opened Names

  ghost function SumOver(s: set<Name>, f: Name -> real): real {
    if s == {} then 0.0
    else
      var x :| x in s;
      f(x) + SumOver(s - {x}, f)
  }

  ghost function Total(f: Name -> real): real {
    SumOver(AllNames(), f)
  }

  lemma {:induction false} Pick(s: set<Name>, f: Name -> real, k: Name)
    requires k in s
    ensures SumOver(s, f) == f(k) + SumOver(s - {k}, f)
    decreases s
  {
    var x :| x in s && SumOver(s, f) == f(x) + SumOver(s - {x}, f);
    if x != k {
      Pick(s - {x}, f, k);
      assert s - {x} - {k} == s - {k} - {x};
      Pick(s - {k}, f, x);
    }
  }

  lemma {:induction false} SumEq(s: set<Name>, f: Name -> real, g: Name -> real)
    requires forall x: Name :: x in s ==> f(x) == g(x)
    ensures SumOver(s, f) == SumOver(s, g)
    decreases s
  {
    if s != {} {
      var x :| x in s;
      Pick(s, f, x);
      Pick(s, g, x);
      SumEq(s - {x}, f, g);
    }
  }

  lemma {:induction false} SumAdd(s: set<Name>, f: Name -> real, g: Name -> real, h: Name -> real)
    requires forall x: Name :: x in s ==> h(x) == f(x) + g(x)
    ensures SumOver(s, h) == SumOver(s, f) + SumOver(s, g)
    decreases s
  {
    if s != {} {
      var x :| x in s;
      Pick(s, f, x);
      Pick(s, g, x);
      Pick(s, h, x);
      SumAdd(s - {x}, f, g, h);
    }
  }

  ghost predicate ScaledAt(g: Name -> real, c: real, k: Name -> real, x: Name) {
    k(x) == c * g(x)
  }

  /** The scaled summands are given, so that no product hides under a quantifier. */
  lemma {:induction false} SumScale(s: set<Name>, g: Name -> real, c: real, k: Name -> real)
    requires forall x: Name {:trigger ScaledAt(g, c, k, x)} :: x in s ==> ScaledAt(g, c, k, x)
    ensures SumOver(s, k) == c * SumOver(s, g)
    decreases s
  {
    if s == {} {
      assert SumOver(s, k) == SumOver(s, g) == 0.0;
    } else {
      var x :| x in s;
      Pick(s, g, x);
      Pick(s, k, x);
      SumScale(s - {x}, g, c, k);
      ScaledOne(g, c, k, x);
      ScaleStep(c, g(x), SumOver(s - {x}, g), k(x), SumOver(s - {x}, k), SumOver(s, g));
    }
  }

  lemma ScaledOne(g: Name -> real, c: real, k: Name -> real, x: Name)
    requires ScaledAt(g, c, k, x)
    ensures k(x) == c * g(x)
  {
  }

  lemma ScaleStep(c: real, g: real, gs: real, k: real, ks: real, total: real)
    requires k == c * g && ks == c * gs && total == g + gs
    ensures k + ks == c * total
  {
  }

  /** h is f plus c times g, key by key, so the totals are related the same way. */
  lemma TotalCombine(f: Name -> real, g: Name -> real, c: real, h: Name -> real)
    requires forall x: Name {:trigger h(x)} :: h(x) == f(x) + c * g(x)
    ensures Total(h) == Total(f) + c * Total(g)
  {
    var k := (x: Name) => h(x) - f(x);
    forall x: Name
      ensures ScaledAt(g, c, k, x)
    {
      Difference(h(x), f(x), c * g(x), k(x));
    }
    SumScale(AllNames(), g, c, k);
    SumAdd(AllNames(), f, k, h);
  }

  lemma Difference(h: real, f: real, scaled: real, k: real)
    requires h == f + scaled && k == h - f
    ensures k == scaled
  {
  }

  lemma TotalEq(f: Name -> real, g: Name -> real)
    requires forall x: Name :: f(x) == g(x)
    ensures Total(f) == Total(g)
  {
    SumEq(AllNames(), f, g);
  }

  /** Changing one summand changes the total by the same amount. */
  lemma TotalPoint(f: Name -> real, g: Name -> real, k: Name)
    requires forall x: Name :: x != k ==> g(x) == f(x)
    ensures Total(g) == Total(f) + g(k) - f(k)
  {
    var s := AllNames();
    assert k in s;
    Pick(s, f, k);
    Pick(s, g, k);
    SumEq(s - {k}, f, g);
  }

  lemma {:induction false} SumNonneg(s: set<Name>, f: Name -> real)
    requires forall x: Name :: x in s ==> f(x) >= 0.0
    ensures SumOver(s, f) >= 0.0
    decreases s
  {
    if s != {} {
      var x :| x in s;
      Pick(s, f, x);
      SumNonneg(s - {x}, f);
    }
  }

  lemma TotalNonneg(f: Name -> real)
    requires forall x: Name :: f(x) >= 0.0
    ensures Total(f) >= 0.0
  {
    SumNonneg(AllNames(), f);
  }

  lemma TotalAtLeast(f: Name -> real, k: Name)
    requires forall x: Name :: f(x) >= 0.0
    ensures f(k) <= Total(f)
  {
    assert k in AllNames();
    Pick(AllNames(), f, k);
    SumNonneg(AllNames() - {k}, f);
  }

  lemma {:induction false} SumZero(s: set<Name>, f: Name -> real)
    requires forall x: Name :: x in s ==> f(x) == 0.0
    ensures SumOver(s, f) == 0.0
    decreases s
  {
    if s != {} {
      var x :| x in s;
      Pick(s, f, x);
      SumZero(s - {x}, f);
    }
  }

  lemma TotalZero(f: Name -> real)
    requires forall x: Name :: f(x) == 0.0
    ensures Total(f) == 0.0
  {
    SumZero(AllNames(), f);
  }
}

/** Sums of integer amounts over every possible table key. */
module IntSums {
  import opened Names

  ghost function SumOver(s: set<Name>, f: Name -> int): int {
    if s == {} then 0
    else
      var x :| x in s;
      f(x) + SumOver(s - {x}, f)
  }

  ghost function Total(f: Name -> int): int {
    SumOver(AllNames(), f)
  }

  lemma {:induction false} Pick(s: set<Name>, f: Name -> int, k: Name)
    requires k in s
    ensures SumOver(s, f) == f(k) + SumOver(s - {k}, f)
    decreases s
  {
    var x :| x in s && SumOver(s, f) == f(x) + SumOver(s - {x}, f);
    if x != k {
      Pick(s - {x}, f, k);
      assert s - {x} - {k} == s - {k} - {x};
      Pick(s - {k}, f, x);
    }
  }

  lemma {:induction false} SumEq(s: set<Name>, f: Name -> int, g: Name -> int)
    requires forall x: Name :: x in s ==> f(x) == g(x)
    ensures SumOver(s, f) == SumOver(s, g)
    decreases s
  {
    if s != {} {
      var x :| x in s;
      Pick(s, f, x);
      Pick(s, g, x);
      SumEq(s - {x}, f, g);
    }
  }

  lemma TotalEq(f: Name -> int, g: Name -> int)
    requires forall x: Name :: f(x) == g(x)
    ensures Total(f) == Total(g)
  {
    SumEq(AllNames(), f, g);
  }

  lemma TotalPoint(f: Name -> int, g: Name -> int, k: Name)
    requires forall x: Name :: x != k ==> g(x) == f(x)
    ensures Total(g) == Total(f) + g(k) - f(k)
  {
    var s := AllNames();
    assert k in s;
    Pick(s, f, k);
    Pick(s, g, k);
    SumEq(s - {k}, f, g);
  }

  lemma {:induction false} SumNonneg(s: set<Name>, f: Name -> int)
    requires forall x: Name :: x in s ==> f(x) >= 0
    ensures SumOver(s, f) >= 0
    decreases s
  {
    if s != {} {
      var x :| x in s;
      Pick(s, f, x);
      SumNonneg(s - {x}, f);
    }
  }

  lemma TotalNonneg(f: Name -> int)
    requires forall x: Name :: f(x) >= 0
    ensures Total(f) >= 0
  {
    SumNonneg(AllNames(), f);
  }

  lemma TotalAtLeast(f: Name -> int, k: Name)
    requires forall x: Name :: f(x) >= 0
    ensures 0 <= f(k) <= Total(f)
  {
    assert k in AllNames();
    Pick(AllNames(), f, k);
    SumNonneg(AllNames() - {k}, f);
  }

  lemma {:induction false} SumZero(s: set<Name>, f: Name -> int)
    requires forall x: Name :: x in s ==> f(x) == 0
    ensures SumOver(s, f) == 0
    decreases s
  {
    if s != {} {
      var x :| x in s;
      Pick(s, f, x);
      SumZero(s - {x}, f);
    }
  }

  lemma TotalZero(f: Name -> int)
    requires forall x: Name :: f(x) == 0
    ensures Total(f) == 0
  {
    SumZero(AllNames(), f);
  }

  lemma {:induction false} SumAdd(s: set<Name>, f: Name -> int, g: Name -> int, h: Name -> int)
    requires forall x: Name :: x in s ==> h(x) == f(x) + g(x)
    ensures SumOver(s, h) == SumOver(s, f) + SumOver(s, g)
    decreases s
  {
    if s != {} {
      var x :| x in s;
      Pick(s, f, x);
      Pick(s, g, x);
      Pick(s, h, x);
      SumAdd(s - {x}, f, g, h);
    }
  }

  lemma TotalAdd(f: Name -> int, g: Name -> int, h: Name -> int)
    requires forall x: Name :: h(x) == f(x) + g(x)
    ensures Total(h) == Total(f) + Total(g)
  {
    SumAdd(AllNames(), f, g, h);
  }
}
