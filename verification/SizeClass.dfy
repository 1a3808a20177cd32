/** Rounding a size up to a power of two by smearing bits (`nexthigher` in
    delegate-mq/extras/allocator/xallocator.cpp), for an unsigned integer of any width.  The machine's `|` is
    defined bit by bit on natural numbers; a right shift is a division. */
module SizeClass {
  function Pow2(n: nat): (r: nat)
    ensures r > 0
  {
    if n == 0 then 1 else 2 * Pow2(n - 1)
  }

  /** Bitwise or. */
  function Or(a: nat, b: nat): nat
    decreases a + b
  {
    if a == 0 then b
    else if b == 0 then a
    else 2 * Or(a / 2, b / 2) + if a % 2 == 1 || b % 2 == 1 then 1 else 0
  }

  lemma {:induction false} PowGrows(a: nat, b: nat)
    requires a <= b
    ensures Pow2(a) <= Pow2(b)
    ensures a < b ==> 2 * Pow2(a) <= Pow2(b)
    decreases b
  {
    if a < b {
      PowGrows(a, b - 1);
    }
  }

  /** One step of the definition of Or, also when an operand is zero. */
  lemma OrStep(a: nat, b: nat)
    ensures Or(a, b) / 2 == Or(a / 2, b / 2)
    ensures Or(a, b) % 2 == if a % 2 == 1 || b % 2 == 1 then 1 else 0
  {
  }

  lemma {:induction false} OrBound(a: nat, b: nat, n: nat)
    requires a < Pow2(n) && b < Pow2(n)
    ensures Or(a, b) < Pow2(n)
    decreases n
  {
    if n > 0 {
      OrStep(a, b);
      OrBound(a / 2, b / 2, n - 1);
    }
  }

  /** x / 2^n, as n halvings. */
  function Shift(x: nat, n: nat): nat
  {
    if n == 0 then x else Shift(x / 2, n - 1)
  }

  lemma {:induction false} ShiftAdd(x: nat, m: nat, n: nat)
    ensures Shift(x, m + n) == Shift(Shift(x, m), n)
    decreases m
  {
    if m > 0 {
      ShiftAdd(x / 2, m - 1, n);
    }
  }

  lemma {:induction false} ShiftLess(x: nat, n: nat)
    ensures Shift(x, n) <= x
    decreases n
  {
    if n > 0 {
      ShiftLess(x / 2, n - 1);
    }
  }

  lemma {:induction false} OrShift(a: nat, b: nat, n: nat)
    ensures Shift(Or(a, b), n) == Or(Shift(a, n), Shift(b, n))
    decreases n
  {
    if n > 0 {
      OrStep(a, b);
      OrShift(a / 2, b / 2, n - 1);
    }
  }

  /** The lowest `n` bits of x are ones. */
  predicate Ones(x: nat, n: nat)
  {
    n == 0 || (x % 2 == 1 && Ones(x / 2, n - 1))
  }

  lemma {:induction false} OnesValue(x: nat, n: nat)
    requires Ones(x, n) && x < Pow2(n)
    ensures x == Pow2(n) - 1
    decreases n
  {
    if n > 0 {
      OnesValue(x / 2, n - 1);
    }
  }

  lemma {:induction false} OnesOr(a: nat, b: nat, n: nat)
    requires Ones(a, n) || Ones(b, n)
    ensures Ones(Or(a, b), n)
    decreases n
  {
    if n > 0 {
      OrStep(a, b);
      OnesOr(a / 2, b / 2, n - 1);
    }
  }

  /** Ones above a shift, joined by ones below it. */
  lemma {:induction false} OnesJoin(x: nat, m: nat, n: nat)
    requires Ones(x, m) && Ones(Shift(x, m), n)
    ensures Ones(x, m + n)
    decreases m
  {
    if m > 0 {
      OnesJoin(x / 2, m - 1, n);
    }
  }

  /** x has t bits, and its top min(i, t) bits are ones. */
  predicate TopOnes(x: nat, t: nat, i: nat) {
    x < Pow2(t) && (if i < t then Ones(Shift(x, t - i), i) else Ones(x, t))
  }

  /** Shifting k of n ones out leaves n - k. */
  lemma {:induction false} OnesHigh(x: nat, n: nat, k: nat)
    requires Ones(x, n) && k <= n
    ensures Ones(Shift(x, k), n - k)
    decreases k
  {
    if k > 0 {
      OnesHigh(x / 2, n - 1, k - 1);
    }
  }

  /** The bits from position `low` on: n of them are ones because y has them, the i above because x does. */
  lemma SmearBits(x: nat, t: nat, i: nat, low: nat, n: nat)
    requires i <= t && low + n == t - i && n <= i && Ones(Shift(x, t - i), i)
    ensures Ones(Shift(Or(x, Shift(x, i)), low), n + i)
  {
    hide Or, Shift, Ones;
    var y := Shift(x, i);
    var u, v := Shift(x, low), Shift(y, low);
    OrShift(x, y, low);
    ShiftAdd(x, i, low);
    ShiftAdd(x, t - i, i - n);
    assert i + low == t - i + (i - n);
    OnesHigh(Shift(x, t - i), i, i - n);
    OnesOr(u, v, n);
    ShiftAdd(x, low, n);
    OrShift(u, v, n);
    OnesOr(Shift(u, n), Shift(v, n), i);
    OnesJoin(Or(u, v), n, i);
  }

  /** One round of smearing doubles the ones at the top. */
  lemma SmearDoubles(x: nat, t: nat, i: nat)
    requires TopOnes(x, t, i)
    ensures TopOnes(Or(x, Shift(x, i)), t, 2 * i)
  {
    hide Or, Ones;
    ShiftLess(x, i);
    OrBound(x, Shift(x, i), t);
    if i >= t {
      OnesOr(x, Shift(x, i), t);
    } else if 2 * i < t {
      SmearBits(x, t, i, t - 2 * i, i);
    } else {
      SmearBits(x, t, i, 0, t - i);
    }
  }

  // ---------------------------------------------------------------------------------------------
  // nexthigher
  // ---------------------------------------------------------------------------------------------

  /** The number of bits of x. */
  function Bits(x: nat): nat {
    if x == 0 then 0 else 1 + Bits(x / 2)
  }

  lemma {:induction false} BitsBound(x: nat)
    ensures x < Pow2(Bits(x)) && TopOnes(x, Bits(x), 1)
    ensures x > 0 ==> Pow2(Bits(x) - 1) <= x && Shift(x, Bits(x) - 1) == 1
  {
    if x > 0 {
      BitsBound(x / 2);
    }
  }

  lemma BitsWithin(x: nat, w: nat)
    requires x < Pow2(w)
    ensures Bits(x) <= w
  {
    BitsBound(x);
    if Bits(x) > w {
      PowGrows(w, Bits(x) - 1);
    }
  }

  /** Unsigned arithmetic in `w` bits: x modulo 2^w. */
  function Wrap(x: nat, w: nat): (r: nat)
    ensures r < Pow2(w)
    decreases x
  {
    if x < Pow2(w) then x else Wrap(x - Pow2(w), w)
  }

  lemma WrapIs(x: nat, w: nat)
    ensures x < Pow2(w) ==> Wrap(x, w) == x
    ensures Pow2(w) <= x < 2 * Pow2(w) ==> Wrap(x, w) == x - Pow2(w)
  {
  }

  /** What smearing comes to in `w` bits. */
  function RoundUp(k: nat, w: nat): nat {
    if k == 0 then 0 else Wrap(Pow2(Bits(k - 1)), w)
  }

  /** It is the least power of two that is not below k, as long as that has `w` bits; otherwise it wraps
      around to zero, and so it does for k == 0. */
  lemma RoundUpIs(k: nat, w: nat)
    requires w > 0
    ensures 1 <= k <= Pow2(w - 1) ==>
      && RoundUp(k, w) == Pow2(Bits(k - 1)) >= k && Bits(k - 1) < w
      && forall n: nat :: Pow2(n) >= k ==> RoundUp(k, w) <= Pow2(n)
    ensures Pow2(w - 1) < k <= Pow2(w) ==> RoundUp(k, w) == 0
    ensures k == 0 ==> RoundUp(k, w) == 0
  {
    hide Wrap;
    if k > 0 {
      var t := Bits(k - 1);
      BitsBound(k - 1);
      WrapIs(Pow2(t), w);
      if k <= Pow2(w - 1) {
        BitsWithin(k - 1, w - 1);
        PowGrows(t, w);
        forall n: nat | Pow2(n) >= k
          ensures Pow2(t) <= Pow2(n)
        {
          if n < t {
            PowGrows(n, t - 1);
          } else {
            PowGrows(t, n);
          }
        }
      } else if k <= Pow2(w) {
        BitsWithin(k - 1, w);
        if t < w {
          PowGrows(t, w - 1);
        }
        assert t == w;
      }
    }
  }

  /** The code: decrement with wrap-around, smear with shifts 1, 2, 4, ..., increment with wrap-around. */
  method NextHigher(k: nat, w: nat) returns (r: nat)
    requires w > 0 && k < Pow2(w)
    ensures r == RoundUp(k, w)
  {
    hide Or, Shift, TopOnes, Wrap, Bits;
    var x: nat := if k == 0 then Pow2(w) - 1 else k - 1;
    ghost var t := Bits(x);
    BitsBound(x);
    BitsWithin(x, w);
    var i: nat := 1;
    while i < w
      invariant i > 0 && TopOnes(x, t, i)
      decreases w - i
    {
      SmearDoubles(x, t, i);
      x := Or(x, Shift(x, i));
      i := 2 * i;
    }
    SmearEnds(x, t, i);
    r := Wrap(x + 1, w);
    if k == 0 {
      AllBits(w);
      WrapIs(Pow2(w), w);
    }
  }

  lemma SmearEnds(x: nat, t: nat, i: nat)
    requires TopOnes(x, t, i) && i >= t
    ensures x + 1 == Pow2(t)
  {
    OnesValue(x, t);
  }

  lemma AllBits(w: nat)
    ensures Bits(Pow2(w) - 1) == w
  {
    BitsBound(Pow2(w) - 1);
    BitsWithin(Pow2(w) - 1, w);
    if Bits(Pow2(w) - 1) < w {
      PowGrows(Bits(Pow2(w) - 1), w);
    }
  }
}
