/** Address blocks of a fixed width, in the sense of section 3.1 of RFC 4632 and
    section 2.3 of RFC 4291.

    An address is a number below 2^w.  A block is a masked address and a length; it
    denotes a dyadic interval.  Membership is computed the way `net.IPNet.Contains`
    does, by masking, and `ContainsIsInterval` shows that this is the interval. */
module Cidr {
  datatype Block = Block(ip: nat, len: nat)

  function Pow2(n: nat): (r: nat)
    ensures r >= 1
  {
    if n == 0 then 1 else 2 * Pow2(n - 1)
  }

  /** `a` without its last `n` bits. */
  function Shr(a: nat, n: nat): nat {
    if n == 0 then a else Shr(a / 2, n - 1)
  }

  /** `x` followed by `n` zero bits. */
  function Shl(x: nat, n: nat): nat {
    if n == 0 then x else 2 * Shl(x, n - 1)
  }

  /** Keeps the first `len` of `w` bits. */
  function Mask(w: nat, a: nat, len: nat): nat
    requires len <= w
  {
    Shl(Shr(a, w - len), w - len)
  }

  /** The block of length `len` that holds address `a`. */
  function Around(w: nat, a: nat, len: nat): Block
    requires len <= w
  {
    Block(Mask(w, a, len), len)
  }

  /** A block as parsing yields it: in range, and without host bits. */
  ghost predicate Proper(w: nat, b: Block) {
    b.len <= w && b.ip < Pow2(w) && Mask(w, b.ip, b.len) == b.ip
  }

  predicate Contains(w: nat, b: Block, a: nat)
    requires b.len <= w
  {
    Mask(w, a, b.len) == b.ip
  }

  function ParentOf(w: nat, b: Block): Block
    requires 0 < b.len <= w
  {
    Around(w, b.ip, b.len - 1)
  }

  function LeftHalf(b: Block): Block {
    Block(b.ip, b.len + 1)
  }

  function RightHalf(w: nat, b: Block): Block
    requires b.len < w
  {
    Block(b.ip + Pow2(w - b.len - 1), b.len + 1)
  }

  lemma {:induction false} ShrAdd(a: nat, m: nat, n: nat)
    ensures Shr(a, m + n) == Shr(Shr(a, m), n)
  {
    if m > 0 { ShrAdd(a / 2, m - 1, n); }
  }

  lemma {:induction false} ShlAdd(x: nat, m: nat, n: nat)
    ensures Shl(x, m + n) == Shl(Shl(x, n), m)
  {
    if m > 0 { ShlAdd(x, m - 1, n); }
  }

  lemma {:induction false} ShrShl(x: nat, n: nat)
    ensures Shr(Shl(x, n), n) == x
  {
    if n > 0 { ShrShl(x, n - 1); }
  }

  /** Dropping `n` bits leaves `x` exactly on the interval of 2^n addresses at `x`. */
  lemma {:induction false} ShrInterval(a: nat, n: nat, x: nat)
    ensures Shr(a, n) == x <==> Shl(x, n) <= a < Shl(x, n) + Pow2(n)
  {
    if n > 0 { ShrInterval(a / 2, n - 1, x); }
  }

  lemma {:induction false} ShlNext(x: nat, n: nat)
    ensures Shl(x + 1, n) == Shl(x, n) + Pow2(n)
  {
    if n > 0 { ShlNext(x, n - 1); }
  }

  lemma {:induction false} Pow2IsShl(n: nat)
    ensures Shl(1, n) == Pow2(n) && Shl(0, n) == 0
  {
    if n > 0 { Pow2IsShl(n - 1); }
  }

  lemma {:induction false} ShlMono(x: nat, y: nat, n: nat)
    requires x <= y
    ensures Shl(x, n) <= Shl(y, n)
  {
    if n > 0 { ShlMono(x, y, n - 1); }
  }

  /** Masking to `m` bits first changes nothing for a shorter mask. */
  lemma MaskMask(w: nat, a: nat, m: nat, l: nat)
    requires l <= m <= w
    ensures Mask(w, Mask(w, a, m), l) == Mask(w, a, l)
  {
    assert w - l == (w - m) + (m - l);
    ShrAdd(a, w - m, m - l);
    ShrAdd(Mask(w, a, m), w - m, m - l);
    ShrShl(Shr(a, w - m), w - m);
  }

  lemma MaskBound(w: nat, a: nat, l: nat)
    requires l <= w
    ensures Mask(w, a, l) <= a
  {
    ShrInterval(a, w - l, Shr(a, w - l));
  }

  lemma AroundProper(w: nat, a: nat, l: nat)
    requires l <= w && a < Pow2(w)
    ensures Proper(w, Around(w, a, l)) && Contains(w, Around(w, a, l), a)
  {
    MaskMask(w, a, l, l);
    MaskBound(w, a, l);
  }

  /** The masked comparison of `net.IPNet.Contains` decides interval membership. */
  lemma ContainsIsInterval(w: nat, b: Block, a: nat)
    requires Proper(w, b)
    ensures Contains(w, b, a) <==> b.ip <= a < b.ip + Pow2(w - b.len)
  {
    var n := w - b.len;
    var x := Shr(b.ip, n);
    ShrInterval(a, n, x);
    ShrShl(Shr(a, n), n);
    ShrShl(x, n);
  }

  /** A block is the left or the right half of the block one bit shorter. */
  lemma Halves(w: nat, a: nat, l: nat)
    requires l < w
    ensures Around(w, a, l + 1) == LeftHalf(Around(w, a, l)) || Around(w, a, l + 1) == RightHalf(w, Around(w, a, l))
  {
    var n := w - l - 1;
    var x := Shr(a, n);
    ShrAdd(a, n, 1);
    ShlAdd(x / 2, n, 1);
    assert Shr(x, 1) == x / 2 && Shl(x / 2, 1) == x / 2 * 2;
    ShlNext(x / 2 * 2, n);
  }

  /** A proper block ends inside the address space. */
  lemma TopFits(w: nat, b: Block)
    requires Proper(w, b)
    ensures b.ip + Pow2(w - b.len) <= Pow2(w)
  {
    var n, x := w - b.len, Shr(b.ip, w - b.len);
    Pow2IsShl(w);
    Pow2IsShl(b.len);
    ShlAdd(1, n, b.len);
    if x >= Pow2(b.len) {
      ShlMono(Pow2(b.len), x, n);
    }
    ShlNext(x, n);
    ShlMono(x + 1, Pow2(b.len), n);
  }

  /** Both halves of a proper block are proper, distinct, and have it as parent. */
  lemma HalvesProper(w: nat, b: Block)
    requires Proper(w, b) && b.len < w
    ensures Proper(w, LeftHalf(b)) && Proper(w, RightHalf(w, b)) && LeftHalf(b) != RightHalf(w, b)
    ensures ParentOf(w, LeftHalf(b)) == b == ParentOf(w, RightHalf(w, b))
  {
    var n := w - b.len - 1;
    var x := Shr(b.ip, n + 1);
    ShlAdd(x, n, 1);
    assert Shl(x, 1) == 2 * x;
    ShlNext(2 * x, n);
    ShrShl(2 * x, n);
    ShrShl(2 * x + 1, n);
    ShrAdd(b.ip + Pow2(n), n, 1);
    assert Shr(2 * x + 1, 1) == x;
    TopFits(w, b);
  }

  // ---- Blocks by division ----

  lemma {:induction false} ShlIsProduct(x: nat, n: nat)
    ensures Shl(x, n) == x * Pow2(n)
  {
    if n > 0 { ShlIsProduct(x, n - 1); }
  }

  lemma DivisionIs(a: nat, p: nat, x: nat)
    requires p > 0 && x * p <= a < (x + 1) * p
    ensures a / p == x
  {
    var q := a / p;
    assert a == q * p + a % p;
    assert q < x ==> (q + 1) * p <= x * p;
    assert x < q ==> (x + 1) * p <= q * p;
  }

  lemma ShrIsQuotient(a: nat, n: nat)
    ensures Shr(a, n) == a / Pow2(n)
  {
    var x := Shr(a, n);
    ShrInterval(a, n, x);
    ShlIsProduct(x, n);
    ShlIsProduct(x + 1, n);
    DivisionIs(a, Pow2(n), x);
  }

  /** Two addresses have the same block of a length exactly when they agree in the bits above it. */
  lemma SameBlockIff(w: nat, a: nat, b: nat, l: nat)
    requires l <= w
    ensures Around(w, a, l) == Around(w, b, l) <==> a / Pow2(w - l) == b / Pow2(w - l)
  {
    ShrIsQuotient(a, w - l);
    ShrIsQuotient(b, w - l);
    ShrShl(Shr(a, w - l), w - l);
    ShrShl(Shr(b, w - l), w - l);
  }
}
