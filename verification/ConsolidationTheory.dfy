/** What the consolidated list means.

    Every statement is about an arbitrary output that `Consolidation.Consolidate` may
    return, and so holds whatever the order in which maps were visited. */
module ConsolidationTheory {
  import opened Cidr
  import opened Consolidation

  // ---- Meaning ----

  ghost predicate InBlock(w: nat, b: Block, a: nat) {
    b.len <= w && b.ip <= a < b.ip + Pow2(w - b.len)
  }

  /** Address `a` lies in one of the intervals of `s`. */
  ghost predicate Denotes(w: nat, s: set<Block>, a: nat) {
    exists b :: b in s && InBlock(w, b, a)
  }

  ghost predicate SameAddresses(w: nat, s: set<Block>, t: set<Block>) {
    forall a: nat :: Denotes(w, s, a) <==> Denotes(w, t, a)
  }

  /** Every address of `b` is denoted by `s`. */
  ghost predicate Within(w: nat, s: set<Block>, b: Block) {
    forall a: nat :: InBlock(w, b, a) ==> Denotes(w, s, a)
  }

  /** A block of length 2 or more inside the addresses of `s` that no other such block contains. */
  ghost predicate IsMaximal(w: nat, s: set<Block>, b: Block) {
    && Proper(w, b) && b.len >= 2 && Within(w, s, b)
    && forall l: nat :: 2 <= l < b.len ==> !Within(w, s, Around(w, b.ip, l))
  }

  ghost predicate AllProper(w: nat, s: set<Block>) {
    forall b :: b in s ==> Proper(w, b)
  }

  ghost predicate AtLeast(s: set<Block>, l: nat) {
    forall b :: b in s ==> l <= b.len
  }

  lemma InBlockAround(w: nat, b: Block, a: nat)
    requires Proper(w, b)
    ensures InBlock(w, b, a) <==> Around(w, a, b.len) == b
  {
    ContainsIsInterval(w, b, a);
  }

  lemma DenotesAround(w: nat, s: set<Block>, a: nat)
    requires AllProper(w, s)
    ensures Denotes(w, s, a) <==> exists l: nat :: l <= w && Around(w, a, l) in s
  {
    if Denotes(w, s, a) {
      var b :| b in s && InBlock(w, b, a);
      InBlockAround(w, b, a);
    }
    if l: nat :| l <= w && Around(w, a, l) in s {
      InBlockAround(w, Around(w, a, l), a);
    }
  }

  // ---- The closure under merging ----

  lemma {:induction false} ClosureFacts(w: nat, s: set<Block>, p: int)
    requires p < w && AllProper(w, s)
    ensures var c := Closure(w, s, p);
            && s <= c && AllProper(w, c)
            && (forall b :: b in c && b !in s ==> 2 <= b.len <= p && BothHalves(w, c, b))
            && (forall b :: Proper(w, b) && 2 <= b.len <= p && BothHalves(w, c, b) ==> b in c)
    decreases p
  {
    if p >= 2 {
      var m := Mergeable(w, s, p);
      MergeableProper(w, s, p);
      ClosureFacts(w, s + m, p - 1);
      var c := Closure(w, s, p);
      forall b | b in m ensures BothHalves(w, c, b) { MergeableHasHalves(w, p, s, b); }
      forall b | Proper(w, b) && b.len == p && BothHalves(w, c, b) ensures b in c {
        HalvesProper(w, b);
        HalvesMerge(w, p, s, b, LeftHalf(b), RightHalf(w, b));
      }
    }
  }

  lemma {:induction false} AppendedAreClosed(w: nat, s: set<Block>, p: int, x: Prefix)
    requires p < w && AllProper(w, s) && x in Appended(w, s, p)
    ensures exists b :: b in Closure(w, s, p) && x == Entry(b)
    decreases p
  {
    var m := Mergeable(w, s, p);
    MergeableProper(w, s, p);
    if x in EntryBag(m) {
      var b :| b in m && x == Entry(b);
      ClosureFacts(w, s + m, p - 1);
    } else {
      AppendedAreClosed(w, s + m, p - 1, x);
    }
  }

  lemma {:induction false} NewBlocksAreAppended(w: nat, s: set<Block>, p: int, b: Block)
    requires p < w && AllProper(w, s) && b in Closure(w, s, p) && b !in s
    ensures Entry(b) in Appended(w, s, p)
    decreases p
  {
    var m := Mergeable(w, s, p);
    MergeableProper(w, s, p);
    if b !in m {
      NewBlocksAreAppended(w, s + m, p - 1, b);
    }
  }

  /** A merge adds no address: what the closure denotes, the list denoted. */
  lemma {:induction false} ClosureSound(w: nat, s: set<Block>, a: nat, l: nat)
    requires AllProper(w, s) && l <= w && Around(w, a, l) in Closure(w, s, w - 1)
    ensures Denotes(w, s, a)
    decreases w - l
  {
    if Around(w, a, l) in s {
      DenotesAround(w, s, a);
    } else {
      MergedHasHalves(w, s, Around(w, a, l));
      Halves(w, a, l);
      ClosureSound(w, s, a, l + 1);
    }
  }

  lemma MergedHasHalves(w: nat, s: set<Block>, b: Block)
    requires AllProper(w, s) && b in Closure(w, s, w - 1) && b !in s
    ensures b.len < w && BothHalves(w, Closure(w, s, w - 1), b)
  {
    ClosureFacts(w, s, w - 1);
  }

  /** Of the blocks of `c` around `a`, the shortest has no supernet in `c`. */
  lemma {:induction false} ShortestAround(w: nat, c: set<Block>, a: nat, l: nat) returns (m: nat)
    requires l <= w && Around(w, a, l) in c
    ensures m <= l && Around(w, a, m) in c && !HasSupernet(w, c, Around(w, a, m))
  {
    if HasSupernet(w, c, Around(w, a, l)) {
      var k: nat :| k < l && Around(w, Around(w, a, l).ip, k) in c;
      MaskMask(w, a, l, k);
      m := ShortestAround(w, c, a, k);
    } else {
      m := l;
    }
  }

  /** A block of length 2 or more is inside the denoted addresses only if the closure
      holds it or a block around it.  Induction runs from single addresses up. */
  lemma {:induction false} WithinHasCover(w: nat, s: set<Block>, b: Block)
    requires AllProper(w, s) && Proper(w, b) && b.len >= 2 && Within(w, s, b)
    ensures exists l: nat :: l <= b.len && Around(w, b.ip, l) in Closure(w, s, w - 1)
    decreases w - b.len
  {
    var c := Closure(w, s, w - 1);
    ClosureFacts(w, s, w - 1);
    if b.len == w {
      assert InBlock(w, b, b.ip);
      DenotesAround(w, s, b.ip);
    } else {
      HalvesProper(w, b);
      var left, right := LeftHalf(b), RightHalf(w, b);
      forall a: nat | InBlock(w, left, a) || InBlock(w, right, a) ensures Denotes(w, s, a) {
        assert InBlock(w, b, a);
      }
      WithinHasCover(w, s, left);
      WithinHasCover(w, s, right);
      CoverOfHalves(w, c, b);
    }
  }

  /** If both halves of `b` have a cover in `c`, then `b` has one or both halves are in `c`. */
  lemma CoverOfHalves(w: nat, c: set<Block>, b: Block)
    requires Proper(w, b) && b.len < w
    requires exists l: nat :: l <= b.len + 1 && Around(w, LeftHalf(b).ip, l) in c
    requires exists l: nat :: l <= b.len + 1 && Around(w, RightHalf(w, b).ip, l) in c
    ensures BothHalves(w, c, b) || exists l: nat :: l <= b.len && Around(w, b.ip, l) in c
  {
    HalvesProper(w, b);
    var l: nat :| l <= b.len + 1 && Around(w, LeftHalf(b).ip, l) in c;
    var r: nat :| r <= b.len + 1 && Around(w, RightHalf(w, b).ip, r) in c;
    if l <= b.len {
      assert Around(w, b.ip, l) in c;
    } else if r <= b.len {
      MaskMask(w, RightHalf(w, b).ip, b.len, r);
      assert Around(w, b.ip, r) in c;
    }
  }

  /** Blocks of the closure lie inside the denoted addresses. */
  lemma ClosureWithin(w: nat, s: set<Block>, b: Block)
    requires AllProper(w, s) && b in Closure(w, s, w - 1)
    ensures Within(w, s, b)
  {
    ClosureFacts(w, s, w - 1);
    forall a: nat | InBlock(w, b, a) ensures Denotes(w, s, a) {
      InBlockAround(w, b, a);
      ClosureSound(w, s, a, b.len);
    }
  }

  // ---- Theorems ----

  ghost predicate IsTop(w: nat, c: set<Block>, b: Block) {
    b in c && b.len <= w && !HasSupernet(w, c, b)
  }

  lemma OutputEntries(w: nat, ps: seq<Prefix>, out: seq<Prefix>, x: Prefix)
    requires IsOutput(w, ps, out)
    ensures var s := Blocks(w, ps);
            x in out <==> Keepable(w, Closure(w, s, w - 1), x) && (x in ps || x in Appended(w, s, w - 1))
  {
    assert x in out <==> multiset(out)[x] > 0;
    assert x in ps <==> multiset(ps)[x] > 0;
  }

  /** The output denotes the blocks of the closure that have no supernet in it. */
  lemma OutputBlocks(w: nat, ps: seq<Prefix>, out: seq<Prefix>)
    requires IsOutput(w, ps, out)
    ensures forall b :: b in Blocks(w, out) <==> IsTop(w, Closure(w, Blocks(w, ps), w - 1), b)
  {
    var c := Closure(w, Blocks(w, ps), w - 1);
    forall b | IsTop(w, c, b) ensures b in Blocks(w, out) { TopIsOutput(w, ps, out, b); }
    forall x | x in out
      ensures ParsePrefix(w, x).Net? && IsTop(w, c, ParsePrefix(w, x).block)
    {
      OutputIsTop(w, ps, out, x);
    }
  }

  lemma TopIsOutput(w: nat, ps: seq<Prefix>, out: seq<Prefix>, b: Block)
    requires IsOutput(w, ps, out) && IsTop(w, Closure(w, Blocks(w, ps), w - 1), b)
    ensures b in Blocks(w, out)
  {
    var s := Blocks(w, ps);
    BlocksProper(w, ps);
    var x := Entry(b);
    if b in s {
      x :| x in ps && ParsePrefix(w, x) == Net(b);
    } else {
      ClosureFacts(w, s, w - 1);
      NewBlocksAreAppended(w, s, w - 1, b);
    }
    OutputEntries(w, ps, out, x);
    assert ParsePrefix(w, x) == Net(b) && x in out;
  }

  lemma OutputIsTop(w: nat, ps: seq<Prefix>, out: seq<Prefix>, x: Prefix)
    requires IsOutput(w, ps, out) && x in out
    ensures ParsePrefix(w, x).Net? && IsTop(w, Closure(w, Blocks(w, ps), w - 1), ParsePrefix(w, x).block)
  {
    var s := Blocks(w, ps);
    BlocksProper(w, ps);
    ClosureFacts(w, s, w - 1);
    OutputEntries(w, ps, out, x);
    if x !in ps { AppendedAreClosed(w, s, w - 1, x); }
  }

  /** Consolidation preserves meaning: for every list, the output denotes exactly the
      addresses the well-formed entries of the input denote. */
  lemma MeaningPreserved(w: nat, ps: seq<Prefix>, out: seq<Prefix>)
    requires IsOutput(w, ps, out)
    ensures SameAddresses(w, Blocks(w, ps), Blocks(w, out))
  {
    var s, t := Blocks(w, ps), Blocks(w, out);
    var c := Closure(w, s, w - 1);
    BlocksProper(w, ps);
    BlocksProper(w, out);
    ClosureFacts(w, s, w - 1);
    OutputBlocks(w, ps, out);
    forall a: nat ensures Denotes(w, s, a) <==> Denotes(w, t, a) {
      DenotesAround(w, s, a);
      DenotesAround(w, t, a);
      if l: nat :| l <= w && Around(w, a, l) in s {
        var m := ShortestAround(w, c, a, l);
        assert Around(w, a, m) in t;
      }
      if l: nat :| l <= w && Around(w, a, l) in t {
        ClosureSound(w, s, a, l);
      }
    }
  }

  /** Which blocks the output has, said without the algorithm.  From length 2 on they are
      the maximal blocks inside the input's addresses that lie under no input block of
      length 0 or 1; below length 2 they are the input's own blocks without a supernet. */
  ghost predicate Canonical(w: nat, s: set<Block>, b: Block) {
    b.len <= w &&
    if b.len >= 2
    then IsMaximal(w, s, b) && !UnderShorter(w, s, b, 2)
    else b in s && !HasSupernet(w, s, b)
  }

  lemma OutputIsCanonical(w: nat, ps: seq<Prefix>, out: seq<Prefix>)
    requires IsOutput(w, ps, out)
    ensures forall b :: b in Blocks(w, out) <==> Canonical(w, Blocks(w, ps), b)
  {
    BlocksProper(w, ps);
    OutputBlocks(w, ps, out);
    forall b ensures b in Blocks(w, out) <==> Canonical(w, Blocks(w, ps), b) {
      TopIsCanonical(w, Blocks(w, ps), b);
    }
  }

  lemma WiderGivesSupernet(w: nat, s: set<Block>, b: Block, l: nat)
    requires AllProper(w, s) && Proper(w, b) && 2 <= l < b.len && Within(w, s, Around(w, b.ip, l))
    ensures HasSupernet(w, Closure(w, s, w - 1), b)
  {
    AroundProper(w, b.ip, l);
    WithinHasCover(w, s, Around(w, b.ip, l));
    var k: nat :| k <= l && Around(w, Around(w, b.ip, l).ip, k) in Closure(w, s, w - 1);
    MaskMask(w, b.ip, l, k);
    assert Around(w, b.ip, k) in Closure(w, s, w - 1);
  }

  lemma TopIsCanonical(w: nat, s: set<Block>, b: Block)
    requires AllProper(w, s)
    ensures IsTop(w, Closure(w, s, w - 1), b) <==> Canonical(w, s, b)
  {
    var c := Closure(w, s, w - 1);
    ClosureFacts(w, s, w - 1);
    if IsTop(w, c, b) && b.len >= 2 {
      ClosureWithin(w, s, b);
      forall l: nat | 2 <= l < b.len ensures !Within(w, s, Around(w, b.ip, l)) {
        if Within(w, s, Around(w, b.ip, l)) { WiderGivesSupernet(w, s, b, l); }
      }
    }
    if Canonical(w, s, b) && b.len >= 2 {
      WithinHasCover(w, s, b);
      var l: nat :| l <= b.len && Around(w, b.ip, l) in c;
      forall k: nat | k < b.len ensures Around(w, b.ip, k) !in c {
        if k >= 2 && Around(w, b.ip, k) in c { ClosureWithin(w, s, Around(w, b.ip, k)); }
      }
    }
  }

  /** For inputs of length 2 or more the output is exactly the maximal blocks of length 2
      or more inside the input's addresses. */
  lemma LongInputsGiveMaximalBlocks(w: nat, ps: seq<Prefix>, out: seq<Prefix>)
    requires IsOutput(w, ps, out) && AtLeast(Blocks(w, ps), 2)
    ensures forall b :: b in Blocks(w, out) <==> IsMaximal(w, Blocks(w, ps), b)
  {
    OutputIsCanonical(w, ps, out);
  }

  /** The input blocks of length 0 or 1 that no shorter input block contains. */
  ghost function ShortTops(w: nat, s: set<Block>): set<Block> {
    set b | b in s && b.len < 2 && b.len <= w && !HasSupernet(w, s, b)
  }

  lemma ShortTopsDecide(w: nat, s: set<Block>, b: Block)
    requires AllProper(w, s) && 2 <= b.len <= w
    ensures UnderShorter(w, s, b, 2) <==> UnderShorter(w, ShortTops(w, s), b, 2)
  {
    if UnderShorter(w, s, b, 2) {
      var l: nat :| l < b.len && l < 2 && Around(w, b.ip, l) in s;
      var m := ShortestAround(w, s, b.ip, l);
      assert Around(w, b.ip, m) in ShortTops(w, s);
    }
  }

  /** Two inputs with the same addresses give the same blocks if and only if they have the
      same uncovered blocks of length 0 and 1.  Those are never produced by merging. */
  lemma SameBlocksIff(w: nat, ps: seq<Prefix>, out: seq<Prefix>, qs: seq<Prefix>, out': seq<Prefix>)
    requires IsOutput(w, ps, out) && IsOutput(w, qs, out')
    requires SameAddresses(w, Blocks(w, ps), Blocks(w, qs))
    ensures Blocks(w, out) == Blocks(w, out') <==> ShortTops(w, Blocks(w, ps)) == ShortTops(w, Blocks(w, qs))
  {
    var s, t := Blocks(w, ps), Blocks(w, qs);
    OutputIsCanonical(w, ps, out);
    OutputIsCanonical(w, qs, out');
    BlocksProper(w, ps);
    BlocksProper(w, qs);
    forall b: Block ensures Within(w, s, b) <==> Within(w, t, b) {}
    forall b: Block ensures IsMaximal(w, s, b) <==> IsMaximal(w, t, b) {}
    forall b: Block | 2 <= b.len <= w && ShortTops(w, s) == ShortTops(w, t)
      ensures Canonical(w, s, b) <==> Canonical(w, t, b)
    {
      ShortTopsDecide(w, s, b);
      ShortTopsDecide(w, t, b);
    }
    forall b: Block | b.len < 2 ensures Canonical(w, s, b) <==> b in ShortTops(w, s) {}
    forall b: Block | b.len < 2 ensures Canonical(w, t, b) <==> b in ShortTops(w, t) {}
    if ShortTops(w, s) == ShortTops(w, t) {
      forall b ensures b in Blocks(w, out) <==> b in Blocks(w, out') {
        assert b.len < 2 || 2 <= b.len <= w || w < b.len;
      }
    }
  }

  /** Same addresses are not enough: a /1 and its two halves stay apart. */
  lemma ShortBlocksStayApart(w: nat, out: seq<Prefix>, out': seq<Prefix>)
    requires w >= 2
    requires IsOutput(w, [Entry(Block(0, 1))], out)
    requires IsOutput(w, [Entry(Block(0, 2)), Entry(Block(Pow2(w - 2), 2))], out')
    ensures SameAddresses(w, Blocks(w, out), Blocks(w, out')) && Blocks(w, out) != Blocks(w, out')
  {
    var b := Block(0, 1);
    var ps, qs := [Entry(b)], [Entry(LeftHalf(b)), Entry(RightHalf(w, b))];
    Pow2IsShl(w - 1);
    AroundProper(w, 0, 1);
    assert Proper(w, b) by { ShrInterval(0, w - 1, 0); }
    HalvesProper(w, b);
    assert ParsePrefix(w, Entry(b)) == Net(b);
    assert ParsePrefix(w, qs[0]) == Net(LeftHalf(b)) && ParsePrefix(w, qs[1]) == Net(RightHalf(w, b));
    assert Blocks(w, ps) == {b};
    assert Blocks(w, qs) == {LeftHalf(b), RightHalf(w, b)} by {
      assert qs[0] in qs && qs[1] in qs;
    }
    forall a: nat ensures Denotes(w, Blocks(w, ps), a) <==> Denotes(w, Blocks(w, qs), a) {
      assert InBlock(w, b, a) <==> InBlock(w, LeftHalf(b), a) || InBlock(w, RightHalf(w, b), a);
    }
    MeaningPreserved(w, ps, out);
    MeaningPreserved(w, qs, out');
    OutputIsCanonical(w, ps, out);
    OutputIsCanonical(w, qs, out');
    assert Canonical(w, Blocks(w, ps), b) && !Canonical(w, Blocks(w, qs), b);
  }

  /** A set is at least as large as any set that maps into it without collision. */
  lemma {:induction false} Pigeonhole(points: set<Block>, f: map<Block, Block>, s: set<Block>)
    requires points <= f.Keys && forall m :: m in points ==> f[m] in s
    requires forall m, n :: m in points && n in points && f[m] == f[n] ==> m == n
    ensures |points| <= |s|
  {
    if m :| m in points {
      Pigeonhole(points - {m}, f, s - {f[m]});
    }
  }

  /** A block of `s` around address `a`. */
  ghost function CoverOf(w: nat, s: set<Block>, a: nat): (b: Block)
    requires Denotes(w, s, a)
    ensures b in s && InBlock(w, b, a)
  {
    var b :| b in s && InBlock(w, b, a); b
  }

  /** Consolidation is minimal, for every list: no set of blocks with the same addresses has fewer
      blocks than the output, unless it has a block of length 0 or 1 that the list does not have.
      Such blocks are never produced by merging. */
  lemma OutputIsMinimal(w: nat, ps: seq<Prefix>, out: seq<Prefix>, other: set<Block>)
    requires IsOutput(w, ps, out) && AllProper(w, other) && SameAddresses(w, other, Blocks(w, ps))
    requires forall b :: b in other && b.len < 2 ==> b in Blocks(w, ps)
    ensures |Blocks(w, out)| <= |other|
  {
    var s, tops := Blocks(w, ps), Blocks(w, out);
    BlocksProper(w, ps);
    BlocksProper(w, out);
    MeaningPreserved(w, ps, out);
    forall m | m in tops ensures Denotes(w, other, m.ip) {
      assert InBlock(w, m, m.ip) && Denotes(w, tops, m.ip) && Denotes(w, s, m.ip);
    }
    var f := map m | m in tops :: CoverOf(w, other, m.ip);
    forall m, n | m in tops && n in tops && f[m] == f[n] ensures m == n {
      assert Within(w, s, f[m]);
      OneTopPerBlock(w, ps, out, f[m], m, n);
    }
    Pigeonhole(tops, f, other);
  }

  /** Two tops around one address are the same. */
  lemma TopsAround(w: nat, c: set<Block>, a: nat, k: nat, l: nat)
    requires k <= w && l <= w && IsTop(w, c, Around(w, a, k)) && IsTop(w, c, Around(w, a, l))
    ensures k == l
  {
    if k < l {
      MaskMask(w, a, l, k);
    } else if l < k {
      MaskMask(w, a, k, l);
    }
  }

  /** A block inside the input's addresses, if it is not shorter than 2 or is an input block, meets
      one output block only. */
  lemma OneTopPerBlock(w: nat, ps: seq<Prefix>, out: seq<Prefix>, b: Block, m: Block, n: Block)
    requires IsOutput(w, ps, out) && m in Blocks(w, out) && n in Blocks(w, out)
    requires Proper(w, b) && Within(w, Blocks(w, ps), b) && (b.len >= 2 || b in Blocks(w, ps))
    requires InBlock(w, b, m.ip) && InBlock(w, b, n.ip)
    ensures m == n
  {
    var c := Closure(w, Blocks(w, ps), w - 1);
    BlocksProper(w, ps);
    BlocksProper(w, out);
    OutputBlocks(w, ps, out);
    if b in Blocks(w, ps) {
      ClosureFacts(w, Blocks(w, ps), w - 1);
      assert Around(w, b.ip, b.len) in c;
    } else {
      WithinHasCover(w, Blocks(w, ps), b);
    }
    var l: nat :| l <= b.len && Around(w, b.ip, l) in c;
    var k := ShortestAround(w, c, b.ip, l);
    forall x | x in Blocks(w, out) && InBlock(w, b, x.ip) ensures x == Around(w, b.ip, k) {
      InBlockAround(w, b, x.ip);
      MaskMask(w, x.ip, b.len, k);
      TopsAround(w, c, x.ip, x.len, k);
    }
  }

  /** Normal form: no output block lies under another, and two halves of a block of
      length 2 or more are never both present. */
  ghost predicate NormalForm(w: nat, s: set<Block>) {
    && (forall b :: b in s ==> b.len <= w && !HasSupernet(w, s, b))
    && (forall b :: Proper(w, b) && 2 <= b.len < w ==> !BothHalves(w, s, b))
  }

  lemma WholeIsSupernet(w: nat, c: set<Block>, b: Block)
    requires Proper(w, b) && b.len < w && b in c
    ensures HasSupernet(w, c, LeftHalf(b))
  {
    assert Around(w, LeftHalf(b).ip, b.len) in c;
  }

  lemma OutputIsNormal(w: nat, ps: seq<Prefix>, out: seq<Prefix>)
    requires IsOutput(w, ps, out)
    ensures NormalForm(w, Blocks(w, out))
  {
    var c := Closure(w, Blocks(w, ps), w - 1);
    BlocksProper(w, ps);
    OutputBlocks(w, ps, out);
    ClosureFacts(w, Blocks(w, ps), w - 1);
    forall b | Proper(w, b) && 2 <= b.len < w ensures !BothHalves(w, Blocks(w, out), b) {
      if BothHalves(w, Blocks(w, out), b) {
        WholeIsSupernet(w, c, b);
      }
    }
  }

  /** A list in normal form has nothing to merge. */
  lemma {:induction false} NormalHasNoMerge(w: nat, s: set<Block>, p: int)
    requires p < w && AllProper(w, s) && NormalForm(w, s)
    ensures Closure(w, s, p) == s && Appended(w, s, p) == multiset{}
    decreases p
  {
    if p >= 2 {
      forall c | c in s && c.len == p + 1 ensures !BothHalves(w, s, ParentOf(w, c)) { AroundProper(w, c.ip, p); }
      assert Mergeable(w, s, p) == {};
      assert s + Mergeable(w, s, p) == s;
      NormalHasNoMerge(w, s, p - 1);
    }
  }

  /** Consolidating an output again returns the same entries. */
  lemma ConsolidateIsIdempotent(w: nat, ps: seq<Prefix>, out: seq<Prefix>, again: seq<Prefix>)
    requires IsOutput(w, ps, out) && IsOutput(w, out, again)
    ensures multiset(again) == multiset(out)
  {
    var t := Blocks(w, out);
    BlocksProper(w, out);
    OutputIsNormal(w, ps, out);
    NormalHasNoMerge(w, t, w - 1);
    forall x ensures multiset(again)[x] == multiset(out)[x] {
      OutputEntries(w, ps, out, x);
      if x in out {
        assert ParsePrefix(w, x).block in t;
      }
    }
  }
}
