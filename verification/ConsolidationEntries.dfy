/** What consolidation does to the entries of a list, said by division of address numbers and
    without the parsing, blocks or merging of the algorithm. */
module ConsolidationEntries {
  import opened Cidr
  import opened Consolidation
  import opened ConsolidationTheory

  // ---- Meaning ----

  /** The address is a number of `w` bits and the size a prefix length. */
  ghost predicate Formed(w: nat, p: Prefix) {
    p.address.Ip? && p.address.bits < Pow2(w) && 0 <= p.size <= w
  }

  /** Address `x` agrees with the entry's in the first `size` bits, host bits or not. */
  ghost predicate Holds(w: nat, p: Prefix, x: nat) {
    Formed(w, p) && x / Pow2(w - p.size) == p.address.bits / Pow2(w - p.size)
  }

  ghost predicate Listed(w: nat, ps: seq<Prefix>, x: nat) {
    exists p :: p in ps && Holds(w, p, x)
  }

  lemma HoldsIff(w: nat, p: Prefix, x: nat)
    requires Formed(w, p)
    ensures ParsePrefix(w, p) == Net(Around(w, p.address.bits, p.size)) && Proper(w, ParsePrefix(w, p).block)
    ensures Holds(w, p, x) <==> InBlock(w, ParsePrefix(w, p).block, x)
  {
    var b := Around(w, p.address.bits, p.size);
    AroundProper(w, p.address.bits, p.size);
    InBlockAround(w, b, x);
    SameBlockIff(w, x, p.address.bits, p.size);
  }

  lemma ListedIff(w: nat, ps: seq<Prefix>, x: nat)
    ensures Listed(w, ps, x) <==> Denotes(w, Blocks(w, ps), x)
  {
    if p :| p in ps && Holds(w, p, x) {
      HoldsIff(w, p, x);
      assert ParsePrefix(w, p).block in Blocks(w, ps);
    }
    if b :| b in Blocks(w, ps) && InBlock(w, b, x) {
      var p :| p in ps && ParsePrefix(w, p) == Net(b);
      HoldsIff(w, p, x);
    }
  }

  /** Consolidation preserves meaning: an address agrees with an entry of the output if and only if
      it agrees with an entry of the input. */
  lemma EntriesKeepMeaning(w: nat, ps: seq<Prefix>, out: seq<Prefix>, x: nat)
    requires IsOutput(w, ps, out)
    ensures Listed(w, out, x) <==> Listed(w, ps, x)
  {
    ListedIff(w, ps, x);
    ListedIff(w, out, x);
    MeaningPreserved(w, ps, out);
  }

  // ---- Which entries are kept ----

  /** Every address that agrees with `a` in the first `l` bits is listed. */
  ghost predicate Filled(w: nat, ps: seq<Prefix>, a: nat, l: nat)
    requires l <= w
  {
    forall x: nat :: x / Pow2(w - l) == a / Pow2(w - l) ==> Listed(w, ps, x)
  }

  /** A shorter block around the entry's address is listed in full, or, below length 2 where
      nothing is merged, is itself an entry. */
  ghost predicate Covered(w: nat, ps: seq<Prefix>, p: Prefix)
    requires Formed(w, p)
  {
    exists l: nat :: l < p.size && CoveredAt(w, ps, p.address.bits, l)
  }

  ghost predicate CoveredAt(w: nat, ps: seq<Prefix>, a: nat, l: nat)
    requires l <= w
  {
    if l >= 2 then Filled(w, ps, a, l)
    else exists q :: q in ps && q.size == l && Holds(w, q, a)
  }

  lemma FilledIff(w: nat, ps: seq<Prefix>, a: nat, l: nat)
    requires l <= w && a < Pow2(w)
    ensures Filled(w, ps, a, l) <==> Within(w, Blocks(w, ps), Around(w, a, l))
  {
    AroundProper(w, a, l);
    forall x: nat
      ensures x / Pow2(w - l) == a / Pow2(w - l) <==> InBlock(w, Around(w, a, l), x)
      ensures Listed(w, ps, x) <==> Denotes(w, Blocks(w, ps), x)
    {
      SameBlockIff(w, x, a, l);
      InBlockAround(w, Around(w, a, l), x);
      ListedIff(w, ps, x);
    }
  }

  lemma ShortEntryIff(w: nat, ps: seq<Prefix>, a: nat, l: nat)
    requires l <= w && a < Pow2(w)
    ensures (exists q :: q in ps && q.size == l && Holds(w, q, a)) <==> Around(w, a, l) in Blocks(w, ps)
  {
    if q :| q in ps && q.size == l && Holds(w, q, a) {
      HoldsIff(w, q, a);
      SameBlockIff(w, a, q.address.bits, l);
      assert ParsePrefix(w, q) == Net(Around(w, a, l));
    }
    if Around(w, a, l) in Blocks(w, ps) {
      var q :| q in ps && ParsePrefix(w, q) == Net(Around(w, a, l));
      HoldsIff(w, q, a);
      SameBlockIff(w, a, q.address.bits, l);
    }
  }

  /** For an entry of the list, being a canonical block is not being covered. */
  lemma CoveredIff(w: nat, ps: seq<Prefix>, p: Prefix)
    requires p in ps && Formed(w, p)
    ensures ParsePrefix(w, p).Net?
    ensures Covered(w, ps, p) <==> !Canonical(w, Blocks(w, ps), ParsePrefix(w, p).block)
  {
    var a, s := p.address.bits, Blocks(w, ps);
    HoldsIff(w, p, a);
    var b := ParsePrefix(w, p).block;
    assert b in s && Within(w, s, b);
    forall l: nat | l < p.size
      ensures Around(w, b.ip, l) == Around(w, a, l)
      ensures l >= 2 ==> (CoveredAt(w, ps, a, l) <==> Within(w, s, Around(w, b.ip, l)))
      ensures l < 2 ==> (CoveredAt(w, ps, a, l) <==> Around(w, b.ip, l) in s)
    {
      MaskMask(w, a, p.size, l);
      FilledIff(w, ps, a, l);
      ShortEntryIff(w, ps, a, l);
    }
  }

  lemma {:induction false} AppendedOnce(w: nat, s: set<Block>, p: int, x: Prefix)
    requires p < w
    ensures Appended(w, s, p)[x] <= 1 && (x in Appended(w, s, p) ==> 2 <= x.size <= p)
    decreases p
  {
    if p >= 2 {
      AppendedOnce(w, s + Mergeable(w, s, p), p - 1, x);
      assert EntryBag(Mergeable(w, s, p))[x] <= 1;
    }
  }

  lemma NoHostBits(w: nat, b: Block)
    requires Proper(w, b)
    ensures b.ip % Pow2(w - b.len) == 0
  {
    var n := w - b.len;
    ShlIsProduct(Shr(b.ip, n), n);
    MultipleHasNoRest(Shr(b.ip, n), Pow2(n));
  }

  lemma MultipleHasNoRest(x: nat, p: nat)
    requires p > 0
    ensures (x * p) % p == 0
  {
    DivisionIs(x * p, p, x);
  }

  /** An entry of the input is kept, as often as it occurs, if and only if it is formed and not
      covered.  What is added is at most one copy of each entry, of size 2 or more and without host
      bits, and only formed entries come out. */
  lemma KeptIff(w: nat, ps: seq<Prefix>, out: seq<Prefix>, p: Prefix)
    requires IsOutput(w, ps, out)
    ensures p in ps ==> (p in out <==> Formed(w, p) && !Covered(w, ps, p))
    ensures p in out ==> Formed(w, p) && multiset(ps)[p] <= multiset(out)[p] <= multiset(ps)[p] + 1
    ensures p in out && multiset(out)[p] > multiset(ps)[p] ==>
              2 <= p.size < w && p.address.bits % Pow2(w - p.size) == 0
  {
    CountsOf(w, ps, out, p);
    if p in ps && Formed(w, p) { EntryKeptIff(w, ps, out, p); }
    if p in Appended(w, Blocks(w, ps), w - 1) { AddedEntry(w, ps, p); }
  }

  lemma CountsOf(w: nat, ps: seq<Prefix>, out: seq<Prefix>, p: Prefix)
    requires IsOutput(w, ps, out)
    ensures p in out ==> Formed(w, p) && multiset(ps)[p] <= multiset(out)[p] <= multiset(ps)[p] + 1
    ensures p in out && multiset(out)[p] > multiset(ps)[p] ==> p in Appended(w, Blocks(w, ps), w - 1)
  {
    var added := Appended(w, Blocks(w, ps), w - 1);
    AppendedOnce(w, Blocks(w, ps), w - 1, p);
    assert (multiset(ps) + added)[p] == multiset(ps)[p] + added[p];
    assert p in out <==> multiset(out)[p] > 0;
  }

  lemma EntryKeptIff(w: nat, ps: seq<Prefix>, out: seq<Prefix>, p: Prefix)
    requires IsOutput(w, ps, out) && p in ps && Formed(w, p)
    ensures p in out <==> !Covered(w, ps, p)
  {
    var s := Blocks(w, ps);
    BlocksProper(w, ps);
    OutputEntries(w, ps, out, p);
    CoveredIff(w, ps, p);
    ClosureFacts(w, s, w - 1);
    TopIsCanonical(w, s, ParsePrefix(w, p).block);
    assert ParsePrefix(w, p).block in s;
  }

  lemma AddedEntry(w: nat, ps: seq<Prefix>, p: Prefix)
    requires p in Appended(w, Blocks(w, ps), w - 1)
    ensures Formed(w, p) && 2 <= p.size < w && p.address.bits % Pow2(w - p.size) == 0
  {
    var s := Blocks(w, ps);
    BlocksProper(w, ps);
    AppendedOnce(w, s, w - 1, p);
    AppendedAreClosed(w, s, w - 1, p);
    var b :| b in Closure(w, s, w - 1) && p == Entry(b);
    ClosureFacts(w, s, w - 1);
    NoHostBits(w, b);
  }

  // ---- Order ----

  /** Lexicographic order: a prefix, or a smaller character at the first difference. */
  ghost predicate InOrder(s: string, t: string) {
    s <= t || exists n :: 0 <= n < |s| && n < |t| && s[..n] == t[..n] && s[n] < t[n]
  }

  /** Equal heads do not matter. */
  lemma OrderOfTails(c: char, u: string, v: string)
    ensures InOrder([c] + u, [c] + v) <==> InOrder(u, v)
  {
    var s, t := [c] + u, [c] + v;
    assert s[1..] == u && t[1..] == v;
    assert s <= t <==> u <= v;
    if n :| 0 <= n < |u| && n < |v| && u[..n] == v[..n] && u[n] < v[n] {
      assert s[..n + 1] == [c] + u[..n] && t[..n + 1] == [c] + v[..n] && s[n + 1] < t[n + 1];
    }
    if n :| 0 <= n < |s| && n < |t| && s[..n] == t[..n] && s[n] < t[n] {
      assert u[..n - 1] == s[..n][1..] && v[..n - 1] == t[..n][1..] && u[n - 1] < v[n - 1];
    }
  }

  /** Different heads decide. */
  lemma OrderOfHeads(s: string, t: string)
    requires s != [] && t != [] && s[0] != t[0]
    ensures InOrder(s, t) <==> s[0] < t[0]
  {
    assert s[..0] == t[..0] && !(s <= t);
    forall n | 0 < n <= |s| && n <= |t| ensures s[..n] != t[..n] { assert s[..n][0] != t[..n][0]; }
  }

  lemma {:induction false} TextLeqIff(s: string, t: string)
    ensures TextLeq(s, t) <==> InOrder(s, t)
    decreases |s|
  {
    if s != [] && t != [] {
      if s[0] == t[0] {
        TextLeqIff(s[1..], t[1..]);
        OrderOfTails(s[0], s[1..], t[1..]);
        assert s == [s[0]] + s[1..] && t == [t[0]] + t[1..];
      } else {
        OrderOfHeads(s, t);
      }
    }
  }

  /** The output is in the order of the printed addresses, host bits included. */
  lemma OutputIsSorted(w: nat, ps: seq<Prefix>, out: seq<Prefix>, text: nat -> string, i: nat, j: nat)
    requires IsOutput(w, ps, out) && SortedByText(text, out) && i < j < |out|
    ensures out[i].address.Ip? && out[j].address.Ip?
    ensures InOrder(text(out[i].address.bits), text(out[j].address.bits))
  {
    assert out[i] in out && out[j] in out;
    KeptIff(w, ps, out, out[i]);
    KeptIff(w, ps, out, out[j]);
    TextLeqIff(text(out[i].address.bits), text(out[j].address.bits));
  }
}
