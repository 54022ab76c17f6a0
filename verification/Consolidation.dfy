/** Prefix list consolidation, internal/consolidation/consolidation.go.

    The V4 and V6 functions of the source differ only in the address width, so the
    model has one method with the width as a parameter.  The address text of a
    prefix is its parsed number, or `Malformed` when it does not parse. */
module Consolidation {
  import opened Cidr

  datatype Address = Ip(bits: nat) | Malformed

  /** A list entry.  The address may carry host bits and the size is not checked. */
  datatype Prefix = Prefix(address: Address, size: int)

  datatype Parsed = Net(block: Block) | ParseError

  function ParseCidr(w: nat, address: Address, size: int): Parsed {
    if address.Ip? && address.bits < Pow2(w) && 0 <= size <= w
    then Net(Around(w, address.bits, size))
    else ParseError
  }

  function ParsePrefix(w: nat, p: Prefix): Parsed {
    ParseCidr(w, p.address, p.size)
  }

  /** The entry that stands for a whole block. */
  function Entry(b: Block): Prefix {
    Prefix(Ip(b.ip), b.len)
  }

  // ---- What consolidation computes ----

  /** The blocks a list denotes; entries that do not parse denote nothing. */
  ghost function Blocks(w: nat, ps: seq<Prefix>): set<Block> {
    set p | p in ps && ParsePrefix(w, p).Net? :: ParsePrefix(w, p).block
  }

  ghost predicate BothHalves(w: nat, s: set<Block>, b: Block)
    requires b.len < w
  {
    LeftHalf(b) in s && RightHalf(w, b) in s
  }

  /** The blocks of length `p` both halves of which are present. */
  ghost function Mergeable(w: nat, s: set<Block>, p: nat): set<Block>
    requires p < w
  {
    set c | c in s && c.len == p + 1 && BothHalves(w, s, ParentOf(w, c)) :: ParentOf(w, c)
  }

  /** `s` after merging at the lengths `p`, `p` - 1, ..., 2. */
  ghost function Closure(w: nat, s: set<Block>, p: int): set<Block>
    requires p < w
    decreases p
  {
    if p < 2 then s else Closure(w, s + Mergeable(w, s, p), p - 1)
  }

  ghost function EntryBag(s: set<Block>): multiset<Prefix> {
    multiset(set b | b in s :: Entry(b))
  }

  /** The entries those merges append, one per merged block. */
  ghost function Appended(w: nat, s: set<Block>, p: int): multiset<Prefix>
    requires p < w
    decreases p
  {
    if p < 2 then multiset{}
    else EntryBag(Mergeable(w, s, p)) + Appended(w, s + Mergeable(w, s, p), p - 1)
  }

  ghost predicate HasSupernet(w: nat, s: set<Block>, b: Block)
    requires b.len <= w
  {
    exists l: nat :: l < b.len && Around(w, b.ip, l) in s
  }

  ghost predicate Keepable(w: nat, s: set<Block>, p: Prefix) {
    var parsed := ParsePrefix(w, p);
    parsed.Net? && !HasSupernet(w, s, parsed.block)
  }

  /** The entries of the input and of the merges, less those that do not parse or that
      lie under a shorter block. */
  ghost predicate IsOutput(w: nat, ps: seq<Prefix>, out: seq<Prefix>) {
    var s := Blocks(w, ps);
    forall x :: multiset(out)[x] ==
                if Keepable(w, Closure(w, s, w - 1), x)
                then (multiset(ps) + Appended(w, s, w - 1))[x] else 0
  }

  // ---- Text order, for the final sort ----

  /** Lexicographic order of texts. */
  predicate TextLeq(s: string, t: string) {
    s == [] || (t != [] && (s[0] < t[0] || (s[0] == t[0] && TextLeq(s[1..], t[1..]))))
  }

  lemma {:induction false} TextTotal(s: string, t: string)
    ensures TextLeq(s, t) || TextLeq(t, s)
  {
    if s != [] && t != [] { TextTotal(s[1..], t[1..]); }
  }

  lemma {:induction false} TextTransitive(s: string, t: string, u: string)
    requires TextLeq(s, t) && TextLeq(t, u)
    ensures TextLeq(s, u)
  {
    if s != [] && s[0] == t[0] && t[0] == u[0] { TextTransitive(s[1..], t[1..], u[1..]); }
  }

  function TextOf(text: nat -> string, p: Prefix): string {
    if p.address.Ip? then text(p.address.bits) else ""
  }

  ghost predicate SortedByText(text: nat -> string, ps: seq<Prefix>) {
    forall i, j :: 0 <= i < j < |ps| ==> TextLeq(TextOf(text, ps[i]), TextOf(text, ps[j]))
  }

  // ---- The algorithm ----

  lemma BlocksOfSum(w: nat, a: seq<Prefix>, b: seq<Prefix>)
    ensures Blocks(w, a + b) == Blocks(w, a) + Blocks(w, b)
  {
    assert forall x :: x in a + b <==> x in a || x in b;
  }

  lemma BlocksProper(w: nat, ps: seq<Prefix>)
    ensures forall b :: b in Blocks(w, ps) ==> Proper(w, b)
  {
    forall p | p in ps && ParsePrefix(w, p).Net?
      ensures Proper(w, ParsePrefix(w, p).block)
    {
      AroundProper(w, p.address.bits, p.size);
    }
  }

  /** Two different blocks with one parent are its two halves. */
  lemma Siblings(w: nat, c: Block, d: Block)
    requires Proper(w, c) && Proper(w, d) && c.len == d.len > 0 && c != d && ParentOf(w, c) == ParentOf(w, d)
    ensures {c, d} == {LeftHalf(ParentOf(w, c)), RightHalf(w, ParentOf(w, c))}
  {
    Halves(w, c.ip, c.len - 1);
    Halves(w, d.ip, d.len - 1);
  }

  /** `g` lists blocks of `s` of length `p` + 1 with parent `k`; only its first member is known
      not to repeat. */
  ghost predicate GroupOk(w: nat, p: nat, s: set<Block>, k: Block, g: seq<nat>)
    requires p < w
  {
    && |g| >= 1 && k.len == p
    && (forall n :: 0 <= n < |g| ==> Block(g[n], p + 1) in s && Mask(w, g[n], p) == k.ip)
    && (forall n :: 1 <= n < |g| ==> g[n] != g[0])
  }

  /** `m` groups the blocks of `s` by parent. */
  ghost predicate GroupsBlocks(w: nat, p: nat, s: set<Block>, m: map<Block, seq<nat>>)
    requires p < w
  {
    && (forall k :: k in m ==> GroupOk(w, p, s, k, m[k]))
    && (forall c :: c in s ==> c.len == p + 1 && ParentOf(w, c) in m && c.ip in m[ParentOf(w, c)])
  }

  /** Groups the entries one bit longer than `prefixlen` by parent block. */
  method GroupByParent(w: nat, prefixlen: nat, smaller: seq<Prefix>) returns (consolidables: map<Block, seq<nat>>)
    requires prefixlen < w && forall s :: s in smaller ==> s.size == prefixlen + 1
    ensures forall b :: (b in consolidables && |consolidables[b]| > 1) <==>
              b in Mergeable(w, Blocks(w, smaller), prefixlen)
  {
    consolidables := map[];
    for i := 0 to |smaller|
      invariant GroupsBlocks(w, prefixlen, Blocks(w, smaller[..i]), consolidables)
    {
      var subnet := smaller[i];
      ghost var seen := Blocks(w, smaller[..i]);
      assert smaller[..i + 1] == smaller[..i] + [subnet];
      BlocksOfSum(w, smaller[..i], [subnet]);
      var subnetB, subnetC := ParseCidr(w, subnet.address, prefixlen), ParsePrefix(w, subnet);
      assert Blocks(w, [subnet]) == if subnetC.Net? then {subnetC.block} else {};
      if subnetB.ParseError? || subnetC.ParseError? {
        continue;
      }
      MaskMask(w, subnet.address.bits, prefixlen + 1, prefixlen);
      var key, ip := subnetB.block, subnetC.block.ip;
      GroupsGrow(w, prefixlen, seen, consolidables, subnetC.block);
      if key in consolidables {
        if consolidables[key][0] == ip {
          continue;
        }
        consolidables := consolidables[key := consolidables[key] + [ip]];
      } else {
        consolidables := consolidables[key := [ip]];
      }
    }
    assert smaller[..|smaller|] == smaller;
    BlocksProper(w, smaller);
    GroupsAreMergeable(w, prefixlen, Blocks(w, smaller), consolidables);
  }

  /** The three ways in which one more block joins the groups. */
  lemma GroupsGrow(w: nat, p: nat, s: set<Block>, m: map<Block, seq<nat>>, c: Block)
    requires p < w && c.len == p + 1 && GroupsBlocks(w, p, s, m)
    ensures var k := ParentOf(w, c);
            if k !in m then GroupsBlocks(w, p, s + {c}, m[k := [c.ip]])
            else if m[k][0] == c.ip then GroupsBlocks(w, p, s + {c}, m)
            else GroupsBlocks(w, p, s + {c}, m[k := m[k] + [c.ip]])
  {
    var k := ParentOf(w, c);
    if k !in m {
      GroupReplaced(w, p, s, m, c, [c.ip]);
    } else if m[k][0] == c.ip {
      assert c.ip in m[k];
    } else {
      GroupReplaced(w, p, s, m, c, m[k] + [c.ip]);
    }
  }

  lemma GroupReplaced(w: nat, p: nat, s: set<Block>, m: map<Block, seq<nat>>, c: Block, g: seq<nat>)
    requires p < w && c.len == p + 1 && GroupsBlocks(w, p, s, m)
    requires var k := ParentOf(w, c); g == (if k in m then m[k] else []) + [c.ip] && (k in m ==> m[k][0] != c.ip)
    ensures GroupsBlocks(w, p, s + {c}, m[ParentOf(w, c) := g])
  {
    var k := ParentOf(w, c);
    var m' := m[k := g];
    assert g[|g| - 1] == c.ip;
    forall n | 0 <= n < |g|
      ensures Block(g[n], p + 1) in s + {c} && Mask(w, g[n], p) == k.ip && (n > 0 ==> g[n] != g[0])
    {
      assert n == |g| - 1 || g[n] == m[k][n];
    }
    assert GroupOk(w, p, s + {c}, k, g);
    forall d | d in s + {c} ensures d.len == p + 1 && ParentOf(w, d) in m' && d.ip in m'[ParentOf(w, d)] {
      if d != c && ParentOf(w, d) == k { assert d.ip in m[k]; }
    }
  }

  /** Groups that hold exactly the blocks under each parent show what can merge. */
  lemma GroupsAreMergeable(w: nat, p: nat, s: set<Block>, m: map<Block, seq<nat>>)
    requires p < w && GroupsBlocks(w, p, s, m) && forall c :: c in s ==> Proper(w, c)
    ensures forall b :: (b in m && |m[b]| > 1) <==> b in Mergeable(w, s, p)
  {
    forall b ensures (b in m && |m[b]| > 1) <==> b in Mergeable(w, s, p) {
      if b in m && |m[b]| > 1 {
        HalvesMerge(w, p, s, b, Block(m[b][0], p + 1), Block(m[b][1], p + 1));
      }
      if b in Mergeable(w, s, p) {
        MergeableHasHalves(w, p, s, b);
        assert LeftHalf(b).ip in m[b] && RightHalf(w, b).ip in m[b];
      }
    }
  }

  lemma HalvesMerge(w: nat, p: nat, s: set<Block>, b: Block, c: Block, d: Block)
    requires p < w && c in s && d in s && Proper(w, c) && Proper(w, d) && c.len == p + 1 == d.len && c != d
    requires ParentOf(w, c) == b == ParentOf(w, d)
    ensures b in Mergeable(w, s, p)
  {
    Siblings(w, c, d);
    assert LeftHalf(b) in {c, d} && RightHalf(w, b) in {c, d};
  }

  lemma MergeableHasHalves(w: nat, p: nat, s: set<Block>, b: Block)
    requires p < w && b in Mergeable(w, s, p) && forall c :: c in s ==> Proper(w, c)
    ensures Proper(w, b) && b.len == p && LeftHalf(b) in s && RightHalf(w, b) in s &&
              LeftHalf(b).ip != RightHalf(w, b).ip
    ensures ParentOf(w, LeftHalf(b)) == b == ParentOf(w, RightHalf(w, b))
  {
    var c :| c in s && c.len == p + 1 && BothHalves(w, s, ParentOf(w, c)) && b == ParentOf(w, c);
    AroundProper(w, c.ip, p);
    HalvesProper(w, b);
  }

  /** Appends an entry for every group with more than one member.  The order in which
      a map is visited is not fixed. */
  method AppendMerged(prefixes: seq<Prefix>, consolidables: map<Block, seq<nat>>) returns (out: seq<Prefix>)
    ensures multiset(out) == multiset(prefixes) + EntryBag(set b | b in consolidables && |consolidables[b]| > 1)
    ensures prefixes <= out
  {
    out := prefixes;
    var keys := consolidables.Keys;
    ghost var done := {};
    while keys != {}
      invariant keys <= consolidables.Keys && prefixes <= out
      invariant done == set b | b in consolidables.Keys - keys && |consolidables[b]| > 1
      invariant multiset(out) == multiset(prefixes) + EntryBag(done)
      decreases keys
    {
      var key :| key in keys;
      keys := keys - {key};
      if |consolidables[key]| > 1 {
        BagAdd(done, key);
        out := out + [Entry(key)];
        done := done + {key};
      }
    }
    assert done == set b | b in consolidables && |consolidables[b]| > 1;
  }

  lemma BagAdd(s: set<Block>, b: Block)
    requires b !in s
    ensures EntryBag(s + {b}) == EntryBag(s) + multiset{Entry(b)}
  {
    var es := set c | c in s :: Entry(c);
    assert (set c | c in s + {b} :: Entry(c)) == es + {Entry(b)};
    assert Entry(b) !in es;
  }

  lemma BlocksOfBag(w: nat, out: seq<Prefix>, ps: seq<Prefix>, s: set<Block>)
    requires multiset(out) == multiset(ps) + EntryBag(s) && forall b :: b in s ==> Proper(w, b)
    ensures Blocks(w, out) == Blocks(w, ps) + s
  {
    forall b | b in s ensures ParsePrefix(w, Entry(b)) == Net(b) {}
    forall x ensures x in out <==> x in ps || exists b :: b in s && x == Entry(b) {
      assert x in out <==> x in multiset(out);
      assert x in ps <==> x in multiset(ps);
    }
    forall b | b in s ensures b in Blocks(w, out) {
      assert Entry(b) in out && ParsePrefix(w, Entry(b)).block == b;
    }
  }

  /** Merging looks only at blocks of the one longer length. */
  lemma MergeableOfLength(w: nat, ps: seq<Prefix>, smaller: seq<Prefix>, p: nat)
    requires p < w && forall x :: x in smaller <==> x in ps && x.size == p + 1
    ensures Mergeable(w, Blocks(w, smaller), p) == Mergeable(w, Blocks(w, ps), p)
  {
    var s, t := Blocks(w, smaller), Blocks(w, ps);
    assert forall c :: c in s <==> c in t && c.len == p + 1;
    forall b: Block | b.len == p ensures BothHalves(w, s, b) <==> BothHalves(w, t, b) {}
  }

  lemma MergeableProper(w: nat, s: set<Block>, p: nat)
    requires p < w && forall c :: c in s ==> Proper(w, c)
    ensures forall b :: b in Mergeable(w, s, p) ==> Proper(w, b) && b.len == p
  {
    forall c | c in s && c.len == p + 1 ensures Proper(w, ParentOf(w, c)) { AroundProper(w, c.ip, p); }
  }

  /** One round of the first phase. */
  method MergeRound(w: nat, prefixlen: nat, prefixes: seq<Prefix>) returns (out: seq<Prefix>)
    requires prefixlen < w
    ensures multiset(out) == multiset(prefixes) + EntryBag(Mergeable(w, Blocks(w, prefixes), prefixlen))
    ensures Blocks(w, out) == Blocks(w, prefixes) + Mergeable(w, Blocks(w, prefixes), prefixlen)
  {
    var smaller: seq<Prefix> := [];
    for i := 0 to |prefixes|
      invariant forall x :: x in smaller <==> x in prefixes[..i] && x.size == prefixlen + 1
    {
      assert prefixes[..i + 1] == prefixes[..i] + [prefixes[i]];
      if prefixes[i].size - 1 == prefixlen {
        smaller := smaller + [prefixes[i]];
      }
    }
    assert prefixes[..|prefixes|] == prefixes;
    MergeableOfLength(w, prefixes, smaller, prefixlen);
    BlocksProper(w, prefixes);
    MergeableProper(w, Blocks(w, prefixes), prefixlen);
    if |smaller| <= 1 {
      TooFewToMerge(w, smaller, prefixlen);
      assert multiset(prefixes) == multiset(prefixes) + EntryBag({});
      return prefixes;
    }
    var consolidables := GroupByParent(w, prefixlen, smaller);
    out := AppendMerged(prefixes, consolidables);
    assert (set b | b in consolidables && |consolidables[b]| > 1) == Mergeable(w, Blocks(w, prefixes), prefixlen);
    BlocksOfBag(w, out, prefixes, Mergeable(w, Blocks(w, prefixes), prefixlen));
  }

  lemma TooFewToMerge(w: nat, ps: seq<Prefix>, p: nat)
    requires p < w && |ps| <= 1
    ensures Mergeable(w, Blocks(w, ps), p) == {}
  {
    var s := Blocks(w, ps);
    forall c, d | c in s && d in s ensures c == d {}
    forall b: Block | b.len == p ensures !BothHalves(w, s, b) {}
  }

  /** Marks every entry that lies under `supernet`, an entry of size `prefixlen`. */
  method MarkUnder(w: nat, prefixlen: nat, supernet: Block, prefixes: seq<Prefix>, marked: map<Block, Prefix>)
      returns (toBeDeleted: map<Block, Prefix>)
    requires supernet.len == prefixlen <= w
    ensures forall b :: b in toBeDeleted <==>
              b in marked || (b in Blocks(w, prefixes) && prefixlen < b.len && Contains(w, supernet, b.ip))
  {
    toBeDeleted := marked;
    for j := 0 to |prefixes|
      invariant forall b :: b in toBeDeleted <==>
                  b in marked || (b in Blocks(w, prefixes[..j]) && prefixlen < b.len && Contains(w, supernet, b.ip))
    {
      var subnetCh := prefixes[j];
      assert prefixes[..j + 1] == prefixes[..j] + [subnetCh];
      BlocksOfSum(w, prefixes[..j], [subnetCh]);
      var subnetChP := ParsePrefix(w, subnetCh);
      assert Blocks(w, [subnetCh]) == if subnetChP.Net? then {subnetChP.block} else {};
      if prefixlen < subnetCh.size {
        if subnetChP.ParseError? {
          continue;
        }
        if Contains(w, supernet, subnetChP.block.ip) {
          if subnetChP.block in toBeDeleted {
            continue;
          } else {
            toBeDeleted := toBeDeleted[subnetChP.block := subnetCh];
          }
        }
      }
    }
    assert prefixes[..|prefixes|] == prefixes;
  }

  /** `b` lies under a block of `s` shorter than `l`. */
  ghost predicate UnderShorter(w: nat, s: set<Block>, b: Block, l: nat)
    requires b.len <= w
  {
    exists m: nat :: m < b.len && m < l && Around(w, b.ip, m) in s
  }

  /** The second phase: the blocks that some entry strictly contains. */
  method MarkCovered(w: nat, prefixes: seq<Prefix>) returns (toBeDeleted: map<Block, Prefix>)
    ensures forall b :: b in toBeDeleted <==> b in Blocks(w, prefixes) && HasSupernet(w, Blocks(w, prefixes), b)
  {
    toBeDeleted := map[];
    ghost var s := Blocks(w, prefixes);
    BlocksProper(w, prefixes);
    for prefixlen := 0 to w
      invariant forall b :: b in toBeDeleted <==> b in s && UnderShorter(w, s, b, prefixlen)
    {
      ghost var before := toBeDeleted;
      for i := 0 to |prefixes|
        invariant forall b :: b in toBeDeleted <==>
                    b in before || (b in s && prefixlen < b.len &&
                      Around(w, b.ip, prefixlen) in Blocks(w, prefixes[..i]))
      {
        var subnet := prefixes[i];
        assert prefixes[..i + 1] == prefixes[..i] + [subnet];
        BlocksOfSum(w, prefixes[..i], [subnet]);
        var subnetS := ParsePrefix(w, subnet);
        assert Blocks(w, [subnet]) == if subnetS.Net? then {subnetS.block} else {};
        if subnet.size == prefixlen {
          if subnetS.ParseError? {
            continue;
          }
          toBeDeleted := MarkUnder(w, prefixlen, subnetS.block, prefixes, toBeDeleted);
        }
      }
      assert prefixes[..|prefixes|] == prefixes;
      forall b | b in s
        ensures UnderShorter(w, s, b, prefixlen + 1) <==>
                UnderShorter(w, s, b, prefixlen) || (prefixlen < b.len && Around(w, b.ip, prefixlen) in s)
      {}
    }
  }

  /** Drops the marked entries and those that do not parse. */
  method KeepUnmarked(w: nat, prefixes: seq<Prefix>, toBeDeleted: map<Block, Prefix>) returns (keep: seq<Prefix>)
    ensures forall x :: multiset(keep)[x] ==
              if ParsePrefix(w, x).Net? && ParsePrefix(w, x).block !in toBeDeleted then multiset(prefixes)[x] else 0
  {
    keep := [];
    for i := 0 to |prefixes|
      invariant forall x :: multiset(keep)[x] ==
                  if ParsePrefix(w, x).Net? && ParsePrefix(w, x).block !in toBeDeleted
                  then multiset(prefixes[..i])[x] else 0
    {
      assert prefixes[..i + 1] == prefixes[..i] + [prefixes[i]];
      var s := ParsePrefix(w, prefixes[i]);
      if s.ParseError? {
        continue;
      }
      if s.block !in toBeDeleted {
        keep := keep + [prefixes[i]];
      }
    }
    assert prefixes[..|prefixes|] == prefixes;
  }

  /** Any sorted rearrangement, as `sort.Slice` promises no more. */
  method SortByText(text: nat -> string, ps: seq<Prefix>) returns (out: seq<Prefix>)
    ensures multiset(out) == multiset(ps) && SortedByText(text, out)
  {
    out := [];
    for i := 0 to |ps|
      invariant multiset(out) == multiset(ps[..i]) && SortedByText(text, out)
    {
      var n := InsertionPoint(text, out, ps[i]);
      InsertSorted(text, out, n, ps[i]);
      InsertKeeps(out, n, ps[i]);
      assert ps[..i + 1] == ps[..i] + [ps[i]];
      out := out[..n] + [ps[i]] + out[n..];
    }
    assert ps[..|ps|] == ps;
  }

  lemma InsertKeeps(ps: seq<Prefix>, n: nat, x: Prefix)
    requires n <= |ps|
    ensures multiset(ps[..n] + [x] + ps[n..]) == multiset(ps) + multiset{x}
  {
    assert ps == ps[..n] + ps[n..];
  }

  method InsertionPoint(text: nat -> string, ps: seq<Prefix>, x: Prefix) returns (n: nat)
    ensures n <= |ps| && (n > 0 ==> TextLeq(TextOf(text, ps[n - 1]), TextOf(text, x)))
    ensures forall k :: n <= k < |ps| ==> TextLeq(TextOf(text, x), TextOf(text, ps[k]))
  {
    n := |ps|;
    while n > 0 && !TextLeq(TextOf(text, ps[n - 1]), TextOf(text, x))
      invariant n <= |ps|
      invariant forall k :: n <= k < |ps| ==> TextLeq(TextOf(text, x), TextOf(text, ps[k]))
    {
      n := n - 1;
      TextTotal(TextOf(text, ps[n]), TextOf(text, x));
    }
  }

  lemma InsertSorted(text: nat -> string, ps: seq<Prefix>, n: nat, x: Prefix)
    requires n <= |ps| && SortedByText(text, ps)
    requires n > 0 ==> TextLeq(TextOf(text, ps[n - 1]), TextOf(text, x))
    requires forall k :: n <= k < |ps| ==> TextLeq(TextOf(text, x), TextOf(text, ps[k]))
    ensures SortedByText(text, ps[..n] + [x] + ps[n..])
  {
    var out := ps[..n] + [x] + ps[n..];
    forall i, j | 0 <= i < j < |out| ensures TextLeq(TextOf(text, out[i]), TextOf(text, out[j])) {
      assert out[i] == if i < n then ps[i] else if i == n then x else ps[i - 1];
      assert out[j] == if j < n then ps[j] else if j == n then x else ps[j - 1];
      if i < n - 1 && j == n {
        TextTransitive(TextOf(text, ps[i]), TextOf(text, ps[n - 1]), TextOf(text, x));
      }
    }
  }

  method Consolidate(w: nat, input: seq<Prefix>, text: nat -> string) returns (out: seq<Prefix>)
    ensures IsOutput(w, input, out)
    ensures SortedByText(text, out)
  {
    var prefixes := input;
    var prefixlen := w - 1;
    while prefixlen > 1
      invariant prefixlen < w
      invariant Closure(w, Blocks(w, prefixes), prefixlen) == Closure(w, Blocks(w, input), w - 1)
      invariant multiset(prefixes) + Appended(w, Blocks(w, prefixes), prefixlen)
             == multiset(input) + Appended(w, Blocks(w, input), w - 1)
    {
      prefixes := MergeRound(w, prefixlen, prefixes);
      prefixlen := prefixlen - 1;
    }
    var toBeDeleted := MarkCovered(w, prefixes);
    var keep := KeepUnmarked(w, prefixes, toBeDeleted);
    ghost var s := Blocks(w, prefixes);
    assert s == Closure(w, Blocks(w, input), w - 1);
    assert multiset(prefixes) == multiset(input) + Appended(w, Blocks(w, input), w - 1);
    forall x
      ensures multiset(keep)[x] == if Keepable(w, s, x) then multiset(prefixes)[x] else 0
    {
      if x in multiset(prefixes) && ParsePrefix(w, x).Net? {
        assert x in prefixes && ParsePrefix(w, x).block in s;
      }
    }
    out := SortByText(text, keep);
  }

  method ConsolidateV4(prefixes: seq<Prefix>, text: nat -> string) returns (out: seq<Prefix>)
    ensures IsOutput(32, prefixes, out) && SortedByText(text, out)
  {
    out := Consolidate(32, prefixes, text);
  }

  method ConsolidateV6(prefixes: seq<Prefix>, text: nat -> string) returns (out: seq<Prefix>)
    ensures IsOutput(128, prefixes, out) && SortedByText(text, out)
  {
    out := Consolidate(128, prefixes, text);
  }
}
