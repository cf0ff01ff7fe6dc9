/** The egress CIDR policy of `scripts/render_deployment.py`. A network is a prefix value and its
    length (section 3.1 of RFC 4632); aligned blocks are nested or disjoint, and from that follow
    the bound on public egress and the absence of special-purpose destinations. */
module EgressPolicy {

  datatype Version = V4 | V6

  function Bits(v: Version): nat { if v == V4 then 32 else 128 }

  function Pow2(n: nat): (p: nat)
    ensures p > 0
  {
    if n == 0 then 1 else 2 * Pow2(n - 1)
  }

  /** The block of addresses whose first `len` bits are `top`. Strict parsing, which refuses host
      bits, accepts exactly these. */
  datatype Network = Network(v: Version, top: nat, len: nat) {
    ghost predicate WellFormed() { len <= Bits(v) && top < Pow2(len) }
  }

  function Size(n: Network): (s: nat)
    requires n.len <= Bits(n.v)
    ensures s > 0
  {
    Pow2(Bits(n.v) - n.len)
  }

  function First(n: Network): nat
    requires n.len <= Bits(n.v)
  {
    n.top * Size(n)
  }

  function Last(n: Network): nat
    requires n.len <= Bits(n.v)
  {
    n.top * Size(n) + Size(n) - 1
  }

  /** `address in network` */
  predicate Covers(n: Network, a: nat)
    requires n.len <= Bits(n.v)
  {
    a / Size(n) == n.top
  }

  /** `network.subnet_of(block)`, for networks of one version. */
  predicate SubnetOf(n: Network, block: Network)
    requires n.len <= Bits(n.v) && block.len <= Bits(block.v)
  {
    n.v == block.v && Covers(block, First(n)) && Covers(block, Last(n))
  }

  // ---------- The ranges ----------

  const INTERNAL_RANGES: seq<Network> :=
    [Network(V4, 10, 8),          // 10.0.0.0/8
     Network(V4, 0xAC1, 12),      // 172.16.0.0/12
     Network(V4, 0xC0A8, 16),     // 192.168.0.0/16
     Network(V4, 0x191, 10),      // 100.64.0.0/10
     Network(V6, 0x7E, 7)]        // fc00::/7

  const DOCUMENTATION_RANGES: seq<Network> :=
    [Network(V4, 0xC63364, 24),   // 198.51.100.0/24
     Network(V4, 0xCB0071, 24),   // 203.0.113.0/24
     Network(V6, 0x20010DB8, 32)] // 2001:db8::/32

  const MAX_EGRESS_ENTRIES := 64

  function MaxPublicPrefix(v: Version): nat { if v == V4 then 24 else 48 }

  function Multicast(v: Version): Network { if v == V4 then Network(V4, 0xE, 4) else Network(V6, 0xFF, 8) }
  function LinkLocal(v: Version): Network { if v == V4 then Network(V4, 0xA9FE, 16) else Network(V6, 0x3FA, 10) }
  function Loopback(v: Version): Network { if v == V4 then Network(V4, 127, 8) else Network(V6, 1, 128) }
  function Unspecified(v: Version): Network { if v == V4 then Network(V4, 0, 32) else Network(V6, 0, 128) }
  const IPV4_MAPPED := Network(V6, 0xFFFF, 96)

  /** The reserved blocks of the address library. */
  function Reserved(v: Version): seq<Network>
  {
    if v == V4 then [Network(V4, 0xF, 4)]
    else
      [Network(V6, 0x0, 8), Network(V6, 0x1, 8), Network(V6, 0x1, 7), Network(V6, 0x1, 6), Network(V6, 0x1, 5),
       Network(V6, 0x1, 4), Network(V6, 0x2, 3), Network(V6, 0x3, 3), Network(V6, 0x4, 3), Network(V6, 0x5, 3),
       Network(V6, 0x6, 3), Network(V6, 0xE, 4), Network(V6, 0x1E, 5), Network(V6, 0x3E, 6), Network(V6, 0x1FC, 9)]
  }

  predicate CoveredByAny(blocks: seq<Network>, v: Version, a: nat)
  {
    exists i :: 0 <= i < |blocks| && blocks[i].v == v && blocks[i].len <= Bits(v) && Covers(blocks[i], a)
  }

  /** The library calls a network special when both its first and its last address are. */
  predicate BothEnds(n: Network, block: Network)
    requires n.len <= Bits(n.v) && block.len <= Bits(block.v)
  {
    Covers(block, First(n)) && Covers(block, Last(n))
  }

  predicate Within(n: Network, ranges: seq<Network>)
    requires n.len <= Bits(n.v)
  {
    exists i :: 0 <= i < |ranges| && ranges[i].len <= Bits(ranges[i].v) && SubnetOf(n, ranges[i])
  }

  /** The dotted text of the network address starts with "192.0.2.". */
  predicate Placeholder(n: Network)
    requires n.len <= Bits(n.v)
  {
    n.v == V4 && First(n) / 256 == 0xC00002
  }

  predicate SpecialPurpose(n: Network)
    requires n.len <= Bits(n.v)
  {
    || n.len == 0
    || BothEnds(n, Multicast(n.v))
    || BothEnds(n, Loopback(n.v))
    || BothEnds(n, LinkLocal(n.v))
    || BothEnds(n, Unspecified(n.v))
    || (CoveredByAny(Reserved(n.v), n.v, First(n)) && CoveredByAny(Reserved(n.v), n.v, Last(n)))
    || Placeholder(n)
    || (n.v == V6 && SubnetOf(n, IPV4_MAPPED))
  }

  datatype Verdict = Deployable | NotDeployable | TooBroad

  /** `check_egress_cidr` */
  function CheckEgressCidr(n: Network): Verdict
    requires n.len <= Bits(n.v)
  {
    if SpecialPurpose(n) then NotDeployable
    else if Within(n, INTERNAL_RANGES) || Within(n, DOCUMENTATION_RANGES) then Deployable
    else if n.len < MaxPublicPrefix(n.v) then TooBroad
    else Deployable
  }

  ghost predicate Accepted(n: Network)
  {
    n.WellFormed() && CheckEgressCidr(n) == Deployable
  }

  /** `_reject_unrestricted_union` raises when the collapsed set is a whole address family. */
  ghost predicate CoversFamily(networks: seq<Network>, v: Version)
  {
    forall a: nat :: a < Pow2(Bits(v)) ==> CoveredByAny(networks, v, a)
  }

  ghost predicate UnionAllowed(networks: seq<Network>)
  {
    !CoversFamily(networks, V4) && !CoversFamily(networks, V6)
  }

  /** The CIDR part of `validate`, in its order. */
  ghost predicate Validate(database: Network, egress: seq<Network>)
  {
    && egress != []
    && UnionAllowed([database])
    && UnionAllowed(egress)
    && |egress| <= MAX_EGRESS_ENTRIES
    && Accepted(database)
    && forall i :: 0 <= i < |egress| ==> Accepted(egress[i])
  }

  // ---------- Aligned blocks ----------

  lemma DoubledProduct(x: nat, y: nat)
    ensures 2 * (x * y) == (2 * x) * y
  {
  }

  lemma Pow2Step(n: nat)
    ensures Pow2(0) == 1 && Pow2(n + 1) == 2 * Pow2(n)
  {
  }

  lemma {:induction false} Pow2Add(m: nat, n: nat)
    ensures Pow2(m + n) == Pow2(m) * Pow2(n)
  {
    hide Pow2;
    if m == 0 {
      Pow2Step(0);
    } else {
      Pow2Add(m - 1, n);
      Pow2Step(m - 1);
      Pow2Step(m - 1 + n);
      DoubledProduct(Pow2(m - 1), Pow2(n));
    }
  }

  lemma MulLess(x: int, y: int, d: int)
    requires x < y && d > 0
    ensures x * d + d <= y * d
  {
    var k := y - x - 1;
    assert k * d >= 0;
    assert y * d == (x + 1 + k) * d;
    assert (x + 1 + k) * d == x * d + d + k * d;
  }

  lemma QuotientBounds(a: nat, d: nat)
    requires d > 0
    ensures a / d * d <= a < a / d * d + d
  {
  }

  /** Quotients are determined by their bounds. */
  lemma QuotientIs(a: nat, d: nat, q: nat)
    requires d > 0 && q * d <= a < q * d + d
    ensures a / d == q
  {
    var r := a / d;
    QuotientBounds(a, d);
    if r < q {
      MulLess(r, q, d);
    } else if q < r {
      MulLess(q, r, d);
    }
  }

  lemma MulAtMost(x: int, y: int, d: int)
    requires x <= y && d > 0
    ensures x * d <= y * d
  {
    if x < y { MulLess(x, y, d); }
  }

  lemma MulPositive(d: nat, e: nat)
    requires d > 0 && e > 0
    ensures d * e > 0
  {
  }

  lemma Regroup(r: int, d: int, e: int)
    ensures r * (d * e) == (r * e) * d && (r * e + e) * d == r * (d * e) + d * e
  {
    assert (r * e) * d == r * (e * d);
    assert (r * e + e) * d == (r * e) * d + e * d;
  }

  lemma DivDiv(a: nat, d: nat, e: nat)
    requires d > 0 && e > 0
    ensures d * e > 0 && a / (d * e) == a / d / e
  {
    MulPositive(d, e);
    var q := a / d;
    var r := q / e;
    QuotientBounds(a, d);
    QuotientBounds(q, e);
    MulAtMost(r * e, q, d);
    MulAtMost(q + 1, r * e + e, d);
    Regroup(r, d, e);
    var whole := d * e;
    assert r * whole <= a < r * whole + whole by {
      assert (q + 1) * d == q * d + d;
    }
    QuotientIs(a, whole, r);
  }

  /** The shorter prefix of an address is the longer one cut down. */
  lemma PrefixOfPrefix(v: Version, a: nat, short: nat, long: nat)
    requires short <= long <= Bits(v)
    ensures a / Pow2(Bits(v) - short) == a / Pow2(Bits(v) - long) / Pow2(long - short)
  {
    Pow2Add(Bits(v) - long, long - short);
    DivDiv(a, Pow2(Bits(v) - long), Pow2(long - short));
  }

  lemma EndsCovered(n: Network)
    requires n.len <= Bits(n.v)
    ensures Covers(n, First(n)) && Covers(n, Last(n))
  {
    QuotientIs(First(n), Size(n), n.top);
    QuotientIs(Last(n), Size(n), n.top);
  }

  /** Two aligned blocks are nested or disjoint: one common address puts the longer prefix wholly
      inside the shorter one. */
  lemma NestedOrDisjoint(n: Network, block: Network, a: nat, b: nat)
    requires n.v == block.v && block.len <= n.len <= Bits(n.v)
    requires Covers(n, a) && Covers(block, a) && Covers(n, b)
    ensures Covers(block, b)
  {
    PrefixOfPrefix(n.v, a, block.len, n.len);
    PrefixOfPrefix(n.v, b, block.len, n.len);
  }

  /** Between two covered addresses everything is covered. */
  lemma BetweenCovered(block: Network, lo: nat, a: nat, hi: nat)
    requires block.len <= Bits(block.v)
    requires lo <= a <= hi && Covers(block, lo) && Covers(block, hi)
    ensures Covers(block, a)
  {
    var d := Size(block);
    QuotientBounds(lo, d);
    QuotientBounds(hi, d);
    QuotientIs(a, d, block.top);
  }

  lemma SubnetCovers(n: Network, block: Network, a: nat)
    requires n.len <= Bits(n.v) && block.len <= Bits(block.v)
    requires SubnetOf(n, block) && Covers(n, a)
    ensures Covers(block, a)
  {
    QuotientBounds(a, Size(n));
    BetweenCovered(block, First(n), a, Last(n));
  }

  // ---------- No special-purpose destination ----------

  /** Decided on the two prefixes alone. */
  predicate Apart(r: Network, b: Network)
  {
    if r.len <= b.len then b.top / Pow2(b.len - r.len) != r.top
    else r.top / Pow2(r.len - b.len) != b.top
  }

  lemma ApartShareNothing(r: Network, b: Network, a: nat)
    requires r.v == b.v && r.len <= Bits(r.v) && b.len <= Bits(b.v) && Apart(r, b)
    ensures !(Covers(r, a) && Covers(b, a))
  {
    if r.len <= b.len {
      PrefixOfPrefix(r.v, a, r.len, b.len);
    } else {
      PrefixOfPrefix(r.v, a, b.len, r.len);
    }
  }

  /** What no accepted network may touch: loopback, link-local (the metadata service), multicast and
      all reserved space; for IPv6 the reserved ::/8 holds loopback, unspecified and IPv4-mapped. */
  function ForbiddenBlocks(v: Version): (blocks: seq<Network>)
    ensures forall k :: 0 <= k < |blocks| ==> blocks[k].v == v && blocks[k].len <= 16
  {
    (if v == V4 then [Loopback(V4), LinkLocal(V4), Multicast(V4)] else [Multicast(V6), LinkLocal(V6)]) + Reserved(v)
  }

  lemma Pow2Values()
    ensures Pow2(0) == 1 && Pow2(1) == 2 && Pow2(2) == 4 && Pow2(3) == 8 && Pow2(4) == 16 && Pow2(6) == 64
    ensures Pow2(8) == 256 && Pow2(12) == 4096 && Pow2(16) == 65536
    ensures Pow2(5) == 32 && Pow2(7) == 128 && Pow2(9) == 512
    ensures Pow2(10) == 1024 && Pow2(11) == 2048 && Pow2(13) == 8192
    ensures Pow2(20) == 1048576 && Pow2(22) == 4194304 && Pow2(23) == 8388608 && Pow2(24) == 16777216
    ensures Pow2(25) == 33554432 && Pow2(26) == 67108864 && Pow2(27) == 134217728 && Pow2(28) == 268435456
    ensures Pow2(29) == 536870912 && Pow2(32) == 4294967296
  {
    assert Pow2(1) == 2 && Pow2(2) == 4 && Pow2(3) == 8 && Pow2(4) == 16;
    Pow2Add(4, 2);
    Pow2Add(4, 4);
    Pow2Add(8, 4);
    Pow2Add(8, 8);
    Pow2Add(16, 4);
    Pow2Add(16, 6);
    Pow2Add(16, 8);
    Pow2Add(16, 16);
    assert Pow2(10) == 2 * Pow2(9) && Pow2(11) == 2 * Pow2(10) && Pow2(13) == 2 * Pow2(12);
    assert Pow2(5) == 2 * Pow2(4) && Pow2(7) == 2 * Pow2(6) && Pow2(9) == 2 * Pow2(8) && Pow2(23) == 2 * Pow2(22);
    assert Pow2(25) == 2 * Pow2(24) && Pow2(26) == 2 * Pow2(25) && Pow2(27) == 2 * Pow2(26);
    assert Pow2(28) == 2 * Pow2(27) && Pow2(29) == 2 * Pow2(28);
  }

  lemma RangesApartFromForbidden(r: Network, k: nat)
    requires r in INTERNAL_RANGES || r in DOCUMENTATION_RANGES
    requires k < |ForbiddenBlocks(r.v)|
    ensures Apart(r, ForbiddenBlocks(r.v)[k])
  {
    hide Pow2, Apart, ForbiddenBlocks;
    if r == Network(V6, 0x7E, 7) {
      UniqueLocalApart(k);
    } else if r == Network(V6, 0x20010DB8, 32) {
      DocumentationSixApart(k);
    } else {
      RangesFourApart(r, k);
    }
  }

  lemma UniqueLocalApart(k: nat)
    requires k < |ForbiddenBlocks(V6)|
    ensures Apart(Network(V6, 0x7E, 7), ForbiddenBlocks(V6)[k])
  {
    Pow2Values();
    hide Pow2;
  }

  lemma DocumentationSixApart(k: nat)
    requires k < |ForbiddenBlocks(V6)|
    ensures Apart(Network(V6, 0x20010DB8, 32), ForbiddenBlocks(V6)[k])
  {
    Pow2Values();
    hide Pow2;
  }

  lemma RangesFourApart(r: Network, k: nat)
    requires r.v == V4 && (r in INTERNAL_RANGES || r in DOCUMENTATION_RANGES)
    requires k < |ForbiddenBlocks(V4)|
    ensures Apart(r, ForbiddenBlocks(V4)[k])
  {
    Pow2Values();
    hide Pow2;
  }

  /** A network that meets a block with a shorter prefix has both ends in it. */
  lemma MeetingMeansBothEnds(n: Network, block: Network, a: nat)
    requires n.v == block.v && block.len <= n.len <= Bits(n.v)
    requires Covers(n, a) && Covers(block, a)
    ensures BothEnds(n, block)
  {
    EndsCovered(n);
    NestedOrDisjoint(n, block, a, First(n));
    NestedOrDisjoint(n, block, a, Last(n));
  }

  lemma BothEndsForbidden(n: Network, k: nat)
    requires n.len <= Bits(n.v) && k < |ForbiddenBlocks(n.v)|
    requires BothEnds(n, ForbiddenBlocks(n.v)[k])
    ensures SpecialPurpose(n)
  {
    hide First, Last, Covers;
    var named := if n.v == V4 then 3 else 2;
    if k >= named {
      assert Reserved(n.v)[k - named] == ForbiddenBlocks(n.v)[k];
      assert CoveredByAny(Reserved(n.v), n.v, First(n)) && CoveredByAny(Reserved(n.v), n.v, Last(n));
    }
  }

  lemma WithinAvoidsForbidden(n: Network, ranges: seq<Network>, k: nat, a: nat)
    requires n.len <= Bits(n.v) && Within(n, ranges) && Covers(n, a)
    requires ranges == INTERNAL_RANGES || ranges == DOCUMENTATION_RANGES
    requires k < |ForbiddenBlocks(n.v)|
    ensures !Covers(ForbiddenBlocks(n.v)[k], a)
  {
    hide Covers, Pow2, First, Last;
    var i :| 0 <= i < |ranges| && ranges[i].len <= Bits(ranges[i].v) && SubnetOf(n, ranges[i]);
    SubnetCovers(n, ranges[i], a);
    RangesApartFromForbidden(ranges[i], k);
    ApartShareNothing(ranges[i], ForbiddenBlocks(n.v)[k], a);
  }

  /** No accepted network contains a single address of a forbidden block, although the code only
      looks at its first and last address. */
  lemma AcceptedAvoidsForbidden(n: Network, k: nat, a: nat)
    requires Accepted(n) && Covers(n, a) && k < |ForbiddenBlocks(n.v)|
    ensures !Covers(ForbiddenBlocks(n.v)[k], a)
  {
    hide Covers, Pow2, First, Last, SpecialPurpose, Within;
    var block := ForbiddenBlocks(n.v)[k];
    if Within(n, INTERNAL_RANGES) {
      WithinAvoidsForbidden(n, INTERNAL_RANGES, k, a);
    } else if Within(n, DOCUMENTATION_RANGES) {
      WithinAvoidsForbidden(n, DOCUMENTATION_RANGES, k, a);
    } else if Covers(block, a) {
      MeetingMeansBothEnds(n, block, a);
      BothEndsForbidden(n, k);
    }
  }

  ghost predicate FreeOfForbidden(n: Network)
    requires n.len <= Bits(n.v)
  {
    forall k: nat, a: nat :: k < |ForbiddenBlocks(n.v)| && Covers(n, a) ==> !Covers(ForbiddenBlocks(n.v)[k], a)
  }

  /** The rules of both families in terms of addresses, both ways: `check_egress_cidr` accepts
      exactly the networks without a forbidden address that lie in an internal or documentation
      range or are no broader than a routed block, and for IPv4 are neither the unspecified nor a
      placeholder network. */
  lemma AcceptedIff(n: Network)
    requires n.WellFormed()
    ensures Accepted(n) <==>
            && n.len > 0 && FreeOfForbidden(n)
            && (Within(n, INTERNAL_RANGES) || Within(n, DOCUMENTATION_RANGES) || n.len >= MaxPublicPrefix(n.v))
            && (n.v == V4 ==> n != Unspecified(V4) && !Placeholder(n))
  {
    hide Covers, Pow2, First, Last, Within, Placeholder, SpecialPurpose;
    if Accepted(n) {
      assert FreeOfForbidden(n) by {
        forall k: nat, a: nat | k < |ForbiddenBlocks(n.v)| && Covers(n, a)
          ensures !Covers(ForbiddenBlocks(n.v)[k], a)
        {
          AcceptedAvoidsForbidden(n, k, a);
        }
      }
    }
    WhenSpecial(n);
  }

  /** For a network without forbidden addresses the special-purpose test comes down to this. */
  lemma WhenSpecial(n: Network)
    requires n.WellFormed()
    ensures n.len == 0 ==> SpecialPurpose(n)
    ensures n.v == V4 && (n == Unspecified(V4) || Placeholder(n)) ==> SpecialPurpose(n)
    ensures FreeOfForbidden(n) && SpecialPurpose(n) ==>
              n.len == 0 || (n.v == V4 && (n == Unspecified(V4) || Placeholder(n)))
  {
    EndsCovered(n);
    if n == Unspecified(V4) { assert BothEnds(n, Unspecified(V4)); }
    if n.v == V4 { UnspecifiedAlone(n); }
    hide Covers, Pow2, First, Last, Placeholder, CoveredByAny, ForbiddenBlocks, Reserved;
    if FreeOfForbidden(n) {
      OutsideSpecialBlocks(n.v, First(n));
    }
  }

  lemma OutsideSpecialBlocks(v: Version, a: nat)
    requires forall k: nat :: k < |ForbiddenBlocks(v)| ==> !Covers(ForbiddenBlocks(v)[k], a)
    ensures !Covers(Multicast(v), a) && !Covers(LinkLocal(v), a) && !Covers(Loopback(v), a)
    ensures !CoveredByAny(Reserved(v), v, a)
    ensures v == V6 ==> !Covers(Unspecified(V6), a) && !Covers(IPV4_MAPPED, a)
  {
    hide Covers, Pow2;
    var blocks, named := ForbiddenBlocks(v), if v == V4 then 3 else 2;
    assert !Covers(blocks[0], a) && !Covers(blocks[1], a) && !Covers(blocks[2], a);
    forall i: nat | i < |Reserved(v)| ensures !Covers(Reserved(v)[i], a) {
      assert Reserved(v)[i] == blocks[named + i];
    }
    if v == V6 { InLowSpace(a); }
  }

  /** Loopback, unspecified and IPv4-mapped addresses lie in ::/8. */
  lemma InLowSpace(a: nat)
    ensures Covers(Loopback(V6), a) || Covers(Unspecified(V6), a) || Covers(IPV4_MAPPED, a) ==>
              Covers(Network(V6, 0, 8), a)
  {
    hide Pow2, Covers;
    if Covers(Loopback(V6), a) { LowBlock(Loopback(V6), a); }
    if Covers(Unspecified(V6), a) { LowBlock(Unspecified(V6), a); }
    if Covers(IPV4_MAPPED, a) { LowBlock(IPV4_MAPPED, a); }
  }

  /** A prefix whose first eight bits are zero. */
  lemma LowBlock(b: Network, a: nat)
    requires b.v == V6 && 24 <= b.len <= 128 && b.top < 65536 && Covers(b, a)
    ensures Covers(Network(V6, 0, 8), a)
  {
    hide Pow2;
    PrefixOfPrefix(V6, a, 8, b.len);
    SixteenBitsFit(b.len - 8);
    QuotientIs(b.top, Pow2(b.len - 8), 0);
  }

  lemma SixteenBitsFit(n: nat)
    requires n >= 16
    ensures Pow2(n) >= 65536
  {
    Pow2Values();
    Pow2Add(16, n - 16);
    hide Pow2;
    MulAtMost(1, Pow2(n - 16), 65536);
  }

  // ---------- The rules in numbers ----------

  /** The first `n` bits of an address. */
  function TopBits(v: Version, a: nat, n: nat): nat
    requires n <= Bits(v)
  {
    PositiveQuotient(a, Pow2(Bits(v) - n));
    a / Pow2(Bits(v) - n)
  }

  lemma PositiveQuotient(a: nat, d: nat)
    requires d > 0
    ensures a / d >= 0
  {
    QuotientBounds(a, d);
    if a / d <= -1 { MulAtMost(a / d, -1, d); }
  }

  /** 127.0.0.0/8, 169.254.0.0/16 and everything from 224.0.0.0 on; in IPv6, told apart by the first
      sixteen bits, all but 2000::/3, fc00::/7 and fec0::/10. */
  predicate SpecialAddress(v: Version, a: nat)
  {
    match v
    case V4 => 0x7F00_0000 <= a <= 0x7FFF_FFFF || 0xA9FE_0000 <= a <= 0xA9FE_FFFF || 0xE000_0000 <= a <= 0xFFFF_FFFF
    case V6 =>
      var w := TopBits(v, a, 16);
      w < 0x2000 || 0x4000 <= w < 0xFC00 || 0xFE00 <= w < 0xFEC0 || 0xFF00 <= w <= 0xFFFF
  }

  /** 10.0.0.0/8, 172.16.0.0/12, 192.168.0.0/16 and 100.64.0.0/10; fc00::/7. */
  predicate InternalAddress(v: Version, a: nat)
  {
    match v
    case V4 =>
      || 0x0A00_0000 <= a <= 0x0AFF_FFFF || 0xAC10_0000 <= a <= 0xAC1F_FFFF
      || 0xC0A8_0000 <= a <= 0xC0A8_FFFF || 0x6440_0000 <= a <= 0x647F_FFFF
    case V6 => 0xFC00 <= TopBits(v, a, 16) <= 0xFDFF
  }

  /** 198.51.100.0/24 and 203.0.113.0/24; 2001:db8::/32. */
  predicate DocumentationAddress(v: Version, a: nat)
  {
    match v
    case V4 => 0xC633_6400 <= a <= 0xC633_64FF || 0xCB00_7100 <= a <= 0xCB00_71FF
    case V6 => TopBits(v, a, 32) == 0x2001_0DB8
  }

  /** A prefix of at most sixteen bits, decided on the first sixteen bits of an address. */
  lemma ByFirstSixteen(v: Version, block: Network, a: nat)
    requires block.v == v && block.len <= 16
    ensures Covers(block, a) <==> TopBits(v, a, 16) / Pow2(16 - block.len) == block.top
  {
    PrefixOfPrefix(v, a, block.len, 16);
    hide Pow2;
  }

  lemma ByAllBits(block: Network, a: nat)
    requires block.len <= Bits(block.v)
    ensures Covers(block, a) <==> TopBits(block.v, a, block.len) == block.top
  {
    hide Pow2;
  }

  lemma SpecialFour(a: nat)
    ensures (exists k: nat :: k < |ForbiddenBlocks(V4)| && Covers(ForbiddenBlocks(V4)[k], a)) <==> SpecialAddress(V4, a)
  {
    Pow2Values();
    hide Pow2;
    var blocks := ForbiddenBlocks(V4);
    assert Covers(blocks[0], a) <==> 0x7F00_0000 <= a <= 0x7FFF_FFFF;
    assert Covers(blocks[1], a) <==> 0xA9FE_0000 <= a <= 0xA9FE_FFFF;
    assert Covers(blocks[2], a) || Covers(blocks[3], a) <==> 0xE000_0000 <= a <= 0xFFFF_FFFF;
  }

  /** The first and last value of the first sixteen bits in a block. */
  lemma SixteenBitBlock(block: Network, lo: nat, hi: nat, a: nat)
    requires block.len <= 16 && lo == block.top * Pow2(16 - block.len) && hi == lo + Pow2(16 - block.len) - 1
    ensures Covers(block, a) <==> lo <= TopBits(block.v, a, 16) <= hi
  {
    ByFirstSixteen(block.v, block, a);
    hide Pow2, Covers, TopBits;
    var w, d := TopBits(block.v, a, 16), Pow2(16 - block.len);
    QuotientBounds(w, d);
    if lo <= w <= hi { QuotientIs(w, d, block.top); }
  }

  lemma SpecialSixNamed(blocks: seq<Network>, a: nat, w: nat)
    requires blocks == ForbiddenBlocks(V6) && |blocks| == 17 && w == TopBits(V6, a, 16)
    ensures Covers(blocks[0], a) <==> 0xFF00 <= w <= 0xFFFF
    ensures Covers(blocks[1], a) <==> 0xFE80 <= w <= 0xFEBF
    ensures Covers(blocks[2], a) <==> 0x0000 <= w <= 0x00FF
    ensures Covers(blocks[3], a) <==> 0x0100 <= w <= 0x01FF
    ensures Covers(blocks[4], a) <==> 0x0200 <= w <= 0x03FF
    ensures Covers(blocks[5], a) <==> 0x0400 <= w <= 0x07FF
  {
    Pow2Values();
    hide Pow2, Covers, TopBits;
    SixteenBitBlock(blocks[0], 0xFF00, 0xFFFF, a);
    SixteenBitBlock(blocks[1], 0xFE80, 0xFEBF, a);
    SixteenBitBlock(blocks[2], 0x0000, 0x00FF, a);
    SixteenBitBlock(blocks[3], 0x0100, 0x01FF, a);
    SixteenBitBlock(blocks[4], 0x0200, 0x03FF, a);
    SixteenBitBlock(blocks[5], 0x0400, 0x07FF, a);
  }

  lemma SpecialSixMiddle(blocks: seq<Network>, a: nat, w: nat)
    requires blocks == ForbiddenBlocks(V6) && |blocks| == 17 && w == TopBits(V6, a, 16)
    ensures Covers(blocks[6], a) <==> 0x0800 <= w <= 0x0FFF
    ensures Covers(blocks[7], a) <==> 0x1000 <= w <= 0x1FFF
    ensures Covers(blocks[8], a) <==> 0x4000 <= w <= 0x5FFF
    ensures Covers(blocks[9], a) <==> 0x6000 <= w <= 0x7FFF
    ensures Covers(blocks[10], a) <==> 0x8000 <= w <= 0x9FFF
    ensures Covers(blocks[11], a) <==> 0xA000 <= w <= 0xBFFF
  {
    Pow2Values();
    hide Pow2, Covers, TopBits;
    SixteenBitBlock(blocks[6], 0x0800, 0x0FFF, a);
    SixteenBitBlock(blocks[7], 0x1000, 0x1FFF, a);
    SixteenBitBlock(blocks[8], 0x4000, 0x5FFF, a);
    SixteenBitBlock(blocks[9], 0x6000, 0x7FFF, a);
    SixteenBitBlock(blocks[10], 0x8000, 0x9FFF, a);
    SixteenBitBlock(blocks[11], 0xA000, 0xBFFF, a);
  }

  lemma SpecialSixHigh(blocks: seq<Network>, a: nat, w: nat)
    requires blocks == ForbiddenBlocks(V6) && |blocks| == 17 && w == TopBits(V6, a, 16)
    ensures Covers(blocks[12], a) <==> 0xC000 <= w <= 0xDFFF
    ensures Covers(blocks[13], a) <==> 0xE000 <= w <= 0xEFFF
    ensures Covers(blocks[14], a) <==> 0xF000 <= w <= 0xF7FF
    ensures Covers(blocks[15], a) <==> 0xF800 <= w <= 0xFBFF
    ensures Covers(blocks[16], a) <==> 0xFE00 <= w <= 0xFE7F
  {
    Pow2Values();
    hide Pow2, Covers, TopBits;
    SixteenBitBlock(blocks[12], 0xC000, 0xDFFF, a);
    SixteenBitBlock(blocks[13], 0xE000, 0xEFFF, a);
    SixteenBitBlock(blocks[14], 0xF000, 0xF7FF, a);
    SixteenBitBlock(blocks[15], 0xF800, 0xFBFF, a);
    SixteenBitBlock(blocks[16], 0xFE00, 0xFE7F, a);
  }

  /** The forbidden block of the first sixteen bits of a special address. */
  function SpecialBlock(w: nat): nat
  {
    if w >= 0xFF00 then 0 else if 0xFE80 <= w < 0xFEC0 then 1
    else if w < 0x100 then 2 else if w < 0x200 then 3 else if w < 0x400 then 4 else if w < 0x800 then 5
    else if w < 0x1000 then 6 else if w < 0x2000 then 7 else if w < 0x6000 then 8 else if w < 0x8000 then 9
    else if w < 0xA000 then 10 else if w < 0xC000 then 11 else if w < 0xE000 then 12 else if w < 0xF000 then 13
    else if w < 0xF800 then 14 else if w < 0xFC00 then 15 else 16
  }

  /** The values of the first sixteen bits that are special. */
  predicate SpecialBits(w: nat)
  {
    w < 0x2000 || 0x4000 <= w < 0xFC00 || 0xFE00 <= w < 0xFEC0 || 0xFF00 <= w <= 0xFFFF
  }

  lemma CoveredIsSpecial(blocks: seq<Network>, a: nat, w: nat, k: nat)
    requires blocks == ForbiddenBlocks(V6) && |blocks| == 17 && w == TopBits(V6, a, 16)
    requires k < 17 && Covers(blocks[k], a)
    ensures SpecialBits(w)
  {
    hide Pow2, Covers, TopBits, ForbiddenBlocks;
    if k < 6 {
      SpecialSixNamed(blocks, a, w);
    } else if k < 12 {
      SpecialSixMiddle(blocks, a, w);
    } else {
      SpecialSixHigh(blocks, a, w);
    }
  }

  lemma SpecialIsCovered(blocks: seq<Network>, a: nat, w: nat)
    requires blocks == ForbiddenBlocks(V6) && |blocks| == 17 && w == TopBits(V6, a, 16) && SpecialBits(w)
    ensures SpecialBlock(w) < 17 && Covers(blocks[SpecialBlock(w)], a)
  {
    hide Pow2, Covers, TopBits, ForbiddenBlocks;
    if SpecialBlock(w) < 6 {
      SpecialSixNamed(blocks, a, w);
    } else if SpecialBlock(w) < 12 {
      SpecialSixMiddle(blocks, a, w);
    } else {
      SpecialSixHigh(blocks, a, w);
    }
  }

  lemma SpecialSixByBits(blocks: seq<Network>, a: nat, w: nat)
    requires blocks == ForbiddenBlocks(V6) && |blocks| == 17 && w == TopBits(V6, a, 16)
    ensures (exists k: nat :: k < 17 && Covers(blocks[k], a)) <==> SpecialBits(w)
  {
    hide Pow2, Covers, TopBits, ForbiddenBlocks, SpecialBits, SpecialBlock;
    if k: nat :| k < 17 && Covers(blocks[k], a) { CoveredIsSpecial(blocks, a, w, k); }
    if SpecialBits(w) { SpecialIsCovered(blocks, a, w); }
  }

  lemma SpecialSix(a: nat)
    ensures (exists k: nat :: k < |ForbiddenBlocks(V6)| && Covers(ForbiddenBlocks(V6)[k], a)) <==> SpecialAddress(V6, a)
  {
    var blocks := ForbiddenBlocks(V6);
    assert |blocks| == 17;
    hide Pow2, Covers, TopBits, ForbiddenBlocks;
    SpecialSixByBits(blocks, a, TopBits(V6, a, 16));
  }

  lemma FreeOfForbiddenMeans(n: Network)
    requires n.len <= Bits(n.v)
    ensures FreeOfForbidden(n) <==> forall a: nat :: Covers(n, a) ==> !SpecialAddress(n.v, a)
  {
    hide Covers, Pow2, SpecialAddress, ForbiddenBlocks;
    if FreeOfForbidden(n) {
      forall a: nat | Covers(n, a) ensures !SpecialAddress(n.v, a) {
        if n.v == V4 { SpecialFour(a); } else { SpecialSix(a); }
      }
    }
    if forall a: nat :: Covers(n, a) ==> !SpecialAddress(n.v, a) {
      forall k: nat, a: nat | k < |ForbiddenBlocks(n.v)| && Covers(n, a) ensures !Covers(ForbiddenBlocks(n.v)[k], a) {
        if n.v == V4 { SpecialFour(a); } else { SpecialSix(a); }
      }
    }
  }

  lemma RangesFour(a: nat)
    ensures CoveredByAny(INTERNAL_RANGES, V4, a) <==> InternalAddress(V4, a)
    ensures CoveredByAny(DOCUMENTATION_RANGES, V4, a) <==> DocumentationAddress(V4, a)
  {
    CoversFour(a);
    hide Covers, Pow2;
    assert INTERNAL_RANGES[0].v == V4 && DOCUMENTATION_RANGES[0].v == V4;
    assert INTERNAL_RANGES[1].v == V4 && DOCUMENTATION_RANGES[1].v == V4;
    assert INTERNAL_RANGES[2].v == V4 && INTERNAL_RANGES[3].v == V4;
  }

  lemma RangesSix(a: nat)
    ensures CoveredByAny(INTERNAL_RANGES, V6, a) <==> InternalAddress(V6, a)
    ensures CoveredByAny(DOCUMENTATION_RANGES, V6, a) <==> DocumentationAddress(V6, a)
  {
    CoversSix(a);
    hide Covers, Pow2, TopBits;
    assert INTERNAL_RANGES[4].v == V6 && DOCUMENTATION_RANGES[2].v == V6;
  }

  lemma RangesMean(v: Version, a: nat)
    ensures CoveredByAny(INTERNAL_RANGES, v, a) <==> InternalAddress(v, a)
    ensures CoveredByAny(DOCUMENTATION_RANGES, v, a) <==> DocumentationAddress(v, a)
  {
    hide CoveredByAny, InternalAddress, DocumentationAddress;
    if v == V4 { RangesFour(a); } else { RangesSix(a); }
  }

  /** The span lies in one internal or documentation range. */
  predicate InOneRange(v: Version, lo: nat, hi: nat)
  {
    match v
    case V4 =>
      || (0x0A00_0000 <= lo && hi <= 0x0AFF_FFFF) || (0xAC10_0000 <= lo && hi <= 0xAC1F_FFFF)
      || (0xC0A8_0000 <= lo && hi <= 0xC0A8_FFFF) || (0x6440_0000 <= lo && hi <= 0x647F_FFFF)
      || (0xC633_6400 <= lo && hi <= 0xC633_64FF) || (0xCB00_7100 <= lo && hi <= 0xCB00_71FF)
    case V6 =>
      || (0xFC00 <= TopBits(v, lo, 16) <= 0xFDFF && 0xFC00 <= TopBits(v, hi, 16) <= 0xFDFF)
      || (TopBits(v, lo, 32) == 0x2001_0DB8 && TopBits(v, hi, 32) == 0x2001_0DB8)
  }

  lemma CoversSpan(n: Network, a: nat)
    requires n.len <= Bits(n.v)
    ensures Covers(n, a) <==> First(n) <= a <= Last(n)
    ensures First(n) <= Last(n)
  {
    QuotientBounds(a, Size(n));
    if First(n) <= a <= Last(n) { QuotientIs(a, Size(n), n.top); }
  }

  lemma InternalFour(n: Network)
    requires n.v == V4 && n.len <= 32
    ensures Within(n, INTERNAL_RANGES) <==>
            || (0x0A00_0000 <= First(n) && Last(n) <= 0x0AFF_FFFF)
            || (0xAC10_0000 <= First(n) && Last(n) <= 0xAC1F_FFFF)
            || (0xC0A8_0000 <= First(n) && Last(n) <= 0xC0A8_FFFF)
            || (0x6440_0000 <= First(n) && Last(n) <= 0x647F_FFFF)
  {
    CoversSpan(n, 0);
    CoversFour(First(n));
    CoversFour(Last(n));
    hide Covers, First, Last, Pow2;
    WithinOne(n, 0); WithinOne(n, 1); WithinOne(n, 2); WithinOne(n, 3);
  }

  lemma DocumentationFour(n: Network)
    requires n.v == V4 && n.len <= 32
    ensures Within(n, DOCUMENTATION_RANGES) <==>
            || (0xC633_6400 <= First(n) && Last(n) <= 0xC633_64FF)
            || (0xCB00_7100 <= First(n) && Last(n) <= 0xCB00_71FF)
  {
    CoversSpan(n, 0);
    CoversFour(First(n));
    CoversFour(Last(n));
    hide Covers, First, Last, Pow2;
    WithinDocumentation(n, 0); WithinDocumentation(n, 1);
  }

  lemma WithinFour(n: Network)
    requires n.v == V4 && n.len <= 32
    ensures Within(n, INTERNAL_RANGES) || Within(n, DOCUMENTATION_RANGES) <==> InOneRange(V4, First(n), Last(n))
  {
    InternalFour(n);
    DocumentationFour(n);
    hide Within, First, Last, Pow2;
  }

  lemma WithinOne(n: Network, i: nat)
    requires n.len <= Bits(n.v) && i < 5
    ensures |INTERNAL_RANGES| == 5
    ensures SubnetOf(n, INTERNAL_RANGES[i]) ==> Within(n, INTERNAL_RANGES)
  {
    hide SubnetOf;
  }

  lemma WithinDocumentation(n: Network, i: nat)
    requires n.len <= Bits(n.v) && i < 3
    ensures |DOCUMENTATION_RANGES| == 3
    ensures SubnetOf(n, DOCUMENTATION_RANGES[i]) ==> Within(n, DOCUMENTATION_RANGES)
  {
    hide SubnetOf;
  }

  lemma CoversFour(a: nat)
    ensures Covers(INTERNAL_RANGES[0], a) <==> 0x0A00_0000 <= a <= 0x0AFF_FFFF
    ensures Covers(INTERNAL_RANGES[1], a) <==> 0xAC10_0000 <= a <= 0xAC1F_FFFF
    ensures Covers(INTERNAL_RANGES[2], a) <==> 0xC0A8_0000 <= a <= 0xC0A8_FFFF
    ensures Covers(INTERNAL_RANGES[3], a) <==> 0x6440_0000 <= a <= 0x647F_FFFF
    ensures Covers(DOCUMENTATION_RANGES[0], a) <==> 0xC633_6400 <= a <= 0xC633_64FF
    ensures Covers(DOCUMENTATION_RANGES[1], a) <==> 0xCB00_7100 <= a <= 0xCB00_71FF
  {
    Pow2Values();
    hide Pow2;
  }

  lemma CoversSix(a: nat)
    ensures Covers(INTERNAL_RANGES[4], a) <==> 0xFC00 <= TopBits(V6, a, 16) <= 0xFDFF
    ensures Covers(DOCUMENTATION_RANGES[2], a) <==> TopBits(V6, a, 32) == 0x2001_0DB8
  {
    Pow2Values();
    hide Pow2, Covers, TopBits;
    SixteenBitBlock(INTERNAL_RANGES[4], 0xFC00, 0xFDFF, a);
    ByAllBits(DOCUMENTATION_RANGES[2], a);
  }

  lemma WithinSix(n: Network)
    requires n.v == V6 && n.len <= 128
    ensures Within(n, INTERNAL_RANGES) || Within(n, DOCUMENTATION_RANGES) <==> InOneRange(V6, First(n), Last(n))
  {
    CoversSix(First(n));
    CoversSix(Last(n));
    hide Covers, First, Last, Pow2, TopBits;
    WithinOne(n, 4);
    WithinDocumentation(n, 2);
  }

  /** `check_egress_cidr` in numbers, for both families: no special address between the first and the
      last, in one internal or documentation range or no broader than a /24 (a /48), and for IPv4
      neither 0.0.0.0/32 nor starting in 192.0.2.0/24. */
  lemma AcceptedMeans(n: Network)
    requires n.WellFormed()
    ensures Accepted(n) <==>
            && n.len > 0
            && (forall a: nat :: First(n) <= a <= Last(n) ==> !SpecialAddress(n.v, a))
            && (InOneRange(n.v, First(n), Last(n)) || n.len >= (if n.v == V4 then 24 else 48))
            && (n.v == V4 ==> !(n.top == 0 && n.len == 32) && !(0xC000_0200 <= First(n) <= 0xC000_02FF))
  {
    AcceptedIff(n);
    FreeOfForbiddenMeans(n);
    if n.v == V4 { WithinFour(n); } else { WithinSix(n); }
    forall a: nat ensures Covers(n, a) <==> First(n) <= a <= Last(n) { CoversSpan(n, a); }
    hide Covers, First, Last, Pow2, SpecialAddress, InOneRange, Within, FreeOfForbidden, Accepted;
  }

  /** Only the single address 0.0.0.0 has both ends unspecified. */
  lemma UnspecifiedAlone(n: Network)
    requires n.WellFormed() && n.v == V4
    ensures BothEnds(n, Unspecified(V4)) ==> n == Unspecified(V4)
  {
    if n.len < 32 { LargePow2(32 - n.len); }
    assert Size(Unspecified(V4)) == 1;
  }

  /** The unspecified address is not so excluded: only the single-address network is refused.
      0.0.0.0 can be opened, by exactly the networks 0.0.0.0/24 to 0.0.0.0/31. */
  lemma UnspecifiedAddressIsReachable(n: Network)
    requires n.WellFormed() && n.v == V4
    ensures Accepted(n) && Covers(n, 0) <==> n.top == 0 && 24 <= n.len <= 31
  {
    assert Covers(n, 0) <==> n.top == 0 by { QuotientIs(0, Size(n), 0); }
    if n.top == 0 {
      assert First(n) == 0;
      AcceptedIff(n);
      ZeroOutsideRanges(n);
      if n.len >= 24 { LowNetworkIsFree(n); }
    }
  }

  /** The internal and documentation ranges do not start at zero. */
  lemma ZeroOutsideRanges(n: Network)
    requires n.v == V4 && n.len <= 32 && First(n) == 0
    ensures !Within(n, INTERNAL_RANGES) && !Within(n, DOCUMENTATION_RANGES)
  {
    hide Pow2, First;
    forall r | r in INTERNAL_RANGES + DOCUMENTATION_RANGES ensures r.len <= Bits(r.v) && !SubnetOf(n, r) {
      QuotientIs(0, Size(r), 0);
    }
    assert forall i :: 0 <= i < |INTERNAL_RANGES| ==> INTERNAL_RANGES[i] in INTERNAL_RANGES + DOCUMENTATION_RANGES;
    assert forall i :: 0 <= i < |DOCUMENTATION_RANGES| ==>
      DOCUMENTATION_RANGES[i] in INTERNAL_RANGES + DOCUMENTATION_RANGES;
  }

  lemma LowNetworkIsFree(n: Network)
    requires n.v == V4 && n.top == 0 && 24 <= n.len <= 32
    ensures FreeOfForbidden(n)
  {
    hide Pow2, Covers;
    forall k: nat, a: nat | k < |ForbiddenBlocks(V4)| && Covers(n, a) ensures !Covers(ForbiddenBlocks(V4)[k], a) {
      LowPrefix(n, ForbiddenBlocks(V4)[k], a);
    }
  }

  lemma LowPrefix(n: Network, block: Network, a: nat)
    requires n.v == block.v && block.len <= n.len <= Bits(n.v) && n.top == 0 && block.top != 0 && Covers(n, a)
    ensures !Covers(block, a)
  {
    hide Pow2;
    PrefixOfPrefix(n.v, a, block.len, n.len);
    QuotientIs(0, Pow2(n.len - block.len), 0);
  }

  // ---------- The union check follows from the rest ----------

  lemma ForbiddenAddressLeftOut(networks: seq<Network>, v: Version, k: nat, a: nat)
    requires forall i :: 0 <= i < |networks| ==> Accepted(networks[i])
    requires k < |ForbiddenBlocks(v)| && Covers(ForbiddenBlocks(v)[k], a)
    ensures !CoveredByAny(networks, v, a)
  {
    hide Covers, Accepted, Pow2;
    if CoveredByAny(networks, v, a) {
      var i :| 0 <= i < |networks| && networks[i].v == v && networks[i].len <= Bits(v) && Covers(networks[i], a);
      AcceptedAvoidsForbidden(networks[i], k, a);
    }
  }

  lemma LocalhostIsForbidden()
    ensures 2130706433 < Pow2(32) && Covers(ForbiddenBlocks(V4)[0], 2130706433)
  {
    Pow2Values();
    hide Pow2;
    QuotientIs(2130706433, 16777216, 127);
  }

  lemma LoopbackSixIsForbidden()
    ensures 1 < Pow2(128) && Covers(ForbiddenBlocks(V6)[2], 1)
  {
    assert Size(Loopback(V6)) == 1;
    hide Pow2;
    SixteenBitsFit(128);
    LowBlock(Loopback(V6), 1);
  }

  /** Accepted entries leave 127.0.0.1 and ::1 out, so together they never cover a family. */
  lemma AcceptedUnionAllowed(networks: seq<Network>)
    requires forall i :: 0 <= i < |networks| ==> Accepted(networks[i])
    ensures UnionAllowed(networks)
  {
    LocalhostIsForbidden();
    LoopbackSixIsForbidden();
    hide CoveredByAny, Accepted, Covers, Pow2;
    ForbiddenAddressLeftOut(networks, V4, 0, 2130706433);
    ForbiddenAddressLeftOut(networks, V6, 2, 1);
  }

  lemma LargePow2(n: nat)
    requires n >= 1
    ensures Pow2(n) >= 2
  {
  }

  /** The explicit union check never decides: `validate` accepts the same configurations without
      it, since the per-entry rules already imply it. */
  lemma UnionCheckIsImplied(database: Network, egress: seq<Network>)
    ensures Validate(database, egress) <==>
            && 1 <= |egress| <= 64
            && Accepted(database)
            && (forall i :: 0 <= i < |egress| ==> Accepted(egress[i]))
  {
    hide Accepted, CoversFamily;
    if Accepted(database) && (forall i :: 0 <= i < |egress| ==> Accepted(egress[i])) {
      AcceptedUnionAllowed([database]);
      AcceptedUnionAllowed(egress);
    }
  }

  // ---------- How much of the internet is opened ----------

  predicate Unrouted(a: nat)
  {
    CoveredByAny(INTERNAL_RANGES, V4, a) || CoveredByAny(DOCUMENTATION_RANGES, V4, a)
  }

  /** The IPv4 addresses a list opens outside the internal and documentation ranges. */
  ghost function PublicAddresses(networks: seq<Network>): set<nat>
  {
    if networks == [] then {}
    else PublicAddresses(networks[..|networks| - 1]) + PublicPart(networks[|networks| - 1])
  }

  ghost function PublicPart(n: Network): set<nat>
  {
    if n.v == V4 && n.len <= 32 then set a | First(n) <= a <= Last(n) && !Unrouted(a) else {}
  }

  lemma {:induction false} PublicAddressesMeaning(networks: seq<Network>, a: nat)
    ensures a in PublicAddresses(networks) <==> CoveredByAny(networks, V4, a) && !Unrouted(a)
  {
    hide Unrouted;
    if networks != [] {
      var init, n := networks[..|networks| - 1], networks[|networks| - 1];
      PublicAddressesMeaning(init, a);
      if n.v == V4 && n.len <= 32 {
        QuotientBounds(a, Size(n));
        if First(n) <= a <= Last(n) { QuotientIs(a, Size(n), n.top); }
      }
      assert CoveredByAny(networks, V4, a) <==>
             CoveredByAny(init, V4, a) || (n.v == V4 && n.len <= 32 && Covers(n, a)) by {
        CoveredBySplit(networks, a);
      }
    } else {
      assert !CoveredByAny([], V4, a);
    }
  }

  lemma CoveredBySplit(networks: seq<Network>, a: nat)
    requires networks != []
    ensures var init, n := networks[..|networks| - 1], networks[|networks| - 1];
            CoveredByAny(networks, V4, a) <==>
            CoveredByAny(init, V4, a) || (n.v == V4 && n.len <= 32 && Covers(n, a))
  {
    hide Covers;
    var init := networks[..|networks| - 1];
    if CoveredByAny(init, V4, a) {
      var i :| 0 <= i < |init| && init[i].v == V4 && init[i].len <= Bits(V4) && Covers(init[i], a);
      assert networks[i] == init[i];
    }
    if CoveredByAny(networks, V4, a) {
      var i :| 0 <= i < |networks| && networks[i].v == V4 && networks[i].len <= Bits(V4) && Covers(networks[i], a);
      assert i < |init| ==> init[i] == networks[i];
    }
  }

  lemma {:induction false} IntervalSize(s: set<nat>, lo: nat, size: nat)
    requires forall a :: a in s ==> lo <= a < lo + size
    ensures |s| <= size
  {
    if size == 0 {
      assert forall a :: a !in s;
      assert s == {};
    } else {
      var rest := s - {lo + size - 1};
      IntervalSize(rest, lo, size - 1);
      assert s <= rest + {lo + size - 1};
    }
  }

  /** One accepted entry opens at most one routed /24 of public space. */
  lemma PublicPartIsSmall(n: Network)
    requires Accepted(n)
    ensures |PublicPart(n)| <= 256
  {
    hide SpecialPurpose, Within, PublicPart;
    if n.v == V4 && n.len >= 24 {
      SmallNetwork(n);
    } else if n.v == V4 {
      NothingPublic(n);
    } else {
      OtherFamily(n);
    }
  }

  lemma SmallNetwork(n: Network)
    requires n.v == V4 && 24 <= n.len <= 32
    ensures |PublicPart(n)| <= 256
  {
    SmallSize(32 - n.len);
    hide Unrouted, Pow2;
    IntervalSize(PublicPart(n), First(n), 256);
  }

  lemma OtherFamily(n: Network)
    requires n.v == V6
    ensures PublicPart(n) == {}
  {
  }

  lemma NothingPublic(n: Network)
    requires n.v == V4 && n.len <= 32
    requires Within(n, INTERNAL_RANGES) || Within(n, DOCUMENTATION_RANGES)
    ensures PublicPart(n) == {}
  {
    hide Pow2, Within, Unrouted;
    forall a | First(n) <= a <= Last(n) ensures Unrouted(a) {
      InsideIsUnrouted(n, a);
    }
  }

  lemma InsideIsUnrouted(n: Network, a: nat)
    requires n.v == V4 && n.len <= 32 && First(n) <= a <= Last(n)
    requires Within(n, INTERNAL_RANGES) || Within(n, DOCUMENTATION_RANGES)
    ensures Unrouted(a)
  {
    QuotientIs(a, Size(n), n.top);
    hide Covers, First, Last, Size;
    var ranges := if Within(n, INTERNAL_RANGES) then INTERNAL_RANGES else DOCUMENTATION_RANGES;
    var i :| 0 <= i < |ranges| && ranges[i].len <= Bits(ranges[i].v) && SubnetOf(n, ranges[i]);
    SubnetCovers(n, ranges[i], a);
    assert CoveredByAny(ranges, V4, a);
  }

  lemma {:induction false} SmallSize(d: nat)
    requires d <= 8
    ensures Pow2(d) <= 256
    decreases 8 - d
  {
    if d < 8 {
      SmallSize(d + 1);
    } else {
      Pow2Values();
    }
  }

  lemma {:induction false} PublicAddressesBounded(networks: seq<Network>)
    requires forall i :: 0 <= i < |networks| ==> Accepted(networks[i])
    ensures |PublicAddresses(networks)| <= |networks| * 256
  {
    hide Accepted, PublicPart;
    if networks != [] {
      PublicAddressesBounded(networks[..|networks| - 1]);
      PublicPartIsSmall(networks[|networks| - 1]);
    }
  }

  /** An accepted configuration opens at most 64 x 256 IPv4 addresses outside the internal and
      documentation ranges over HTTPS. */
  lemma PublicEgressIsBounded(database: Network, egress: seq<Network>)
    requires Validate(database, egress)
    ensures |PublicAddresses(egress)| <= 64 * 256
    ensures forall a: nat :: a in PublicAddresses(egress) <==>
              CoveredByAny(egress, V4, a) && !InternalAddress(V4, a) && !DocumentationAddress(V4, a)
  {
    forall a: nat ensures Unrouted(a) <==> InternalAddress(V4, a) || DocumentationAddress(V4, a) { RangesMean(V4, a); }
    hide Accepted, CoveredByAny;
    PublicAddressesBounded(egress);
    forall a: nat ensures a in PublicAddresses(egress) <==> CoveredByAny(egress, V4, a) && !Unrouted(a) {
      PublicAddressesMeaning(egress, a);
    }
  }
}
