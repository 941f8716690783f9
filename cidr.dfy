/**
 * IPv4 CIDR blocks: parsing the dotted form `a.b.c.d/p`, the address
 * range a block covers, and the `/24` blocks the subnet loop carves out
 * of `10.0.0.0/16` (index.js:66, index.js:78).
 */
module Cidr {
  import opened Options
  import opened Numerals

  datatype Ipv4Block = Ipv4Block(a: nat, b: nat, c: nat, d: nat, prefix: nat)

  /** Reads a number followed by the separator `sep`. */
  function ParseField(s: string, sep: char): Option<(nat, string)> {
    match ParseNumber(s)
    case None => None
    case Some((v, rest)) => if |rest| > 0 && rest[0] == sep then Some((v, rest[1..])) else None
  }

  /** Reads `a.b.c.d/p` and nothing else. */
  function ParseCidr(s: string): Option<Ipv4Block> {
    match ParseField(s, '.')
    case None => None
    case Some((a, r1)) =>
      match ParseField(r1, '.')
      case None => None
      case Some((b, r2)) =>
        match ParseField(r2, '.')
        case None => None
        case Some((c, r3)) =>
          match ParseField(r3, '/')
          case None => None
          case Some((d, r4)) =>
            match ParseNumber(r4)
            case None => None
            case Some((p, r5)) => if r5 == [] then Some(Ipv4Block(a, b, c, d, p)) else None
  }

  /** The block string the subnet loop builds for a third octet: `10.0.${octet}.0/24`. */
  function SubnetCidr(octet: nat): string {
    SubnetCidrHead + Decimal(octet) + SubnetCidrTail
  }

  const SubnetCidrHead: string := "10.0."
  const SubnetCidrTail: string := ".0/24"

  /**
   * A subnet's block argument, held by the one part of its text that
   * varies, the third octet; `RangeText` renders it.
   */
  datatype SubnetRange = SubnetRange(octet: nat)

  function RangeText(r: SubnetRange): string {
    SubnetCidr(r.octet)
  }

  /** A rendered number followed by a separator parses as a field. */
  lemma ParseFieldDecimal(n: nat, sep: char, rest: string)
    requires !IsDigit(sep)
    ensures ParseField(Decimal(n) + ([sep] + rest), sep) == Some((n, rest))
  {
    ParseDecimal(n, [sep] + rest);
    assert ([sep] + rest)[1..] == rest;
  }

  /** The dotted form of a block, as the inverse of ParseCidr. */
  function Dotted(blk: Ipv4Block): string {
    Decimal(blk.a) + (['.'] + (Decimal(blk.b) + (['.'] + (Decimal(blk.c) + (['.'] +
      (Decimal(blk.d) + (['/'] + Decimal(blk.prefix))))))))
  }

  /** Parsing the dotted form of any block gives the block back. */
  lemma ParseDotted(blk: Ipv4Block)
    ensures ParseCidr(Dotted(blk)) == Some(blk)
  {
    var r4 := Decimal(blk.prefix);
    var r3 := Decimal(blk.d) + (['/'] + r4);
    var r2 := Decimal(blk.c) + (['.'] + r3);
    var r1 := Decimal(blk.b) + (['.'] + r2);
    ParseFieldDecimal(blk.a, '.', r1);
    ParseFieldDecimal(blk.b, '.', r2);
    ParseFieldDecimal(blk.c, '.', r3);
    ParseFieldDecimal(blk.d, '/', r4);
    ParseDecimal(blk.prefix, []);
    assert r4 + [] == r4;
  }

  /** The string `10.0.${octet}.0/24` denotes the block 10.0.octet.0 with prefix 24. */
  lemma ParseSubnetCidr(octet: nat)
    ensures ParseCidr(SubnetCidr(octet)) == Some(Ipv4Block(10, 0, octet, 0, 24))
  {
    var blk := Ipv4Block(10, 0, octet, 0, 24);
    assert Decimal(10) == "10" && Decimal(0) == "0" && Decimal(24) == "24";
    assert SubnetCidr(octet) == Dotted(blk);
    ParseDotted(blk);
  }

  /** Different third octets give different block strings. */
  lemma SubnetCidrInjective(x: nat, y: nat)
    ensures SubnetCidr(x) == SubnetCidr(y) <==> x == y
  {
    ParseSubnetCidr(x);
    ParseSubnetCidr(y);
  }

  /** The block `10.0.octet.0/24`. */
  function SubnetBlock(octet: nat): Ipv4Block {
    Ipv4Block(10, 0, octet, 0, 24)
  }

  /** The `10.0.0.0/16` space out of which every subnet block is carved. */
  const SubnetSpace: Ipv4Block := Ipv4Block(10, 0, 0, 0, 16)

  function Pow2(k: nat): (r: nat)
    ensures r >= 1
  {
    if k == 0 then 1 else 2 * Pow2(k - 1)
  }

  /** The 32-bit address of the block's first four octets. */
  function Address(blk: Ipv4Block): nat {
    blk.a * 16777216 + blk.b * 65536 + blk.c * 256 + blk.d
  }

  /** Number of addresses a block with this prefix length covers. */
  function Size(blk: Ipv4Block): nat
    requires blk.prefix <= 32
  {
    Pow2(32 - blk.prefix)
  }

  /** Octets are bytes, the prefix is at most 32 and the address is the network address. */
  predicate IsNetwork(blk: Ipv4Block) {
    blk.a < 256 && blk.b < 256 && blk.c < 256 && blk.d < 256 && blk.prefix <= 32
    && Address(blk) % Size(blk) == 0
  }

  predicate Covers(blk: Ipv4Block, addr: int)
    requires blk.prefix <= 32
  {
    Address(blk) <= addr < Address(blk) + Size(blk)
  }

  /** No address lies in both blocks. */
  ghost predicate Disjoint(x: Ipv4Block, y: Ipv4Block)
    requires x.prefix <= 32 && y.prefix <= 32
  {
    forall addr: int :: !(Covers(x, addr) && Covers(y, addr))
  }

  /** Every address of inner lies in outer. */
  ghost predicate Contains(outer: Ipv4Block, inner: Ipv4Block)
    requires outer.prefix <= 32 && inner.prefix <= 32
  {
    forall addr: int :: Covers(inner, addr) ==> Covers(outer, addr)
  }

  lemma Pow2Values()
    ensures Pow2(8) == 256 && Pow2(16) == 65536
  {
    assert Pow2(4) == 16;
    assert Pow2(8) == 16 * Pow2(4) by {
      assert Pow2(8) == 2 * Pow2(7) == 4 * Pow2(6) == 8 * Pow2(5) == 16 * Pow2(4);
    }
    assert Pow2(16) == 256 * Pow2(8) by {
      assert Pow2(16) == 2 * Pow2(15) == 4 * Pow2(14) == 8 * Pow2(13) == 16 * Pow2(12);
      assert Pow2(12) == 2 * Pow2(11) == 4 * Pow2(10) == 8 * Pow2(9) == 16 * Pow2(8);
    }
  }

  /**
   * A subnet block is a well-formed network exactly when its third octet is a
   * byte, and then it lies inside `10.0.0.0/16`.
   */
  lemma SubnetBlockWellFormed(octet: nat)
    ensures IsNetwork(SubnetBlock(octet)) <==> octet < 256
    ensures octet < 256 ==> IsNetwork(SubnetSpace) && Contains(SubnetSpace, SubnetBlock(octet))
  {
    Pow2Values();
    var blk := SubnetBlock(octet);
    assert Size(blk) == 256;
    assert Address(blk) == 256 * (655360 + octet);
    assert Size(SubnetSpace) == 65536;
    assert Address(SubnetSpace) == 65536 * 2560;
  }

  /** Subnet blocks with different third octets share no address. */
  lemma SubnetBlocksDisjoint(x: nat, y: nat)
    requires x != y
    ensures Disjoint(SubnetBlock(x), SubnetBlock(y))
  {
    Pow2Values();
    assert Size(SubnetBlock(x)) == 256 && Size(SubnetBlock(y)) == 256;
  }
}
