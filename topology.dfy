/**
 * The network topology `createInstance` declares: the VPC and internet
 * gateway (index.js:24-34), the public route table made the VPC's main
 * table and the private route table (index.js:41-59), and the subnet loop
 * that places one public and one private `/24` subnet in each usable
 * availability zone and associates each with its tier's table
 * (index.js:61-94).
 */
module Topology {
  import opened Options
  import opened Numerals
  import opened Cidr
  import opened Resources

  /** The configuration values the program reads (index.js:8-19); `subnets` already converted to a number. */
  datatype Config = Config(
    vpcName: string, igwName: string, pubRtAssocName: string, prvRtName: string,
    pubRtName: string, subnets: int, vpcCidr: string, pubCidr: string, userData: string)

  datatype Tier = Public | Private

  // ---- The number of subnet pairs ----

  /** `Math.min(availabilityZones.names.length, subnets)`. */
  function SubnetCount(zoneCount: nat, requested: int): int {
    if zoneCount <= requested then zoneCount else requested
  }

  /** How often `for (let i = 0; i < count; i++)` runs: never when count is negative. */
  function Iterations(zoneCount: nat, requested: int): (n: nat)
    ensures n <= zoneCount
  {
    var count := SubnetCount(zoneCount, requested);
    if count < 0 then 0 else count
  }

  /** The count is the smaller of the zone count and the requested number. */
  lemma SubnetCountIsMin(zoneCount: nat, requested: int)
    ensures var count := SubnetCount(zoneCount, requested);
      count <= zoneCount && count <= requested && (count == zoneCount || count == requested)
  {
  }

  /**
   * The loop runs once per zone or once per requested pair, whichever is
   * fewer, and not at all when the requested number is negative.
   */
  lemma IterationsBounds(zoneCount: nat, requested: int)
    ensures var n := Iterations(zoneCount, requested);
      && (n == 0 || n <= requested)
      && (n == zoneCount || n == requested || (requested < 0 && n == 0))
  {
  }

  // ---- Declarations before the loop ----

  function VpcKey(cfg: Config): Key {
    Key(Vpc, Given(cfg.vpcName))
  }

  function VpcRef(cfg: Config): Ref {
    Ref(VpcKey(cfg), Id)
  }

  function IgwKey(cfg: Config): Key {
    Key(InternetGateway, Given(cfg.igwName))
  }

  function PublicTableKey(cfg: Config): Key {
    Key(RouteTable, Given(cfg.pubRtName))
  }

  function PrivateTableKey(cfg: Config): Key {
    Key(RouteTable, Given(cfg.prvRtName))
  }

  function MainAssociationKey(cfg: Config): Key {
    Key(MainRouteTableAssociation, Given(cfg.pubRtAssocName))
  }

  /** The single route of the public table: `pubCIDR` through the internet gateway. */
  function InternetRoute(cfg: Config): Route {
    Route(cfg.pubCidr, Ref(IgwKey(cfg), Id))
  }

  /** The VPC and the internet gateway, declared at module level (index.js:24-34). */
  function NetworkDecls(cfg: Config): seq<Decl> {
    [ Decl(Given(cfg.vpcName), VpcArgs(cfg.vpcCidr)),
      Decl(Given(cfg.igwName), InternetGatewayArgs(VpcRef(cfg))) ]
  }

  /**
   * The public route table (built as the argument of the main association,
   * so declared first), the main-route-table association, and the private
   * route table with no routes (index.js:41-59).
   */
  function RoutingDecls(cfg: Config): seq<Decl> {
    [ Decl(Given(cfg.pubRtName), RouteTableArgs(VpcRef(cfg), [InternetRoute(cfg)])),
      Decl(Given(cfg.pubRtAssocName), MainRouteTableAssociationArgs(VpcRef(cfg), Ref(PublicTableKey(cfg), Id))),
      Decl(Given(cfg.prvRtName), RouteTableArgs(VpcRef(cfg), [])) ]
  }

  // ---- The loop body ----

  function SubnetName(tier: Tier, i: nat): LogicalName {
    match tier
    case Public => Counted(PublicSubnetPrefix, i)
    case Private => Counted(PrivateSubnetPrefix, i)
  }

  function AssociationName(tier: Tier, i: nat): LogicalName {
    match tier
    case Public => Counted(PublicAssociationPrefix, i)
    case Private => Counted(PrivateAssociationPrefix, i)
  }

  function SubnetKey(tier: Tier, i: nat): Key {
    Key(Subnet, SubnetName(tier, i))
  }

  function AssociationKey(tier: Tier, i: nat): Key {
    Key(RouteTableAssociation, AssociationName(tier, i))
  }

  /**
   * The table an association of the tier is given: `publicRouteTable.routeTableId`
   * (the main association's output) or `privateRouteTable.id`.
   */
  function TableRef(cfg: Config, tier: Tier): Ref {
    match tier
    case Public => Ref(MainAssociationKey(cfg), RouteTableId)
    case Private => Ref(PrivateTableKey(cfg), Id)
  }

  /** Third octet of the tier's i-th block: `i`, or `i + parseInt(subnets)` for private subnets. */
  function Octet(requested: int, tier: Tier, i: nat): int {
    match tier
    case Public => i
    case Private => i + requested
  }

  /** The i-th subnet of the tier (index.js:64-72, index.js:76-81). */
  function SubnetDecl(cfg: Config, names: seq<string>, tier: Tier, i: nat): Decl
    requires i < Iterations(|names|, cfg.subnets)
  {
    Decl(SubnetName(tier, i),
         SubnetArgs(VpcRef(cfg), SubnetRange(Octet(cfg.subnets, tier, i) as nat), tier == Public, names[i]))
  }

  /** The association of the i-th subnet of the tier with the tier's table (index.js:85-93). */
  function AssociationDecl(cfg: Config, tier: Tier, i: nat): Decl {
    Decl(AssociationName(tier, i),
         RouteTableAssociationArgs(Ref(SubnetKey(tier, i), Id), TableRef(cfg, tier)))
  }

  /** The four declarations of iteration i, in program order. */
  function Iteration(cfg: Config, names: seq<string>, i: nat): seq<Decl>
    requires i < Iterations(|names|, cfg.subnets)
  {
    [ SubnetDecl(cfg, names, Public, i), SubnetDecl(cfg, names, Private, i),
      AssociationDecl(cfg, Public, i), AssociationDecl(cfg, Private, i) ]
  }

  /** The tier's subnets of the first n iterations, in order. */
  function SubnetList(cfg: Config, names: seq<string>, tier: Tier, n: nat): seq<Decl>
    requires n <= Iterations(|names|, cfg.subnets)
    decreases n
  {
    if n == 0 then [] else SubnetList(cfg, names, tier, n - 1) + [SubnetDecl(cfg, names, tier, n - 1)]
  }

  /** Everything the first n iterations declare. */
  function LoopDecls(cfg: Config, names: seq<string>, n: nat): seq<Decl>
    requires n <= Iterations(|names|, cfg.subnets)
    decreases n
  {
    if n == 0 then [] else LoopDecls(cfg, names, n - 1) + Iteration(cfg, names, n - 1)
  }

  /**
   * The subnet loop: two index-aligned subnet lists with one entry per
   * iteration, and the declarations made, in program order.
   */
  method DeclareSubnets(cfg: Config, names: seq<string>)
    returns (publicSubnetList: seq<Decl>, privateSubnetList: seq<Decl>, declared: seq<Decl>)
    ensures |publicSubnetList| == |privateSubnetList| == Iterations(|names|, cfg.subnets)
    ensures publicSubnetList == SubnetList(cfg, names, Public, |publicSubnetList|)
    ensures privateSubnetList == SubnetList(cfg, names, Private, |publicSubnetList|)
    ensures declared == LoopDecls(cfg, names, |publicSubnetList|)
  {
    var count := SubnetCount(|names|, cfg.subnets);
    publicSubnetList, privateSubnetList, declared := [], [], [];
    var i := 0;
    while i < count
      invariant i <= Iterations(|names|, cfg.subnets)
      invariant count >= 0 ==> i <= count
      invariant |publicSubnetList| == |privateSubnetList| == i
      invariant publicSubnetList == SubnetList(cfg, names, Public, i)
      invariant privateSubnetList == SubnetList(cfg, names, Private, i)
      invariant declared == LoopDecls(cfg, names, i)
    {
      LoopStep(cfg, names, i);
      var publicSubnet := Decl(Counted(PublicSubnetPrefix, i),
        SubnetArgs(VpcRef(cfg), SubnetRange(i), true, names[i]));
      publicSubnetList := publicSubnetList + [publicSubnet];
      var privateSubnet := Decl(Counted(PrivateSubnetPrefix, i),
        SubnetArgs(VpcRef(cfg), SubnetRange(i + cfg.subnets), false, names[i]));
      privateSubnetList := privateSubnetList + [privateSubnet];
      var publicAssociation := Decl(Counted(PublicAssociationPrefix, i),
        RouteTableAssociationArgs(IdOf(publicSubnet), Ref(MainAssociationKey(cfg), RouteTableId)));
      var privateAssociation := Decl(Counted(PrivateAssociationPrefix, i),
        RouteTableAssociationArgs(IdOf(privateSubnet), Ref(PrivateTableKey(cfg), Id)));
      declared := declared + [publicSubnet, privateSubnet, publicAssociation, privateAssociation];
      i := i + 1;
    }
  }

  /** Iteration i spelled out as the loop body builds it. */
  lemma LoopStep(cfg: Config, names: seq<string>, i: nat)
    requires i < Iterations(|names|, cfg.subnets)
    ensures SubnetDecl(cfg, names, Public, i)
      == Decl(Counted(PublicSubnetPrefix, i), SubnetArgs(VpcRef(cfg), SubnetRange(i), true, names[i]))
    ensures SubnetDecl(cfg, names, Private, i)
      == Decl(Counted(PrivateSubnetPrefix, i), SubnetArgs(VpcRef(cfg), SubnetRange(i + cfg.subnets), false, names[i]))
    ensures AssociationDecl(cfg, Public, i) == Decl(Counted(PublicAssociationPrefix, i),
      RouteTableAssociationArgs(IdOf(SubnetDecl(cfg, names, Public, i)), Ref(MainAssociationKey(cfg), RouteTableId)))
    ensures AssociationDecl(cfg, Private, i) == Decl(Counted(PrivateAssociationPrefix, i),
      RouteTableAssociationArgs(IdOf(SubnetDecl(cfg, names, Private, i)), Ref(PrivateTableKey(cfg), Id)))
    ensures LoopDecls(cfg, names, i + 1) == LoopDecls(cfg, names, i) +
      [ SubnetDecl(cfg, names, Public, i), SubnetDecl(cfg, names, Private, i),
        AssociationDecl(cfg, Public, i), AssociationDecl(cfg, Private, i) ]
  {
  }

  /**
   * The tier's i-th subnet belongs to the VPC, lies in zone `names[i]` and
   * gives public addresses on launch exactly in the public tier.
   */
  lemma SubnetDeclFacts(cfg: Config, names: seq<string>, tier: Tier, i: nat)
    requires i < Iterations(|names|, cfg.subnets)
    ensures var d := SubnetDecl(cfg, names, tier, i);
      && KeyOf(d) == SubnetKey(tier, i)
      && d.args == SubnetArgs(VpcRef(cfg), d.args.cidrRange, tier == Public, names[i])
  {
  }

  /**
   * The block string of the tier's i-th subnet denotes `10.0.i.0/24`
   * (public) or `10.0.(i+subnets).0/24` (private).
   */
  lemma SubnetDeclBlock(cfg: Config, names: seq<string>, tier: Tier, i: nat)
    requires i < Iterations(|names|, cfg.subnets)
    ensures ParseCidr(RangeText(SubnetDecl(cfg, names, tier, i).args.cidrRange)) == Some(SubnetBlock(Octet(cfg.subnets, tier, i) as nat))
  {
    ParseSubnetCidr(Octet(cfg.subnets, tier, i) as nat);
  }

  // ---- Properties of the loop ----

  /**
   * Within the loop, private octets start at the requested count, which is at
   * least the loop's bound, so the 2n blocks have pairwise distinct octets.
   */
  lemma OctetsDistinct(cfg: Config, names: seq<string>, t1: Tier, i: nat, t2: Tier, j: nat)
    requires i < Iterations(|names|, cfg.subnets) && j < Iterations(|names|, cfg.subnets)
    ensures Octet(cfg.subnets, t1, i) == Octet(cfg.subnets, t2, j) <==> t1 == t2 && i == j
  {
  }

  /**
   * Two different subnets of the loop have different CIDR strings and
   * denote address blocks that share no address.
   */
  lemma SubnetBlocksPairwiseDisjoint(cfg: Config, names: seq<string>, t1: Tier, i: nat, t2: Tier, j: nat)
    requires i < Iterations(|names|, cfg.subnets) && j < Iterations(|names|, cfg.subnets)
    requires t1 != t2 || i != j
    ensures RangeText(SubnetDecl(cfg, names, t1, i).args.cidrRange) != RangeText(SubnetDecl(cfg, names, t2, j).args.cidrRange)
    ensures Disjoint(SubnetBlock(Octet(cfg.subnets, t1, i) as nat), SubnetBlock(Octet(cfg.subnets, t2, j) as nat))
  {
    var o1, o2 := Octet(cfg.subnets, t1, i) as nat, Octet(cfg.subnets, t2, j) as nat;
    OctetsDistinct(cfg, names, t1, i, t2, j);
    SubnetCidrInjective(o1, o2);
    SubnetBlocksDisjoint(o1, o2);
  }

  /**
   * The program checks no address bound. Every block of the loop is a valid
   * network inside `10.0.0.0/16` exactly when the loop runs not at all or
   * the highest private octet, `subnets + n - 1`, is at most 255.
   */
  lemma AddressSpaceSuffices(cfg: Config, names: seq<string>)
    ensures var n := Iterations(|names|, cfg.subnets);
      (forall t: Tier, i: nat | i < n :: IsNetwork(SubnetBlock(Octet(cfg.subnets, t, i) as nat)))
      <==> (n == 0 || cfg.subnets + n <= 256)
    ensures var n := Iterations(|names|, cfg.subnets);
      (n == 0 || cfg.subnets + n <= 256) ==>
      forall t: Tier, i: nat | i < n :: Contains(SubnetSpace, SubnetBlock(Octet(cfg.subnets, t, i) as nat))
  {
    var n := Iterations(|names|, cfg.subnets);
    forall t: Tier, i: nat | i < n
      ensures IsNetwork(SubnetBlock(Octet(cfg.subnets, t, i) as nat)) <==> Octet(cfg.subnets, t, i) < 256
      ensures Octet(cfg.subnets, t, i) < 256 ==> Contains(SubnetSpace, SubnetBlock(Octet(cfg.subnets, t, i) as nat))
    {
      SubnetBlockWellFormed(Octet(cfg.subnets, t, i) as nat);
    }
    if n > 0 && cfg.subnets + n > 256 {
      assert Octet(cfg.subnets, Private, n - 1) >= 256;
    }
  }

  /** The tier's list holds its i-th subnet at position i. */
  lemma {:induction false} SubnetListAt(cfg: Config, names: seq<string>, tier: Tier, n: nat, k: nat)
    requires n <= Iterations(|names|, cfg.subnets)
    ensures |SubnetList(cfg, names, tier, n)| == n
    ensures k < n ==> SubnetList(cfg, names, tier, n)[k] == SubnetDecl(cfg, names, tier, k)
    decreases n
  {
    if n > 0 {
      SubnetListAt(cfg, names, tier, n - 1, k);
    }
  }

  /**
   * The two lists stay index-aligned: entry k of each is the k-th subnet of
   * its tier, both lie in zone `names[k]`, and only the public one gives
   * public addresses on launch.
   */
  lemma ListsAligned(cfg: Config, names: seq<string>, n: nat, k: nat)
    requires n <= Iterations(|names|, cfg.subnets) && k < n
    ensures |SubnetList(cfg, names, Public, n)| == |SubnetList(cfg, names, Private, n)| == n
    ensures SubnetList(cfg, names, Public, n)[k].args.SubnetArgs?
    ensures SubnetList(cfg, names, Private, n)[k].args.SubnetArgs?
    ensures SubnetList(cfg, names, Public, n)[k].args.availabilityZone == names[k]
    ensures SubnetList(cfg, names, Private, n)[k].args.availabilityZone == names[k]
    ensures SubnetList(cfg, names, Public, n)[k].args.mapPublicIpOnLaunch
    ensures !SubnetList(cfg, names, Private, n)[k].args.mapPublicIpOnLaunch
  {
    SubnetListAt(cfg, names, Public, n, k);
    SubnetListAt(cfg, names, Private, n, k);
  }

  /** Position t of the loop's declarations is declaration t % 4 of iteration t / 4. */
  lemma {:induction false} LoopDeclAt(cfg: Config, names: seq<string>, n: nat, t: nat)
    requires n <= Iterations(|names|, cfg.subnets)
    ensures |LoopDecls(cfg, names, n)| == 4 * n
    ensures t < 4 * n ==> LoopDecls(cfg, names, n)[t] == Iteration(cfg, names, t / 4)[t % 4]
    decreases n
  {
    if n > 0 {
      LoopDeclAt(cfg, names, n - 1, t);
      if t >= 4 * (n - 1) && t < 4 * n {
        assert t / 4 == n - 1;
      }
    }
  }

  lemma IterationUnique(cfg: Config, names: seq<string>, i: nat)
    requires i < Iterations(|names|, cfg.subnets)
    ensures Unique(Iteration(cfg, names, i))
    ensures Keys(Iteration(cfg, names, i)) ==
      {SubnetKey(Public, i), SubnetKey(Private, i), AssociationKey(Public, i), AssociationKey(Private, i)}
  {
    var b := Iteration(cfg, names, i);
    assert KeyOf(b[0]) == SubnetKey(Public, i) && KeyOf(b[1]) == SubnetKey(Private, i);
    assert KeyOf(b[2]) == AssociationKey(Public, i) && KeyOf(b[3]) == AssociationKey(Private, i);
    FourKeys(b);
  }

  /** Every key of the plan carries a loop counter below n. */
  predicate CountedBelow(plan: seq<Decl>, n: nat) {
    forall key | key in Keys(plan) :: key.name.Counted? && key.name.index < n
  }

  /**
   * The first n iterations declare only subnets and route-table
   * associations, each named with a counter below n.
   */
  lemma {:induction false} LoopNames(cfg: Config, names: seq<string>, n: nat)
    requires n <= Iterations(|names|, cfg.subnets)
    ensures CountedBelow(LoopDecls(cfg, names, n), n)
    ensures StagesIn(LoopDecls(cfg, names, n), 4, 6)
    decreases n
  {
    if n == 0 {
      assert LoopDecls(cfg, names, n) == [];
    } else {
      LoopNames(cfg, names, n - 1);
      IterationNames(cfg, names, n - 1);
      NamesConcat(LoopDecls(cfg, names, n - 1), Iteration(cfg, names, n - 1), n);
    }
  }

  /** Iteration i declares subnets and associations counted i. */
  lemma IterationNames(cfg: Config, names: seq<string>, i: nat)
    requires i < Iterations(|names|, cfg.subnets)
    ensures CountedBelow(Iteration(cfg, names, i), i + 1)
    ensures forall key | key in Keys(Iteration(cfg, names, i)) :: key.name.Counted? && i <= key.name.index
    ensures StagesIn(Iteration(cfg, names, i), 4, 6)
  {
    IterationUnique(cfg, names, i);
  }

  /** Keys counted below n and keys counted from n on are different keys. */
  lemma CountedApart(a: seq<Decl>, b: seq<Decl>, n: nat)
    requires CountedBelow(a, n)
    requires forall key | key in Keys(b) :: key.name.Counted? && n <= key.name.index
    ensures Keys(a) !! Keys(b)
  {
  }

  lemma NamesConcat(a: seq<Decl>, b: seq<Decl>, n: nat)
    requires CountedBelow(a, n) && CountedBelow(b, n) && StagesIn(a, 4, 6) && StagesIn(b, 4, 6)
    ensures CountedBelow(a + b, n) && StagesIn(a + b, 4, 6)
  {
    KeysConcat(a, b);
  }

  /** The first n iterations declare nothing under the names of a later iteration. */
  lemma LoopKeysLater(cfg: Config, names: seq<string>, n: nat, tier: Tier, j: nat)
    requires n <= Iterations(|names|, cfg.subnets) && n <= j
    ensures SubnetKey(tier, j) !in Keys(LoopDecls(cfg, names, n))
    ensures AssociationKey(tier, j) !in Keys(LoopDecls(cfg, names, n))
  {
    LoopNames(cfg, names, n);
  }

  /** No key is declared twice by the loop. */
  lemma {:induction false} LoopUnique(cfg: Config, names: seq<string>, n: nat)
    requires n <= Iterations(|names|, cfg.subnets)
    ensures Unique(LoopDecls(cfg, names, n))
    decreases n
  {
    if n == 0 {
      assert LoopDecls(cfg, names, n) == [];
    } else {
      LoopUnique(cfg, names, n - 1);
      LoopUniqueStep(cfg, names, n);
    }
  }

  lemma LoopUniqueStep(cfg: Config, names: seq<string>, n: nat)
    requires 0 < n <= Iterations(|names|, cfg.subnets)
    requires Unique(LoopDecls(cfg, names, n - 1))
    ensures Unique(LoopDecls(cfg, names, n))
  {
    IterationUnique(cfg, names, n - 1);
    LoopNames(cfg, names, n - 1);
    IterationNames(cfg, names, n - 1);
    UniqueCountedJoin(LoopDecls(cfg, names, n - 1), Iteration(cfg, names, n - 1), n - 1);
  }

  /** Two plans without repeated keys, counted apart, join without repeated keys. */
  lemma UniqueCountedJoin(a: seq<Decl>, b: seq<Decl>, n: nat)
    requires Unique(a) && Unique(b) && CountedBelow(a, n)
    requires forall key | key in Keys(b) :: key.name.Counted? && n <= key.name.index
    ensures Unique(a + b)
  {
    CountedApart(a, b, n);
    UniqueConcat(a, b);
  }

  lemma IterationResolves(cfg: Config, names: seq<string>, i: nat, env: set<Key>)
    requires i < Iterations(|names|, cfg.subnets)
    requires VpcKey(cfg) in env && MainAssociationKey(cfg) in env && PrivateTableKey(cfg) in env
    ensures Resolves(env, Iteration(cfg, names, i))
  {
    var b := Iteration(cfg, names, i);
    assert RefsOf(b[0].args) == [VpcRef(cfg)] && RefsOf(b[1].args) == [VpcRef(cfg)];
    assert RefsOf(b[2].args) == [Ref(SubnetKey(Public, i), Id), TableRef(cfg, Public)];
    assert RefsOf(b[3].args) == [Ref(SubnetKey(Private, i), Id), TableRef(cfg, Private)];
    assert KeyOf(b[0]) == SubnetKey(Public, i) && KeyOf(b[1]) == SubnetKey(Private, i);
    FourResolve(env, b);
  }

  /** Every loop declaration refers to the VPC, the two tables, or a subnet declared before it. */
  lemma LoopResolves(cfg: Config, names: seq<string>, n: nat, env: set<Key>)
    requires n <= Iterations(|names|, cfg.subnets)
    requires VpcKey(cfg) in env && MainAssociationKey(cfg) in env && PrivateTableKey(cfg) in env
    ensures Resolves(env, LoopDecls(cfg, names, n))
  {
    forall j: nat | j < n
      ensures Resolves(env, Iteration(cfg, names, j))
    {
      IterationResolves(cfg, names, j, env);
    }
    EachIterationResolves(cfg, names, n, env);
  }

  /** Iterations that each resolve on their own still resolve one after another. */
  lemma {:induction false} EachIterationResolves(cfg: Config, names: seq<string>, n: nat, env: set<Key>)
    requires n <= Iterations(|names|, cfg.subnets)
    requires forall j: nat | j < n :: Resolves(env, Iteration(cfg, names, j))
    ensures Resolves(env, LoopDecls(cfg, names, n))
    decreases n
  {
    if n == 0 {
      assert LoopDecls(cfg, names, n) == [];
    } else {
      var a, b := LoopDecls(cfg, names, n - 1), Iteration(cfg, names, n - 1);
      assert LoopDecls(cfg, names, n) == a + b;
      EachIterationResolves(cfg, names, n - 1, env);
      ResolvesMonotonic(env, env + Keys(a), b);
      ResolvesConcat(env, a, b);
    }
  }

  /** Iteration i associates its public subnet with the public table and its private subnet with the private one. */
  lemma IterationAssociations(cfg: Config, names: seq<string>, i: nat, tier: Tier, j: nat)
    requires i < Iterations(|names|, cfg.subnets)
    ensures Associations(Iteration(cfg, names, i), SubnetKey(tier, j)) == AssociatedOnce(i == j, TableRef(cfg, tier))
  {
    var b := Iteration(cfg, names, i);
    var key := SubnetKey(tier, j);
    FourAssociations(b, key);
    assert AssociationOf(b[0], key) == [] && AssociationOf(b[1], key) == [];
  }

  /**
   * Each subnet of the first n iterations has exactly one association, with
   * its tier's table; a subnet of a later iteration has none yet.
   */
  lemma LoopAssociations(cfg: Config, names: seq<string>, n: nat, tier: Tier, i: nat)
    requires n <= Iterations(|names|, cfg.subnets)
    ensures Associations(LoopDecls(cfg, names, n), SubnetKey(tier, i)) == AssociatedOnce(i < n, TableRef(cfg, tier))
  {
    forall j: nat | j < n
      ensures Associations(Iteration(cfg, names, j), SubnetKey(tier, i)) == AssociatedOnce(j == i, TableRef(cfg, tier))
    {
      IterationAssociations(cfg, names, j, tier, i);
    }
    AssociatedInOneIteration(cfg, names, n, SubnetKey(tier, i), TableRef(cfg, tier), i);
  }

  /** When only iteration i associates the subnet, and only once, so do the first n iterations if i < n. */
  lemma {:induction false} AssociatedInOneIteration(cfg: Config, names: seq<string>, n: nat, subnet: Key, table: Ref, i: nat)
    requires n <= Iterations(|names|, cfg.subnets)
    requires forall j: nat | j < n :: Associations(Iteration(cfg, names, j), subnet) == AssociatedOnce(j == i, table)
    ensures Associations(LoopDecls(cfg, names, n), subnet) == AssociatedOnce(i < n, table)
    decreases n
  {
    if n == 0 {
      assert LoopDecls(cfg, names, n) == [];
    } else {
      var a, b := LoopDecls(cfg, names, n - 1), Iteration(cfg, names, n - 1);
      assert LoopDecls(cfg, names, n) == a + b;
      AssociatedInOneIteration(cfg, names, n - 1, subnet, table, i);
      AssociationsStep(a, b, subnet, table, n, i);
    }
  }

  /** One more iteration associates subnet i when it is the iteration's own. */
  lemma AssociationsStep(a: seq<Decl>, b: seq<Decl>, subnet: Key, table: Ref, n: nat, i: nat)
    requires 0 < n
    requires Associations(a, subnet) == AssociatedOnce(i < n - 1, table)
    requires Associations(b, subnet) == AssociatedOnce(i == n - 1, table)
    ensures Associations(a + b, subnet) == AssociatedOnce(i < n, table)
  {
    AssociationsJoin(a, b, subnet, table, i < n - 1, i == n - 1);
    assert (i < n - 1 || i == n - 1) == (i < n);
  }

  /** Iteration i declares each of its two subnets under the subnet's key. */
  lemma IterationLookup(cfg: Config, names: seq<string>, i: nat, tier: Tier)
    requires i < Iterations(|names|, cfg.subnets)
    ensures Lookup(Iteration(cfg, names, i), SubnetKey(tier, i)) == Some(SubnetDecl(cfg, names, tier, i))
  {
    var b := Iteration(cfg, names, i);
    var key := SubnetKey(tier, i);
    assert b == [b[0]] + [b[1], b[2], b[3]];
    LookupConcat([b[0]], [b[1], b[2], b[3]], key);
    assert [b[0]][1..] == [];
    assert KeyOf(b[0]) == SubnetKey(Public, i) && KeyOf(b[1]) == SubnetKey(Private, i);
    assert [b[1], b[2], b[3]][1..] == [b[2], b[3]];
  }

  /** Looking a loop subnet up by its key finds that subnet. */
  lemma {:induction false} LoopLookup(cfg: Config, names: seq<string>, n: nat, tier: Tier, i: nat)
    requires n <= Iterations(|names|, cfg.subnets) && i < n
    ensures Lookup(LoopDecls(cfg, names, n), SubnetKey(tier, i)) == Some(SubnetDecl(cfg, names, tier, i))
    decreases n
  {
    if i < n - 1 {
      LoopLookup(cfg, names, n - 1, tier, i);
      LookupConcat(LoopDecls(cfg, names, n - 1), Iteration(cfg, names, n - 1), SubnetKey(tier, i));
    } else {
      LoopLookupLast(cfg, names, n, tier);
    }
  }

  /** The last iteration's subnets are found in that iteration. */
  lemma LoopLookupLast(cfg: Config, names: seq<string>, n: nat, tier: Tier)
    requires 0 < n <= Iterations(|names|, cfg.subnets)
    ensures Lookup(LoopDecls(cfg, names, n), SubnetKey(tier, n - 1)) == Some(SubnetDecl(cfg, names, tier, n - 1))
  {
    LoopKeysLater(cfg, names, n - 1, tier, n - 1);
    IterationLookup(cfg, names, n - 1, tier);
    LookupConcat(LoopDecls(cfg, names, n - 1), Iteration(cfg, names, n - 1), SubnetKey(tier, n - 1));
  }
}
