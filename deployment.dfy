/**
 * The whole plan of one run of `createInstance` (index.js:24-221): the
 * network, the routing and the subnet loop, then the two security groups
 * and the MariaDB parameter group, then the data tier, which reads private
 * subnets 0 and 1 and public subnet 0. A run is cut short when the zone
 * query is rejected, or with a TypeError at index.js:188 when the loop
 * made fewer than two subnet pairs.
 */
module Deployment {
  import opened Options
  import opened Resources
  import opened Topology
  import opened Security

  /** What `aws.getAvailabilityZones()` settles to. */
  datatype ZoneQuery = Zones(names: seq<string>) | QueryRejected

  /** Why a run stops: the rejected zone query, or reading `.id` of the missing `privateSubnetList[index]`. */
  datatype Failure = ZoneQueryRejected | UndefinedPrivateSubnet(index: nat)

  /** The declarations a run made, and whether it ran to its end. */
  datatype Run = Completed(plan: seq<Decl>) | Aborted(plan: seq<Decl>, failure: Failure)

  const ParameterGroupKey: Key := Key(ParameterGroup, Written(ParameterGroupName))
  const SubnetGroupKey: Key := Key(SubnetGroup, Written(SubnetGroupName))
  const DatabaseKey: Key := Key(DbInstance, Written(DatabaseName))
  const InstanceKey: Key := Key(Instance, Written(InstanceName))

  /** Everything declared before the loop: the network and the routing. */
  function Prelude(cfg: Config): seq<Decl> {
    NetworkDecls(cfg) + RoutingDecls(cfg)
  }

  /** The security groups and the parameter group (index.js:98-185). */
  function GroupDecls(cfg: Config): seq<Decl> {
    [ AppSecurityGroupDecl(VpcRef(cfg), cfg.pubCidr),
      DatabaseSecurityGroupDecl(VpcRef(cfg), cfg.pubCidr),
      Decl(ParameterGroupKey.name, ParameterGroupArgs) ]
  }

  /** Everything a run whose zone query succeeds declares before index.js:188. */
  function BeforeSubnetGroup(cfg: Config, names: seq<string>): seq<Decl> {
    Prelude(cfg) + LoopDecls(cfg, names, Iterations(|names|, cfg.subnets)) + GroupDecls(cfg)
  }

  /**
   * The subnet group over private subnets 0 and 1, the database in it, and
   * the instance in public subnet 0 (index.js:187-221).
   */
  function DataTierDecls(cfg: Config, names: seq<string>, ami: string): seq<Decl>
    requires 2 <= Iterations(|names|, cfg.subnets)
  {
    [ Decl(SubnetGroupKey.name, SubnetGroupArgs([Ref(SubnetKey(Private, 0), Id), Ref(SubnetKey(Private, 1), Id)])),
      Decl(DatabaseKey.name, DbInstanceArgs(Ref(SubnetGroupKey, Id), Ref(ParameterGroupKey, Name),
        [Ref(DatabaseSecurityGroupKey, Id)], false, false)),
      Decl(InstanceKey.name, InstanceArgs(ami, Ref(SubnetKey(Public, 0), Id), VpcRef(cfg),
        [Ref(AppSecurityGroupKey, Id)], cfg.userData)) ]
  }

  /** The run for a configuration, the zone query's outcome and the AMI id `getAmi` yields. */
  function Plan(cfg: Config, zones: ZoneQuery, ami: string): Run {
    match zones
    case QueryRejected => Aborted(NetworkDecls(cfg), ZoneQueryRejected)
    case Zones(names) =>
      var n := Iterations(|names|, cfg.subnets);
      if n < 2 then Aborted(BeforeSubnetGroup(cfg, names), UndefinedPrivateSubnet(n))
      else Completed(BeforeSubnetGroup(cfg, names) + DataTierDecls(cfg, names, ami))
  }

  /** One run of the program, declaring resources in program order. */
  method CreateInstance(cfg: Config, zones: ZoneQuery, ami: string) returns (run: Run)
    ensures run == Plan(cfg, zones, ami)
  {
    var plan := NetworkDecls(cfg);
    if zones.QueryRejected? {
      return Aborted(plan, ZoneQueryRejected);
    }
    var names := zones.names;
    plan := plan + RoutingDecls(cfg);
    var publicSubnetList, privateSubnetList, declared := DeclareSubnets(cfg, names);
    plan := plan + declared;
    plan := plan + [AppSecurityGroupDecl(VpcRef(cfg), cfg.pubCidr)];
    plan := plan + [DatabaseSecurityGroupDecl(VpcRef(cfg), cfg.pubCidr)];
    plan := plan + [Decl(ParameterGroupKey.name, ParameterGroupArgs)];
    assert plan == BeforeSubnetGroup(cfg, names);
    if |privateSubnetList| < 2 {
      return Aborted(plan, UndefinedPrivateSubnet(|privateSubnetList|));
    }
    SubnetListAt(cfg, names, Private, |privateSubnetList|, 0);
    SubnetListAt(cfg, names, Private, |privateSubnetList|, 1);
    SubnetListAt(cfg, names, Public, |publicSubnetList|, 0);
    SubnetDeclFacts(cfg, names, Private, 0);
    SubnetDeclFacts(cfg, names, Private, 1);
    SubnetDeclFacts(cfg, names, Public, 0);
    plan := plan + [Decl(SubnetGroupKey.name, SubnetGroupArgs([IdOf(privateSubnetList[0]), IdOf(privateSubnetList[1])]))];
    plan := plan + [Decl(DatabaseKey.name, DbInstanceArgs(Ref(SubnetGroupKey, Id), Ref(ParameterGroupKey, Name),
      [Ref(DatabaseSecurityGroupKey, Id)], false, false))];
    plan := plan + [Decl(InstanceKey.name, InstanceArgs(ami, IdOf(publicSubnetList[0]), VpcRef(cfg),
      [Ref(AppSecurityGroupKey, Id)], cfg.userData))];
    run := Completed(plan);
  }

  // ---- The parts of the plan ----

  /** The five declarations before the loop and the keys they declare, unique unless the two route tables share a name. */
  lemma PreludeKeys(cfg: Config)
    ensures |Prelude(cfg)| == 5
    ensures Keys(Prelude(cfg)) ==
      {VpcKey(cfg), IgwKey(cfg), PublicTableKey(cfg), MainAssociationKey(cfg), PrivateTableKey(cfg)}
    ensures Unique(Prelude(cfg)) <==> cfg.pubRtName != cfg.prvRtName
  {
    var n, r := NetworkDecls(cfg), RoutingDecls(cfg);
    TwoDecls({}, n[0], n[1], VpcKey(cfg));
    ThreeKeys(r[0], r[1], r[2]);
    KeysConcat(n, r);
    UniqueConcat(n, r);
  }

  /** The prelude declares network and routing resources only. */
  lemma PreludeKinds(cfg: Config)
    ensures |Prelude(cfg)| == 5
    ensures StagesIn(Prelude(cfg), 0, 4)
    ensures forall t | 0 <= t < 5 ::
      !Prelude(cfg)[t].args.SubnetArgs? && !Prelude(cfg)[t].args.RouteTableAssociationArgs?
  {
    PreludeKeys(cfg);
  }

  /** Each declaration before the loop refers only to declarations before it. */
  lemma PreludeResolves(cfg: Config)
    ensures Resolves({}, Prelude(cfg))
  {
    var n, r := NetworkDecls(cfg), RoutingDecls(cfg);
    TwoDecls({}, n[0], n[1], VpcKey(cfg));
    assert RefsOf(n[1].args) == [VpcRef(cfg)];
    assert RefsOf(r[0].args) == [VpcRef(cfg), Ref(IgwKey(cfg), Id)];
    assert Targets(r[0].args) == {VpcKey(cfg), IgwKey(cfg)};
    assert RefsOf(r[1].args) == [VpcRef(cfg), Ref(PublicTableKey(cfg), Id)];
    assert RefsOf(r[2].args) == [VpcRef(cfg)];
    ThreeResolves(Keys(n), r[0], r[1], r[2]);
    assert {} + Keys(n) == Keys(n);
    ResolvesConcat({}, n, r);
  }

  /** Looking a key of the prelude up finds its first declaration there. */
  lemma PreludeLookup(cfg: Config, key: Key)
    ensures Lookup(Prelude(cfg), key) ==
      if key == VpcKey(cfg) then Some(Prelude(cfg)[0])
      else if key == IgwKey(cfg) then Some(Prelude(cfg)[1])
      else if key == PublicTableKey(cfg) then Some(Prelude(cfg)[2])
      else if key == MainAssociationKey(cfg) then Some(Prelude(cfg)[3])
      else if key == PrivateTableKey(cfg) then Some(Prelude(cfg)[4])
      else None
  {
    var n, r := NetworkDecls(cfg), RoutingDecls(cfg);
    TwoDecls({}, n[0], n[1], key);
    ThreeLookup(r[0], r[1], r[2], key);
    LookupConcat(n, r, key);
  }

  /** The security groups and the parameter group: three distinct keys, no subnet and no association. */
  lemma GroupKeys(cfg: Config)
    ensures |GroupDecls(cfg)| == 3
    ensures Keys(GroupDecls(cfg)) == {AppSecurityGroupKey, DatabaseSecurityGroupKey, ParameterGroupKey}
    ensures Unique(GroupDecls(cfg))
    ensures StagesIn(GroupDecls(cfg), 6, 8)
    ensures forall t | 0 <= t < 3 ::
      !GroupDecls(cfg)[t].args.SubnetArgs? && !GroupDecls(cfg)[t].args.RouteTableAssociationArgs?
  {
    var g := GroupDecls(cfg);
    ThreeKeys(g[0], g[1], g[2]);
  }

  /** Looking a key of the groups up finds its declaration. */
  lemma GroupLookup(cfg: Config, key: Key)
    ensures Lookup(GroupDecls(cfg), key) ==
      if key == AppSecurityGroupKey then Some(GroupDecls(cfg)[0])
      else if key == DatabaseSecurityGroupKey then Some(GroupDecls(cfg)[1])
      else if key == ParameterGroupKey then Some(GroupDecls(cfg)[2])
      else None
  {
    var g := GroupDecls(cfg);
    ThreeLookup(g[0], g[1], g[2], key);
  }

  /** The security groups refer to the VPC and the database group to the application group. */
  lemma GroupResolves(cfg: Config, env: set<Key>)
    requires VpcKey(cfg) in env
    ensures Resolves(env, GroupDecls(cfg))
  {
    var g := GroupDecls(cfg);
    SecurityGroupTargets(VpcRef(cfg), cfg.pubCidr);
    assert RefsOf(g[2].args) == [];
    ThreeResolves(env, g[0], g[1], g[2]);
  }

  /** The data tier: three distinct keys, no subnet and no association. */
  lemma DataTierKeys(cfg: Config, names: seq<string>, ami: string)
    requires 2 <= Iterations(|names|, cfg.subnets)
    ensures |DataTierDecls(cfg, names, ami)| == 3
    ensures Keys(DataTierDecls(cfg, names, ami)) == {SubnetGroupKey, DatabaseKey, InstanceKey}
    ensures Unique(DataTierDecls(cfg, names, ami))
    ensures StagesIn(DataTierDecls(cfg, names, ami), 8, 11)
    ensures forall t | 0 <= t < 3 ::
      !DataTierDecls(cfg, names, ami)[t].args.SubnetArgs? &&
      !DataTierDecls(cfg, names, ami)[t].args.RouteTableAssociationArgs?
  {
    var d := DataTierDecls(cfg, names, ami);
    ThreeKeys(d[0], d[1], d[2]);
  }

  /** Looking a key of the data tier up finds its declaration. */
  lemma DataTierLookup(cfg: Config, names: seq<string>, ami: string, key: Key)
    requires 2 <= Iterations(|names|, cfg.subnets)
    ensures Lookup(DataTierDecls(cfg, names, ami), key) ==
      if key == SubnetGroupKey then Some(DataTierDecls(cfg, names, ami)[0])
      else if key == DatabaseKey then Some(DataTierDecls(cfg, names, ami)[1])
      else if key == InstanceKey then Some(DataTierDecls(cfg, names, ami)[2])
      else None
  {
    var d := DataTierDecls(cfg, names, ami);
    ThreeLookup(d[0], d[1], d[2], key);
  }

  /**
   * The data tier refers to the VPC, to private subnets 0 and 1, to public
   * subnet 0 and to the groups.
   */
  lemma DataTierResolves(cfg: Config, names: seq<string>, ami: string, env: set<Key>)
    requires 2 <= Iterations(|names|, cfg.subnets)
    requires VpcKey(cfg) in env && AppSecurityGroupKey in env && DatabaseSecurityGroupKey in env
    requires ParameterGroupKey in env
    requires SubnetKey(Private, 0) in env && SubnetKey(Private, 1) in env && SubnetKey(Public, 0) in env
    ensures Resolves(env, DataTierDecls(cfg, names, ami))
  {
    var d := DataTierDecls(cfg, names, ami);
    assert RefsOf(d[0].args) == [Ref(SubnetKey(Private, 0), Id), Ref(SubnetKey(Private, 1), Id)];
    assert RefsOf(d[1].args) == [Ref(SubnetGroupKey, Id), Ref(ParameterGroupKey, Name), Ref(DatabaseSecurityGroupKey, Id)];
    assert RefsOf(d[2].args) == [Ref(SubnetKey(Public, 0), Id), VpcRef(cfg), Ref(AppSecurityGroupKey, Id)];
    ThreeResolves(env, d[0], d[1], d[2]);
  }
}
