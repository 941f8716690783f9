/**
 * What a run of `createInstance` (index.js:24-221) guarantees about the
 * plan it leaves behind: how it ends, that every reference names a
 * resource declared before it, that no logical name is taken twice, how
 * each subnet is routed, and how the data tier is wired.
 */
module Guarantees {
  import opened Options
  import opened Resources
  import opened Topology
  import opened Security
  import opened Deployment

  // ---- The parts of a plan ----

  /** What a run whose zone query succeeds declares after the loop, up to where it stops. */
  function Tail(cfg: Config, names: seq<string>, ami: string): seq<Decl> {
    if Iterations(|names|, cfg.subnets) < 2 then GroupDecls(cfg)
    else GroupDecls(cfg) + DataTierDecls(cfg, names, ami)
  }

  /** A run whose zone query succeeds declares the prelude, the loop and the tail, in that order. */
  lemma PlanShape(cfg: Config, names: seq<string>, ami: string)
    ensures var n := Iterations(|names|, cfg.subnets);
      var p, l, tl := Prelude(cfg), LoopDecls(cfg, names, n), Tail(cfg, names, ami);
      && Plan(cfg, Zones(names), ami).plan == p + l + tl
      && Plan(cfg, Zones(names), ami).plan == p + (l + tl)
  {
    var n := Iterations(|names|, cfg.subnets);
    var p, l, g := Prelude(cfg), LoopDecls(cfg, names, n), GroupDecls(cfg);
    if n < 2 {
      assert p + l + g == p + (l + g);
    } else {
      var d := DataTierDecls(cfg, names, ami);
      assert p + l + g + d == p + l + (g + d);
      assert p + l + (g + d) == p + (l + (g + d));
    }
  }

  /** The keys declared before the tail name network, routing and subnet resources. */
  lemma HeadStages(cfg: Config, names: seq<string>)
    ensures StagesIn(Prelude(cfg) + LoopDecls(cfg, names, Iterations(|names|, cfg.subnets)), 0, 6)
  {
    PreludeKinds(cfg);
    LoopNames(cfg, names, Iterations(|names|, cfg.subnets));
    StagesConcat(Prelude(cfg), LoopDecls(cfg, names, Iterations(|names|, cfg.subnets)), 0, 4, 6);
  }

  /** The tail's keys: the group keys, then the data-tier keys when there are two subnet pairs. */
  lemma TailKeys(cfg: Config, names: seq<string>, ami: string)
    ensures Keys(Tail(cfg, names, ami)) == {AppSecurityGroupKey, DatabaseSecurityGroupKey, ParameterGroupKey} +
      if Iterations(|names|, cfg.subnets) < 2 then {} else {SubnetGroupKey, DatabaseKey, InstanceKey}
  {
    GroupKeys(cfg);
    if 2 <= Iterations(|names|, cfg.subnets) {
      DataTierKeys(cfg, names, ami);
      KeysConcat(GroupDecls(cfg), DataTierDecls(cfg, names, ami));
    }
  }

  /** The tail repeats no key and declares only security, parameter, subnet groups, the database and the instance. */
  lemma TailUnique(cfg: Config, names: seq<string>, ami: string)
    ensures Unique(Tail(cfg, names, ami))
    ensures StagesIn(Tail(cfg, names, ami), 6, 11)
  {
    GroupKeys(cfg);
    if 2 <= Iterations(|names|, cfg.subnets) {
      DataTierKeys(cfg, names, ami);
      UniqueByStages(GroupDecls(cfg), DataTierDecls(cfg, names, ami), 6, 8, 11);
      StagesConcat(GroupDecls(cfg), DataTierDecls(cfg, names, ami), 6, 8, 11);
    }
  }

  /** The prelude comes first, so a key it declares is found there. */
  lemma PreludeFirst(cfg: Config, names: seq<string>, ami: string, key: Key)
    requires key in Keys(Prelude(cfg))
    ensures Lookup(Plan(cfg, Zones(names), ami).plan, key) == Lookup(Prelude(cfg), key)
  {
    var l := LoopDecls(cfg, names, Iterations(|names|, cfg.subnets));
    PlanShape(cfg, names, ami);
    LookupConcat(Prelude(cfg), l + Tail(cfg, names, ami), key);
  }

  // ---- How a run ends ----

  /**
   * A run completes exactly when the zone query succeeds and the loop made
   * at least two subnet pairs; a rejected query leaves only the VPC and the
   * internet gateway, and too few pairs stop the run at index.js:188 with
   * the missing private subnet's index.
   */
  lemma PlanOutcome(cfg: Config, zones: ZoneQuery, ami: string)
    ensures Plan(cfg, zones, ami).Completed? <==> zones.Zones? && 2 <= Iterations(|zones.names|, cfg.subnets)
    ensures zones.QueryRejected? ==> Plan(cfg, zones, ami) == Aborted(NetworkDecls(cfg), ZoneQueryRejected)
    ensures zones.Zones? && Iterations(|zones.names|, cfg.subnets) < 2 ==>
      Plan(cfg, zones, ami).failure == UndefinedPrivateSubnet(Iterations(|zones.names|, cfg.subnets))
  {
  }

  /** The keys of a run whose zone query succeeds: those before the tail, then the tail's. */
  lemma PlanKeys(cfg: Config, names: seq<string>, ami: string)
    ensures var head := Prelude(cfg) + LoopDecls(cfg, names, Iterations(|names|, cfg.subnets));
      && Keys(Plan(cfg, Zones(names), ami).plan) == Keys(head) + Keys(Tail(cfg, names, ami))
      && StagesIn(head, 0, 6)
  {
    var head := Prelude(cfg) + LoopDecls(cfg, names, Iterations(|names|, cfg.subnets));
    PlanShape(cfg, names, ami);
    HeadStages(cfg, names);
    KeysConcat(head, Tail(cfg, names, ami));
  }

  /**
   * With fewer than two subnet pairs the run stops after the security
   * groups and the parameter group and before any data-tier resource.
   */
  lemma PlanStopsBeforeDataTier(cfg: Config, names: seq<string>, ami: string)
    requires Iterations(|names|, cfg.subnets) < 2
    ensures var keys := Keys(Plan(cfg, Zones(names), ami).plan);
      && AppSecurityGroupKey in keys && DatabaseSecurityGroupKey in keys && ParameterGroupKey in keys
      && SubnetGroupKey !in keys && DatabaseKey !in keys && InstanceKey !in keys
  {
    var head := Prelude(cfg) + LoopDecls(cfg, names, Iterations(|names|, cfg.subnets));
    PlanShape(cfg, names, ami);
    HeadStages(cfg, names);
    GroupKeys(cfg);
    var g := GroupDecls(cfg);
    KeysPastStages(head, g, 6, AppSecurityGroupKey);
    KeysPastStages(head, g, 6, DatabaseSecurityGroupKey);
    KeysPastStages(head, g, 6, ParameterGroupKey);
    KeysPastStages(head, g, 6, SubnetGroupKey);
    KeysPastStages(head, g, 6, DatabaseKey);
    KeysPastStages(head, g, 6, InstanceKey);
  }

  /** A completed run declares the subnet group, the database and the instance. */
  lemma PlanDeclaresDataTier(cfg: Config, names: seq<string>, ami: string)
    requires 2 <= Iterations(|names|, cfg.subnets)
    ensures var keys := Keys(Plan(cfg, Zones(names), ami).plan);
      SubnetGroupKey in keys && DatabaseKey in keys && InstanceKey in keys
  {
    PlanKeys(cfg, names, ami);
    TailKeys(cfg, names, ami);
  }

  // ---- References ----

  /** The prelude and the loop refer only to declarations before them. */
  lemma HeadResolves(cfg: Config, names: seq<string>)
    ensures Resolves({}, Prelude(cfg) + LoopDecls(cfg, names, Iterations(|names|, cfg.subnets)))
  {
    var p, l := Prelude(cfg), LoopDecls(cfg, names, Iterations(|names|, cfg.subnets));
    PreludeKeys(cfg);
    PreludeResolves(cfg);
    LoopResolves(cfg, names, Iterations(|names|, cfg.subnets), Keys(p));
    assert {} + Keys(p) == Keys(p);
    ResolvesConcat({}, p, l);
  }

  /** The tail refers only to the VPC, to the subnets the data tier reads, and to itself. */
  lemma TailResolves(cfg: Config, names: seq<string>, ami: string, env: set<Key>)
    requires VpcKey(cfg) in env
    requires 2 <= Iterations(|names|, cfg.subnets) ==>
      SubnetKey(Private, 0) in env && SubnetKey(Private, 1) in env && SubnetKey(Public, 0) in env
    ensures Resolves(env, Tail(cfg, names, ami))
  {
    GroupResolves(cfg, env);
    if 2 <= Iterations(|names|, cfg.subnets) {
      GroupKeys(cfg);
      DataTierResolves(cfg, names, ami, env + Keys(GroupDecls(cfg)));
      ResolvesConcat(env, GroupDecls(cfg), DataTierDecls(cfg, names, ami));
    }
  }

  /** Every reference of every run names a resource declared earlier in the run. */
  lemma PlanResolves(cfg: Config, zones: ZoneQuery, ami: string)
    ensures Resolves({}, Plan(cfg, zones, ami).plan)
  {
    if zones.QueryRejected? {
      var net := NetworkDecls(cfg);
      assert RefsOf(net[1].args) == [VpcRef(cfg)];
      TwoDecls({}, net[0], net[1], VpcKey(cfg));
    } else {
      var names := zones.names;
      var n := Iterations(|names|, cfg.subnets);
      var p, l := Prelude(cfg), LoopDecls(cfg, names, n);
      PlanShape(cfg, names, ami);
      HeadResolves(cfg, names);
      PreludeKeys(cfg);
      KeysConcat(p, l);
      if 2 <= n {
        LoopLookup(cfg, names, n, Private, 0);
        LoopLookup(cfg, names, n, Private, 1);
        LoopLookup(cfg, names, n, Public, 0);
      }
      TailResolves(cfg, names, ami, Keys(p + l));
      assert {} + Keys(p + l) == Keys(p + l);
      ResolvesConcat({}, p + l, Tail(cfg, names, ami));
    }
  }

  // ---- Logical names ----

  /** The prelude and the loop repeat no key unless the two route tables share a name. */
  lemma HeadUnique(cfg: Config, names: seq<string>)
    ensures Unique(Prelude(cfg) + LoopDecls(cfg, names, Iterations(|names|, cfg.subnets)))
      <==> cfg.pubRtName != cfg.prvRtName
  {
    var n := Iterations(|names|, cfg.subnets);
    PreludeKeys(cfg);
    PreludeKinds(cfg);
    LoopUnique(cfg, names, n);
    LoopNames(cfg, names, n);
    UniqueByStages(Prelude(cfg), LoopDecls(cfg, names, n), 0, 4, 6);
  }

  /**
   * No key is declared twice in a run, unless the public and the private
   * route table are given the same name, which always yields a duplicate.
   */
  lemma PlanUnique(cfg: Config, zones: ZoneQuery, ami: string)
    ensures Unique(Plan(cfg, zones, ami).plan) <==> zones.QueryRejected? || cfg.pubRtName != cfg.prvRtName
  {
    if zones.QueryRejected? {
      var net := NetworkDecls(cfg);
      TwoDecls({}, net[0], net[1], VpcKey(cfg));
    } else {
      PlanShape(cfg, zones.names, ami);
      HeadTailUnique(cfg, zones.names, ami);
    }
  }

  /** The same for the prelude, the loop and the tail joined. */
  lemma HeadTailUnique(cfg: Config, names: seq<string>, ami: string)
    ensures Unique(Prelude(cfg) + LoopDecls(cfg, names, Iterations(|names|, cfg.subnets)) + Tail(cfg, names, ami))
      <==> cfg.pubRtName != cfg.prvRtName
  {
    HeadUnique(cfg, names);
    HeadStages(cfg, names);
    TailUnique(cfg, names, ami);
    UniqueByStages(Prelude(cfg) + LoopDecls(cfg, names, Iterations(|names|, cfg.subnets)), Tail(cfg, names, ami), 0, 6, 11);
  }

  /** Every key of a run is named in its kind's form. */
  lemma PlanNamedByForm(cfg: Config, zones: ZoneQuery, ami: string)
    ensures forall key | key in Keys(Plan(cfg, zones, ami).plan) :: NamedByForm(key)
  {
    if zones.QueryRejected? {
      var net := NetworkDecls(cfg);
      TwoDecls({}, net[0], net[1], VpcKey(cfg));
    } else {
      var names := zones.names;
      var n := Iterations(|names|, cfg.subnets);
      var p, l, tl := Prelude(cfg), LoopDecls(cfg, names, n), Tail(cfg, names, ami);
      PlanShape(cfg, names, ami);
      KeysConcat(p + l, tl);
      KeysConcat(p, l);
      PreludeNamedByForm(cfg);
      LoopNamedByForm(cfg, names, n);
      TailNamedByForm(cfg, names, ami);
    }
  }

  /** The network and routing resources take their names from the configuration. */
  lemma PreludeNamedByForm(cfg: Config)
    ensures forall key | key in Keys(Prelude(cfg)) :: NamedByForm(key)
  {
    PreludeKeys(cfg);
  }

  /** The loop names every subnet and association with its counter. */
  lemma LoopNamedByForm(cfg: Config, names: seq<string>, n: nat)
    requires n <= Iterations(|names|, cfg.subnets)
    ensures forall key | key in Keys(LoopDecls(cfg, names, n)) :: NamedByForm(key)
  {
    LoopNames(cfg, names, n);
  }

  /** The groups, the database and the instance have names written in the program. */
  lemma TailNamedByForm(cfg: Config, names: seq<string>, ami: string)
    ensures forall key | key in Keys(Tail(cfg, names, ami)) :: NamedByForm(key)
  {
    TailKeys(cfg, names, ami);
  }

  /**
   * The same as PlanUnique for the strings Pulumi receives: no resource type
   * and name string is registered twice in a run exactly when its zone query
   * was rejected or the two route tables have different names.
   */
  lemma PlanUniquelyRegistered(cfg: Config, zones: ZoneQuery, ami: string)
    ensures UniquelyRegistered(Plan(cfg, zones, ami).plan) <==> zones.QueryRejected? || cfg.pubRtName != cfg.prvRtName
  {
    PlanNamedByForm(cfg, zones, ami);
    UniquelyRegisteredByForm(Plan(cfg, zones, ami).plan);
    PlanUnique(cfg, zones, ami);
  }

  // ---- Routing ----

  /**
   * The VPC's main route table is the public one, whose only route sends
   * `pubCIDR` to the internet gateway: the main association is declared for
   * the VPC with the public table's id.
   */
  lemma MainTableIsPublic(cfg: Config, names: seq<string>, ami: string)
    ensures var plan := Plan(cfg, Zones(names), ami).plan;
      && Lookup(plan, MainAssociationKey(cfg)).Some?
      && Lookup(plan, MainAssociationKey(cfg)).value.args ==
         MainRouteTableAssociationArgs(VpcRef(cfg), Ref(PublicTableKey(cfg), Id))
      && ResolveRouteTable(plan, Ref(MainAssociationKey(cfg), RouteTableId)) == Some(PublicTableKey(cfg))
      && Lookup(plan, PublicTableKey(cfg)).Some?
      && Lookup(plan, PublicTableKey(cfg)).value.args == RouteTableArgs(VpcRef(cfg), [InternetRoute(cfg)])
  {
    PreludeKeys(cfg);
    PreludeLookup(cfg, MainAssociationKey(cfg));
    PreludeLookup(cfg, PublicTableKey(cfg));
    PreludeFirst(cfg, names, ami, MainAssociationKey(cfg));
    PreludeFirst(cfg, names, ami, PublicTableKey(cfg));
  }

  /** No declaration of the tail is a subnet or an association. */
  lemma TailKinds(cfg: Config, names: seq<string>, ami: string)
    ensures forall t | 0 <= t < |Tail(cfg, names, ami)| ::
      !Tail(cfg, names, ami)[t].args.SubnetArgs? && !Tail(cfg, names, ami)[t].args.RouteTableAssociationArgs?
  {
    GroupKeys(cfg);
    if 2 <= Iterations(|names|, cfg.subnets) {
      DataTierKeys(cfg, names, ami);
    }
  }

  /** The subnets of a run are the loop's, position by position. */
  lemma SubnetPosition(cfg: Config, names: seq<string>, ami: string, t: nat)
    requires t < |Plan(cfg, Zones(names), ami).plan|
    requires Plan(cfg, Zones(names), ami).plan[t].args.SubnetArgs?
    ensures var n := Iterations(|names|, cfg.subnets);
      && 5 <= t < 5 + 4 * n && (t - 5) % 4 < 2
      && Plan(cfg, Zones(names), ami).plan[t] ==
         SubnetDecl(cfg, names, if (t - 5) % 4 == 0 then Public else Private, (t - 5) / 4)
  {
    var n := Iterations(|names|, cfg.subnets);
    PlanShape(cfg, names, ami);
    PreludeKinds(cfg);
    LoopDeclAt(cfg, names, n, t - 5);
    TailKinds(cfg, names, ami);
  }

  /** The associations of a subnet in a run are those the loop made. */
  lemma PlanAssociations(cfg: Config, names: seq<string>, ami: string, tier: Tier, i: nat)
    ensures var n := Iterations(|names|, cfg.subnets);
      Associations(Plan(cfg, Zones(names), ami).plan, SubnetKey(tier, i)) ==
        if i < n then [TableRef(cfg, tier)] else []
  {
    var n := Iterations(|names|, cfg.subnets);
    var p, l, tl := Prelude(cfg), LoopDecls(cfg, names, n), Tail(cfg, names, ami);
    var key := SubnetKey(tier, i);
    PlanShape(cfg, names, ami);
    PreludeKinds(cfg);
    TailKinds(cfg, names, ami);
    NoAssociations(p, key);
    NoAssociations(tl, key);
    LoopAssociations(cfg, names, n, tier, i);
    AssociationsConcat(p, l, key);
    AssociationsConcat(p + l, tl, key);
  }

  /**
   * When the two route tables have distinct names, every subnet of a run
   * is associated with exactly one route table: a public subnet (one that
   * gives public addresses on launch) with the main, public table, which
   * routes `pubCIDR` to the internet gateway, and a private subnet with the
   * private table, which has no route.
   */
  lemma SubnetRouting(cfg: Config, names: seq<string>, ami: string, t: nat)
    requires cfg.pubRtName != cfg.prvRtName
    requires t < |Plan(cfg, Zones(names), ami).plan|
    requires Plan(cfg, Zones(names), ami).plan[t].args.SubnetArgs?
    ensures var plan := Plan(cfg, Zones(names), ami).plan;
      var public := plan[t].args.mapPublicIpOnLaunch;
      var table := if public then PublicTableKey(cfg) else PrivateTableKey(cfg);
      var tables := Associations(plan, KeyOf(plan[t]));
      && |tables| == 1
      && ResolveRouteTable(plan, tables[0]) == Some(table)
      && Lookup(plan, table).Some?
      && Lookup(plan, table).value.args == RouteTableArgs(VpcRef(cfg), if public then [InternetRoute(cfg)] else [])
  {
    SubnetPosition(cfg, names, ami, t);
    var tier := if (t - 5) % 4 == 0 then Public else Private;
    var i := (t - 5) / 4;
    SubnetDeclFacts(cfg, names, tier, i);
    PlanAssociations(cfg, names, ami, tier, i);
    MainTableIsPublic(cfg, names, ami);
    PreludeKeys(cfg);
    PreludeLookup(cfg, PrivateTableKey(cfg));
    PreludeFirst(cfg, names, ami, PrivateTableKey(cfg));
  }

  // ---- The data tier ----

  /** A loop subnet is found in a run where the loop declared it. */
  lemma PlanSubnetLookup(cfg: Config, names: seq<string>, ami: string, tier: Tier, i: nat)
    requires i < Iterations(|names|, cfg.subnets)
    ensures Lookup(Plan(cfg, Zones(names), ami).plan, SubnetKey(tier, i)) == Some(SubnetDecl(cfg, names, tier, i))
  {
    var n := Iterations(|names|, cfg.subnets);
    var l := LoopDecls(cfg, names, n);
    PlanShape(cfg, names, ami);
    PreludeKinds(cfg);
    LookupPastStages(Prelude(cfg), l + Tail(cfg, names, ami), 4, SubnetKey(tier, i));
    LoopLookup(cfg, names, n, tier, i);
    LookupConcat(l, Tail(cfg, names, ami), SubnetKey(tier, i));
  }

  /** A key the tail declares is found in the tail. */
  lemma TailFirst(cfg: Config, names: seq<string>, ami: string, key: Key)
    requires || key.kind == SecurityGroup || key.kind == ParameterGroup
             || key.kind == SubnetGroup || key.kind == DbInstance || key.kind == Instance
    ensures Lookup(Plan(cfg, Zones(names), ami).plan, key) == Lookup(Tail(cfg, names, ami), key)
  {
    PlanShape(cfg, names, ami);
    PastHead(cfg, names, Tail(cfg, names, ami), key);
  }

  /** Nothing before the tail declares a key of the tail's kinds. */
  lemma PastHead(cfg: Config, names: seq<string>, rest: seq<Decl>, key: Key)
    requires 6 <= Stage(key.kind)
    ensures Lookup(Prelude(cfg) + LoopDecls(cfg, names, Iterations(|names|, cfg.subnets)) + rest, key) == Lookup(rest, key)
  {
    HeadStages(cfg, names);
    LookupPastStages(Prelude(cfg) + LoopDecls(cfg, names, Iterations(|names|, cfg.subnets)), rest, 6, key);
  }

  /** Looking a key of the tail up finds its declaration there. */
  lemma TailLookup(cfg: Config, names: seq<string>, ami: string, key: Key)
    ensures Lookup(Tail(cfg, names, ami), key) ==
      if key in Keys(GroupDecls(cfg)) then Lookup(GroupDecls(cfg), key)
      else if 2 <= Iterations(|names|, cfg.subnets) then Lookup(DataTierDecls(cfg, names, ami), key)
      else None
  {
    if 2 <= Iterations(|names|, cfg.subnets) {
      LookupConcat(GroupDecls(cfg), DataTierDecls(cfg, names, ami), key);
    }
  }

  /**
   * The database's subnet group holds private subnets 0 and 1, which lie
   * in the first two zones with no public addresses.
   */
  lemma DatabaseSubnets(cfg: Config, names: seq<string>, ami: string)
    requires 2 <= Iterations(|names|, cfg.subnets)
    ensures var plan := Plan(cfg, Zones(names), ami).plan;
      && Lookup(plan, SubnetGroupKey).Some?
      && Lookup(plan, SubnetGroupKey).value.args ==
         SubnetGroupArgs([Ref(SubnetKey(Private, 0), Id), Ref(SubnetKey(Private, 1), Id)])
      && (forall k | 0 <= k < 2 ::
           && Lookup(plan, SubnetKey(Private, k)).Some?
           && Lookup(plan, SubnetKey(Private, k)).value.args.SubnetArgs?
           && !Lookup(plan, SubnetKey(Private, k)).value.args.mapPublicIpOnLaunch
           && Lookup(plan, SubnetKey(Private, k)).value.args.availabilityZone == names[k])
  {
    DatabaseSubnetGroup(cfg, names, ami);
    PlanSubnetLookup(cfg, names, ami, Private, 0);
    PlanSubnetLookup(cfg, names, ami, Private, 1);
    SubnetDeclFacts(cfg, names, Private, 0);
    SubnetDeclFacts(cfg, names, Private, 1);
  }

  /** The subnet group lists private subnets 0 and 1. */
  lemma DatabaseSubnetGroup(cfg: Config, names: seq<string>, ami: string)
    requires 2 <= Iterations(|names|, cfg.subnets)
    ensures var plan := Plan(cfg, Zones(names), ami).plan;
      && Lookup(plan, SubnetGroupKey).Some?
      && Lookup(plan, SubnetGroupKey).value.args ==
         SubnetGroupArgs([Ref(SubnetKey(Private, 0), Id), Ref(SubnetKey(Private, 1), Id)])
  {
    TailFirst(cfg, names, ami, SubnetGroupKey);
    TailLookup(cfg, names, ami, SubnetGroupKey);
    GroupKeys(cfg);
    DataTierLookup(cfg, names, ami, SubnetGroupKey);
  }

  /**
   * The database sits in that subnet group, reads the MariaDB parameter
   * group, is not publicly accessible, and is guarded by the database group
   * alone, which admits TCP on port 3306 from the application group and
   * nothing else.
   */
  lemma DatabaseIsolation(cfg: Config, names: seq<string>, ami: string, protocol: string, port: int, peer: Peer)
    requires 2 <= Iterations(|names|, cfg.subnets)
    ensures var plan := Plan(cfg, Zones(names), ami).plan;
      && Lookup(plan, DatabaseKey).Some?
      && Lookup(plan, DatabaseKey).value.args ==
         DbInstanceArgs(Ref(SubnetGroupKey, Id), Ref(ParameterGroupKey, Name),
                        [Ref(DatabaseSecurityGroupKey, Id)], false, false)
      && Lookup(plan, DatabaseSecurityGroupKey).Some?
      && Lookup(plan, DatabaseSecurityGroupKey).value.args.SecurityGroupArgs?
      && (Admits(Lookup(plan, DatabaseSecurityGroupKey).value.args.ingress, protocol, port, peer) <==>
          protocol == "tcp" && port == 3306 && peer == Group(AppSecurityGroupKey))
  {
    GroupKeys(cfg);
    TailFirst(cfg, names, ami, DatabaseKey);
    TailLookup(cfg, names, ami, DatabaseKey);
    DataTierLookup(cfg, names, ami, DatabaseKey);
    TailFirst(cfg, names, ami, DatabaseSecurityGroupKey);
    TailLookup(cfg, names, ami, DatabaseSecurityGroupKey);
    GroupLookup(cfg, DatabaseSecurityGroupKey);
    DatabaseAdmits(protocol, port, peer);
  }

  /**
   * The instance runs the given AMI in public subnet 0, which lies in the
   * first zone and gives public addresses, and is guarded by the
   * application group alone, which admits TCP on ports 22, 80, 443 and 8080
   * from `pubCIDR` and nothing else.
   */
  lemma InstancePlacement(cfg: Config, names: seq<string>, ami: string, protocol: string, port: int, peer: Peer)
    requires 2 <= Iterations(|names|, cfg.subnets)
    ensures var plan := Plan(cfg, Zones(names), ami).plan;
      && Lookup(plan, InstanceKey).Some?
      && Lookup(plan, InstanceKey).value.args ==
         InstanceArgs(ami, Ref(SubnetKey(Public, 0), Id), VpcRef(cfg), [Ref(AppSecurityGroupKey, Id)], cfg.userData)
      && Lookup(plan, SubnetKey(Public, 0)).Some?
      && Lookup(plan, SubnetKey(Public, 0)).value.args.SubnetArgs?
      && Lookup(plan, SubnetKey(Public, 0)).value.args.mapPublicIpOnLaunch
      && Lookup(plan, SubnetKey(Public, 0)).value.args.availabilityZone == names[0]
      && Lookup(plan, AppSecurityGroupKey).Some?
      && Lookup(plan, AppSecurityGroupKey).value.args.SecurityGroupArgs?
      && (Admits(Lookup(plan, AppSecurityGroupKey).value.args.ingress, protocol, port, peer) <==>
          protocol == "tcp" && (port == 22 || port == 80 || port == 443 || port == 8080) && peer == Range(cfg.pubCidr))
  {
    GroupKeys(cfg);
    TailFirst(cfg, names, ami, InstanceKey);
    TailLookup(cfg, names, ami, InstanceKey);
    DataTierLookup(cfg, names, ami, InstanceKey);
    PlanSubnetLookup(cfg, names, ami, Public, 0);
    SubnetDeclFacts(cfg, names, Public, 0);
    TailFirst(cfg, names, ami, AppSecurityGroupKey);
    TailLookup(cfg, names, ami, AppSecurityGroupKey);
    GroupLookup(cfg, AppSecurityGroupKey);
    AppAdmits(cfg.pubCidr, protocol, port, peer);
  }
}
