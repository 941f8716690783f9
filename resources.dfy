/**
 * Resource declarations. The program declares Pulumi resources by calling
 * their constructors (`new ec2.Subnet(name, args)`); here a declaration is
 * a record of the resource type, its logical name and its arguments, and
 * an argument that reads another resource's output is a reference to that
 * resource. Pulumi identifies a resource by its type and logical name, as
 * a Key does.
 */
module Resources {
  import opened Options
  import opened Numerals
  import opened Cidr

  datatype Kind =
    | Vpc | InternetGateway | RouteTable | MainRouteTableAssociation | Subnet
    | RouteTableAssociation | SecurityGroup | ParameterGroup | SubnetGroup
    | DbInstance | Instance

  /** The counters' name prefixes of the subnet loop. */
  datatype Prefix = PublicSubnetPrefix | PrivateSubnetPrefix | PublicAssociationPrefix | PrivateAssociationPrefix

  function PrefixText(p: Prefix): string {
    match p
    case PublicSubnetPrefix => "publicsubnet"
    case PrivateSubnetPrefix => "private-subnet-"
    case PublicAssociationPrefix => "public-association-"
    case PrivateAssociationPrefix => "private-association-"
  }

  /** The logical names written out in the program. */
  datatype Literal =
    | AppSecurityGroupName | DatabaseSecurityGroupName | ParameterGroupName
    | SubnetGroupName | DatabaseName | InstanceName

  function LiteralText(l: Literal): string {
    match l
    case AppSecurityGroupName => "appSecurityGroup"
    case DatabaseSecurityGroupName => "databaseSecurityGroup"
    case ParameterGroupName => "mariadb-parameter-group"
    case SubnetGroupName => "rds-private-subnet-group"
    case DatabaseName => "csye6225"
    case InstanceName => "instance"
  }

  /**
   * A logical name: a string taken from the configuration, one written in
   * the program, or a loop prefix followed by the loop counter
   * (`publicsubnet${i}`).
   */
  datatype LogicalName = Given(text: string) | Written(literal: Literal) | Counted(prefix: Prefix, index: nat)

  /** The string Pulumi receives as the logical name. */
  function Text(n: LogicalName): string {
    match n
    case Given(s) => s
    case Written(l) => LiteralText(l)
    case Counted(p, i) => PrefixText(p) + Decimal(i)
  }

  /** Counted names render to the same string exactly when prefix and counter agree. */
  lemma CountedTextInjective(p: Prefix, i: nat, q: Prefix, j: nat)
    ensures Text(Counted(p, i)) == Text(Counted(q, j)) <==> p == q && i == j
  {
    SamePrefixNames(PrefixText(p), i, j);
    var d, e := Decimal(i), Decimal(j);
    if p != q {
      var a, b := PrefixText(p), PrefixText(q);
      if a[1] != b[1] {
        DivergingPrefixNames(a, b, 1, d, e);
      } else if {p, q} == {PublicSubnetPrefix, PublicAssociationPrefix} {
        DivergingPrefixNames(a, b, 6, d, e);
      } else {
        DivergingPrefixNames(a, b, 8, d, e);
      }
    }
  }

  datatype Key = Key(kind: Kind, name: LogicalName)

  /** The output property an argument reads: `.id`, `.routeTableId` or `.name`. */
  datatype Output = Id | RouteTableId | Name

  datatype Ref = Ref(target: Key, output: Output)

  datatype Route = Route(cidrBlock: string, gateway: Ref)

  /** A security-group rule; a peer is a list of address ranges or of groups. */
  datatype Rule = Rule(protocol: string, fromPort: int, toPort: int,
                       cidrBlocks: seq<string>, securityGroups: seq<Ref>)

  datatype Args =
    | VpcArgs(cidrBlock: string)
    | InternetGatewayArgs(vpc: Ref)
    | RouteTableArgs(vpc: Ref, routes: seq<Route>)
    | MainRouteTableAssociationArgs(vpc: Ref, routeTable: Ref)
    | SubnetArgs(vpc: Ref, cidrRange: SubnetRange, mapPublicIpOnLaunch: bool, availabilityZone: string)
    | RouteTableAssociationArgs(subnet: Ref, routeTable: Ref)
    | SecurityGroupArgs(vpc: Ref, ingress: seq<Rule>, egress: seq<Rule>)
    | ParameterGroupArgs
    | SubnetGroupArgs(subnets: seq<Ref>)
    | DbInstanceArgs(subnetGroup: Ref, parameterGroup: Ref, securityGroups: seq<Ref>,
                     publiclyAccessible: bool, multiAz: bool)
    | InstanceArgs(ami: string, subnet: Ref, vpc: Ref, securityGroups: seq<Ref>, userData: string)

  datatype Decl = Decl(name: LogicalName, args: Args)

  function KindOf(args: Args): Kind {
    match args
    case VpcArgs(_) => Vpc
    case InternetGatewayArgs(_) => InternetGateway
    case RouteTableArgs(_, _) => RouteTable
    case MainRouteTableAssociationArgs(_, _) => MainRouteTableAssociation
    case SubnetArgs(_, _, _, _) => Subnet
    case RouteTableAssociationArgs(_, _) => RouteTableAssociation
    case SecurityGroupArgs(_, _, _) => SecurityGroup
    case ParameterGroupArgs => ParameterGroup
    case SubnetGroupArgs(_) => SubnetGroup
    case DbInstanceArgs(_, _, _, _, _) => DbInstance
    case InstanceArgs(_, _, _, _, _) => Instance
  }

  function KeyOf(d: Decl): Key {
    Key(KindOf(d.args), d.name)
  }

  function IdOf(d: Decl): Ref {
    Ref(KeyOf(d), Id)
  }

  function RuleRefs(rules: seq<Rule>): seq<Ref>
    decreases |rules|
  {
    if rules == [] then [] else rules[0].securityGroups + RuleRefs(rules[1..])
  }

  /** Every reference an argument list holds, rules and routes included. */
  function RefsOf(args: Args): seq<Ref> {
    match args
    case VpcArgs(_) => []
    case InternetGatewayArgs(vpc) => [vpc]
    case RouteTableArgs(vpc, routes) => [vpc] + seq(|routes|, k requires 0 <= k < |routes| => routes[k].gateway)
    case MainRouteTableAssociationArgs(vpc, table) => [vpc, table]
    case SubnetArgs(vpc, _, _, _) => [vpc]
    case RouteTableAssociationArgs(subnet, table) => [subnet, table]
    case SecurityGroupArgs(vpc, ingress, egress) => [vpc] + RuleRefs(ingress) + RuleRefs(egress)
    case ParameterGroupArgs => []
    case SubnetGroupArgs(subnets) => subnets
    case DbInstanceArgs(group, params, groups, _, _) => [group, params] + groups
    case InstanceArgs(_, subnet, vpc, groups, _) => [subnet, vpc] + groups
  }

  /** The resources a declaration depends on. */
  function Targets(args: Args): set<Key> {
    set r | r in RefsOf(args) :: r.target
  }

  /** The keys a plan declares. */
  function Keys(plan: seq<Decl>): set<Key>
    decreases |plan|
  {
    if plan == [] then {} else {KeyOf(plan[0])} + Keys(plan[1..])
  }

  /** Each declaration refers only to env or to declarations before it. */
  predicate Resolves(env: set<Key>, plan: seq<Decl>)
    decreases |plan|
  {
    plan == [] || (Targets(plan[0].args) <= env && Resolves(env + {KeyOf(plan[0])}, plan[1..]))
  }

  /** No key is declared twice. */
  predicate Unique(plan: seq<Decl>)
    decreases |plan|
  {
    plan == [] || (KeyOf(plan[0]) !in Keys(plan[1..]) && Unique(plan[1..]))
  }

  /** The first declaration with this key. */
  function Lookup(plan: seq<Decl>, key: Key): (r: Option<Decl>)
    ensures r.Some? ==> KeyOf(r.value) == key
    ensures r.None? <==> key !in Keys(plan)
    decreases |plan|
  {
    if plan == [] then None
    else if KeyOf(plan[0]) == key then Some(plan[0])
    else Lookup(plan[1..], key)
  }

  /** The route-table reference of d when d associates the given subnet with a table. */
  function AssociationOf(d: Decl, subnet: Key): seq<Ref> {
    if d.args.RouteTableAssociationArgs? && d.args.subnet.target == subnet then [d.args.routeTable] else []
  }

  /** The route-table references of every association of the given subnet, in order. */
  function Associations(plan: seq<Decl>, subnet: Key): seq<Ref>
    decreases |plan|
  {
    if plan == [] then [] else AssociationOf(plan[0], subnet) + Associations(plan[1..], subnet)
  }

  /**
   * The route table a `routeTableId` argument denotes: a route table's own
   * `.id`, or the `.routeTableId` output of a main-route-table association,
   * which is the table that association was given.
   */
  function ResolveRouteTable(plan: seq<Decl>, table: Ref): Option<Key> {
    if table.output == Id && table.target.kind == RouteTable then Some(table.target)
    else if table.output == RouteTableId && table.target.kind == MainRouteTableAssociation then
      match Lookup(plan, table.target)
      case Some(Decl(_, MainRouteTableAssociationArgs(_, inner))) =>
        if inner.output == Id && inner.target.kind == RouteTable then Some(inner.target) else None
      case _ => None
    else None
  }

  // ---- Lemmas on plans built by concatenation ----

  lemma {:induction false} KeysConcat(a: seq<Decl>, b: seq<Decl>)
    ensures Keys(a + b) == Keys(a) + Keys(b)
    decreases |a|
  {
    if a == [] {
      assert a + b == b;
    } else {
      assert (a + b)[1..] == a[1..] + b;
      KeysConcat(a[1..], b);
    }
  }

  /** A key is declared exactly when some position holds it. */
  lemma {:induction false} KeysAt(plan: seq<Decl>, key: Key)
    ensures key in Keys(plan) <==> exists t :: 0 <= t < |plan| && KeyOf(plan[t]) == key
    decreases |plan|
  {
    if plan != [] {
      KeysAt(plan[1..], key);
      if key in Keys(plan[1..]) {
        var t :| 0 <= t < |plan[1..]| && KeyOf(plan[1..][t]) == key;
        assert KeyOf(plan[t + 1]) == key;
      }
      if exists t :: 0 <= t < |plan| && KeyOf(plan[t]) == key {
        var t :| 0 <= t < |plan| && KeyOf(plan[t]) == key;
        if t > 0 {
          assert KeyOf(plan[1..][t - 1]) == key;
        }
      }
    }
  }

  lemma {:induction false} ResolvesMonotonic(env: set<Key>, env': set<Key>, plan: seq<Decl>)
    requires Resolves(env, plan) && env <= env'
    ensures Resolves(env', plan)
    decreases |plan|
  {
    if plan != [] {
      ResolvesMonotonic(env + {KeyOf(plan[0])}, env' + {KeyOf(plan[0])}, plan[1..]);
    }
  }

  /** A concatenation resolves when its first part does and its second part does after it. */
  lemma {:induction false} ResolvesConcat(env: set<Key>, a: seq<Decl>, b: seq<Decl>)
    ensures Resolves(env, a + b) <==> Resolves(env, a) && Resolves(env + Keys(a), b)
    decreases |a|
  {
    if a == [] {
      assert a + b == b;
      assert env + Keys(a) == env;
    } else {
      assert (a + b)[0] == a[0];
      assert (a + b)[1..] == a[1..] + b;
      ResolvesConcat(env + {KeyOf(a[0])}, a[1..], b);
      assert env + {KeyOf(a[0])} + Keys(a[1..]) == env + Keys(a);
    }
  }

  /** The recursive form of Resolves states, position by position, what a reader expects. */
  lemma {:induction false} ResolvesAt(env: set<Key>, plan: seq<Decl>, t: nat, key: Key)
    requires Resolves(env, plan) && t < |plan| && key in Targets(plan[t].args)
    ensures key in env || exists s :: 0 <= s < t && KeyOf(plan[s]) == key
    decreases |plan|
  {
    if t > 0 {
      assert plan[1..][t - 1] == plan[t];
      ResolvesAt(env + {KeyOf(plan[0])}, plan[1..], t - 1, key);
      if key !in env && key != KeyOf(plan[0]) {
        var s :| 0 <= s < t - 1 && KeyOf(plan[1..][s]) == key;
        assert KeyOf(plan[s + 1]) == key;
      }
    }
  }

  /** A concatenation has unique keys when both parts do and they share no key. */
  lemma {:induction false} UniqueConcat(a: seq<Decl>, b: seq<Decl>)
    ensures Unique(a + b) <==> Unique(a) && Unique(b) && Keys(a) !! Keys(b)
    decreases |a|
  {
    if a == [] {
      assert a + b == b;
    } else {
      assert (a + b)[0] == a[0];
      assert (a + b)[1..] == a[1..] + b;
      UniqueConcat(a[1..], b);
      KeysConcat(a[1..], b);
    }
  }

  /** Unique keys mean that no two positions hold the same key. */
  lemma {:induction false} UniqueAt(plan: seq<Decl>, s: nat, t: nat)
    requires Unique(plan) && s < t < |plan|
    ensures KeyOf(plan[s]) != KeyOf(plan[t])
    decreases |plan|
  {
    if s == 0 {
      assert plan[1..][t - 1] == plan[t];
      KeysAt(plan[1..], KeyOf(plan[t]));
    } else {
      assert plan[1..][s - 1] == plan[s] && plan[1..][t - 1] == plan[t];
      UniqueAt(plan[1..], s - 1, t - 1);
    }
  }

  /** Two positions holding the same key make the keys non-unique. */
  lemma {:induction false} DuplicateNotUnique(plan: seq<Decl>, s: nat, t: nat)
    requires s < t < |plan| && KeyOf(plan[s]) == KeyOf(plan[t])
    ensures !Unique(plan)
  {
    if Unique(plan) {
      UniqueAt(plan, s, t);
    }
  }

  // ---- Names as Pulumi receives them ----

  /** What Pulumi registers a declaration under: its resource type and its logical name as a string. */
  function Registered(d: Decl): (Kind, string) {
    (KindOf(d.args), Text(d.name))
  }

  /** No two declarations are registered under the same type and name string. */
  predicate UniquelyRegistered(plan: seq<Decl>) {
    forall s, t | 0 <= s < t < |plan| :: Registered(plan[s]) != Registered(plan[t])
  }

  /**
   * The form of name the program gives each kind: configuration strings for
   * the network and the route tables, loop counters for subnets and their
   * associations, names written in the program for the rest.
   */
  predicate NamedByForm(key: Key) {
    match key.kind
    case Vpc => key.name.Given?
    case InternetGateway => key.name.Given?
    case RouteTable => key.name.Given?
    case MainRouteTableAssociation => key.name.Given?
    case Subnet => key.name.Counted?
    case RouteTableAssociation => key.name.Counted?
    case _ => key.name.Written?
  }

  /** The names written in the program are pairwise different strings; their first letters already differ. */
  lemma LiteralTextInjective(l: Literal, m: Literal)
    ensures LiteralText(l) == LiteralText(m) <==> l == m
  {
    if l != m {
      assert LiteralText(l)[0] != LiteralText(m)[0];
    }
  }

  /** Two keys of one kind, both named in that kind's form, have the same name string exactly when they are equal. */
  lemma TextInjectiveByForm(k1: Key, k2: Key)
    requires NamedByForm(k1) && NamedByForm(k2) && k1.kind == k2.kind
    ensures Text(k1.name) == Text(k2.name) <==> k1 == k2
  {
    match k1.name
    case Given(_) =>
    case Written(l) => LiteralTextInjective(l, k2.name.literal);
    case Counted(p, i) => CountedTextInjective(p, i, k2.name.prefix, k2.name.index);
  }

  /** Distinct registrations imply distinct keys. */
  lemma {:induction false} UniquelyRegisteredUnique(plan: seq<Decl>)
    requires UniquelyRegistered(plan)
    ensures Unique(plan)
    decreases |plan|
  {
    if plan != [] {
      var rest := plan[1..];
      assert forall t | 0 <= t < |rest| :: rest[t] == plan[t + 1];
      if KeyOf(plan[0]) in Keys(rest) {
        KeysAt(rest, KeyOf(plan[0]));
      }
      UniquelyRegisteredUnique(rest);
    }
  }

  /**
   * When every key is named in its kind's form, no key is declared twice
   * exactly when no type and name string is registered twice.
   */
  lemma UniquelyRegisteredByForm(plan: seq<Decl>)
    requires forall key | key in Keys(plan) :: NamedByForm(key)
    ensures UniquelyRegistered(plan) <==> Unique(plan)
  {
    if UniquelyRegistered(plan) {
      UniquelyRegisteredUnique(plan);
    }
    if Unique(plan) {
      forall s, t | 0 <= s < t < |plan|
        ensures Registered(plan[s]) != Registered(plan[t])
      {
        UniqueAt(plan, s, t);
        KeysAt(plan, KeyOf(plan[s]));
        KeysAt(plan, KeyOf(plan[t]));
        if KindOf(plan[s].args) == KindOf(plan[t].args) {
          TextInjectiveByForm(KeyOf(plan[s]), KeyOf(plan[t]));
        }
      }
    }
  }

  lemma {:induction false} LookupConcat(a: seq<Decl>, b: seq<Decl>, key: Key)
    ensures Lookup(a + b, key) == if key in Keys(a) then Lookup(a, key) else Lookup(b, key)
    decreases |a|
  {
    if a == [] {
      assert a + b == b;
    } else {
      assert (a + b)[0] == a[0];
      assert (a + b)[1..] == a[1..] + b;
      LookupConcat(a[1..], b, key);
    }
  }

  lemma {:induction false} AssociationsConcat(a: seq<Decl>, b: seq<Decl>, subnet: Key)
    ensures Associations(a + b, subnet) == Associations(a, subnet) + Associations(b, subnet)
    decreases |a|
  {
    if a == [] {
      assert a + b == b;
    } else {
      assert (a + b)[0] == a[0];
      assert (a + b)[1..] == a[1..] + b;
      AssociationsConcat(a[1..], b, subnet);
    }
  }

  /** What a plan holds for a subnet associated with the table once, or not at all. */
  function AssociatedOnce(associated: bool, table: Ref): seq<Ref> {
    if associated then [table] else []
  }

  /** A subnet associated at most once in each of two parts, and not in both, is associated at most once in the whole. */
  lemma AssociationsJoin(a: seq<Decl>, b: seq<Decl>, subnet: Key, table: Ref, inA: bool, inB: bool)
    requires Associations(a, subnet) == AssociatedOnce(inA, table)
    requires Associations(b, subnet) == AssociatedOnce(inB, table)
    requires !(inA && inB)
    ensures Associations(a + b, subnet) == AssociatedOnce(inA || inB, table)
  {
    AssociationsConcat(a, b, subnet);
    if inA {
      assert [table] + [] == [table];
    } else if inB {
      assert [] + [table] == [table];
    }
  }

  // ---- The same facts for a plan extended by one declaration ----

  lemma KeysAppend(p: seq<Decl>, d: Decl)
    ensures Keys(p + [d]) == Keys(p) + {KeyOf(d)}
  {
    KeysConcat(p, [d]);
    assert [d][1..] == [];
  }

  lemma UniqueAppend(p: seq<Decl>, d: Decl)
    ensures Unique(p + [d]) <==> Unique(p) && KeyOf(d) !in Keys(p)
  {
    UniqueConcat(p, [d]);
    assert [d][1..] == [];
  }

  lemma ResolvesAppend(env: set<Key>, p: seq<Decl>, d: Decl)
    ensures Resolves(env, p + [d]) <==> Resolves(env, p) && Targets(d.args) <= env + Keys(p)
  {
    ResolvesConcat(env, p, [d]);
    assert [d][1..] == [];
  }

  lemma LookupAppend(p: seq<Decl>, d: Decl, key: Key)
    ensures Lookup(p + [d], key) ==
      if key in Keys(p) then Lookup(p, key) else if KeyOf(d) == key then Some(d) else None
  {
    LookupConcat(p, [d], key);
    assert [d][1..] == [];
  }

  /** A plan without route-table associations associates no subnet. */
  lemma {:induction false} NoAssociations(plan: seq<Decl>, subnet: Key)
    requires forall t | 0 <= t < |plan| :: !plan[t].args.RouteTableAssociationArgs?
    ensures Associations(plan, subnet) == []
    decreases |plan|
  {
    if plan != [] {
      assert forall t | 0 <= t < |plan[1..]| :: plan[1..][t] == plan[t + 1];
      NoAssociations(plan[1..], subnet);
    }
  }

  /** The order in which the program first declares each kind of resource. */
  function Stage(k: Kind): nat {
    match k
    case Vpc => 0
    case InternetGateway => 1
    case RouteTable => 2
    case MainRouteTableAssociation => 3
    case Subnet => 4
    case RouteTableAssociation => 5
    case SecurityGroup => 6
    case ParameterGroup => 7
    case SubnetGroup => 8
    case DbInstance => 9
    case Instance => 10
  }

  /** Every key the plan declares is of a kind whose stage is at least lo and below hi. */
  predicate StagesIn(plan: seq<Decl>, lo: nat, hi: nat) {
    forall key | key in Keys(plan) :: lo <= Stage(key.kind) < hi
  }

  /** Stages add up over a concatenation, and parts of different stages declare different keys. */
  lemma StagesConcat(a: seq<Decl>, b: seq<Decl>, lo: nat, mid: nat, hi: nat)
    requires lo <= mid <= hi && StagesIn(a, lo, mid) && StagesIn(b, mid, hi)
    ensures StagesIn(a + b, lo, hi)
    ensures Keys(a) !! Keys(b)
  {
    KeysConcat(a, b);
  }

  /** A key of a later stage than the first part's is looked up in the second part. */
  lemma LookupPastStages(a: seq<Decl>, b: seq<Decl>, hi: nat, key: Key)
    requires StagesIn(a, 0, hi) && hi <= Stage(key.kind)
    ensures Lookup(a + b, key) == Lookup(b, key)
  {
    LookupConcat(a, b, key);
  }

  /** A key of a later stage than the first part's is declared by the whole exactly when the second part declares it. */
  lemma KeysPastStages(a: seq<Decl>, b: seq<Decl>, hi: nat, key: Key)
    requires StagesIn(a, 0, hi) && hi <= Stage(key.kind)
    ensures key in Keys(a + b) <==> key in Keys(b)
  {
    KeysConcat(a, b);
  }

  /** Parts of different stages together have unique keys exactly when each part has. */
  lemma UniqueByStages(a: seq<Decl>, b: seq<Decl>, lo: nat, mid: nat, hi: nat)
    requires lo <= mid <= hi && StagesIn(a, lo, mid) && StagesIn(b, mid, hi)
    ensures Unique(a + b) <==> Unique(a) && Unique(b)
  {
    StagesConcat(a, b, lo, mid, hi);
    UniqueConcat(a, b);
  }

  // ---- The same facts spelled out for two and three declarations ----

  lemma TwoDecls(env: set<Key>, a: Decl, b: Decl, key: Key)
    ensures Keys([a, b]) == {KeyOf(a), KeyOf(b)}
    ensures Unique([a, b]) <==> KeyOf(a) != KeyOf(b)
    ensures Resolves(env, [a, b]) <==> Targets(a.args) <= env && Targets(b.args) <= env + {KeyOf(a)}
    ensures Lookup([a, b], key) == if KeyOf(a) == key then Some(a) else if KeyOf(b) == key then Some(b) else None
  {
    assert [a, b] == [a] + [b] && [a] == [] + [a];
    KeysAppend([], a);
    UniqueAppend([], a);
    ResolvesAppend(env, [], a);
    LookupAppend([], a, key);
    KeysAppend([a], b);
    UniqueAppend([a], b);
    ResolvesAppend(env, [a], b);
    LookupAppend([a], b, key);
  }

  lemma ThreeKeys(a: Decl, b: Decl, c: Decl)
    ensures Keys([a, b, c]) == {KeyOf(a), KeyOf(b), KeyOf(c)}
    ensures Unique([a, b, c]) <==> KeyOf(a) != KeyOf(b) && KeyOf(a) != KeyOf(c) && KeyOf(b) != KeyOf(c)
  {
    assert [a, b, c] == [a, b] + [c];
    TwoDecls({}, a, b, KeyOf(c));
    KeysAppend([a, b], c);
    UniqueAppend([a, b], c);
  }

  lemma ThreeResolves(env: set<Key>, a: Decl, b: Decl, c: Decl)
    ensures Resolves(env, [a, b, c]) <==>
      && Targets(a.args) <= env && Targets(b.args) <= env + {KeyOf(a)}
      && Targets(c.args) <= env + {KeyOf(a), KeyOf(b)}
  {
    assert [a, b, c] == [a, b] + [c];
    TwoDecls(env, a, b, KeyOf(c));
    ResolvesAppend(env, [a, b], c);
  }

  lemma ThreeLookup(a: Decl, b: Decl, c: Decl, key: Key)
    ensures Lookup([a, b, c], key) ==
      if KeyOf(a) == key then Some(a) else if KeyOf(b) == key then Some(b)
      else if KeyOf(c) == key then Some(c) else None
  {
    assert [a, b, c] == [a, b] + [c];
    TwoDecls({}, a, b, key);
    LookupAppend([a, b], c, key);
  }

  // ---- The same facts spelled out for the four declarations of one loop iteration ----

  lemma FourKeys(p: seq<Decl>)
    requires |p| == 4
    ensures Keys(p) == {KeyOf(p[0]), KeyOf(p[1]), KeyOf(p[2]), KeyOf(p[3])}
    ensures Unique(p) <==>
      && KeyOf(p[0]) != KeyOf(p[1]) && KeyOf(p[0]) != KeyOf(p[2]) && KeyOf(p[0]) != KeyOf(p[3])
      && KeyOf(p[1]) != KeyOf(p[2]) && KeyOf(p[1]) != KeyOf(p[3]) && KeyOf(p[2]) != KeyOf(p[3])
  {
    var p1, p2, p3 := p[1..], p[2..], p[3..];
    assert p1[1..] == p2 && p2[1..] == p3 && p3[1..] == [];
    assert Keys(p3) == {KeyOf(p[3])} && Unique(p3);
    assert Keys(p2) == {KeyOf(p[2])} + Keys(p3);
    assert Keys(p1) == {KeyOf(p[1])} + Keys(p2);
    assert Keys(p) == {KeyOf(p[0])} + Keys(p1);
    assert Unique(p2) <==> KeyOf(p[2]) != KeyOf(p[3]);
    assert Unique(p1) <==> KeyOf(p[1]) !in Keys(p2) && Unique(p2);
  }

  lemma FourResolve(env: set<Key>, p: seq<Decl>)
    requires |p| == 4
    requires Targets(p[0].args) <= env
    requires Targets(p[1].args) <= env + {KeyOf(p[0])}
    requires Targets(p[2].args) <= env + {KeyOf(p[0]), KeyOf(p[1])}
    requires Targets(p[3].args) <= env + {KeyOf(p[0]), KeyOf(p[1]), KeyOf(p[2])}
    ensures Resolves(env, p)
  {
    var p1, p2, p3 := p[1..], p[2..], p[3..];
    assert p1[1..] == p2 && p2[1..] == p3 && p3[1..] == [];
    var e1 := env + {KeyOf(p[0])};
    var e2 := e1 + {KeyOf(p[1])};
    var e3 := e2 + {KeyOf(p[2])};
    assert Resolves(e3, p3);
    assert Resolves(e2, p2);
    assert Resolves(e1, p1);
  }

  lemma FourAssociations(p: seq<Decl>, subnet: Key)
    requires |p| == 4
    ensures Associations(p, subnet) ==
      AssociationOf(p[0], subnet) + AssociationOf(p[1], subnet) + AssociationOf(p[2], subnet) + AssociationOf(p[3], subnet)
  {
    var p1, p2, p3 := p[1..], p[2..], p[3..];
    assert p1[1..] == p2 && p2[1..] == p3 && p3[1..] == [];
    assert Associations(p3, subnet) == AssociationOf(p[3], subnet) + [];
    assert Associations(p2, subnet) == AssociationOf(p[2], subnet) + Associations(p3, subnet);
    assert Associations(p1, subnet) == AssociationOf(p[1], subnet) + Associations(p2, subnet);
  }
}
