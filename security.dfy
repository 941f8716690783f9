/**
 * The two security groups `createInstance` declares (index.js:98-135,
 * index.js:150-172): the application group, open on four TCP ports to
 * `pubCIDR`, and the database group, open on the MariaDB port to members
 * of the application group only. A rule is read the way EC2 reads it:
 * protocol `-1` stands for every protocol and every port.
 */
module Security {
  import opened Resources

  const AppSecurityGroupKey: Key := Key(SecurityGroup, Written(AppSecurityGroupName))
  const DatabaseSecurityGroupKey: Key := Key(SecurityGroup, Written(DatabaseSecurityGroupName))

  /** A TCP rule for one port from one address range. */
  function TcpRule(port: int, cidr: string): Rule {
    Rule("tcp", port, port, [cidr], [])
  }

  /** SSH, HTTP, HTTPS and the application port, each from `pubCIDR` (index.js:101-126). */
  function AppIngress(pubCidr: string): seq<Rule> {
    [TcpRule(22, pubCidr), TcpRule(80, pubCidr), TcpRule(443, pubCidr), TcpRule(8080, pubCidr)]
  }

  /** Every protocol and port towards `pubCIDR`, the egress of both groups (index.js:127-134, 163-170). */
  function AllTrafficTo(pubCidr: string): seq<Rule> {
    [Rule("-1", 0, 0, [pubCidr], [])]
  }

  /** The MariaDB port, with the application group as the only peer (index.js:155-161). */
  function DatabaseIngress(): seq<Rule> {
    [Rule("tcp", 3306, 3306, [], [Ref(AppSecurityGroupKey, Id)])]
  }

  function AppSecurityGroupDecl(vpc: Ref, pubCidr: string): Decl {
    Decl(AppSecurityGroupKey.name, SecurityGroupArgs(vpc, AppIngress(pubCidr), AllTrafficTo(pubCidr)))
  }

  function DatabaseSecurityGroupDecl(vpc: Ref, pubCidr: string): Decl {
    Decl(DatabaseSecurityGroupKey.name, SecurityGroupArgs(vpc, DatabaseIngress(), AllTrafficTo(pubCidr)))
  }

  /** The other side of a connection: an address range or a security group. */
  datatype Peer = Range(cidr: string) | Group(group: Key)

  /** The rule lets this protocol and port through from or to the peer. */
  predicate RuleAdmits(r: Rule, protocol: string, port: int, peer: Peer) {
    && (r.protocol == "-1" || (r.protocol == protocol && r.fromPort <= port <= r.toPort))
    && match peer
       case Range(c) => c in r.cidrBlocks
       case Group(g) => Ref(g, Id) in r.securityGroups
  }

  /** Some rule of the list lets the traffic through. */
  predicate Admits(rules: seq<Rule>, protocol: string, port: int, peer: Peer) {
    exists k | 0 <= k < |rules| :: RuleAdmits(rules[k], protocol, port, peer)
  }

  /**
   * The application group's ingress is exactly four single-port TCP rules,
   * for ports 22, 80, 443 and 8080 in that order, each scoped to `pubCIDR`
   * and to no group.
   */
  lemma AppIngressRules(pubCidr: string)
    ensures |AppIngress(pubCidr)| == 4
    ensures forall k | 0 <= k < 4 ::
      var r := AppIngress(pubCidr)[k];
      r.protocol == "tcp" && r.fromPort == r.toPort && r.cidrBlocks == [pubCidr] && r.securityGroups == []
    ensures AppIngress(pubCidr)[0].fromPort == 22 && AppIngress(pubCidr)[1].fromPort == 80
    ensures AppIngress(pubCidr)[2].fromPort == 443 && AppIngress(pubCidr)[3].fromPort == 8080
  {
  }

  /** The application group admits TCP on its four ports from `pubCIDR` and nothing else. */
  lemma AppAdmits(pubCidr: string, protocol: string, port: int, peer: Peer)
    ensures Admits(AppIngress(pubCidr), protocol, port, peer) <==>
      protocol == "tcp" && (port == 22 || port == 80 || port == 443 || port == 8080) && peer == Range(pubCidr)
  {
    var rules := AppIngress(pubCidr);
    if Admits(rules, protocol, port, peer) {
      var k :| 0 <= k < |rules| && RuleAdmits(rules[k], protocol, port, peer);
      assert rules[k].protocol == "tcp" && rules[k].cidrBlocks == [pubCidr] && rules[k].securityGroups == [];
      assert "tcp" != "-1";
    }
    if protocol == "tcp" && peer == Range(pubCidr) {
      if port == 22 {
        assert RuleAdmits(rules[0], protocol, port, peer);
      } else if port == 80 {
        assert RuleAdmits(rules[1], protocol, port, peer);
      } else if port == 443 {
        assert RuleAdmits(rules[2], protocol, port, peer);
      } else if port == 8080 {
        assert RuleAdmits(rules[3], protocol, port, peer);
      }
    }
  }

  /**
   * The database group admits TCP on port 3306 from members of the
   * application group and nothing else; in particular no address range.
   */
  lemma DatabaseAdmits(protocol: string, port: int, peer: Peer)
    ensures Admits(DatabaseIngress(), protocol, port, peer) <==>
      protocol == "tcp" && port == 3306 && peer == Group(AppSecurityGroupKey)
  {
    var rules := DatabaseIngress();
    if Admits(rules, protocol, port, peer) {
      var k :| 0 <= k < |rules| && RuleAdmits(rules[k], protocol, port, peer);
      assert k == 0;
      assert "tcp" != "-1";
    }
    if protocol == "tcp" && port == 3306 && peer == Group(AppSecurityGroupKey) {
      assert RuleAdmits(rules[0], protocol, port, peer);
    }
  }

  /** Egress lets every protocol and port out, towards `pubCIDR` only. */
  lemma EgressAdmits(pubCidr: string, protocol: string, port: int, peer: Peer)
    ensures Admits(AllTrafficTo(pubCidr), protocol, port, peer) <==> peer == Range(pubCidr)
  {
    var rules := AllTrafficTo(pubCidr);
    if peer == Range(pubCidr) {
      assert RuleAdmits(rules[0], protocol, port, peer);
    }
  }

  /** The groups refer to the VPC, and the database group to the application group as well. */
  lemma SecurityGroupTargets(vpc: Ref, pubCidr: string)
    ensures Targets(AppSecurityGroupDecl(vpc, pubCidr).args) == {vpc.target}
    ensures Targets(DatabaseSecurityGroupDecl(vpc, pubCidr).args) == {vpc.target, AppSecurityGroupKey}
  {
    var app, egress := AppIngress(pubCidr), AllTrafficTo(pubCidr);
    assert app[1..][1..][1..][1..] == [];
    assert RuleRefs(app[1..][1..][1..]) == [];
    assert RuleRefs(app[1..][1..]) == [];
    assert RuleRefs(app) == [];
    assert egress[1..] == [] && RuleRefs(egress) == [];
    var db := DatabaseIngress();
    assert db[1..] == [];
    assert RuleRefs(db) == [Ref(AppSecurityGroupKey, Id)];
    assert RefsOf(AppSecurityGroupDecl(vpc, pubCidr).args) == [vpc];
    assert RefsOf(DatabaseSecurityGroupDecl(vpc, pubCidr).args) == [vpc, Ref(AppSecurityGroupKey, Id)];
  }
}
