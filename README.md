# Network plan of the Pulumi web-application stack

This project models `createInstance` in `index.js`, together with the VPC and
internet gateway declared at the top of that file. The program is a Pulumi
program: it does not create cloud resources itself. It declares them, in
program order, by calling resource constructors. The model therefore treats
one run of the program as the **plan** it leaves behind: a sequence of
declarations. Each declaration has a resource kind, a logical name and its
arguments. An argument that reads another resource's output (`vpc.id`,
`publicRouteTable.routeTableId`, `mariaDbParameterGroup.name`) is a
*reference* to that resource's key. A key is a kind and a logical name, the
way Pulumi identifies a resource.

A run declares the following, in this order:

- the VPC and the internet gateway;
- the public route table, which is made the VPC's main table, and the
  private route table;
- for each of `min(zones, subnets)` iterations: a public and a private `/24`
  subnet in zone `i`, each associated with its tier's table;
- the application and database security groups and the MariaDB parameter
  group;
- the database subnet group over private subnets 0 and 1, the MariaDB
  instance, and the EC2 instance in public subnet 0.

A run stops early in two cases. If the zone query is rejected, only the VPC
and the gateway remain. If the loop made `n < 2` subnet pairs, the subnet
group reads `.id` of `privateSubnetList[n]`, which is `undefined` (entry 0
with no pair, entry 1 with one), and the run stops with a TypeError at
`index.js:188`.

Four things the program does that a reader might not expect:

- Both security groups' egress rule lets traffic out towards `pubCIDR` only,
  not towards every address (index.js:127-134, 163-170).
- With fewer than two subnet pairs the run stops at index.js:188. By then
  both security groups and the parameter group are already declared.
- The program never checks that the subnet blocks fit into the address
  space. `Topology.AddressSpaceSuffices` states exactly when the blocks it
  declares are valid.
- The third octet of private subnet `i` is `i + parseInt(subnets)`
  (index.js:78): it is offset by the requested count, not by the number of
  zones or of iterations. With 5 requested and 2 zones the private octets
  are 5 and 6.

The proved properties:

- how a run ends;
- every reference names a resource declared earlier in the plan;
- no key is declared twice exactly when the zone query was rejected or the
  two route tables have different names, and the same holds for the type and
  name strings Pulumi receives;
- each subnet's zone, public-address flag and CIDR block, and that the blocks
  are pairwise disjoint;
- the public and private subnet lists stay index-aligned;
- when the two route tables have different names, each subnet is associated
  with exactly one route table, the right one for its tier;
- the main route table is the public one;
- the rules of both security groups, stated as exactly which traffic they
  admit;
- how the database and the instance are placed and wired.

Modules:

- `Numerals` (numerals.dfy): decimal rendering of naturals and parsing it back.
- `Cidr` (cidr.dfy): dotted-quad CIDR strings and IPv4 address blocks.
- `Resources` (resources.dfy): declarations, keys, references and facts about
  plans in general.
- `Topology` (topology.dfy): the network, the routing and the subnet loop.
- `Security` (security.dfy): the two security groups.
- `Deployment` (deployment.dfy): the whole run, `Plan` and `CreateInstance`.
- `Guarantees` (guarantees.dfy): what a run guarantees.

The external inputs are parameters:

- the configuration values (`Topology.Config`);
- the outcome of `aws.getAvailabilityZones()` (`Deployment.ZoneQuery`);
- the AMI id that `aws.ec2.getAmi` yields.

## Model

| member | source | states |
|---|---|---|
| Numerals.Decimal | index.js:64 | definition: the decimal digits of a natural, as `${i}` writes a loop counter |
| Numerals.DigitChar | index.js:64 | the character of a digit is a decimal digit whose code is `'0'` plus the digit |
| Numerals.DigitValue | index.js:64 | the value of a digit character is below 10 and renders back to that character |
| Numerals.ValueOfDecimal | index.js:64 | the decimal rendering of `i` in a template literal is a non-empty digit string whose value is `i` |
| Numerals.DecimalInjective | index.js:64 | two naturals render to the same decimal string exactly when they are equal |
| Numerals.LeadingDigits | index.js:78 | the length of the leading digit run: those characters are digits and the next is not |
| Numerals.LeadingDigitsOfDigits | index.js:78 | a digit string followed by a non-digit has exactly its own length of leading digits |
| Numerals.ParseDecimal | index.js:78 | reading a number back from a rendered decimal followed by a non-digit yields the number and the rest |
| Numerals.SamePrefixNames | index.js:64 | `prefix + i` and `prefix + j` are the same name exactly when `i == j` |
| Numerals.DivergingPrefixNames | index.js:76 | names whose prefixes differ at some position are different whatever follows |
| Cidr.SubnetCidr | index.js:64-81 | definition: the text `10.0.${octet}.0/24` |
| Cidr.ParseFieldDecimal | index.js:66 | a rendered field followed by its separator parses back to its value and the rest |
| Cidr.ParseDotted | index.js:66 | every block written as `a.b.c.d/p` parses back to itself |
| Cidr.ParseSubnetCidr | index.js:64-81 | the template `10.0.${octet}.0/24` denotes the block 10.0.octet.0/24 |
| Cidr.SubnetCidrInjective | index.js:64-81 | two subnet templates give the same string exactly when their octets are equal |
| Cidr.Pow2 | index.js:66 | a power of two is at least 1 |
| Cidr.Pow2Values | index.js:66 | 2^8 = 256 and 2^16 = 65536, the sizes of /24 blocks and of 10.0.0.0/16 |
| Cidr.SubnetBlockWellFormed | index.js:64-81 | 10.0.octet.0/24 is a valid network exactly when octet < 256, and then lies inside 10.0.0.0/16 |
| Cidr.SubnetBlocksDisjoint | index.js:64-81 | subnet blocks with different octets share no address |
| Resources.Text | index.js:63-93 | definition: the name string Pulumi receives, either a configuration string, a name written in the program, or a loop prefix followed by the counter |
| Resources.CountedTextInjective | index.js:63-93 | the loop's names `publicsubnet${i}`, `private-subnet-${i}`, `public-association-${i}`, `private-association-${i}` coincide exactly when prefix and counter agree |
| Resources.Lookup | index.js:24-221 | finding a key in a plan yields a declaration of that key, and nothing exactly when the key is not declared |
| Resources.KeysConcat | index.js:24-221 | the keys of two plans joined are the union of their keys |
| Resources.KeysAt | index.js:24-221 | a key is declared exactly when some position of the plan declares it |
| Resources.ResolvesMonotonic | index.js:24-221 | a plan whose references resolve against some keys still resolves against more keys |
| Resources.ResolvesConcat | index.js:24-221 | two plans joined resolve exactly when the first resolves and the second resolves against the first's keys as well |
| Resources.ResolvesAt | index.js:24-221 | in a resolving plan, every key a declaration refers to was given or is declared at an earlier position |
| Resources.UniqueConcat | index.js:24-221 | two plans joined repeat no key exactly when neither does and they share no key |
| Resources.UniqueAt | index.js:24-221 | in a plan that repeats no key, declarations at different positions have different keys |
| Resources.DuplicateNotUnique | index.js:24-221 | two positions with the same key make a plan not unique |
| Resources.Registered | index.js:24-221 | definition: the resource type and the name string a declaration is registered under |
| Resources.UniquelyRegistered | index.js:24-221 | definition: no two declarations are registered under the same type and name string |
| Resources.NamedByForm | index.js:24-221 | definition: network and route-table resources are named by configuration strings, subnets and associations by counters, the rest by names written in the program |
| Resources.LiteralTextInjective | index.js:98-221 | the six names written in the program are pairwise different strings |
| Resources.TextInjectiveByForm | index.js:24-221 | two keys of one kind named in that kind's form have the same name string exactly when they are the same key |
| Resources.UniquelyRegisteredUnique | index.js:24-221 | a plan that registers no type and name string twice declares no key twice |
| Resources.UniquelyRegisteredByForm | index.js:24-221 | when every key is named in its kind's form, declaring no key twice and registering no type and name string twice are the same |
| Resources.LookupConcat | index.js:24-221 | looking a key up in two plans joined finds the first plan's declaration when it has one, else the second's |
| Resources.AssociationsConcat | index.js:85-93 | the route tables associated with a subnet in two plans joined are the first's, then the second's |
| Resources.AssociationsJoin | index.js:85-93 | two plans that each associate a subnet with a table at most once, but not both, together associate it at most once |
| Resources.KeysAppend | index.js:24-221 | appending a declaration adds its key |
| Resources.UniqueAppend | index.js:24-221 | appending a declaration keeps the plan unique exactly when its key is new |
| Resources.ResolvesAppend | index.js:24-221 | an appended declaration resolves exactly when everything it refers to was declared or given before it |
| Resources.LookupAppend | index.js:24-221 | an appended declaration is found for its key only when the key is new |
| Resources.NoAssociations | index.js:85-93 | a plan without association declarations associates no subnet |
| Resources.StagesConcat | index.js:24-221 | plans whose kinds lie in consecutive stage ranges join into one range and share no key |
| Resources.LookupPastStages | index.js:24-221 | a prefix of earlier stages does not hide a key of a later stage |
| Resources.KeysPastStages | index.js:24-221 | a key of a later stage is declared in the joined plan exactly when the suffix declares it |
| Resources.UniqueByStages | index.js:24-221 | plans in consecutive stage ranges join into a unique plan exactly when each is unique |
| Resources.TwoDecls | index.js:24-34 | the keys, uniqueness, resolution and lookup of a two-declaration plan |
| Resources.ThreeKeys | index.js:41-59 | the keys of a three-declaration plan, unique exactly when they are pairwise different |
| Resources.ThreeResolves | index.js:41-59 | a three-declaration plan resolves exactly when each declaration refers only to the given keys and those before it |
| Resources.ThreeLookup | index.js:41-59 | looking a key up in a three-declaration plan finds the first declaration of that key |
| Resources.FourKeys | index.js:64-93 | the keys of a four-declaration plan, unique exactly when they are pairwise different |
| Resources.FourResolve | index.js:64-93 | a four-declaration plan whose declarations refer only to earlier keys resolves |
| Resources.FourAssociations | index.js:85-93 | the associations of a subnet in a four-declaration plan, declaration by declaration |
| Topology.SubnetCount | index.js:61 | definition: `Math.min` of the zone count and the requested number |
| Topology.Iterations | index.js:61-63 | the loop runs at most once per availability zone |
| Topology.SubnetCountIsMin | index.js:61 | the count is at most the zone count and at most the requested number, and equal to one of them |
| Topology.IterationsBounds | index.js:61-63 | the loop runs once per zone or once per requested pair, whichever is fewer, and never when the requested number is negative |
| Topology.NetworkDecls | index.js:24-34 | definition: the VPC with the configured block, and the internet gateway in it |
| Topology.RoutingDecls | index.js:41-59 | definition: the public table with its internet route, the main association giving the VPC that table, and the private table with no route |
| Topology.Octet | index.js:64-81 | definition: the third octet `i` of a public block and `i + subnets` of a private one |
| Topology.TableRef | index.js:85-93 | definition: a public association reads the main association's `routeTableId`, a private one the private table's `id` |
| Topology.SubnetDecl | index.js:64-81 | definition: the tier's i-th subnet |
| Topology.AssociationDecl | index.js:85-93 | definition: the association of the tier's i-th subnet with the tier's table |
| Topology.Iteration | index.js:64-93 | definition: the four declarations of one iteration, in program order |
| Topology.SubnetList | index.js:74-83 | definition: the tier's subnets of the first n iterations, as the two lists collect them |
| Topology.LoopDecls | index.js:63-94 | definition: everything the first n iterations declare |
| Topology.DeclareSubnets | index.js:61-94 | the loop leaves two subnet lists of one entry per iteration, the i-th entry of each being the tier's i-th subnet, and declares the four resources of each iteration in program order |
| Topology.LoopStep | index.js:64-93 | iteration i declares `publicsubnet${i}` in block i with public addresses, `private-subnet-${i}` in block i+subnets without, both in zone `names[i]`, then their associations with the main association's `routeTableId` and the private table's `id`, appended to what came before |
| Topology.SubnetDeclFacts | index.js:64-81 | the tier's i-th subnet has its counted name, belongs to the VPC, lies in zone `names[i]`, and gives public addresses on launch exactly in the public tier |
| Topology.SubnetDeclBlock | index.js:64-81 | the i-th public subnet's block string denotes 10.0.i.0/24 and the i-th private one's 10.0.(i+subnets).0/24 |
| Topology.OctetsDistinct | index.js:64-81 | within the loop, two subnets have the same third octet exactly when they are the same subnet |
| Topology.SubnetBlocksPairwiseDisjoint | index.js:63-81 | two different subnets of the loop have different CIDR strings and address blocks that share no address |
| Topology.AddressSpaceSuffices | index.js:61-81 | all the loop's blocks are valid networks exactly when the loop does not run or `subnets + n <= 256`, and then they all lie inside 10.0.0.0/16 |
| Topology.SubnetListAt | index.js:74-83 | a subnet list of n iterations has n entries, the k-th being the tier's k-th subnet |
| Topology.ListsAligned | index.js:74-83 | entry k of the two lists are subnets in the same zone `names[k]`, the public one with public addresses and the private one without |
| Topology.LoopDeclAt | index.js:63-94 | n iterations declare 4n resources, position t being declaration t mod 4 of iteration t div 4 |
| Topology.IterationUnique | index.js:64-93 | one iteration declares four different keys: its two subnets and its two associations |
| Topology.LoopNames | index.js:63-94 | n iterations declare only counted names below n, and only subnets and associations |
| Topology.IterationNames | index.js:64-93 | iteration i declares only counted names with counter i, and only subnets and associations |
| Topology.CountedApart | index.js:63-94 | plans whose counted names lie below n and at n or above share no key |
| Topology.NamesConcat | index.js:63-94 | joining loop plans keeps names below the bound and kinds within subnets and associations |
| Topology.LoopKeysLater | index.js:63-94 | n iterations do not declare the subnet or association of any later iteration |
| Topology.LoopUnique | index.js:63-94 | the loop never declares the same key twice |
| Topology.LoopUniqueStep | index.js:63-94 | one more iteration keeps the loop's plan free of repeated keys |
| Topology.UniqueCountedJoin | index.js:63-94 | unique plans with counted names below and at or above a bound join into a unique plan |
| Topology.IterationResolves | index.js:64-93 | an iteration refers only to the VPC, the main association, the private table and its own subnets, each declared before the reference |
| Topology.LoopResolves | index.js:63-94 | every reference of the loop names the VPC, the main association, the private table or a subnet declared earlier |
| Topology.EachIterationResolves | index.js:63-94 | when each iteration resolves against the keys declared before the loop, the whole loop does |
| Topology.IterationAssociations | index.js:85-93 | iteration i associates subnet j of a tier with the tier's table once when `i == j`, and otherwise not at all |
| Topology.LoopAssociations | index.js:63-94 | n iterations associate the tier's i-th subnet with the tier's table exactly once when `i < n`, and otherwise not at all |
| Topology.AssociatedInOneIteration | index.js:63-94 | a subnet associated in iteration i alone is associated exactly once in the loop when i < n |
| Topology.AssociationsStep | index.js:63-94 | one more iteration adds the subnet's association exactly when it is that subnet's iteration |
| Topology.IterationLookup | index.js:64-81 | iteration i declares the tier's i-th subnet |
| Topology.LoopLookup | index.js:63-94 | after n iterations the tier's i-th subnet, for i < n, is found as declared by iteration i |
| Topology.LoopLookupLast | index.js:63-94 | the last iteration's subnets are found as it declared them |
| Security.AppIngress | index.js:101-126 | definition: the four TCP rules of the application group |
| Security.AllTrafficTo | index.js:127-134 | definition: the egress rule for every protocol towards `pubCIDR` |
| Security.DatabaseIngress | index.js:155-161 | definition: the MariaDB rule with the application group as its peer |
| Security.AppSecurityGroupDecl | index.js:98-135 | definition: the application group in the VPC |
| Security.DatabaseSecurityGroupDecl | index.js:150-172 | definition: the database group in the VPC |
| Security.AppIngressRules | index.js:101-126 | the application group's ingress is four single-port TCP rules, for ports 22, 80, 443 and 8080 in that order, each from `pubCIDR` only |
| Security.AppAdmits | index.js:98-135 | the application group admits a connection exactly when it is TCP on port 22, 80, 443 or 8080 from `pubCIDR` |
| Security.DatabaseAdmits | index.js:155-161 | the database group admits a connection exactly when it is TCP on port 3306 from the application group; it admits no address range |
| Security.EgressAdmits | index.js:127-134 | the egress rule, the same for both groups (also index.js:163-170), lets every protocol and port out towards `pubCIDR` and towards nothing else |
| Security.SecurityGroupTargets | index.js:98-172 | the application group refers to the VPC alone, and the database group to the VPC and the application group |
| Deployment.Prelude | index.js:24-59 | definition: the network and routing declarations before the loop |
| Deployment.GroupDecls | index.js:98-185 | definition: the two security groups and the parameter group |
| Deployment.BeforeSubnetGroup | index.js:24-185 | definition: everything a run whose zone query succeeds declares before index.js:188 |
| Deployment.DataTierDecls | index.js:187-221 | definition: the subnet group over private subnets 0 and 1, the database in it, and the instance in public subnet 0 |
| Deployment.Plan | index.js:24-221 | definition: the run for a configuration, a zone-query outcome and an AMI id, aborted or completed |
| Deployment.CreateInstance | index.js:24-221 | the run, declaration by declaration, equals the plan `Plan` describes |
| Deployment.PreludeKeys | index.js:24-59 | the five declarations before the loop declare the VPC, gateway, public table, main association and private table, with no repeated key exactly when the two route tables have different names |
| Deployment.PreludeKinds | index.js:24-59 | the declarations before the loop are network and routing resources, neither subnets nor associations |
| Deployment.PreludeResolves | index.js:24-59 | each declaration before the loop refers only to declarations before it |
| Deployment.PreludeLookup | index.js:24-59 | looking a key up before the loop finds its first declaration there, and nothing for any other key |
| Deployment.GroupKeys | index.js:98-185 | the two security groups and the parameter group have three different keys and none is a subnet or an association |
| Deployment.GroupLookup | index.js:98-185 | looking up those three keys finds their declarations, and nothing for any other key |
| Deployment.GroupResolves | index.js:98-185 | the security groups refer only to the VPC and, for the database group, the application group |
| Deployment.DataTierKeys | index.js:187-221 | the subnet group, the database and the instance have three different keys and none is a subnet or an association |
| Deployment.DataTierLookup | index.js:187-221 | looking those three keys up finds their declarations, and nothing for any other key |
| Deployment.DataTierResolves | index.js:187-221 | the data tier refers only to the VPC, private subnets 0 and 1, public subnet 0, the security groups, the parameter group and its own subnet group |
| Guarantees.Tail | index.js:98-221 | definition: what a run declares after the loop, up to where it stops |
| Guarantees.PlanShape | index.js:24-221 | a run whose zone query succeeds declares the prelude, then the loop, then the tail |
| Guarantees.HeadStages | index.js:24-94 | everything up to the end of the loop is network, routing, subnet or association |
| Guarantees.TailKeys | index.js:98-221 | after the loop a run declares the two groups and the parameter group, and the data tier only with two subnet pairs or more |
| Guarantees.TailUnique | index.js:98-221 | after the loop a run repeats no key and declares only groups, the database and the instance |
| Guarantees.PreludeFirst | index.js:24-59 | a key declared before the loop is found in the run as declared there |
| Guarantees.PlanOutcome | index.js:37-192 | a run completes exactly when the zone query succeeds and the loop made two subnet pairs or more; a rejected query leaves only the VPC and gateway; fewer pairs stop the run at the missing private subnet's index |
| Guarantees.PlanKeys | index.js:24-221 | the keys of a run are those declared up to the end of the loop, then those after it |
| Guarantees.PlanStopsBeforeDataTier | index.js:150-192 | with fewer than two pairs the run has declared both security groups and the parameter group, but no subnet group, database or instance |
| Guarantees.PlanDeclaresDataTier | index.js:187-221 | with two pairs or more the run declares the subnet group, the database and the instance |
| Guarantees.HeadResolves | index.js:24-94 | up to the end of the loop, every reference names an earlier declaration |
| Guarantees.TailResolves | index.js:98-221 | after the loop every reference names the VPC, a loop subnet, or an earlier declaration |
| Guarantees.PlanResolves | index.js:24-221 | in every run, completed or cut short, every reference names a resource declared earlier |
| Guarantees.HeadUnique | index.js:24-94 | the plan up to the end of the loop repeats no key exactly when the two route tables have different names |
| Guarantees.PlanUnique | index.js:24-221 | a run declares no key twice exactly when its zone query was rejected or the two route tables have different names |
| Guarantees.HeadTailUnique | index.js:24-221 | the three parts of a run together repeat no key exactly when the two route tables have different names |
| Guarantees.PlanNamedByForm | index.js:24-221 | every key of every run is named in its kind's form |
| Guarantees.PreludeNamedByForm | index.js:24-59 | the network and routing resources are named by configuration strings |
| Guarantees.LoopNamedByForm | index.js:63-94 | the loop names every subnet and association with its counter |
| Guarantees.TailNamedByForm | index.js:98-221 | the groups, the database and the instance have names written in the program |
| Guarantees.PlanUniquelyRegistered | index.js:24-221 | a run registers no resource type and name string twice exactly when its zone query was rejected or the two route tables have different names |
| Guarantees.MainTableIsPublic | index.js:41-55 | the main association is declared for the VPC with the public table's id, so its `routeTableId` is the public table, whose only route sends `pubCIDR` to the internet gateway |
| Guarantees.TailKinds | index.js:98-221 | after the loop no declaration is a subnet or an association |
| Guarantees.SubnetPosition | index.js:63-94 | every subnet in a run is one the loop declared, at position 5+4i for the public and 6+4i for the private subnet of iteration i |
| Guarantees.PlanAssociations | index.js:85-93 | a run associates the tier's i-th subnet with the tier's table once when `i < n`, and otherwise not at all |
| Guarantees.SubnetRouting | index.js:41-93 | with distinct table names, every subnet is associated with exactly one table: with public addresses, the public table routing `pubCIDR` to the gateway; without, the private table with no route |
| Guarantees.PlanSubnetLookup | index.js:63-94 | a loop subnet is found in a run as the loop declared it |
| Guarantees.TailFirst | index.js:98-221 | a key of a group, the database or the instance is found in a run where the tail declares it |
| Guarantees.PastHead | index.js:24-94 | no declaration up to the end of the loop has a kind of the tail |
| Guarantees.TailLookup | index.js:98-221 | looking a key up after the loop finds the group declaration, or with two pairs or more the data-tier declaration, or nothing |
| Guarantees.DatabaseSubnets | index.js:187-188 | the subnet group lists private subnets 0 and 1, which lie in zones `names[0]` and `names[1]` and give no public address |
| Guarantees.DatabaseSubnetGroup | index.js:187-188 | the subnet group lists exactly private subnets 0 and 1 |
| Guarantees.DatabaseIsolation | index.js:150-210 | the database is in that subnet group, reads the parameter group's name, is not publicly accessible and is guarded by the database group alone, which admits exactly TCP on 3306 from the application group |
| Guarantees.InstancePlacement | index.js:98-221 | the instance runs the given AMI with the configured user data in public subnet 0, in zone `names[0]` with public addresses, guarded by the application group alone, which admits exactly TCP on 22, 80, 443 and 8080 from `pubCIDR` |

## Left out

- Pulumi's engine is not modelled: registering resources, the provider calls, diffs against earlier deployments, creation order and creation failures. The model stops at the plan of declarations.
- `aws.getAvailabilityZones()` and `aws.ec2.getAmi` are I/O. The zone query's outcome and the AMI id are parameters. The image filter `amiName + "_*"` and a failure to find an image are not modelled.
- Reading the configuration (`pulumi.Config("env").require`, index.js:6-19) is out of scope. A missing key would fail before any declaration. `Config` holds the values already read.
- `subnets` is a string in the program. `Math.min` coerces it with `Number` and the private octet uses `parseInt` (index.js:61, 78). `Config.subnets` is one integer standing for both, so strings where the two conversions differ (`"2.5"`, `"2x"`, `""`) are not modelled.
- Topology.OctetsDistinct and Topology.SubnetBlocksPairwiseDisjoint rest on unbounded integers, while JavaScript numbers are doubles. `i + parseInt(subnets)` (index.js:78) is exact, and `${…}` writes it in plain decimal, only while `subnets` is below 2^53. With `subnets = 2^53` and two zones, both private subnets get the text `10.0.9007199254740992.0/24`. Beyond that bound the distinct texts the model proves are not the program's. Every such block is an invalid network anyway (`Topology.AddressSpaceSuffices`).
- The asynchronous structure is not modelled. The loop runs inside `.then`, and the model does not separate the `await` from the code after it. Output values (`vpc.id` and the like) are shown as references to the resource, not as resolved values.
- Literal settings that nothing reads are left out. These include the VPC's `instanceTenancy` and tags, the subnets' `Type` tag, the descriptions, the parameter group's family and time zone, the subnet group's tag, and the database's engine, class, identifier, user, password, database name, storage size and snapshot flag. The instance's key pair and instance type are left out too. The database's `multiAz` and `publiclyAccessible` flags are modelled.
- The VPC's configured `vpcCidr` is carried as a string and is not related to `10.0.0.0/16`. The subnet templates are fixed to `10.0.x.0/24`, whatever the VPC's block.
- Security group peers are compared by their CIDR string. `pubCIDR` is not parsed, so a connection from another range that lies inside it is not counted as admitted.
- `dbSubnetGroupName` receives the subnet group resource itself (index.js:203). It is modelled as a reference to that resource's `Id`.
- The top-level call `createInstance()` leaves a rejected promise unhandled. The model reports it as an aborted run and does not model Node's reaction to it.
