/**
 * Shard validation and rebalancing suggestions of the Prometheus federation
 * (internal/federation/shard.go; the shard record is that of internal/federation/types.go).
 */
module FederationShard {
  import opened GoStrings
  import opened Seqs

  /** `ShardConfig`, with its Prometheus block flattened into the record. */
  datatype ShardConfig = ShardConfig(name: string, nodes: seq<string>, racks: seq<string>,
                                     port: int, storagePath: string, retention: string)

  // ---------------------------------------------------------------- Validate

  /** The errors of `Validate` and `ValidateAll`; Message gives the text Go formats for each. */
  datatype ShardError =
    | NameRequired
    | NoNodes(shard: string)
    | InvalidPort(shard: string, port: int)
    | NoStoragePath(shard: string)
    | DuplicateName(shard: string)
    | PortConflict(port: int, existing: string, shard: string)
    | NodeConflict(node: string, existing: string, shard: string)

  function Message(e: ShardError): string {
    match e
    case NameRequired => "shard name is required"
    case NoNodes(n) => "shard " + n + " has no nodes assigned"
    case InvalidPort(n, p) => "shard " + n + " has invalid port: " + IntToString(p)
    case NoStoragePath(n) => "shard " + n + " has no storage path"
    case DuplicateName(n) => "duplicate shard name: " + n
    case PortConflict(p, e, n) => "port " + IntToString(p) + " used by both " + e + " and " + n
    case NodeConflict(x, e, n) => "node " + x + " assigned to both " + e + " and " + n
  }

  predicate ValidPort(port: int) { 0 < port <= 65535 }

  /** `ShardValidator.Validate`: one error per broken requirement, in the order checked. */
  function Validate(shard: ShardConfig): (errs: seq<ShardError>)
    ensures errs == [] <==> shard.name != "" && shard.nodes != [] && ValidPort(shard.port) && shard.storagePath != ""
    ensures shard.name == "" ==> NameRequired in errs
    ensures shard.nodes == [] ==> NoNodes(shard.name) in errs
    ensures !ValidPort(shard.port) ==> InvalidPort(shard.name, shard.port) in errs
    ensures shard.storagePath == "" ==> NoStoragePath(shard.name) in errs
    ensures |errs| <= 4
  {
    (if shard.name == "" then [NameRequired] else [])
    + (if |shard.nodes| == 0 then [NoNodes(shard.name)] else [])
    + (if shard.port <= 0 || shard.port > 65535 then [InvalidPort(shard.name, shard.port)] else [])
    + (if shard.storagePath == "" then [NoStoragePath(shard.name)] else [])
  }

  // ---------------------------------------------------------------- ValidateAll

  /** The three seen-maps of `ValidateAll`. */
  datatype Seen = Seen(ports: map<int, string>, nodes: map<string, string>, names: set<string>)

  /** The node map after assigning the nodes `ns` to the shard `name`, one by one. */
  function NodeMap(m: map<string, string>, name: string, ns: seq<string>): (r: map<string, string>)
    ensures forall n :: n in r <==> n in m || n in ns
  {
    if ns == [] then m else NodeMap(m, name, ns[..|ns| - 1])[ns[|ns| - 1] := name]
  }

  /** The node conflicts the inner loop of `ValidateAll` reports for the nodes `ns` of shard `name`. */
  function NodeErrors(m: map<string, string>, name: string, ns: seq<string>): seq<ShardError> {
    if ns == [] then []
    else
      var m1 := NodeMap(m, name, ns[..|ns| - 1]);
      var n := ns[|ns| - 1];
      NodeErrors(m, name, ns[..|ns| - 1]) + (if n in m1 then [NodeConflict(n, m1[n], name)] else [])
  }

  /** The errors one iteration of the outer loop of `ValidateAll` appends. */
  function StepErrors(seen: Seen, shard: ShardConfig): seq<ShardError> {
    Validate(shard)
    + (if shard.name in seen.names then [DuplicateName(shard.name)] else [])
    + (if shard.port in seen.ports then [PortConflict(shard.port, seen.ports[shard.port], shard.name)] else [])
    + NodeErrors(seen.nodes, shard.name, shard.nodes)
  }

  function Enter(seen: Seen, shard: ShardConfig): Seen {
    Seen(seen.ports[shard.port := shard.name], NodeMap(seen.nodes, shard.name, shard.nodes), seen.names + {shard.name})
  }

  /** The seen-maps after the given shards. */
  function SeenAll(shards: seq<ShardConfig>): Seen {
    if shards == [] then Seen(map[], map[], {})
    else Enter(SeenAll(shards[..|shards| - 1]), shards[|shards| - 1])
  }

  /** The errors `ValidateAll` returns for the given shards. */
  function AllErrors(shards: seq<ShardConfig>): seq<ShardError> {
    if shards == [] then []
    else AllErrors(shards[..|shards| - 1]) + StepErrors(SeenAll(shards[..|shards| - 1]), shards[|shards| - 1])
  }

  /** The inner loop of `ValidateAll`: the node conflicts of one shard, and the node map after it. */
  method CheckNodes(nodes0: map<string, string>, name: string, ns: seq<string>)
    returns (errs: seq<ShardError>, nodes: map<string, string>)
    ensures errs == NodeErrors(nodes0, name, ns) && nodes == NodeMap(nodes0, name, ns)
  {
    errs, nodes := [], nodes0;
    var j := 0;
    while j < |ns|
      invariant 0 <= j <= |ns|
      invariant errs == NodeErrors(nodes0, name, ns[..j]) && nodes == NodeMap(nodes0, name, ns[..j])
    {
      var node := ns[j];
      assert ns[..j + 1][..j] == ns[..j];
      if node in nodes {
        errs := errs + [NodeConflict(node, nodes[node], name)];
      }
      nodes := nodes[node := name];
      j := j + 1;
    }
    assert ns[..j] == ns;
  }

  /** One iteration of the outer loop of `ValidateAll`: the errors of one shard, and the updated maps. */
  method CheckShard(ports0: map<int, string>, nodes0: map<string, string>, names0: set<string>, shard: ShardConfig)
    returns (step: seq<ShardError>, ports: map<int, string>, nodes: map<string, string>, names: set<string>)
    ensures step == StepErrors(Seen(ports0, nodes0, names0), shard)
    ensures Seen(ports, nodes, names) == Enter(Seen(ports0, nodes0, names0), shard)
  {
    var duplicate: seq<ShardError> := [];
    if shard.name in names0 {
      duplicate := [DuplicateName(shard.name)];
    }
    names := names0 + {shard.name};
    var conflict: seq<ShardError> := [];
    if shard.port in ports0 {
      conflict := [PortConflict(shard.port, ports0[shard.port], shard.name)];
    }
    ports := ports0[shard.port := shard.name];
    var nodeErrs;
    nodeErrs, nodes := CheckNodes(nodes0, shard.name, shard.nodes);
    step := Validate(shard) + duplicate + conflict + nodeErrs;
  }

  /** `ShardValidator.ValidateAll`. */
  method ValidateAll(shards: seq<ShardConfig>) returns (errs: seq<ShardError>)
    ensures errs == AllErrors(shards)
  {
    errs := [];
    var ports: map<int, string> := map[];
    var nodes: map<string, string> := map[];
    var names: set<string> := {};
    var i := 0;
    while i < |shards|
      invariant 0 <= i <= |shards|
      invariant errs == AllErrors(shards[..i]) && Seen(ports, nodes, names) == SeenAll(shards[..i])
    {
      var shard := shards[i];
      assert shards[..i + 1][..i] == shards[..i];
      var step;
      step, ports, nodes, names := CheckShard(ports, nodes, names, shard);
      errs := errs + step;
      assert AllErrors(shards[..i + 1]) == AllErrors(shards[..i]) + StepErrors(SeenAll(shards[..i]), shard);
      assert SeenAll(shards[..i + 1]) == Enter(SeenAll(shards[..i]), shard);
      i := i + 1;
    }
    assert shards[..i] == shards;
  }

  // ---------------------------------------------------------------- what ValidateAll finds

  function Names(shards: seq<ShardConfig>): (r: seq<string>)
    ensures |r| == |shards| && forall i :: 0 <= i < |shards| ==> r[i] == shards[i].name
  {
    if shards == [] then [] else Names(shards[..|shards| - 1]) + [shards[|shards| - 1].name]
  }

  function Ports(shards: seq<ShardConfig>): (r: seq<int>)
    ensures |r| == |shards| && forall i :: 0 <= i < |shards| ==> r[i] == shards[i].port
  {
    if shards == [] then [] else Ports(shards[..|shards| - 1]) + [shards[|shards| - 1].port]
  }

  /** Every node assignment, shard by shard. */
  function AllNodes(shards: seq<ShardConfig>): seq<string> {
    if shards == [] then [] else AllNodes(shards[..|shards| - 1]) + shards[|shards| - 1].nodes
  }

  /** A federation `ValidateAll` accepts: every shard valid, and no name, port or node used twice. */
  predicate Consistent(shards: seq<ShardConfig>) {
    AllValid(shards) && Distinct(Names(shards)) && Distinct(Ports(shards)) && Distinct(AllNodes(shards))
  }

  lemma {:induction false} SeenAllKeys(shards: seq<ShardConfig>)
    ensures forall x :: x in SeenAll(shards).names <==> x in Names(shards)
    ensures forall p :: p in SeenAll(shards).ports <==> p in Ports(shards)
    ensures forall n :: n in SeenAll(shards).nodes <==> n in AllNodes(shards)
  {
    if shards != [] {
      SeenAllKeys(shards[..|shards| - 1]);
    }
  }

  /** The inner loop reports nothing iff the shard's nodes are new and none is listed twice. */
  lemma {:induction false} NodeErrorsEmptyIff(m: map<string, string>, name: string, ns: seq<string>)
    ensures NodeErrors(m, name, ns) == [] <==> Distinct(ns) && forall n :: n in ns ==> n !in m
  {
    if ns != [] {
      var init := ns[..|ns| - 1];
      assert ns == init + [ns[|ns| - 1]];
      NodeErrorsEmptyIff(m, name, init);
      DistinctConcat(init, [ns[|ns| - 1]]);
    }
  }

  lemma StepErrorsEmptyIff(seen: Seen, shard: ShardConfig)
    ensures StepErrors(seen, shard) == [] <==>
      Validate(shard) == [] && shard.name !in seen.names && shard.port !in seen.ports
      && Distinct(shard.nodes) && forall n :: n in shard.nodes ==> n !in seen.nodes
  {
    NodeErrorsEmptyIff(seen.nodes, shard.name, shard.nodes);
  }

  /** A federation is consistent iff its shards but the last are, and the last is valid and new. */
  lemma ConsistentSnoc(shards: seq<ShardConfig>)
    requires shards != []
    ensures var init, last := shards[..|shards| - 1], shards[|shards| - 1];
      Consistent(shards) <==>
        Consistent(init) && Validate(last) == [] && last.name !in Names(init) && last.port !in Ports(init)
        && Distinct(last.nodes) && forall n :: n in last.nodes ==> n !in AllNodes(init)
  {
    var init, last := shards[..|shards| - 1], shards[|shards| - 1];
    DistinctSnoc(Names(init), last.name);
    DistinctSnoc(Ports(init), last.port);
    DistinctConcat(AllNodes(init), last.nodes);
    AllValidSnoc(shards);
  }

  predicate AllValid(shards: seq<ShardConfig>) {
    forall i :: 0 <= i < |shards| ==> Validate(shards[i]) == []
  }

  lemma AllValidSnoc(shards: seq<ShardConfig>)
    requires shards != []
    ensures AllValid(shards) <==> AllValid(shards[..|shards| - 1]) && Validate(shards[|shards| - 1]) == []
  {
    var init := shards[..|shards| - 1];
    assert forall i :: 0 <= i < |init| ==> init[i] == shards[i];
  }

  /** `ValidateAll` returns no error exactly for a consistent federation. */
  lemma {:induction false} ValidateAllEmptyIff(shards: seq<ShardConfig>)
    ensures AllErrors(shards) == [] <==> Consistent(shards)
  {
    if shards != [] {
      var init := shards[..|shards| - 1];
      ValidateAllEmptyIff(init);
      SeenAllKeys(init);
      StepErrorsEmptyIff(SeenAll(init), shards[|shards| - 1]);
      ConsistentSnoc(shards);
    }
  }

  /** What scanning shard k appends stays in the final error list. */
  lemma {:induction false} StepErrorsKept(shards: seq<ShardConfig>, k: nat)
    requires k < |shards|
    ensures forall e :: e in StepErrors(SeenAll(shards[..k]), shards[k]) ==> e in AllErrors(shards)
    decreases |shards|
  {
    var init := shards[..|shards| - 1];
    if k < |shards| - 1 {
      assert init[..k] == shards[..k] && init[k] == shards[k];
      StepErrorsKept(init, k);
    } else {
      assert init == shards[..k];
    }
  }

  /** Every per-shard error is among the errors of `ValidateAll`. */
  lemma ValidateAllKeepsShardErrors(shards: seq<ShardConfig>, k: nat, e: ShardError)
    requires k < |shards| && e in Validate(shards[k])
    ensures e in AllErrors(shards)
  {
    StepErrorsKept(shards, k);
  }

  /** A name used by an earlier shard is reported when it comes again. */
  lemma ValidateAllReportsDuplicateName(shards: seq<ShardConfig>, i: nat, k: nat)
    requires i < k < |shards| && shards[i].name == shards[k].name
    ensures DuplicateName(shards[k].name) in AllErrors(shards)
  {
    SeenAllKeys(shards[..k]);
    assert Names(shards[..k])[i] == shards[i].name;
    StepErrorsKept(shards, k);
  }

  /** A port used by an earlier shard is reported against the later one. */
  lemma ValidateAllReportsPortConflict(shards: seq<ShardConfig>, i: nat, k: nat)
    requires i < k < |shards| && shards[i].port == shards[k].port
    ensures exists existing :: PortConflict(shards[k].port, existing, shards[k].name) in AllErrors(shards)
  {
    SeenAllKeys(shards[..k]);
    assert Ports(shards[..k])[i] == shards[i].port;
    StepErrorsKept(shards, k);
    var seen := SeenAll(shards[..k]);
    assert PortConflict(shards[k].port, seen.ports[shards[k].port], shards[k].name) in StepErrors(seen, shards[k]);
  }

  lemma {:induction false} NodeErrorsReport(m: map<string, string>, name: string, ns: seq<string>, p: nat)
    requires p < |ns| && (ns[p] in m || ns[p] in ns[..p])
    ensures exists existing :: NodeConflict(ns[p], existing, name) in NodeErrors(m, name, ns)
  {
    var init := ns[..|ns| - 1];
    if p < |ns| - 1 {
      assert init[p] == ns[p] && init[..p] == ns[..p];
      NodeErrorsReport(m, name, init, p);
    } else {
      var m1 := NodeMap(m, name, init);
      assert ns[p] in m1;
      assert NodeConflict(ns[p], m1[ns[p]], name) in NodeErrors(m, name, ns);
    }
  }

  /** A node assigned to an earlier shard is reported against each later shard listing it. */
  lemma ValidateAllReportsNodeConflict(shards: seq<ShardConfig>, i: nat, k: nat, p: nat, q: nat)
    requires i < k < |shards| && p < |shards[i].nodes| && q < |shards[k].nodes|
    requires shards[i].nodes[p] == shards[k].nodes[q]
    ensures exists existing :: NodeConflict(shards[k].nodes[q], existing, shards[k].name) in AllErrors(shards)
  {
    var n := shards[k].nodes[q];
    assert n in AllNodes(shards[..k]) by {
      NodesOfShard(shards[..k], i, p);
    }
    SeenAllKeys(shards[..k]);
    var seen := SeenAll(shards[..k]);
    NodeErrorsReport(seen.nodes, shards[k].name, shards[k].nodes, q);
    var existing :| NodeConflict(n, existing, shards[k].name) in NodeErrors(seen.nodes, shards[k].name, shards[k].nodes);
    assert NodeConflict(n, existing, shards[k].name) in StepErrors(seen, shards[k]);
    StepErrorsKept(shards, k);
  }

  lemma {:induction false} NodesOfShard(shards: seq<ShardConfig>, i: nat, p: nat)
    requires i < |shards| && p < |shards[i].nodes|
    ensures shards[i].nodes[p] in AllNodes(shards)
  {
    var init := shards[..|shards| - 1];
    if i < |shards| - 1 {
      assert init[i] == shards[i];
      NodesOfShard(init, i, p);
    } else {
      assert shards[i].nodes[p] in shards[|shards| - 1].nodes;
    }
  }

  /** `ValidateAll` of no shards finds nothing. */
  lemma ValidateAllEmpty()
    ensures AllErrors([]) == []
  {
  }

  // ---------------------------------------------------------------- SuggestRebalance

  /** `NodeMove`. */
  datatype NodeMove = NodeMove(node: string, fromShard: string, toShard: string)

  function Min(a: int, b: int): int { if a < b then a else b }

  function TotalNodes(shards: seq<ShardConfig>): (n: nat) {
    if shards == [] then 0 else TotalNodes(shards[..|shards| - 1]) + |shards[|shards| - 1].nodes|
  }

  /** One move per node of `ns`, in order. */
  function Moves(ns: seq<string>, from: string, to: string): (ms: seq<NodeMove>)
    ensures |ms| == |ns|
  {
    if ns == [] then [] else Moves(ns[..|ns| - 1], from, to) + [NodeMove(ns[|ns| - 1], from, to)]
  }

  /** Every move of `Moves` goes from `from` to `to` and moves a node of `ns`. */
  lemma {:induction false} MovesMembers(ns: seq<string>, from: string, to: string)
    ensures forall m :: m in Moves(ns, from, to) ==> m.fromShard == from && m.toShard == to && m.node in ns
  {
    if ns != [] {
      MovesMembers(ns[..|ns| - 1], from, to);
    }
  }

  /** How many iterations `for k := 0; k < count && k < n; k++` makes. */
  function Steps(count: int, n: nat): (r: nat)
    ensures r <= n
  {
    if count <= 0 then 0 else Min(count, n)
  }

  /** The moves of source i and the excess it has left after destinations 0..j-1. */
  datatype DestState = DestState(moves: seq<NodeMove>, excess: int)

  /** The destination loop for source shard i as written: each destination gets the first nodes. */
  function DestScan(shards: seq<ShardConfig>, target: int, i: nat, j: nat): DestState
    requires i < |shards| && j <= |shards|
  {
    if j == 0 then DestState([], |shards[i].nodes| - target)
    else
      var st := DestScan(shards, target, i, j - 1);
      var deficit := target - |shards[j - 1].nodes|;
      if i == j - 1 || deficit <= 0 then st
      else
        var moveCount := Min(st.excess, deficit);
        var src := shards[i].nodes;
        DestState(st.moves + Moves(src[..Steps(moveCount, |src|)], shards[i].name, shards[j - 1].name),
                  st.excess - moveCount)
  }

  /** The source loop over sources 0..i-1. */
  function SourceScan(shards: seq<ShardConfig>, target: int, i: nat): seq<NodeMove>
    requires i <= |shards|
  {
    if i == 0 then []
    else
      SourceScan(shards, target, i - 1) + SourceBlock(shards, target, i - 1)
  }

  function Target(shards: seq<ShardConfig>): int
    requires shards != []
  {
    TotalNodes(shards) / |shards|
  }

  /** `ShardRebalancer.SuggestRebalance` as written. */
  function SuggestRebalance(shards: seq<ShardConfig>): seq<NodeMove> {
    if |shards| <= 1 then [] else SourceScan(shards, Target(shards), |shards|)
  }

  /** A move from a shard above the target to a different shard below it, of a node of the source. */
  predicate SensibleMove(shards: seq<ShardConfig>, target: int, m: NodeMove) {
    exists i, j :: 0 <= i < |shards| && 0 <= j < |shards| && MoveBetween(shards, target, m, i, j)
  }

  /** The move takes a node of shard i, above the target, to shard j, a different one below it. */
  predicate MoveBetween(shards: seq<ShardConfig>, target: int, m: NodeMove, i: int, j: int) {
    0 <= i < |shards| && 0 <= j < |shards| && i != j
    && m.fromShard == shards[i].name && m.toShard == shards[j].name
    && |shards[i].nodes| > target && |shards[j].nodes| < target
    && m.node in shards[i].nodes
  }

  lemma {:induction false} DestScanSensible(shards: seq<ShardConfig>, target: int, i: nat, j: nat)
    requires i < |shards| && j <= |shards| && |shards[i].nodes| > target
    ensures forall m :: m in DestScan(shards, target, i, j).moves ==> SensibleMove(shards, target, m)
  {
    if j > 0 {
      DestScanSensible(shards, target, i, j - 1);
      var st := DestScan(shards, target, i, j - 1);
      var deficit := target - |shards[j - 1].nodes|;
      if i != j - 1 && deficit > 0 {
        var src := shards[i].nodes;
        var block := Moves(src[..Steps(Min(st.excess, deficit), |src|)], shards[i].name, shards[j - 1].name);
        MovesMembers(src[..Steps(Min(st.excess, deficit), |src|)], shards[i].name, shards[j - 1].name);
        forall m | m in block ensures SensibleMove(shards, target, m) {
          assert m.node in src;
          assert MoveBetween(shards, target, m, i, j - 1);
        }
      }
    }
  }

  lemma SourceScanSensible(shards: seq<ShardConfig>, target: int, i: nat)
    requires i <= |shards|
    ensures forall m :: m in SourceScan(shards, target, i) ==> SensibleMove(shards, target, m)
  {
    SourceScanBlocks(shards, target, i);
    forall m | m in SourceScan(shards, target, i) ensures SensibleMove(shards, target, m) {
      var bs := Blocks(shards, target, i);
      FlattenMember(bs, m);
      var k :| 0 <= k < |bs| && m in bs[k];
      SourceBlockSensible(shards, target, k);
    }
  }

  /** The blocks of sources 0..i-1, in order. */
  function Blocks(shards: seq<ShardConfig>, target: int, i: nat): (bs: seq<seq<NodeMove>>)
    requires i <= |shards|
    ensures |bs| == i && forall k :: 0 <= k < i ==> bs[k] == SourceBlock(shards, target, k)
  {
    seq(i, k requires 0 <= k < i => SourceBlock(shards, target, k))
  }

  /** The source loop's moves are its blocks one after another. */
  lemma {:induction false} SourceScanBlocks(shards: seq<ShardConfig>, target: int, i: nat)
    requires i <= |shards|
    ensures SourceScan(shards, target, i) == Flatten(Blocks(shards, target, i))
  {
    if i > 0 {
      SourceScanBlocks(shards, target, i - 1);
      var prev, block := Blocks(shards, target, i - 1), SourceBlock(shards, target, i - 1);
      BlocksSnoc(shards, target, i - 1);
      assert SourceScan(shards, target, i) == SourceScan(shards, target, i - 1) + block;
      FlattenSnoc(prev, block);
    }
  }

  lemma BlocksSnoc(shards: seq<ShardConfig>, target: int, i: nat)
    requires i < |shards|
    ensures Blocks(shards, target, i + 1) == Blocks(shards, target, i) + [SourceBlock(shards, target, i)]
  {
    var prev, bs := Blocks(shards, target, i), Blocks(shards, target, i + 1);
    var snoc := prev + [SourceBlock(shards, target, i)];
    assert |bs| == |snoc|;
    assert forall k :: 0 <= k < i + 1 ==> bs[k] == snoc[k];
  }

  /** The moves source i contributes: its destination loop when it is above the target, else none. */
  function SourceBlock(shards: seq<ShardConfig>, target: int, i: nat): seq<NodeMove>
    requires i < |shards|
  {
    if |shards[i].nodes| - target > 0 then DestScan(shards, target, i, |shards|).moves else []
  }

  lemma SourceBlockSensible(shards: seq<ShardConfig>, target: int, i: nat)
    requires i < |shards|
    ensures forall m :: m in SourceBlock(shards, target, i) ==> SensibleMove(shards, target, m)
  {
    if |shards[i].nodes| - target > 0 {
      DestScanSensible(shards, target, i, |shards|);
    }
  }

  /** Every suggested move takes a node of an overloaded shard to a different, underloaded shard. */
  lemma SuggestRebalanceSensible(shards: seq<ShardConfig>)
    requires |shards| > 1
    ensures forall m :: m in SuggestRebalance(shards) ==> SensibleMove(shards, Target(shards), m)
  {
    SourceScanSensible(shards, Target(shards), |shards|);
  }

  /** No suggestions for one shard or none. */
  lemma SuggestRebalanceSmall(shards: seq<ShardConfig>)
    requires |shards| <= 1
    ensures SuggestRebalance(shards) == []
  {
  }

  /** The method form of `SuggestRebalance`: the total, then sources in order. */
  method SuggestRebalanceLoops(shards: seq<ShardConfig>) returns (moves: seq<NodeMove>)
    ensures moves == SuggestRebalance(shards)
  {
    if |shards| <= 1 {
      return [];
    }
    var total := CountNodes(shards);
    var target := total / |shards|;
    moves := SourceLoop(shards, target);
  }

  /** The loop over source shards, with the target already computed. */
  method SourceLoop(shards: seq<ShardConfig>, target: int) returns (moves: seq<NodeMove>)
    ensures moves == SourceScan(shards, target, |shards|)
  {
    moves := [];
    var i := 0;
    while i < |shards|
      invariant 0 <= i <= |shards|
      invariant moves == Flatten(Blocks(shards, target, i))
    {
      var block := SourceStep(shards, target, i);
      BlocksSnoc(shards, target, i);
      FlattenSnoc(Blocks(shards, target, i), block);
      moves := moves + block;
      i := i + 1;
    }
    SourceScanBlocks(shards, target, |shards|);
  }

  /** One source shard: its destination loop when it is above the target. */
  method SourceStep(shards: seq<ShardConfig>, target: int, i: nat) returns (block: seq<NodeMove>)
    requires i < |shards|
    ensures block == SourceBlock(shards, target, i)
  {
    var excess := |shards[i].nodes| - target;
    block := [];
    if excess > 0 {
      block := DestinationLoop(shards, target, i);
    }
  }

  /** The first loop of `SuggestRebalance`: the number of node assignments. */
  method CountNodes(shards: seq<ShardConfig>) returns (total: nat)
    ensures total == TotalNodes(shards)
  {
    total := 0;
    var t := 0;
    while t < |shards|
      invariant 0 <= t <= |shards| && total == TotalNodes(shards[..t])
    {
      assert shards[..t + 1][..t] == shards[..t];
      total := total + |shards[t].nodes|;
      t := t + 1;
    }
    assert shards[..t] == shards;
  }

  /** The loop over destinations for the overloaded source i. */
  method DestinationLoop(shards: seq<ShardConfig>, target: int, i: nat) returns (moves: seq<NodeMove>)
    requires i < |shards|
    ensures moves == DestScan(shards, target, i, |shards|).moves
  {
    moves := [];
    var excess := |shards[i].nodes| - target;
    var j := 0;
    while j < |shards|
      invariant 0 <= j <= |shards|
      invariant DestState(moves, excess) == DestScan(shards, target, i, j)
    {
      if i != j {
        var deficit := target - |shards[j].nodes|;
        if deficit > 0 {
          var moveCount := Min(excess, deficit);
          var ms := FirstMoves(shards[i].nodes, moveCount, shards[i].name, shards[j].name);
          moves := moves + ms;
          excess := excess - moveCount;
        }
      }
      j := j + 1;
    }
  }

  /** The innermost loop: moves for the first `count` nodes of `src` (as written, always from 0). */
  method FirstMoves(src: seq<string>, count: int, from: string, to: string) returns (moves: seq<NodeMove>)
    ensures moves == Moves(src[..Steps(count, |src|)], from, to)
  {
    moves := [];
    var k := 0;
    while k < count && k < |src|
      invariant 0 <= k <= Steps(count, |src|)
      invariant moves == Moves(src[..k], from, to)
    {
      assert src[..k + 1][..k] == src[..k];
      moves := moves + [NodeMove(src[k], from, to)];
      k := k + 1;
    }
  }

  // ---------------------------------------------------------------- the repeated-node finding

  /** Three shards of which the first holds all three nodes: the target is 3 / 3 = 1. */
  function Lopsided(): seq<ShardConfig> {
    [ShardConfig("a", ["x", "y", "z"], [], 1, "/a", "7d"),
     ShardConfig("b", [], [], 2, "/b", "7d"),
     ShardConfig("c", [], [], 3, "/c", "7d")]
  }

  lemma LopsidedTarget()
    ensures Target(Lopsided()) == 1
  {
    var s := Lopsided();
    assert s[..1] == [s[0]] && s[..2] == [s[0], s[1]];
    assert s[..2][..1] == s[..1] && s[..1][..0] == [];
    assert TotalNodes(s[..1]) == 3;
    assert TotalNodes(s[..2]) == 3;
    assert TotalNodes(s) == 3;
  }

  /** As written, node x is suggested for both b and c. */
  lemma SuggestRebalanceRepeatsNode()
    ensures SuggestRebalance(Lopsided()) == [NodeMove("x", "a", "b"), NodeMove("x", "a", "c")]
  {
    var s := Lopsided();
    LopsidedTarget();
    assert s[0].nodes[..1] == ["x"];
    assert DestScan(s, 1, 0, 1) == DestState([], 2);
    assert DestScan(s, 1, 0, 2) == DestState([NodeMove("x", "a", "b")], 1);
    assert DestScan(s, 1, 0, 3) == DestState([NodeMove("x", "a", "b"), NodeMove("x", "a", "c")], 0);
    assert SourceScan(s, 1, 1) == [NodeMove("x", "a", "b"), NodeMove("x", "a", "c")];
    assert SourceScan(s, 1, 2) == SourceScan(s, 1, 1);
    assert SourceScan(s, 1, 3) == SourceScan(s, 1, 2);
  }

  /** The corrected destination loop: each destination continues after the nodes already given. */
  function DestScanFixed(shards: seq<ShardConfig>, target: int, i: nat, j: nat): (st: DestState)
    requires i < |shards| && j <= |shards|
    ensures |st.moves| <= |shards[i].nodes|
  {
    if j == 0 then DestState([], |shards[i].nodes| - target)
    else
      var st := DestScanFixed(shards, target, i, j - 1);
      var deficit := target - |shards[j - 1].nodes|;
      if i == j - 1 || deficit <= 0 then st
      else GiveFixed(st, shards[i].nodes, shards[i].name, shards[j - 1].name, deficit)
  }

  /** One destination of the corrected loop: the next nodes after those already moved. */
  function GiveFixed(st: DestState, src: seq<string>, from: string, to: string, deficit: int): (r: DestState)
    requires |st.moves| <= |src|
    ensures |r.moves| <= |src|
  {
    var moveCount := Min(st.excess, deficit);
    var moved := |st.moves|;
    DestState(st.moves + Moves(src[moved..moved + Steps(moveCount, |src| - moved)], from, to),
              st.excess - moveCount)
  }

  /** The corrected source loop. */
  function SourceScanFixed(shards: seq<ShardConfig>, target: int, i: nat): seq<NodeMove>
    requires i <= |shards|
  {
    if i == 0 then []
    else
      SourceScanFixed(shards, target, i - 1)
      + (if |shards[i - 1].nodes| - target > 0 then DestScanFixed(shards, target, i - 1, |shards|).moves else [])
  }

  /** `SuggestRebalance` with the correction. */
  function SuggestRebalanceFixed(shards: seq<ShardConfig>): seq<NodeMove> {
    if |shards| <= 1 then [] else SourceScanFixed(shards, Target(shards), |shards|)
  }

  /** The nodes a list of moves moves, in order. */
  function MovedNodes(ms: seq<NodeMove>): (r: seq<string>)
    ensures |r| == |ms|
  {
    if ms == [] then [] else MovedNodes(ms[..|ms| - 1]) + [ms[|ms| - 1].node]
  }

  lemma {:induction false} MovedNodesConcat(a: seq<NodeMove>, b: seq<NodeMove>)
    ensures MovedNodes(a + b) == MovedNodes(a) + MovedNodes(b)
  {
    if b != [] {
      var init := b[..|b| - 1];
      assert (a + b)[..|a + b| - 1] == a + init;
      MovedNodesConcat(a, init);
    } else {
      assert a + b == a;
    }
  }

  lemma {:induction false} MovedNodesOfMoves(ns: seq<string>, from: string, to: string)
    ensures MovedNodes(Moves(ns, from, to)) == ns
  {
    if ns != [] {
      var ms := Moves(ns, from, to);
      assert ms[..|ms| - 1] == Moves(ns[..|ns| - 1], from, to);
      MovedNodesOfMoves(ns[..|ns| - 1], from, to);
      assert ns == ns[..|ns| - 1] + [ns[|ns| - 1]];
    }
  }

  /** One corrected destination extends the moved prefix of the source. */
  lemma GiveFixedPrefix(st: DestState, src: seq<string>, from: string, to: string, deficit: int)
    requires |st.moves| <= |src| && MovedNodes(st.moves) == src[..|st.moves|]
    ensures var r := GiveFixed(st, src, from, to, deficit); MovedNodes(r.moves) == src[..|r.moves|]
  {
    var moved := |st.moves|;
    var c := Steps(Min(st.excess, deficit), |src| - moved);
    var block := Moves(src[moved..moved + c], from, to);
    assert GiveFixed(st, src, from, to, deficit).moves == st.moves + block;
    assert MovedNodes(st.moves + block) == src[..moved] + src[moved..moved + c] by {
      MovedNodesConcat(st.moves, block);
      MovedNodesOfMoves(src[moved..moved + c], from, to);
    }
    assert src[..moved] + src[moved..moved + c] == src[..moved + c];
  }

  /** The corrected loop for a source moves a prefix of its nodes, in order. */
  lemma {:induction false} DestScanFixedTakesPrefix(shards: seq<ShardConfig>, target: int, i: nat, j: nat)
    requires i < |shards| && j <= |shards|
    ensures MovedNodes(DestScanFixed(shards, target, i, j).moves)
      == shards[i].nodes[..|DestScanFixed(shards, target, i, j).moves|]
  {
    if j > 0 {
      DestScanFixedTakesPrefix(shards, target, i, j - 1);
      var st := DestScanFixed(shards, target, i, j - 1);
      var deficit := target - |shards[j - 1].nodes|;
      if i != j - 1 && deficit > 0 {
        GiveFixedPrefix(st, shards[i].nodes, shards[i].name, shards[j - 1].name, deficit);
      }
    }
  }

  lemma {:induction false} AllNodesSnoc(shards: seq<ShardConfig>, i: nat)
    requires i < |shards|
    ensures AllNodes(shards[..i + 1]) == AllNodes(shards[..i]) + shards[i].nodes
  {
    assert shards[..i + 1][..i] == shards[..i];
  }

  /** Appending a prefix of a new shard's nodes to moves drawn from the earlier shards keeps them distinct. */
  lemma DistinctExtend(moved: seq<string>, prior: seq<string>, src: seq<string>, k: nat)
    requires k <= |src| && Distinct(moved) && Distinct(prior + src)
    requires forall n :: n in moved ==> n in prior
    ensures Distinct(moved + src[..k]) && forall n :: n in moved + src[..k] ==> n in prior + src
  {
    DistinctConcat(prior, src);
    assert src == src[..k] + src[k..];
    DistinctConcat(src[..k], src[k..]);
    DistinctConcat(moved, src[..k]);
  }

  lemma {:induction false} SourceScanFixedDistinct(shards: seq<ShardConfig>, target: int, i: nat)
    requires i <= |shards| && Distinct(AllNodes(shards[..i]))
    ensures var ns := MovedNodes(SourceScanFixed(shards, target, i));
      Distinct(ns) && forall n :: n in ns ==> n in AllNodes(shards[..i])
  {
    if i > 0 {
      var src := shards[i - 1].nodes;
      AllNodesSnoc(shards, i - 1);
      assert Distinct(AllNodes(shards[..i - 1])) by {
        DistinctConcat(AllNodes(shards[..i - 1]), src);
      }
      SourceScanFixedDistinct(shards, target, i - 1);
      var prev := SourceScanFixed(shards, target, i - 1);
      var block := if |src| - target > 0 then DestScanFixed(shards, target, i - 1, |shards|).moves else [];
      assert SourceScanFixed(shards, target, i) == prev + block;
      assert MovedNodes(block) == src[..|block|] by {
        if |src| - target > 0 {
          DestScanFixedTakesPrefix(shards, target, i - 1, |shards|);
        }
      }
      MovedNodesConcat(prev, block);
      DistinctExtend(MovedNodes(prev), AllNodes(shards[..i - 1]), src, |block|);
    }
  }

  /** With the correction, no node is suggested twice when every node belongs to one shard once. */
  lemma SuggestRebalanceFixedDistinct(shards: seq<ShardConfig>)
    requires Distinct(AllNodes(shards))
    ensures Distinct(MovedNodes(SuggestRebalanceFixed(shards)))
  {
    if |shards| > 1 {
      assert shards[..|shards|] == shards;
      SourceScanFixedDistinct(shards, Target(shards), |shards|);
    }
  }

  /** The corrected loops on the same shards move two different nodes. */
  lemma SuggestRebalanceFixedOnLopsided()
    ensures SuggestRebalanceFixed(Lopsided()) == [NodeMove("x", "a", "b"), NodeMove("y", "a", "c")]
  {
    var s := Lopsided();
    LopsidedTarget();
    assert s[0].nodes[0..1] == ["x"] && s[0].nodes[1..2] == ["y"];
    assert DestScanFixed(s, 1, 0, 1) == DestState([], 2);
    assert DestScanFixed(s, 1, 0, 2) == DestState([NodeMove("x", "a", "b")], 1);
    assert DestScanFixed(s, 1, 0, 3) == DestState([NodeMove("x", "a", "b"), NodeMove("y", "a", "c")], 0);
    assert SourceScanFixed(s, 1, 1) == [NodeMove("x", "a", "b"), NodeMove("y", "a", "c")];
    assert SourceScanFixed(s, 1, 2) == SourceScanFixed(s, 1, 1);
    assert SourceScanFixed(s, 1, 3) == SourceScanFixed(s, 1, 2);
  }
}
