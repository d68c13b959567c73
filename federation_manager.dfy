/**
 * Shard planning of the Prometheus federation (internal/federation/manager.go): nodes are
 * spread over shards either by count or by their "rack" label.
 */
module FederationManager {
  import opened GoStrings
  import opened Seqs
  import opened Sorting
  import opened FederationShard

  /** The part of `config.NodeConfig` that shard planning reads. */
  datatype NodeConfig = NodeConfig(name: string, labels: map<string, string>)

  const StrategyAuto := "auto"
  const StrategyRack := "rack"
  const StrategyCount := "count"

  /** The data directory `NewManager` sets. */
  const DataDir := "/var/lib/aami"

  const FirstShardPort := 9091

  function NodeNames(nodes: seq<NodeConfig>): (r: seq<string>)
    ensures |r| == |nodes| && forall i :: 0 <= i < |nodes| ==> r[i] == nodes[i].name
  {
    if nodes == [] then [] else NodeNames(nodes[..|nodes| - 1]) + [nodes[|nodes| - 1].name]
  }

  // ---------------------------------------------------------------- recommendShardCount

  /** `recommendShardCount`. */
  function RecommendShardCount(nodeCount: nat): (k: int)
    ensures nodeCount < 100 ==> k == 1
    ensures 100 <= nodeCount < 300 ==> k == 2
    ensures 300 <= nodeCount < 500 ==> k == 3
    ensures 500 <= nodeCount < 1000 ==> k == 5
    ensures 1000 <= nodeCount ==> k == nodeCount / 200 && k >= 5
    ensures k >= 1
  {
    if nodeCount < 100 then 1
    else if nodeCount < 300 then 2
    else if nodeCount < 500 then 3
    else if nodeCount < 1000 then 5
    else nodeCount / 200
  }

  /** The shard count `calculateShardsByCount` uses: the requested one, or the recommendation. */
  function EffectiveCount(nodeCount: nat, shardCount: int): (k: int)
    ensures shardCount > 0 ==> k == shardCount
    ensures shardCount <= 0 ==> k == RecommendShardCount(nodeCount)
    ensures k >= 1
  {
    if shardCount <= 0 then RecommendShardCount(nodeCount) else shardCount
  }

  // ---------------------------------------------------------------- calculateShardsByCount

  /** Shard i of the count plan, holding the nodes `ns`. */
  function CountShard(i: nat, ns: seq<string>): ShardConfig {
    ShardConfig("shard-" + NatToString(i + 1), ns, [], FirstShardPort + i,
                DataDir + "/prometheus-shard-" + NatToString(i + 1), "7d")
  }

  /** How many nodes shard i gets when n nodes go to k shards: the first n % k shards get one more. */
  function Size(n: nat, k: nat, i: nat): nat
    requires k > 0
  {
    n / k + (if i < n % k then 1 else 0)
  }

  /** Where shard i's nodes start: the sizes of the shards before it, added up. */
  function Start(n: nat, k: nat, i: nat): nat
    requires k > 0
  {
    if i == 0 then 0 else Start(n, k, i - 1) + Size(n, k, i - 1)
  }

  lemma {:induction false} StartClosed(n: nat, k: nat, i: nat, q: nat, r: nat)
    requires k > 0 && q == n / k && r == n % k
    ensures Start(n, k, i) == i * q + Min(i, r)
  {
    if i > 0 {
      StartClosed(n, k, i - 1, q, r);
      assert (i - 1) * q + q == i * q;
    }
  }

  /** Every shard's slice lies inside the node list. */
  lemma StartBounds(n: nat, k: nat, i: nat)
    requires k > 0 && i < k
    ensures Start(n, k, i + 1) <= n
  {
    var q, r := n / k, n % k;
    StartClosed(n, k, i + 1, q, r);
    MulLeft(i + 1, k, q);
    assert n == k * q + r;
  }

  /** The last shard ends at the end of the node list. */
  lemma StartAll(n: nat, k: nat)
    requires k > 0
    ensures Start(n, k, k) == n
  {
    var q, r := n / k, n % k;
    StartClosed(n, k, k, q, r);
    assert n == k * q + r;
  }

  lemma MulLeft(a: nat, b: nat, c: nat)
    requires a <= b
    ensures a * c <= b * c
  {
  }

  /** Shard i of the count plan: its slice of the node names. */
  function CountShardAt(names: seq<string>, k: nat, i: nat): ShardConfig
    requires i < k
  {
    StartBounds(|names|, k, i);
    CountShard(i, names[Start(|names|, k, i)..Start(|names|, k, i + 1)])
  }

  /** The plan of `calculateShardsByCount` for the node names `names` and k shards. */
  function CountPlan(names: seq<string>, k: nat): (shards: seq<ShardConfig>)
    requires k > 0
    ensures |shards| == k
  {
    seq(k, i requires 0 <= i < k => CountShardAt(names, k, i))
  }

  /** `calculateShardsByCount`: fills an array of shards, handing out nodes in order. */
  method ShardsByCount(nodes: seq<NodeConfig>, shardCount: int) returns (shards: seq<ShardConfig>)
    ensures shards == CountPlan(NodeNames(nodes), EffectiveCount(|nodes|, shardCount))
  {
    var nodeCount := |nodes|;
    var k := shardCount;
    if k <= 0 {
      k := RecommendShardCount(nodeCount);
    }
    var nodesPerShard := nodeCount / k;
    var remainder := nodeCount % k;
    shards := FillShards(nodes, k, nodesPerShard, remainder);
  }

  /** The shard loop of `calculateShardsByCount`, given the quotient and remainder it computes first. */
  method FillShards(nodes: seq<NodeConfig>, k: nat, nodesPerShard: nat, remainder: nat) returns (shards: seq<ShardConfig>)
    requires k > 0 && nodesPerShard == |nodes| / k && remainder == |nodes| % k
    ensures shards == CountPlan(NodeNames(nodes), k)
  {
    var a := new ShardConfig[k];
    var nodeIndex := 0;
    ghost var names := NodeNames(nodes);
    for i := 0 to k
      invariant nodeIndex == Start(|nodes|, k, i)
      invariant forall t :: 0 <= t < i ==> a[t] == CountShardAt(names, k, t)
    {
      var shard;
      shard, nodeIndex := FillShard(nodes, k, nodesPerShard, remainder, i, nodeIndex);
      a[i] := shard;
    }
    shards := a[..];
  }

  /** One pass of the shard loop: shard i takes the next `Size` nodes, one more while i is below the remainder. */
  method FillShard(nodes: seq<NodeConfig>, k: nat, nodesPerShard: nat, remainder: nat, i: nat, nodeIndex: nat)
    returns (shard: ShardConfig, next: nat)
    requires k > 0 && nodesPerShard == |nodes| / k && remainder == |nodes| % k
    requires i < k && nodeIndex == Start(|nodes|, k, i)
    ensures shard == CountShardAt(NodeNames(nodes), k, i) && next == Start(|nodes|, k, i + 1)
  {
    StartBounds(|nodes|, k, i);
    var count := nodesPerShard;
    if i < remainder {
      count := count + 1;
    }
    assert count == Size(|nodes|, k, i);
    var shardNodes := AssignNodes(nodes, nodeIndex, count);
    next := nodeIndex + |shardNodes|;
    shard := CountShard(i, shardNodes);
  }

  /** The inner loop: up to `count` node names from `nodeIndex` on. */
  method AssignNodes(nodes: seq<NodeConfig>, nodeIndex: nat, count: int) returns (ns: seq<string>)
    requires nodeIndex <= |nodes|
    ensures |ns| == Steps(count, |nodes| - nodeIndex)
    ensures ns == NodeNames(nodes)[nodeIndex..nodeIndex + |ns|]
  {
    ns := [];
    var j := 0;
    while j < count && nodeIndex + j < |nodes|
      invariant 0 <= j <= Steps(count, |nodes| - nodeIndex)
      invariant ns == NodeNames(nodes)[nodeIndex..nodeIndex + j]
    {
      ns := ns + [nodes[nodeIndex + j].name];
      j := j + 1;
    }
  }

  /** Every shard of the count plan is named shard-(i+1), listens on 9091+i and keeps its data apart. */
  lemma CountPlanLayout(names: seq<string>, k: nat, i: nat)
    requires 0 <= i < k
    ensures var s := CountPlan(names, k)[i];
      s.name == "shard-" + NatToString(i + 1) && s.port == 9091 + i && s.racks == []
      && s.storagePath == "/var/lib/aami/prometheus-shard-" + NatToString(i + 1) && s.retention == "7d"
  {
  }

  /** Shard sizes: n / k each, plus one for the first n % k shards; so they differ by at most one. */
  lemma CountPlanSizes(names: seq<string>, k: nat, i: nat, j: nat)
    requires 0 <= i < k && 0 <= j < k
    ensures |CountPlan(names, k)[i].nodes| == |names| / k + (if i < |names| % k then 1 else 0)
    ensures -1 <= |CountPlan(names, k)[i].nodes| - |CountPlan(names, k)[j].nodes| <= 1
  {
    StartBounds(|names|, k, i);
    StartBounds(|names|, k, j);
    assert |CountShardAt(names, k, i).nodes| == Size(|names|, k, i);
    assert |CountShardAt(names, k, j).nodes| == Size(|names|, k, j);
  }

  /** Read shard by shard, the plan lists every node exactly once and in order. */
  lemma CountPlanCoversNodes(names: seq<string>, k: nat)
    requires k > 0
    ensures AllNodes(CountPlan(names, k)) == names
  {
    var plan := CountPlan(names, k);
    CountPlanPrefix(names, k, k);
    assert plan[..k] == plan;
    StartAll(|names|, k);
  }

  lemma {:induction false} CountPlanPrefix(names: seq<string>, k: nat, i: nat)
    requires 0 < k && i <= k
    ensures Start(|names|, k, i) <= |names|
    ensures AllNodes(CountPlan(names, k)[..i]) == names[..Start(|names|, k, i)]
  {
    if i > 0 {
      CountPlanPrefix(names, k, i - 1);
      CountPlanStep(names, k, i);
      PrefixSlice(names, Start(|names|, k, i - 1), Start(|names|, k, i));
    }
  }

  /** One more shard of the plan adds the names from its start to the next shard's start. */
  lemma CountPlanStep(names: seq<string>, k: nat, i: nat)
    requires 0 < i <= k
    ensures Start(|names|, k, i - 1) <= Start(|names|, k, i) <= |names|
    ensures AllNodes(CountPlan(names, k)[..i])
      == AllNodes(CountPlan(names, k)[..i - 1]) + names[Start(|names|, k, i - 1)..Start(|names|, k, i)]
  {
    var plan := CountPlan(names, k);
    StartBounds(|names|, k, i - 1);
    assert plan[..i][..i - 1] == plan[..i - 1];
    assert plan[..i][i - 1] == CountShardAt(names, k, i - 1);
  }

  // ---------------------------------------------------------------- calculateShardsByRack

  /** The node's "rack" label, or "default". */
  function RackOf(n: NodeConfig): string {
    if "rack" in n.labels then n.labels["rack"] else "default"
  }

  /** The names of the nodes on `rack`, in order. */
  function NamesOnRack(nodes: seq<NodeConfig>, rack: string): seq<string> {
    if nodes == [] then []
    else
      NamesOnRack(nodes[..|nodes| - 1], rack)
      + (if RackOf(nodes[|nodes| - 1]) == rack then [nodes[|nodes| - 1].name] else [])
  }

  /** The `rackNodes` map after the grouping loop over `nodes`. */
  function RackGroups(nodes: seq<NodeConfig>): map<string, seq<string>> {
    if nodes == [] then map[]
    else
      var g := RackGroups(nodes[..|nodes| - 1]);
      var last := nodes[|nodes| - 1];
      var rack := RackOf(last);
      g[rack := (if rack in g then g[rack] else []) + [last.name]]
  }

  /** The grouping holds exactly the racks of the nodes, each with the names of its nodes in order. */
  lemma {:induction false} RackGroupsSpec(nodes: seq<NodeConfig>)
    ensures forall r :: r in RackGroups(nodes) <==> exists i :: 0 <= i < |nodes| && RackOf(nodes[i]) == r
    ensures forall r :: r in RackGroups(nodes) ==> RackGroups(nodes)[r] == NamesOnRack(nodes, r)
  {
    if nodes != [] {
      var init := nodes[..|nodes| - 1];
      RackGroupsSpec(init);
      forall r | r !in RackGroups(init) ensures NamesOnRack(init, r) == [] {
        NamesOnRackEmpty(init, r);
      }
      assert forall i :: 0 <= i < |init| ==> init[i] == nodes[i];
    }
  }

  lemma {:induction false} NamesOnRackEmpty(nodes: seq<NodeConfig>, rack: string)
    requires forall i :: 0 <= i < |nodes| ==> RackOf(nodes[i]) != rack
    ensures NamesOnRack(nodes, rack) == []
  {
    if nodes != [] {
      var init := nodes[..|nodes| - 1];
      assert forall i :: 0 <= i < |init| ==> init[i] == nodes[i];
      NamesOnRackEmpty(init, rack);
    }
  }

  /** The grouping loop of `calculateShardsByRack`. */
  method GroupByRack(nodes: seq<NodeConfig>) returns (rackNodes: map<string, seq<string>>)
    ensures rackNodes == RackGroups(nodes)
  {
    rackNodes := map[];
    for i := 0 to |nodes|
      invariant rackNodes == RackGroups(nodes[..i])
    {
      assert nodes[..i + 1][..i] == nodes[..i];
      var node := nodes[i];
      var rack := "default";
      if "rack" in node.labels {
        rack := node.labels["rack"];
      }
      var prior := if rack in rackNodes then rackNodes[rack] else [];
      rackNodes := rackNodes[rack := prior + [node.name]];
    }
    assert nodes[..|nodes|] == nodes;
  }

  /** The shard for `rack` holding `ns`, as built for the port it was given. */
  function RackShard(rack: string, ns: seq<string>, port: int): ShardConfig {
    ShardConfig("shard-" + rack, ns, [rack], port, DataDir + "/prometheus-shard-" + rack, "7d")
  }

  function ShardName(s: ShardConfig): string { s.name }

  function ShardPort(s: ShardConfig): int { s.port }

  /** A shard built from the grouping for one of its racks. */
  predicate FromGroup(s: ShardConfig, groups: map<string, seq<string>>) {
    |s.racks| == 1 && s.racks[0] in groups && s == RackShard(s.racks[0], groups[s.racks[0]], s.port)
  }

  /** The plan of `calculateShardsByRack`, whatever order the map is walked in. */
  predicate RackPlan(shards: seq<ShardConfig>, groups: map<string, seq<string>>) {
    |shards| == |groups|
    && (forall k :: 0 <= k < |shards| ==> FromGroup(shards[k], groups))
    && (forall r :: r in groups ==> exists k :: 0 <= k < |shards| && shards[k].racks == [r])
    && (forall k :: 0 <= k < |shards| ==> FirstShardPort <= shards[k].port < FirstShardPort + |shards|)
    && KeysDistinct(shards, ShardPort)
    && StrictlySortedByKey(shards, ShardName)
  }

  /** Shards for distinct racks have distinct names. */
  lemma RackNamesDiffer(a: string, b: string)
    requires a != b
    ensures "shard-" + a != "shard-" + b
  {
    assert ("shard-" + a)[6..] == a && ("shard-" + b)[6..] == b;
  }

  /** `calculateShardsByRack`: one shard per rack, ports in map order, then sorted by name. */
  method ShardsByRack(nodes: seq<NodeConfig>) returns (shards: seq<ShardConfig>)
    ensures RackPlan(shards, RackGroups(nodes))
  {
    var rackNodes := GroupByRack(nodes);
    var built := BuildRackShards(rackNodes);
    shards := SortByKey(built, ShardName);
    SortByKeySorted(built, ShardName);
    SortedRackPlan(built, shards, rackNodes);
  }

  /** Sorting the walked shards by name yields the rack plan. */
  lemma SortedRackPlan(built: seq<ShardConfig>, shards: seq<ShardConfig>, groups: map<string, seq<string>>)
    requires |built| == |groups| && Built(built, groups, groups.Keys)
    requires multiset(built) == multiset(shards) && SortedByKey(shards, ShardName)
    ensures RackPlan(shards, groups)
  {
    assert |shards| == |multiset(shards)| == |built|;
    BuiltDistinct(built, groups, groups.Keys);
    KeysDistinctPermutation(built, shards, ShardName);
    KeysDistinctPermutation(built, shards, ShardPort);
    SortedDistinctKeys(shards, ShardName);
    PermutedBuilt(built, shards, groups);
  }

  lemma PermutedBuilt(built: seq<ShardConfig>, shards: seq<ShardConfig>, groups: map<string, seq<string>>)
    requires |built| == |shards| && Built(built, groups, groups.Keys) && multiset(built) == multiset(shards)
    ensures forall k :: 0 <= k < |shards| ==> FromGroup(shards[k], groups) && FirstShardPort <= shards[k].port < FirstShardPort + |shards|
    ensures forall r :: r in groups ==> exists k :: 0 <= k < |shards| && shards[k].racks == [r]
  {
    forall k | 0 <= k < |shards|
      ensures FromGroup(shards[k], groups) && FirstShardPort <= shards[k].port < FirstShardPort + |shards|
    {
      assert shards[k] in multiset(built);
    }
    forall r | r in groups ensures exists k :: 0 <= k < |shards| && shards[k].racks == [r] {
      var b :| 0 <= b < |built| && built[b].racks == [r];
      assert built[b] in multiset(shards);
    }
  }

  function FirstRack(s: ShardConfig): string requires |s.racks| > 0 { s.racks[0] }

  /** After walking the racks in `done`: one shard per walked rack, the k-th on port 9091+k. */
  predicate Built(shards: seq<ShardConfig>, groups: map<string, seq<string>>, done: set<string>) {
    (forall k :: 0 <= k < |shards| ==>
          FromGroup(shards[k], groups) && shards[k].port == FirstShardPort + k && shards[k].racks[0] in done)
    && (forall r :: r in done ==> exists k :: 0 <= k < |shards| && shards[k].racks == [r])
    && (forall a, b :: 0 <= a < b < |shards| ==> shards[a].racks[0] != shards[b].racks[0])
  }

  /** One more rack walked keeps `Built`. */
  lemma BuiltStep(shards: seq<ShardConfig>, groups: map<string, seq<string>>, done: set<string>, rack: string, port: int)
    requires Built(shards, groups, done) && rack in groups && rack !in done && port == FirstShardPort + |shards|
    ensures Built(shards + [RackShard(rack, groups[rack], port)], groups, done + {rack})
  {
    var shard := RackShard(rack, groups[rack], port);
    var s' := shards + [shard];
    assert FromGroup(shard, groups);
    forall k | 0 <= k < |s'|
      ensures FromGroup(s'[k], groups) && s'[k].port == FirstShardPort + k && s'[k].racks[0] in done + {rack}
    {
      if k < |shards| {
        assert s'[k] == shards[k];
      }
    }
    forall a, b | 0 <= a < b < |s'| ensures s'[a].racks[0] != s'[b].racks[0] {
      assert s'[a] == shards[a];
      if b < |shards| {
        assert s'[b] == shards[b];
      }
    }
    forall r | r in done + {rack} ensures exists k :: 0 <= k < |s'| && s'[k].racks == [r] {
      if r == rack {
        assert s'[|shards|].racks == [r];
      } else {
        var k :| 0 <= k < |shards| && shards[k].racks == [r];
        assert s'[k].racks == [r];
      }
    }
  }

  /** Shards for pairwise different racks have pairwise different names and, from `Built`, ports. */
  lemma BuiltDistinct(shards: seq<ShardConfig>, groups: map<string, seq<string>>, done: set<string>)
    requires Built(shards, groups, done)
    ensures KeysDistinct(shards, ShardName) && KeysDistinct(shards, ShardPort)
  {
    forall a, b | 0 <= a < b < |shards| ensures ShardName(shards[a]) != ShardName(shards[b]) {
      RackNamesDiffer(shards[a].racks[0], shards[b].racks[0]);
    }
  }

  predicate AllIn(racks: seq<string>, groups: map<string, seq<string>>) {
    forall k :: 0 <= k < |racks| ==> racks[k] in groups
  }

  /** The shards built when the map walk visits `racks` in this order. */
  function WalkShards(racks: seq<string>, groups: map<string, seq<string>>): (shards: seq<ShardConfig>)
    requires AllIn(racks, groups)
    ensures |shards| == |racks|
  {
    if racks == [] then []
    else
      var last := racks[|racks| - 1];
      WalkShards(racks[..|racks| - 1], groups) + [RackShard(last, groups[last], FirstShardPort + |racks| - 1)]
  }

  /** A walk that visits the racks of `done` once each builds one shard per rack. */
  lemma {:induction false} WalkBuilt(racks: seq<string>, groups: map<string, seq<string>>, done: set<string>)
    requires AllIn(racks, groups) && Distinct(racks)
    requires forall r :: r in done <==> r in racks
    ensures Built(WalkShards(racks, groups), groups, done)
  {
    if racks != [] {
      var init, last := racks[..|racks| - 1], racks[|racks| - 1];
      assert racks == init + [last];
      DistinctSnoc(init, last);
      WalkBuilt(init, groups, done - {last});
      var prev := WalkShards(init, groups);
      assert WalkShards(racks, groups) == prev + [RackShard(last, groups[last], FirstShardPort + |prev|)];
      assert done - {last} + {last} == done;
      BuiltNext(prev, groups, done - {last}, last, WalkShards(racks, groups), done);
    }
  }

  /** `BuiltStep` with the grown shard list and rack set named. */
  lemma BuiltNext(shards: seq<ShardConfig>, groups: map<string, seq<string>>, done: set<string>, rack: string,
                  next: seq<ShardConfig>, done': set<string>)
    requires Built(shards, groups, done) && rack in groups && rack !in done
    requires next == shards + [RackShard(rack, groups[rack], FirstShardPort + |shards|)] && done' == done + {rack}
    ensures Built(next, groups, done')
  {
    BuiltStep(shards, groups, done, rack, FirstShardPort + |shards|);
  }

  /** The map walk of `calculateShardsByRack`, in the order Go happens to choose. */
  method BuildRackShards(rackNodes: map<string, seq<string>>) returns (shards: seq<ShardConfig>)
    ensures |shards| == |rackNodes|
    ensures Built(shards, rackNodes, rackNodes.Keys)
  {
    shards := [];
    var rest := rackNodes.Keys;
    ghost var racks: seq<string> := [];
    var i := 0;
    while rest != {}
      invariant rest <= rackNodes.Keys
      invariant i == |racks| && i + |rest| == |rackNodes|
      invariant AllIn(racks, rackNodes) && Distinct(racks)
      invariant forall r :: r in racks <==> r in rackNodes && r !in rest
      invariant shards == WalkShards(racks, rackNodes)
      decreases |rest|
    {
      var rack :| rack in rest;
      var shard := RackShard(rack, rackNodes[rack], FirstShardPort + i);
      DistinctSnoc(racks, rack);
      shards := shards + [shard];
      racks := racks + [rack];
      assert racks[..|racks| - 1] == racks[..i];
      rest := rest - {rack};
      i := i + 1;
    }
    WalkBuilt(racks, rackNodes, rackNodes.Keys);
  }

  // ---------------------------------------------------------------- CalculateShards

  /** `CalculateShards`: nothing without nodes, rack sharding for "rack", count sharding otherwise. */
  method CalculateShards(nodes: seq<NodeConfig>, strategy: string, shardCount: int) returns (shards: seq<ShardConfig>)
    ensures nodes == [] ==> shards == []
    ensures nodes != [] && strategy == StrategyRack ==> RackPlan(shards, RackGroups(nodes))
    ensures nodes != [] && strategy != StrategyRack ==>
      shards == CountPlan(NodeNames(nodes), EffectiveCount(|nodes|, shardCount))
  {
    if |nodes| == 0 {
      return [];
    }
    if strategy == StrategyRack {
      shards := ShardsByRack(nodes);
    } else {
      shards := ShardsByCount(nodes, shardCount);
    }
  }
}
