/**
 * The node commands (internal/cli/nodes.go): the `--labels` parser, the lookup by name, adding
 * nodes from a file of "name ip" lines and removing a node by name.  The file is given as its
 * lines; loading and saving the configuration are left to the caller.
 */
module CliNodes {
  import opened Wrappers
  import opened GoStrings
  import opened NodeConfigs

  /** One "key=value" pair of the labels argument; a pair without '=' is dropped. */
  function LabelPair(labels: map<string, string>, pair: string): map<string, string> {
    var parts := SplitOnce(pair, '=');
    if |parts| == 2 then labels[TrimSpace(parts[0]) := TrimSpace(parts[1])] else labels
  }

  /** The pairs applied in order, so a later key overrides an earlier one. */
  function Labels(pairs: seq<string>): map<string, string> {
    if pairs == [] then map[] else LabelPair(Labels(pairs[..|pairs| - 1]), pairs[|pairs| - 1])
  }

  /** `parseLabels`: an empty argument gives no labels; otherwise the comma-separated pairs. */
  method ParseLabels(s: string) returns (labels: map<string, string>)
    ensures s == "" ==> labels == map[]
    ensures s != "" ==> labels == Labels(Split(s, ','))
  {
    if s == "" {
      return map[];
    }
    labels := LabelLoop(Split(s, ','));
  }

  /** The loop of `parseLabels` over the pairs. */
  method LabelLoop(pairs: seq<string>) returns (labels: map<string, string>)
    ensures labels == Labels(pairs)
  {
    labels := map[];
    var i := 0;
    while i < |pairs|
      invariant i <= |pairs| && labels == Labels(pairs[..i])
    {
      assert pairs[..i + 1][..i] == pairs[..i];
      labels := LabelPair(labels, pairs[i]);
      i := i + 1;
    }
    assert pairs[..i] == pairs;
  }

  /** A pair without '=' adds nothing. */
  lemma PairWithoutEquals(pairs: seq<string>, p: string)
    requires '=' !in p
    ensures Labels(pairs + [p]) == Labels(pairs)
  {
    assert (pairs + [p])[..|pairs|] == pairs;
  }

  /**
   * A pair "k=v" with no '=' in k sets the trimmed k to the trimmed v (which may contain
   * further '='), replacing an earlier value of that key.
   */
  lemma PairWithEquals(pairs: seq<string>, k: string, v: string)
    requires '=' !in k
    ensures Labels(pairs + [k + "=" + v]) == Labels(pairs)[TrimSpace(k) := TrimSpace(v)]
  {
    var p := k + "=" + v;
    assert (pairs + [p])[..|pairs|] == pairs;
    SplitOnceAt(k, '=', v);
    PairParts(Labels(pairs), p, k, v);
  }

  lemma PairParts(labels: map<string, string>, p: string, k: string, v: string)
    requires SplitOnce(p, '=') == [k, v]
    ensures LabelPair(labels, p) == labels[TrimSpace(k) := TrimSpace(v)]
  {
    var parts := SplitOnce(p, '=');
    assert parts[0] == k && parts[1] == v;
  }

  /** The empty argument and an argument of one pair without '=' give the same (empty) labels. */
  lemma EmptyLabels()
    ensures Labels(Split("", ',')) == map[]
  {
    assert IndexOf("", ',') == -1;
    assert Split("", ',') == [""];
    assert IndexOf("", '=') == -1;
    assert SplitOnce("", '=') == [""];
    assert [""][..0] == [];
    assert Labels([""]) == LabelPair(Labels([]), "");
  }

  /** Every label key is the trimmed key of some pair of the argument. */
  lemma {:induction false} LabelKeys(pairs: seq<string>, k: string)
    requires k in Labels(pairs)
    ensures exists i :: (0 <= i < |pairs| && |SplitOnce(pairs[i], '=')| == 2
      && TrimSpace(SplitOnce(pairs[i], '=')[0]) == k)
  {
    var init, last := pairs[..|pairs| - 1], pairs[|pairs| - 1];
    var parts := SplitOnce(last, '=');
    if |parts| == 2 && TrimSpace(parts[0]) == k {
      assert pairs[|pairs| - 1] == last;
    } else {
      LabelKeys(init, k);
      var i :| 0 <= i < |init| && |SplitOnce(init[i], '=')| == 2 && TrimSpace(SplitOnce(init[i], '=')[0]) == k;
      assert pairs[i] == init[i];
    }
  }

  /** `findNode`: the first node with the name, or nothing when no node has it. */
  function FindNode(nodes: seq<NodeConfig>, name: string): (r: Option<NodeConfig>)
    ensures r.None? <==> name !in Names(nodes)
    ensures r.Some? ==> exists i :: (0 <= i < |nodes| && nodes[i] == r.value && r.value.name == name
      && forall j :: 0 <= j < i ==> nodes[j].name != name)
  {
    if nodes == [] then None
    else if nodes[0].name == name then
      assert nodes[0] == nodes[0];
      Some(nodes[0])
    else
      var r := FindNode(nodes[1..], name);
      NamesCons(nodes);
      if r.Some? then
        var i :| 0 <= i < |nodes[1..]| && nodes[1..][i] == r.value && r.value.name == name
          && (forall j :: 0 <= j < i ==> nodes[1..][j].name != name);
        assert nodes[i + 1] == r.value;
        r
      else r
  }

  /** One line of the node file: a node "name ip" with the default SSH settings, unless it is skipped. */
  function AddLine(nodes: seq<NodeConfig>, line: string, user: string, key: string, port: int): seq<NodeConfig> {
    var t := TrimSpace(line);
    if t == "" || HasPrefix(t, "#") then nodes
    else
      var fields := Fields(t);
      if |fields| < 2 || fields[0] in Names(nodes) then nodes
      else nodes + [NodeConfig(fields[0], fields[1], user, key, port, map[])]
  }

  /** The lines of the node file applied in order. */
  function AddLines(nodes: seq<NodeConfig>, lines: seq<string>, user: string, key: string, port: int): seq<NodeConfig>
    decreases |lines|
  {
    if lines == [] then nodes else AddLines(AddLine(nodes, lines[0], user, key, port), lines[1..], user, key, port)
  }

  /** The duplicate check of `addNodesFromFile`: a scan that stops at the first node with the name. */
  method HasNode(nodes: seq<NodeConfig>, name: string) returns (duplicate: bool)
    ensures duplicate <==> name in Names(nodes)
  {
    NamesByIndex(nodes, name);
    duplicate := false;
    var i := 0;
    while i < |nodes|
      invariant i <= |nodes|
      invariant forall j :: 0 <= j < i ==> nodes[j].name != name
    {
      if nodes[i].name == name {
        assert nodes[i] in nodes;
        return true;
      }
      i := i + 1;
    }
  }

  /**
   * `addNodesFromFile` over the file's lines: the nodes of the accepted lines are appended to
   * the configuration, and the count is the number of nodes appended.
   */
  method AddNodesFromFile(cfg: Config, lines: seq<string>, user: string, key: string, port: int) returns (count: nat)
    modifies cfg
    ensures cfg.nodes == AddLines(old(cfg.nodes), lines, user, key, port)
    ensures count == |cfg.nodes| - |old(cfg.nodes)|
  {
    count := 0;
    var l := 0;
    while l < |lines|
      invariant l <= |lines|
      invariant AddLines(cfg.nodes, lines[l..], user, key, port) == AddLines(old(cfg.nodes), lines, user, key, port)
      invariant count == |cfg.nodes| - |old(cfg.nodes)|
    {
      assert lines[l..][1..] == lines[l + 1..];
      var line := TrimSpace(lines[l]);
      l := l + 1;
      if line == "" || HasPrefix(line, "#") {
        continue;
      }
      var fields := Fields(line);
      if |fields| < 2 {
        continue;
      }
      var node := NodeConfig(fields[0], fields[1], user, key, port, map[]);
      var duplicate := HasNode(cfg.nodes, node.name);
      if !duplicate {
        cfg.nodes := cfg.nodes + [node];
        count := count + 1;
      }
    }
  }

  /**
   * Adding keeps the nodes already there as a prefix and only appends nodes with the default
   * SSH settings and no labels.
   */
  lemma {:induction false} AddLinesAppends(nodes: seq<NodeConfig>, lines: seq<string>, user: string, key: string, port: int)
    ensures var r := AddLines(nodes, lines, user, key, port);
      && |nodes| <= |r| && r[..|nodes|] == nodes
      && (forall i :: |nodes| <= i < |r| ==> DefaultNode(r[i], user, key, port))
    decreases |lines|
  {
    if lines != [] {
      var next := AddLine(nodes, lines[0], user, key, port);
      AddLinesAppends(next, lines[1..], user, key, port);
      var r := AddLines(next, lines[1..], user, key, port);
      assert r[..|nodes|] == r[..|next|][..|nodes|];
    }
  }

  /** A node as a file line creates it: the given SSH user, key and port and no labels. */
  predicate DefaultNode(x: NodeConfig, user: string, key: string, port: int) {
    x.sshUser == user && x.sshKey == key && x.sshPort == port && x.labels == map[]
  }

  /** Adding never introduces a second node of a name. */
  lemma {:induction false} AddLinesDistinct(nodes: seq<NodeConfig>, lines: seq<string>, user: string, key: string, port: int)
    requires DistinctNames(nodes)
    ensures DistinctNames(AddLines(nodes, lines, user, key, port))
    decreases |lines|
  {
    if lines != [] {
      var next := AddLine(nodes, lines[0], user, key, port);
      if next != nodes {
        var x := next[|nodes|];
        assert next == nodes + [x];
        assert x.name !in Names(nodes);
        forall i | 0 <= i < |nodes| ensures nodes[i].name != x.name {
          assert nodes[i] in nodes;
        }
      }
      AddLinesDistinct(next, lines[1..], user, key, port);
    }
  }

  /** Blank lines, comments, lines of one field and names already present add nothing. */
  lemma SkippedLines(nodes: seq<NodeConfig>, line: string, user: string, key: string, port: int)
    requires var t := TrimSpace(line);
      t == "" || HasPrefix(t, "#") || |Fields(t)| < 2 || Fields(t)[0] in Names(nodes)
    ensures AddLine(nodes, line, user, key, port) == nodes
  {
  }

  /** A line "name ip" with a new name appends that node. */
  lemma AcceptedLine(nodes: seq<NodeConfig>, name: string, ip: string, user: string, key: string, port: int)
    requires IsWord(name) && IsWord(ip) && name[0] != '#' && name !in Names(nodes)
    ensures AddLine(nodes, name + " " + ip, user, key, port) == nodes + [NodeConfig(name, ip, user, key, port, map[])]
  {
    var t := name + " " + ip;
    assert TrimLeftSpace(t) == t;
    assert t[|t| - 1] == ip[|ip| - 1];
    assert TrimRightSpace(t) == t;
    FieldsOfTwoWords(name, ip);
  }

  /** The nodes that remain when every node with the name is dropped, in order. */
  function Without(nodes: seq<NodeConfig>, name: string): seq<NodeConfig> {
    if nodes == [] then []
    else
      var rest := Without(nodes[..|nodes| - 1], name);
      var last := nodes[|nodes| - 1];
      if last.name == name then rest else rest + [last]
  }

  /**
   * No node with the name remains, every other node does, and the list is shorter exactly when
   * some node had the name.
   */
  lemma {:induction false} WithoutFacts(nodes: seq<NodeConfig>, name: string)
    ensures name !in Names(Without(nodes, name))
    ensures forall x :: x in Without(nodes, name) <==> x in nodes && x.name != name
    ensures |Without(nodes, name)| <= |nodes|
    ensures |Without(nodes, name)| == |nodes| <==> name !in Names(nodes)
  {
    if nodes != [] {
      var init, last := nodes[..|nodes| - 1], nodes[|nodes| - 1];
      WithoutFacts(init, name);
      assert nodes == init + [last];
      assert Names(nodes) == Names(init) + {last.name};
    }
  }

  /** The loop of the remove command: the other nodes, and whether any node had the name. */
  method FilterOut(nodes: seq<NodeConfig>, name: string) returns (kept: seq<NodeConfig>, found: bool)
    ensures kept == Without(nodes, name)
    ensures found <==> name in Names(nodes)
  {
    kept, found := [], false;
    var i := 0;
    while i < |nodes|
      invariant i <= |nodes| && kept == Without(nodes[..i], name)
      invariant found <==> exists j :: 0 <= j < i && nodes[j].name == name
    {
      assert nodes[..i + 1][..i] == nodes[..i];
      if nodes[i].name == name {
        found := true;
      } else {
        kept := kept + [nodes[i]];
      }
      i := i + 1;
    }
    assert nodes[..i] == nodes;
    NamesByIndex(nodes, name);
  }

  lemma NamesByIndex(nodes: seq<NodeConfig>, name: string)
    ensures name in Names(nodes) <==> exists j :: 0 <= j < |nodes| && nodes[j].name == name
  {
    if name in Names(nodes) {
      var x :| x in nodes && x.name == name;
      var j :| 0 <= j < |nodes| && nodes[j] == x;
    }
  }

  /**
   * The remove command: an error when no node has the name, the configuration unchanged;
   * otherwise every node with the name is removed and the rest are kept in order.
   */
  method RemoveNode(cfg: Config, name: string) returns (err: Option<string>)
    modifies cfg
    ensures name !in Names(old(cfg.nodes)) ==> err == Some("node " + name + " not found") && cfg.nodes == old(cfg.nodes)
    ensures name in Names(old(cfg.nodes)) ==> err.None? && cfg.nodes == Without(old(cfg.nodes), name)
  {
    var kept, found := FilterOut(cfg.nodes, name);
    if !found {
      return Some("node " + name + " not found");
    }
    cfg.nodes := kept;
    return None;
  }
}
