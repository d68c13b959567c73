/**
 * The node comparison of the `diff` command (internal/cli/diff.go): both node lists are indexed
 * by name (a later node of the same name replaces an earlier one), then the new map's names not
 * in the old map are added, the old map's names not in the new map are removed, and the names
 * in both whose connection settings differ are changed.  Go visits a map in an unspecified
 * order; the loops here pick the next name with `:|`, so the results are stated up to order.
 */
module CliDiff {
  import opened NodeConfigs

  /** `nodeChanged`: the IP, SSH user, SSH port or SSH key differ. */
  predicate NodeChanged(a: NodeConfig, b: NodeConfig) {
    a.ip != b.ip || a.sshUser != b.sshUser || a.sshPort != b.sshPort || a.sshKey != b.sshKey
  }

  /**
   * Only the connection settings matter: the names and labels of either node are ignored, the
   * comparison is symmetric, and a node never differs from itself.
   */
  lemma NodeChangedFacts(a: NodeConfig, b: NodeConfig, name: string, labels: map<string, string>)
    ensures NodeChanged(a.(name := name, labels := labels), b) == NodeChanged(a, b)
    ensures NodeChanged(a, b) == NodeChanged(b, a)
    ensures !NodeChanged(a, a)
    ensures !NodeChanged(a, b) ==> a.(name := b.name, labels := b.labels) == b
  {
  }

  /** The map from name to node that the loops build: the last node of each name wins. */
  function NameMap(nodes: seq<NodeConfig>): (m: map<string, NodeConfig>)
    ensures m.Keys == Names(nodes)
    ensures forall k :: k in m ==> m[k].name == k && m[k] in nodes
  {
    if nodes == [] then map[]
    else
      var init, last := nodes[..|nodes| - 1], nodes[|nodes| - 1];
      assert nodes == init + [last];
      NameMap(init)[last.name := last]
  }

  /** The node kept under a name is the last node of the list with that name. */
  lemma {:induction false} NameMapLastWins(nodes: seq<NodeConfig>, i: nat)
    requires i < |nodes|
    requires forall j :: i < j < |nodes| ==> nodes[j].name != nodes[i].name
    ensures NameMap(nodes)[nodes[i].name] == nodes[i]
  {
    if i < |nodes| - 1 {
      NameMapLastWins(nodes[..|nodes| - 1], i);
    }
  }

  /** `for _, n := range nodes { m[n.Name] = n }`. */
  method BuildNameMap(nodes: seq<NodeConfig>) returns (m: map<string, NodeConfig>)
    ensures m == NameMap(nodes)
  {
    m := map[];
    var i := 0;
    while i < |nodes|
      invariant i <= |nodes| && m == NameMap(nodes[..i])
    {
      assert nodes[..i + 1][..i] == nodes[..i];
      m := m[nodes[i].name := nodes[i]];
      i := i + 1;
    }
    assert nodes[..i] == nodes;
  }

  /**
   * One of the three result loops: the nodes of `m` whose names satisfy `keep`, each once.
   * The names are visited in an order the model leaves open.
   */
  method Collect(m: map<string, NodeConfig>, keep: string -> bool) returns (out: seq<NodeConfig>)
    requires forall k :: k in m ==> m[k].name == k
    ensures forall x :: x in out <==> x.name in m && keep(x.name) && x == m[x.name]
    ensures DistinctNames(out)
  {
    out := [];
    var rest := m.Keys;
    while rest != {}
      invariant rest <= m.Keys
      invariant forall x :: x in out <==> x.name in m && x.name !in rest && keep(x.name) && x == m[x.name]
      invariant DistinctNames(out)
      decreases rest
    {
      var name :| name in rest;
      if keep(name) {
        forall i | 0 <= i < |out| ensures out[i].name != name {
          assert out[i] in out;
        }
        out := out + [m[name]];
      }
      rest := rest - {name};
    }
  }

  /** A node appears as added: its name is only in the new list, and it is the new list's node of that name. */
  predicate IsAdded(before: seq<NodeConfig>, after: seq<NodeConfig>, x: NodeConfig) {
    x.name in NameMap(after) && x.name !in NameMap(before) && x == NameMap(after)[x.name]
  }

  /** A node appears as removed: its name is only in the old list, and it is the old list's node of that name. */
  predicate IsRemoved(before: seq<NodeConfig>, after: seq<NodeConfig>, x: NodeConfig) {
    x.name in NameMap(before) && x.name !in NameMap(after) && x == NameMap(before)[x.name]
  }

  /** A node appears as changed: its name is in both lists, it is the new node, and its settings differ from the old node's. */
  predicate IsChanged(before: seq<NodeConfig>, after: seq<NodeConfig>, x: NodeConfig) {
    x.name in NameMap(after) && x.name in NameMap(before) && x == NameMap(after)[x.name]
      && NodeChanged(NameMap(before)[x.name], x)
  }

  /**
   * `compareNodes`: the added, removed and changed nodes, each list naming every node at most
   * once; no name is in two of the lists, and comparing a list with itself finds nothing.
   */
  method CompareNodes(before: seq<NodeConfig>, after: seq<NodeConfig>)
    returns (added: seq<NodeConfig>, removed: seq<NodeConfig>, changed: seq<NodeConfig>)
    ensures forall x :: x in added <==> IsAdded(before, after, x)
    ensures forall x :: x in removed <==> IsRemoved(before, after, x)
    ensures forall x :: x in changed <==> IsChanged(before, after, x)
    ensures DistinctNames(added) && DistinctNames(removed) && DistinctNames(changed)
    ensures forall x, y :: x in added && y in removed ==> x.name != y.name
    ensures forall x, y :: x in added && y in changed ==> x.name != y.name
    ensures forall x, y :: x in removed && y in changed ==> x.name != y.name
    ensures before == after ==> added == [] && removed == [] && changed == []
  {
    var oldMap := BuildNameMap(before);
    var newMap := BuildNameMap(after);
    added := Collect(newMap, name => name !in oldMap);
    removed := Collect(oldMap, name => name !in newMap);
    changed := Collect(newMap, name => name in oldMap && name in newMap && NodeChanged(oldMap[name], newMap[name]));
    if before == after {
      NoMembers(added);
      NoMembers(removed);
      NoMembers(changed);
    }
  }

  lemma NoMembers(xs: seq<NodeConfig>)
    ensures (forall x :: x !in xs) ==> xs == []
  {
    if xs != [] {
      assert xs[0] in xs;
    }
  }

  /**
   * Every name of either list is in exactly one of: added, removed, changed, or unchanged in
   * both lists.
   */
  lemma NamesClassified(before: seq<NodeConfig>, after: seq<NodeConfig>, name: string)
    requires name in Names(before) + Names(after)
    ensures var om, nm := NameMap(before), NameMap(after);
      || (name !in om && IsAdded(before, after, nm[name]))
      || (name !in nm && IsRemoved(before, after, om[name]))
      || (name in om && name in nm && IsChanged(before, after, nm[name]))
      || (name in om && name in nm && !NodeChanged(om[name], nm[name]))
  {
  }
}
