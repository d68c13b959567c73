/**
 * The node entries of the cluster configuration (internal/config/types.go): a node's name,
 * address, SSH settings and labels, and the configuration object that holds the node list.
 */
module NodeConfigs {
  datatype NodeConfig = NodeConfig(
    name: string,
    ip: string,
    sshUser: string,
    sshKey: string,
    sshPort: int,
    labels: map<string, string>)

  /** The names of a node list. */
  function Names(nodes: seq<NodeConfig>): set<string> {
    set x | x in nodes :: x.name
  }

  /** The names of a list are its first node's name and the names of the rest. */
  lemma NamesCons(nodes: seq<NodeConfig>)
    requires nodes != []
    ensures Names(nodes) == {nodes[0].name} + Names(nodes[1..])
  {
    assert nodes == [nodes[0]] + nodes[1..];
  }

  /** No two nodes of the list share a name. */
  predicate DistinctNames(nodes: seq<NodeConfig>) {
    forall i, j :: 0 <= i < j < |nodes| ==> nodes[i].name != nodes[j].name
  }

  /** `config.Config`, of which only the node list is modelled; the commands update it in place. */
  class Config {
    var nodes: seq<NodeConfig>

    constructor (nodes: seq<NodeConfig>)
      ensures this.nodes == nodes
    {
      this.nodes := nodes;
    }
  }
}
