/**
 * The cluster registry (internal/multicluster/registry.go): a map from cluster name to cluster
 * settings that the mutators update in place before writing the registry file.  The write is an
 * oracle: `saveErr` is what saving returned.  As in the source, a failed save is reported after
 * the map has already changed.  The lock is left out.
 */
module Registry {
  import opened Wrappers
  import opened GoStrings
  import opened Sorting

  /** `ClusterConfig`; a nil label map is the empty map here. */
  datatype ClusterConfig = ClusterConfig(
    name: string,
    endpoint: string,
    apiKey: string,
    tlsCert: string,
    tlsKey: string,
    tlsCACert: string,
    skipTLS: bool,
    labels: map<string, string>)

  function ClusterName(c: ClusterConfig): string { c.name }

  class ClusterRegistry {
    var path: string
    var clusters: map<string, ClusterConfig>

    /** Every cluster is stored under its own, non-empty name. */
    predicate Valid()
      reads this
    {
      forall k :: k in clusters ==> k != "" && clusters[k].name == k
    }

    /** `NewRegistry`: no clusters yet. */
    constructor (path: string)
      ensures this.path == path && clusters == map[] && Valid()
    {
      this.path := path;
      clusters := map[];
    }

    /** `Add`: a cluster needs a name and an endpoint and must be new; then it is stored and saved. */
    method Add(cluster: ClusterConfig, saveErr: Option<string>) returns (err: Option<string>)
      requires Valid()
      modifies this
      ensures Valid() && path == old(path)
      ensures cluster.name == "" ==> err == Some("cluster name is required") && clusters == old(clusters)
      ensures cluster.name != "" && cluster.endpoint == "" ==>
        err == Some("cluster endpoint is required") && clusters == old(clusters)
      ensures cluster.name != "" && cluster.endpoint != "" && cluster.name in old(clusters) ==>
        err == Some("cluster already exists: " + cluster.name) && clusters == old(clusters)
      ensures cluster.name != "" && cluster.endpoint != "" && cluster.name !in old(clusters) ==>
        err == saveErr && clusters == old(clusters)[cluster.name := cluster]
    {
      if cluster.name == "" {
        return Some("cluster name is required");
      }
      if cluster.endpoint == "" {
        return Some("cluster endpoint is required");
      }
      if cluster.name in clusters {
        return Some("cluster already exists: " + cluster.name);
      }
      clusters := clusters[cluster.name := cluster];
      return saveErr;
    }

    /** `Update`: replaces a known cluster's settings, keyed by its name. */
    method Update(cluster: ClusterConfig, saveErr: Option<string>) returns (err: Option<string>)
      requires Valid()
      modifies this
      ensures Valid() && path == old(path)
      ensures cluster.name !in old(clusters) ==> err == Some("cluster not found: " + cluster.name) && clusters == old(clusters)
      ensures cluster.name in old(clusters) ==> err == saveErr && clusters == old(clusters)[cluster.name := cluster]
    {
      if cluster.name !in clusters {
        return Some("cluster not found: " + cluster.name);
      }
      clusters := clusters[cluster.name := cluster];
      return saveErr;
    }

    /** `Remove`: drops a known cluster. */
    method Remove(name: string, saveErr: Option<string>) returns (err: Option<string>)
      requires Valid()
      modifies this
      ensures Valid() && path == old(path)
      ensures name !in old(clusters) ==> err == Some("cluster not found: " + name) && clusters == old(clusters)
      ensures name in old(clusters) ==> err == saveErr && clusters == old(clusters) - {name}
    {
      if name !in clusters {
        return Some("cluster not found: " + name);
      }
      clusters := clusters - {name};
      return saveErr;
    }

    /** `Get`: the cluster of that name, if registered. */
    function Get(name: string): (r: Option<ClusterConfig>)
      reads this
      ensures r.Some? <==> Exists(name)
      ensures r.Some? ==> r.value == clusters[name]
    {
      if name in clusters then Some(clusters[name]) else None
    }

    /** `Exists`. */
    predicate Exists(name: string)
      reads this
    {
      name in clusters
    }

    /** `Count`. */
    function Count(): (n: nat)
      reads this
      ensures n == |clusters.Keys|
    {
      |clusters|
    }

    /**
     * `List`: every registered cluster once, sorted by name; as many as `Count` says, and in
     * strictly increasing name order since names are the map's keys.
     */
    method List() returns (list: seq<ClusterConfig>)
      requires Valid()
      ensures |list| == Count()
      ensures forall c :: c in list <==> c.name in clusters && clusters[c.name] == c
      ensures StrictlySortedByKey(list, ClusterName)
    {
      var built := Collected();
      list := SortByKey(built, ClusterName);
      SortByKeySorted(built, ClusterName);
      DistinctAfterSort(built, list);
      SortedDistinctKeys(list, ClusterName);
      assert forall c :: c in list <==> c in built by {
        forall c ensures c in list <==> c in built {
          assert c in list <==> c in multiset(list);
          assert c in built <==> c in multiset(built);
        }
      }
    }

    /** The `range` loop of `List`: each cluster once, in an order the model leaves open. */
    method Collected() returns (built: seq<ClusterConfig>)
      requires Valid()
      ensures |built| == |clusters.Keys|
      ensures forall c :: c in built <==> c.name in clusters && clusters[c.name] == c
      ensures forall i, j :: 0 <= i < j < |built| ==> built[i].name != built[j].name
    {
      built := [];
      var rest := clusters.Keys;
      while rest != {}
        invariant rest <= clusters.Keys
        invariant forall c :: c in built <==> c.name in clusters && c.name !in rest && clusters[c.name] == c
        invariant forall i, j :: 0 <= i < j < |built| ==> built[i].name != built[j].name
        invariant |built| + |rest| == |clusters.Keys|
        decreases rest
      {
        var name :| name in rest;
        forall i | 0 <= i < |built| ensures built[i].name != name {
          assert built[i] in built;
        }
        built := built + [clusters[name]];
        rest := rest - {name};
      }
    }

    /** `SetLabel`: one label of a known cluster is set; nothing else changes. */
    method SetLabel(name: string, key: string, value: string, saveErr: Option<string>) returns (err: Option<string>)
      requires Valid()
      modifies this
      ensures Valid() && path == old(path)
      ensures name !in old(clusters) ==> err == Some("cluster not found: " + name) && clusters == old(clusters)
      ensures name in old(clusters) ==> (err == saveErr
        && clusters == old(clusters)[name := old(clusters)[name].(labels := old(clusters)[name].labels[key := value])])
    {
      if name !in clusters {
        return Some("cluster not found: " + name);
      }
      var cluster := clusters[name];
      cluster := cluster.(labels := cluster.labels[key := value]);
      clusters := clusters[name := cluster];
      return saveErr;
    }

    /** `RemoveLabel`: one label of a known cluster is dropped. */
    method RemoveLabel(name: string, key: string, saveErr: Option<string>) returns (err: Option<string>)
      requires Valid()
      modifies this
      ensures Valid() && path == old(path)
      ensures name !in old(clusters) ==> err == Some("cluster not found: " + name) && clusters == old(clusters)
      ensures name in old(clusters) ==> (err == saveErr
        && clusters == old(clusters)[name := old(clusters)[name].(labels := old(clusters)[name].labels - {key})])
    {
      if name !in clusters {
        return Some("cluster not found: " + name);
      }
      var cluster := clusters[name];
      cluster := cluster.(labels := cluster.labels - {key});
      clusters := clusters[name := cluster];
      return saveErr;
    }

    /**
     * `Rename`: the new name must be non-empty and free and the old name known; then the entry
     * moves from the old key to the new one and carries the new name.
     */
    method Rename(oldName: string, newName: string, saveErr: Option<string>) returns (err: Option<string>)
      requires Valid()
      modifies this
      ensures Valid() && path == old(path)
      ensures newName == "" ==> err == Some("new name is required") && clusters == old(clusters)
      ensures newName != "" && oldName !in old(clusters) ==>
        err == Some("cluster not found: " + oldName) && clusters == old(clusters)
      ensures newName != "" && oldName in old(clusters) && newName in old(clusters) ==>
        err == Some("cluster already exists: " + newName) && clusters == old(clusters)
      ensures newName != "" && oldName in old(clusters) && newName !in old(clusters) ==>
        err == saveErr && clusters == (old(clusters) - {oldName})[newName := old(clusters)[oldName].(name := newName)]
    {
      if newName == "" {
        return Some("new name is required");
      }
      if oldName !in clusters {
        return Some("cluster not found: " + oldName);
      }
      var cluster := clusters[oldName];
      if newName in clusters {
        return Some("cluster already exists: " + newName);
      }
      clusters := clusters - {oldName};
      cluster := cluster.(name := newName);
      clusters := clusters[newName := cluster];
      return saveErr;
    }

    /** `Clear`: no clusters. */
    method Clear(saveErr: Option<string>) returns (err: Option<string>)
      modifies this
      ensures Valid() && path == old(path) && clusters == map[] && err == saveErr
    {
      clusters := map[];
      return saveErr;
    }

    /**
     * `Import`: each cluster with a name and an endpoint is stored under its name, replacing a
     * registered one; the others are skipped.
     */
    method Import(list: seq<ClusterConfig>, saveErr: Option<string>) returns (err: Option<string>)
      requires Valid()
      modifies this
      ensures Valid() && path == old(path) && err == saveErr
      ensures clusters == Imported(old(clusters), list)
    {
      var i := 0;
      while i < |list|
        invariant i <= |list| && Valid() && path == old(path)
        invariant clusters == Imported(old(clusters), list[..i])
      {
        assert list[..i + 1][..i] == list[..i];
        var c := list[i];
        if c.name != "" && c.endpoint != "" {
          clusters := clusters[c.name := c];
        }
        i := i + 1;
      }
      assert list[..i] == list;
      return saveErr;
    }
  }

  /** What `Import` leaves in the map: the acceptable clusters of the list stored in order. */
  function Imported(m: map<string, ClusterConfig>, list: seq<ClusterConfig>): map<string, ClusterConfig> {
    if list == [] then m
    else
      var c := list[|list| - 1];
      var before := Imported(m, list[..|list| - 1]);
      if c.name == "" || c.endpoint == "" then before else before[c.name := c]
  }

  /**
   * Importing keeps every registered cluster the list does not name, stores the last
   * acceptable cluster of each name the list has, and adds no other key.
   */
  lemma {:induction false} ImportedFacts(m: map<string, ClusterConfig>, list: seq<ClusterConfig>, k: string)
    ensures k in Imported(m, list) <==> k in m || exists i :: 0 <= i < |list| && Acceptable(list[i]) && list[i].name == k
    ensures (forall i :: 0 <= i < |list| && Acceptable(list[i]) ==> list[i].name != k) && k in m ==>
      Imported(m, list)[k] == m[k]
  {
    if list != [] {
      var init := list[..|list| - 1];
      ImportedFacts(m, init, k);
      forall i | 0 <= i < |init| ensures init[i] == list[i] {
      }
    }
  }

  /** The last acceptable cluster of a name in the list is the one stored under it. */
  lemma {:induction false} ImportedLastWins(m: map<string, ClusterConfig>, list: seq<ClusterConfig>, i: nat)
    requires i < |list| && Acceptable(list[i])
    requires forall j :: i < j < |list| && Acceptable(list[j]) ==> list[j].name != list[i].name
    ensures list[i].name in Imported(m, list) && Imported(m, list)[list[i].name] == list[i]
  {
    if i < |list| - 1 {
      ImportedLastWins(m, list[..|list| - 1], i);
    }
  }

  predicate Acceptable(c: ClusterConfig) {
    c.name != "" && c.endpoint != ""
  }

  /** Sorting keeps the elements, so the names stay pairwise different. */
  lemma DistinctAfterSort(built: seq<ClusterConfig>, list: seq<ClusterConfig>)
    requires multiset(list) == multiset(built)
    requires forall i, j :: 0 <= i < j < |built| ==> built[i].name != built[j].name
    ensures forall i, j :: 0 <= i < j < |list| ==> list[i].name != list[j].name
  {
    forall i, j | 0 <= i < j < |list| ensures list[i].name != list[j].name {
      assert list[i] in multiset(built) && list[j] in multiset(built);
      var a :| 0 <= a < |built| && built[a] == list[i];
      var b :| 0 <= b < |built| && built[b] == list[j];
      if list[i].name == list[j].name {
        assert a == b;
        assert list[i] == list[j];
        DuplicateCounted(list, i, j);
        SingleCounted(built, a);
      }
    }
  }

  lemma DuplicateCounted(s: seq<ClusterConfig>, i: nat, j: nat)
    requires i < j < |s| && s[i] == s[j]
    ensures multiset(s)[s[i]] >= 2
  {
    var x := s[i];
    assert s == s[..i] + [x] + s[i + 1..j] + [x] + s[j + 1..];
  }

  lemma SingleCounted(s: seq<ClusterConfig>, a: nat)
    requires a < |s| && forall i, j :: 0 <= i < j < |s| ==> s[i].name != s[j].name
    ensures multiset(s)[s[a]] == 1
  {
    var x := s[a];
    assert s == s[..a] + [x] + s[a + 1..];
    assert x !in s[..a] by {
      forall m | 0 <= m < a ensures s[..a][m] != x {
        assert s[..a][m] == s[m];
      }
    }
    var t := s[a + 1..];
    assert x !in t by {
      forall m | 0 <= m < |t| ensures t[m] != x {
        assert t[m] == s[a + 1 + m];
      }
    }
  }
}
