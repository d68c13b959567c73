/**
 * Group-level check settings (services/config-server/internal/domain/check_setting.go): the
 * parent/child merge and the config accessors.  A setting is an object the accessors update in
 * place; the clock is the parameter `now`.
 */
module CheckSetting {
  import opened Wrappers
  import opened Values

  /**
   * The config a merged setting carries: the child's own under "override", otherwise the
   * parent's entries with the child's copied over them.
   */
  function MergedConfig(strategy: string, parent: Config, child: Config): Config {
    if strategy == "override" then child else Union(parent, child)
  }

  class Setting {
    var id: string
    var groupId: string
    var checkType: string
    var config: Config
    var mergeStrategy: string
    var priority: int
    var deletedAt: Option<int>
    var createdAt: int
    var updatedAt: int

    constructor (id: string, groupId: string, checkType: string, config: Config, mergeStrategy: string, priority: int)
      ensures this.id == id && this.groupId == groupId && this.checkType == checkType
      ensures this.config == config && this.mergeStrategy == mergeStrategy && this.priority == priority
      ensures deletedAt.None? && createdAt == 0 && updatedAt == 0
    {
      this.id := id;
      this.groupId := groupId;
      this.checkType := checkType;
      this.config := config;
      this.mergeStrategy := mergeStrategy;
      this.priority := priority;
      this.deletedAt := None;
      this.createdAt := 0;
      this.updatedAt := 0;
    }

    /**
     * `MergeWith`: without a parent the setting itself; otherwise a new setting with the
     * child's ID, group, type, strategy and priority and the merged config.  Timestamps and the
     * deletion time are left at their zero values, as the source's composite literal leaves them.
     */
    method MergeWith(parent: Setting?) returns (merged: Setting)
      ensures parent == null ==> merged == this
      ensures parent != null ==> fresh(merged)
      ensures parent != null ==> merged.config == MergedConfig(mergeStrategy, parent.config, config)
      ensures parent != null ==> merged.id == id && merged.groupId == groupId && merged.checkType == checkType
      ensures parent != null ==> merged.mergeStrategy == mergeStrategy && merged.priority == priority
      ensures parent != null ==> merged.deletedAt.None? && merged.createdAt == 0 && merged.updatedAt == 0
    {
      if parent == null {
        return this;
      }
      var c;
      if mergeStrategy == "override" {
        c := config;
      } else {
        c := PutAll(map[], parent.config);
        c := PutAll(c, config);
        UnionEmpty(parent.config);
      }
      merged := new Setting(id, groupId, checkType, c, mergeStrategy, priority);
    }

    /** `GetConfigValue`: the value under `key`, and whether there is one. */
    function GetConfigValue(key: string): (r: Option<Value>)
      reads this
      ensures r.Some? <==> key in config
      ensures r.Some? ==> r.value == config[key]
    {
      if key in config then Some(config[key]) else None
    }

    /** `SetConfigValue`: sets one entry (a nil map is the empty map here) and the update time. */
    method SetConfigValue(key: string, value: Value, now: int)
      modifies this
      ensures config == old(config)[key := value] && updatedAt == now
      ensures GetConfigValue(key) == Some(value)
      ensures forall k :: k != key ==> GetConfigValue(k) == old(GetConfigValue(k))
      ensures id == old(id) && groupId == old(groupId) && checkType == old(checkType)
      ensures mergeStrategy == old(mergeStrategy) && priority == old(priority)
      ensures deletedAt == old(deletedAt) && createdAt == old(createdAt)
    {
      config := config[key := value];
      updatedAt := now;
    }
  }

  /**
   * The merged config under "merge" has every key of either side, with the child's value
   * winning; under "override" it is exactly the child's; with an empty parent it is the child's
   * under any strategy.
   */
  lemma MergedConfigProperties(strategy: string, parent: Config, child: Config)
    ensures strategy == "override" ==> MergedConfig(strategy, parent, child) == child
    ensures strategy != "override" ==>
      && MergedConfig(strategy, parent, child).Keys == parent.Keys + child.Keys
      && (forall k :: k in child ==> MergedConfig(strategy, parent, child)[k] == child[k])
      && (forall k :: k in parent && k !in child ==> MergedConfig(strategy, parent, child)[k] == parent[k])
    ensures MergedConfig(strategy, map[], child) == child
  {
    UnionEmpty(child);
  }

  /**
   * Merging along a chain of groups: merging the child with a merged parent is merging with the
   * grandparent and then the parent, when both lower levels use "merge".
   */
  lemma MergedConfigChain(grand: Config, parent: Config, child: Config)
    ensures MergedConfig("merge", MergedConfig("merge", grand, parent), child)
      == MergedConfig("merge", grand, Union(parent, child))
  {
    UnionAssociative(grand, parent, child);
  }
}
