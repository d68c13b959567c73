/**
 * Script policies: a script template applied at global or group scope
 * (services/config-server/internal/domain/script_policy.go).  The config maps are JSON objects;
 * a nil pointer of the source is `None`, a nil map the empty map.
 */
module ScriptPolicy {
  import opened Wrappers
  import opened Values
  import opened DomainErrors

  /**
   * `deepCopyValue`: objects and arrays are rebuilt element by element, everything else is
   * returned as it is.  The copy is structurally equal to the original.
   */
  function DeepCopy(v: Value): (r: Value)
    ensures r == v
  {
    match v
    case Obj(m) =>
      var copy := map k | k in m :: DeepCopy(m[k]);
      assert copy == m;
      Obj(copy)
    case Arr(items) =>
      var copy := seq(|items|, i requires 0 <= i < |items| => DeepCopy(items[i]));
      assert copy == items;
      Arr(copy)
    case _ => v
  }

  /** `for k, v := range src { dst[k] = deepCopyValue(v) }`. */
  method PutAllCopies(dst: Config, src: Config) returns (r: Config)
    ensures r == Union(dst, src)
  {
    r := dst;
    var rest := src.Keys;
    while rest != {}
      invariant rest <= src.Keys
      invariant r.Keys == dst.Keys + (src.Keys - rest)
      invariant forall k :: k in src && k !in rest ==> r[k] == src[k]
      invariant forall k :: k in dst && (k !in src || k in rest) ==> r[k] == dst[k]
      decreases rest
    {
      var k :| k in rest;
      r := r[k := DeepCopy(src[k])];
      rest := rest - {k};
    }
  }

  const ScopeGlobal := "global"
  const ScopeGroup := "group"

  /** `ScriptTemplate`: the reusable script a policy is made from. */
  datatype ScriptTemplate = ScriptTemplate(
    id: string,
    name: string,
    scriptType: string,
    scriptContent: string,
    language: string,
    defaultConfig: Config,
    description: string,
    version: string,
    hash: string)

  /** `ScriptPolicy`: the template snapshot plus the policy's scope, overrides and priority. */
  datatype Policy = Policy(
    id: string,
    name: string,
    scriptType: string,
    scriptContent: string,
    language: string,
    defaultConfig: Config,
    description: string,
    version: string,
    hash: string,
    scope: string,
    groupId: Option<string>,
    config: Config,
    priority: int,
    isActive: bool,
    createdFromTemplateId: Option<string>,
    createdFromTemplateName: Option<string>,
    templateVersion: Option<string>,
    createdAt: int,
    updatedAt: int)

  /** `MergeConfig`: the default config with the policy's own config copied over it. */
  method MergeConfig(p: Policy) returns (merged: Config)
    ensures merged.Keys == p.defaultConfig.Keys + p.config.Keys
    ensures forall k :: k in p.config ==> merged[k] == p.config[k]
    ensures forall k :: k in p.defaultConfig && k !in p.config ==> merged[k] == p.defaultConfig[k]
  {
    merged := PutAllCopies(map[], p.defaultConfig);
    merged := PutAllCopies(merged, p.config);
  }

  /** `GetScopeIdentifier`. */
  function ScopeIdentifier(p: Policy): (s: string)
    ensures p.scope == ScopeGlobal ==> s == "global"
    ensures p.scope == ScopeGroup ==> s == "group:" + (if p.groupId.Some? then p.groupId.value else "unknown")
    ensures p.scope != ScopeGlobal && p.scope != ScopeGroup ==> s == "unknown"
  {
    if p.scope == ScopeGlobal then "global"
    else if p.scope == ScopeGroup then
      match p.groupId
      case Some(g) => "group:" + g
      case None => "group:unknown"
    else "unknown"
  }

  /** Every required field is present. */
  predicate RequiredPresent(p: Policy) {
    p.name != "" && p.scriptType != "" && p.scriptContent != "" && p.language != ""
    && p.version != "" && p.hash != "" && p.scope != ""
  }

  /** A global policy names no group; a group policy names one; no other scope exists. */
  predicate ScopeConsistent(p: Policy) {
    (p.scope == ScopeGlobal && p.groupId.None?) || (p.scope == ScopeGroup && p.groupId.Some?)
  }

  /** The fields `Validate` may report. */
  predicate IsPolicyField(f: string) {
    f in {"name", "script_type", "script_content", "language", "version", "hash", "scope", "group_id"}
  }

  /**
   * `Validate`: the required fields in order, then the scope; the first failure is reported.
   * It accepts exactly the policies with every field present and a consistent scope.
   */
  function Validate(p: Policy): (r: Option<ValidationError>)
    ensures r.None? <==> RequiredPresent(p) && ScopeConsistent(p)
    ensures r.Some? ==> IsPolicyField(r.value.field)
    ensures p.name == "" ==> r == Some(ValidationError("name", "name is required"))
    ensures p.name != "" && p.scriptType == "" ==> r == Some(ValidationError("script_type", "script_type is required"))
    ensures RequiredPresent(p) && p.scope == ScopeGroup && p.groupId.None? ==>
      r == Some(ValidationError("group_id", "group_id is required for group scope"))
    ensures RequiredPresent(p) && p.scope != ScopeGlobal && p.scope != ScopeGroup ==>
      r == Some(ValidationError("scope", "invalid scope value: must be 'global' or 'group'"))
  {
    if p.name == "" then Some(ValidationError("name", "name is required"))
    else if p.scriptType == "" then Some(ValidationError("script_type", "script_type is required"))
    else if p.scriptContent == "" then Some(ValidationError("script_content", "script_content is required"))
    else if p.language == "" then Some(ValidationError("language", "language is required"))
    else if p.version == "" then Some(ValidationError("version", "version is required"))
    else if p.hash == "" then Some(ValidationError("hash", "hash is required"))
    else if p.scope == "" then Some(ValidationError("scope", "scope is required"))
    else if p.scope == ScopeGlobal then
      if p.groupId.Some? then Some(ValidationError("scope", "global scope must not have group_id")) else None
    else if p.scope == ScopeGroup then
      if p.groupId.None? then Some(ValidationError("group_id", "group_id is required for group scope")) else None
    else Some(ValidationError("scope", "invalid scope value: must be 'global' or 'group'"))
  }

  /** On policies that pass `Validate`, the scope identifier determines the scope and the group. */
  lemma ScopeIdentifierInjective(p: Policy, q: Policy)
    requires Validate(p).None? && Validate(q).None?
    requires ScopeIdentifier(p) == ScopeIdentifier(q)
    ensures p.scope == q.scope && p.groupId == q.groupId
  {
    if p.scope != q.scope {
      GroupIsNotGlobal(if p.scope == ScopeGroup then p.groupId else q.groupId);
    } else if p.scope == ScopeGroup {
      assert p.groupId.value == ScopeIdentifier(p)[6..];
      assert q.groupId.value == ScopeIdentifier(q)[6..];
    }
  }

  lemma GroupIsNotGlobal(g: Option<string>)
    ensures "group:" + (if g.Some? then g.value else "unknown") != "global"
  {
    var s := "group:" + (if g.Some? then g.value else "unknown");
    assert s[1] == 'r';
  }

  /**
   * `NewScriptPolicyFromTemplate`: the template's fields with deep copies of its default config
   * and of the override config, the given scope and group, priority 0, active, and the
   * template's ID, name and version recorded.
   */
  method NewFromTemplate(t: ScriptTemplate, scope: string, groupId: Option<string>, overrideConfig: Config, now: int)
    returns (p: Policy)
    ensures p.name == t.name && p.scriptType == t.scriptType && p.scriptContent == t.scriptContent
    ensures p.language == t.language && p.description == t.description && p.version == t.version && p.hash == t.hash
    ensures p.defaultConfig == t.defaultConfig && p.config == overrideConfig
    ensures p.scope == scope && p.groupId == groupId && p.id == ""
    ensures p.priority == 0 && p.isActive
    ensures p.createdFromTemplateId == Some(t.id) && p.createdFromTemplateName == Some(t.name)
    ensures p.templateVersion == Some(t.version) && p.createdAt == now && p.updatedAt == now
  {
    var defaultConfig := PutAllCopies(map[], t.defaultConfig);
    var config := PutAllCopies(map[], overrideConfig);
    UnionEmpty(t.defaultConfig);
    UnionEmpty(overrideConfig);
    p := Policy("", t.name, t.scriptType, t.scriptContent, t.language, defaultConfig, t.description,
      t.version, t.hash, scope, groupId, config, 0, true, Some(t.id), Some(t.name), Some(t.version), now, now);
  }

  /**
   * A policy made from a template that passes the template checks (name, type, content,
   * language, version and hash present) is valid exactly when its scope and group agree.
   */
  lemma FromTemplateValid(t: ScriptTemplate, p: Policy)
    requires t.name != "" && t.scriptType != "" && t.scriptContent != "" && t.language != ""
    requires t.version != "" && t.hash != ""
    requires p.name == t.name && p.scriptType == t.scriptType && p.scriptContent == t.scriptContent
    requires p.language == t.language && p.version == t.version && p.hash == t.hash
    ensures Validate(p).None? <==> (p.scope == ScopeGlobal && p.groupId.None?) || (p.scope == ScopeGroup && p.groupId.Some?)
  {
  }
}
