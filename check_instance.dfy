/**
 * Check instances: a check template applied at global, namespace or group scope
 * (services/config-server/internal/domain/check_instance.go).  The file carries its own copy of
 * `deepCopyValue`, identical to the one of script_policy.go; the model uses the one definition.
 */
module CheckInstance {
  import opened Wrappers
  import opened Values
  import opened DomainErrors
  import ScriptPolicy

  const ScopeGlobal := "global"
  const ScopeNamespace := "namespace"
  const ScopeGroup := "group"

  /** `CheckTemplate`: the reusable check script an instance is made from. */
  datatype CheckTemplate = CheckTemplate(
    id: string,
    name: string,
    checkType: string,
    scriptContent: string,
    language: string,
    defaultConfig: Config,
    description: string,
    version: string,
    hash: string)

  /** `CheckInstance`: the template snapshot plus scope, overrides and priority. */
  datatype Instance = Instance(
    id: string,
    name: string,
    checkType: string,
    scriptContent: string,
    language: string,
    defaultConfig: Config,
    description: string,
    version: string,
    hash: string,
    scope: string,
    namespaceId: Option<string>,
    groupId: Option<string>,
    config: Config,
    priority: int,
    isActive: bool,
    createdFromTemplateId: Option<string>,
    createdFromTemplateName: Option<string>,
    templateVersion: Option<string>,
    createdAt: int,
    updatedAt: int)

  /** `MergeConfig`: the default config with the instance's own config copied over it. */
  method MergeConfig(ci: Instance) returns (merged: Config)
    ensures merged.Keys == ci.defaultConfig.Keys + ci.config.Keys
    ensures forall k :: k in ci.config ==> merged[k] == ci.config[k]
    ensures forall k :: k in ci.defaultConfig && k !in ci.config ==> merged[k] == ci.defaultConfig[k]
  {
    merged := ScriptPolicy.PutAllCopies(map[], ci.defaultConfig);
    merged := ScriptPolicy.PutAllCopies(merged, ci.config);
  }

  function OrUnknown(id: Option<string>): string {
    if id.Some? then id.value else "unknown"
  }

  /** `GetScopeIdentifier`. */
  function ScopeIdentifier(ci: Instance): (s: string)
    ensures ci.scope == ScopeGlobal ==> s == "global"
    ensures ci.scope == ScopeNamespace ==> s == "namespace:" + OrUnknown(ci.namespaceId)
    ensures ci.scope == ScopeGroup ==> s == "group:" + OrUnknown(ci.groupId)
    ensures ci.scope !in {ScopeGlobal, ScopeNamespace, ScopeGroup} ==> s == "unknown"
  {
    if ci.scope == ScopeGlobal then "global"
    else if ci.scope == ScopeNamespace then "namespace:" + OrUnknown(ci.namespaceId)
    else if ci.scope == ScopeGroup then "group:" + OrUnknown(ci.groupId)
    else "unknown"
  }

  predicate RequiredPresent(ci: Instance) {
    ci.name != "" && ci.checkType != "" && ci.scriptContent != "" && ci.language != ""
    && ci.version != "" && ci.hash != "" && ci.scope != ""
  }

  /**
   * The three scopes: a global instance names neither a namespace nor a group, a namespace
   * instance names its namespace and no group, a group instance names both.
   */
  predicate ScopeConsistent(scope: string, namespaceId: Option<string>, groupId: Option<string>) {
    || (scope == ScopeGlobal && namespaceId.None? && groupId.None?)
    || (scope == ScopeNamespace && namespaceId.Some? && groupId.None?)
    || (scope == ScopeGroup && namespaceId.Some? && groupId.Some?)
  }

  /** The scope part of `Validate`, for a non-empty scope. */
  function ValidateScope(scope: string, namespaceId: Option<string>, groupId: Option<string>): (r: Option<ValidationError>)
    ensures r.None? <==> ScopeConsistent(scope, namespaceId, groupId)
    ensures r.Some? ==> r.value.field in {"scope", "namespace_id", "group_id"}
    ensures scope == ScopeGroup && groupId.None? ==> r == Some(ValidationError("group_id", "group_id is required for group scope"))
    ensures scope == ScopeGroup && groupId.Some? && namespaceId.None? ==>
      r == Some(ValidationError("namespace_id", "namespace_id is required for group scope"))
  {
    if scope == ScopeGlobal then
      if namespaceId.Some? || groupId.Some? then
        Some(ValidationError("scope", "global scope must not have namespace_id or group_id"))
      else None
    else if scope == ScopeNamespace then
      if namespaceId.None? then Some(ValidationError("namespace_id", "namespace_id is required for namespace scope"))
      else if groupId.Some? then Some(ValidationError("group_id", "namespace scope must not have group_id"))
      else None
    else if scope == ScopeGroup then
      if groupId.None? then Some(ValidationError("group_id", "group_id is required for group scope"))
      else if namespaceId.None? then Some(ValidationError("namespace_id", "namespace_id is required for group scope"))
      else None
    else Some(ValidationError("scope", "invalid scope value"))
  }

  /** The error for a missing required field. */
  function Required(field: string): ValidationError {
    ValidationError(field, field + " is required")
  }

  /**
   * `Validate`: every required field in order, then the scope.  It accepts exactly the
   * instances with all fields present and a consistent scope, and an empty field is reported
   * before any scope problem.
   */
  function Validate(ci: Instance): (r: Option<ValidationError>)
    ensures r.None? <==> RequiredPresent(ci) && ScopeConsistent(ci.scope, ci.namespaceId, ci.groupId)
    ensures !RequiredPresent(ci) ==> r.Some? && r.value == Required(r.value.field)
    ensures ci.name == "" ==> r == Some(Required("name"))
    ensures RequiredPresent(ci) ==> r == ValidateScope(ci.scope, ci.namespaceId, ci.groupId)
  {
    if ci.name == "" then Some(Required("name"))
    else if ci.checkType == "" then Some(Required("check_type"))
    else if ci.scriptContent == "" then Some(Required("script_content"))
    else if ci.language == "" then Some(Required("language"))
    else if ci.version == "" then Some(Required("version"))
    else if ci.hash == "" then Some(Required("hash"))
    else if ci.scope == "" then Some(Required("scope"))
    else ValidateScope(ci.scope, ci.namespaceId, ci.groupId)
  }

  /** On valid instances the scope identifier determines the scope and the ID it names. */
  lemma ScopeIdentifierDetermines(ci: Instance, cj: Instance)
    requires Validate(ci).None? && Validate(cj).None?
    requires ScopeIdentifier(ci) == ScopeIdentifier(cj)
    ensures ci.scope == cj.scope
    ensures ci.scope == ScopeNamespace ==> ci.namespaceId == cj.namespaceId
    ensures ci.scope == ScopeGroup ==> ci.groupId == cj.groupId
  {
    var a, b := ScopeIdentifier(ci), ScopeIdentifier(cj);
    if ci.scope != cj.scope {
      PrefixesDiffer(ci, cj);
    } else if ci.scope == ScopeNamespace {
      assert ci.namespaceId.value == a[10..] && cj.namespaceId.value == b[10..];
    } else if ci.scope == ScopeGroup {
      assert ci.groupId.value == a[6..] && cj.groupId.value == b[6..];
    }
  }

  lemma PrefixesDiffer(ci: Instance, cj: Instance)
    requires ci.scope in {ScopeGlobal, ScopeNamespace, ScopeGroup}
    requires cj.scope in {ScopeGlobal, ScopeNamespace, ScopeGroup}
    requires ci.scope != cj.scope
    ensures ScopeIdentifier(ci) != ScopeIdentifier(cj)
  {
    var a, b := ScopeIdentifier(ci), ScopeIdentifier(cj);
    assert a[0] != b[0] || a[1] != b[1];
  }

  /**
   * `NewCheckInstanceFromTemplate`: the template's fields with copies of both configs, the
   * given scope and IDs, priority 0, active, and the template's ID, name and version recorded.
   */
  method NewFromTemplate(t: CheckTemplate, scope: string, namespaceId: Option<string>, groupId: Option<string>,
                         overrideConfig: Config, now: int)
    returns (ci: Instance)
    ensures ci.name == t.name && ci.checkType == t.checkType && ci.scriptContent == t.scriptContent
    ensures ci.language == t.language && ci.description == t.description && ci.version == t.version && ci.hash == t.hash
    ensures ci.defaultConfig == t.defaultConfig && ci.config == overrideConfig
    ensures ci.scope == scope && ci.namespaceId == namespaceId && ci.groupId == groupId && ci.id == ""
    ensures ci.priority == 0 && ci.isActive
    ensures ci.createdFromTemplateId == Some(t.id) && ci.createdFromTemplateName == Some(t.name)
    ensures ci.templateVersion == Some(t.version) && ci.createdAt == now && ci.updatedAt == now
  {
    var defaultConfig := ScriptPolicy.PutAllCopies(map[], t.defaultConfig);
    var config := ScriptPolicy.PutAllCopies(map[], overrideConfig);
    UnionEmpty(t.defaultConfig);
    UnionEmpty(overrideConfig);
    ci := Instance("", t.name, t.checkType, t.scriptContent, t.language, defaultConfig, t.description,
      t.version, t.hash, scope, namespaceId, groupId, config, 0, true, Some(t.id), Some(t.name), Some(t.version), now, now);
  }
}
