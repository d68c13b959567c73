/**
 * The script-policy service's own rules (services/config-server/internal/service/script_policy.go):
 * the scope-consistency check run before a policy is created, and the defaults the two create
 * paths fill in.  The repository calls are oracles: the error (if any) of the namespace and group
 * lookups, the template lookup's answer, the insert's error and the read-back by ID; the random
 * policy ID is a parameter.
 */
module ScriptPolicyService {
  import opened Wrappers
  import opened Values
  import opened DomainErrors
  import ScriptPolicy
  import CheckInstance

  /**
   * `validateScopeConsistency`: global takes neither a namespace nor a group, namespace takes a
   * namespace and no group, group takes both; any other scope is invalid.  It is the same check,
   * with the same errors, as the scope part of the check-instance `Validate`.
   */
  function ValidateScopeConsistency(scope: string, namespaceId: Option<string>, groupId: Option<string>)
    : (r: Option<ValidationError>)
    ensures r.None? <==> CheckInstance.ScopeConsistent(scope, namespaceId, groupId)
    ensures r == CheckInstance.ValidateScope(scope, namespaceId, groupId)
  {
    match scope
    case "global" =>
      if namespaceId.Some? || groupId.Some? then
        Some(ValidationError("scope", "global scope must not have namespace_id or group_id"))
      else None
    case "namespace" =>
      if namespaceId.None? then Some(ValidationError("namespace_id", "namespace_id is required for namespace scope"))
      else if groupId.Some? then Some(ValidationError("group_id", "namespace scope must not have group_id"))
      else None
    case "group" =>
      if groupId.None? then Some(ValidationError("group_id", "group_id is required for group scope"))
      else if namespaceId.None? then Some(ValidationError("namespace_id", "namespace_id is required for group scope"))
      else None
    case _ => Some(ValidationError("scope", "invalid scope value"))
  }

  /**
   * The service admits namespace-scoped policies, but the domain `Validate` of a script policy
   * knows only the global and group scopes and rejects every namespace-scoped policy.
   */
  lemma NamespaceScopeMismatch(p: ScriptPolicy.Policy, ns: string)
    requires p.scope == "namespace"
    ensures ValidateScopeConsistency(p.scope, Some(ns), None).None?
    ensures ScriptPolicy.Validate(p).Some?
  {
  }

  /**
   * What a repository call fails with: the not-found sentinel, or any other error, which the
   * service hands back unchanged.
   */
  datatype RepoError = NotFound | Failed(message: string)

  /** Why a create request fails. */
  datatype CreateError = Invalid(err: ValidationError) | ForeignKeyViolation | Repository(cause: RepoError)

  /** The request of `CreateFromTemplate`; a nil config is `None`. */
  datatype FromTemplateRequest = FromTemplateRequest(
    templateId: string,
    scope: string,
    namespaceId: Option<string>,
    groupId: Option<string>,
    config: Option<Config>,
    priority: int,
    isActive: bool)

  /** The request of `CreateDirect`. */
  datatype DirectRequest = DirectRequest(
    name: string,
    scriptType: string,
    scriptContent: string,
    language: string,
    defaultConfig: Option<Config>,
    description: string,
    version: string,
    scope: string,
    namespaceId: Option<string>,
    groupId: Option<string>,
    config: Option<Config>,
    priority: int,
    isActive: bool)

  /** A nil config becomes the empty object. */
  function ConfigOrEmpty(c: Option<Config>): (r: Config)
    ensures c.Some? ==> r == c.value
    ensures c.None? ==> r == map[]
  {
    if c.Some? then c.value else map[]
  }

  /** Priority 0 means "unset" and becomes 100; the result is never 0 and keeps any set priority. */
  function PriorityOrDefault(p: int): (r: int)
    ensures r != 0
    ensures p != 0 ==> r == p
    ensures p == 0 ==> r == 100
  {
    if p == 0 then 100 else p
  }

  /** Applying the defaults twice is applying them once. */
  lemma DefaultsIdempotent(c: Option<Config>, p: int)
    ensures ConfigOrEmpty(Some(ConfigOrEmpty(c))) == ConfigOrEmpty(c)
    ensures PriorityOrDefault(PriorityOrDefault(p)) == PriorityOrDefault(p)
  {
  }

  /**
   * A failed reference lookup: not found becomes a foreign-key violation, any other error is
   * returned as it is.
   */
  function LookupFailure(e: RepoError): (r: CreateError)
    ensures r == ForeignKeyViolation <==> e == NotFound
    ensures r != ForeignKeyViolation ==> r == Repository(e)
  {
    if e == NotFound then ForeignKeyViolation else Repository(e)
  }

  /**
   * The namespace and group lookups every create path makes after the scope check, in that
   * order; a lookup answers `None` when the row exists and is made only for an ID the request
   * names.  `None` when every named reference exists.
   */
  function ReferenceFailure(namespaceId: Option<string>, groupId: Option<string>,
                            namespaceLookup: Option<RepoError>, groupLookup: Option<RepoError>)
    : (r: Option<CreateError>)
    ensures r.None? <==> (namespaceId.Some? ==> namespaceLookup.None?) && (groupId.Some? ==> groupLookup.None?)
    ensures namespaceId.Some? && namespaceLookup.Some? ==> r == Some(LookupFailure(namespaceLookup.value))
    ensures r.Some? && !(namespaceId.Some? && namespaceLookup.Some?) ==>
      groupId.Some? && groupLookup.Some? && r == Some(LookupFailure(groupLookup.value))
  {
    if namespaceId.Some? && namespaceLookup.Some? then Some(LookupFailure(namespaceLookup.value))
    else if groupId.Some? && groupLookup.Some? then Some(LookupFailure(groupLookup.value))
    else None
  }

  /**
   * Storing a built policy: the insert's error is returned as it is; after a successful insert
   * the policy is read back by its ID, and the row read (or the read's error) is the answer.
   */
  function Stored(p: ScriptPolicy.Policy, insert: ScriptPolicy.Policy -> Option<RepoError>,
                  reread: string -> Outcome<ScriptPolicy.Policy, RepoError>)
    : (r: Outcome<ScriptPolicy.Policy, CreateError>)
    ensures r.Success? <==> insert(p).None? && reread(p.id).Success?
    ensures r.Success? ==> r.value == reread(p.id).value
    ensures insert(p).Some? ==> r == Failure(Repository(insert(p).value))
    ensures insert(p).None? && reread(p.id).Failure? ==> r == Failure(Repository(reread(p.id).error))
  {
    if insert(p).Some? then Failure(Repository(insert(p).value))
    else if reread(p.id).Failure? then Failure(Repository(reread(p.id).error))
    else Success(reread(p.id).value)
  }

  /**
   * The policy `CreateFromTemplate` inserts: the template's fields and origin, the request's
   * scope and group, the config and priority defaulted, the new ID and the request's activity
   * flag.
   */
  function TemplatePolicy(req: FromTemplateRequest, t: ScriptPolicy.ScriptTemplate, newId: string, now: int)
    : (p: ScriptPolicy.Policy)
    ensures p.id == newId && p.scope == req.scope && p.groupId == req.groupId && p.isActive == req.isActive
    ensures p.config == ConfigOrEmpty(req.config) && p.priority == PriorityOrDefault(req.priority)
    ensures p.name == t.name && p.scriptContent == t.scriptContent && p.hash == t.hash
    ensures p.defaultConfig == t.defaultConfig
    ensures p.createdFromTemplateId == Some(t.id) && p.templateVersion == Some(t.version)
  {
    ScriptPolicy.Policy(newId, t.name, t.scriptType, t.scriptContent, t.language, t.defaultConfig,
      t.description, t.version, t.hash, req.scope, req.groupId, ConfigOrEmpty(req.config),
      PriorityOrDefault(req.priority), req.isActive, Some(t.id), Some(t.name), Some(t.version), now, now)
  }

  /**
   * `CreateFromTemplate`: an inconsistent scope is reported as is; then the namespace, group
   * and template lookups, where not found is a foreign-key violation and any other error is
   * passed on; then the policy built from the template is stored and read back.  A foreign-key
   * violation comes only from a lookup that did not find its row.
   */
  method CreateFromTemplate(req: FromTemplateRequest, namespaceLookup: Option<RepoError>, groupLookup: Option<RepoError>,
                            template: Outcome<ScriptPolicy.ScriptTemplate, RepoError>, newId: string, now: int,
                            insert: ScriptPolicy.Policy -> Option<RepoError>,
                            reread: string -> Outcome<ScriptPolicy.Policy, RepoError>)
    returns (r: Outcome<ScriptPolicy.Policy, CreateError>)
    ensures ValidateScopeConsistency(req.scope, req.namespaceId, req.groupId).Some? ==>
      r == Failure(Invalid(ValidateScopeConsistency(req.scope, req.namespaceId, req.groupId).value))
    ensures ValidateScopeConsistency(req.scope, req.namespaceId, req.groupId).None? ==>
      var refs := ReferenceFailure(req.namespaceId, req.groupId, namespaceLookup, groupLookup);
      && (refs.Some? ==> r == Failure(refs.value))
      && (refs.None? && template.Failure? ==> r == Failure(LookupFailure(template.error)))
      && (refs.None? && template.Success? ==> r == Stored(TemplatePolicy(req, template.value, newId, now), insert, reread))
    ensures r == Failure(ForeignKeyViolation) ==>
      || (req.namespaceId.Some? && namespaceLookup == Some(NotFound))
      || (req.groupId.Some? && groupLookup == Some(NotFound))
      || template == Failure(NotFound)
  {
    var err := ValidateScopeConsistency(req.scope, req.namespaceId, req.groupId);
    if err.Some? {
      return Failure(Invalid(err.value));
    }
    if req.namespaceId.Some? && namespaceLookup.Some? {
      return Failure(LookupFailure(namespaceLookup.value));
    }
    if req.groupId.Some? && groupLookup.Some? {
      return Failure(LookupFailure(groupLookup.value));
    }
    if template.Failure? {
      return Failure(LookupFailure(template.error));
    }
    var config := req.config;
    var c := if config.None? then map[] else config.value;
    var priority := req.priority;
    if priority == 0 {
      priority := 100;
    }
    var p := ScriptPolicy.NewFromTemplate(template.value, req.scope, req.groupId, c, now);
    p := p.(id := newId, priority := priority, isActive := req.isActive);
    assert p == TemplatePolicy(req, template.value, newId, now);
    var inserted := insert(p);
    if inserted.Some? {
      return Failure(Repository(inserted.value));
    }
    var stored := reread(p.id);
    if stored.Failure? {
      return Failure(Repository(stored.error));
    }
    return Success(stored.value);
  }

  /**
   * The policy `CreateDirect` inserts: the request's own fields, both configs and the priority
   * defaulted, the new ID, no hash and no template origin.
   */
  function DirectPolicy(req: DirectRequest, newId: string, now: int): (p: ScriptPolicy.Policy)
    ensures p.id == newId && p.name == req.name && p.scriptType == req.scriptType
    ensures p.scriptContent == req.scriptContent && p.language == req.language && p.version == req.version
    ensures p.config == ConfigOrEmpty(req.config) && p.defaultConfig == ConfigOrEmpty(req.defaultConfig)
    ensures p.priority == PriorityOrDefault(req.priority) && p.isActive == req.isActive
    ensures p.scope == req.scope && p.groupId == req.groupId && p.hash == "" && p.createdFromTemplateId.None?
  {
    ScriptPolicy.Policy(newId, req.name, req.scriptType, req.scriptContent, req.language,
      ConfigOrEmpty(req.defaultConfig), req.description, req.version, "", req.scope, req.groupId,
      ConfigOrEmpty(req.config), PriorityOrDefault(req.priority), req.isActive, None, None, None, now, now)
  }

  /**
   * `CreateDirect`: the same scope check and reference lookups, with the same errors; then the
   * policy built from the request is stored and read back.
   */
  method CreateDirect(req: DirectRequest, namespaceLookup: Option<RepoError>, groupLookup: Option<RepoError>,
                      newId: string, now: int,
                      insert: ScriptPolicy.Policy -> Option<RepoError>,
                      reread: string -> Outcome<ScriptPolicy.Policy, RepoError>)
    returns (r: Outcome<ScriptPolicy.Policy, CreateError>)
    ensures ValidateScopeConsistency(req.scope, req.namespaceId, req.groupId).Some? ==>
      r == Failure(Invalid(ValidateScopeConsistency(req.scope, req.namespaceId, req.groupId).value))
    ensures ValidateScopeConsistency(req.scope, req.namespaceId, req.groupId).None? ==>
      var refs := ReferenceFailure(req.namespaceId, req.groupId, namespaceLookup, groupLookup);
      && (refs.Some? ==> r == Failure(refs.value))
      && (refs.None? ==> r == Stored(DirectPolicy(req, newId, now), insert, reread))
    ensures r == Failure(ForeignKeyViolation) ==>
      || (req.namespaceId.Some? && namespaceLookup == Some(NotFound))
      || (req.groupId.Some? && groupLookup == Some(NotFound))
  {
    var err := ValidateScopeConsistency(req.scope, req.namespaceId, req.groupId);
    if err.Some? {
      return Failure(Invalid(err.value));
    }
    if req.namespaceId.Some? && namespaceLookup.Some? {
      return Failure(LookupFailure(namespaceLookup.value));
    }
    if req.groupId.Some? && groupLookup.Some? {
      return Failure(LookupFailure(groupLookup.value));
    }
    var config := if req.config.None? then map[] else req.config.value;
    var defaultConfig := if req.defaultConfig.None? then map[] else req.defaultConfig.value;
    var priority := req.priority;
    if priority == 0 {
      priority := 100;
    }
    var p := ScriptPolicy.Policy(newId, req.name, req.scriptType, req.scriptContent, req.language, defaultConfig,
      req.description, req.version, "", req.scope, req.groupId, config, priority, req.isActive,
      None, None, None, now, now);
    assert p == DirectPolicy(req, newId, now);
    var inserted := insert(p);
    if inserted.Some? {
      return Failure(Repository(inserted.value));
    }
    var stored := reread(p.id);
    if stored.Failure? {
      return Failure(Repository(stored.error));
    }
    return Success(stored.value);
  }

  /** A policy created directly never passes the domain `Validate`, for want of a hash. */
  lemma DirectPolicyHasNoHash(p: ScriptPolicy.Policy)
    requires p.hash == "" && p.name != "" && p.scriptType != "" && p.scriptContent != ""
    requires p.language != "" && p.version != ""
    ensures ScriptPolicy.Validate(p) == Some(ValidationError("hash", "hash is required"))
  {
  }
}
