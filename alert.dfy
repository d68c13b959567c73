/**
 * Alert templates and group alert rules (services/config-server/internal/domain/alert.go): the
 * severity check, the merging of rule configurations, their conversion to the map a query
 * template is rendered with, the parent/child rule merge and the rule built from a template.
 * Timestamps are integers passed in by the caller.
 */
module Alert {
  import opened Wrappers
  import opened Values

  /** The three severities an alert may carry. */
  datatype Severity = Critical | Warning | Info

  function SeverityName(v: Severity): string {
    match v
    case Critical => "critical"
    case Warning => "warning"
    case Info => "info"
  }

  /** `AlertSeverity.IsValid`: the text names one of the three severities. */
  predicate IsValidSeverity(s: string)
    ensures IsValidSeverity(s) <==> exists v :: SeverityName(v) == s
  {
    assert SeverityName(Critical) == "critical" && SeverityName(Warning) == "warning";
    assert SeverityName(Info) == "info";
    s == "critical" || s == "warning" || s == "info"
  }

  /** `AlertRuleConfig`; a nil map of the source is the empty map here. */
  datatype RuleConfig = RuleConfig(
    forDuration: string,
    labels: map<string, string>,
    annotations: map<string, string>,
    templateVars: Config)

  const EmptyConfig := RuleConfig("", map[], map[], map[])

  /**
   * What `Merge` computes: `other`'s labels, annotations and template variables copied over
   * the receiver's, and `other`'s duration when it has one.
   */
  function Merged(c: RuleConfig, other: RuleConfig): RuleConfig {
    RuleConfig(
      if other.forDuration != "" then other.forDuration else c.forDuration,
      Union(c.labels, other.labels),
      Union(c.annotations, other.annotations),
      Union(c.templateVars, other.templateVars))
  }

  /** `AlertRuleConfig.Merge`: fills three fresh maps in loops; the receiver is a value and stays as it was. */
  method Merge(c: RuleConfig, other: RuleConfig) returns (merged: RuleConfig)
    ensures merged == Merged(c, other)
  {
    var labels := PutAll(map[], c.labels);
    labels := PutAll(labels, other.labels);
    var annotations := PutAll(map[], c.annotations);
    annotations := PutAll(annotations, other.annotations);
    var vars := PutAll(map[], c.templateVars);
    vars := PutAll(vars, other.templateVars);
    UnionEmpty(c.labels);
    UnionEmpty(c.annotations);
    UnionEmpty(c.templateVars);
    merged := RuleConfig(c.forDuration, labels, annotations, vars);
    if other.forDuration != "" {
      merged := merged.(forDuration := other.forDuration);
    }
  }

  /** Every key of either side survives a merge, and `other`'s value wins. */
  lemma MergedKeys(c: RuleConfig, other: RuleConfig)
    ensures var m := Merged(c, other);
      && m.labels.Keys == c.labels.Keys + other.labels.Keys
      && m.annotations.Keys == c.annotations.Keys + other.annotations.Keys
      && m.templateVars.Keys == c.templateVars.Keys + other.templateVars.Keys
      && (forall k :: k in other.labels ==> m.labels[k] == other.labels[k])
      && (forall k :: k in c.labels && k !in other.labels ==> m.labels[k] == c.labels[k])
      && (forall k :: k in other.annotations ==> m.annotations[k] == other.annotations[k])
      && (forall k :: k in c.annotations && k !in other.annotations ==> m.annotations[k] == c.annotations[k])
      && (forall k :: k in other.templateVars ==> m.templateVars[k] == other.templateVars[k])
      && (forall k :: k in c.templateVars && k !in other.templateVars ==> m.templateVars[k] == c.templateVars[k])
      && (m.forDuration == if other.forDuration != "" then other.forDuration else c.forDuration)
  {
  }

  /** Merging is associative. */
  lemma MergedAssociative(a: RuleConfig, b: RuleConfig, c: RuleConfig)
    ensures Merged(Merged(a, b), c) == Merged(a, Merged(b, c))
  {
    UnionAssociative(a.labels, b.labels, c.labels);
    UnionAssociative(a.annotations, b.annotations, c.annotations);
    UnionAssociative(a.templateVars, b.templateVars, c.templateVars);
  }

  /** The empty config is the identity of merging on both sides. */
  lemma MergedIdentity(a: RuleConfig)
    ensures Merged(a, EmptyConfig) == a && Merged(EmptyConfig, a) == a
  {
    UnionEmpty(a.labels);
    UnionEmpty(a.annotations);
    UnionEmpty(a.templateVars);
  }

  /** Merging a config with itself changes nothing. */
  lemma MergedIdempotent(a: RuleConfig)
    ensures Merged(a, a) == a
  {
    UnionSelf(a.labels);
    UnionSelf(a.annotations);
    UnionSelf(a.templateVars);
  }

  /** The JSON value of a string map, as `ToMap` converts labels and annotations. */
  function StringValues(m: map<string, string>): map<string, Value> {
    map k | k in m :: Str(m[k])
  }

  /** `for k, v := range m { out[k] = v }` into a fresh `map[string]interface{}`. */
  method CopyStrings(m: map<string, string>) returns (out: map<string, Value>)
    ensures out == StringValues(m)
  {
    out := map[];
    var rest := m.Keys;
    while rest != {}
      invariant rest <= m.Keys
      invariant out == map k | k in m && k !in rest :: Str(m[k])
      decreases rest
    {
      var k :| k in rest;
      out := out[k := Str(m[k])];
      rest := rest - {k};
    }
  }

  /** What `ToMap` computes: the duration and the non-empty label and annotation maps, then the template variables on top. */
  function TemplateData(c: RuleConfig): Config {
    var withDuration: Config := if c.forDuration != "" then map["for_duration" := Str(c.forDuration)] else map[];
    var withLabels := if c.labels != map[] then withDuration["labels" := Obj(StringValues(c.labels))] else withDuration;
    var withAnnotations :=
      if c.annotations != map[] then withLabels["annotations" := Obj(StringValues(c.annotations))] else withLabels;
    Union(withAnnotations, c.templateVars)
  }

  /** `AlertRuleConfig.ToMap`. */
  method ToMap(c: RuleConfig) returns (result: Config)
    ensures result == TemplateData(c)
  {
    result := map[];
    if c.forDuration != "" {
      result := result["for_duration" := Str(c.forDuration)];
    }
    if c.labels != map[] {
      var labels := CopyStrings(c.labels);
      result := result["labels" := Obj(labels)];
    }
    if c.annotations != map[] {
      var annotations := CopyStrings(c.annotations);
      result := result["annotations" := Obj(annotations)];
    }
    result := PutAll(result, c.templateVars);
  }

  /**
   * The template data holds "for_duration" only for a non-empty duration (unless a template
   * variable of that name supplies it), every template variable as given, and the labels as
   * JSON strings unless a template variable named "labels" replaces them.
   */
  lemma TemplateDataShape(c: RuleConfig)
    ensures "for_duration" in TemplateData(c) <==> c.forDuration != "" || "for_duration" in c.templateVars
    ensures "for_duration" !in c.templateVars && c.forDuration != "" ==>
      TemplateData(c)["for_duration"] == Str(c.forDuration)
    ensures forall k :: k in c.templateVars ==> TemplateData(c)[k] == c.templateVars[k]
    ensures "labels" in TemplateData(c) <==> c.labels != map[] || "labels" in c.templateVars
    ensures "labels" !in c.templateVars && c.labels != map[] ==>
      TemplateData(c)["labels"] == Obj(map k | k in c.labels :: Str(c.labels[k]))
    ensures "annotations" in TemplateData(c) <==> c.annotations != map[] || "annotations" in c.templateVars
    ensures TemplateData(c).Keys <= {"for_duration", "labels", "annotations"} + c.templateVars.Keys
  {
  }

  /** `AlertTemplate`: a reusable alert definition. */
  datatype AlertTemplate = AlertTemplate(
    id: string,
    name: string,
    description: string,
    severity: string,
    queryTemplate: string,
    defaultConfig: RuleConfig)

  /** `AlertRule`: a template snapshot plus the rule's own configuration. */
  datatype AlertRule = AlertRule(
    id: string,
    groupId: string,
    name: string,
    description: string,
    severity: string,
    queryTemplate: string,
    defaultConfig: RuleConfig,
    enabled: bool,
    config: RuleConfig,
    mergeStrategy: string,
    priority: int,
    createdFromTemplateId: Option<string>,
    createdFromTemplateName: Option<string>,
    deletedAt: Option<int>,
    createdAt: int,
    updatedAt: int)

  /**
   * `AlertRule.MergeWith`: without a parent the rule itself; otherwise a copy of the rule
   * without its deletion time, whose configuration is the rule's own under "override" and
   * the parent's merged with the rule's under any other strategy.
   */
  function MergeWith(ar: AlertRule, parent: Option<AlertRule>): (m: AlertRule)
    ensures parent.None? ==> m == ar
    ensures parent.Some? ==> m.deletedAt.None? && m == ar.(config := m.config, deletedAt := None)
    ensures parent.Some? && ar.mergeStrategy == "override" ==> m.config == ar.config
    ensures parent.Some? && ar.mergeStrategy != "override" ==> m.config == Merged(parent.value.config, ar.config)
  {
    match parent
    case None => ar
    case Some(p) =>
      ar.(config := if ar.mergeStrategy == "override" then ar.config else Merged(p.config, ar.config),
          deletedAt := None)
  }

  /**
   * Under "override" the parent is irrelevant; under any other strategy the child's labels,
   * annotations and template variables win over the parent's, the parent's others are kept,
   * and a parent with an empty config leaves the child's config as it is.
   */
  lemma MergeWithParent(ar: AlertRule, p: AlertRule, q: AlertRule)
    ensures ar.mergeStrategy == "override" ==> MergeWith(ar, Some(p)) == MergeWith(ar, Some(q))
    ensures ar.mergeStrategy != "override" ==>
      var c := MergeWith(ar, Some(p)).config;
      && (forall k :: k in ar.config.labels ==> c.labels[k] == ar.config.labels[k])
      && (forall k :: k in p.config.labels && k !in ar.config.labels ==> c.labels[k] == p.config.labels[k])
      && (forall k :: k in ar.config.templateVars ==> c.templateVars[k] == ar.config.templateVars[k])
      && c.labels.Keys == p.config.labels.Keys + ar.config.labels.Keys
    ensures p.config == EmptyConfig ==> MergeWith(ar, Some(p)).config == ar.config
  {
    MergedIdentity(ar.config);
  }

  /**
   * `NewAlertRuleFromTemplate`: the template's fields copied, the override as the rule's
   * config, enabled, strategy "merge", priority 0 and the template's ID and name recorded.
   */
  function NewAlertRuleFromTemplate(t: AlertTemplate, groupId: string, overrideConfig: RuleConfig, now: int): (r: AlertRule)
    ensures r.enabled && r.mergeStrategy == "merge" && r.priority == 0
    ensures r.createdFromTemplateId == Some(t.id) && r.createdFromTemplateName == Some(t.name)
    ensures r.name == t.name && r.description == t.description && r.severity == t.severity
    ensures r.queryTemplate == t.queryTemplate && r.defaultConfig == t.defaultConfig
    ensures r.groupId == groupId && r.config == overrideConfig && r.id == ""
    ensures r.deletedAt.None? && r.createdAt == now && r.updatedAt == now
  {
    AlertRule("", groupId, t.name, t.description, t.severity, t.queryTemplate, t.defaultConfig,
      true, overrideConfig, "merge", 0, Some(t.id), Some(t.name), None, now, now)
  }

  /** A rule fresh from a template merges its parent's config under its own override. */
  lemma FromTemplateMerges(t: AlertTemplate, groupId: string, overrideConfig: RuleConfig, now: int, parent: AlertRule)
    ensures MergeWith(NewAlertRuleFromTemplate(t, groupId, overrideConfig, now), Some(parent)).config
      == Merged(parent.config, overrideConfig)
  {
  }
}
