/**
 * The Prometheus rule generator (services/config-server/internal/service/prometheus_rule_generator.go):
 * a group's enabled alert rules become one Prometheus rule group, which is written to the
 * group's rule file, or the file is deleted when the group has no enabled rules.
 *
 * The repositories are parameters (the group's name or the lookup error, the group's rules or
 * the listing error), as are the query rendering of each rule and the YAML marshalling.
 */
module RuleGenerator {
  import opened Wrappers
  import opened Values
  import opened Alert
  import RuleFiles

  /** `PrometheusRule` (domain/prometheus_rule.go): one alerting rule. */
  datatype PrometheusRule = PrometheusRule(
    alert: string,
    expr: string,
    forDuration: string,
    labels: map<string, string>,
    annotations: map<string, string>)

  /** `PrometheusRuleGroup`; `NewPrometheusRuleGroup` leaves the interval empty. */
  datatype RuleGroup = RuleGroup(name: string, interval: string, rules: seq<PrometheusRule>)

  /** `PrometheusRuleFile`. */
  datatype RuleFile = RuleFile(groups: seq<RuleGroup>)

  /** The errors the generator wraps, each with the detail of its cause. */
  datatype GenError =
    | GroupRetrievalFailed(detail: string)
    | AlertRulesListFailed(detail: string)
    | NoValidRules
    | QueryRenderingFailed(detail: string)
    | RuleMarshalingFailed(detail: string)
    | RuleWriteFailed(detail: string)
    | RuleDeleteFailed(detail: string)

  /** A rule that takes part in generation: enabled and not soft-deleted. */
  predicate Active(r: AlertRule) {
    r.enabled && r.deletedAt.None?
  }

  /** The filter of `getEnabledRulesForGroup`, keeping the repository's order. */
  function EnabledRules(rules: seq<AlertRule>): seq<AlertRule> {
    if rules == [] then []
    else
      var kept := EnabledRules(rules[..|rules| - 1]);
      if Active(rules[|rules| - 1]) then kept + [rules[|rules| - 1]] else kept
  }

  /** Exactly the active rules are kept, and never more rules than were listed. */
  lemma {:induction false} EnabledRulesFacts(rules: seq<AlertRule>)
    ensures |EnabledRules(rules)| <= |rules|
    ensures forall x :: x in EnabledRules(rules) <==> x in rules && Active(x)
  {
    if rules != [] {
      var init := rules[..|rules| - 1];
      EnabledRulesFacts(init);
      assert rules == init + [rules[|rules| - 1]];
    }
  }

  /** The filter keeps order: filtering a concatenation concatenates the filtered parts. */
  lemma {:induction false} EnabledRulesConcat(a: seq<AlertRule>, b: seq<AlertRule>)
    ensures EnabledRules(a + b) == EnabledRules(a) + EnabledRules(b)
  {
    if b == [] {
      assert a + b == a;
    } else {
      var init := b[..|b| - 1];
      EnabledRulesConcat(a, init);
      assert (a + b)[..|a + b| - 1] == a + init;
    }
  }

  /** `getEnabledRulesForGroup` after the repository call. */
  method GetEnabledRules(listed: Result<seq<AlertRule>>) returns (r: Outcome<seq<AlertRule>, GenError>)
    ensures listed.Err? ==> r == Failure(AlertRulesListFailed(listed.error))
    ensures listed.Ok? ==> r == Success(EnabledRules(listed.value))
  {
    if listed.Err? {
      return Failure(AlertRulesListFailed(listed.error));
    }
    var rules := listed.value;
    var enabled := [];
    var i := 0;
    while i < |rules|
      invariant i <= |rules| && enabled == EnabledRules(rules[..i])
    {
      assert rules[..i + 1][..i] == rules[..i];
      if rules[i].enabled && rules[i].deletedAt.None? {
        enabled := enabled + [rules[i]];
      }
      i := i + 1;
    }
    assert rules[..i] == rules;
    r := Success(enabled);
  }

  /** The labels every rule starts with. */
  function BaseLabels(rule: AlertRule): map<string, string> {
    map["severity" := rule.severity, "group_id" := rule.groupId]
  }

  /** What `buildLabels` returns: the base labels with the config's labels copied over them. */
  function RuleLabels(rule: AlertRule, c: RuleConfig): map<string, string> {
    Union(BaseLabels(rule), c.labels)
  }

  /** The annotations every rule starts with. */
  function BaseAnnotations(rule: AlertRule): map<string, string> {
    map["summary" := rule.name, "description" := rule.description]
  }

  /** What `buildAnnotations` returns: the base annotations with the config's copied over them. */
  function RuleAnnotations(rule: AlertRule, c: RuleConfig): map<string, string> {
    Union(BaseAnnotations(rule), c.annotations)
  }

  /**
   * The labels hold "severity", "group_id" and every config label; a config label wins, and
   * the two base labels are the rule's severity and group where the config does not set them.
   * The annotations likewise hold "summary" (the name), "description" and the config's.
   */
  lemma LabelsAndAnnotations(rule: AlertRule, c: RuleConfig)
    ensures RuleLabels(rule, c).Keys == {"severity", "group_id"} + c.labels.Keys
    ensures forall k :: k in c.labels ==> RuleLabels(rule, c)[k] == c.labels[k]
    ensures "severity" !in c.labels ==> RuleLabels(rule, c)["severity"] == rule.severity
    ensures "group_id" !in c.labels ==> RuleLabels(rule, c)["group_id"] == rule.groupId
    ensures RuleAnnotations(rule, c).Keys == {"summary", "description"} + c.annotations.Keys
    ensures forall k :: k in c.annotations ==> RuleAnnotations(rule, c)[k] == c.annotations[k]
    ensures "summary" !in c.annotations ==> RuleAnnotations(rule, c)["summary"] == rule.name
    ensures "description" !in c.annotations ==> RuleAnnotations(rule, c)["description"] == rule.description
  {
    assert BaseLabels(rule).Keys == {"severity", "group_id"};
    assert BaseAnnotations(rule).Keys == {"summary", "description"};
  }

  /** `buildLabels`: a fresh map literal, then the config's labels copied in. */
  method BuildLabels(rule: AlertRule, c: RuleConfig) returns (labels: map<string, string>)
    ensures labels == RuleLabels(rule, c)
  {
    labels := map["severity" := rule.severity, "group_id" := rule.groupId];
    labels := PutAll(labels, c.labels);
  }

  /** `buildAnnotations`. */
  method BuildAnnotations(rule: AlertRule, c: RuleConfig) returns (annotations: map<string, string>)
    ensures annotations == RuleAnnotations(rule, c)
  {
    annotations := map["summary" := rule.name, "description" := rule.description];
    annotations := PutAll(annotations, c.annotations);
  }

  /** The alert name, `fmt.Sprintf("%s_Group_%s", rule.Name, rule.GroupID)`. */
  function AlertName(rule: AlertRule): string {
    rule.name + "_Group_" + rule.groupId
  }

  /** The rule group's name, `fmt.Sprintf("group_%s_%s", groupName, groupID)`. */
  function GroupRuleName(groupName: string, groupID: string): string {
    "group_" + groupName + "_" + groupID
  }

  /** What `convertToPrometheusRule` returns, given how each rule's query renders. */
  function Converted(rule: AlertRule, render: AlertRule -> Result<string>): Outcome<PrometheusRule, GenError> {
    match render(rule)
    case Err(e) => Failure(QueryRenderingFailed(e))
    case Ok(query) =>
      var merged := Merged(rule.defaultConfig, rule.config);
      Success(PrometheusRule(AlertName(rule), query, merged.forDuration,
        RuleLabels(rule, merged), RuleAnnotations(rule, merged)))
  }

  /**
   * A rule converts exactly when its query renders.  The converted rule is named
   * "<name>_Group_<group>", carries the rendered query, the rule's own duration or else the
   * default one, and labels in which the rule's own config labels win over the defaults' and
   * both over the base labels.
   */
  lemma ConvertedFacts(rule: AlertRule, render: AlertRule -> Result<string>)
    ensures Converted(rule, render).Success? <==> render(rule).Ok?
    ensures Converted(rule, render).Failure? ==> Converted(rule, render).error == QueryRenderingFailed(render(rule).error)
    ensures Converted(rule, render).Success? ==>
      var p := Converted(rule, render).value;
      && p.alert == rule.name + "_Group_" + rule.groupId
      && p.expr == render(rule).value
      && p.forDuration == (if rule.config.forDuration != "" then rule.config.forDuration else rule.defaultConfig.forDuration)
      && (forall k :: k in rule.config.labels ==> p.labels[k] == rule.config.labels[k])
      && (forall k :: k in rule.defaultConfig.labels && k !in rule.config.labels ==> p.labels[k] == rule.defaultConfig.labels[k])
      && ("severity" !in rule.defaultConfig.labels && "severity" !in rule.config.labels ==> p.labels["severity"] == rule.severity)
      && ("group_id" !in rule.defaultConfig.labels && "group_id" !in rule.config.labels ==> p.labels["group_id"] == rule.groupId)
      && ("summary" !in rule.defaultConfig.annotations && "summary" !in rule.config.annotations ==> p.annotations["summary"] == rule.name)
  {
    if render(rule).Ok? {
      var merged := Merged(rule.defaultConfig, rule.config);
      MergedKeys(rule.defaultConfig, rule.config);
      LabelsAndAnnotations(rule, merged);
    }
  }

  /** `convertToPrometheusRule`: render, merge the default and own configs, build the rule. */
  method ConvertRule(rule: AlertRule, render: AlertRule -> Result<string>) returns (r: Outcome<PrometheusRule, GenError>)
    ensures r == Converted(rule, render)
  {
    var query := render(rule);
    if query.Err? {
      return Failure(QueryRenderingFailed(query.error));
    }
    var merged := Merge(rule.defaultConfig, rule.config);
    var labels := BuildLabels(rule, merged);
    var annotations := BuildAnnotations(rule, merged);
    r := Success(PrometheusRule(rule.name + "_Group_" + rule.groupId, query.value, merged.forDuration, labels, annotations));
  }

  /** The rules that convert, in order; the others are skipped. */
  function Convertible(rules: seq<AlertRule>, render: AlertRule -> Result<string>): seq<PrometheusRule> {
    if rules == [] then []
    else
      var kept := Convertible(rules[..|rules| - 1], render);
      match Converted(rules[|rules| - 1], render)
      case Success(p) => kept + [p]
      case Failure(_) => kept
  }

  /** No more rules come out than go in, and nothing comes out exactly when no query renders. */
  lemma {:induction false} ConvertibleEmpty(rules: seq<AlertRule>, render: AlertRule -> Result<string>)
    ensures |Convertible(rules, render)| <= |rules|
    ensures Convertible(rules, render) == [] <==> forall i :: 0 <= i < |rules| ==> render(rules[i]).Err?
  {
    if rules != [] {
      var init := rules[..|rules| - 1];
      ConvertibleEmpty(init, render);
      if Convertible(rules, render) == [] {
        forall i | 0 <= i < |rules| ensures render(rules[i]).Err? {
          if i < |init| {
            assert rules[i] == init[i];
          }
        }
      } else if Convertible(init, render) != [] {
        var i :| 0 <= i < |init| && render(init[i]).Ok?;
        assert rules[i] == init[i];
      }
    }
  }

  /** Every rule that comes out is the conversion of one that went in. */
  lemma {:induction false} ConvertibleSound(rules: seq<AlertRule>, render: AlertRule -> Result<string>)
    ensures forall j :: 0 <= j < |Convertible(rules, render)| ==>
      exists i :: 0 <= i < |rules| && Converted(rules[i], render) == Success(Convertible(rules, render)[j])
  {
    if rules != [] {
      var init := rules[..|rules| - 1];
      ConvertibleSound(init, render);
      var kept := Convertible(init, render);
      var c := Convertible(rules, render);
      forall j | 0 <= j < |c|
        ensures exists i :: 0 <= i < |rules| && Converted(rules[i], render) == Success(c[j])
      {
        if j < |kept| {
          var i :| 0 <= i < |init| && Converted(init[i], render) == Success(kept[j]);
          assert rules[i] == init[i];
          assert c[j] == kept[j] by {
            if Converted(rules[|rules| - 1], render).Success? {
              assert c == kept + [Converted(rules[|rules| - 1], render).value];
            }
          }
        } else {
          var i := |rules| - 1;
          assert Converted(rules[i], render).Success? && c == kept + [Converted(rules[i], render).value];
          assert Converted(rules[i], render) == Success(c[j]);
        }
      }
    } else {
      assert Convertible(rules, render) == [];
    }
  }

  /** When every query renders, nothing is skipped: the i-th rule out is the conversion of the i-th rule in. */
  lemma {:induction false} ConvertibleAll(rules: seq<AlertRule>, render: AlertRule -> Result<string>)
    requires forall i :: 0 <= i < |rules| ==> render(rules[i]).Ok?
    ensures |Convertible(rules, render)| == |rules|
    ensures forall i :: 0 <= i < |rules| ==> Converted(rules[i], render) == Success(Convertible(rules, render)[i])
  {
    if rules != [] {
      var init := rules[..|rules| - 1];
      var last := rules[|rules| - 1];
      assert forall i :: 0 <= i < |init| ==> init[i] == rules[i];
      ConvertibleAll(init, render);
      var kept := Convertible(init, render);
      var c := Convertible(rules, render);
      assert Converted(last, render).Success?;
      assert c == kept + [Converted(last, render).value];
      forall i | 0 <= i < |rules| ensures Converted(rules[i], render) == Success(c[i]) {
        if i < |init| {
          assert c[i] == kept[i];
        }
      }
    }
  }

  /** `convertRulesToPrometheusRules`: the rules that convert, or `ErrNoValidRules` when none does. */
  method ConvertRules(rules: seq<AlertRule>, render: AlertRule -> Result<string>)
    returns (r: Outcome<seq<PrometheusRule>, GenError>)
    ensures Convertible(rules, render) == [] ==> r == Failure(NoValidRules)
    ensures Convertible(rules, render) != [] ==> r == Success(Convertible(rules, render))
  {
    var converted := [];
    var i := 0;
    while i < |rules|
      invariant i <= |rules| && converted == Convertible(rules[..i], render)
    {
      assert rules[..i + 1][..i] == rules[..i];
      var p := ConvertRule(rules[i], render);
      if p.Success? {
        converted := converted + [p.value];
      }
      i := i + 1;
    }
    assert rules[..i] == rules;
    if |converted| == 0 {
      return Failure(NoValidRules);
    }
    r := Success(converted);
  }

  /** The file `marshalRulesToYAML` marshals: one group named after the group, holding the rules. */
  function RuleFileOf(groupID: string, groupName: string, rules: seq<PrometheusRule>): RuleFile {
    RuleFile([RuleGroup(GroupRuleName(groupName, groupID), "", rules)])
  }

  /** `DeleteRulesForGroup`: the file manager's delete, its error wrapped. */
  function DeletedForGroup(d: RuleFiles.Disk, s: RuleFiles.Settings, groupID: string, df: RuleFiles.DeleteFaults)
    : (RuleFiles.Disk, Option<GenError>)
  {
    var (after, err) := RuleFiles.Deleted(d, s, groupID, df);
    (after, if err.Some? then Some(RuleDeleteFailed(RuleFiles.Message(err.value))) else None)
  }

  /** `GenerateRulesForGroup`, from the repositories' answers to the file manager's effect. */
  function Generated(d: RuleFiles.Disk, s: RuleFiles.Settings, groupID: string, group: Result<string>,
                     listed: Result<seq<AlertRule>>, render: AlertRule -> Result<string>,
                     marshal: RuleFile -> Result<string>, wf: RuleFiles.WriteFaults, df: RuleFiles.DeleteFaults)
    : (RuleFiles.Disk, Option<GenError>)
  {
    if group.Err? then (d, Some(GroupRetrievalFailed(group.error)))
    else if listed.Err? then (d, Some(AlertRulesListFailed(listed.error)))
    else
      var enabled := EnabledRules(listed.value);
      if enabled == [] then DeletedForGroup(d, s, groupID, df)
      else
        var converted := Convertible(enabled, render);
        if converted == [] then (d, Some(NoValidRules))
        else
          match marshal(RuleFileOf(groupID, group.value, converted))
          case Err(e) => (d, Some(RuleMarshalingFailed(e)))
          case Ok(yaml) =>
            var (after, err) := RuleFiles.Written(d, s, groupID, yaml, wf);
            (after, if err.Some? then Some(RuleWriteFailed(RuleFiles.Message(err.value))) else None)
  }

  /**
   * The outcome of generating a group's rules, written with the corrected write
   * (`RuleFiles.Written`).  A failed generation then leaves the group's rule file as it was,
   * present or absent.  A group without enabled rules ends without a rule file
   * when generation succeeds.  Otherwise a successful generation leaves in the file the
   * marshalled rule group of the enabled rules whose queries render, named after the group;
   * a failed group lookup or rule listing touches no file at all.
   */
  lemma GeneratedFacts(d: RuleFiles.Disk, s: RuleFiles.Settings, groupID: string, group: Result<string>,
                       listed: Result<seq<AlertRule>>, render: AlertRule -> Result<string>,
                       marshal: RuleFile -> Result<string>, wf: RuleFiles.WriteFaults, df: RuleFiles.DeleteFaults)
    ensures var (after, err) := Generated(d, s, groupID, group, listed, render, marshal, wf, df);
      var path := RuleFiles.FilePath(s.basePath, groupID);
      && (err.Some? ==> (path in after.files <==> path in d.files))
      && (err.Some? && path in d.files ==> after.files[path] == d.files[path])
      && (group.Err? || listed.Err? ==> after == d)
      && (err.None? && EnabledRules(listed.value) == [] ==> path !in after.files)
      && (err.None? && EnabledRules(listed.value) != [] ==>
            && path in after.files
            && Convertible(EnabledRules(listed.value), render) != []
            && marshal(RuleFileOf(groupID, group.value, Convertible(EnabledRules(listed.value), render))).Ok?
            && after.files[path] == marshal(RuleFileOf(groupID, group.value, Convertible(EnabledRules(listed.value), render))).value)
  {
    if group.Ok? && listed.Ok? {
      var enabled := EnabledRules(listed.value);
      if enabled == [] {
        RuleFiles.DeletedFacts(d, s, groupID, df, df);
      } else {
        var converted := Convertible(enabled, render);
        var file := RuleFileOf(groupID, group.value, converted);
        if converted != [] && marshal(file).Ok? {
          RuleFiles.WrittenFacts(d, s, groupID, marshal(file).value, wf);
          RuleFiles.TempDiffers(RuleFiles.FilePath(s.basePath, groupID));
        }
      }
    }
  }

  /** `PrometheusRuleGenerator`: generation over one rule file manager. */
  class PrometheusRuleGenerator {
    const fileManager: RuleFiles.RuleFileManager

    constructor (fileManager: RuleFiles.RuleFileManager)
      ensures this.fileManager == fileManager
    {
      this.fileManager := fileManager;
    }

    /** `DeleteRulesForGroup`. */
    method DeleteRulesForGroup(groupID: string, df: RuleFiles.DeleteFaults) returns (err: Option<GenError>)
      modifies fileManager
      ensures (fileManager.State(), err) == DeletedForGroup(old(fileManager.State()), fileManager.Config(), groupID, df)
    {
      var e := fileManager.DeleteRuleFile(groupID, df);
      if e.Some? {
        return Some(RuleDeleteFailed(RuleFiles.Message(e.value)));
      }
      err := None;
    }

    /** `GenerateRulesForGroup`. */
    method GenerateRulesForGroup(groupID: string, group: Result<string>, listed: Result<seq<AlertRule>>,
                                 render: AlertRule -> Result<string>, marshal: RuleFile -> Result<string>,
                                 wf: RuleFiles.WriteFaults, df: RuleFiles.DeleteFaults)
      returns (err: Option<GenError>)
      modifies fileManager
      ensures (fileManager.State(), err)
        == Generated(old(fileManager.State()), fileManager.Config(), groupID, group, listed, render, marshal, wf, df)
    {
      if group.Err? {
        return Some(GroupRetrievalFailed(group.error));
      }
      var enabled := GetEnabledRules(listed);
      if enabled.Failure? {
        return Some(enabled.error);
      }
      if |enabled.value| == 0 {
        err := DeleteRulesForGroup(groupID, df);
        return;
      }
      var converted := ConvertRules(enabled.value, render);
      if converted.Failure? {
        return Some(converted.error);
      }
      var yaml := marshal(RuleFile([RuleGroup("group_" + group.value + "_" + groupID, "", converted.value)]));
      if yaml.Err? {
        return Some(RuleMarshalingFailed(yaml.error));
      }
      var e := fileManager.WriteRuleFile(groupID, yaml.value, wf);
      if e.Some? {
        return Some(RuleWriteFailed(RuleFiles.Message(e.value)));
      }
      err := None;
    }
  }
}
