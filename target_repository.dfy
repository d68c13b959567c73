/**
 * The in-memory parts of the target repository (services/config-server/internal/repository/target.go):
 * the conversion of the label and metadata columns, and the first-wins deduplication that turns
 * the active global policies and the policies of a target's groups into its effective policies.
 * The database queries are parameters: the global policies as the query returns them (highest
 * priority first), the target's group IDs in priority order, and a function giving each group's
 * policies as its query returns them.
 */
module TargetRepository {
  import opened Wrappers
  import opened Values
  import opened Seqs
  import ScriptPolicy

  type Policy = ScriptPolicy.Policy

  /** `StringMap.Value`: the map that is marshalled; a nil map is stored as the empty object. */
  function StringMapValue(sm: Option<map<string, string>>): (stored: map<string, string>)
    ensures sm.None? ==> stored == map[]
    ensures sm.Some? ==> stored == sm.value
  {
    if sm.None? then map[] else sm.value
  }

  /** The metadata column as `ToTargetModel` builds it: every value as a JSON string. */
  function ModelMetadata(md: map<string, string>): Config {
    map k | k in md :: Str(md[k])
  }

  /** The metadata as `ToDomain` reads it back: only the string values survive. */
  function DomainMetadata(m: Config): (md: map<string, string>)
    ensures forall k :: k in md <==> k in m && m[k].Str?
    ensures forall k :: k in md ==> m[k] == Str(md[k])
  {
    map k | k in m && m[k].Str? :: m[k].s
  }

  /** The metadata loop of `ToDomain`. */
  method ToDomainMetadata(m: Config) returns (md: map<string, string>)
    ensures md == DomainMetadata(m)
  {
    md := map[];
    var rest := m.Keys;
    while rest != {}
      invariant rest <= m.Keys
      invariant md == map k | k in m && k !in rest && m[k].Str? :: m[k].s
      decreases rest
    {
      var k :| k in rest;
      if m[k].Str? {
        md := md[k := m[k].s];
      }
      rest := rest - {k};
    }
  }

  /** The metadata loop of `ToTargetModel`. */
  method ToModelMetadata(md: map<string, string>) returns (m: Config)
    ensures m == ModelMetadata(md)
  {
    m := map[];
    var rest := md.Keys;
    while rest != {}
      invariant rest <= md.Keys
      invariant m == map k | k in md && k !in rest :: Str(md[k])
      decreases rest
    {
      var k :| k in rest;
      m := m[k := Str(md[k])];
      rest := rest - {k};
    }
  }

  /**
   * Storing metadata and reading it back gives it unchanged; reading a stored column and
   * storing it again keeps exactly its string entries.
   */
  lemma MetadataRoundTrip(md: map<string, string>, m: Config)
    ensures DomainMetadata(ModelMetadata(md)) == md
    ensures ModelMetadata(DomainMetadata(m)) == map k | k in m && m[k].Str? :: m[k]
  {
  }

  /** `getInstanceKey`: the template ID when there is one, else "name:type". */
  function InstanceKey(p: Policy): (key: string)
    ensures p.createdFromTemplateId.Some? ==> key == p.createdFromTemplateId.value
    ensures p.createdFromTemplateId.None? ==> key == p.name + ":" + p.scriptType
  {
    match p.createdFromTemplateId
    case Some(id) => id
    case None => p.name + ":" + p.scriptType
  }

  function KeysOf(ps: seq<Policy>): set<string> {
    set p | p in ps :: InstanceKey(p)
  }

  /**
   * The first-wins filter: walking `xs` in order, an instance is kept when its key has not been
   * seen, and its key is then marked seen.  Returns the kept instances and the final seen set.
   */
  function Dedup(seen: set<string>, xs: seq<Policy>): (set<string>, seq<Policy>)
  {
    if xs == [] then (seen, [])
    else
      var (s, kept) := Dedup(seen, xs[..|xs| - 1]);
      var x := xs[|xs| - 1];
      if InstanceKey(x) in s then (s, kept) else (s + {InstanceKey(x)}, kept + [x])
  }

  /**
   * What the filter keeps: instances of `xs` whose keys were not seen before, pairwise
   * different in key; afterwards every key of `xs` is seen, and the seen set grew by exactly
   * the kept keys.
   */
  lemma {:induction false} DedupFacts(seen: set<string>, xs: seq<Policy>)
    ensures var (s, kept) := Dedup(seen, xs);
      && (forall i :: 0 <= i < |kept| ==> kept[i] in xs && InstanceKey(kept[i]) !in seen)
      && KeysDistinct(kept, InstanceKey)
      && s == seen + KeysOf(kept)
      && (forall x :: x in xs ==> InstanceKey(x) in s)
  {
    if xs != [] {
      var init := xs[..|xs| - 1];
      DedupFacts(seen, init);
      var (s, kept) := Dedup(seen, init);
      var x := xs[|xs| - 1];
      assert xs == init + [x];
      if InstanceKey(x) !in s {
        assert KeysOf(kept + [x]) == KeysOf(kept) + {InstanceKey(x)};
        forall i | 0 <= i < |kept| ensures InstanceKey(kept[i]) != InstanceKey(x) {
          assert kept[i] in kept;
        }
      }
    }
  }

  /**
   * First wins: the first instance of `xs` with a key not seen before is the one that is kept;
   * no other instance with that key is.
   */
  lemma {:induction false} DedupFirst(seen: set<string>, xs: seq<Policy>, i: nat)
    requires i < |xs| && InstanceKey(xs[i]) !in seen
    requires forall j :: 0 <= j < i ==> InstanceKey(xs[j]) != InstanceKey(xs[i])
    ensures xs[i] in Dedup(seen, xs).1
    ensures forall y :: y in Dedup(seen, xs).1 && InstanceKey(y) == InstanceKey(xs[i]) ==> y == xs[i]
  {
    var init := xs[..|xs| - 1];
    var (s, kept) := Dedup(seen, init);
    DedupFacts(seen, init);
    if i == |xs| - 1 {
      forall y | y in kept ensures InstanceKey(y) != InstanceKey(xs[i]) {
        assert InstanceKey(y) in KeysOf(kept);
      }
    } else {
      DedupFirst(seen, init, i);
      assert InstanceKey(xs[i]) in s;
    }
  }

  /** Why the effective policies of a target cannot be computed. */
  datatype RepoError = ErrNotFound

  datatype EffectivePolicies = EffectivePolicies(globalInstances: seq<Policy>, groupInstances: seq<Policy>)

  /** `getGlobalInstances`: every global instance is returned, and all their keys are marked seen. */
  method GlobalInstances(globals: seq<Policy>, seen: set<string>) returns (result: seq<Policy>, seenOut: set<string>)
    ensures result == globals && seenOut == seen + KeysOf(globals)
  {
    seenOut := seen;
    var i := 0;
    while i < |globals|
      invariant i <= |globals| && seenOut == seen + KeysOf(globals[..i])
    {
      assert KeysOf(globals[..i + 1]) == KeysOf(globals[..i]) + {InstanceKey(globals[i])} by {
        assert globals[..i + 1] == globals[..i] + [globals[i]];
      }
      seenOut := seenOut + {InstanceKey(globals[i])};
      i := i + 1;
    }
    assert globals[..i] == globals;
    result := globals;
  }

  /** The group queries' results, in group order. */
  function GroupResults(groups: seq<string>, query: string -> seq<Policy>): seq<seq<Policy>> {
    seq(|groups|, g requires 0 <= g < |groups| => query(groups[g]))
  }

  /** `getGroupInstances`: the first-wins filter over the groups' instances, in group order. */
  method GroupInstances(groups: seq<string>, query: string -> seq<Policy>, seen: set<string>)
    returns (result: seq<Policy>, seenOut: set<string>)
    ensures (seenOut, result) == Dedup(seen, Flatten(GroupResults(groups, query)))
  {
    ghost var results := GroupResults(groups, query);
    result, seenOut := [], seen;
    var g := 0;
    while g < |groups|
      invariant g <= |groups|
      invariant (seenOut, result) == Dedup(seen, Flatten(results[..g]))
    {
      var instances := query(groups[g]);
      result, seenOut := AddInstances(instances, result, seenOut, seen, Flatten(results[..g]));
      assert results[..g + 1] == results[..g] + [instances];
      FlattenSnoc(results[..g], instances);
      g := g + 1;
    }
    assert results[..g] == results;
  }

  /** The inner loop of `getGroupInstances`: one group's instances through the filter. */
  method AddInstances(instances: seq<Policy>, kept: seq<Policy>, seenNow: set<string>,
                      ghost seen: set<string>, ghost before: seq<Policy>)
    returns (result: seq<Policy>, seenOut: set<string>)
    requires (seenNow, kept) == Dedup(seen, before)
    ensures (seenOut, result) == Dedup(seen, before + instances)
  {
    result, seenOut := kept, seenNow;
    var j := 0;
    assert before + instances[..0] == before;
    while j < |instances|
      invariant j <= |instances|
      invariant (seenOut, result) == Dedup(seen, before + instances[..j])
    {
      var inst := instances[j];
      var key := InstanceKey(inst);
      assert (before + instances[..j + 1])[..|before| + j] == before + instances[..j];
      if key !in seenOut {
        result := result + [inst];
        seenOut := seenOut + {key};
      }
      j := j + 1;
    }
    assert instances[..j] == instances;
  }

  /**
   * `GetEffectivePolicies` after the target lookup: a target without groups is not found;
   * otherwise the global instances as given and the group instances through the first-wins
   * filter, starting from the global instances' keys.
   */
  method GetEffectivePolicies(groups: seq<string>, globals: seq<Policy>, query: string -> seq<Policy>)
    returns (r: Outcome<EffectivePolicies, RepoError>)
    ensures groups == [] ==> r == Failure(ErrNotFound)
    ensures groups != [] ==> (r.Success? && r.value.globalInstances == globals
      && r.value.groupInstances == Dedup(KeysOf(globals), Flatten(GroupResults(groups, query))).1)
  {
    if |groups| == 0 {
      return Failure(ErrNotFound);
    }
    var seen := {};
    var globalInstances;
    globalInstances, seen := GlobalInstances(globals, seen);
    assert seen == KeysOf(globals);
    var groupInstances;
    groupInstances, seen := GroupInstances(groups, query, seen);
    return Success(EffectivePolicies(globalInstances, groupInstances));
  }

  /**
   * No kept group instance shares a key with a global instance or with another kept group
   * instance, and every group instance whose key is new is represented.
   */
  lemma EffectiveKeysUnique(globals: seq<Policy>, groupInstances: seq<Policy>, result: seq<Policy>)
    requires result == Dedup(KeysOf(globals), groupInstances).1
    ensures forall i :: 0 <= i < |result| ==> result[i] in groupInstances
    ensures forall i, p :: 0 <= i < |result| && p in globals ==> InstanceKey(result[i]) != InstanceKey(p)
    ensures KeysDistinct(result, InstanceKey)
    ensures forall x :: x in groupInstances ==> InstanceKey(x) in KeysOf(globals) + KeysOf(result)
  {
    DedupFacts(KeysOf(globals), groupInstances);
  }
}
