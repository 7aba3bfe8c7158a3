/** Configuration overrides on a contract that the loader's cache shares
    (applyConfigurationOverrides in internal/controller/pacto_controller.go). */
module Overrides {
  import opened Wrappers
  import opened PactoTypes

  // ----- the specification: a left fold of overrides -----

  /** Index of the last configuration with this name, or -1: later entries win in the name lookup. */
  function LastNamed(configs: seq<Configuration>, name: string): (i: int)
    ensures -1 <= i < |configs|
    ensures i >= 0 ==> configs[i].name == name
    ensures forall j :: i < j < |configs| ==> configs[j].name != name
  {
    if configs == [] then -1
    else if configs[|configs| - 1].name == name then |configs| - 1
    else LastNamed(configs[..|configs| - 1], name)
  }

  function ValuesOf(c: Configuration): map<string, Value> {
    if c.values.Some? then c.values.value else map[]
  }

  function AsValues(m: map<string, string>): map<string, Value> {
    map k | k in m :: Text(m[k])
  }

  function ApplyOne(configs: seq<Configuration>, ov: ConfigurationOverride): (r: seq<Configuration>)
    ensures |r| == |configs|
  {
    var i := LastNamed(configs, ov.name);
    if i < 0 then configs
    else configs[i := configs[i].(values := Some(ValuesOf(configs[i]) + AsValues(ov.values)))]
  }

  function Apply(configs: seq<Configuration>, overrides: seq<ConfigurationOverride>): (r: seq<Configuration>)
    ensures |r| == |configs|
  {
    if overrides == [] then configs
    else ApplyOne(Apply(configs, overrides[..|overrides| - 1]), overrides[|overrides| - 1])
  }

  predicate KnownName(configs: seq<Configuration>, name: string) {
    exists c :: c in configs && c.name == name
  }

  predicate AllKnown(configs: seq<Configuration>, overrides: seq<ConfigurationOverride>) {
    forall ov :: ov in overrides ==> KnownName(configs, ov.name)
  }

  /** The outcome for a contract's configurations: None when an override names no configuration. */
  function Effective(configs: seq<Configuration>, overrides: Option<seq<ConfigurationOverride>>): Option<seq<Configuration>> {
    if overrides.None? || overrides.value == [] then Some(configs)
    else if AllKnown(configs, overrides.value) then Some(Apply(configs, overrides.value))
    else None
  }

  /** For each overridden name, the keys of its last override. */
  function OverriddenKeySets(overrides: seq<ConfigurationOverride>): map<string, set<string>> {
    if overrides == [] then map[]
    else
      var last := overrides[|overrides| - 1];
      OverriddenKeySets(overrides[..|overrides| - 1])[last.name := last.values.Keys]
  }

  /** The keys reported under a name are those of the last override of that name, and names without an override
      have none. */
  lemma {:induction false} ReportedAreLast(overrides: seq<ConfigurationOverride>, n: nat, name: string)
    requires n < |overrides| && overrides[n].name == name && forall j :: n < j < |overrides| ==> overrides[j].name != name
    ensures name in OverriddenKeySets(overrides) && OverriddenKeySets(overrides)[name] == overrides[n].values.Keys
  {
    if n < |overrides| - 1 {
      ReportedAreLast(overrides[..|overrides| - 1], n, name);
    }
  }

  lemma {:induction false} UnoverriddenUnreported(overrides: seq<ConfigurationOverride>, name: string)
    requires forall j :: 0 <= j < |overrides| ==> overrides[j].name != name
    ensures name !in OverriddenKeySets(overrides)
  {
    if overrides != [] {
      UnoverriddenUnreported(overrides[..|overrides| - 1], name);
    }
  }

  // ----- what the fold means, key by key -----

  /** The last override of this name that sets this key, or -1. */
  function LastSetting(overrides: seq<ConfigurationOverride>, name: string, key: string): (i: int)
    ensures -1 <= i < |overrides|
    ensures i >= 0 ==> overrides[i].name == name && key in overrides[i].values
    ensures forall j :: i < j < |overrides| ==> !(overrides[j].name == name && key in overrides[j].values)
  {
    if overrides == [] then -1
    else
      var last := overrides[|overrides| - 1];
      if last.name == name && key in last.values then |overrides| - 1
      else LastSetting(overrides[..|overrides| - 1], name, key)
  }

  lemma LastNamedByNames(configs: seq<Configuration>, configs': seq<Configuration>, name: string)
    requires |configs| == |configs'| && forall i :: 0 <= i < |configs| ==> configs[i].name == configs'[i].name
    ensures LastNamed(configs, name) == LastNamed(configs', name)
  {
    var i, j := LastNamed(configs, name), LastNamed(configs', name);
    assert i >= 0 ==> configs'[i].name == name;
    assert j >= 0 ==> configs[j].name == name;
  }

  /** Overrides change values only: names, schemas and references stay. */
  lemma {:induction false} ApplyKeepsRest(configs: seq<Configuration>, overrides: seq<ConfigurationOverride>, i: nat)
    requires i < |configs|
    ensures Apply(configs, overrides)[i].(values := None) == configs[i].(values := None)
  {
    if overrides != [] {
      ApplyKeepsRest(configs, overrides[..|overrides| - 1], i);
    }
  }

  /** A configuration has values once an override goes to it, even one that sets nothing. */
  lemma {:induction false} ApplyGivesValues(configs: seq<Configuration>, overrides: seq<ConfigurationOverride>, i: nat)
    requires i < |configs|
    ensures Apply(configs, overrides)[i].values.Some? <==>
            || configs[i].values.Some?
            || (i == LastNamed(configs, configs[i].name) && exists ov :: ov in overrides && ov.name == configs[i].name)
  {
    if overrides != [] {
      var init, last := overrides[..|overrides| - 1], overrides[|overrides| - 1];
      assert forall ov :: ov in overrides <==> ov in init || ov == last;
      ApplyGivesValues(configs, init, i);
      ApplyKeepsRest(configs, init, i);
      LastNamedStays(configs, init, last.name);
    }
  }

  lemma LastNamedStays(configs: seq<Configuration>, overrides: seq<ConfigurationOverride>, name: string)
    ensures LastNamed(Apply(configs, overrides), name) == LastNamed(configs, name)
  {
    forall j | 0 <= j < |configs| ensures Apply(configs, overrides)[j].name == configs[j].name {
      ApplyKeepsRest(configs, overrides, j);
    }
    LastNamedByNames(Apply(configs, overrides), configs, name);
  }

  /** Each key has the value of the last override that sets it in the last configuration of that name, and
      otherwise the contract's own; every other configuration keeps its values. */
  lemma {:induction false} ApplyByKey(configs: seq<Configuration>, overrides: seq<ConfigurationOverride>, i: nat, key: string)
    requires i < |configs|
    ensures var after, before := ValuesOf(Apply(configs, overrides)[i]), ValuesOf(configs[i]);
            var o := LastSetting(overrides, configs[i].name, key);
            if o >= 0 && i == LastNamed(configs, configs[i].name)
            then key in after && after[key] == Text(overrides[o].values[key])
            else (key in after <==> key in before) && (key in after ==> after[key] == before[key])
  {
    if overrides != [] {
      var init, last := overrides[..|overrides| - 1], overrides[|overrides| - 1];
      ApplyByKey(configs, init, i, key);
      ApplyKeepsRest(configs, init, i);
      LastNamedStays(configs, init, last.name);
      ApplyOneByKey(Apply(configs, init), last, i, key);
    }
  }

  lemma ApplyOneByKey(configs: seq<Configuration>, ov: ConfigurationOverride, i: nat, key: string)
    requires i < |configs|
    ensures var after, before := ValuesOf(ApplyOne(configs, ov)[i]), ValuesOf(configs[i]);
            if i == LastNamed(configs, ov.name) && key in ov.values
            then key in after && after[key] == Text(ov.values[key])
            else (key in after <==> key in before) && (key in after ==> after[key] == before[key])
  {
  }

  // ----- the implementation on shared objects -----

  /** A Go map: a reference that several configurations, and several contracts, may share. */
  class ValueMap {
    var entries: map<string, Value>

    constructor (entries: map<string, Value>)
      ensures this.entries == entries
    {
      this.entries := entries;
    }
  }

  datatype ConfigurationSource = ConfigurationSource(name: string, schema: string, ref: string, values: ValueMap?)
  {
    function View(): Configuration
      reads values
    {
      Configuration(name, schema, ref, if values == null then None else Some(values.entries))
    }
  }

  class ContractObject {
    var service: Service
    var interfaces: seq<Interface>
    var runtime: Option<Runtime>
    var configurations: array<ConfigurationSource>

    constructor (service: Service, interfaces: seq<Interface>, runtime: Option<Runtime>, configurations: array<ConfigurationSource>)
      ensures this.service == service && this.interfaces == interfaces && this.runtime == runtime
      ensures this.configurations == configurations && View().configurations == old(ViewAll(configurations))
    {
      this.service, this.interfaces, this.runtime := service, interfaces, runtime;
      this.configurations := configurations;
    }

    function View(): Contract
      reads this, configurations, MapsOf(configurations)
    {
      Contract(service, interfaces, runtime, ViewAll(configurations))
    }
  }

  /** The maps an array of configurations refers to. */
  ghost function MapsOf(a: array<ConfigurationSource>): set<object>
    reads a
  {
    set i | 0 <= i < a.Length && a[i].values != null :: a[i].values as object
  }

  function ViewAll(a: array<ConfigurationSource>): (r: seq<Configuration>)
    reads a, MapsOf(a)
    ensures |r| == a.Length && forall i :: 0 <= i < |r| ==> r[i] == a[i].View()
  {
    seq(a.Length, i requires 0 <= i < a.Length reads a, MapsOf(a) => a[i].View())
  }

  /** No two configurations of the array share a map. */
  ghost predicate Separate(a: array<ConfigurationSource>)
    reads a
  {
    forall i, j :: 0 <= i < j < a.Length && a[i].values != null ==> a[i].values != a[j].values
  }

  /** Copies the configurations and each of their maps. */
  method CopyConfigurations(from: array<ConfigurationSource>) returns (to: array<ConfigurationSource>)
    ensures fresh(to) && (forall m :: m in MapsOf(to) ==> fresh(m)) && Separate(to)
    ensures ViewAll(to) == old(ViewAll(from))
  {
    ghost var view := ViewAll(from);
    to := new ConfigurationSource[from.Length](_ => ConfigurationSource("", "", "", null));
    for i := 0 to from.Length
      invariant forall j :: 0 <= j < i && to[j].values != null ==> fresh(to[j].values)
      invariant forall j :: i <= j < to.Length ==> to[j].values == null
      invariant forall j, k :: 0 <= j < k < i && to[j].values != null ==> to[j].values != to[k].values
      invariant forall j :: 0 <= j < i ==> to[j].View() == view[j]
    {
      to[i] := from[i];
      if from[i].values != null {
        var copied := new ValueMap(from[i].values.entries);
        to[i] := from[i].(values := copied);
      }
    }
  }

  function MergeValues(c: Configuration, values: map<string, string>): Configuration {
    c.(values := Some(ValuesOf(c) + AsValues(values)))
  }

  /** Sets one override's values in a map, in whatever order they are yielded, and lists their keys. */
  method SetValues(target: ValueMap, values: map<string, string>) returns (keys: seq<string>)
    modifies target
    ensures target.entries == old(target.entries) + AsValues(values)
    ensures SortedKeys(keys, values.Keys)
  {
    keys := [];
    var todo := values.Keys;
    ghost var done: map<string, string> := map[];
    while todo != {}
      invariant todo <= values.Keys && done.Keys == values.Keys - todo && forall k :: k in done ==> done[k] == values[k]
      invariant target.entries == old(target.entries) + AsValues(done)
      invariant Distinct(keys) && forall k :: k in keys <==> k in done
    {
      var k :| k in todo;
      AsValuesOneMore(old(target.entries), done, k, values[k]);
      target.entries := target.entries[k := Text(values[k])];
      keys := keys + [k];
      done := done[k := values[k]];
      todo := todo - {k};
    }
    assert done == values;
    keys := SortStrings(keys);
  }

  lemma AsValuesOneMore(base: map<string, Value>, done: map<string, string>, k: string, v: string)
    ensures (base + AsValues(done))[k := Text(v)] == base + AsValues(done[k := v])
  {
  }

  /** Lays one override's values over a configuration of the copy. */
  method MergeOverride(configs: array<ConfigurationSource>, i: nat, ov: ConfigurationOverride) returns (keys: seq<string>)
    requires i < configs.Length && Separate(configs) && configs !in MapsOf(configs)
    modifies configs, configs[i].values
    ensures Separate(configs) && forall m :: m in MapsOf(configs) ==> m in old(MapsOf(configs)) || fresh(m)
    ensures ViewAll(configs) == old(ViewAll(configs))[i := MergeValues(old(configs[i].View()), ov.values)]
    ensures SortedKeys(keys, ov.values.Keys)
  {
    if configs[i].values == null {
      var empty := new ValueMap(map[]);
      configs[i] := configs[i].(values := empty);
    }
    keys := SetValues(configs[i].values, ov.values);
  }

  /** The lookup of configuration indices by name. */
  method IndexByName(configs: array<ConfigurationSource>) returns (index: map<string, nat>)
    ensures ViewAll(configs) == old(ViewAll(configs))
    ensures forall name :: name in index <==> KnownName(ViewAll(configs), name)
    ensures forall name :: name in index ==> index[name] == LastNamed(ViewAll(configs), name)
  {
    index := map[];
    ghost var view := ViewAll(configs);
    for i := 0 to configs.Length
      invariant forall name :: name in index <==> KnownName(view[..i], name)
      invariant forall name :: name in index ==> index[name] == LastNamed(view[..i], name)
    {
      assert view[..i + 1] == view[..i] + [view[i]];
      assert view[..i + 1][..i] == view[..i];
      index := index[configs[i].name := i];
    }
    assert view[..configs.Length] == view;
  }

  /** The overridden keys reported for each name, sorted. */
  ghost predicate ReportsKeys(keys: map<string, seq<string>>, overrides: seq<ConfigurationOverride>) {
    var sets := OverriddenKeySets(overrides);
    keys.Keys == sets.Keys && forall name :: name in keys ==> SortedKeys(keys[name], sets[name])
  }

  /** applyConfigurationOverrides. Nothing that existed before the call is modified; the result is the
      contract itself when there is nothing to override, and otherwise shares no configuration with it. */
  method ApplyConfigurationOverrides(c: ContractObject, overrides: Option<seq<ConfigurationOverride>>)
      returns (r: Option<ContractObject>, keys: map<string, seq<string>>)
    ensures var was := old(c.View());
            match Effective(was.configurations, overrides)
            case None => r == None
            case Some(configs) => r.Some? && r.value.View() == was.(configurations := configs)
    ensures overrides.None? || overrides.value == [] ==> r == Some(c) && keys == map[]
    ensures r.Some? && overrides.Some? && overrides.value != [] ==>
              fresh(r.value) && Unshared(r.value) && ReportsKeys(keys, overrides.value)
  {
    if overrides.None? || |overrides.value| == 0 {
      return Some(c), map[];
    }
    var copy;
    copy, keys := OverriddenCopy(c.configurations, overrides.value);
    if copy.None? {
      return None, map[];
    }
    var effective := new ContractObject(c.service, c.interfaces, c.runtime, copy.value);
    r := Some(effective);
  }

  /** All that the contract's configurations consist of was allocated since. */
  twostate predicate Unshared(new c: ContractObject)
    reads c, c.configurations
  {
    fresh(c.configurations) && forall m :: m in MapsOf(c.configurations) ==> fresh(m)
  }

  /** Checks the names, copies the configurations, and merges the overrides into the copy. */
  method OverriddenCopy(from: array<ConfigurationSource>, ovs: seq<ConfigurationOverride>)
      returns (copy: Option<array<ConfigurationSource>>, keys: map<string, seq<string>>)
    ensures copy.Some? <==> AllKnown(old(ViewAll(from)), ovs)
    ensures copy.Some? ==>
              && fresh(copy.value) && (forall m :: m in MapsOf(copy.value) ==> fresh(m))
              && ViewAll(copy.value) == Apply(old(ViewAll(from)), ovs)
              && ReportsKeys(keys, ovs)
  {
    var index := IndexByName(from);
    for n := 0 to |ovs|
      invariant forall m :: 0 <= m < n ==> ovs[m].name in index
    {
      if ovs[n].name !in index {
        assert ovs[n] in ovs;
        return None, map[];
      }
    }
    var configs := CopyConfigurations(from);
    keys := MergeOverrides(configs, index, ovs);
    copy := Some(configs);
  }

  predicate IndexFor(index: map<string, nat>, view: seq<Configuration>, ovs: seq<ConfigurationOverride>) {
    forall ov :: ov in ovs ==> ov.name in index && index[ov.name] == LastNamed(view, ov.name)
  }

  /** The merge loop, on the copy. */
  method MergeOverrides(configs: array<ConfigurationSource>, index: map<string, nat>, ovs: seq<ConfigurationOverride>)
      returns (keys: map<string, seq<string>>)
    requires Separate(configs) && configs !in MapsOf(configs)
    requires IndexFor(index, ViewAll(configs), ovs)
    modifies configs, MapsOf(configs)
    ensures forall m :: m in MapsOf(configs) ==> m in old(MapsOf(configs)) || fresh(m)
    ensures ViewAll(configs) == Apply(old(ViewAll(configs)), ovs)
    ensures ReportsKeys(keys, ovs)
  {
    keys := map[];
    ghost var view := ViewAll(configs);
    for n := 0 to |ovs|
      invariant Separate(configs) && forall m :: m in MapsOf(configs) ==> m in old(MapsOf(configs)) || fresh(m)
      invariant ViewAll(configs) == Apply(view, ovs[..n])
      invariant ReportsKeys(keys, ovs[..n])
    {
      OneMore(view, ovs, n);
      LastNamedStays(view, ovs[..n], ovs[n].name);
      var sorted := MergeOverride(configs, index[ovs[n].name], ovs[n]);
      ReportsOneMore(keys, ovs, n, sorted);
      keys := keys[ovs[n].name := sorted];
    }
    assert ovs[..|ovs|] == ovs;
  }

  /** The fold, one override further. */
  lemma OneMore(view: seq<Configuration>, ovs: seq<ConfigurationOverride>, n: nat)
    requires n < |ovs|
    ensures Apply(view, ovs[..n + 1]) == ApplyOne(Apply(view, ovs[..n]), ovs[n])
  {
    assert ovs[..n + 1][..n] == ovs[..n];
  }

  lemma ReportsOneMore(keys: map<string, seq<string>>, ovs: seq<ConfigurationOverride>, n: nat, sorted: seq<string>)
    requires n < |ovs| && ReportsKeys(keys, ovs[..n]) && SortedKeys(sorted, ovs[n].values.Keys)
    ensures ReportsKeys(keys[ovs[n].name := sorted], ovs[..n + 1])
  {
    assert ovs[..n + 1][..n] == ovs[..n];
  }

  // ----- sorted keys -----

  predicate LessEq(a: string, b: string) {
    if a == "" then true
    else if b == "" then false
    else if a[0] != b[0] then a[0] < b[0]
    else LessEq(a[1..], b[1..])
  }

  /** A prefix comes before its extensions, and otherwise the first character that differs decides. */
  lemma {:induction false} LessEqMeans(common: string, a: string, b: string)
    ensures LessEq(common, common + a) && (a != "" ==> !LessEq(common + a, common))
    ensures a != "" && b != "" && a[0] != b[0] ==> (LessEq(common + a, common + b) <==> (a[0] as int) < b[0] as int)
  {
    if common == "" {
      assert common + a == a && common + b == b;
    } else {
      assert (common + a)[1..] == common[1..] + a && (common + b)[1..] == common[1..] + b;
      LessEqMeans(common[1..], a, b);
    }
  }

  predicate Sorted(keys: seq<string>) {
    forall i, j :: 0 <= i < j < |keys| ==> LessEq(keys[i], keys[j]) && keys[i] != keys[j]
  }

  predicate Distinct(keys: seq<string>) {
    forall i, j :: 0 <= i < j < |keys| ==> keys[i] != keys[j]
  }

  predicate SortedKeys(keys: seq<string>, names: set<string>) {
    Sorted(keys) && (forall k :: k in keys ==> k in names) && forall k :: k in names ==> k in keys
  }

  lemma {:induction false} LessEqTotal(a: string, b: string)
    ensures LessEq(a, b) || LessEq(b, a)
    ensures LessEq(a, b) && LessEq(b, a) ==> a == b
  {
    if a != "" && b != "" && a[0] == b[0] {
      LessEqTotal(a[1..], b[1..]);
      assert a == [a[0]] + a[1..] && b == [b[0]] + b[1..];
    }
  }

  lemma {:induction false} LessEqTransitive(a: string, b: string, c: string)
    requires LessEq(a, b) && LessEq(b, c)
    ensures LessEq(a, c)
  {
    if a != "" && a[0] == b[0] && b[0] == c[0] {
      LessEqTransitive(a[1..], b[1..], c[1..]);
    }
  }

  /** sort.Strings on distinct keys. */
  method SortStrings(keys: seq<string>) returns (r: seq<string>)
    requires Distinct(keys)
    ensures Sorted(r) && forall k :: k in r <==> k in keys
  {
    r := [];
    for n := 0 to |keys|
      invariant Sorted(r) && forall k :: k in r <==> k in keys[..n]
    {
      assert keys[..n + 1] == keys[..n] + [keys[n]];
      InsertSorted(r, keys[n]);
      r := Insert(r, keys[n]);
    }
    assert keys[..|keys|] == keys;
  }

  function Insert(sorted: seq<string>, key: string): seq<string> {
    if sorted == [] then [key]
    else if LessEq(key, sorted[0]) then [key] + sorted
    else [sorted[0]] + Insert(sorted[1..], key)
  }

  lemma {:induction false} InsertKeys(sorted: seq<string>, key: string)
    ensures forall k :: k in Insert(sorted, key) <==> k in sorted || k == key
  {
    if sorted != [] && !LessEq(key, sorted[0]) {
      InsertKeys(sorted[1..], key);
      assert sorted == [sorted[0]] + sorted[1..];
    }
  }

  predicate Below(key: string, keys: seq<string>) {
    forall k :: k in keys ==> LessEq(key, k) && key != k
  }

  lemma SortedCons(key: string, keys: seq<string>)
    requires Sorted(keys) && Below(key, keys)
    ensures Sorted([key] + keys)
  {
    assert forall i :: 0 <= i < |keys| ==> keys[i] in keys;
  }

  lemma {:induction false} InsertSorted(sorted: seq<string>, key: string)
    requires Sorted(sorted) && key !in sorted
    ensures Sorted(Insert(sorted, key))
    ensures forall k :: k in Insert(sorted, key) <==> k in sorted || k == key
  {
    InsertKeys(sorted, key);
    if sorted != [] {
      LessEqTotal(key, sorted[0]);
      HeadBelow(sorted);
      if LessEq(key, sorted[0]) {
        BelowToo(key, sorted);
        SortedCons(key, sorted);
      } else {
        InsertSorted(sorted[1..], key);
        SortedCons(sorted[0], Insert(sorted[1..], key));
      }
    }
  }

  lemma HeadBelow(sorted: seq<string>)
    requires Sorted(sorted) && sorted != []
    ensures Below(sorted[0], sorted[1..]) && sorted[0] in sorted
  {
  }

  lemma BelowToo(key: string, sorted: seq<string>)
    requires Sorted(sorted) && sorted != [] && key !in sorted && LessEq(key, sorted[0])
    ensures Below(key, sorted)
  {
    forall i | 0 <= i < |sorted| ensures LessEq(key, sorted[i]) {
      if i > 0 {
        LessEqTransitive(key, sorted[0], sorted[i]);
      }
    }
  }

  lemma HeadsAgree(s: seq<string>, t: seq<string>, names: set<string>)
    requires SortedKeys(s, names) && SortedKeys(t, names) && s != []
    ensures t != [] && s[0] == t[0]
  {
    assert s[0] in names;
    HeadBelow(s);
    HeadBelow(t);
    assert s == [s[0]] + s[1..] && t == [t[0]] + t[1..];
    LessEqTotal(s[0], t[0]);
  }

  lemma TailKeys(s: seq<string>, names: set<string>)
    requires SortedKeys(s, names) && s != []
    ensures SortedKeys(s[1..], names - {s[0]})
  {
    assert s == [s[0]] + s[1..];
  }

  /** The report of overridden keys does not depend on map order: a set of names has one sorted list. */
  lemma {:induction false} SortedKeysUnique(s: seq<string>, t: seq<string>, names: set<string>)
    requires SortedKeys(s, names) && SortedKeys(t, names)
    ensures s == t
    decreases |s|
  {
    assert t != [] ==> t[0] in t;
    if s != [] {
      HeadsAgree(s, t, names);
      TailKeys(s, names);
      TailKeys(t, names);
      SortedKeysUnique(s[1..], t[1..], names - {s[0]});
      assert s == [s[0]] + s[1..] && t == [t[0]] + t[1..];
    }
  }
}
