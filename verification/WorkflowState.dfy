/**
 How a node's result enters the workflow state: `_merge_state_update` and the delta that a node
 handler returns (employee_runtime/workflows/dynamic_builder.py).
 */
module WorkflowState {
  import opened Common

  /** `Null` is Python's None; an `Atom` is a number, a truth value or another value that cannot be iterated. */
  datatype Value =
    | Null
    | Atom(text: string)
    | Text(text: string)
    | List(values: seq<Value>)
    | Record(fields: map<string, Value>)

  type State = map<string, Value>

  /** A component result in the order its keys were inserted. */
  type Items = seq<(string, Value)>

  const OUTPUT := "workflow_output"

  ghost predicate DistinctKeys(items: Items) {
    forall i, j :: 0 <= i < j < |items| ==> items[i].0 != items[j].0
  }

  /** The items whose keys are not state keys, as a dictionary. */
  function Foreign(items: Items, stateKeys: set<string>): map<string, Value> {
    if items == [] then map[]
    else
      var (key, value) := items[|items| - 1];
      var earlier := Foreign(items[..|items| - 1], stateKeys);
      if key in stateKeys then earlier else earlier[key := value]
  }

  /** The state with the state keys among the items written over it. */
  function Direct(state: State, items: Items, stateKeys: set<string>): State {
    if items == [] then state
    else
      var (key, value) := items[|items| - 1];
      var earlier := Direct(state, items[..|items| - 1], stateKeys);
      if key in stateKeys then earlier[key := value] else earlier
  }

  /** The items before the first foreign one. */
  function Leading(items: Items, stateKeys: set<string>): Items {
    if items == [] || items[0].0 !in stateKeys then [] else [items[0]] + Leading(items[1..], stateKeys)
  }

  lemma {:induction false} LeadingIsPrefix(items: Items, stateKeys: set<string>)
    ensures var n := |Leading(items, stateKeys)|;
            && n <= |items| && Leading(items, stateKeys) == items[..n]
            && (forall i :: 0 <= i < n ==> items[i].0 in stateKeys)
            && (n < |items| ==> items[n].0 !in stateKeys)
  {
    if items != [] && items[0].0 in stateKeys {
      LeadingIsPrefix(items[1..], stateKeys);
    }
  }

  /** A list element that `dict` takes for a key and its value: a list of two, or a string of two characters. */
  predicate IsPair(v: Value) {
    (v.List? && |v.values| == 2 && v.values[0].Text?) || (v.Text? && |v.text| == 2)
  }

  function KeyOf(v: Value): string
    requires IsPair(v)
  {
    if v.List? then v.values[0].text else v.text[..1]
  }

  function ValueOf(v: Value): Value
    requires IsPair(v)
  {
    if v.List? then v.values[1] else Text(v.text[1..])
  }

  /** The dictionary of a list of pairs, later ones over earlier ones. */
  function FromPairs(pairs: seq<Value>): Option<map<string, Value>> {
    if pairs == [] then Some(map[])
    else
      var earlier, last := FromPairs(pairs[..|pairs| - 1]), pairs[|pairs| - 1];
      if earlier.None? || !IsPair(last) then None else Some(earlier.value[KeyOf(last) := ValueOf(last)])
  }

  /** Python's `dict(value)`: a copy of a dictionary, an empty string or a list of pairs; None where it raises. */
  function AsDictionary(value: Value): Option<map<string, Value>> {
    match value
    case Record(fields) => Some(fields)
    case Text(text) => if text == "" then Some(map[]) else None
    case List(values) => FromPairs(values)
    case _ => None
  }

  /** `dict(updated.get("workflow_output", {}))`. */
  function OutputBase(state: State): Option<map<string, Value>> {
    if OUTPUT !in state then Some(map[]) else AsDictionary(state[OUTPUT])
  }

  /** The output the merge starts from, once it needs one. */
  function BaseOf(state: State, items: Items, stateKeys: set<string>): Option<map<string, Value>> {
    OutputBase(Direct(state, Leading(items, stateKeys), stateKeys))
  }

  /** What the merge returns; None where copying the output raises. */
  function Merged(state: State, items: Items, stateKeys: set<string>): Option<State> {
    var direct := Direct(state, items, stateKeys);
    if Leading(items, stateKeys) == items then Some(direct)
    else
      var base := BaseOf(state, items, stateKeys);
      if base.None? then None
      else Some(direct[OUTPUT := Record(base.value + Foreign(items, stateKeys))])
  }

  lemma {:induction false} ForeignEmpty(items: Items, stateKeys: set<string>)
    requires forall i :: 0 <= i < |items| ==> items[i].0 in stateKeys
    ensures Foreign(items, stateKeys) == map[]
  {
    if items != [] {
      ForeignEmpty(items[..|items| - 1], stateKeys);
    }
  }

  lemma ItemStep(state: State, items: Items, stateKeys: set<string>, i: nat)
    requires i < |items|
    ensures var (key, value) := items[i];
            && Direct(state, items[..i + 1], stateKeys)
               == (if key in stateKeys then Direct(state, items[..i], stateKeys)[key := value]
                   else Direct(state, items[..i], stateKeys))
            && Foreign(items[..i + 1], stateKeys)
               == (if key in stateKeys then Foreign(items[..i], stateKeys) else Foreign(items[..i], stateKeys)[key := value])
  {
    assert items[..i + 1][..i] == items[..i];
  }

  lemma AddOne(base: map<string, Value>, added: map<string, Value>, key: string, value: Value)
    ensures (base + added)[key := value] == base + added[key := value]
  {
  }

  lemma LeadingReached(state: State, items: Items, stateKeys: set<string>, i: nat)
    requires i < |items|
    ensures var n := |Leading(items, stateKeys)|;
            && n <= |items| && (i < n ==> items[i].0 in stateKeys) && (i == n ==> items[i].0 !in stateKeys)
            && (i == n ==> OutputBase(Direct(state, items[..i], stateKeys)) == BaseOf(state, items, stateKeys)
                           && Foreign(items[..i], stateKeys) == map[])
  {
    LeadingIsPrefix(items, stateKeys);
    if i == |Leading(items, stateKeys)| {
      ForeignEmpty(items[..i], stateKeys);
    }
  }

  method MergeStateUpdate(state: State, result: Items, stateKeys: set<string>) returns (updated: Option<State>)
    ensures updated == Merged(state, result, stateKeys)
  {
    var direct := state;
    var output: Option<map<string, Value>> := None;
    ghost var split, base := |Leading(result, stateKeys)|, BaseOf(state, result, stateKeys);
    LeadingIsPrefix(result, stateKeys);
    for i := 0 to |result|
      invariant direct == Direct(state, result[..i], stateKeys)
      invariant if i <= split then output == None
                else base.Some? && output == Some(base.value + Foreign(result[..i], stateKeys))
    {
      var (key, value) := result[i];
      ItemStep(state, result, stateKeys, i);
      LeadingReached(state, result, stateKeys, i);
      if key in stateKeys {
        direct := direct[key := value];
      } else {
        if output.None? {
          output := OutputBase(direct);
          if output.None? {
            return None;
          }
        }
        assert output.value == base.value + Foreign(result[..i], stateKeys);
        AddOne(base.value, Foreign(result[..i], stateKeys), key, value);
        output := Some(output.value[key := value]);
      }
    }
    assert result[..|result|] == result;
    updated := Some(if output.Some? then direct[OUTPUT := Record(output.value)] else direct);
  }

  lemma {:induction false} PairsOnly(values: seq<Value>)
    ensures FromPairs(values).Some? <==> forall i :: 0 <= i < |values| ==> IsPair(values[i])
  {
    if values != [] {
      PairsOnly(values[..|values| - 1]);
    }
  }

  /** The merge fails exactly when there is a foreign key and the output it is to join is no dictionary, empty string or list of pairs. */
  lemma MergeFailsIff(state: State, items: Items, stateKeys: set<string>)
    ensures Merged(state, items, stateKeys).None?
            <==> var lead := Leading(items, stateKeys);
                 var direct := Direct(state, lead, stateKeys);
                 && lead != items && OUTPUT in direct
                 && match direct[OUTPUT]
                    case Record(_) => false
                    case Text(text) => text != ""
                    case List(values) => exists i :: 0 <= i < |values| && !IsPair(values[i])
                    case _ => true
  {
    var direct := Direct(state, Leading(items, stateKeys), stateKeys);
    if OUTPUT in direct && direct[OUTPUT].List? {
      PairsOnly(direct[OUTPUT].values);
    }
  }

  // ----- what survives the merge -----

  ghost predicate ForeignAt(items: Items, stateKeys: set<string>, i: nat, k: string) {
    i < |items| && items[i].0 == k && k !in stateKeys
  }

  lemma {:induction false} ForeignHolds(items: Items, stateKeys: set<string>)
    requires DistinctKeys(items)
    ensures forall k :: k in Foreign(items, stateKeys) <==> exists i: nat :: ForeignAt(items, stateKeys, i, k)
    ensures forall i :: 0 <= i < |items| && items[i].0 !in stateKeys ==>
              items[i].0 in Foreign(items, stateKeys) && Foreign(items, stateKeys)[items[i].0] == items[i].1
  {
    if items != [] {
      var n := |items| - 1;
      var front := items[..n];
      ForeignHolds(front, stateKeys);
      forall k ensures k in Foreign(items, stateKeys) <==> exists i: nat :: ForeignAt(items, stateKeys, i, k) {
        if i: nat :| ForeignAt(front, stateKeys, i, k) {
          assert ForeignAt(items, stateKeys, i, k);
        } else if k == items[n].0 && k !in stateKeys {
          assert ForeignAt(items, stateKeys, n, k);
        } else {
          assert forall i: nat :: ForeignAt(items, stateKeys, i, k) ==> i == n || ForeignAt(front, stateKeys, i, k);
        }
      }
    }
  }

  lemma {:induction false} DirectHolds(state: State, items: Items, stateKeys: set<string>, key: string)
    requires DistinctKeys(items)
    ensures (forall i :: 0 <= i < |items| && items[i].0 == key ==> key !in stateKeys) ==>
              (key in Direct(state, items, stateKeys) <==> key in state)
              && (key in state ==> Direct(state, items, stateKeys)[key] == state[key])
    ensures forall i :: 0 <= i < |items| && items[i].0 == key && key in stateKeys ==>
              key in Direct(state, items, stateKeys) && Direct(state, items, stateKeys)[key] == items[i].1
  {
    if items != [] {
      DirectHolds(state, items[..|items| - 1], stateKeys, key);
    }
  }

  /** Every item of the result can be read back: state keys directly, the others in the output. */
  lemma ResultIsReadable(state: State, items: Items, stateKeys: set<string>, i: nat)
    requires DistinctKeys(items) && i < |items| && items[i].0 != OUTPUT && OUTPUT in stateKeys
    requires Merged(state, items, stateKeys).Some?
    ensures var merged := Merged(state, items, stateKeys).value;
            var (key, value) := items[i];
            if key in stateKeys then key in merged && merged[key] == value
            else OUTPUT in merged && merged[OUTPUT].Record? && key in merged[OUTPUT].fields
                 && merged[OUTPUT].fields[key] == value
  {
    DirectHolds(state, items, stateKeys, items[i].0);
    ForeignHolds(items, stateKeys);
    LeadingIsPrefix(items, stateKeys);
  }

  /** Every other key of the state is kept, and no other is added. */
  lemma OtherKeysAreKept(state: State, items: Items, stateKeys: set<string>, key: string)
    requires DistinctKeys(items) && Merged(state, items, stateKeys).Some? && key != OUTPUT
    requires forall i :: 0 <= i < |items| && items[i].0 == key ==> key !in stateKeys
    ensures var merged := Merged(state, items, stateKeys).value;
            (key in merged <==> key in state) && (key in state ==> merged[key] == state[key])
  {
    DirectHolds(state, items, stateKeys, key);
  }

  /** The entry of a dictionary that a list element stands for. */
  predicate Gives(v: Value, key: string, value: Value) {
    v == List([Text(key), value]) || (|key| == 1 && value.Text? && |value.text| == 1 && v == Text(key + value.text))
  }

  lemma PairIsRead(v: Value, key: string, value: Value)
    ensures IsPair(v) && KeyOf(v) == key && ValueOf(v) == value <==> Gives(v, key, value)
  {
    if v.List? && |v.values| == 2 {
      assert v.values == [v.values[0], v.values[1]];
    } else if v.Text? && |v.text| == 2 {
      assert v.text == v.text[..1] + v.text[1..];
      assert Gives(v, key, value) ==> v.text[..1] == key && v.text[1..] == value.text;
    }
  }

  predicate HasKey(v: Value, key: string) {
    IsPair(v) && KeyOf(v) == key
  }

  ghost predicate LastWith(pairs: seq<Value>, key: string, i: nat) {
    i < |pairs| && HasKey(pairs[i], key) && forall j :: i < j < |pairs| ==> !HasKey(pairs[j], key)
  }

  lemma LastWithFront(pairs: seq<Value>, key: string, i: nat)
    requires i + 1 < |pairs| && LastWith(pairs, key, i)
    ensures LastWith(pairs[..|pairs| - 1], key, i)
  {
  }

  /** A list of pairs as a dictionary: each key has the value of the last pair with this key. */
  lemma {:induction false} PairsAreRead(pairs: seq<Value>, key: string, i: nat)
    requires FromPairs(pairs).Some?
    ensures LastWith(pairs, key, i) ==> key in FromPairs(pairs).value && FromPairs(pairs).value[key] == ValueOf(pairs[i])
    ensures (forall j :: 0 <= j < |pairs| ==> !HasKey(pairs[j], key)) ==> key !in FromPairs(pairs).value
  {
    if pairs != [] {
      var n := |pairs| - 1;
      PairsAreRead(pairs[..n], key, i);
      if LastWith(pairs, key, i) && i < n {
        LastWithFront(pairs, key, i);
        assert !HasKey(pairs[n], key);
      }
    }
  }

  /** The output that foreign keys leave: the old one, if there was one, with the foreign items over it, and nothing else. */
  lemma OutputIsExact(state: State, items: Items, stateKeys: set<string>, old': map<string, Value>)
    requires DistinctKeys(items) && forall i :: 0 <= i < |items| ==> items[i].0 != OUTPUT
    requires Leading(items, stateKeys) != items
    requires if OUTPUT in state then state[OUTPUT] == Record(old') else old' == map[]
    ensures Merged(state, items, stateKeys).Some?
    ensures var merged := Merged(state, items, stateKeys).value;
            && OUTPUT in merged && merged[OUTPUT].Record?
            && (forall k :: k in merged[OUTPUT].fields <==> k in old' || exists i: nat :: ForeignAt(items, stateKeys, i, k))
            && (forall i: nat, k :: ForeignAt(items, stateKeys, i, k) ==> merged[OUTPUT].fields[k] == items[i].1)
            && (forall k :: k in old' && !(exists i: nat :: ForeignAt(items, stateKeys, i, k)) ==> merged[OUTPUT].fields[k] == old'[k])
  {
    LeadingIsPrefix(items, stateKeys);
    var lead := Leading(items, stateKeys);
    forall i | 0 <= i < |lead| ensures lead[i].0 != OUTPUT {
      assert lead[i] == items[i];
    }
    DirectHolds(state, lead, stateKeys, OUTPUT);
    ForeignHolds(items, stateKeys);
  }

  /** The field is still there in the merged output, unless a foreign item of the same name replaced it. */
  ghost predicate Survives(fields: map<string, Value>, items: Items, stateKeys: set<string>, merged: map<string, Value>) {
    forall k :: k in fields && k !in Foreign(items, stateKeys) ==> k in merged && merged[k] == fields[k]
  }

  /**
   A result that returns its own `workflow_output` next to foreign keys keeps it exactly when it
   comes before the first foreign key, or when it only repeats what the state already held.
   */
  lemma OwnOutputSurvives(state: State, items: Items, stateKeys: set<string>, j: nat)
    requires DistinctKeys(items) && OUTPUT in stateKeys && j < |items|
    requires items[j].0 == OUTPUT && items[j].1.Record?
    requires Leading(items, stateKeys) != items
    requires OutputBase(state).Some?
    ensures Merged(state, items, stateKeys).Some?
    ensures Merged(state, items, stateKeys).value[OUTPUT].Record?
    ensures Survives(items[j].1.fields, items, stateKeys, Merged(state, items, stateKeys).value[OUTPUT].fields)
            <==> (j < |Leading(items, stateKeys)|
                  || Survives(items[j].1.fields, items, stateKeys, OutputBase(state).value))
  {
    LeadingIsPrefix(items, stateKeys);
    var lead := Leading(items, stateKeys);
    DirectHolds(state, lead, stateKeys, OUTPUT);
    if j < |lead| {
      assert lead[j] == items[j];
      assert OutputBase(Direct(state, lead, stateKeys)) == Some(items[j].1.fields);
    } else {
      forall i | 0 <= i < |lead| ensures lead[i].0 != OUTPUT {
        assert lead[i] == items[i];
      }
      assert OutputBase(Direct(state, lead, stateKeys)) == OutputBase(state);
    }
  }

  // ----- the delta a handler returns -----

  function Get(state: State, key: string): Value {
    if key in state then state[key] else Null
  }

  /** The entries of the merged state that differ from what `state.get` gives. */
  function Delta(state: State, merged: State): State {
    map k | k in merged && Get(state, k) != merged[k] :: merged[k]
  }

  lemma {:induction false} DirectKeepsKeys(state: State, items: Items, stateKeys: set<string>)
    ensures state.Keys <= Direct(state, items, stateKeys).Keys
  {
    if items != [] {
      DirectKeepsKeys(state, items[..|items| - 1], stateKeys);
    }
  }

  /**
   Applying only the delta gives a state that reads like the merged one at every key, and is
   the merged one exactly when the merge added no key holding None.
   */
  lemma DeltaReadsLikeMerge(state: State, items: Items, stateKeys: set<string>)
    requires Merged(state, items, stateKeys).Some?
    ensures var merged := Merged(state, items, stateKeys).value;
            var after := state + Delta(state, merged);
            && (forall k :: Get(after, k) == Get(merged, k))
            && (after == merged <==> forall k :: k in merged && merged[k] == Null ==> k in state)
  {
    var merged := Merged(state, items, stateKeys).value;
    DirectKeepsKeys(state, items, stateKeys);
    var after := state + Delta(state, merged);
    if forall k :: k in merged && merged[k] == Null ==> k in state {
      assert after.Keys == merged.Keys;
    } else {
      var k :| k in merged && merged[k] == Null && k !in state;
      assert k !in after;
    }
  }
}
