/**
 Employee settings: the nested merge, and `get_settings` / `put_settings`
 (employee_runtime/core/api.py) over the preference records of the operational memory
 (component_library/data/operational_memory.py).
 */
module Settings {
  import opened Common

  /** A settings value: a plain one (a string, a number, a list), or a section of named values. */
  datatype Value = Plain(text: string) | Section(entries: Tree)

  type Tree = map<string, Value>

  // ----- the nested merge -----

  /** What the patch leaves at a key: sections are merged, anything else is replaced. */
  function Merge(base: Tree, patch: Tree): (merged: Tree)
    ensures merged.Keys == base.Keys + patch.Keys
    decreases Section(patch)
  {
    map k | k in base.Keys + patch.Keys ::
      if k !in patch then base[k]
      else if k in base && base[k].Section? && patch[k].Section? then Section(Merge(base[k].entries, patch[k].entries))
      else patch[k]
  }

  method MergeNested(base: Tree, patch: Tree) returns (merged: Tree)
    ensures merged == Merge(base, patch)
    decreases Section(patch)
  {
    merged := base;
    var pending := patch.Keys;
    while pending != {}
      invariant pending <= patch.Keys
      invariant merged.Keys == base.Keys + (patch.Keys - pending)
      invariant forall k :: k in merged ==> merged[k] == if k in patch.Keys - pending then Merge(base, patch)[k] else base[k]
      decreases pending
    {
      var key :| key in pending;
      pending := pending - {key};
      var value := patch[key];
      if value.Section? && key in merged && merged[key].Section? {
        var sub := MergeNested(merged[key].entries, value.entries);
        merged := merged[key := Section(sub)];
      } else {
        merged := merged[key := value];
      }
    }
  }

  lemma {:induction false} MergeWithItself(t: Tree)
    ensures Merge(t, t) == t
    decreases Section(t)
  {
    forall k | k in t ensures Merge(t, t)[k] == t[k] {
      if t[k].Section? {
        MergeWithItself(t[k].entries);
      }
    }
  }

  /** Applying a patch twice is applying it once. */
  lemma {:induction false} MergeIsIdempotent(base: Tree, patch: Tree)
    ensures Merge(Merge(base, patch), patch) == Merge(base, patch)
    decreases Section(patch)
  {
    var once := Merge(base, patch);
    forall k | k in once ensures Merge(once, patch)[k] == once[k] {
      if k in patch && patch[k].Section? {
        if k in base && base[k].Section? {
          MergeIsIdempotent(base[k].entries, patch[k].entries);
        } else {
          MergeWithItself(patch[k].entries);
        }
      }
    }
  }

  /** Every key of `under` is a key of `over`, at every depth where both have sections. */
  predicate Covers(over: Tree, under: Tree)
    decreases Section(under)
  {
    forall k :: k in under ==>
      k in over && (over[k].Section? && under[k].Section? ==> Covers(over[k].entries, under[k].entries))
  }

  lemma {:induction false} CoversMeansMergeChangesNothing(over: Tree, under: Tree)
    ensures Covers(over, under) <==> Merge(under, over) == over
    decreases Section(under)
  {
    forall k | k in under && k in over && over[k].Section? && under[k].Section?
      ensures Covers(over[k].entries, under[k].entries) <==> Merge(under, over)[k] == over[k]
    {
      CoversMeansMergeChangesNothing(over[k].entries, under[k].entries);
    }
    if Covers(over, under) {
      assert forall k :: k in Merge(under, over) ==> Merge(under, over)[k] == over[k];
    }
  }

  lemma {:induction false} MergeCoversBase(base: Tree, patch: Tree)
    ensures Covers(Merge(base, patch), base)
    decreases Section(patch)
  {
    var merged := Merge(base, patch);
    forall k | k in base && merged[k].Section? && base[k].Section? ensures Covers(merged[k].entries, base[k].entries) {
      if k in patch {
        MergeCoversBase(base[k].entries, patch[k].entries);
      } else {
        MergeWithItself(base[k].entries);
        CoversMeansMergeChangesNothing(base[k].entries, base[k].entries);
      }
    }
  }

  /**
   Where the first and the last tree have a section and the middle one a plain value, the last
   section covers the first: replacing by the plain value forgot nothing that matters.
   */
  predicate Compatible(a: Tree, b: Tree, c: Tree)
    decreases Section(a)
  {
    forall k :: k in a && k in b && k in c && a[k].Section? && c[k].Section? ==>
      if b[k].Section? then Compatible(a[k].entries, b[k].entries, c[k].entries)
      else Covers(c[k].entries, a[k].entries)
  }

  predicate CompatibleAt(a: Tree, b: Tree, c: Tree, k: string) {
    k in a && k in b && k in c && a[k].Section? && c[k].Section? ==>
      if b[k].Section? then Compatible(a[k].entries, b[k].entries, c[k].entries)
      else Covers(c[k].entries, a[k].entries)
  }

  lemma {:induction false} AssociativeAt(a: Tree, b: Tree, c: Tree, k: string)
    requires k in a.Keys + b.Keys + c.Keys
    ensures Merge(Merge(a, b), c)[k] == Merge(a, Merge(b, c))[k] <==> CompatibleAt(a, b, c, k)
    decreases Section(a), 0
  {
    if k in a && k in b && k in c && a[k].Section? && c[k].Section? {
      if b[k].Section? {
        MergeIsAssociativeIff(a[k].entries, b[k].entries, c[k].entries);
      } else {
        CoversMeansMergeChangesNothing(c[k].entries, a[k].entries);
      }
    }
  }

  /** Merging is associative exactly on compatible trees. */
  lemma {:induction false} MergeIsAssociativeIff(a: Tree, b: Tree, c: Tree)
    ensures Merge(Merge(a, b), c) == Merge(a, Merge(b, c)) <==> Compatible(a, b, c)
    decreases Section(a), 1
  {
    var left, right := Merge(Merge(a, b), c), Merge(a, Merge(b, c));
    forall k | k in left ensures left[k] == right[k] <==> CompatibleAt(a, b, c, k) {
      AssociativeAt(a, b, c, k);
    }
    if Compatible(a, b, c) {
      assert forall k :: k in left ==> left[k] == right[k];
    } else {
      var k :| k in a && k in b && k in c && !CompatibleAt(a, b, c, k);
      assert left[k] != right[k];
    }
  }

  /** A section, replaced by a plain value, replaced by an empty section: the order of merging shows. */
  lemma PlainInBetweenShows()
    ensures var a, b, c := map["s" := Section(map["x" := Plain("1")])], map["s" := Plain("off")], map["s" := Section(map[])];
            Merge(Merge(a, b), c) != Merge(a, Merge(b, c))
  {
    var a, b, c := map["s" := Section(map["x" := Plain("1")])], map["s" := Plain("off")], map["s" := Section(map[])];
    MergeIsAssociativeIff(a, b, c);
    assert "x" in a["s"].entries && "x" !in c["s"].entries;
    assert !Covers(c["s"].entries, a["s"].entries);
    assert "s" in a && "s" in b && "s" in c;
  }

  // ----- the preference records -----

  datatype Record = Record(key: string, value: Tree, category: string)

  const LIMIT := 100
  const PREFERENCE := "preference"
  const PROFILE_KEY := "pref:settings_profile"
  const QUIET_KEY := "pref:quiet_hours"
  const BARE_QUIET_KEY := "quiet_hours"
  const COMMUNICATION := "communication_preferences"
  const QUIET := "quiet_hours"

  ghost predicate UniqueKeys(records: seq<Record>) {
    forall i, j :: 0 <= i < j < |records| ==> records[i].key != records[j].key
  }

  /** A dictionary keeps a key where it first was, and puts a new one last. */
  function Stored(records: seq<Record>, r: Record): seq<Record> {
    if records == [] then [r]
    else if records[|records| - 1].key == r.key then records[..|records| - 1] + [r]
    else if exists i :: 0 <= i < |records| && records[i].key == r.key then
      Stored(records[..|records| - 1], r) + [records[|records| - 1]]
    else records + [r]
  }

  function InCategory(records: seq<Record>, category: string): seq<Record> {
    if records == [] then []
    else InCategory(records[..|records| - 1], category)
         + if records[|records| - 1].category == category then [records[|records| - 1]] else []
  }

  function Take<T>(s: seq<T>, limit: nat): seq<T> {
    if |s| <= limit then s else s[..limit]
  }

  lemma TakesFirstHundred<T>(s: seq<T>)
    ensures Take(s, LIMIT) <= s && if |s| <= 100 then Take(s, LIMIT) == s else |Take(s, LIMIT)| == 100
  {
  }

  /** What `list_by_category("preference")` answers. */
  function Visible(records: seq<Record>): seq<Record> {
    Take(InCategory(records, PREFERENCE), LIMIT)
  }

  class OperationalMemory {
    var records: seq<Record>

    constructor ()
      ensures records == []
    {
      records := [];
    }

    method Store(key: string, value: Tree, category: string)
      requires UniqueKeys(records)
      modifies this
      ensures records == Stored(old(records), Record(key, value, category)) && UniqueKeys(records)
    {
      StoredKeepsKeysUnique(records, Record(key, value, category));
      var i := 0;
      while i < |records| && records[i].key != key
        invariant 0 <= i <= |records|
        invariant forall j :: 0 <= j < i ==> records[j].key != key
      {
        i := i + 1;
      }
      StoredAt(records, Record(key, value, category), i);
      if i < |records| {
        records := records[i := Record(key, value, category)];
      } else {
        records := records + [Record(key, value, category)];
      }
    }

    method ListByCategory(category: string) returns (found: seq<Record>)
      ensures found == Take(InCategory(records, category), LIMIT)
    {
      found := [];
      for i := 0 to |records|
        invariant found == InCategory(records[..i], category)
      {
        assert records[..i + 1][..i] == records[..i];
        if records[i].category == category {
          found := found + [records[i]];
        }
      }
      assert records[..|records|] == records;
      if |found| > LIMIT {
        found := found[..LIMIT];
      }
    }
  }

  lemma CategorySnoc(a: seq<Record>, r: Record, category: string)
    ensures InCategory(a + [r], category) == InCategory(a, category) + if r.category == category then [r] else []
  {
    assert (a + [r])[..|a|] == a;
  }

  /** The records of a category in two parts are those of the parts, in order. */
  lemma {:induction false} CategoryOfParts(a: seq<Record>, b: seq<Record>, r: Record, category: string)
    ensures InCategory(a + b, category) == InCategory(a, category) + InCategory(b, category)
    ensures InCategory([r], category) == if r.category == category then [r] else []
    decreases |b|
  {
    CategorySnoc([], r, category);
    assert [] + [r] == [r];
    if b == [] {
      AppendNothing(a);
    } else {
      var front, last := b[..|b| - 1], b[|b| - 1];
      CategoryOfParts(a, front, r, category);
      AppendFront(a, b);
      CategorySnoc(a + front, last, category);
      CategorySnoc(front, last, category);
      assert front + [last] == b;
    }
  }

  lemma {:induction false} StoredAt(records: seq<Record>, r: Record, i: nat)
    requires UniqueKeys(records) && i <= |records|
    requires forall j :: 0 <= j < i ==> records[j].key != r.key
    requires i < |records| ==> records[i].key == r.key
    ensures Stored(records, r) == if i < |records| then records[i := r] else records + [r]
  {
    if i < |records| - 1 {
      var front := records[..|records| - 1];
      assert records[i].key != records[|records| - 1].key;
      StoredAt(front, r, i);
      assert records[i := r] == front[i := r] + [records[|records| - 1]];
    } else if i == |records| - 1 {
      assert records[i := r] == records[..i] + [r];
    }
  }

  lemma PlaceOf(records: seq<Record>, key: string) returns (i: nat)
    ensures i <= |records|
    ensures forall j :: 0 <= j < i ==> records[j].key != key
    ensures i < |records| ==> records[i].key == key
  {
    i := 0;
    while i < |records| && records[i].key != key
      invariant i <= |records|
      invariant forall j :: 0 <= j < i ==> records[j].key != key
    {
      i := i + 1;
    }
  }

  lemma StoredKeepsKeysUnique(records: seq<Record>, r: Record)
    requires UniqueKeys(records)
    ensures UniqueKeys(Stored(records, r)) && r in Stored(records, r)
    ensures forall other :: other in Stored(records, r) && other.key != r.key <==> other in records && other.key != r.key
  {
    var i := PlaceOf(records, r.key);
    StoredAt(records, r, i);
    var after := Stored(records, r);
    assert after[i] == r;
    forall other | other in records && other.key != r.key ensures other in after {
      var j :| 0 <= j < |records| && records[j] == other;
      assert after[j] == other;
    }
  }

  // ----- reading the settings -----

  datatype Failure = NotASection | NoQuietHours

  /** The value under the profile key, or the empty section. */
  function StoredProfile(prefs: seq<Record>): Tree {
    if prefs == [] then map[]
    else if exists i :: 0 <= i < |prefs| - 1 && prefs[i].key == PROFILE_KEY then StoredProfile(prefs[..|prefs| - 1])
    else if prefs[|prefs| - 1].key == PROFILE_KEY then prefs[|prefs| - 1].value
    else map[]
  }

  /** `pref["value"].get("value", pref["value"])`. */
  function Unwrapped(value: Tree): Value {
    if "value" in value then value["value"] else Section(value)
  }

  predicate IsQuietKey(key: string) {
    key == QUIET_KEY || key == BARE_QUIET_KEY
  }

  /** The last quiet-hours preference wins. */
  function QuietHours(prefs: seq<Record>): Option<Value> {
    if prefs == [] then None
    else if IsQuietKey(prefs[|prefs| - 1].key) then Some(Unwrapped(prefs[|prefs| - 1].value))
    else QuietHours(prefs[..|prefs| - 1])
  }

  /** The default profile has a communication section with plain quiet hours. */
  predicate IsDefault(defaults: Tree) {
    COMMUNICATION in defaults && defaults[COMMUNICATION].Section?
    && QUIET in defaults[COMMUNICATION].entries && defaults[COMMUNICATION].entries[QUIET].Plain?
  }

  /** Sets the quiet hours; a profile whose communication preferences are no section refuses. */
  function WithQuietHours(profile: Tree, value: Value): Result<Tree, Failure> {
    if COMMUNICATION in profile && profile[COMMUNICATION].Section?
    then Ok(profile[COMMUNICATION := Section(profile[COMMUNICATION].entries[QUIET := value])])
    else Err(NotASection)
  }

  function Get(prefs: seq<Record>, defaults: Tree): Result<Tree, Failure> {
    var profile := Merge(defaults, StoredProfile(prefs));
    match QuietHours(prefs)
    case None => Ok(profile)
    case Some(value) => WithQuietHours(profile, value)
  }

  // ----- writing the settings -----

  predicate HasQuietHours(profile: Tree) {
    COMMUNICATION in profile && profile[COMMUNICATION].Section? && QUIET in profile[COMMUNICATION].entries
  }

  function QuietOf(profile: Tree): Value {
    if HasQuietHours(profile) then profile[COMMUNICATION].entries[QUIET] else Plain("")
  }

  function ProfileRecord(next: Tree): Record {
    Record(PROFILE_KEY, next, PREFERENCE)
  }

  function QuietRecord(next: Tree): Record {
    Record(QUIET_KEY, map["value" := QuietOf(next)], PREFERENCE)
  }

  /** The records after a put; the profile is stored before the quiet hours are looked up. */
  function RecordsAfterPut(records: seq<Record>, defaults: Tree, values: Tree): seq<Record> {
    match Get(Visible(records), defaults)
    case Err(_) => records
    case Ok(current) =>
      var next := Merge(current, values);
      if HasQuietHours(next) then Stored(Stored(records, ProfileRecord(next)), QuietRecord(next))
      else Stored(records, ProfileRecord(next))
  }

  function Put(records: seq<Record>, defaults: Tree, values: Tree): Result<Tree, Failure> {
    match Get(Visible(records), defaults)
    case Err(e) => Err(e)
    case Ok(current) =>
      var next := Merge(current, values);
      if HasQuietHours(next) then Get(Visible(RecordsAfterPut(records, defaults, values)), defaults)
      else if COMMUNICATION in next && next[COMMUNICATION].Section? then Err(NoQuietHours)
      else Err(NotASection)
  }

  class SettingsService {
    const memory: OperationalMemory
    const defaults: Tree

    constructor (memory: OperationalMemory, defaults: Tree)
      ensures this.memory == memory && this.defaults == defaults
    {
      this.memory := memory;
      this.defaults := defaults;
    }

    method GetSettings() returns (r: Result<Tree, Failure>)
      ensures r == Get(Visible(memory.records), defaults)
    {
      var prefs := memory.ListByCategory(PREFERENCE);
      var stored := FirstProfile(prefs);
      var profile := MergeNested(defaults, stored);
      ghost var merged := profile;
      for i := 0 to |prefs|
        invariant match QuietHours(prefs[..i])
                  case None => profile == merged
                  case Some(value) => WithQuietHours(merged, value) == Ok(profile)
      {
        assert prefs[..i + 1][..i] == prefs[..i];
        if IsQuietKey(prefs[i].key) {
          if COMMUNICATION !in profile || !profile[COMMUNICATION].Section? {
            QuietHoursAreFound(prefs, i);
            return Err(NotASection);
          }
          var value := Unwrapped(prefs[i].value);
          if QuietHours(prefs[..i]).Some? {
            LaterQuietHoursWin(merged, QuietHours(prefs[..i]).value, value);
          }
          profile := profile[COMMUNICATION := Section(profile[COMMUNICATION].entries[QUIET := value])];
        }
      }
      assert prefs[..|prefs|] == prefs;
      return Ok(profile);
    }

    method PutSettings(values: Tree) returns (r: Result<Tree, Failure>)
      requires UniqueKeys(memory.records)
      modifies memory
      ensures memory.records == RecordsAfterPut(old(memory.records), defaults, values)
      ensures r == Put(old(memory.records), defaults, values)
    {
      var current := GetSettings();
      if current.Err? {
        return current;
      }
      var next := MergeNested(current.value, values);
      memory.Store(PROFILE_KEY, next, PREFERENCE);
      if COMMUNICATION !in next || !next[COMMUNICATION].Section? {
        return Err(NotASection);
      }
      if QUIET !in next[COMMUNICATION].entries {
        return Err(NoQuietHours);
      }
      memory.Store(QUIET_KEY, map["value" := next[COMMUNICATION].entries[QUIET]], PREFERENCE);
      r := GetSettings();
    }
  }

  method FirstProfile(prefs: seq<Record>) returns (stored: Tree)
    ensures stored == StoredProfile(prefs)
  {
    for i := 0 to |prefs|
      invariant forall j :: 0 <= j < i ==> prefs[j].key != PROFILE_KEY
      invariant StoredProfile(prefs[..i]) == map[]
    {
      assert prefs[..i + 1][..i] == prefs[..i];
      if prefs[i].key == PROFILE_KEY {
        FirstProfileDecides(prefs, i);
        return prefs[i].value;
      }
    }
    assert prefs[..|prefs|] == prefs;
    return map[];
  }

  lemma {:induction false} FirstProfileDecides(prefs: seq<Record>, i: nat)
    requires i < |prefs| && prefs[i].key == PROFILE_KEY
    requires forall j :: 0 <= j < i ==> prefs[j].key != PROFILE_KEY
    ensures StoredProfile(prefs) == prefs[i].value
  {
    if i < |prefs| - 1 {
      FirstProfileDecides(prefs[..|prefs| - 1], i);
    }
  }

  lemma {:induction false} NoProfileIsEmpty(prefs: seq<Record>)
    requires forall j :: 0 <= j < |prefs| ==> prefs[j].key != PROFILE_KEY
    ensures StoredProfile(prefs) == map[]
  {
  }

  lemma {:induction false} LastQuietHours(prefs: seq<Record>, j: int)
    requires -1 <= j < |prefs| && forall k :: j < k < |prefs| ==> !IsQuietKey(prefs[k].key)
    requires j >= 0 ==> IsQuietKey(prefs[j].key)
    ensures QuietHours(prefs) == if j < 0 then None else Some(Unwrapped(prefs[j].value))
  {
    if j < |prefs| - 1 {
      LastQuietHours(prefs[..|prefs| - 1], j);
    }
  }

  /** The answer read off the records: the first profile over the defaults, with the last quiet hours of either key. */
  lemma SettingsByPlace(prefs: seq<Record>, defaults: Tree, i: nat, j: int)
    requires i <= |prefs| && forall k :: 0 <= k < i ==> prefs[k].key != "pref:settings_profile"
    requires i < |prefs| ==> prefs[i].key == "pref:settings_profile"
    requires -1 <= j < |prefs|
    requires forall k :: j < k < |prefs| ==> prefs[k].key != "pref:quiet_hours" && prefs[k].key != "quiet_hours"
    requires j >= 0 ==> prefs[j].key == "pref:quiet_hours" || prefs[j].key == "quiet_hours"
    ensures var profile := Merge(defaults, if i < |prefs| then prefs[i].value else map[]);
            var section := if "communication_preferences" in profile then profile["communication_preferences"] else Plain("");
            Get(prefs, defaults)
            == if j < 0 then Ok(profile)
               else if section.Plain? then Err(NotASection)
               else
                 var found := prefs[j].value;
                 var quiet := if "value" in found then found["value"] else Section(found);
                 Ok(profile["communication_preferences" := Section(section.entries["quiet_hours" := quiet])])
  {
    if i < |prefs| {
      FirstProfileDecides(prefs, i);
    } else {
      NoProfileIsEmpty(prefs);
    }
    LastQuietHours(prefs, j);
  }

  lemma {:induction false} QuietHoursAreFound(prefs: seq<Record>, i: nat)
    requires i < |prefs| && IsQuietKey(prefs[i].key)
    ensures QuietHours(prefs).Some?
  {
    if i < |prefs| - 1 {
      QuietHoursAreFound(prefs[..|prefs| - 1], i);
    }
  }

  lemma LaterQuietHoursWin(profile: Tree, first: Value, second: Value)
    requires WithQuietHours(profile, first).Ok?
    ensures WithQuietHours(WithQuietHours(profile, first).value, second) == WithQuietHours(profile, second)
  {
    var entries := profile[COMMUNICATION].entries;
    assert entries[QUIET := first][QUIET := second] == entries[QUIET := second];
    assert WithQuietHours(WithQuietHours(profile, first).value, second).value == WithQuietHours(profile, second).value;
  }

  // ----- what a put leaves for the next get -----

  lemma {:induction false} KeptInCategory(records: seq<Record>, r: Record, category: string)
    requires r in records && r.category == category
    ensures r in InCategory(records, category)
  {
    if r != records[|records| - 1] {
      var i :| 0 <= i < |records| && records[i] == r;
      assert records[..|records| - 1][i] == r;
      KeptInCategory(records[..|records| - 1], r, category);
    }
  }

  lemma {:induction false} CategoryIsPart(records: seq<Record>, category: string)
    ensures forall r :: r in InCategory(records, category) ==> r in records && r.category == category
    ensures UniqueKeys(records) ==> UniqueKeys(InCategory(records, category))
  {
    if records != [] {
      var front := records[..|records| - 1];
      CategoryIsPart(front, category);
      assert forall r :: r in front ==> r in records;
      if UniqueKeys(records) {
        var kept := InCategory(front, category);
        forall i | 0 <= i < |kept| ensures kept[i].key != records[|records| - 1].key {
          assert kept[i] in front;
        }
      }
    }
  }

  lemma {:induction false} ProfileIsFound(prefs: seq<Record>, r: Record)
    requires UniqueKeys(prefs) && r in prefs && r.key == PROFILE_KEY
    ensures StoredProfile(prefs) == r.value
  {
    var i :| 0 <= i < |prefs| && prefs[i] == r;
    FirstProfileDecides(prefs, i);
  }

  predicate BareRecordWith(records: seq<Record>, j: nat) {
    j < |records| && records[j].key == BARE_QUIET_KEY && records[j].category == PREFERENCE
  }

  /** With the new key at `q`, a bare record behind it wins, and otherwise the new one does. */
  lemma {:induction false} QuietHoursFrom(records: seq<Record>, q: nat)
    requires UniqueKeys(records) && q < |records|
    requires records[q].key == QUIET_KEY && records[q].category == PREFERENCE
    ensures forall j: nat :: q < j && BareRecordWith(records, j) ==>
              QuietHours(InCategory(records, PREFERENCE)) == Some(Unwrapped(records[j].value))
    ensures (forall j: nat :: q < j ==> !BareRecordWith(records, j)) ==>
              QuietHours(InCategory(records, PREFERENCE)) == Some(Unwrapped(records[q].value))
  {
    var n := |records| - 1;
    var front, last := records[..n], records[n];
    var prefs := InCategory(records, PREFERENCE);
    if last.category == PREFERENCE {
      assert prefs[..|prefs| - 1] == InCategory(front, PREFERENCE);
    } else {
      AppendNothing(InCategory(front, PREFERENCE));
    }
    if q < n {
      QuietHoursFrom(front, q);
      assert last.key != QUIET_KEY;
      assert forall j: nat :: j < n ==> (BareRecordWith(front, j) <==> BareRecordWith(records, j));
      forall j: nat | q < j && BareRecordWith(records, j)
        ensures QuietHours(prefs) == Some(Unwrapped(records[j].value))
      {
        if j < n {
          assert last.key != BARE_QUIET_KEY;
        }
      }
      if BareRecordWith(records, n) {
        assert q < n;
      }
    }
  }

  /** Storing `r` put it at `i`, and moved no other record. */
  ghost predicate IsStored(records: seq<Record>, after: seq<Record>, r: Record, i: nat) {
    && |records| <= |after| <= |records| + 1 && i < |after| && after[i] == r
    && (forall j :: 0 <= j < |records| && records[j].key != r.key ==> after[j] == records[j])
    && (forall j :: 0 <= j < |records| ==> (records[j].key == r.key <==> j == i))
    && (|after| > |records| ==> i == |records|)
  }

  lemma StoredKeepsPlaces(records: seq<Record>, r: Record) returns (i: nat)
    requires UniqueKeys(records)
    ensures IsStored(records, Stored(records, r), r, i)
  {
    i := PlaceOf(records, r.key);
    StoredAt(records, r, i);
    if i < |records| {
      forall j | 0 <= j < |records| ensures records[j].key == r.key <==> j == i {
        if j > i {
          assert records[i].key != records[j].key;
        }
      }
    }
  }

  /** A bare preference with other quiet hours stands behind the place of the new one. */
  predicate Overridden(records: seq<Record>, quiet: Value) {
    exists i, j :: 0 <= i < j < |records| && records[i].key == QUIET_KEY
                   && BareRecordWith(records, j) && Unwrapped(records[j].value) != quiet
  }

  ghost predicate OverriddenFrom(records: seq<Record>, q: nat, quiet: Value) {
    exists j: nat :: q < j && BareRecordWith(records, j) && Unwrapped(records[j].value) != quiet
  }

  lemma QuietHoursWinFrom(after: seq<Record>, q: nat, next: Tree)
    requires UniqueKeys(after) && q < |after| && after[q] == QuietRecord(next)
    ensures QuietHours(InCategory(after, PREFERENCE)) == Some(QuietOf(next)) <==> !OverriddenFrom(after, q, QuietOf(next))
  {
    QuietHoursFrom(after, q);
    if j: nat :| q < j && BareRecordWith(after, j) {
      assert QuietHours(InCategory(after, PREFERENCE)) == Some(Unwrapped(after[j].value));
    }
  }

  /** The place of the new record decides as the records before the put do. */
  lemma OverriddenBefore(records: seq<Record>, once: seq<Record>, after: seq<Record>, next: Tree, k: nat, q: nat)
    requires IsStored(records, once, ProfileRecord(next), k) && IsStored(once, after, QuietRecord(next), q)
    ensures OverriddenFrom(after, q, QuietOf(next)) <==> Overridden(records, QuietOf(next))
  {
    BareRecordsStay(records, once, ProfileRecord(next), k);
    BareRecordsStay(once, after, QuietRecord(next), q);
    if Overridden(records, QuietOf(next)) {
      var i, j :| 0 <= i < j < |records| && records[i].key == QUIET_KEY
                  && BareRecordWith(records, j) && Unwrapped(records[j].value) != QuietOf(next);
      assert once[i] == records[i] && i == q;
      assert BareRecordWith(after, j);
    }
    if OverriddenFrom(after, q, QuietOf(next)) {
      var j: nat :| q < j && BareRecordWith(after, j) && Unwrapped(after[j].value) != QuietOf(next);
      assert BareRecordWith(records, j);
      assert q < |records| && once[q].key == QUIET_KEY && records[q] == once[q];
    }
  }

  /** A put that stores both preferences is overridden exactly when the records before it say so. */
  lemma QuietHoursWinIff(records: seq<Record>, next: Tree)
    requires UniqueKeys(records)
    ensures var after := Stored(Stored(records, ProfileRecord(next)), QuietRecord(next));
            QuietHours(InCategory(after, PREFERENCE)) == Some(QuietOf(next)) <==> !Overridden(records, QuietOf(next))
  {
    var once := Stored(records, ProfileRecord(next));
    var k := StoredKeepsPlaces(records, ProfileRecord(next));
    StoredKeepsKeysUnique(records, ProfileRecord(next));
    var q := StoredKeepsPlaces(once, QuietRecord(next));
    StoredKeepsKeysUnique(once, QuietRecord(next));
    QuietHoursWinFrom(Stored(once, QuietRecord(next)), q, next);
    OverriddenBefore(records, once, Stored(once, QuietRecord(next)), next, k, q);
  }

  lemma BareRecordsStay(records: seq<Record>, after: seq<Record>, r: Record, i: nat)
    requires IsStored(records, after, r, i) && r.key != BARE_QUIET_KEY
    ensures forall j: nat :: BareRecordWith(after, j) <==> BareRecordWith(records, j)
    ensures forall j: nat :: BareRecordWith(records, j) ==> after[j] == records[j]
  {
  }

  /** Current settings always cover the defaults. */
  lemma SettingsCoverDefaults(prefs: seq<Record>, defaults: Tree)
    requires IsDefault(defaults) && Get(prefs, defaults).Ok?
    ensures Covers(Get(prefs, defaults).value, defaults)
  {
    var profile, current := Merge(defaults, StoredProfile(prefs)), Get(prefs, defaults).value;
    MergeCoversBase(defaults, StoredProfile(prefs));
    if profile != current {
      assert Covers(profile[COMMUNICATION].entries, defaults[COMMUNICATION].entries);
      assert Covers(current[COMMUNICATION].entries, defaults[COMMUNICATION].entries);
    }
  }

  /** Merging into settings that cover the defaults gives settings the defaults do not change, exactly when compatible. */
  lemma NextIsStableIff(defaults: Tree, current: Tree, values: Tree)
    requires Covers(current, defaults)
    ensures Merge(defaults, Merge(current, values)) == Merge(current, values) <==> Compatible(defaults, current, values)
  {
    CoversMeansMergeChangesNothing(current, defaults);
    MergeIsAssociativeIff(defaults, current, values);
  }

  lemma QuietHoursSurviveMerge(defaults: Tree, next: Tree)
    requires IsDefault(defaults) && HasQuietHours(next)
    ensures HasQuietHours(Merge(defaults, next)) && QuietOf(Merge(defaults, next)) == QuietOf(next)
  {
  }

  lemma OverrideIsNoChangeIff(profile: Tree, next: Tree, value: Value)
    requires HasQuietHours(profile) && HasQuietHours(next) && QuietOf(profile) == QuietOf(next)
    ensures WithQuietHours(profile, value).Ok?
    ensures WithQuietHours(profile, value).value == next <==> profile == next && value == QuietOf(next)
  {
    var entries := profile[COMMUNICATION].entries;
    var written := WithQuietHours(profile, value).value;
    if value == QuietOf(next) {
      assert entries[QUIET := value] == entries;
      assert written == profile;
    } else {
      assert written[COMMUNICATION].entries[QUIET] == value;
    }
  }

  /** The records after a successful put hold both new preferences, once. */
  lemma PutStoresBoth(records: seq<Record>, next: Tree)
    requires UniqueKeys(records)
    ensures var after := Stored(Stored(records, ProfileRecord(next)), QuietRecord(next));
            && UniqueKeys(after) && ProfileRecord(next) in after && QuietRecord(next) in after
            && forall r :: r in after && r.key == BARE_QUIET_KEY ==> r in records
  {
    var once := Stored(records, ProfileRecord(next));
    StoredKeepsKeysUnique(records, ProfileRecord(next));
    StoredKeepsKeysUnique(once, QuietRecord(next));
  }

  /** One more preference, unless one with the key is there already. */
  function Added(records: seq<Record>, key: string): nat {
    if exists r :: r in records && r.key == key && r.category == PREFERENCE then 0 else 1
  }

  lemma AddedSnoc(front: seq<Record>, last: Record, key: string)
    ensures Added(front + [last], key) == if last.key == key && last.category == PREFERENCE then 0 else Added(front, key)
  {
    assert forall r :: r in front + [last] <==> r in front || r == last;
  }

  lemma NewKeyIsAdded(records: seq<Record>, key: string)
    requires forall i :: 0 <= i < |records| ==> records[i].key != key
    ensures Added(records, key) == 1
  {
  }

  lemma {:induction false} CategoryGrows(records: seq<Record>, r: Record)
    requires UniqueKeys(records) && r.category == PREFERENCE
    ensures |InCategory(Stored(records, r), PREFERENCE)| == |InCategory(records, PREFERENCE)| + Added(records, r.key)
  {
    if records == [] {
      CategorySnoc([], r, PREFERENCE);
      assert [] + [r] == [r];
    } else {
      var n := |records| - 1;
      var front, last := records[..n], records[n];
      assert records == front + [last];
      if last.key == r.key {
        CategorySnoc(front, last, PREFERENCE);
        CategorySnoc(front, r, PREFERENCE);
        AddedSnoc(front, last, r.key);
        NewKeyIsAdded(front, r.key);
      } else if exists i :: 0 <= i < |records| && records[i].key == r.key {
        CategoryGrows(front, r);
        CategorySnoc(front, last, PREFERENCE);
        CategorySnoc(Stored(front, r), last, PREFERENCE);
        AddedSnoc(front, last, r.key);
      } else {
        CategorySnoc(records, r, PREFERENCE);
        NewKeyIsAdded(records, r.key);
      }
    }
  }

  /** Room for both preferences on the one page that is read. */
  predicate HasRoom(records: seq<Record>) {
    |InCategory(records, PREFERENCE)| + Added(records, PROFILE_KEY) + Added(records, QUIET_KEY) <= LIMIT
  }

  lemma RoomIsEnough(records: seq<Record>, next: Tree)
    requires UniqueKeys(records) && HasRoom(records)
    ensures |InCategory(Stored(Stored(records, ProfileRecord(next)), QuietRecord(next)), PREFERENCE)| <= LIMIT
  {
    var once := Stored(records, ProfileRecord(next));
    StoredKeepsKeysUnique(records, ProfileRecord(next));
    CategoryGrows(records, ProfileRecord(next));
    CategoryGrows(once, QuietRecord(next));
    if r :| r in records && r.key == QUIET_KEY && r.category == PREFERENCE {
      assert r in once;
    }
  }

  /**
   With room for at most a hundred preferences, the settings read after a put are exactly the old
   ones merged with the new values if and only if the values bring back no section, in place of a
   plain value, that lacks a default, and no bare quiet-hours record stands behind the other one.
   */
  lemma GetAfterPutIff(records: seq<Record>, defaults: Tree, values: Tree)
    requires UniqueKeys(records) && IsDefault(defaults) && HasRoom(records) && Get(Visible(records), defaults).Ok?
    requires HasQuietHours(Merge(Get(Visible(records), defaults).value, values))
    ensures Put(records, defaults, values).Ok?
    ensures var current := Get(Visible(records), defaults).value;
            var next := Merge(current, values);
            Put(records, defaults, values) == Ok(next)
            <==> Compatible(defaults, current, values) && !Overridden(records, QuietOf(next))
  {
    var current, after := Get(Visible(records), defaults).value, RecordsAfterPut(records, defaults, values);
    var next, prefs := Merge(current, values), InCategory(after, PREFERENCE);
    RoomIsEnough(records, next);
    PutStoresBoth(records, next);
    CategoryIsPart(after, PREFERENCE);
    KeptInCategory(after, ProfileRecord(next), PREFERENCE);
    KeptInCategory(after, QuietRecord(next), PREFERENCE);
    ProfileIsFound(prefs, ProfileRecord(next));
    var q :| 0 <= q < |prefs| && prefs[q] == QuietRecord(next);
    QuietHoursAreFound(prefs, q);
    SettingsCoverDefaults(Visible(records), defaults);
    NextIsStableIff(defaults, current, values);
    QuietHoursSurviveMerge(defaults, next);
    OverrideIsNoChangeIff(Merge(defaults, next), next, QuietHours(prefs).value);
    QuietHoursWinIff(records, next);
  }

  /** Two quiet-hours records, the bare one behind the other: a put of new quiet hours is not read back. */
  lemma BareRecordOverrides(defaults: Tree)
    requires IsDefault(defaults)
    ensures var records := [Record(QUIET_KEY, map["value" := Plain("after_5pm")], PREFERENCE),
                            Record(BARE_QUIET_KEY, map["value" := Plain("after_6pm")], PREFERENCE)];
            var values := map[COMMUNICATION := Section(map[QUIET := Plain("after_7pm")])];
            && Get(Visible(records), defaults).Ok? && Put(records, defaults, values).Ok?
            && Put(records, defaults, values) != Ok(Merge(Get(Visible(records), defaults).value, values))
  {
    var first := Record(QUIET_KEY, map["value" := Plain("after_5pm")], PREFERENCE);
    var second := Record(BARE_QUIET_KEY, map["value" := Plain("after_6pm")], PREFERENCE);
    var records := [first, second];
    var values := map[COMMUNICATION := Section(map[QUIET := Plain("after_7pm")])];
    assert records[..1] == [first] && [first][..0] == [];
    assert InCategory([first], PREFERENCE) == [first];
    assert InCategory(records, PREFERENCE) == records;
    assert StoredProfile(records) == map[];
    assert QuietHours(records) == Some(Plain("after_6pm"));
    var current := Get(records, defaults).value;
    assert current[COMMUNICATION].Section?;
    assert Merge(current[COMMUNICATION].entries, values[COMMUNICATION].entries)[QUIET] == Plain("after_7pm");
    assert QuietOf(Merge(current, values)) == Plain("after_7pm");
    assert records[0].key == QUIET_KEY && BareRecordWith(records, 1) && Unwrapped(records[1].value) == Plain("after_6pm");
    GetAfterPutIff(records, defaults, values);
  }

  // ----- when a put is lost, and when it locks the settings -----

  lemma {:induction false} NewPreferenceIsLast(records: seq<Record>, r: Record)
    requires forall other :: other in records ==> other.key != r.key
    requires r.category == PREFERENCE
    ensures InCategory(Stored(records, r), PREFERENCE) == InCategory(records, PREFERENCE) + [r]
  {
    assert Stored(records, r) == records + [r];
    assert (records + [r])[..|records|] == records;
  }

  lemma PageIsFull(seen: seq<Record>, r: Record)
    requires |seen| >= LIMIT
    ensures Take(seen + [r], LIMIT) == Take(seen, LIMIT)
  {
    assert (seen + [r])[..LIMIT] == seen[..LIMIT];
  }

  /** Behind a hundred other preferences the first put is lost: nothing changes for any later get. */
  lemma PutBehindFullPageIsLost(records: seq<Record>, defaults: Tree, values: Tree)
    requires UniqueKeys(records) && |InCategory(records, PREFERENCE)| >= LIMIT
    requires forall r :: r in records ==> r.key != PROFILE_KEY && r.key != QUIET_KEY
    ensures Visible(RecordsAfterPut(records, defaults, values)) == Visible(records)
  {
    var seen := InCategory(records, PREFERENCE);
    if Get(Visible(records), defaults).Ok? {
      var next := Merge(Get(Visible(records), defaults).value, values);
      var once := Stored(records, ProfileRecord(next));
      NewPreferenceIsLast(records, ProfileRecord(next));
      PageIsFull(seen, ProfileRecord(next));
      if HasQuietHours(next) {
        StoredKeepsKeysUnique(records, ProfileRecord(next));
        NewPreferenceIsLast(once, QuietRecord(next));
        PageIsFull(seen + [ProfileRecord(next)], QuietRecord(next));
      }
    }
  }

  /** A quiet-hours preference is stored, under either key. */
  predicate HasQuietPreference(records: seq<Record>) {
    exists r :: r in records && r.category == PREFERENCE && IsQuietKey(r.key)
  }

  lemma HasQuietSnoc(front: seq<Record>, last: Record)
    ensures HasQuietPreference(front + [last])
            <==> HasQuietPreference(front) || (last.category == PREFERENCE && IsQuietKey(last.key))
  {
    assert forall r :: r in front + [last] <==> r in front || r == last;
  }

  lemma QuietHoursSnoc(prefs: seq<Record>, last: Record)
    ensures QuietHours(prefs + [last]) == if IsQuietKey(last.key) then Some(Unwrapped(last.value)) else QuietHours(prefs)
  {
    assert (prefs + [last])[..|prefs|] == prefs;
  }

  lemma {:induction false} QuietHoursIff(records: seq<Record>)
    ensures QuietHours(InCategory(records, PREFERENCE)).Some? <==> HasQuietPreference(records)
  {
    if records != [] {
      var front, last := records[..|records| - 1], records[|records| - 1];
      assert records == front + [last];
      QuietHoursIff(front);
      HasQuietSnoc(front, last);
      CategorySnoc(front, last, PREFERENCE);
      QuietHoursSnoc(InCategory(front, PREFERENCE), last);
      AppendNothing(InCategory(front, PREFERENCE));
    }
  }

  /**
   A put that replaces the communication preferences by a plain value fails after storing it.
   From then on every get and every put fails, and no put changes anything, if and only if some
   quiet-hours preference is stored.
   */
  lemma PlainCommunicationLocksIff(records: seq<Record>, defaults: Tree, values: Tree, later: Tree)
    requires UniqueKeys(records) && IsDefault(defaults) && Get(Visible(records), defaults).Ok?
    requires |InCategory(records, PREFERENCE)| + Added(records, PROFILE_KEY) <= LIMIT
    requires COMMUNICATION in values && values[COMMUNICATION].Plain?
    ensures Put(records, defaults, values) == Err(NotASection)
    ensures var after := RecordsAfterPut(records, defaults, values);
            && (Get(Visible(after), defaults).Err? <==> HasQuietPreference(records))
            && (HasQuietPreference(records) ==>
                  Put(after, defaults, later).Err? && RecordsAfterPut(after, defaults, later) == after)
  {
    var after := RecordsAfterPut(records, defaults, values);
    var next, prefs := Merge(Get(Visible(records), defaults).value, values), InCategory(after, PREFERENCE);
    CategoryGrows(records, ProfileRecord(next));
    StoredKeepsKeysUnique(records, ProfileRecord(next));
    CategoryIsPart(after, PREFERENCE);
    KeptInCategory(after, ProfileRecord(next), PREFERENCE);
    ProfileIsFound(prefs, ProfileRecord(next));
    assert Merge(defaults, next)[COMMUNICATION].Plain?;
    QuietHoursIff(after);
    assert HasQuietPreference(after) <==> HasQuietPreference(records);
  }
}
