/**
 The in-memory working memory (component_library/data/working_memory.py): a dictionary keyed by
 one flat string per task and key, with a time to live and lazy eviction, against the plain map
 from (task, key) pairs that it stands for.
 */
module WorkingMemory {
  import opened Common

  type Time = int

  type Entries<V> = map<string, (Time, V)>

  // ----- keys -----

  function FullKey(scope: string, task: string, key: string): string {
    scope + task + ":" + key
  }

  /** `"wm:org:employee:"`, which every key of one memory starts with. */
  function ScopeOf(org: string, employee: string): string {
    "wm:" + org + ":" + employee + ":"
  }

  /** Python's `s.rsplit(":", 1)[-1]`. */
  function LastSegment(s: string): string {
    if s == "" || s[|s| - 1] == ':' then "" else LastSegment(s[..|s| - 1]) + [s[|s| - 1]]
  }

  predicate Plain(s: string) {
    ':' !in s
  }

  lemma {:induction false} LastSegmentOfKey(head: string, key: string)
    requires Plain(key)
    ensures LastSegment(head + ":" + key) == key
  {
    var s := head + ":" + key;
    if key == "" {
      assert s[|s| - 1] == ':';
    } else {
      assert key[|key| - 1] in key;
      assert s[..|s| - 1] == head + ":" + key[..|key| - 1];
      LastSegmentOfKey(head, key[..|key| - 1]);
    }
  }

  /** With colon-free task ids, the prefix of a task matches its own keys and no others. */
  lemma PrefixSelectsTask(scope: string, task: string, other: string, key: string)
    requires Plain(task) && Plain(other)
    ensures FullKey(scope, task, "") <= FullKey(scope, other, key) <==> task == other
  {
    var prefix, full := FullKey(scope, task, ""), FullKey(scope, other, key);
    if prefix <= full {
      var rest := full[|prefix|..];
      assert full == prefix + rest;
      assert full[|scope|..] == task + ":" + rest;
      assert full[|scope|..] == other + ":" + key;
      LaterSplit(task, rest, other, key, ':');
      LaterSplit(other, key, task, rest, ':');
    }
  }

  lemma KeysAreDistinct(scope: string, task: string, key: string, task': string, key': string)
    requires Plain(task) && Plain(task')
    requires FullKey(scope, task, key) == FullKey(scope, task', key')
    ensures task == task' && key == key'
  {
    var full := FullKey(scope, task, key);
    assert full[|scope|..] == task + ":" + key;
    assert full[|scope|..] == task' + ":" + key';
    LaterSplit(task, key, task', key', ':');
    LaterSplit(task', key', task, key, ':');
  }

  /** With a colon in a task id, two different pairs share one entry. */
  lemma ColonsCollide(scope: string)
    ensures FullKey(scope, "a:b", "c") == FullKey(scope, "a", "b:c")
  {
    assert "a:b" + ":" + "c" == "a" + ":" + "b:c";
    assert FullKey(scope, "a:b", "c") == scope + ("a:b" + ":" + "c");
    assert FullKey(scope, "a", "b:c") == scope + ("a" + ":" + "b:c");
  }

  // ----- the memory as it is -----

  datatype Op<V> =
    | Set(task: string, key: string, value: V, now: Time)
    | Get(task: string, key: string, now: Time)
    | GetAll(task: string, now: Time)
    | Clear(task: string, now: Time)

  datatype Answer<V> = Done | Found(value: Option<V>) | All(values: map<string, V>)

  predicate Expired<V>(r: (Time, V), now: Time) {
    r.0 < now
  }

  ghost predicate InTask<V>(entries: Entries<V>, scope: string, task: string, full: string) {
    full in entries && FullKey(scope, task, "") <= full
  }

  /** The entries after an operation; reads drop the expired ones they meet. */
  ghost function After<V>(entries: Entries<V>, scope: string, ttl: int, op: Op<V>): Entries<V> {
    match op
    case Set(task, key, value, now) => entries[FullKey(scope, task, key) := (now + ttl, value)]
    case Get(task, key, now) =>
      var full := FullKey(scope, task, key);
      if full in entries && Expired(entries[full], now) then entries - {full} else entries
    case GetAll(task, now) =>
      map full | full in entries && !(InTask(entries, scope, task, full) && Expired(entries[full], now)) :: entries[full]
    case Clear(task, now) =>
      map full | full in entries && !InTask(entries, scope, task, full) :: entries[full]
  }

  /** A live entry of the task whose last segment is `name`. */
  ghost predicate Names<V>(entries: Entries<V>, scope: string, task: string, now: Time, name: string, full: string) {
    InTask(entries, scope, task, full) && !Expired(entries[full], now) && LastSegment(full) == name
  }

  /** What an operation may answer; entries with one last segment compete for it in dictionary order. */
  ghost predicate Answers<V>(entries: Entries<V>, scope: string, op: Op<V>, answer: Answer<V>) {
    match op
    case Set(_, _, _, _) => answer == Done
    case Clear(_, _) => answer == Done
    case Get(task, key, now) =>
      var full := FullKey(scope, task, key);
      answer == Found(if full in entries && !Expired(entries[full], now) then Some(entries[full].1) else None)
    case GetAll(task, now) =>
      && answer.All?
      && (forall name :: name in answer.values ==>
            exists full :: Names(entries, scope, task, now, name, full) && answer.values[name] == entries[full].1)
      && (forall full :: InTask(entries, scope, task, full) && !Expired(entries[full], now) ==>
            LastSegment(full) in answer.values)
  }

  class Memory<V> {
    const scope: string
    const ttlSeconds: int
    var entries: Entries<V>

    constructor (org: string, employee: string, ttlSeconds: int)
      ensures scope == ScopeOf(org, employee) && this.ttlSeconds == ttlSeconds && entries == map[]
    {
      scope := ScopeOf(org, employee);
      this.ttlSeconds := ttlSeconds;
      entries := map[];
    }

    method SetContext(task: string, key: string, value: V, now: Time)
      modifies this
      ensures entries == After(old(entries), scope, ttlSeconds, Set(task, key, value, now))
    {
      entries := entries[FullKey(scope, task, key) := (now + ttlSeconds, value)];
    }

    method GetContext(task: string, key: string, now: Time) returns (value: Option<V>)
      modifies this
      ensures entries == After(old(entries), scope, ttlSeconds, Get(task, key, now))
      ensures Answers(old(entries), scope, Get(task, key, now), Found(value))
    {
      var full := FullKey(scope, task, key);
      if full !in entries {
        return None;
      }
      if Expired(entries[full], now) {
        entries := entries - {full};
        return None;
      }
      return Some(entries[full].1);
    }

    method GetAllOf(task: string, now: Time) returns (values: map<string, V>)
      modifies this
      ensures entries == After(old(entries), scope, ttlSeconds, GetAll(task, now))
      ensures Answers(old(entries), scope, GetAll(task, now), All(values))
    {
      values := map[];
      var prefix := FullKey(scope, task, "");
      ghost var before := entries;
      ghost var seen: set<string> := {};
      var pending := entries.Keys;
      while pending != {}
        invariant seen + pending == before.Keys && seen !! pending
        invariant entries == map full | full in before
                                        && !(full in seen && InTask(before, scope, task, full) && Expired(before[full], now))
                                      :: before[full]
        invariant forall name :: name in values ==>
          exists full :: Names(before, scope, task, now, name, full) && values[name] == before[full].1
        invariant forall full :: full in seen && InTask(before, scope, task, full) && !Expired(before[full], now) ==>
          LastSegment(full) in values
        decreases pending
      {
        var full :| full in pending;
        pending := pending - {full};
        seen := seen + {full};
        if !(prefix <= full) {
          continue;
        }
        if Expired(entries[full], now) {
          entries := entries - {full};
          continue;
        }
        assert Names(before, scope, task, now, LastSegment(full), full);
        values := values[LastSegment(full) := entries[full].1];
      }
    }

    method ClearTask(task: string, now: Time)
      modifies this
      ensures entries == After(old(entries), scope, ttlSeconds, Clear(task, now))
    {
      var prefix := FullKey(scope, task, "");
      ghost var before := entries;
      ghost var seen: set<string> := {};
      var pending := entries.Keys;
      while pending != {}
        invariant seen + pending == before.Keys && seen !! pending
        invariant entries == map full | full in before && !(full in seen && InTask(before, scope, task, full)) :: before[full]
        decreases pending
      {
        var full :| full in pending;
        pending := pending - {full};
        seen := seen + {full};
        if prefix <= full {
          entries := entries - {full};
        }
      }
    }
  }

  // ----- the map it stands for -----

  type Ideal<V> = map<(string, string), (Time, V)>

  /** The same operations on the map of pairs, where nothing is ever evicted. */
  ghost function IdealAfter<V>(ideal: Ideal<V>, ttl: int, op: Op<V>): Ideal<V> {
    match op
    case Set(task, key, value, now) => ideal[(task, key) := (now + ttl, value)]
    case Get(_, _, _) => ideal
    case GetAll(_, _) => ideal
    case Clear(task, _) => map p | p in ideal && p.0 != task :: ideal[p]
  }

  ghost predicate Live<V>(ideal: Ideal<V>, task: string, key: string, now: Time) {
    (task, key) in ideal && !Expired(ideal[(task, key)], now)
  }

  ghost predicate IdealAnswers<V>(ideal: Ideal<V>, op: Op<V>, answer: Answer<V>) {
    match op
    case Set(_, _, _, _) => answer == Done
    case Clear(_, _) => answer == Done
    case Get(task, key, now) => answer == Found(if Live(ideal, task, key, now) then Some(ideal[(task, key)].1) else None)
    case GetAll(task, now) =>
      answer.All? && forall key ::
        (key in answer.values <==> Live(ideal, task, key, now))
        && (key in answer.values ==> answer.values[key] == ideal[(task, key)].1)
  }

  predicate PlainOp<V>(op: Op<V>) {
    Plain(op.task) && (op.Set? || op.Get? ==> Plain(op.key))
  }

  /**
   Every entry stands for a pair; a pair without its entry has expired by the time `clock` is reached.
   */
  ghost predicate Stands<V>(entries: Entries<V>, scope: string, ideal: Ideal<V>, clock: Time) {
    && (forall p :: p in ideal ==> Plain(p.0) && Plain(p.1))
    && (forall full :: full in entries ==> exists p :: p in ideal && full == FullKey(scope, p.0, p.1))
    && (forall p :: p in ideal && FullKey(scope, p.0, p.1) in entries ==> entries[FullKey(scope, p.0, p.1)] == ideal[p])
    && (forall p :: p in ideal && FullKey(scope, p.0, p.1) !in entries ==> Expired(ideal[p], clock))
  }

  /** Later than now nothing more is evicted than what has expired anyway. */
  lemma StandsLater<V>(entries: Entries<V>, scope: string, ideal: Ideal<V>, clock: Time, later: Time)
    requires Stands(entries, scope, ideal, clock) && clock <= later
    ensures Stands(entries, scope, ideal, later)
  {
  }

  lemma EntryOf<V>(entries: Entries<V>, scope: string, ideal: Ideal<V>, clock: Time, task: string, key: string)
    requires Stands(entries, scope, ideal, clock) && Plain(task) && Plain(key)
    ensures var full := FullKey(scope, task, key);
            && (full in entries ==> (task, key) in ideal && entries[full] == ideal[(task, key)])
            && (full !in entries && (task, key) in ideal ==> Expired(ideal[(task, key)], clock))
  {
    var full := FullKey(scope, task, key);
    if full in entries {
      var p :| p in ideal && full == FullKey(scope, p.0, p.1);
      KeysAreDistinct(scope, task, key, p.0, p.1);
      assert p == (task, key);
    } else if (task, key) in ideal {
      assert full == FullKey(scope, (task, key).0, (task, key).1);
    }
  }

  lemma GetAgrees<V>(entries: Entries<V>, scope: string, ideal: Ideal<V>, op: Op<V>, answer: Answer<V>)
    requires op.Get? && PlainOp(op) && Stands(entries, scope, ideal, op.now)
    requires Answers(entries, scope, op, answer)
    ensures IdealAnswers(ideal, op, answer)
  {
    EntryOf(entries, scope, ideal, op.now, op.task, op.key);
  }

  lemma NamedEntry<V>(entries: Entries<V>, scope: string, ideal: Ideal<V>, task: string, now: Time, name: string, full: string)
    requires Plain(task) && Stands(entries, scope, ideal, now) && Names(entries, scope, task, now, name, full)
    ensures Live(ideal, task, name, now) && entries[full] == ideal[(task, name)]
  {
    var p :| p in ideal && full == FullKey(scope, p.0, p.1);
    PrefixSelectsTask(scope, task, p.0, p.1);
    LastSegmentOfKey(scope + p.0, p.1);
    assert p == (task, name);
  }

  lemma LiveEntry<V>(entries: Entries<V>, scope: string, ideal: Ideal<V>, task: string, now: Time, key: string)
    requires Plain(task) && Stands(entries, scope, ideal, now) && Live(ideal, task, key, now)
    ensures InTask(entries, scope, task, FullKey(scope, task, key)) && !Expired(entries[FullKey(scope, task, key)], now)
    ensures LastSegment(FullKey(scope, task, key)) == key
  {
    var p := (task, key);
    assert p in ideal;
    EntryOf(entries, scope, ideal, now, task, key);
    PrefixSelectsTask(scope, task, task, key);
    LastSegmentOfKey(scope + task, key);
  }

  lemma GetAllAgrees<V>(entries: Entries<V>, scope: string, ideal: Ideal<V>, op: Op<V>, answer: Answer<V>)
    requires op.GetAll? && PlainOp(op) && Stands(entries, scope, ideal, op.now)
    requires Answers(entries, scope, op, answer)
    ensures IdealAnswers(ideal, op, answer)
  {
    forall key
      ensures key in answer.values <==> Live(ideal, op.task, key, op.now)
      ensures key in answer.values ==> answer.values[key] == ideal[(op.task, key)].1
    {
      if key in answer.values {
        var full :| Names(entries, scope, op.task, op.now, key, full) && answer.values[key] == entries[full].1;
        NamedEntry(entries, scope, ideal, op.task, op.now, key, full);
      }
      if Live(ideal, op.task, key, op.now) {
        LiveEntry(entries, scope, ideal, op.task, op.now, key);
      }
    }
  }

  lemma SetStands<V>(entries: Entries<V>, scope: string, ttl: int, ideal: Ideal<V>, op: Op<V>)
    requires op.Set? && PlainOp(op) && Stands(entries, scope, ideal, op.now)
    ensures Stands(After(entries, scope, ttl, op), scope, IdealAfter(ideal, ttl, op), op.now)
  {
    var full := FullKey(scope, op.task, op.key);
    var after, ideal' := After(entries, scope, ttl, op), IdealAfter(ideal, ttl, op);
    forall p | p in ideal && FullKey(scope, p.0, p.1) == full ensures p == (op.task, op.key) {
      KeysAreDistinct(scope, p.0, p.1, op.task, op.key);
    }
    forall other | other in after ensures exists p :: p in ideal' && other == FullKey(scope, p.0, p.1) {
      if other == full {
        assert (op.task, op.key) in ideal';
      } else {
        var p :| p in ideal && other == FullKey(scope, p.0, p.1);
        assert p in ideal';
      }
    }
  }

  lemma ReadStands<V>(entries: Entries<V>, scope: string, ttl: int, ideal: Ideal<V>, op: Op<V>)
    requires (op.Get? || op.GetAll?) && Stands(entries, scope, ideal, op.now)
    ensures Stands(After(entries, scope, ttl, op), scope, IdealAfter(ideal, ttl, op), op.now)
  {
    var after := After(entries, scope, ttl, op);
    forall p | p in ideal && FullKey(scope, p.0, p.1) !in after ensures Expired(ideal[p], op.now) {
      if FullKey(scope, p.0, p.1) in entries {
        assert Expired(entries[FullKey(scope, p.0, p.1)], op.now);
      }
    }
  }

  lemma ClearStands<V>(entries: Entries<V>, scope: string, ttl: int, ideal: Ideal<V>, op: Op<V>)
    requires op.Clear? && PlainOp(op) && Stands(entries, scope, ideal, op.now)
    ensures Stands(After(entries, scope, ttl, op), scope, IdealAfter(ideal, ttl, op), op.now)
  {
    var after, ideal' := After(entries, scope, ttl, op), IdealAfter(ideal, ttl, op);
    forall p | p in ideal ensures FullKey(scope, op.task, "") <= FullKey(scope, p.0, p.1) <==> op.task == p.0 {
      PrefixSelectsTask(scope, op.task, p.0, p.1);
    }
    forall full | full in after ensures exists p :: p in ideal' && full == FullKey(scope, p.0, p.1) {
      var p :| p in ideal && full == FullKey(scope, p.0, p.1);
      assert p in ideal';
    }
  }

  /** Every operation keeps the correspondence, and answers as the plain map would. */
  lemma StepRefines<V>(entries: Entries<V>, scope: string, ttl: int, ideal: Ideal<V>, op: Op<V>, answer: Answer<V>)
    requires PlainOp(op) && Stands(entries, scope, ideal, op.now) && Answers(entries, scope, op, answer)
    ensures Stands(After(entries, scope, ttl, op), scope, IdealAfter(ideal, ttl, op), op.now)
    ensures IdealAnswers(ideal, op, answer)
  {
    match op
    case Set(_, _, _, _) => SetStands(entries, scope, ttl, ideal, op);
    case Get(_, _, _) => GetAgrees(entries, scope, ideal, op, answer); ReadStands(entries, scope, ttl, ideal, op);
    case GetAll(_, _) => GetAllAgrees(entries, scope, ideal, op, answer); ReadStands(entries, scope, ttl, ideal, op);
    case Clear(_, _) => ClearStands(entries, scope, ttl, ideal, op);
  }

  // ----- whole runs -----

  ghost predicate Produces<V>(entries: Entries<V>, scope: string, ttl: int, ops: seq<Op<V>>, answers: seq<Answer<V>>)
    requires |ops| == |answers|
    decreases |ops|
  {
    ops != [] ==>
      && Answers(entries, scope, ops[0], answers[0])
      && Produces(After(entries, scope, ttl, ops[0]), scope, ttl, ops[1..], answers[1..])
  }

  ghost predicate IdealProduces<V>(ideal: Ideal<V>, ttl: int, ops: seq<Op<V>>, answers: seq<Answer<V>>)
    requires |ops| == |answers|
    decreases |ops|
  {
    ops != [] ==>
      && IdealAnswers(ideal, ops[0], answers[0])
      && IdealProduces(IdealAfter(ideal, ttl, ops[0]), ttl, ops[1..], answers[1..])
  }

  ghost predicate ClockFrom<V>(ops: seq<Op<V>>, clock: Time) {
    ops != [] ==> clock <= ops[0].now && ClockFrom(ops[1..], ops[0].now)
  }

  /**
   Over every run with colon-free task ids and keys and a clock that never goes back, the memory
   answers exactly as the map of pairs does: eviction cannot be observed, `get_all` agrees with
   `get_context`, and clearing a task touches that task alone.
   */
  lemma {:induction false} MemoryRefinesMap<V>(entries: Entries<V>, scope: string, ttl: int, ideal: Ideal<V>, clock: Time,
                                               ops: seq<Op<V>>, answers: seq<Answer<V>>)
    requires |ops| == |answers| && Stands(entries, scope, ideal, clock) && ClockFrom(ops, clock)
    requires forall op :: op in ops ==> PlainOp(op)
    requires Produces(entries, scope, ttl, ops, answers)
    ensures IdealProduces(ideal, ttl, ops, answers)
    decreases |ops|
  {
    if ops != [] {
      var op := ops[0];
      assert op in ops;
      StandsLater(entries, scope, ideal, clock, op.now);
      StepRefines(entries, scope, ttl, ideal, op, answers[0]);
      MemoryRefinesMap(After(entries, scope, ttl, op), scope, ttl, IdealAfter(ideal, ttl, op), op.now, ops[1..], answers[1..]);
    }
  }

  /** A new memory stands for the empty map. */
  lemma EmptyStands<V>(scope: string, clock: Time)
    ensures Stands<V>(map[], scope, map[], clock)
  {
  }

  lemma {:induction false} LastSegmentIsPlain(s: string)
    ensures Plain(LastSegment(s))
  {
    if s != "" && s[|s| - 1] != ':' {
      LastSegmentIsPlain(s[..|s| - 1]);
    }
  }

  function FirstColon(s: string): (i: nat)
    requires !Plain(s)
    ensures i < |s| && s[i] == ':'
  {
    if s[0] == ':' then 0 else 1 + FirstColon(s[1..])
  }

  /** A colon in the key: `get_all` cannot answer with the whole key. */
  lemma ColonInKeyShows<V>(scope: string, ttl: int, task: string, key: string, value: V, now: Time)
    requires !Plain(key)
    ensures var write, read := Set(task, key, value, now), GetAll(task, now + ttl);
            forall answer ::
              Answers(After(map[], scope, ttl, write), scope, read, answer) ==> !IdealAnswers(IdealAfter(map[], ttl, write), read, answer)
  {
    var write, read := Set(task, key, value, now), GetAll(task, now + ttl);
    var entries, ideal := After(map[], scope, ttl, write), IdealAfter(map[], ttl, write);
    assert Live(ideal, task, key, now + ttl);
    forall answer | Answers(entries, scope, read, answer) ensures !IdealAnswers(ideal, read, answer) {
      if key in answer.values {
        var full :| Names(entries, scope, task, now + ttl, key, full) && answer.values[key] == entries[full].1;
        LastSegmentIsPlain(full);
      }
    }
  }

  /** A colon in the task id: the entry answers for another pair as well. */
  lemma ColonInTaskShows<V>(scope: string, ttl: int, task: string, key: string, value: V, now: Time)
    requires !Plain(task)
    ensures var i := FirstColon(task);
            var write, read := Set(task, key, value, now), Get(task[..i], task[i + 1..] + ":" + key, now + ttl);
            && Answers(After(map[], scope, ttl, write), scope, read, Found(Some(value)))
            && IdealAnswers(IdealAfter(map[], ttl, write), read, Found(None))
  {
    var i := FirstColon(task);
    assert task == task[..i] + ":" + task[i + 1..];
    assert FullKey(scope, task[..i], task[i + 1..] + ":" + key) == FullKey(scope, task, key);
  }

  /**
   An eviction shows in a later read if and only if the clock went back over the expiry in
   between: the entry was read too late, and then for a time at which it is still live.
   */
  lemma ClockGoingBackShowsEviction<V>(entries: Entries<V>, scope: string, ttl: int, task: string, key: string, value: V,
                                       start: Time, first: Time, second: Time)
    ensures var written := After(entries, scope, ttl, Set(task, key, value, start));
            var evicted := After(written, scope, ttl, Get(task, key, first));
            (forall answer :: Answers(written, scope, Get(task, key, second), answer) ==>
               !Answers(evicted, scope, Get(task, key, second), answer))
            <==> second <= start + ttl < first
  {
    var written := After(entries, scope, ttl, Set(task, key, value, start));
    var live := Found(if Expired((start + ttl, value), second) then None else Some(value));
    assert Answers(written, scope, Get(task, key, second), live);
  }
}
