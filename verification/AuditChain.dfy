/**
 The audit hash chain (component_library/quality/audit_system.py): the in-memory log, which links
 an event only to the event just before it, and the database log, which links it to the latest
 row of the same employee, read and inserted in separate steps.

 The digest is a parameter, assumed injective, never empty and free of the separator '|'.
 Details stand for their canonical JSON text.
 */
module AuditChain {
  import opened Common
  import Strings = Text

  type Digest = string -> string

  ghost predicate Ideal(sha: Digest) {
    && (forall a, b :: sha(a) == sha(b) ==> a == b)
    && (forall a :: sha(a) != "" && '|' !in sha(a))
  }

  function Raw(eventType: string, details: string, prev: string): string {
    eventType + "|" + details + "|" + prev
  }

  function ComputeHash(sha: Digest, eventType: string, details: string, prev: string): string {
    sha(Raw(eventType, details, prev))
  }

  /** The link is what follows the last separator, so equal hashes have equal links. */
  lemma HashDeterminesLink(sha: Digest, t: string, d: string, p: string, t': string, d': string, p': string)
    requires Ideal(sha) && '|' !in p && '|' !in p'
    requires ComputeHash(sha, t, d, p) == ComputeHash(sha, t', d', p')
    ensures p == p' && t + "|" + d == t' + "|" + d'
  {
    LaterSplit(t + "|" + d, p, t' + "|" + d', p', '|');
    LaterSplit(t' + "|" + d', p', t + "|" + d, p, '|');
  }

  // ----- JSON text -----

  /** Where a reader of JSON text stands. */
  datatype Reader = Outside | InString | Escaped | Bad

  /** One character further; no JSON text has a separator or a backslash outside its strings. */
  function Step(r: Reader, c: char): Reader {
    match r
    case Outside => if c == '\"' then InString else if c == '|' || c == '\\' then Bad else Outside
    case InString => if c == '\"' then Outside else if c == '\\' then Escaped else InString
    case Escaped => InString
    case Bad => Bad
  }

  function ReadOn(r: Reader, text: string): Reader
    decreases |text|
  {
    if text == "" then r else ReadOn(Step(r, text[0]), text[1..])
  }

  /** What holds of every text that `json.dumps` gives: its strings are closed, and it is never bad outside them. */
  predicate JsonText(text: string) {
    ReadOn(Outside, text) == Outside
  }

  lemma {:induction false} ReadOnAppend(r: Reader, a: string, b: string)
    ensures ReadOn(r, a + b) == ReadOn(ReadOn(r, a), b)
    decreases |a|
  {
    if a == "" {
      assert a + b == b;
    } else {
      assert (a + b)[1..] == a[1..] + b;
      ReadOnAppend(Step(r, a[0]), a[1..], b);
    }
  }

  lemma {:induction false} BadStaysBad(text: string)
    ensures ReadOn(Bad, text) == Bad
  {
    if text != "" {
      BadStaysBad(text[1..]);
    }
  }

  /** A JSON value; an atom is a number or a word such as `true`. */
  datatype Json = Atom(text: string) | Text(s: string) | List(items: seq<Json>) | Dict(fields: seq<Field>)

  datatype Field = Field(key: string, value: Json)

  predicate PlainAtom(text: string) {
    forall i :: 0 <= i < |text| ==> text[i] != '\"' && text[i] != '|' && text[i] != '\\'
  }

  ghost predicate PlainAtoms(v: Json) {
    match v
    case Atom(text) => PlainAtom(text)
    case Text(_) => true
    case List(items) => forall i :: 0 <= i < |items| ==> PlainAtoms(items[i])
    case Dict(fields) => forall i :: 0 <= i < |fields| ==> PlainAtoms(fields[i].value)
  }

  /** How a character is written inside a string: as itself or escaped, but never so that the string ends. */
  ghost predicate KeepsString(escape: char -> string) {
    forall c :: ReadOn(InString, escape(c)) == InString
  }

  function Escapes(s: string, escape: char -> string): string {
    if s == "" then "" else escape(s[0]) + Escapes(s[1..], escape)
  }

  function Quoted(s: string, escape: char -> string): string {
    "\"" + Escapes(s, escape) + "\""
  }

  /** `json.dumps`. */
  function Dumps(v: Json, escape: char -> string): string
    decreases v, 0
  {
    match v
    case Atom(text) => text
    case Text(s) => Quoted(s, escape)
    case List(items) => "[" + ListText(items, escape) + "]"
    case Dict(fields) => "{" + DictText(fields, escape) + "}"
  }

  function ListText(items: seq<Json>, escape: char -> string): string
    decreases items, |items|
  {
    if items == [] then ""
    else Dumps(items[0], escape) + (if |items| > 1 then ", " else "") + ListText(items[1..], escape)
  }

  function DictText(fields: seq<Field>, escape: char -> string): string
    decreases fields, |fields|
  {
    if fields == [] then ""
    else Quoted(fields[0].key, escape) + ": " + Dumps(fields[0].value, escape)
         + (if |fields| > 1 then ", " else "") + DictText(fields[1..], escape)
  }

  /** Characters are escaped one by one. */
  lemma {:induction false} EscapesOfParts(a: string, b: string, escape: char -> string)
    ensures Escapes(a + b, escape) == Escapes(a, escape) + Escapes(b, escape)
    ensures forall c :: Escapes([c], escape) == escape(c)
    decreases |a|
  {
    forall c ensures Escapes([c], escape) == escape(c) {
      assert [c][1..] == "";
      AppendNothing(escape(c));
    }
    if a == "" {
      assert a + b == b;
    } else {
      EscapesOfParts(a[1..], b, escape);
      assert (a + b)[1..] == a[1..] + b;
      assert escape(a[0]) + Escapes(a[1..], escape) + Escapes(b, escape) == escape(a[0]) + (Escapes(a[1..], escape) + Escapes(b, escape));
    }
  }

  lemma JoinMore(first: string, rest: seq<string>)
    ensures Strings.Join([first] + rest, ", ") == if rest == [] then first else first + ", " + Strings.Join(rest, ", ")
  {
    if rest == [] {
      AppendNothing([first]);
    } else {
      Strings.JoinAppend([first], rest, ", ");
    }
  }

  /** The items of a list are written one after the other, with commas between them. */
  lemma {:induction false} ListTextIsJoined(items: seq<Json>, escape: char -> string)
    ensures ListText(items, escape)
            == Strings.Join(seq(|items|, i requires 0 <= i < |items| => Dumps(items[i], escape)), ", ")
    decreases |items|
  {
    if items != [] {
      var rest := seq(|items| - 1, i requires 0 <= i < |items| - 1 => Dumps(items[1..][i], escape));
      ListTextIsJoined(items[1..], escape);
      JoinMore(Dumps(items[0], escape), rest);
      assert seq(|items|, i requires 0 <= i < |items| => Dumps(items[i], escape)) == [Dumps(items[0], escape)] + rest;
      AppendNothing(Dumps(items[0], escape));
    }
  }

  /** The fields of a dictionary are written as keys and values, with commas between them. */
  lemma {:induction false} DictTextIsJoined(fields: seq<Field>, escape: char -> string)
    ensures DictText(fields, escape)
            == Strings.Join(seq(|fields|, i requires 0 <= i < |fields| =>
                              "\"" + Escapes(fields[i].key, escape) + "\": " + Dumps(fields[i].value, escape)), ", ")
    decreases |fields|
  {
    if fields != [] {
      var rest := seq(|fields| - 1, i requires 0 <= i < |fields| - 1 =>
                        "\"" + Escapes(fields[1..][i].key, escape) + "\": " + Dumps(fields[1..][i].value, escape));
      var first := "\"" + Escapes(fields[0].key, escape) + "\": " + Dumps(fields[0].value, escape);
      DictTextIsJoined(fields[1..], escape);
      JoinMore(first, rest);
      assert seq(|fields|, i requires 0 <= i < |fields| =>
                   "\"" + Escapes(fields[i].key, escape) + "\": " + Dumps(fields[i].value, escape)) == [first] + rest;
      AppendNothing(first);
      QuotedColon(Escapes(fields[0].key, escape), Dumps(fields[0].value, escape));
    }
  }

  lemma QuotedColon(inner: string, value: string)
    ensures "\"" + inner + "\"" + ": " + value == "\"" + inner + "\": " + value
  {
  }

  lemma {:induction false} PlainAtomIsJson(text: string)
    requires PlainAtom(text)
    ensures JsonText(text)
  {
    if text != "" {
      PlainAtomIsJson(text[1..]);
    }
  }

  lemma {:induction false} EscapesStayInString(s: string, escape: char -> string)
    requires KeepsString(escape)
    ensures ReadOn(InString, Escapes(s, escape)) == InString
  {
    if s != "" {
      ReadOnAppend(InString, escape(s[0]), Escapes(s[1..], escape));
      EscapesStayInString(s[1..], escape);
    }
  }

  lemma QuotedIsJson(s: string, escape: char -> string)
    requires KeepsString(escape)
    ensures JsonText(Quoted(s, escape))
  {
    EscapesStayInString(s, escape);
    var inner := Escapes(s, escape);
    ReadOnAppend(Outside, "\"" + inner, "\"");
    ReadOnAppend(Outside, "\"", inner);
    assert "\""[1..] == "";
  }

  lemma JsonAppend(a: string, b: string)
    requires JsonText(a) && JsonText(b)
    ensures JsonText(a + b)
  {
    ReadOnAppend(Outside, a, b);
  }

  /** Everything `json.dumps` writes is JSON text in this sense. */
  lemma {:induction false} DumpsIsJson(v: Json, escape: char -> string)
    requires KeepsString(escape) && PlainAtoms(v)
    ensures JsonText(Dumps(v, escape))
    decreases v, 0
  {
    match v
    case Atom(text) => PlainAtomIsJson(text);
    case Text(s) => QuotedIsJson(s, escape);
    case List(items) =>
      ListTextIsJson(items, escape);
      Bracketed("[", ListText(items, escape), "]");
    case Dict(fields) =>
      DictTextIsJson(fields, escape);
      Bracketed("{", DictText(fields, escape), "}");
  }

  lemma Bracketed(open: string, inner: string, close: string)
    requires JsonText(inner) && PlainAtom(open) && PlainAtom(close)
    ensures JsonText(open + inner + close)
  {
    PlainAtomIsJson(open);
    PlainAtomIsJson(close);
    JsonAppend(open, inner);
    JsonAppend(open + inner, close);
  }

  lemma {:induction false} ListTextIsJson(items: seq<Json>, escape: char -> string)
    requires KeepsString(escape) && forall i :: 0 <= i < |items| ==> PlainAtoms(items[i])
    ensures JsonText(ListText(items, escape))
    decreases items, |items|
  {
    if items != [] {
      DumpsIsJson(items[0], escape);
      ListTextIsJson(items[1..], escape);
      var comma := if |items| > 1 then ", " else "";
      PlainAtomIsJson(comma);
      JsonAppend(Dumps(items[0], escape), comma);
      JsonAppend(Dumps(items[0], escape) + comma, ListText(items[1..], escape));
    }
  }

  lemma {:induction false} DictTextIsJson(fields: seq<Field>, escape: char -> string)
    requires KeepsString(escape) && forall i :: 0 <= i < |fields| ==> PlainAtoms(fields[i].value)
    ensures JsonText(DictText(fields, escape))
    decreases fields, |fields|
  {
    if fields != [] {
      var key, value := Quoted(fields[0].key, escape), Dumps(fields[0].value, escape);
      QuotedIsJson(fields[0].key, escape);
      DumpsIsJson(fields[0].value, escape);
      DictTextIsJson(fields[1..], escape);
      var comma := if |fields| > 1 then ", " else "";
      PlainAtomIsJson(comma);
      Bracketed("", key, ": ");
      assert "" + key == key;
      JsonAppend(key + ": ", value);
      JsonAppend(key + ": " + value, comma);
      JsonAppend(key + ": " + value + comma, DictText(fields[1..], escape));
    }
  }

  /** Two readers on the two sides of a quote stay on different sides, unless one of them meets what is bad. */
  lemma {:induction false} ReadersNeverMeet(r: Reader, text: string)
    requires r.Outside? || r.InString?
    ensures ReadOn(r, text).Outside? ==> !ReadOn(if r.Outside? then InString else Outside, text).Outside?
    decreases |text|
  {
    if text != "" {
      var other: Reader := if r.Outside? then InString else Outside;
      var next, next' := Step(r, text[0]), Step(other, text[0]);
      BadStaysBad(text[1..]);
      if next != Bad && next' != Bad {
        ReadersNeverMeet(next, text[1..]);
      }
    }
  }

  /** What follows a separator inside a JSON text is no JSON text itself. */
  lemma NoJsonBehindSeparator(before: string, rest: string)
    requires JsonText(before + "|" + rest)
    ensures !JsonText(rest)
  {
    var r := ReadOn(Outside, before);
    ReadOnAppend(Outside, before + "|", rest);
    ReadOnAppend(Outside, before, "|");
    assert "|"[1..] == "";
    BadStaysBad(rest);
    assert ReadOn(Step(r, '|'), rest) == Outside;
    ReadersNeverMeet(InString, rest);
  }

  lemma SplitAtLaterSeparator(t: string, d: string, t': string, d': string)
    requires t + "|" + d == t' + "|" + d' && |t| < |t'|
    ensures exists s :: d == s + "|" + d'
  {
    var k := |t'| - |t| - 1;
    var whole := t + "|" + d;
    assert d == whole[|t| + 1..] && d' == whole[|t'| + 1..];
    assert whole[|t'|] == '|' && d[k] == '|';
    assert d == d[..k] + "|" + d';
  }

  /** The hashed text determines type, details and link of an event, whatever its type. */
  lemma HashDeterminesEvent(sha: Digest, t: string, d: string, p: string, t': string, d': string, p': string)
    requires Ideal(sha) && JsonText(d) && JsonText(d') && '|' !in p && '|' !in p'
    requires ComputeHash(sha, t, d, p) == ComputeHash(sha, t', d', p')
    ensures t == t' && d == d' && p == p'
  {
    HashDeterminesLink(sha, t, d, p, t', d', p');
    if |t| < |t'| {
      SplitAtLaterSeparator(t, d, t', d');
      var s :| d == s + "|" + d';
      NoJsonBehindSeparator(s, d');
    } else if |t'| < |t| {
      SplitAtLaterSeparator(t', d', t, d);
      var s :| d' == s + "|" + d;
      NoJsonBehindSeparator(s, d);
    } else {
      LaterSplit(t, d, t', d', '|');
    }
  }

  // ----- trails and their verification -----

  datatype Entry = Entry(employee: string, eventType: string, details: string, prevHash: string, hash: string, at: int)

  function TrailOf(log: seq<Entry>, employee: string): seq<Entry> {
    if log == [] then []
    else
      var last := log[|log| - 1];
      TrailOf(log[..|log| - 1], employee) + if last.employee == employee then [last] else []
  }

  /** The hash that the entry at `k` should link to. */
  function LinkOf(trail: seq<Entry>, k: nat): string
    requires k <= |trail|
  {
    if k == 0 then "" else trail[k - 1].hash
  }

  predicate Breaks(sha: Digest, trail: seq<Entry>, k: nat)
    requires k < |trail|
  {
    trail[k].hash != ComputeHash(sha, trail[k].eventType, trail[k].details, LinkOf(trail, k))
  }

  ghost predicate Verifies(sha: Digest, trail: seq<Entry>) {
    forall k :: 0 <= k < |trail| ==> !Breaks(sha, trail, k)
  }

  lemma VerifiesIff(sha: Digest, trail: seq<Entry>)
    ensures Verifies(sha, trail) <==> forall k :: 0 <= k < |trail| ==>
              trail[k].hash == sha(trail[k].eventType + "|" + trail[k].details + "|" + if k == 0 then "" else trail[k - 1].hash)
  {
    forall k | 0 <= k < |trail|
      ensures Breaks(sha, trail, k) <==>
              trail[k].hash != sha(trail[k].eventType + "|" + trail[k].details + "|" + if k == 0 then "" else trail[k - 1].hash)
    {
    }
  }

  datatype Verification = Verification(valid: bool, checked: nat)

  class AuditSystem {
    const sha: Digest
    var events: seq<Entry>

    constructor (sha: Digest)
      ensures this.sha == sha && events == []
    {
      this.sha := sha;
      events := [];
    }

    method LogEvent(employee: string, eventType: string, details: string, at: int) returns (event: Entry)
      modifies this
      ensures event == NextEvent(sha, old(events), employee, eventType, details, at)
      ensures events == old(events) + [event]
      ensures event.employee == employee && event.eventType == eventType && event.details == details && event.at == at
      ensures event.prevHash == if old(events) != [] && old(events)[|old(events)| - 1].employee == employee
                                then old(events)[|old(events)| - 1].hash else ""
      ensures event.hash == sha(eventType + "|" + details + "|" + event.prevHash)
    {
      var prev := "";
      if events != [] && events[|events| - 1].employee == employee {
        prev := events[|events| - 1].hash;
      }
      var hash := ComputeHash(sha, eventType, details, prev);
      event := Entry(employee, eventType, details, prev, hash, at);
      events := events + [event];
    }

    method GetTrail(employee: string) returns (trail: seq<Entry>)
      ensures trail == TrailOf(events, employee)
    {
      trail := [];
      for i := 0 to |events|
        invariant trail == TrailOf(events[..i], employee)
      {
        assert events[..i + 1][..i] == events[..i];
        if events[i].employee == employee {
          trail := trail + [events[i]];
        }
      }
      assert events[..|events|] == events;
    }

    /** The check passes exactly when no entry breaks the chain, and otherwise stops at the first that does. */
    method VerifyChain(employee: string) returns (v: Verification)
      ensures var trail := TrailOf(events, employee);
              && (v.valid <==> Verifies(sha, trail))
              && (v.valid ==> v.checked == |trail|)
              && (!v.valid ==>
                    && 1 <= v.checked <= |trail|
                    && Breaks(sha, trail, v.checked - 1)
                    && forall k :: 0 <= k < v.checked - 1 ==> !Breaks(sha, trail, k))
    {
      var trail := GetTrail(employee);
      var prev := "";
      for i := 0 to |trail|
        invariant prev == LinkOf(trail, i)
        invariant forall k :: 0 <= k < i ==> !Breaks(sha, trail, k)
      {
        var expected := ComputeHash(sha, trail[i].eventType, trail[i].details, prev);
        if trail[i].hash != expected {
          assert Breaks(sha, trail, i);
          return Verification(false, i + 1);
        }
        prev := trail[i].hash;
      }
      v := Verification(true, |trail|);
    }
  }

  // ----- the in-memory log -----

  function NextEvent(sha: Digest, log: seq<Entry>, employee: string, eventType: string, details: string, at: int): Entry {
    var prev := if log != [] && log[|log| - 1].employee == employee then log[|log| - 1].hash else "";
    Entry(employee, eventType, details, prev, ComputeHash(sha, eventType, details, prev), at)
  }

  /** A log written by `LogEvent` alone. */
  ghost predicate Written(sha: Digest, log: seq<Entry>) {
    forall i :: 0 <= i < |log| ==>
      log[i] == NextEvent(sha, log[..i], log[i].employee, log[i].eventType, log[i].details, log[i].at)
  }

  lemma LoggingKeepsWritten(sha: Digest, log: seq<Entry>, employee: string, eventType: string, details: string, at: int)
    requires Written(sha, log)
    ensures Written(sha, log + [NextEvent(sha, log, employee, eventType, details, at)])
  {
    var after := log + [NextEvent(sha, log, employee, eventType, details, at)];
    forall i | 0 <= i < |after|
      ensures after[i] == NextEvent(sha, after[..i], after[i].employee, after[i].eventType, after[i].details, after[i].at)
    {
      assert after[..i] == log[..i];
      assert log[..|log|] == log;
    }
  }

  /** Where in the log the employee's events stand. */
  function Positions(log: seq<Entry>, employee: string): seq<nat> {
    if log == [] then []
    else
      Positions(log[..|log| - 1], employee) + if log[|log| - 1].employee == employee then [|log| - 1] else []
  }

  lemma {:induction false} PositionsAscend(log: seq<Entry>, employee: string)
    ensures var at := Positions(log, employee);
            && |at| == |TrailOf(log, employee)|
            && (forall k :: 0 <= k < |at| ==>
                  at[k] < |log| && log[at[k]].employee == employee && TrailOf(log, employee)[k] == log[at[k]])
            && (forall j, k :: 0 <= j < k < |at| ==> at[j] < at[k])
  {
    if log != [] {
      PositionsAscend(log[..|log| - 1], employee);
    }
  }

  lemma {:induction false} PositionsCover(log: seq<Entry>, employee: string, i: nat)
    requires i < |log| && log[i].employee == employee
    ensures i in Positions(log, employee)
  {
    var n := |log| - 1;
    if i < n {
      PositionsCover(log[..n], employee, i);
    }
  }

  lemma PositionsHold(log: seq<Entry>, employee: string)
    ensures var at := Positions(log, employee);
            && |at| == |TrailOf(log, employee)|
            && (forall k :: 0 <= k < |at| ==>
                  at[k] < |log| && log[at[k]].employee == employee && TrailOf(log, employee)[k] == log[at[k]])
            && (forall j, k :: 0 <= j < k < |at| ==> at[j] < at[k])
            && (forall i :: 0 <= i < |log| && log[i].employee == employee ==> i in at)
  {
    PositionsAscend(log, employee);
    forall i | 0 <= i < |log| && log[i].employee == employee ensures i in Positions(log, employee) {
      PositionsCover(log, employee, i);
    }
  }

  /** Some other employee's event stands between this one and the one before it in the trail. */
  ghost predicate Gap(at: seq<nat>, k: nat)
    requires k < |at|
  {
    k > 0 && at[k] != at[k - 1] + 1
  }

  lemma AscendingSteps(at: seq<nat>, j: nat, k: nat)
    requires forall i, i' :: 0 <= i < i' < |at| ==> at[i] < at[i']
    requires j < |at| && k < |at|
    ensures j + 1 < k ==> at[j] + 1 < at[k]
    ensures k <= j ==> at[k] <= at[j]
  {
    if j + 1 < k {
      assert at[j] < at[j + 1] < at[k];
    }
  }

  /** The event before position `at[k]` is the employee's own exactly when there is no gap there. */
  lemma GapIsForeignNeighbour(log: seq<Entry>, employee: string, k: nat)
    requires k < |Positions(log, employee)|
    ensures var at := Positions(log, employee);
            && at[k] < |log|
            && (at[k] > 0 && log[at[k] - 1].employee == employee <==> k > 0 && !Gap(at, k))
  {
    PositionsHold(log, employee);
    var at := Positions(log, employee);
    if at[k] > 0 && log[at[k] - 1].employee == employee {
      assert at[k] - 1 in at;
      var j :| 0 <= j < |at| && at[j] == at[k] - 1;
      AscendingSteps(at, j, k);
      assert j == k - 1;
    }
  }

  /** The hash the event at position `i` of the log was given. */
  lemma StoredHash(sha: Digest, log: seq<Entry>, i: nat)
    requires Written(sha, log) && i < |log|
    ensures var prev := if i > 0 && log[i - 1].employee == log[i].employee then log[i - 1].hash else "";
            log[i].hash == ComputeHash(sha, log[i].eventType, log[i].details, prev)
  {
    assert log[i] == NextEvent(sha, log[..i], log[i].employee, log[i].eventType, log[i].details, log[i].at);
    if i > 0 {
      assert log[..i][i - 1] == log[i - 1];
    }
  }

  /** The previous hash the employee's k-th event was stored with. */
  lemma StoredLink(sha: Digest, log: seq<Entry>, employee: string, k: nat)
    requires Written(sha, log) && k < |TrailOf(log, employee)|
    ensures |Positions(log, employee)| == |TrailOf(log, employee)|
    ensures var trail := TrailOf(log, employee);
            var prev := if k > 0 && !Gap(Positions(log, employee), k) then LinkOf(trail, k) else "";
            trail[k].hash == ComputeHash(sha, trail[k].eventType, trail[k].details, prev)
  {
    PositionsHold(log, employee);
    GapIsForeignNeighbour(log, employee, k);
    var at, trail := Positions(log, employee), TrailOf(log, employee);
    assert trail[k] == log[at[k]];
    StoredHash(sha, log, at[k]);
    if k > 0 && !Gap(at, k) {
      assert trail[k - 1] == log[at[k - 1]];
    }
  }

  lemma OtherLinkOtherHash(sha: Digest, eventType: string, details: string, link: string)
    requires Ideal(sha) && '|' !in link && link != ""
    ensures ComputeHash(sha, eventType, details, "") != ComputeHash(sha, eventType, details, link)
  {
    if ComputeHash(sha, eventType, details, "") == ComputeHash(sha, eventType, details, link) {
      HashDeterminesLink(sha, eventType, details, "", eventType, details, link);
    }
  }

  /** Every event of the trail is hashed with the link before it, except behind a gap. */
  ghost predicate LinkedBut(sha: Digest, trail: seq<Entry>, at: seq<nat>) {
    && |at| == |trail|
    && forall k :: 0 <= k < |trail| ==>
         trail[k].hash
         == ComputeHash(sha, trail[k].eventType, trail[k].details, if k > 0 && !Gap(at, k) then LinkOf(trail, k) else "")
  }

  lemma WrittenIsLinked(sha: Digest, log: seq<Entry>, employee: string)
    requires Written(sha, log)
    ensures LinkedBut(sha, TrailOf(log, employee), Positions(log, employee))
  {
    PositionsAscend(log, employee);
    var trail := TrailOf(log, employee);
    forall k | 0 <= k < |trail|
      ensures trail[k].hash == ComputeHash(sha, trail[k].eventType, trail[k].details,
                                           if k > 0 && !Gap(Positions(log, employee), k) then LinkOf(trail, k) else "")
    {
      StoredLink(sha, log, employee, k);
    }
  }

  lemma LinkedBreaks(sha: Digest, trail: seq<Entry>, at: seq<nat>, k: nat)
    requires Ideal(sha) && LinkedBut(sha, trail, at) && k < |trail|
    ensures Breaks(sha, trail, k) <==> Gap(at, k)
  {
    if Gap(at, k) {
      OtherLinkOtherHash(sha, trail[k].eventType, trail[k].details, LinkOf(trail, k));
    }
  }

  /** An in-memory trail breaks exactly where another employee's event interrupted it. */
  lemma BreaksAtGaps(sha: Digest, log: seq<Entry>, employee: string, k: nat)
    requires Ideal(sha) && Written(sha, log)
    requires k < |TrailOf(log, employee)|
    ensures |Positions(log, employee)| == |TrailOf(log, employee)|
    ensures Breaks(sha, TrailOf(log, employee), k) <==> Gap(Positions(log, employee), k)
  {
    WrittenIsLinked(sha, log, employee);
    LinkedBreaks(sha, TrailOf(log, employee), Positions(log, employee), k);
  }

  ghost predicate Contiguous(at: seq<nat>) {
    forall k :: 0 <= k < |at| ==> at[k] == at[0] + k
  }

  lemma {:induction false} NoGapsIsContiguous(at: seq<nat>, n: nat)
    requires n <= |at| && forall k :: 0 <= k < n ==> !Gap(at, k)
    ensures forall k :: 0 <= k < n ==> at[k] == at[0] + k
  {
    if n > 0 {
      NoGapsIsContiguous(at, n - 1);
      assert !Gap(at, n - 1);
    }
  }

  /** The in-memory check passes exactly when the employee's events form one contiguous block of the log. */
  lemma VerifiesIffContiguous(sha: Digest, log: seq<Entry>, employee: string)
    requires Ideal(sha) && Written(sha, log)
    ensures Verifies(sha, TrailOf(log, employee)) <==> Contiguous(Positions(log, employee))
  {
    PositionsHold(log, employee);
    var at, trail := Positions(log, employee), TrailOf(log, employee);
    forall k | 0 <= k < |trail| ensures Breaks(sha, trail, k) <==> Gap(at, k) {
      BreaksAtGaps(sha, log, employee, k);
    }
    if Verifies(sha, trail) {
      forall k | 0 <= k < |at| ensures !Gap(at, k) {
        assert !Breaks(sha, trail, k);
      }
      NoGapsIsContiguous(at, |at|);
    }
  }

  // ----- what a verified trail commits to -----

  /** The details are JSON text, as everything the log serialises is. */
  ghost predicate Encoded(trail: seq<Entry>) {
    forall k :: 0 <= k < |trail| ==> JsonText(trail[k].details)
  }

  ghost predicate SameEvent(a: Entry, b: Entry) {
    a.eventType == b.eventType && a.details == b.details && a.hash == b.hash
  }

  /** Two verified trails with the same last hash record the same events in the same order. */
  lemma {:induction false} LastHashDeterminesTrail(sha: Digest, a: seq<Entry>, b: seq<Entry>)
    requires Ideal(sha) && Verifies(sha, a) && Verifies(sha, b) && Encoded(a) && Encoded(b)
    requires LinkOf(a, |a|) == LinkOf(b, |b|)
    ensures |a| == |b| && forall k :: 0 <= k < |a| ==> SameEvent(a[k], b[k])
    decreases |a|
  {
    if a != [] {
      assert !Breaks(sha, a, |a| - 1);
    }
    if b != [] {
      assert !Breaks(sha, b, |b| - 1);
    }
    if a != [] && b != [] {
      var a', b' := a[..|a| - 1], b[..|b| - 1];
      VerifiedPrefix(sha, a, |a| - 1);
      VerifiedPrefix(sha, b, |b| - 1);
      HashDeterminesEvent(sha, a[|a| - 1].eventType, a[|a| - 1].details, LinkOf(a', |a'|),
                          b[|b| - 1].eventType, b[|b| - 1].details, LinkOf(b', |b'|));
      LastHashDeterminesTrail(sha, a', b');
      forall k | 0 <= k < |a| ensures SameEvent(a[k], b[k]) {
        if k < |a| - 1 {
          assert SameEvent(a'[k], b'[k]);
        }
      }
    }
  }

  lemma VerifiedPrefix(sha: Digest, trail: seq<Entry>, n: nat)
    requires Ideal(sha) && Verifies(sha, trail) && n <= |trail|
    ensures Verifies(sha, trail[..n])
    ensures LinkOf(trail[..n], n) == LinkOf(trail, n)
    ensures '|' !in LinkOf(trail, n) && (n > 0 ==> LinkOf(trail, n) != "")
  {
    forall k | 0 <= k < n ensures !Breaks(sha, trail[..n], k) {
      assert !Breaks(sha, trail, k);
    }
    if n > 0 {
      assert !Breaks(sha, trail, n - 1);
    }
  }

  // ----- the database log -----

  /** A call between its read and its insert; `seen` is how many rows of the employee were there at its read. */
  datatype Call = Call(employee: string, eventType: string, details: string, prev: string, seen: nat)

  /** `forked` collects the employees for whom another row was inserted between a call's read and its insert. */
  datatype Database = Database(rows: seq<Entry>, calls: map<nat, Call>, forked: set<string>)

  datatype DbStep =
    | Read(call: nat, employee: string, eventType: string, details: string, latest: Option<Entry>)
    | Insert(call: nat, at: int)

  /** `ORDER BY occurred_at DESC LIMIT 1`: any row with the greatest time, none when there are no rows. */
  ghost predicate IsLatest(trail: seq<Entry>, latest: Option<Entry>) {
    if latest.None? then trail == []
    else latest.value in trail && forall r :: r in trail ==> r.at <= latest.value.at
  }

  /** A read sees a latest row; an insert gets a later time than every row of its employee. */
  ghost predicate Enabled(db: Database, step: DbStep) {
    match step
    case Read(call, employee, _, _, latest) =>
      call !in db.calls && IsLatest(TrailOf(db.rows, employee), latest)
    case Insert(call, at) =>
      call in db.calls && forall r :: r in TrailOf(db.rows, db.calls[call].employee) ==> r.at < at
  }

  function RowFor(sha: Digest, c: Call, at: int): Entry {
    Entry(c.employee, c.eventType, c.details, c.prev, ComputeHash(sha, c.eventType, c.details, c.prev), at)
  }

  ghost function Take(sha: Digest, db: Database, step: DbStep): Database {
    if !Enabled(db, step) then db
    else match step
      case Read(call, employee, eventType, details, latest) =>
        var prev := if latest.Some? then latest.value.hash else "";
        db.(calls := db.calls[call := Call(employee, eventType, details, prev, |TrailOf(db.rows, employee)|)])
      case Insert(call, at) =>
        var c := db.calls[call];
        Database(db.rows + [RowFor(sha, c, at)], db.calls - {call},
                 if c.seen == |TrailOf(db.rows, c.employee)| then db.forked else db.forked + {c.employee})
  }

  ghost function Run(sha: Digest, db: Database, steps: seq<DbStep>): Database
    decreases |steps|
  {
    if steps == [] then db else Run(sha, Take(sha, db, steps[0]), steps[1..])
  }

  /** Times strictly increase, and every hash is a digest. */
  ghost predicate Rising(trail: seq<Entry>) {
    forall i, j :: 0 <= i < j < |trail| ==> trail[i].at < trail[j].at
  }

  ghost predicate Hashed(trail: seq<Entry>) {
    forall k :: 0 <= k < |trail| ==> trail[k].hash != "" && '|' !in trail[k].hash
  }

  ghost predicate TrailSound(sha: Digest, trail: seq<Entry>, forked: bool) {
    Rising(trail) && Hashed(trail) && (Verifies(sha, trail) <==> !forked)
  }

  ghost predicate Sound(sha: Digest, db: Database) {
    && (forall e :: TrailSound(sha, TrailOf(db.rows, e), e in db.forked))
    && (forall id :: id in db.calls ==> CallSound(db, db.calls[id]))
  }

  /** What a call carries is the link after the rows it saw. */
  ghost predicate CallSound(db: Database, c: Call) {
    var trail := TrailOf(db.rows, c.employee);
    c.seen <= |trail| && c.prev == LinkOf(trail, c.seen)
  }

  lemma TrailGrows(log: seq<Entry>, r: Entry, employee: string)
    ensures TrailOf(log + [r], employee) == TrailOf(log, employee) + if r.employee == employee then [r] else []
  {
    assert (log + [r])[..|log|] == log;
  }

  /** Along a verified trail no link comes back. */
  lemma {:induction false} LinksDiffer(sha: Digest, trail: seq<Entry>, m: nat, n: nat)
    requires Ideal(sha) && Verifies(sha, trail) && m < n <= |trail|
    ensures LinkOf(trail, m) != LinkOf(trail, n)
  {
    VerifiedPrefix(sha, trail, m);
    VerifiedPrefix(sha, trail, n);
    if m > 0 {
      VerifiedPrefix(sha, trail, m - 1);
      VerifiedPrefix(sha, trail, n - 1);
      assert !Breaks(sha, trail, m - 1) && !Breaks(sha, trail, n - 1);
      LinksDiffer(sha, trail, m - 1, n - 1);
      if LinkOf(trail, m) == LinkOf(trail, n) {
        HashDeterminesLink(sha, trail[m - 1].eventType, trail[m - 1].details, LinkOf(trail, m - 1),
                           trail[n - 1].eventType, trail[n - 1].details, LinkOf(trail, n - 1));
      }
    }
  }

  /** Appending a row keeps a verified trail verified exactly when the row links to the whole trail. */
  lemma AppendVerifies(sha: Digest, trail: seq<Entry>, c: Call, at: int)
    requires Ideal(sha) && Hashed(trail)
    requires c.seen <= |trail| && c.prev == LinkOf(trail, c.seen)
    ensures Verifies(sha, trail + [RowFor(sha, c, at)]) <==> Verifies(sha, trail) && c.seen == |trail|
  {
    var row := RowFor(sha, c, at);
    var after := trail + [row];
    forall k | 0 <= k < |trail| ensures Breaks(sha, after, k) <==> Breaks(sha, trail, k) {
      assert LinkOf(after, k) == LinkOf(trail, k);
    }
    assert LinkOf(after, |trail|) == LinkOf(trail, |trail|);
    if Verifies(sha, trail) && c.seen < |trail| {
      LinksDiffer(sha, trail, c.seen, |trail|);
      if !Breaks(sha, after, |trail|) {
        HashDeterminesLink(sha, c.eventType, c.details, c.prev, c.eventType, c.details, LinkOf(trail, |trail|));
      }
      assert Breaks(sha, after, |trail|);
    }
    if Verifies(sha, after) {
      forall k | 0 <= k < |trail| ensures !Breaks(sha, trail, k) {
        assert !Breaks(sha, after, k);
      }
      assert !Breaks(sha, after, |trail|);
    }
  }

  lemma ReadKeepsSound(sha: Digest, db: Database, step: DbStep)
    requires Ideal(sha) && Sound(sha, db) && step.Read? && Enabled(db, step)
    ensures Sound(sha, Take(sha, db, step))
  {
    var trail := TrailOf(db.rows, step.employee);
    assert TrailSound(sha, trail, step.employee in db.forked);
    if step.latest.Some? {
      var k :| 0 <= k < |trail| && trail[k] == step.latest.value;
      assert trail[|trail| - 1] in trail;
      assert k == |trail| - 1;
    }
    var after := Take(sha, db, step);
    forall id | id in after.calls ensures CallSound(after, after.calls[id]) {
      if id != step.call {
        assert CallSound(db, db.calls[id]);
      }
    }
  }

  lemma AppendKeepsTrailSound(sha: Digest, trail: seq<Entry>, forked: bool, c: Call, at: int)
    requires Ideal(sha) && TrailSound(sha, trail, forked)
    requires c.seen <= |trail| && c.prev == LinkOf(trail, c.seen)
    requires forall r :: r in trail ==> r.at < at
    ensures TrailSound(sha, trail + [RowFor(sha, c, at)], forked || c.seen != |trail|)
  {
    AppendVerifies(sha, trail, c, at);
    assert forall k :: 0 <= k < |trail| ==> trail[k] in trail;
  }

  lemma InsertKeepsSound(sha: Digest, db: Database, step: DbStep)
    requires Ideal(sha) && Sound(sha, db) && step.Insert? && Enabled(db, step)
    ensures Sound(sha, Take(sha, db, step))
  {
    var after := Take(sha, db, step);
    var c := db.calls[step.call];
    var row := RowFor(sha, c, step.at);
    assert CallSound(db, c);
    forall e ensures TrailSound(sha, TrailOf(after.rows, e), e in after.forked) {
      assert TrailSound(sha, TrailOf(db.rows, e), e in db.forked);
      TrailGrows(db.rows, row, e);
      if e == c.employee {
        AppendKeepsTrailSound(sha, TrailOf(db.rows, e), e in db.forked, c, step.at);
        assert e in after.forked <==> e in db.forked || c.seen != |TrailOf(db.rows, e)|;
      } else {
        assert TrailOf(after.rows, e) == TrailOf(db.rows, e);
      }
    }
    forall id | id in after.calls ensures CallSound(after, after.calls[id]) {
      assert CallSound(db, db.calls[id]);
      TrailGrows(db.rows, row, db.calls[id].employee);
    }
  }

  lemma {:induction false} RunKeepsSound(sha: Digest, db: Database, steps: seq<DbStep>)
    requires Ideal(sha) && Sound(sha, db)
    ensures Sound(sha, Run(sha, db, steps))
    decreases |steps|
  {
    if steps != [] {
      if Enabled(db, steps[0]) {
        if steps[0].Read? {
          ReadKeepsSound(sha, db, steps[0]);
        } else {
          InsertKeepsSound(sha, db, steps[0]);
        }
      }
      RunKeepsSound(sha, Take(sha, db, steps[0]), steps[1..]);
    }
  }

  /** `get_trail`: the employee's rows in time order, ties in any order. */
  ghost predicate IsTrail(rows: seq<Entry>, employee: string, result: seq<Entry>) {
    && multiset(result) == multiset(TrailOf(rows, employee))
    && forall i, j :: 0 <= i < j < |result| ==> result[i].at <= result[j].at
  }

  lemma SameLatest(a: seq<Entry>, b: seq<Entry>)
    requires Rising(a) && multiset(a) == multiset(b) && a != [] && b != []
    requires forall i, j :: 0 <= i < j < |b| ==> b[i].at <= b[j].at
    ensures a[|a| - 1] == b[|b| - 1]
  {
    var x, y := a[|a| - 1], b[|b| - 1];
    assert x in multiset(b) && y in multiset(a);
    var i :| 0 <= i < |a| && a[i] == y;
    var j :| 0 <= j < |b| && b[j] == x;
  }

  lemma {:induction false} TimeOrderIsUnique(a: seq<Entry>, b: seq<Entry>)
    requires Rising(a) && multiset(a) == multiset(b)
    requires forall i, j :: 0 <= i < j < |b| ==> b[i].at <= b[j].at
    ensures a == b
    decreases |a|
  {
    assert |multiset(a)| == |multiset(b)|;
    if a != [] {
      SameLatest(a, b);
      DropSameLast(a, b);
      TimeOrderIsUnique(a[..|a| - 1], b[..|b| - 1]);
      AppendFront([], a);
      AppendFront([], b);
    }
  }

  lemma DropSameLast<T>(a: seq<T>, b: seq<T>)
    requires a != [] && b != [] && a[|a| - 1] == b[|b| - 1] && multiset(a) == multiset(b)
    ensures multiset(a[..|a| - 1]) == multiset(b[..|b| - 1])
  {
    DropLast(a);
    DropLast(b);
  }

  lemma DropLast<T>(a: seq<T>)
    requires a != []
    ensures multiset(a[..|a| - 1]) == multiset(a) - multiset{a[|a| - 1]}
  {
    assert a == a[..|a| - 1] + [a[|a| - 1]];
  }

  const EMPTY_DATABASE := Database([], map[], {})

  /**
   Under any interleaving of calls whose rows get increasing times per employee, an employee's
   trail verifies exactly when no other row of that employee was ever inserted between a call's
   read and its insert; calls for other employees never matter.
   */
  lemma DatabaseTrailVerifiesIffUnforked(sha: Digest, steps: seq<DbStep>, employee: string, result: seq<Entry>)
    requires Ideal(sha)
    requires IsTrail(Run(sha, EMPTY_DATABASE, steps).rows, employee, result)
    ensures Verifies(sha, result) <==> employee !in Run(sha, EMPTY_DATABASE, steps).forked
  {
    assert forall e :: TrailOf(EMPTY_DATABASE.rows, e) == [];
    assert Sound(sha, EMPTY_DATABASE);
    RunKeepsSound(sha, EMPTY_DATABASE, steps);
    var db := Run(sha, EMPTY_DATABASE, steps);
    assert TrailSound(sha, TrailOf(db.rows, employee), employee in db.forked);
    TimeOrderIsUnique(TrailOf(db.rows, employee), result);
  }
}
