/**
 The condition language of workflow edges: `condition_to_callable`, `_get_value` and
 `_parse_literal` (employee_runtime/workflows/dynamic_builder.py).  Reading JSON and numbers
 is left to `Readers`.
 */
module WorkflowConditions {
  import opened Common
  import opened Text
  import opened WorkflowGraph
  import opened WorkflowRuntime

  // ----- state values -----

  datatype Value = Null | Bool(b: bool) | Number(r: real) | Str(s: string) | List(items: seq<Value>) | Dict(fields: map<string, Value>)

  /** Python's truth of a value. */
  predicate Truthy(v: Value) {
    match v
    case Null => false
    case Bool(b) => b
    case Number(r) => r != 0.0
    case Str(s) => s != ""
    case List(items) => items != []
    case Dict(fields) => fields != map[]
  }

  /** Python's `path.split(".")`. */
  function Segments(path: string): (parts: seq<string>)
    ensures parts != []
  {
    if path == "" then [""]
    else if path[|path| - 1] == '.' then Segments(path[..|path| - 1]) + [""]
    else Longer(Segments(path[..|path| - 1]), path[|path| - 1])
  }

  /** One more character in the last part. */
  function Longer(parts: seq<string>, c: char): (longer: seq<string>)
    requires parts != []
    ensures longer != []
  {
    parts[..|parts| - 1] + [parts[|parts| - 1] + [c]]
  }

  lemma LongerOfAppend(a: seq<string>, b: seq<string>, c: char)
    requires b != []
    ensures Longer(a + b, c) == a + Longer(b, c)
  {
    assert (a + b)[..|a + b| - 1] == a + b[..|b| - 1];
  }

  lemma SegmentsSnoc(path: string, c: char)
    ensures Segments(path + [c]) == if c == '.' then Segments(path) + [""] else Longer(Segments(path), c)
  {
    assert (path + [c])[..|path|] == path;
  }

  function Field(v: Value, part: string): Value {
    if v.Dict? && part in v.fields then v.fields[part] else Null
  }

  function Walk(v: Value, parts: seq<string>): Value
    decreases |parts|
  {
    if parts == [] then v else Walk(Field(v, parts[0]), parts[1..])
  }

  /** `_get_value`. */
  method GetValue(state: Value, path: string) returns (v: Value)
    ensures v == Walk(state, Segments(path))
  {
    v := state;
    var parts := Segments(path);
    for i := 0 to |parts|
      invariant Walk(state, parts) == Walk(v, parts[i..])
    {
      assert parts[i..][1..] == parts[i + 1..];
      v := Field(v, parts[i]);
      if v.Null? {
        NothingInNull(parts[i + 1..]);
        return;
      }
    }
  }

  lemma {:induction false} NothingInNull(parts: seq<string>)
    ensures Walk(Null, parts) == Null
  {
    if parts != [] {
      NothingInNull(parts[1..]);
    }
  }

  lemma {:induction false} SegmentsOfJoined(p: string, q: string)
    ensures Segments(p + "." + q) == Segments(p) + Segments(q)
  {
    if q == "" {
      assert p + "." + q == p + ['.'];
      SegmentsSnoc(p, '.');
    } else {
      var front, last := q[..|q| - 1], q[|q| - 1];
      AppendFront(p + ".", q);
      SegmentsOfJoined(p, front);
      SegmentsSnoc(p + "." + front, last);
      SegmentsSnoc(front, last);
      if last != '.' {
        LongerOfAppend(Segments(p), Segments(front), last);
      } else {
        assert Segments(p) + Segments(front) + [""] == Segments(p) + (Segments(front) + [""]);
      }
    }
  }

  lemma {:induction false} WalkAppend(v: Value, a: seq<string>, b: seq<string>)
    ensures Walk(v, a + b) == Walk(Walk(v, a), b)
    decreases |a|
  {
    if a == [] {
      assert a + b == b;
    } else {
      assert (a + b)[1..] == a[1..] + b;
      WalkAppend(Field(v, a[0]), a[1..], b);
    }
  }

  /** A dotted path is looked up one part after the other, wherever it is cut. */
  lemma PathsCompose(state: Value, p: string, q: string)
    ensures Walk(state, Segments(p + "." + q)) == Walk(Walk(state, Segments(p)), Segments(q))
  {
    SegmentsOfJoined(p, q);
    WalkAppend(state, Segments(p), Segments(q));
  }

  /** A name without dots is looked up in the dictionary itself; nothing is found in other values. */
  lemma PartIsLookedUp(state: Value, part: string)
    requires '.' !in part
    ensures Walk(state, Segments(part)) == if state.Dict? && part in state.fields then state.fields[part] else Null
  {
    OnePart(part);
    assert Walk(Field(state, part), [part][1..]) == Field(state, part);
  }

  lemma {:induction false} OnePart(part: string)
    requires '.' !in part
    ensures Segments(part) == [part]
  {
    if part != "" {
      OnePart(part[..|part| - 1]);
      assert part == part[..|part| - 1] + [part[|part| - 1]];
    }
  }

  /** The rest of a dotted path is looked up in what stands under its first part. */
  lemma RestIsLookedUp(fields: map<string, Value>, part: string, rest: string)
    requires '.' !in part
    ensures Walk(Dict(fields), Segments(part + "." + rest)) == Walk(if part in fields then fields[part] else Null, Segments(rest))
  {
    PathsCompose(Dict(fields), part, rest);
    PartIsLookedUp(Dict(fields), part);
  }

  /** A value under nested dictionaries. */
  function Nest(parts: seq<string>, v: Value): Value {
    if parts == [] then v else Dict(map[parts[0] := Nest(parts[1..], v)])
  }

  /** The value is found where it was put, whatever the names and the depth. */
  lemma {:induction false} NestedIsFound(parts: seq<string>, v: Value)
    requires parts != [] && forall i :: 0 <= i < |parts| ==> '.' !in parts[i]
    ensures Walk(Nest(parts, v), Segments(Join(parts, "."))) == v
    decreases |parts|
  {
    if |parts| == 1 {
      assert parts == [parts[0]] && parts[1..] == [];
      JoinOne(parts[0], ".");
      PartIsLookedUp(Nest(parts, v), parts[0]);
    } else {
      var rest := parts[1..];
      assert parts == [parts[0]] + rest;
      JoinAppend([parts[0]], rest, ".");
      JoinOne(parts[0], ".");
      RestIsLookedUp(map[parts[0] := Nest(rest, v)], parts[0], Join(rest, "."));
      NestedIsFound(rest, v);
    }
  }

  // ----- the text of a condition -----

  /** Where `part` first occurs. */
  function Find(s: string, part: string): (at: Option<nat>)
    ensures at.Some? ==> at.value + |part| <= |s| && part <= s[at.value..]
    ensures at.Some? ==> forall i :: 0 <= i < at.value ==> !(part <= s[i..])
    ensures at.None? ==> forall i :: 0 <= i <= |s| ==> !(part <= s[i..])
  {
    if part <= s then Some(0)
    else if s == "" then None
    else
      match Find(s[1..], part)
      case None =>
        assert forall i :: 1 <= i <= |s| ==> s[i..] == s[1..][i - 1..];
        None
      case Some(i) =>
        assert forall j :: 1 <= j <= |s| ==> s[j..] == s[1..][j - 1..];
        Some(i + 1)
  }

  datatype Shape =
    | Has(path: string)
    | In(field: string, raw: string)
    | AtLeast(field: string, raw: string)
    | Equals(field: string, raw: string)

  const HAS := "has_"
  const IN := " in "
  const AT_LEAST := ">="
  const EQUALS := "=="

  /** `[part.strip() for part in c.split(operator, 1)]`, if the operator occurs. */
  function Cut(c: string, operator: string): Option<(string, string)> {
    match Find(c, operator)
    case None => None
    case Some(i) => Some((Strip(c[..i]), Strip(c[i + |operator|..])))
  }

  /** How a condition is read: the operators are looked for in this order, anywhere in the text. */
  function ShapeOf(condition: string): Option<Shape> {
    var c := Strip(condition);
    if HAS <= c then Some(Has(c[|HAS|..]))
    else match Find(c, IN)
      case Some(i) => Some(In(Strip(c[..i]), c[i + |IN|..]))
      case None =>
        match Cut(c, AT_LEAST)
        case Some((field, raw)) => Some(AtLeast(field, raw))
        case None =>
          match Cut(c, EQUALS)
          case Some((field, raw)) => Some(Equals(field, raw))
          case None => None
  }

  function Render(shape: Shape): string {
    match shape
    case Has(path) => HAS + path
    case In(field, raw) => field + IN + raw
    case AtLeast(field, raw) => field + AT_LEAST + raw
    case Equals(field, raw) => field + EQUALS + raw
  }

  /** The operator does not already occur in the field, or where the field runs into it. */
  predicate FirstHere(field: string, operator: string) {
    operator != "" && !Contains(field + operator[..|operator| - 1], operator)
  }

  predicate EndsInText(s: string) {
    s != "" && !IsSpace(s[|s| - 1])
  }

  /** What can be written down and read back. */
  predicate Readable(shape: Shape) {
    match shape
    case Has(path) => path == "" || EndsInText(path)
    case In(field, raw) =>
      field != "" && Stripped(field) && EndsInText(raw) && !(HAS <= Render(shape)) && FirstHere(field, IN)
    case AtLeast(field, raw) =>
      && Stripped(field) && Stripped(raw) && !(HAS <= Render(shape))
      && !Contains(Render(shape), IN) && FirstHere(field, AT_LEAST)
    case Equals(field, raw) =>
      && Stripped(field) && Stripped(raw) && !(HAS <= Render(shape))
      && !Contains(Render(shape), IN) && !Contains(Render(shape), AT_LEAST) && FirstHere(field, EQUALS)
  }

  lemma OccursInPrefix(short: string, whole: string, i: nat, part: string)
    requires short <= whole && i + |part| <= |short|
    ensures part <= short[i..] <==> part <= whole[i..]
  {
    assert short[i..][..|part|] == whole[i..][..|part|];
  }

  /** The operator is found where it was written exactly when it does not occur earlier. */
  lemma FoundIff(field: string, operator: string, rest: string)
    requires operator != ""
    ensures var at := Find(field + operator + rest, operator);
            at.Some? && at.value <= |field| && (at.value == |field| <==> FirstHere(field, operator))
  {
    var whole, short := field + operator + rest, field + operator[..|operator| - 1];
    assert whole[|field|..] == operator + rest;
    assert whole[..|short|] == short;
    var i := Find(whole, operator).value;
    if i < |field| {
      OccursInPrefix(short, whole, i, operator);
    }
    if !FirstHere(field, operator) {
      var j :| 0 <= j <= |short| && operator <= short[j..];
      OccursInPrefix(short, whole, j, operator);
    }
  }

  lemma HasRoundTrip(path: string)
    ensures ShapeOf(Render(Has(path))) == Some(Has(path)) <==> Readable(Has(path))
  {
    var whole := HAS + path;
    assert whole[0] == 'h' && whole[3] == '_' && whole[|HAS|..] == path;
    if Readable(Has(path)) {
      assert Stripped(whole);
    } else {
      assert whole[|whole| - 1] == path[|path| - 1];
    }
  }

  lemma WrittenIsStripped(field: string, operator: string, raw: string)
    requires operator != "" && Stripped(operator) && Stripped(field) && Stripped(raw)
    ensures Stripped(field + operator + raw)
  {
    var whole := field + operator + raw;
    assert whole[0] == if field != "" then field[0] else operator[0];
    assert whole[|whole| - 1] == if raw != "" then raw[|raw| - 1] else operator[|operator| - 1];
  }

  /** Cutting at the first operator gives back stripped parts exactly when it is the one written. */
  lemma CutIff(field: string, operator: string, raw: string)
    requires operator != "" && Stripped(field) && Stripped(raw)
    ensures Cut(field + operator + raw, operator) == Some((field, raw)) <==> FirstHere(field, operator)
    ensures Cut(field + operator + raw, operator).Some?
  {
    var whole := field + operator + raw;
    FoundIff(field, operator, raw);
    var i := Find(whole, operator).value;
    if i == |field| {
      assert whole[..|field|] == field && whole[|field| + |operator|..] == raw;
    } else {
      assert |Strip(whole[..i])| < |field|;
    }
  }

  lemma CutIsStripped(c: string, operator: string)
    ensures Cut(c, operator).Some? ==> Stripped(Cut(c, operator).value.0) && Stripped(Cut(c, operator).value.1)
  {
  }

  lemma NotFoundIff(c: string, part: string)
    ensures Find(c, part).None? <==> !Contains(c, part)
  {
  }

  lemma EqualsRoundTrip(field: string, raw: string)
    ensures ShapeOf(Render(Equals(field, raw))) == Some(Equals(field, raw)) <==> Readable(Equals(field, raw))
  {
    var whole := Render(Equals(field, raw));
    CutIsStripped(Strip(whole), EQUALS);
    if Stripped(field) && Stripped(raw) {
      WrittenIsStripped(field, EQUALS, raw);
      NotFoundIff(whole, IN);
      NotFoundIff(whole, AT_LEAST);
      CutIff(field, EQUALS, raw);
    }
  }

  lemma AtLeastRoundTrip(field: string, raw: string)
    ensures ShapeOf(Render(AtLeast(field, raw))) == Some(AtLeast(field, raw)) <==> Readable(AtLeast(field, raw))
  {
    var whole := Render(AtLeast(field, raw));
    CutIsStripped(Strip(whole), AT_LEAST);
    if Stripped(field) && Stripped(raw) {
      WrittenIsStripped(field, AT_LEAST, raw);
      NotFoundIff(whole, IN);
      CutIff(field, AT_LEAST, raw);
    }
  }

  lemma InIsStripped(field: string, raw: string)
    requires ShapeOf(Render(In(field, raw))) == Some(In(field, raw))
    ensures field != "" && Stripped(field) && EndsInText(raw)
  {
    var c := Strip(field + IN + raw);
    var i := Find(c, IN).value;
    assert c[i] == ' ' && c[i + 3] == ' ';
    assert i > 0;
    assert c[..i][0] == c[0];
    assert |c| == i + |IN| + |raw|;
    assert raw != "" ==> raw[|raw| - 1] == c[|c| - 1];
  }

  lemma EndsAreStripped(field: string, operator: string, raw: string)
    requires field != "" && Stripped(field) && EndsInText(raw)
    ensures Stripped(field + operator + raw)
  {
    var whole := field + operator + raw;
    assert whole[0] == field[0] && whole[|whole| - 1] == raw[|raw| - 1];
  }

  lemma AroundOperator(field: string, operator: string, raw: string)
    ensures (field + operator + raw)[..|field|] == field
    ensures (field + operator + raw)[|field| + |operator|..] == raw
  {
  }

  /** A membership test, stripped already, is cut at its first " in ". */
  lemma InIsCut(c: string, i: nat)
    requires Stripped(c) && !(HAS <= c) && Find(c, IN) == Some(i)
    ensures i + |IN| <= |c| && ShapeOf(c) == Some(In(Strip(c[..i]), c[i + |IN|..]))
  {
    assert Strip(c) == c;
  }

  lemma InIsRead(field: string, raw: string)
    requires field != "" && Stripped(field) && EndsInText(raw) && !(HAS <= field + IN + raw)
    ensures ShapeOf(field + IN + raw) == Some(In(field, raw)) <==> FirstHere(field, IN)
  {
    var whole := field + IN + raw;
    EndsAreStripped(field, IN, raw);
    FoundIff(field, IN, raw);
    var i := Find(whole, IN).value;
    InIsCut(whole, i);
    AroundOperator(field, IN, raw);
    if i < |field| {
      ShorterStrip(whole, i, field);
    }
  }

  lemma ShorterStrip(s: string, i: nat, field: string)
    requires i <= |s| && i < |field|
    ensures Strip(s[..i]) != field
  {
    assert |Strip(s[..i])| <= i;
  }

  lemma InRoundTrip(field: string, raw: string)
    ensures ShapeOf(Render(In(field, raw))) == Some(In(field, raw)) <==> Readable(In(field, raw))
  {
    if field != "" && Stripped(field) && EndsInText(raw) {
      if HAS <= field + IN + raw {
        EndsAreStripped(field, IN, raw);
      } else {
        InIsRead(field, raw);
      }
    } else if ShapeOf(Render(In(field, raw))) == Some(In(field, raw)) {
      InIsStripped(field, raw);
    }
  }

  /** A condition reads back as what was written exactly when no part hides an operator that is looked for earlier. */
  lemma ConditionRoundTrip(shape: Shape)
    ensures ShapeOf(Render(shape)) == Some(shape) <==> Readable(shape)
  {
    match shape
    case Has(path) => HasRoundTrip(path);
    case In(field, raw) => InRoundTrip(field, raw);
    case AtLeast(field, raw) => AtLeastRoundTrip(field, raw);
    case Equals(field, raw) => EqualsRoundTrip(field, raw);
  }

  /** A name or value as the shipped workflows write them. */
  predicate PlainName(s: string) {
    s != "" && forall i :: 0 <= i < |s| ==> !IsSpace(s[i]) && s[i] != '=' && s[i] != '>'
  }

  lemma OccursAt(s: string, i: nat, part: string)
    requires i <= |s|
    ensures part <= s[i..] ==> i + |part| <= |s| && forall k :: 0 <= k < |part| ==> s[i + k] == part[k]
  {
    if part <= s[i..] {
      assert forall k :: 0 <= k < |part| ==> s[i..][k] == part[k];
    }
  }

  function Spaced(field: string, operator: string, raw: string): string {
    field + " " + operator + " " + raw
  }

  lemma SpacedAt(field: string, operator: string, raw: string)
    requires PlainName(field) && PlainName(raw) && (operator == EQUALS || operator == AT_LEAST)
    ensures var whole := Spaced(field, operator, raw);
            && |whole| == |field| + 4 + |raw|
            && (forall k :: 0 <= k < |field| ==> whole[k] == field[k])
            && whole[|field| + 1] == operator[0] && whole[|field| + 2] == operator[1]
            && (forall k :: 0 <= k < |whole| ==> (IsSpace(whole[k]) <==> k == |field| || k == |field| + 3))
            && (forall k :: 0 <= k < |whole| && k != |field| + 1 && k != |field| + 2 ==> whole[k] != '=' && whole[k] != '>')
  {
    var whole := Spaced(field, operator, raw);
    assert forall k :: 0 <= k < |raw| ==> whole[|field| + 4 + k] == raw[k];
    assert whole[|field|] == ' ' && whole[|field| + 3] == ' ';
    assert forall k :: |field| + 4 <= k < |whole| ==> whole[k] == raw[k - |field| - 4];
  }

  lemma SpacedIsNoHas(field: string, operator: string, raw: string)
    requires PlainName(field) && PlainName(raw) && !(HAS <= field) && (operator == EQUALS || operator == AT_LEAST)
    ensures !(HAS <= Spaced(field, operator, raw))
  {
    var whole := Spaced(field, operator, raw);
    SpacedAt(field, operator, raw);
    assert HAS <= whole <==> whole[..4] == HAS;
    if |field| >= 4 {
      assert whole[..4] == field[..4];
      assert HAS <= field <==> field[..4] == HAS;
    } else {
      assert whole[..4][|field|] == ' ' && HAS[|field|] != ' ';
    }
  }

  lemma SpacedHidesNothing(field: string, operator: string, raw: string)
    requires PlainName(field) && PlainName(raw) && (operator == EQUALS || operator == AT_LEAST)
    ensures var whole := Spaced(field, operator, raw);
            Stripped(whole) && !Contains(whole, IN)
  {
    var whole := Spaced(field, operator, raw);
    SpacedAt(field, operator, raw);
    assert IN[0] == ' ' && IN[1] == 'i' && IN[3] == ' ';
    forall i | 0 <= i <= |whole| ensures !(IN <= whole[i..]) {
      OccursAt(whole, i, IN);
    }
  }

  lemma SpacedIsFirst(field: string, operator: string)
    requires PlainName(field) && (operator == EQUALS || operator == AT_LEAST)
    ensures FirstHere(field + " ", operator)
  {
    var short := field + " " + operator[..1];
    assert operator[1] == '=' && |short| == |field| + 2;
    assert forall k :: 0 <= k <= |field| ==> short[k] != '=' && short[k] != '>';
    forall i | 0 <= i <= |short| ensures !(operator <= short[i..]) {
      OccursAt(short, i, operator);
    }
  }

  lemma CutWhere(a: string, operator: string, b: string)
    requires operator != "" && FirstHere(a, operator)
    ensures Cut(a + operator + b, operator) == Some((Strip(a), Strip(b)))
  {
    var whole := a + operator + b;
    FoundIff(a, operator, b);
    assert whole[..|a|] == a && whole[|a| + |operator|..] == b;
  }

  lemma SpacedIsCut(field: string, operator: string, raw: string)
    requires PlainName(field) && PlainName(raw) && (operator == EQUALS || operator == AT_LEAST)
    ensures Cut(Spaced(field, operator, raw), operator) == Some((field, raw))
  {
    SpacedIsFirst(field, operator);
    CutWhere(field + " ", operator, " " + raw);
    AppendBoth(field + " " + operator, " ", raw);
    PlainIsStripped(field);
    PlainIsStripped(raw);
    StripSpaces(field, raw);
  }

  lemma AppendBoth(a: string, b: string, c: string)
    ensures a + b + c == a + (b + c)
  {
  }

  lemma PlainIsStripped(s: string)
    requires PlainName(s)
    ensures Stripped(s)
  {
  }

  lemma StripSpaces(a: string, b: string)
    requires Stripped(a) && Stripped(b)
    ensures Strip(a + " ") == a && Strip(" " + b) == b
  {
    assert (" " + b)[1..] == b;
    if a != "" {
      assert (a + " ")[..|a|] == a;
      assert StripLeft(a + " ") == a + " ";
    }
  }

  /** The form the shipped workflows use: a name, an operator and a value, with single spaces between. */
  lemma SpacedThresholdIsRead(field: string, raw: string)
    requires PlainName(field) && PlainName(raw) && !(HAS <= field)
    ensures ShapeOf(Spaced(field, ">=", raw)) == Some(AtLeast(field, raw))
  {
    var whole := Spaced(field, AT_LEAST, raw);
    SpacedIsNoHas(field, AT_LEAST, raw);
    SpacedHidesNothing(field, AT_LEAST, raw);
    NotFoundIff(whole, IN);
    SpacedIsCut(field, AT_LEAST, raw);
  }

  lemma SpacedHidesNoThreshold(field: string, raw: string)
    requires PlainName(field) && PlainName(raw)
    ensures !Contains(Spaced(field, EQUALS, raw), AT_LEAST)
  {
    var whole := Spaced(field, EQUALS, raw);
    SpacedAt(field, EQUALS, raw);
    assert AT_LEAST[0] == '>' && EQUALS[0] == '=' && EQUALS[1] == '=';
    forall i | 0 <= i <= |whole| ensures !(AT_LEAST <= whole[i..]) {
      OccursAt(whole, i, AT_LEAST);
    }
  }

  lemma SpacedEqualityIsRead(field: string, raw: string)
    requires PlainName(field) && PlainName(raw) && !(HAS <= field)
    ensures ShapeOf(Spaced(field, "==", raw)) == Some(Equals(field, raw))
  {
    var whole := Spaced(field, EQUALS, raw);
    SpacedIsNoHas(field, EQUALS, raw);
    SpacedHidesNothing(field, EQUALS, raw);
    SpacedHidesNoThreshold(field, raw);
    SpacedIsCut(field, EQUALS, raw);
    NotFoundIff(whole, IN);
    NotFoundIff(whole, AT_LEAST);
  }

  // ----- what a condition tests -----

  /** Python's `json.loads`, `float` on strings, and `str.lower`; None where they raise. */
  datatype Readers = Readers(json: string -> Option<Value>, number: string -> Option<real>, lower: string -> string)

  /** Python's `raw.replace("'", '"')`. */
  function DoubleQuoted(raw: string): string {
    if raw == "" then "" else (if raw[0] == '\'' then "\"" else [raw[0]]) + DoubleQuoted(raw[1..])
  }

  predicate IsQuote(c: char) {
    c == '\'' || c == '\"'
  }

  /** Python's `raw.strip("\"'")`. */
  function Unquoted(raw: string): string {
    if raw != "" && IsQuote(raw[0]) then Unquoted(raw[1..])
    else if raw != "" && IsQuote(raw[|raw| - 1]) then Unquoted(raw[..|raw| - 1])
    else raw
  }

  /** `_parse_literal`: text that is not JSON stands for itself. */
  function Literal(raw: string, readers: Readers): Value {
    if readers.lower(raw) == "true" then Bool(true)
    else if readers.lower(raw) == "false" then Bool(false)
    else if readers.lower(raw) == "null" then Null
    else match readers.json(DoubleQuoted(raw))
      case Some(v) => v
      case None => Str(Unquoted(raw))
  }

  /** A boolean counts as the number 0 or 1. */
  function Numeric(v: Value): Option<real> {
    match v
    case Bool(b) => Some(if b then 1.0 else 0.0)
    case Number(r) => Some(r)
    case _ => None
  }

  /** Python's `==`. */
  predicate Same(a: Value, b: Value)
    decreases a
  {
    if Numeric(a).Some? || Numeric(b).Some? then Numeric(a) == Numeric(b)
    else match (a, b)
      case (List(xs), List(ys)) => |xs| == |ys| && forall i :: 0 <= i < |xs| ==> Same(xs[i], ys[i])
      case (Dict(xs), Dict(ys)) => xs.Keys == ys.Keys && forall k :: k in xs ==> Same(xs[k], ys[k])
      case _ => a == b
  }

  /** Python's `v in container`. */
  function Within(v: Value, container: Value): Truth {
    match container
    case List(items) => if exists i :: 0 <= i < |items| && Same(v, items[i]) then Holds else Fails
    case Dict(fields) => if v.List? || v.Dict? then Raises else if v.Str? && v.s in fields then Holds else Fails
    case Str(text) => if !v.Str? then Raises else if Contains(text, v.s) then Holds else Fails
    case _ => Raises
  }

  /** `float(v or 0.0)`. */
  function AsNumber(v: Value, readers: Readers): Option<real> {
    if !Truthy(v) then Some(0.0)
    else match v
      case Str(text) => readers.number(text)
      case _ => Numeric(v)
  }

  function Holding(b: bool): Truth {
    if b then Holds else Fails
  }

  /** The right-hand side can be read; `has_` has none, and any literal can. */
  predicate Reads(shape: Shape, readers: Readers) {
    match shape
    case In(_, raw) => readers.json(DoubleQuoted(raw)).Some?
    case AtLeast(_, raw) => readers.number(raw).Some?
    case _ => true
  }

  function Evaluate(shape: Shape, readers: Readers, state: Value): Truth {
    match shape
    case Has(path) => Holding(Truthy(Walk(state, Segments(path))))
    case In(field, raw) =>
      (match readers.json(DoubleQuoted(raw))
       case None => Raises
       case Some(values) => Within(Walk(state, Segments(field)), values))
    case AtLeast(field, raw) =>
      (match (AsNumber(Walk(state, Segments(field)), readers), readers.number(raw))
       case (Some(x), Some(least)) => Holding(x >= least)
       case _ => Raises)
    case Equals(field, raw) => Holding(Same(Walk(state, Segments(field)), Literal(raw, readers)))
  }

  /** The test a condition stands for; None where reading its right-hand side raises. */
  function TestOf(shape: Option<Shape>, readers: Readers): Option<Value -> Truth> {
    match shape
    case None => None
    case Some(known) => if Reads(known, readers) then Some(state => Evaluate(known, readers, state)) else None
  }

  /** `condition_to_callable`. */
  function Parsed(condition: string, readers: Readers): Option<Value -> Truth> {
    TestOf(ShapeOf(condition), readers)
  }

  function EnvOf(readers: Readers, run: (nat, NodeId, Value) -> Option<Value>): Env<Value> {
    Env(c => Parsed(c, readers), run)
  }

  // ----- when a test holds -----

  lemma {:induction false} DoubleQuotedAt(raw: string)
    ensures |DoubleQuoted(raw)| == |raw|
    ensures forall i :: 0 <= i < |raw| ==> DoubleQuoted(raw)[i] == if raw[i] == '\'' then '\"' else raw[i]
  {
    if raw != "" {
      DoubleQuotedAt(raw[1..]);
    }
  }

  /** The text between quotes at both ends, any number of them. */
  ghost predicate Quoted(raw: string, a: string, inner: string, b: string) {
    && raw == a + inner + b
    && (forall i :: 0 <= i < |a| ==> a[i] == '\'' || a[i] == '\"')
    && (forall i :: 0 <= i < |b| ==> b[i] == '\'' || b[i] == '\"')
  }

  lemma QuotedMore(raw: string, a: string, inner: string, b: string, c: char)
    requires Quoted(raw, a, inner, b) && IsQuote(c)
    ensures Quoted([c] + raw, [c] + a, inner, b) && Quoted(raw + [c], a, inner, b + [c])
  {
    assert [c] + (a + inner + b) == [c] + a + inner + b;
    assert a + inner + b + [c] == a + inner + (b + [c]);
  }

  /** Only quotes at the ends are taken away, and all of them. */
  lemma {:induction false} UnquotedBetween(raw: string) returns (a: string, b: string)
    ensures Quoted(raw, a, Unquoted(raw), b)
    ensures Unquoted(raw) != "" ==> !IsQuote(Unquoted(raw)[0]) && !IsQuote(Unquoted(raw)[|Unquoted(raw)| - 1])
    decreases |raw|
  {
    if raw != "" && IsQuote(raw[0]) {
      a, b := UnquotedBetween(raw[1..]);
      QuotedMore(raw[1..], a, Unquoted(raw), b, raw[0]);
      assert [raw[0]] + raw[1..] == raw;
      a := [raw[0]] + a;
    } else if raw != "" && IsQuote(raw[|raw| - 1]) {
      var front := raw[..|raw| - 1];
      a, b := UnquotedBetween(front);
      QuotedMore(front, a, Unquoted(raw), b, raw[|raw| - 1]);
      assert front + [raw[|raw| - 1]] == raw;
      b := b + [raw[|raw| - 1]];
    } else {
      a, b := "", "";
      assert "" + raw + "" == raw;
    }
  }

  /** The values Python counts as false. */
  predicate Empty(v: Value) {
    v in {Null, Bool(false), Number(0.0), Str(""), List([]), Dict(map[])}
  }

  /** `has_p` fails exactly where the path is missing or leads to None, false, zero or something empty. */
  lemma HasFailsIff(path: string, readers: Readers, state: Value)
    ensures Evaluate(Has(path), readers, state) == if Empty(Walk(state, Segments(path))) then Fails else Holds
  {
  }

  /** `field == true`: the value is true or the number 1, and a missing one is not. */
  lemma IsTrueIff(field: string, raw: string, readers: Readers, state: Value)
    requires readers.lower(raw) == "true"
    ensures Evaluate(Equals(field, raw), readers, state)
            == if Walk(state, Segments(field)) in {Bool(true), Number(1.0)} then Holds else Fails
  {
  }

  lemma IsFalseIff(field: string, raw: string, readers: Readers, state: Value)
    requires readers.lower(raw) == "false"
    ensures Evaluate(Equals(field, raw), readers, state)
            == if Walk(state, Segments(field)) in {Bool(false), Number(0.0)} then Holds else Fails
  {
  }

  lemma IsNullIff(field: string, raw: string, readers: Readers, state: Value)
    requires readers.lower(raw) == "null"
    ensures Evaluate(Equals(field, raw), readers, state) == if Walk(state, Segments(field)) == Null then Holds else Fails
  {
  }

  /** The text is not one of the three words that stand for themselves. */
  predicate NoWord(raw: string, readers: Readers) {
    readers.lower(raw) != "true" && readers.lower(raw) != "false" && readers.lower(raw) != "null"
  }

  lemma IsNumberIff(field: string, raw: string, readers: Readers, state: Value, r: real)
    requires NoWord(raw, readers) && readers.json(DoubleQuoted(raw)) == Some(Number(r))
    ensures var v := Walk(state, Segments(field));
            Evaluate(Equals(field, raw), readers, state)
            == if v == Number(r) || (v == Bool(true) && r == 1.0) || (v == Bool(false) && r == 0.0) then Holds else Fails
  {
  }

  /** The same with any JSON on the right: truth values count as 0 and 1 at every depth. */
  lemma IsJsonIff(field: string, raw: string, readers: Readers, state: Value, w: Value)
    requires NoWord(raw, readers) && readers.json(DoubleQuoted(raw)) == Some(w)
    ensures Evaluate(Equals(field, raw), readers, state)
            == if Counted(Walk(state, Segments(field))) == Counted(w) then Holds else Fails
  {
    SameIff(Walk(state, Segments(field)), w);
  }

  /** A quoted text, in either kind of quotes, holds of exactly that string. */
  lemma IsQuotedTextIff(field: string, raw: string, readers: Readers, state: Value, text: string)
    requires forall c :: c in text ==> c != '\'' && c != '\"'
    requires raw == "\"" + text + "\"" || raw == "'" + text + "'"
    requires NoWord(raw, readers) && readers.json("\"" + text + "\"") == Some(Str(text))
    ensures Evaluate(Equals(field, raw), readers, state) == if Walk(state, Segments(field)) == Str(text) then Holds else Fails
  {
    DoubleQuotedAt(raw);
    var quoted := "\"" + text + "\"";
    forall i | 0 <= i < |raw| ensures DoubleQuoted(raw)[i] == quoted[i] {
      if 0 < i < |raw| - 1 {
        assert raw[i] == text[i - 1] && text[i - 1] in text;
      }
    }
    assert DoubleQuoted(raw) == quoted;
  }

  /** Text that is no JSON stands for itself. */
  lemma IsBareTextIff(field: string, raw: string, readers: Readers, state: Value)
    requires NoWord(raw, readers) && readers.json(DoubleQuoted(raw)).None?
    requires raw != "" && !IsQuote(raw[0]) && !IsQuote(raw[|raw| - 1])
    ensures Evaluate(Equals(field, raw), readers, state) == if Walk(state, Segments(field)) == Str(raw) then Holds else Fails
  {
    assert Unquoted(raw) == raw;
  }

  /** The value with its truth values as numbers. */
  function Counted(v: Value): Value
    decreases v
  {
    match v
    case Bool(b) => Number(if b then 1.0 else 0.0)
    case List(items) => List(seq(|items|, i requires 0 <= i < |items| => Counted(items[i])))
    case Dict(fields) => Dict(map k | k in fields :: Counted(fields[k]))
    case _ => v
  }

  /** Two values are equal in Python's sense exactly when they are the same with truth values as numbers. */
  lemma {:induction false} SameIff(a: Value, b: Value)
    ensures Same(a, b) <==> Counted(a) == Counted(b)
    decreases a
  {
    match (a, b)
    case (List(xs), List(ys)) =>
      if |xs| == |ys| {
        forall i | 0 <= i < |xs| ensures Same(xs[i], ys[i]) <==> Counted(a).items[i] == Counted(b).items[i] {
          SameIff(xs[i], ys[i]);
        }
      } else {
        assert |Counted(a).items| != |Counted(b).items|;
      }
    case (Dict(xs), Dict(ys)) =>
      assert Counted(a).fields.Keys == xs.Keys && Counted(b).fields.Keys == ys.Keys;
      if xs.Keys == ys.Keys {
        forall k | k in xs ensures Same(xs[k], ys[k]) <==> Counted(a).fields[k] == Counted(b).fields[k] {
          SameIff(xs[k], ys[k]);
        }
      }
    case _ =>
  }

  /** `field >= least` on a number, a truth value, a readable text, or nothing, which counts as zero. */
  lemma IsAtLeastIff(field: string, raw: string, readers: Readers, state: Value, least: real)
    requires readers.number(raw) == Some(least)
    ensures var v, answer := Walk(state, Segments(field)), Evaluate(AtLeast(field, raw), readers, state);
            && (v.Number? ==> answer == if v.r >= least then Holds else Fails)
            && (v.Bool? ==> answer == if (if v.b then 1.0 else 0.0) >= least then Holds else Fails)
            && (v in {Null, Str(""), List([]), Dict(map[])} ==> answer == if 0.0 >= least then Holds else Fails)
            && (v.Str? && v.s != "" && readers.number(v.s).Some? ==>
                  answer == if readers.number(v.s).value >= least then Holds else Fails)
  {
  }

  /** `field in [...]` on a list of strings: the value is one of them. */
  lemma IsInListIff(field: string, raw: string, readers: Readers, state: Value, items: seq<Value>)
    requires readers.json(DoubleQuoted(raw)) == Some(List(items)) && forall i :: 0 <= i < |items| ==> items[i].Str?
    ensures Evaluate(In(field, raw), readers, state) == if Walk(state, Segments(field)) in items then Holds else Fails
  {
    var v := Walk(state, Segments(field));
    forall i | 0 <= i < |items| ensures Same(v, items[i]) <==> v == items[i] {
    }
  }

  /** `field in [...]` on any list: the value equals one of them, once truth values are counted as 0 and 1. */
  lemma IsInAnyListIff(field: string, raw: string, readers: Readers, state: Value, items: seq<Value>)
    requires readers.json(DoubleQuoted(raw)) == Some(List(items))
    ensures var v := Walk(state, Segments(field));
            Evaluate(In(field, raw), readers, state)
            == if exists i :: 0 <= i < |items| && Counted(v) == Counted(items[i]) then Holds else Fails
  {
    var v := Walk(state, Segments(field));
    forall i | 0 <= i < |items| ensures Same(v, items[i]) <==> Counted(v) == Counted(items[i]) {
      SameIff(v, items[i]);
    }
  }

  /** `field in {...}`: the value is one of its keys; lists and dictionaries cannot be, and raise. */
  lemma IsKeyIff(field: string, raw: string, readers: Readers, state: Value, fields: map<string, Value>)
    requires readers.json(DoubleQuoted(raw)) == Some(Dict(fields))
    ensures var v := Walk(state, Segments(field));
            Evaluate(In(field, raw), readers, state)
            == match v
               case List(_) => Raises
               case Dict(_) => Raises
               case _ => if exists key :: key in fields && v == Str(key) then Holds else Fails
  {
  }

  /** Nothing is in a number, a truth value or null. */
  lemma IsInNothing(field: string, raw: string, readers: Readers, state: Value, plain: Value)
    requires readers.json(DoubleQuoted(raw)) == Some(plain) && !plain.Str? && !plain.List? && !plain.Dict?
    ensures Evaluate(In(field, raw), readers, state) == Raises
  {
  }

  /** `field in "..."` is a test for a part of the text, and raises on anything but a string. */
  lemma IsInTextIff(field: string, raw: string, readers: Readers, state: Value, text: string)
    requires readers.json(DoubleQuoted(raw)) == Some(Str(text))
    ensures var v := Walk(state, Segments(field));
            Evaluate(In(field, raw), readers, state)
            == if !v.Str? then Raises else if exists a, b :: Surrounds(text, a, v.s, b) then Holds else Fails
  {
    InTextIff(Walk(state, Segments(field)), text);
  }

  lemma InTextIff(v: Value, text: string)
    ensures Within(v, Str(text))
            == if !v.Str? then Raises else if exists a, b :: Surrounds(text, a, v.s, b) then Holds else Fails
  {
    if v.Str? {
      ContainsMeans(text, v.s);
    }
  }

  /** The approval edge of the shipped workflows: taken exactly on a value that is true or 1. */
  lemma TrueConditionIff(field: string, readers: Readers, state: Value)
    requires PlainName(field) && !(HAS <= field) && readers.lower("true") == "true"
    ensures var test := Parsed(field + " " + "==" + " " + "true", readers);
            test.Some? && test.value(state) == if Walk(state, Segments(field)) in {Bool(true), Number(1.0)} then Holds else Fails
  {
    TrueIsPlain();
    SpacedEqualityIsRead(field, "true");
    IsTrueIff(field, "true", readers, state);
  }

  lemma TrueIsPlain()
    ensures PlainName("true")
  {
  }

  /** And their thresholds on a number. */
  lemma ThresholdConditionIff(field: string, raw: string, readers: Readers, state: Value, least: real, r: real)
    requires PlainName(field) && PlainName(raw) && !(HAS <= field) && readers.number(raw) == Some(least)
    requires Walk(state, Segments(field)) == Number(r)
    ensures var test := Parsed(field + " " + ">=" + " " + raw, readers);
            test.Some? && test.value(state) == if r >= least then Holds else Fails
  {
    SpacedThresholdIsRead(field, raw);
    IsAtLeastIff(field, raw, readers, state, least);
  }

  /** A condition that reads back is tested as what was written. */
  lemma WrittenIsTested(shape: Shape, readers: Readers, state: Value)
    requires Readable(shape) && Reads(shape, readers)
    ensures Parsed(Render(shape), readers).Some?
    ensures Parsed(Render(shape), readers).value(state) == Evaluate(shape, readers, state)
  {
    ConditionRoundTrip(shape);
  }

  /** A numeric comparison raises exactly on values that are no number: filled lists and dictionaries, and unreadable text. */
  lemma ComparisonRaisesIff(field: string, raw: string, readers: Readers, state: Value)
    requires Reads(AtLeast(field, raw), readers)
    ensures var v := Walk(state, Segments(field));
            Evaluate(AtLeast(field, raw), readers, state) == Raises
            <==> (v.List? && v.items != []) || (v.Dict? && v.fields != map[])
                 || (v.Str? && v.s != "" && readers.number(v.s).None?)
  {
    var v := Walk(state, Segments(field));
    assert AsNumber(v, readers).None? <==>
      (v.List? && v.items != []) || (v.Dict? && v.fields != map[]) || (v.Str? && v.s != "" && readers.number(v.s).None?);
  }

  /** Only a comparison with a number, or a membership test, can raise on some state. */
  predicate IsTotal(shape: Option<Shape>) {
    shape.Some? && (shape.value.Has? || shape.value.Equals?)
  }

  lemma TotalTestsNeverRaise(shape: Option<Shape>, readers: Readers, state: Value)
    requires IsTotal(shape)
    ensures TestOf(shape, readers).Some? && TestOf(shape, readers).value(state) != Raises
  {
    assert Evaluate(shape.value, readers, state) != Raises;
  }

  lemma TotalEdgesNeverRaise(env: Env<Value>, readers: Readers, edges: seq<WorkflowEdge>)
    requires forall c :: env.parse(c) == Parsed(c, readers)
    requires forall e :: e in edges && IsConditional(e) ==> IsTotal(ShapeOf(e.condition.value))
    requires forall i, n, s :: env.run(i, n, s).Some?
    ensures Parses(env, edges) && NeverRaises(env, edges)
  {
    forall e, s | e in edges && IsConditional(e)
      ensures env.parse(e.condition.value).Some? && env.parse(e.condition.value).value(s) != Raises
    {
      TotalTestsNeverRaise(ShapeOf(e.condition.value), readers, s);
    }
  }

  /**
   An acyclic workflow of at most 50 nodes whose conditions are all `has_` or `==` tests streams
   to its complete event on every state, if its handlers do not raise.
   */
  lemma AcyclicTotalRunsFinish(readers: Readers, run: (nat, NodeId, Value) -> Option<Value>, spec: GraphSpec, state: Value)
    requires WellFormed(spec)
    requires Acyclic(SpecAdjacency(spec)) && |spec.nodes| <= STEP_BUDGET
    requires forall e :: e in spec.edges && IsConditional(e) ==> IsTotal(ShapeOf(e.condition.value))
    requires forall i, n, s :: run(i, n, s).Some?
    ensures EndsComplete(StreamFrom(EnvOf(readers, run), spec, spec.entry, 0, state).events)
  {
    TotalEdgesNeverRaise(EnvOf(readers, run), readers, spec.edges);
    AcyclicRunsFinish(EnvOf(readers, run), spec, state);
  }
}
