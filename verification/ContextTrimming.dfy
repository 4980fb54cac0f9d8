/**
 Prompt assembly under a token budget: `ContextAssembler.assemble`
 (component_library/data/context_assembler.py).  While the prompt is too long, the oldest line of
 the conversation is dropped.
 */
module ContextTrimming {
  import opened Common
  import opened Text

  const MARKER := "RECENT CONVERSATION\n"

  const TITLES := [
    "LAYER 1 CORE IDENTITY", "LAYER 2 ROLE DEFINITION", "LAYER 3 ORGANIZATIONAL MAP",
    "LAYER 4 BEHAVIORAL RULES", "LAYER 6 SELF AWARENESS"
  ]

  // ----- splitting into lines -----

  /** The characters at which `splitlines` ends a line. */
  predicate IsBreak(c: char) {
    || c == '\n' || c == '\r' || c == '\U{000B}' || c == '\U{000C}'
    || '\U{001C}' <= c <= '\U{001E}' || c == '\U{0085}' || c == '\U{2028}' || c == '\U{2029}'
  }

  lemma BreaksAre(c: char)
    ensures IsBreak(c) <==> c in "\n\r\U{0B}\U{0C}\U{1C}\U{1D}\U{1E}\U{85}\U{2028}\U{2029}"
  {
  }

  predicate OneLine(s: string) {
    forall i :: 0 <= i < |s| ==> !IsBreak(s[i])
  }

  function LineLength(s: string): (n: nat)
    ensures n <= |s|
    ensures n < |s| ==> IsBreak(s[n])
  {
    if s == "" || IsBreak(s[0]) then 0 else 1 + LineLength(s[1..])
  }

  lemma {:induction false} LineHasNoBreak(s: string)
    ensures OneLine(s[..LineLength(s)])
  {
    if s != "" && !IsBreak(s[0]) {
      LineHasNoBreak(s[1..]);
      var n := LineLength(s[1..]);
      assert s[..n + 1] == [s[0]] + s[1..][..n];
    }
  }

  /** How many characters end the line that stops at `n`: two for a carriage return and line feed. */
  function BreakLength(s: string, n: nat): (k: nat)
    requires n <= |s|
    ensures n + k <= |s| && (n < |s| ==> k > 0)
  {
    if n == |s| then 0 else if s[n] == '\r' && n + 1 < |s| && s[n + 1] == '\n' then 2 else 1
  }

  /** Python's `s.splitlines()`. */
  function SplitLines(s: string): seq<string>
    decreases |s|
  {
    if s == "" then [] else
      var n := LineLength(s);
      [s[..n]] + SplitLines(s[n + BreakLength(s, n)..])
  }

  ghost predicate AreLines(lines: seq<string>) {
    forall i :: 0 <= i < |lines| ==> OneLine(lines[i])
  }

  lemma {:induction false} SplitGivesLines(s: string)
    ensures AreLines(SplitLines(s))
    decreases |s|
  {
    if s != "" {
      LineHasNoBreak(s);
      var n := LineLength(s);
      SplitGivesLines(s[n + BreakLength(s, n)..]);
    }
  }

  function JoinLines(lines: seq<string>): string {
    Join(lines, "\n")
  }

  /** All lines but a blank last one, which `splitlines` does not see again after a join. */
  function DropBlank(lines: seq<string>): seq<string> {
    if lines != [] && lines[|lines| - 1] == "" then lines[..|lines| - 1] else lines
  }

  lemma {:induction false} LineLengthStops(line: string, rest: string)
    requires OneLine(line) && (rest == "" || IsBreak(rest[0]))
    ensures LineLength(line + rest) == |line|
  {
    if line == "" {
      assert line + rest == rest;
    } else {
      assert (line + rest)[1..] == line[1..] + rest;
      LineLengthStops(line[1..], rest);
    }
  }

  lemma SplitFirst(first: string, rest: string)
    requires OneLine(first)
    ensures SplitLines(first + ("\n" + rest)) == [first] + SplitLines(rest)
  {
    var s := first + ("\n" + rest);
    LineLengthStops(first, "\n" + rest);
    assert s[|first|] == '\n';
    assert s[|first| + 1..] == rest;
    assert s[..|first|] == first;
  }

  /** The same with any other line ending: a carriage return and line feed together are one. */
  lemma SplitAtBreak(first: string, ending: string, rest: string)
    requires OneLine(first)
    requires ending == "\r\n" || (|ending| == 1 && IsBreak(ending[0]) && !(ending == "\r" && rest != "" && rest[0] == '\n'))
    ensures SplitLines(first + (ending + rest)) == [first] + SplitLines(rest)
  {
    LineLengthStops(first, ending + rest);
    EndingLength(first, ending, rest);
    Pieces(first, ending, rest);
  }

  lemma EndingLength(first: string, ending: string, rest: string)
    requires ending == "\r\n" || (|ending| == 1 && !(ending == "\r" && rest != "" && rest[0] == '\n'))
    ensures BreakLength(first + (ending + rest), |first|) == |ending|
  {
    var s := first + (ending + rest);
    assert s[|first|] == ending[0];
    assert |first| + 1 < |s| ==> s[|first| + 1] == if |ending| == 2 then '\n' else rest[0];
  }

  lemma Pieces(first: string, ending: string, rest: string)
    ensures (first + (ending + rest))[..|first|] == first
    ensures (first + (ending + rest))[|first| + |ending|..] == rest
  {
  }

  lemma SplitOne(line: string)
    requires OneLine(line)
    ensures SplitLines(line) == DropBlank([line])
  {
    if line != "" {
      LineLengthStops(line, "");
      assert line + "" == line;
      assert line[..|line|] == line && line[|line|..] == "";
    }
  }

  lemma JoinFirst(lines: seq<string>)
    requires |lines| > 1
    ensures JoinLines(lines) == lines[0] + ("\n" + JoinLines(lines[1..]))
  {
    assert lines == [lines[0]] + lines[1..];
    JoinAppend([lines[0]], lines[1..], "\n");
  }

  lemma DropBlankFirst(lines: seq<string>)
    requires |lines| > 1
    ensures DropBlank(lines) == [lines[0]] + DropBlank(lines[1..])
  {
  }

  /** Joining lines and splitting again gives the same lines, except a blank last one. */
  lemma {:induction false} SplitOfJoin(lines: seq<string>)
    requires AreLines(lines)
    ensures SplitLines(JoinLines(lines)) == DropBlank(lines)
  {
    if lines == [] {
    } else if |lines| == 1 {
      SplitOne(lines[0]);
      assert lines == [lines[0]];
    } else {
      JoinFirst(lines);
      SplitOfJoin(lines[1..]);
      SplitFirst(lines[0], JoinLines(lines[1..]));
      DropBlankFirst(lines);
    }
  }

  // ----- the conversation after some passes -----

  /** `"\n".join(history_text.splitlines()[1:])`. */
  function DropOldest(history: string): string {
    var lines := SplitLines(history);
    if lines == [] then "" else JoinLines(lines[1..])
  }

  function HistoryAfter(history: string, passes: nat): string {
    if passes == 0 then history else DropOldest(HistoryAfter(history, passes - 1))
  }

  /** There is still an older line to drop. */
  predicate CanDrop(history: string) {
    |SplitLines(history)| > 1
  }

  /** Each of the first `passes` passes found an older line to drop. */
  ghost predicate AllCouldDrop(history: string, passes: nat) {
    forall j: nat :: j < passes ==> CanDrop(HistoryAfter(history, j))
  }

  ghost predicate Blank(lines: seq<string>) {
    forall line :: line in lines ==> line == ""
  }

  lemma FrontOfStretch(lines: seq<string>, from: nat, end: nat)
    requires from < end <= |lines|
    ensures lines[from..end][..end - from - 1] == lines[from..end - 1]
  {
  }

  lemma DropOldestOfJoined(lines: seq<string>, from: nat, end: nat) returns (end': nat)
    requires from < end <= |lines| && CanDrop(JoinLines(lines[from..end]))
    requires AreLines(lines)
    ensures from + 1 < end' <= end && end <= end' + 1
    ensures DropOldest(JoinLines(lines[from..end])) == JoinLines(lines[from + 1..end'])
    ensures end' < end <==> lines[end - 1] == ""
  {
    var kept := lines[from..end];
    SplitOfJoin(kept);
    assert kept[|kept| - 1] == lines[end - 1];
    if lines[end - 1] == "" {
      end' := end - 1;
      FrontOfStretch(lines, from, end);
    } else {
      end' := end;
    }
    assert DropBlank(kept) == lines[from..end'];
    assert lines[from..end'][1..] == lines[from + 1..end'];
  }

  lemma BlankGrows(lines: seq<string>, end: nat)
    requires end < |lines| && lines[end] == "" && Blank(lines[end + 1..])
    ensures Blank(lines[end..])
  {
    assert lines[end..] == [lines[end]] + lines[end + 1..];
  }

  /** After `passes` passes the conversation is lines `passes` to `end`, and only blank ones are missing behind. */
  ghost predicate IsStretch(lines: seq<string>, text: string, passes: nat, end: nat) {
    && passes < end <= |lines|
    && text == JoinLines(lines[passes..end])
    && Blank(lines[end..])
    && (lines[|lines| - 1] != "" ==> end == |lines|)
    && (lines[|lines| - 1] == "" && passes > 1 ==> end < |lines|)
  }

  lemma NextStretch(lines: seq<string>, text: string, passes: nat, end: nat) returns (end': nat)
    requires passes > 0 && IsStretch(lines, text, passes, end) && AreLines(lines) && CanDrop(text)
    ensures IsStretch(lines, DropOldest(text), passes + 1, end')
  {
    end' := DropOldestOfJoined(lines, passes, end);
    if end' < end {
      BlankGrows(lines, end');
    } else if end < |lines| {
      assert lines[|lines| - 1] in lines[end..];
    }
  }

  /**
   After any number of passes the conversation is made of consecutive original lines; each pass
   drops the oldest, and whatever is missing at the end is blank.
   */
  lemma {:induction false} KeptIsStretchOfLines(history: string, passes: nat) returns (end: nat)
    requires passes > 0 && AllCouldDrop(history, passes)
    ensures IsStretch(SplitLines(history), HistoryAfter(history, passes), passes, end)
  {
    var lines := SplitLines(history);
    SplitGivesLines(history);
    assert CanDrop(HistoryAfter(history, passes - 1));
    if passes == 1 {
      end := |lines|;
      assert lines[1..end] == lines[1..];
    } else {
      var before := KeptIsStretchOfLines(history, passes - 1);
      end := NextStretch(lines, HistoryAfter(history, passes - 1), passes - 1, before);
    }
  }

  lemma JoinedLengths(lines: seq<string>, end: nat)
    requires 0 < end < |lines|
    ensures |JoinLines(lines[..end])| < |JoinLines(lines)|
  {
    assert lines == lines[..end] + lines[end..];
    JoinAppend(lines[..end], lines[end..], "\n");
  }

  /**
   From the second pass on, the conversation is exactly the original lines without the dropped
   ones if and only if the last original line is not blank.
   */
  lemma KeptIsSuffixIffLastLineNotBlank(history: string, passes: nat)
    requires passes > 1 && AllCouldDrop(history, passes)
    ensures |SplitLines(history)| > passes
    ensures var lines := SplitLines(history);
            HistoryAfter(history, passes) == JoinLines(lines[passes..]) <==> lines[|lines| - 1] != ""
  {
    var lines := SplitLines(history);
    var end := KeptIsStretchOfLines(history, passes);
    if end == |lines| {
      WholeStretch(lines, passes);
    } else {
      ShorterStretch(lines, passes, end);
    }
  }

  lemma WholeStretch(lines: seq<string>, passes: nat)
    requires passes <= |lines|
    ensures JoinLines(lines[passes..|lines|]) == JoinLines(lines[passes..])
  {
    assert lines[passes..|lines|] == lines[passes..];
  }

  lemma ShorterStretch(lines: seq<string>, passes: nat, end: nat)
    requires passes < end < |lines|
    ensures JoinLines(lines[passes..end]) != JoinLines(lines[passes..])
  {
    var kept := lines[passes..];
    JoinedLengths(kept, end - passes);
    assert kept[..end - passes] == lines[passes..end];
  }

  // ----- the prompt -----

  /** The section of a layer that has a body. */
  function Layer(title: string, body: string): seq<string> {
    if body == "" then [] else [title + "\n" + body]
  }

  /** The identity layers that have a body, in order. */
  function FixedLayers(bodies: seq<string>): seq<string>
    requires |bodies| <= |TITLES|
  {
    if bodies == [] then [] else
      var last := |bodies| - 1;
      FixedLayers(bodies[..last]) + Layer(TITLES[last], bodies[last])
  }

  function MemoryLayer(memories: seq<string>): seq<string> {
    if memories == [] then [] else ["LAYER 5 RETRIEVED CONTEXT\n" + JoinLines(memories)]
  }

  /** Everything that is placed before the conversation. */
  function Before(bodies: seq<string>, memories: seq<string>): seq<string>
    requires |bodies| <= |TITLES|
  {
    FixedLayers(bodies) + MemoryLayer(memories)
  }

  function TaskSection(task: string): string {
    "TASK INPUT\n" + task
  }

  function HistorySection(history: string): string {
    MARKER + history
  }

  function Min(a: int, b: int): int {
    if a < b then a else b
  }

  /**
   The sections after some passes.  Untouched, the conversation stands just before the task; the
   first pass moves it behind the second section, where it stays.
   */
  function SectionsAfter(before: seq<string>, task: string, history: string, passes: nat): seq<string> {
    var others := before + [TaskSection(task)];
    if history == "" then others
    else if passes == 0 then before + [HistorySection(history), TaskSection(task)]
    else others[..Min(2, |others|)] + [HistorySection(HistoryAfter(history, passes))] + others[Min(2, |others|)..]
  }

  function ContextAfter(before: seq<string>, task: string, history: string, passes: nat): string {
    Join(SectionsAfter(before, task, history, passes), "\n\n")
  }

  predicate IsHistory(section: string) {
    MARKER <= section
  }

  /** `[x for x in s if not drop(x)]`. */
  function Without<T>(s: seq<T>, drop: T -> bool): seq<T> {
    if s == [] then []
    else Without(s[..|s| - 1], drop) + if drop(s[|s| - 1]) then [] else [s[|s| - 1]]
  }

  lemma {:induction false} WithoutKeepsAll<T>(s: seq<T>, drop: T -> bool)
    requires forall i :: 0 <= i < |s| ==> !drop(s[i])
    ensures Without(s, drop) == s
  {
    if s != [] {
      var front := s[..|s| - 1];
      WithoutKeepsAll(front, drop);
      assert s == front + [s[|s| - 1]];
    }
  }

  lemma {:induction false} WithoutAround<T>(a: seq<T>, dropped: T, b: seq<T>, drop: T -> bool)
    requires drop(dropped)
    requires forall i :: 0 <= i < |a| ==> !drop(a[i])
    requires forall i :: 0 <= i < |b| ==> !drop(b[i])
    ensures Without(a + [dropped] + b, drop) == a + b
  {
    if b == [] {
      assert a + [dropped] + b == a + [dropped];
      assert (a + [dropped])[..|a|] == a;
      WithoutKeepsAll(a, drop);
    } else {
      var front := b[..|b| - 1];
      assert (a + [dropped] + b)[..|a| + |b|] == a + [dropped] + front;
      WithoutAround(a, dropped, front, drop);
      assert a + front + [b[|b| - 1]] == a + b;
    }
  }

  /** The sections that are not the conversation. */
  function Others(sections: seq<string>): seq<string> {
    Without(sections, IsHistory)
  }

  lemma {:induction false} LayersAreNotHistory(bodies: seq<string>)
    requires |bodies| <= |TITLES|
    ensures forall s :: s in FixedLayers(bodies) ==> s != "" && s[0] == 'L'
  {
    if bodies != [] {
      LayersAreNotHistory(bodies[..|bodies| - 1]);
    }
  }

  lemma OnlyHistoryIsHistory(bodies: seq<string>, memories: seq<string>, task: string)
    requires |bodies| <= |TITLES|
    ensures forall s :: s in Before(bodies, memories) + [TaskSection(task)] ==> !IsHistory(s)
  {
    LayersAreNotHistory(bodies);
    forall s | s in Before(bodies, memories) + [TaskSection(task)] ensures !IsHistory(s) {
      assert s[0] != 'R';
    }
  }

  lemma OthersOfSections(before: seq<string>, task: string, history: string, passes: nat)
    requires forall s :: s in before + [TaskSection(task)] ==> !IsHistory(s)
    ensures Others(SectionsAfter(before, task, history, passes)) == before + [TaskSection(task)]
    ensures |SectionsAfter(before, task, history, passes)| == |before| + 1 + if history == "" then 0 else 1
  {
    var others := before + [TaskSection(task)];
    if history == "" {
      WithoutKeepsAll(others, IsHistory);
    } else if passes == 0 {
      WithoutAround(before, HistorySection(history), [TaskSection(task)], IsHistory);
      assert before + [HistorySection(history), TaskSection(task)] == before + [HistorySection(history)] + [TaskSection(task)];
    } else {
      var p := Min(2, |others|);
      assert others[..p] + others[p..] == others;
      WithoutAround(others[..p], HistorySection(HistoryAfter(history, passes)), others[p..], IsHistory);
    }
  }

  /**
   Whatever is trimmed, the layers and the task are all there, word for word and in order, and
   the conversation has exactly one section unless it was empty.
   */
  lemma OtherSectionsSurvive(bodies: seq<string>, memories: seq<string>, task: string, history: string, passes: nat)
    requires |bodies| <= |TITLES|
    ensures var sections := SectionsAfter(Before(bodies, memories), task, history, passes);
            && Others(sections) == Before(bodies, memories) + [TaskSection(task)]
            && |sections| == |Others(sections)| + if history == "" then 0 else 1
  {
    OnlyHistoryIsHistory(bodies, memories, task);
    OthersOfSections(Before(bodies, memories), task, history, passes);
  }

  /**
   The task is the last section of the prompt, unless the conversation was trimmed and fewer than
   two sections stand before it: then the conversation ends up behind the task.
   */
  lemma ConversationBehindTaskIff(before: seq<string>, task: string, history: string, passes: nat)
    ensures var sections := SectionsAfter(before, task, history, passes);
            IsHistory(sections[|sections| - 1]) <==> history != "" && passes > 0 && |before| < 2
  {
    assert TaskSection(task)[0] == 'T' && MARKER[0] == 'R';
    var sections := SectionsAfter(before, task, history, passes);
    var others := before + [TaskSection(task)];
    if history != "" && passes > 0 {
      if |before| < 2 {
        assert sections[|sections| - 1] == HistorySection(HistoryAfter(history, passes));
      } else {
        assert sections[|sections| - 1] == others[|others| - 1];
      }
    }
  }

  lemma ContainsInner(a: string, part: string, b: string)
    ensures Contains(a + part + b, part)
  {
    assert (a + part + b)[|a|..] == part + b;
  }

  lemma JoinFromSection(sections: seq<string>, k: nat, separator: string) returns (right: string)
    requires k < |sections|
    ensures Join(sections[k..], separator) == sections[k] + right
  {
    if k + 1 < |sections| {
      assert sections[k..] == [sections[k]] + sections[k + 1..];
      JoinAppend([sections[k]], sections[k + 1..], separator);
      right := separator + Join(sections[k + 1..], separator);
      AppendThree(sections[k], separator, Join(sections[k + 1..], separator));
    } else {
      assert sections[k..] == [sections[k]];
      assert sections[k] + "" == sections[k];
      right := "";
    }
  }

  lemma AppendThree(a: string, b: string, c: string)
    ensures a + b + c == a + (b + c)
  {
  }

  /** Where section `k` begins. */
  function Offset(sections: seq<string>, k: nat, separator: string): nat
    requires k < |sections|
  {
    if k == 0 then 0 else |Join(sections[..k], separator)| + |separator|
  }

  lemma JoinContainsSection(sections: seq<string>, k: nat, separator: string) returns (left: string, right: string)
    requires k < |sections|
    ensures Join(sections, separator) == left + sections[k] + right
    ensures |left| == Offset(sections, k, separator)
  {
    right := JoinFromSection(sections, k, separator);
    if k > 0 {
      assert sections == sections[..k] + sections[k..];
      JoinAppend(sections[..k], sections[k..], separator);
      left := Join(sections[..k], separator) + separator;
    } else {
      assert sections[0..] == sections;
      left := "";
      assert "" + sections[k] == sections[k];
    }
    AppendThree(left, sections[k], right);
  }

  lemma InnerStart(a: string, b: string, c: string, d: string)
    ensures a + (b + c) + d == a + b + (c + d)
  {
  }

  /** As long as there is a conversation, its heading is in the prompt. */
  lemma MarkerIsPresent(before: seq<string>, task: string, history: string, passes: nat)
    requires history != ""
    ensures Contains(ContextAfter(before, task, history, passes), MARKER)
  {
    var sections := SectionsAfter(before, task, history, passes);
    var k := if passes == 0 then |before| else Min(2, |before| + 1);
    var text := HistoryAfter(history, passes);
    assert sections[k] == MARKER + text;
    var left, right := JoinContainsSection(sections, k, "\n\n");
    InnerStart(left, MARKER, text, right);
    ContainsInner(left, MARKER, text + right);
  }

  // ----- the text of the prompt -----

  /** The text is the section at the given place. */
  predicate SectionIs(sections: seq<string>, at: nat, text: string) {
    at < |sections| && sections[at] == text
  }

  /** The text of the section for each of the five bodies, the memories and the task. */
  function Wanted(bodies: seq<string>, memories: seq<string>, task: string, i: nat): string
    requires |bodies| == 5
  {
    match i
    case 0 => "LAYER 1 CORE IDENTITY\n" + bodies[0]
    case 1 => "LAYER 2 ROLE DEFINITION\n" + bodies[1]
    case 2 => "LAYER 3 ORGANIZATIONAL MAP\n" + bodies[2]
    case 3 => "LAYER 4 BEHAVIORAL RULES\n" + bodies[3]
    case 4 => "LAYER 6 SELF AWARENESS\n" + bodies[4]
    case 5 => "LAYER 5 RETRIEVED CONTEXT\n" + Join(memories, "\n")
    case _ => "TASK INPUT\n" + task
  }

  /** Which of the five bodies, the memories and the task have a section. */
  predicate Present(bodies: seq<string>, memories: seq<string>, i: nat)
    requires |bodies| == 5
  {
    if i < 5 then bodies[i] != "" else i == 5 ==> memories != []
  }

  function Filled(bodies: seq<string>): nat {
    if bodies == [] then 0 else Filled(bodies[..|bodies| - 1]) + if bodies[|bodies| - 1] == "" then 0 else 1
  }

  /** Each of them that is there stands at its place. */
  ghost predicate Standing(sections: seq<string>, at: seq<nat>, bodies: seq<string>, memories: seq<string>, task: string)
    requires |bodies| == 5 && |at| == 7
  {
    forall i :: 0 <= i < 7 && Present(bodies, memories, i) ==> SectionIs(sections, at[i], Wanted(bodies, memories, task, i))
  }

  /** The places of those that are there rise. */
  ghost predicate Rising(at: seq<nat>, bodies: seq<string>, memories: seq<string>)
    requires |bodies| == 5 && |at| == 7
  {
    forall i, j :: 0 <= i < j < 7 && Present(bodies, memories, i) && Present(bodies, memories, j) ==> at[i] < at[j]
  }

  /**
   Each of them that is there stands at its place, in this order, and the only other section is
   that of the conversation, at `talk`, if there is one.
   */
  ghost predicate IsPrompt(sections: seq<string>, at: seq<nat>, bodies: seq<string>, memories: seq<string>, task: string,
                           talk: Option<nat>, kept: string)
    requires |bodies| == 5
  {
    && |at| == 7
    && Standing(sections, at, bodies, memories, task)
    && Rising(at, bodies, memories)
    && (talk.Some? ==> SectionIs(sections, talk.value, "RECENT CONVERSATION\n" + kept))
    && |sections| == Filled(bodies) + (if memories != [] then 1 else 0) + 1 + (if talk.Some? then 1 else 0)
  }

  /** The layer of each body that has one is at its place, and the places rise. */
  ghost predicate LayersAt(layers: seq<string>, at: seq<nat>, bodies: seq<string>)
    requires |bodies| <= |TITLES| && |at| == |bodies|
  {
    && (forall i :: 0 <= i < |bodies| && bodies[i] != "" ==> SectionIs(layers, at[i], TITLES[i] + "\n" + bodies[i]))
    && (forall i, j :: 0 <= i < j < |bodies| && bodies[i] != "" && bodies[j] != "" ==> at[i] < at[j])
  }

  lemma LayerAppended(layers: seq<string>, at: seq<nat>, bodies: seq<string>, body: string)
    requires |bodies| < |TITLES| && |at| == |bodies| && LayersAt(layers, at, bodies)
    ensures LayersAt(layers + Layer(TITLES[|bodies|], body), at + [|layers|], bodies + [body])
  {
    var more := layers + Layer(TITLES[|bodies|], body);
    forall i | 0 <= i < |bodies| && bodies[i] != ""
      ensures SectionIs(more, at[i], TITLES[i] + "\n" + bodies[i]) && at[i] < |layers|
    {
      assert SectionIs(layers, at[i], TITLES[i] + "\n" + bodies[i]);
    }
  }

  lemma {:induction false} LayersStand(bodies: seq<string>) returns (at: seq<nat>)
    requires |bodies| <= |TITLES|
    ensures |at| == |bodies| && |FixedLayers(bodies)| == Filled(bodies)
    ensures LayersAt(FixedLayers(bodies), at, bodies)
  {
    if bodies == [] {
      at := [];
    } else {
      var n := |bodies| - 1;
      var front := LayersStand(bodies[..n]);
      LayerAppended(FixedLayers(bodies[..n]), front, bodies[..n], bodies[n]);
      assert bodies[..n] + [bodies[n]] == bodies;
      at := front + [|FixedLayers(bodies[..n])|];
    }
  }

  /** A place after a section has been inserted at `h`. */
  function Shifted(k: nat, h: nat): nat {
    if k < h then k else k + 1
  }

  lemma InsertKeeps(others: seq<string>, h: nat, inserted: string, k: nat, text: string)
    requires h <= |others| && SectionIs(others, k, text)
    ensures SectionIs(others[..h] + [inserted] + others[h..], Shifted(k, h), text)
  {
  }

  lemma BodyStands(bodies: seq<string>, memories: seq<string>, task: string, k: nat, i: nat)
    requires |bodies| == 5 && i < 5
    requires SectionIs(FixedLayers(bodies), k, TITLES[i] + "\n" + bodies[i])
    ensures k < |FixedLayers(bodies)|
    ensures SectionIs(Before(bodies, memories) + [TaskSection(task)], k, Wanted(bodies, memories, task, i))
  {
    HeadingIsTitle(bodies, memories, task, i);
    assert (Before(bodies, memories) + [TaskSection(task)])[k] == FixedLayers(bodies)[k];
  }

  lemma LastTwoStand(bodies: seq<string>, memories: seq<string>, task: string)
    requires |bodies| == 5
    ensures var sections := Before(bodies, memories) + [TaskSection(task)];
            && (memories != [] ==> SectionIs(sections, |FixedLayers(bodies)|, Wanted(bodies, memories, task, 5)))
            && SectionIs(sections, |Before(bodies, memories)|, Wanted(bodies, memories, task, 6))
            && |Before(bodies, memories)| == |FixedLayers(bodies)| + if memories != [] then 1 else 0
  {
  }

  lemma PlacesRise(layers: seq<nat>, n: nat, m: nat, bodies: seq<string>, memories: seq<string>)
    requires |bodies| == 5 && |layers| == 5 && m == n + if memories != [] then 1 else 0
    requires forall i :: 0 <= i < 5 && bodies[i] != "" ==> layers[i] < n
    requires forall i, j :: 0 <= i < j < 5 && bodies[i] != "" && bodies[j] != "" ==> layers[i] < layers[j]
    ensures Rising(layers + [n, m], bodies, memories)
  {
    var at := layers + [n, m];
    forall i, j | 0 <= i < j < 7 && Present(bodies, memories, i) && Present(bodies, memories, j) ensures at[i] < at[j] {
      if j < 5 {
        assert at[i] == layers[i] && at[j] == layers[j];
      } else if i < 5 {
        assert at[i] == layers[i];
      }
    }
  }

  /** The sections without a conversation. */
  lemma OthersArePrompt(bodies: seq<string>, memories: seq<string>, task: string) returns (at: seq<nat>)
    requires |bodies| == 5
    ensures IsPrompt(Before(bodies, memories) + [TaskSection(task)], at, bodies, memories, task, None, "")
  {
    var layers := LayersStand(bodies);
    var n, m := |FixedLayers(bodies)|, |Before(bodies, memories)|;
    at := layers + [n, m];
    LastTwoStand(bodies, memories, task);
    forall i | 0 <= i < 5 && bodies[i] != ""
      ensures layers[i] < n
      ensures SectionIs(Before(bodies, memories) + [TaskSection(task)], layers[i], Wanted(bodies, memories, task, i))
    {
      BodyStands(bodies, memories, task, layers[i], i);
    }
    PlacesRise(layers, n, m, bodies, memories);
    PartsStand(Before(bodies, memories) + [TaskSection(task)], layers, n, m, bodies, memories, task);
  }

  lemma PartsStand(sections: seq<string>, layers: seq<nat>, n: nat, m: nat, bodies: seq<string>, memories: seq<string>, task: string)
    requires |bodies| == 5 && |layers| == 5
    requires forall i :: 0 <= i < 5 && bodies[i] != "" ==> SectionIs(sections, layers[i], Wanted(bodies, memories, task, i))
    requires memories != [] ==> SectionIs(sections, n, Wanted(bodies, memories, task, 5))
    requires SectionIs(sections, m, Wanted(bodies, memories, task, 6))
    ensures Standing(sections, layers + [n, m], bodies, memories, task)
  {
    forall i | 0 <= i < 7 && Present(bodies, memories, i)
      ensures SectionIs(sections, (layers + [n, m])[i], Wanted(bodies, memories, task, i))
    {
      if i < 5 {
        assert (layers + [n, m])[i] == layers[i];
      }
    }
  }

  lemma HeadingIsTitle(bodies: seq<string>, memories: seq<string>, task: string, i: nat)
    requires |bodies| == 5 && i < 5
    ensures Wanted(bodies, memories, task, i) == TITLES[i] + "\n" + bodies[i]
  {
    assert "LAYER 1 CORE IDENTITY" + "\n" == "LAYER 1 CORE IDENTITY\n";
    assert "LAYER 2 ROLE DEFINITION" + "\n" == "LAYER 2 ROLE DEFINITION\n";
    assert "LAYER 3 ORGANIZATIONAL MAP" + "\n" == "LAYER 3 ORGANIZATIONAL MAP\n";
    assert "LAYER 4 BEHAVIORAL RULES" + "\n" == "LAYER 4 BEHAVIORAL RULES\n";
    assert "LAYER 6 SELF AWARENESS" + "\n" == "LAYER 6 SELF AWARENESS\n";
  }

  /** The same with the conversation inserted somewhere. */
  lemma InsertedIsPrompt(others: seq<string>, at: seq<nat>, bodies: seq<string>, memories: seq<string>, task: string,
                         kept: string, h: nat) returns (at': seq<nat>)
    requires |bodies| == 5 && h <= |others| && IsPrompt(others, at, bodies, memories, task, None, "")
    ensures IsPrompt(others[..h] + ["RECENT CONVERSATION\n" + kept] + others[h..], at', bodies, memories, task, Some(h), kept)
  {
    at' := seq(7, i requires 0 <= i < 7 => Shifted(at[i], h));
    var sections := others[..h] + ["RECENT CONVERSATION\n" + kept] + others[h..];
    forall i | 0 <= i < 7 && Present(bodies, memories, i) ensures SectionIs(sections, at'[i], Wanted(bodies, memories, task, i)) {
      InsertKeeps(others, h, "RECENT CONVERSATION\n" + kept, at[i], Wanted(bodies, memories, task, i));
    }
  }

  /** After any number of passes the sections are exactly these. */
  lemma SectionsArePrompt(bodies: seq<string>, memories: seq<string>, task: string, history: string, passes: nat)
      returns (at: seq<nat>, talk: Option<nat>)
    requires |bodies| == 5
    ensures IsPrompt(SectionsAfter(Before(bodies, memories), task, history, passes), at, bodies, memories, task, talk,
                     HistoryAfter(history, passes))
    ensures talk.Some? <==> history != ""
    ensures talk.Some? ==> talk.value == if passes == 0 then |Before(bodies, memories)| else Min(2, |Before(bodies, memories)| + 1)
  {
    var before := Before(bodies, memories);
    var others := before + [TaskSection(task)];
    var kept := HistoryAfter(history, passes);
    at := OthersArePrompt(bodies, memories, task);
    if history == "" {
      talk := None;
    } else {
      var h := if passes == 0 then |before| else Min(2, |others|);
      at := InsertedIsPrompt(others, at, bodies, memories, task, kept, h);
      talk := Some(h);
      SectionsInserted(before, task, history, passes, h);
    }
  }

  lemma SectionsInserted(before: seq<string>, task: string, history: string, passes: nat, h: nat)
    requires history != "" && h == if passes == 0 then |before| else Min(2, |before| + 1)
    ensures var others := before + [TaskSection(task)];
            SectionsAfter(before, task, history, passes)
            == others[..h] + ["RECENT CONVERSATION\n" + HistoryAfter(history, passes)] + others[h..]
  {
    var others := before + [TaskSection(task)];
    if passes == 0 {
      assert others[..h] == before && others[h..] == [TaskSection(task)];
    }
  }

  // ----- where the sections stand in the text -----

  ghost predicate At(context: string, place: nat, text: string) {
    place + |text| <= |context| && context[place..place + |text|] == text
  }

  ghost predicate EndsWith(context: string, text: string) {
    |text| <= |context| && context[|context| - |text|..] == text
  }

  lemma AtMiddle(left: string, text: string, right: string)
    ensures At(left + text + right, |left|, text)
  {
  }

  lemma SectionAt(sections: seq<string>, k: nat, separator: string)
    requires k < |sections|
    ensures At(Join(sections, separator), Offset(sections, k, separator), sections[k])
  {
    var left, right := JoinContainsSection(sections, k, separator);
    AtMiddle(left, sections[k], right);
  }

  lemma OffsetsRise(sections: seq<string>, j: nat, k: nat, separator: string)
    requires j < k < |sections|
    ensures Offset(sections, j, separator) + |sections[j]| + |separator| <= Offset(sections, k, separator)
  {
    assert sections[..k][..j + 1] == sections[..j + 1] == sections[..j] + [sections[j]];
    JoinOfPrefixIsShorter(sections[..k], j + 1, separator);
    if j > 0 {
      JoinSnoc(sections[..j], sections[j], separator);
    } else {
      JoinOne(sections[0], separator);
    }
  }

  lemma LastSectionEnds(sections: seq<string>, separator: string)
    requires sections != []
    ensures EndsWith(Join(sections, separator), sections[|sections| - 1])
  {
  }

  /** Each part that is there stands in the text behind its own heading, one after the other. */
  ghost predicate PartsAt(context: string, places: seq<nat>, bodies: seq<string>, memories: seq<string>, task: string)
    requires |bodies| == 5
  {
    && |places| == 7
    && (forall i :: 0 <= i < 7 && Present(bodies, memories, i) ==> At(context, places[i], Wanted(bodies, memories, task, i)))
    && (forall i, j :: 0 <= i < j < 7 && Present(bodies, memories, i) && Present(bodies, memories, j) ==>
          places[i] + |Wanted(bodies, memories, task, i)| < places[j])
  }

  lemma PartsInText(sections: seq<string>, at: seq<nat>, bodies: seq<string>, memories: seq<string>, task: string)
      returns (places: seq<nat>)
    requires |bodies| == 5 && |at| == 7 && Standing(sections, at, bodies, memories, task) && Rising(at, bodies, memories)
    ensures PartsAt(Join(sections, "\n\n"), places, bodies, memories, task)
  {
    places := seq(7, i requires 0 <= i < 7 => if at[i] < |sections| then Offset(sections, at[i], "\n\n") else 0);
    forall i | 0 <= i < 7 && Present(bodies, memories, i)
      ensures At(Join(sections, "\n\n"), places[i], Wanted(bodies, memories, task, i))
    {
      assert SectionIs(sections, at[i], Wanted(bodies, memories, task, i));
      SectionAt(sections, at[i], "\n\n");
    }
    forall i, j | 0 <= i < j < 7 && Present(bodies, memories, i) && Present(bodies, memories, j)
      ensures places[i] + |Wanted(bodies, memories, task, i)| < places[j]
    {
      assert SectionIs(sections, at[i], Wanted(bodies, memories, task, i));
      assert SectionIs(sections, at[j], Wanted(bodies, memories, task, j));
      OffsetsRise(sections, at[i], at[j], "\n\n");
    }
  }

  lemma LineStands(context: string, place: nat, heading: string, lines: seq<string>, k: nat) returns (at: nat)
    requires At(context, place, heading + Join(lines, "\n")) && k < |lines|
    ensures At(context, at, lines[k])
  {
    AtBehind(context, place, heading, Join(lines, "\n"));
    var left, right := JoinContainsSection(lines, k, "\n");
    at := InnerStands(context, place + |heading|, Join(lines, "\n"), left, lines[k], right);
  }

  lemma InnerStands(context: string, place: nat, text: string, left: string, line: string, right: string) returns (at: nat)
    requires At(context, place, text) && text == left + line + right
    ensures At(context, at, line)
  {
    AtBefore(context, place, left + line, right);
    AtBehind(context, place, left, line);
    at := place + |left|;
  }

  lemma AtBehind(context: string, place: nat, a: string, b: string)
    requires At(context, place, a + b)
    ensures At(context, place + |a|, b)
  {
    assert context[place + |a|..place + |a| + |b|] == (a + b)[|a|..] == b;
  }

  lemma AtBefore(context: string, place: nat, a: string, b: string)
    requires At(context, place, a + b)
    ensures At(context, place, a)
  {
    assert context[place..place + |a|] == (a + b)[..|a|] == a;
  }

  lemma AtContains(context: string, place: nat, text: string)
    requires At(context, place, text)
    ensures Contains(context, text)
  {
    assert context[place..][..|text|] == text;
  }

  /** What is left of the conversation: all of it, or a stretch of its lines. */
  ghost predicate IsKept(history: string, kept: string, passes: nat) {
    if passes == 0 then kept == history else exists end: nat :: IsStretch(SplitLines(history), kept, passes, end)
  }

  lemma HistoryIsKept(history: string, passes: nat)
    requires AllCouldDrop(history, passes)
    ensures IsKept(history, HistoryAfter(history, passes), passes)
  {
    if passes > 0 {
      var end := KeptIsStretchOfLines(history, passes);
    }
  }

  /** What is kept of a conversation stands in the text behind its heading. */
  ghost predicate TalkAt(context: string, place: nat, history: string, kept: string, passes: nat) {
    history != "" ==> At(context, place, "RECENT CONVERSATION\n" + kept) && IsKept(history, kept, passes)
  }

  /**
   The text ends with the task, unless a trimmed conversation follows it, which happens when fewer
   than two of the bodies and the memories are there.
   */
  ghost predicate EndsRight(context: string, bodies: seq<string>, memories: seq<string>, task: string, history: string,
                            kept: string, passes: nat)
  {
    if history == "" || passes == 0 || Filled(bodies) + (if memories == [] then 0 else 1) >= 2
    then EndsWith(context, "TASK INPUT\n" + task)
    else EndsWith(context, "RECENT CONVERSATION\n" + kept)
  }

  lemma ContextEndsRight(bodies: seq<string>, memories: seq<string>, task: string, history: string, passes: nat)
    requires |bodies| == 5
    ensures EndsRight(ContextAfter(Before(bodies, memories), task, history, passes), bodies, memories, task, history,
                      HistoryAfter(history, passes), passes)
  {
    var before := Before(bodies, memories);
    var sections := SectionsAfter(before, task, history, passes);
    var layers := LayersStand(bodies);
    assert |before| == Filled(bodies) + if memories == [] then 0 else 1;
    LastSectionEnds(sections, "\n\n");
    LastSectionIs(before, task, history, passes);
  }

  lemma LastSectionIs(before: seq<string>, task: string, history: string, passes: nat)
    ensures var sections := SectionsAfter(before, task, history, passes);
            sections[|sections| - 1] == if history == "" || passes == 0 || |before| >= 2 then "TASK INPUT\n" + task
                                        else "RECENT CONVERSATION\n" + HistoryAfter(history, passes)
  {
    var others := before + [TaskSection(task)];
    if history != "" && passes > 0 && |before| >= 2 {
      assert others[2..][|others| - 3] == TaskSection(task);
    }
  }

  /** The whole text: every part in its place, the conversation that is kept, and how it ends. */
  ghost predicate IsContext(context: string, bodies: seq<string>, memories: seq<string>, task: string, history: string, passes: nat)
    requires |bodies| == 5
  {
    exists places: seq<nat>, talk: nat, kept: string ::
      && PartsAt(context, places, bodies, memories, task)
      && TalkAt(context, talk, history, kept, passes)
      && EndsRight(context, bodies, memories, task, history, kept, passes)
  }

  lemma ContextIsRight(bodies: seq<string>, memories: seq<string>, task: string, history: string, passes: nat)
    requires |bodies| == 5 && AllCouldDrop(history, passes)
    ensures IsContext(ContextAfter(Before(bodies, memories), task, history, passes), bodies, memories, task, history, passes)
  {
    var context := ContextAfter(Before(bodies, memories), task, history, passes);
    var sections := SectionsAfter(Before(bodies, memories), task, history, passes);
    var kept := HistoryAfter(history, passes);
    var at, talk := SectionsArePrompt(bodies, memories, task, history, passes);
    var places := PartsInText(sections, at, bodies, memories, task);
    var place := 0;
    if history != "" {
      SectionAt(sections, talk.value, "\n\n");
      place := Offset(sections, talk.value, "\n\n");
      HistoryIsKept(history, passes);
    }
    assert TalkAt(context, place, history, kept, passes);
    ContextEndsRight(bodies, memories, task, history, passes);
    assert PartsAt(context, places, bodies, memories, task);
  }

  /** So the task, every body, every memory and every kept line of the conversation can be read in it. */
  lemma PartsCanBeRead(context: string, bodies: seq<string>, memories: seq<string>, task: string, history: string, passes: nat)
    requires |bodies| == 5 && IsContext(context, bodies, memories, task, history, passes)
    ensures Contains(context, "TASK INPUT\n" + task)
    ensures forall i :: 0 <= i < |memories| ==> Contains(context, memories[i])
    ensures history != "" && passes == 0 ==> Contains(context, history)
    ensures history != "" && passes > 0 ==>
              exists end: nat :: && passes < end <= |SplitLines(history)| && Blank(SplitLines(history)[end..])
                                 && forall k :: passes <= k < end ==> Contains(context, SplitLines(history)[k])
  {
    var places: seq<nat>, talk: nat, kept: string :|
      && PartsAt(context, places, bodies, memories, task)
      && TalkAt(context, talk, history, kept, passes)
      && EndsRight(context, bodies, memories, task, history, kept, passes);
    BodiesCanBeRead(context, places, bodies, memories, task);
    if history != "" {
      TalkCanBeRead(context, talk, history, kept, passes);
    }
  }

  lemma BodiesCanBeRead(context: string, places: seq<nat>, bodies: seq<string>, memories: seq<string>, task: string)
    requires |bodies| == 5 && PartsAt(context, places, bodies, memories, task)
    ensures Contains(context, "TASK INPUT\n" + task)
    ensures forall i :: 0 <= i < |memories| ==> Contains(context, memories[i])
  {
    TaskStands(context, places, bodies, memories, task);
    AtContains(context, places[6], "TASK INPUT\n" + task);
    forall i | 0 <= i < |memories| ensures Contains(context, memories[i]) {
      MemoriesStand(context, places, bodies, memories, task);
      LineCanBeRead(context, places[5], "LAYER 5 RETRIEVED CONTEXT\n", memories, i);
    }
  }

  lemma TaskStands(context: string, places: seq<nat>, bodies: seq<string>, memories: seq<string>, task: string)
    requires |bodies| == 5 && PartsAt(context, places, bodies, memories, task)
    ensures At(context, places[6], "TASK INPUT\n" + task)
  {
    assert Present(bodies, memories, 6);
  }

  lemma MemoriesStand(context: string, places: seq<nat>, bodies: seq<string>, memories: seq<string>, task: string)
    requires |bodies| == 5 && memories != [] && PartsAt(context, places, bodies, memories, task)
    ensures At(context, places[5], "LAYER 5 RETRIEVED CONTEXT\n" + Join(memories, "\n"))
  {
    assert Present(bodies, memories, 5);
  }

  lemma LineCanBeRead(context: string, place: nat, heading: string, lines: seq<string>, k: nat)
    requires At(context, place, heading + Join(lines, "\n")) && k < |lines|
    ensures Contains(context, lines[k])
  {
    var at := LineStands(context, place, heading, lines, k);
    AtContains(context, at, lines[k]);
  }

  lemma TalkCanBeRead(context: string, place: nat, history: string, kept: string, passes: nat)
    requires history != "" && TalkAt(context, place, history, kept, passes)
    ensures passes == 0 ==> Contains(context, history)
    ensures passes > 0 ==>
              exists end: nat :: && passes < end <= |SplitLines(history)| && Blank(SplitLines(history)[end..])
                                 && forall k :: passes <= k < end ==> Contains(context, SplitLines(history)[k])
  {
    if passes == 0 {
      AtBehind(context, place, "RECENT CONVERSATION\n", kept);
      AtContains(context, place + |"RECENT CONVERSATION\n"|, kept);
    } else {
      var lines := SplitLines(history);
      var end: nat :| IsStretch(lines, kept, passes, end);
      forall k | passes <= k < end ensures Contains(context, lines[k]) {
        LineCanBeRead(context, place, "RECENT CONVERSATION\n", lines[passes..end], k - passes);
      }
    }
  }

  lemma DropIsShorter(history: string)
    requires CanDrop(history)
    ensures |SplitLines(DropOldest(history))| < |SplitLines(history)|
  {
    SplitGivesLines(history);
    SplitOfJoin(SplitLines(history)[1..]);
  }

  lemma {:induction false} EmptyStays(passes: nat)
    ensures HistoryAfter("", passes) == "" && !CanDrop(HistoryAfter("", passes))
  {
    if passes > 0 {
      EmptyStays(passes - 1);
    }
  }

  /** The passes so far were all needed and possible. */
  ghost predicate Needed(before: seq<string>, task: string, history: string, budget: int, estimate: string -> int, passes: nat) {
    forall j: nat :: j < passes ==>
      estimate(ContextAfter(before, task, history, j)) > budget && CanDrop(HistoryAfter(history, j))
  }

  lemma NeededOnce(before: seq<string>, task: string, history: string, budget: int, estimate: string -> int, passes: nat)
    requires Needed(before, task, history, budget, estimate, passes)
    requires estimate(ContextAfter(before, task, history, passes)) > budget && CanDrop(HistoryAfter(history, passes))
    ensures Needed(before, task, history, budget, estimate, passes + 1)
  {
    forall j: nat | j < passes + 1
      ensures estimate(ContextAfter(before, task, history, j)) > budget && CanDrop(HistoryAfter(history, j))
    {
      if j < passes {
      } else {
        assert j == passes;
      }
    }
  }

  lemma StopsForGood(before: seq<string>, task: string, history: string, passes: nat)
    requires !Contains(ContextAfter(before, task, history, passes), MARKER)
    ensures !CanDrop(HistoryAfter(history, passes))
  {
    if history == "" {
      EmptyStays(passes);
    } else {
      MarkerIsPresent(before, task, history, passes);
    }
  }

  lemma PassReplaces(before: seq<string>, task: string, history: string, passes: nat)
    requires forall s :: s in before + [TaskSection(task)] ==> !IsHistory(s)
    requires CanDrop(HistoryAfter(history, passes))
    ensures var others := Others(SectionsAfter(before, task, history, passes));
            SectionsAfter(before, task, history, passes + 1)
            == others[..Min(2, |others|)] + [HistorySection(HistoryAfter(history, passes + 1))] + others[Min(2, |others|)..]
  {
    if history == "" {
      EmptyStays(passes);
    } else {
      OthersOfSections(before, task, history, passes);
    }
  }

  method BuildLayers(bodies: seq<string>) returns (sections: seq<string>)
    requires |bodies| == |TITLES|
    ensures sections == FixedLayers(bodies)
  {
    sections := [];
    for i := 0 to |TITLES|
      invariant sections == FixedLayers(bodies[..i])
    {
      assert bodies[..i + 1][..i] == bodies[..i];
      if bodies[i] != "" {
        sections := sections + [TITLES[i] + "\n" + bodies[i]];
      }
    }
    assert bodies[..|TITLES|] == bodies;
  }

  /** The sections before trimming, built in order. */
  method BuildSections(bodies: seq<string>, memories: seq<string>, task: string, history: string) returns (sections: seq<string>)
    requires |bodies| == |TITLES|
    ensures sections == SectionsAfter(Before(bodies, memories), task, history, 0)
  {
    sections := BuildLayers(bodies);
    if memories != [] {
      sections := sections + ["LAYER 5 RETRIEVED CONTEXT\n" + JoinLines(memories)];
    }
    if history != "" {
      sections := sections + [HistorySection(history)];
    }
    sections := sections + [TaskSection(task)];
  }

  /** One pass of the trimming loop, with at least two lines of conversation left. */
  method DropPass(sections: seq<string>, historyText: string, ghost before: seq<string>, ghost task: string,
                  ghost history: string, ghost passes: nat)
      returns (sections': seq<string>, historyText': string)
    requires forall s :: s in before + [TaskSection(task)] ==> !IsHistory(s)
    requires sections == SectionsAfter(before, task, history, passes)
    requires historyText == HistoryAfter(history, passes) && CanDrop(historyText)
    ensures historyText' == HistoryAfter(history, passes + 1)
    ensures sections' == SectionsAfter(before, task, history, passes + 1)
  {
    PassReplaces(before, task, history, passes);
    historyText' := JoinLines(SplitLines(historyText)[1..]);
    sections' := Others(sections);
    var place := Min(2, |sections'|);
    sections' := sections'[..place] + [HistorySection(historyText')] + sections'[place..];
  }

  /**
   The prompt after the least number of passes that fits the budget, or after the first with at
   most one line of conversation left.
   */
  ghost predicate IsTrimmed(before: seq<string>, task: string, history: string, budget: int, estimate: string -> int,
                            context: string, passes: nat)
  {
    && context == ContextAfter(before, task, history, passes)
    && Needed(before, task, history, budget, estimate, passes)
    && (estimate(context) <= budget || !CanDrop(HistoryAfter(history, passes)))
  }

  method Assemble(bodies: seq<string>, memories: seq<string>, task: string, history: string, budget: int,
                  estimate: string -> int)
      returns (context: string, ghost passes: nat)
    requires |bodies| == 5
    ensures IsTrimmed(Before(bodies, memories), task, history, budget, estimate, context, passes)
    ensures IsContext(context, bodies, memories, task, history, passes)
    ensures Contains(context, "TASK INPUT\n" + task)
  {
    OnlyHistoryIsHistory(bodies, memories, task);
    var sections := BuildSections(bodies, memories, task, history);
    context, passes := Trim(Before(bodies, memories), task, history, sections, budget, estimate);
    CouldDrop(Before(bodies, memories), task, history, budget, estimate, passes);
    ContextIsRight(bodies, memories, task, history, passes);
    PartsCanBeRead(context, bodies, memories, task, history, passes);
  }

  lemma CouldDrop(before: seq<string>, task: string, history: string, budget: int, estimate: string -> int, passes: nat)
    requires Needed(before, task, history, budget, estimate, passes)
    ensures AllCouldDrop(history, passes)
  {
    forall j: nat | j < passes ensures CanDrop(HistoryAfter(history, j)) {
      assert estimate(ContextAfter(before, task, history, j)) > budget;
    }
  }

  /** The trimming loop. */
  method Trim(ghost before: seq<string>, ghost task: string, history: string, built: seq<string>, budget: int,
              estimate: string -> int)
      returns (context: string, ghost passes: nat)
    requires forall s :: s in before + [TaskSection(task)] ==> !IsHistory(s)
    requires built == SectionsAfter(before, task, history, 0)
    ensures context == ContextAfter(before, task, history, passes)
    ensures Needed(before, task, history, budget, estimate, passes)
    ensures estimate(context) <= budget || !CanDrop(HistoryAfter(history, passes))
  {
    var sections, historyText := built, history;
    context := Join(sections, "\n\n");
    passes := 0;
    while estimate(context) > budget && Contains(context, MARKER)
      invariant sections == SectionsAfter(before, task, history, passes)
      invariant historyText == HistoryAfter(history, passes)
      invariant context == ContextAfter(before, task, history, passes)
      invariant Needed(before, task, history, budget, estimate, passes)
      decreases |SplitLines(historyText)|
    {
      if |SplitLines(historyText)| <= 1 {
        return;
      }
      NeededOnce(before, task, history, budget, estimate, passes);
      DropIsShorter(historyText);
      sections, historyText := DropPass(sections, historyText, before, task, history, passes);
      context := Join(sections, "\n\n");
      passes := passes + 1;
    }
    if estimate(context) > budget {
      StopsForGood(before, task, history, passes);
    }
  }
}
