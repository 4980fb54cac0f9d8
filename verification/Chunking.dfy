/**
 Greedy text chunking: `_chunk` (component_library/tools/document_ingestion.py) packs element
 texts, `_split_long_paragraph` (component_library/data/knowledge_base.py) packs words and cuts
 over-long ones.  Both are instances of one greedy packing, which is shown to be optimal.
 */
module Chunking {
  import opened Common
  import opened Text

  // ----- greedy packing -----

  type Group = seq<string>

  /** The groups already closed and the one still open after packing `texts` in order. */
  datatype Packing = Packing(closed: seq<Group>, current: Group)

  function Pack(texts: seq<string>, separator: string, limit: int): Packing {
    if texts == [] then Packing([], [])
    else Next(Pack(texts[..|texts| - 1], separator, limit), texts[|texts| - 1], separator, limit)
  }

  /** One more text: it joins the open group if it fits there, or opens a new one. */
  function Next(p: Packing, text: string, separator: string, limit: int): Packing {
    if p.current != [] && |Join(p.current + [text], separator)| > limit
    then Packing(p.closed + [p.current], [text])
    else Packing(p.closed, p.current + [text])
  }

  function GroupsOf(p: Packing): seq<Group> {
    p.closed + if p.current == [] then [] else [p.current]
  }

  function Render(groups: seq<Group>, separator: string): seq<string> {
    if groups == [] then []
    else Render(groups[..|groups| - 1], separator) + [Join(groups[|groups| - 1], separator)]
  }

  lemma RenderSnoc(groups: seq<Group>, last: Group, separator: string)
    ensures Render(groups + [last], separator) == Render(groups, separator) + [Join(last, separator)]
  {
    assert (groups + [last])[..|groups|] == groups;
  }

  /** A way to split `texts` into consecutive non-empty groups, each fitting or holding one text. */
  ghost predicate IsGrouping(groups: seq<Group>, texts: seq<string>, separator: string, limit: int) {
    && Flatten(groups) == texts
    && forall g :: g in groups ==> g != [] && (|g| > 1 ==> |Join(g, separator)| <= limit)
  }

  lemma FlattenSnoc<T>(groups: seq<seq<T>>, last: seq<T>)
    ensures Flatten(groups + [last]) == Flatten(groups) + last
  {
    FlattenAppend(groups, [last]);
    assert [last][1..] == [];
    assert Flatten([last]) == last;
  }

  lemma {:induction false} PackKeepsTexts(texts: seq<string>, separator: string, limit: int)
    ensures var p := Pack(texts, separator, limit);
            texts == Flatten(p.closed) + p.current && (texts != [] ==> p.current != [])
  {
    if texts != [] {
      var front, text := texts[..|texts| - 1], texts[|texts| - 1];
      assert texts == front + [text];
      PackKeepsTexts(front, separator, limit);
      var before := Pack(front, separator, limit);
      FlattenSnoc(before.closed, before.current);
    }
  }

  lemma {:induction false} PackedGroupsFit(texts: seq<string>, separator: string, limit: int)
    ensures forall g :: g in GroupsOf(Pack(texts, separator, limit)) ==> g != [] && (|g| > 1 ==> |Join(g, separator)| <= limit)
  {
    if texts != [] {
      var front := texts[..|texts| - 1];
      PackedGroupsFit(front, separator, limit);
      var before, p := Pack(front, separator, limit), Pack(texts, separator, limit);
      assert forall g :: g in GroupsOf(p) ==> g in GroupsOf(before) || g == p.current;
    }
  }

  /** The greedy packing is itself such a grouping, and its open group is the end of the texts. */
  lemma PackIsGrouping(texts: seq<string>, separator: string, limit: int)
    ensures var p := Pack(texts, separator, limit);
            && IsGrouping(GroupsOf(p), texts, separator, limit)
            && (texts != [] ==> p.current != [])
            && texts == Flatten(p.closed) + p.current
  {
    var p := Pack(texts, separator, limit);
    PackKeepsTexts(texts, separator, limit);
    PackedGroupsFit(texts, separator, limit);
    FlattenSnoc(p.closed, p.current);
    if p.current == [] {
      AppendNothing(Flatten(p.closed));
    }
  }

  /** Rendering the groups and joining again gives the texts joined. */
  lemma {:induction false} RenderKeepsText(groups: seq<Group>, separator: string)
    requires forall g :: g in groups ==> g != []
    ensures Join(Render(groups, separator), separator) == Join(Flatten(groups), separator)
    ensures groups != [] ==> Render(groups, separator) != [] && Flatten(groups) != []
  {
    if groups != [] {
      var front, last := groups[..|groups| - 1], groups[|groups| - 1];
      assert groups == front + [last] && last in groups;
      assert forall g :: g in front ==> g in groups;
      RenderKeepsText(front, separator);
      FlattenSnoc(front, last);
      RenderSnoc(front, last, separator);
      if front == [] {
        assert Flatten(groups) == last && Render(groups, separator) == [Join(last, separator)];
        JoinOne(Join(last, separator), separator);
      } else {
        JoinSnoc(Render(front, separator), Join(last, separator), separator);
        JoinAppend(Flatten(front), last, separator);
      }
    }
  }

  /** A grouping of `front + [text]`, with the last text taken away. */
  lemma DropLastText(groups: seq<Group>, front: seq<string>, text: string, separator: string, limit: int)
    returns (rest: seq<Group>)
    requires IsGrouping(groups, front + [text], separator, limit)
    ensures groups != [] && IsGrouping(rest, front, separator, limit)
    ensures var h := groups[|groups| - 1];
            h != [] &&
            if |h| == 1 then rest == groups[..|groups| - 1]
            else |rest| == |groups| && rest[|rest| - 1] == h[..|h| - 1]
  {
    var n := |groups| - 1;
    var heads, h := groups[..n], groups[n];
    assert groups == heads + [h] && h in groups;
    FlattenSnoc(heads, h);
    assert forall g :: g in heads ==> g in groups;
    assert h == h[..|h| - 1] + [h[|h| - 1]];
    if |h| == 1 {
      rest := heads;
      assert (front + [text])[..|front|] == front;
      assert Flatten(heads) == (Flatten(heads) + h)[..|Flatten(heads)|];
    } else {
      rest := heads + [h[..|h| - 1]];
      FlattenSnoc(heads, h[..|h| - 1]);
      JoinOfPrefixIsShorter(h, |h| - 1, separator);
      assert front == (front + [text])[..|front|];
      assert Flatten(rest) == (Flatten(heads) + h)[..|front|];
    }
  }

  /**
   Greedy stays ahead: it never has more groups than another grouping of the same texts, and
   with the same number its open group is the shorter.
   */
  lemma {:induction false} GreedyStaysAhead(texts: seq<string>, groups: seq<Group>, separator: string, limit: int)
    requires texts != [] && IsGrouping(groups, texts, separator, limit)
    ensures var p := Pack(texts, separator, limit);
            && |p.closed| + 1 <= |groups|
            && (|p.closed| + 1 == |groups| ==> |p.current| <= |groups[|groups| - 1]|)
    decreases |texts|
  {
    var front, text := texts[..|texts| - 1], texts[|texts| - 1];
    assert texts == front + [text];
    var rest := DropLastText(groups, front, text, separator, limit);
    var h := groups[|groups| - 1];
    assert h in groups;
    if front == [] {
      assert Pack(texts, separator, limit) == Packing([], [text]);
    } else {
      GreedyStaysAhead(front, rest, separator, limit);
      PackIsGrouping(front, separator, limit);
      var before := Pack(front, separator, limit);
      if |h| > 1 && |before.closed| + 1 == |rest| {
        EndsFit(texts, front, text, groups, before, separator, limit);
      }
    }
  }

  /** Where the other grouping has its last group as long, the greedy open group takes the text as well. */
  lemma EndsFit(texts: seq<string>, front: seq<string>, text: string, groups: seq<Group>, before: Packing,
                separator: string, limit: int)
    requires texts == front + [text] && front == Flatten(before.closed) + before.current && before.current != []
    requires groups != [] && IsGrouping(groups, texts, separator, limit)
    requires |groups[|groups| - 1]| > 1 && |before.current| < |groups[|groups| - 1]|
    ensures |Join(before.current + [text], separator)| <= limit
  {
    var h, heads := groups[|groups| - 1], groups[..|groups| - 1];
    assert groups == heads + [h] && h in groups;
    FlattenSnoc(heads, h);
    var k := |h| - |before.current| - 1;
    Reassociate(Flatten(before.closed), before.current, [text]);
    SameEnd(Flatten(heads), h, Flatten(before.closed), before.current + [text]);
    JoinOfSuffixIsShorter(h, k, separator);
  }

  lemma Reassociate<T>(a: seq<T>, b: seq<T>, c: seq<T>)
    ensures a + b + c == a + (b + c)
  {
  }

  lemma SameEnd<T>(a: seq<T>, x: seq<T>, b: seq<T>, y: seq<T>)
    requires a + x == b + y && |y| <= |x|
    ensures x[|x| - |y|..] == y
  {
    var whole := a + x;
    assert whole[|whole| - |y|..] == y;
    assert whole[|a|..] == x;
  }

  /** No grouping uses fewer groups than the greedy one. */
  lemma GreedyIsOptimal(texts: seq<string>, groups: seq<Group>, separator: string, limit: int)
    requires IsGrouping(groups, texts, separator, limit)
    ensures |GroupsOf(Pack(texts, separator, limit))| <= |groups|
  {
    PackIsGrouping(texts, separator, limit);
    if texts != [] {
      GreedyStaysAhead(texts, groups, separator, limit);
    }
  }

  // ----- element chunking -----

  /** The stripped texts of the elements, without the empty ones. */
  function Texts(elements: seq<string>): seq<string> {
    if elements == [] then []
    else
      var text := Strip(elements[|elements| - 1]);
      Texts(elements[..|elements| - 1]) + if text == "" then [] else [text]
  }

  lemma TextsSnoc(a: seq<string>, e: string)
    ensures Texts(a + [e]) == Texts(a) + if Strip(e) == "" then [] else [Strip(e)]
  {
    assert (a + [e])[..|a|] == a;
  }

  /** The texts of two parts are those of the parts, in order; an element gives its stripped text unless that is empty. */
  lemma {:induction false} TextsOfParts(a: seq<string>, b: seq<string>, e: string)
    ensures Texts(a + b) == Texts(a) + Texts(b)
    ensures Texts([e]) == if Strip(e) == "" then [] else [Strip(e)]
    decreases |b|
  {
    TextsSnoc([], e);
    assert [] + [e] == [e];
    if b == [] {
      AppendNothing(a);
    } else {
      var front, last := b[..|b| - 1], b[|b| - 1];
      TextsOfParts(a, front, e);
      AppendFront(a, b);
      TextsSnoc(a + front, last);
      TextsSnoc(front, last);
      assert front + [last] == b;
    }
  }

  lemma {:induction false} TextsAreStripped(elements: seq<string>)
    ensures forall t :: t in Texts(elements) ==> t != "" && Stripped(t)
  {
    if elements != [] {
      TextsAreStripped(elements[..|elements| - 1]);
    }
  }

  lemma {:induction false} JoinIsStripped(group: Group)
    requires group != [] && forall t :: t in group ==> t != "" && Stripped(t)
    ensures Join(group, "\n") != "" && Stripped(Join(group, "\n"))
  {
    if |group| > 1 {
      var front, last := group[..|group| - 1], group[|group| - 1];
      assert last in group && forall t :: t in front ==> t in group;
      JoinIsStripped(front);
    } else {
      assert group[0] in group;
    }
  }

  ghost predicate AreTexts(group: Group) {
    forall t :: t in group ==> t != "" && Stripped(t)
  }

  /** Adding a text to the open group: the candidate needs no stripping, and is the joined group. */
  lemma CandidateIsJoined(group: Group, text: string)
    requires AreTexts(group) && text != "" && Stripped(text)
    ensures AreTexts(group + [text])
    ensures group == [] ==> Join(group + [text], "\n") == text
    ensures group != [] ==> Join(group, "\n") != ""
                            && Strip(Join(group, "\n") + "\n" + text) == Join(group + [text], "\n")
  {
    JoinIsStripped(group + [text]);
    if group != [] {
      JoinIsStripped(group);
      JoinSnoc(group, text, "\n");
    }
  }

  lemma TextsNext(elements: seq<string>, i: nat)
    requires i < |elements|
    ensures var text := Strip(elements[i]);
            Texts(elements[..i + 1]) == if text == "" then Texts(elements[..i]) else Texts(elements[..i]) + [text]
  {
    assert elements[..i + 1][..i] == elements[..i];
  }

  lemma PackNext(texts: seq<string>, text: string, limit: int)
    ensures Pack(texts + [text], "\n", limit) == Next(Pack(texts, "\n", limit), text, "\n", limit)
  {
    assert (texts + [text])[..|texts|] == texts;
  }

  /** One turn of the loop: an element with text goes to the open chunk, or closes it. */
  method AddText(chunks0: seq<string>, current0: string, text: string, limit: int, ghost p: Packing)
      returns (chunks: seq<string>, current: string)
    requires AreTexts(p.current) && text != "" && Stripped(text)
    requires chunks0 == Render(p.closed, "\n") && current0 == Join(p.current, "\n") && (p.current == [] <==> current0 == "")
    ensures chunks == Render(Next(p, text, "\n", limit).closed, "\n")
    ensures current == Join(Next(p, text, "\n", limit).current, "\n") && current != ""
    ensures AreTexts(Next(p, text, "\n", limit).current)
  {
    CandidateIsJoined(p.current, text);
    CandidateIsJoined([], text);
    var candidate := if current0 != "" then Strip(current0 + "\n" + text) else text;
    if |candidate| > limit && current0 != "" {
      RenderSnoc(p.closed, p.current, "\n");
      chunks := chunks0 + [current0];
      current := text;
    } else {
      chunks := chunks0;
      current := candidate;
    }
  }

  /** `_chunk`: the contents of the chunks are the greedy groups of the element texts. */
  method Chunk(elements: seq<string>, maxChunkSize: int) returns (chunks: seq<string>)
    ensures chunks == Render(GroupsOf(Pack(Texts(elements), "\n", maxChunkSize)), "\n")
  {
    chunks := [];
    var current := "";
    ghost var p := Packing([], []);
    for i := 0 to |elements|
      invariant p == Pack(Texts(elements[..i]), "\n", maxChunkSize)
      invariant chunks == Render(p.closed, "\n") && current == Join(p.current, "\n")
      invariant AreTexts(p.current) && (p.current == [] <==> current == "")
    {
      TextsNext(elements, i);
      var text := Strip(elements[i]);
      if text != "" {
        PackNext(Texts(elements[..i]), text, maxChunkSize);
        chunks, current := AddText(chunks, current, text, maxChunkSize, p);
        p := Next(p, text, "\n", maxChunkSize);
      }
    }
    assert elements[..|elements|] == elements;
    if current != "" {
      RenderSnoc(p.closed, p.current, "\n");
      chunks := chunks + [current];
    } else {
      assert GroupsOf(p) == p.closed;
    }
  }

  lemma {:induction false} RenderHolds(groups: seq<Group>, separator: string)
    ensures |Render(groups, separator)| == |groups|
    ensures forall i :: 0 <= i < |groups| ==> Render(groups, separator)[i] == Join(groups[i], separator)
  {
    if groups != [] {
      RenderHolds(groups[..|groups| - 1], separator);
    }
  }

  lemma {:induction false} FlattenHolds<T>(groups: seq<seq<T>>, g: seq<T>, x: T)
    requires g in groups && x in g
    ensures x in Flatten(groups)
  {
    if g != groups[0] {
      assert groups == [groups[0]] + groups[1..];
      FlattenHolds(groups[1..], g, x);
    }
  }

  /**
   The chunks of a document: joined by newlines they give back the element texts joined by
   newlines, a chunk over the limit is a single element, and no order-preserving grouping whose
   groups of several elements all fit has fewer chunks.
   */
  lemma ChunksAreFaithfulAndFewest(elements: seq<string>, maxChunkSize: int, other: seq<Group>)
    ensures var texts := Texts(elements);
            var chunks := Render(GroupsOf(Pack(texts, "\n", maxChunkSize)), "\n");
            && Join(chunks, "\n") == Join(texts, "\n")
            && (forall c :: c in chunks && |c| > maxChunkSize ==> c in texts)
            && (IsGrouping(other, texts, "\n", maxChunkSize) ==> |chunks| <= |other|)
  {
    var texts := Texts(elements);
    var groups := GroupsOf(Pack(texts, "\n", maxChunkSize));
    var chunks := Render(groups, "\n");
    PackIsGrouping(texts, "\n", maxChunkSize);
    RenderKeepsText(groups, "\n");
    RenderHolds(groups, "\n");
    forall c | c in chunks && |c| > maxChunkSize ensures c in texts {
      var i :| 0 <= i < |chunks| && chunks[i] == c;
      assert groups[i] in groups && c == Join(groups[i], "\n");
      assert |groups[i]| == 1;
      assert c in groups[i];
      FlattenHolds(groups, groups[i], c);
    }
    if IsGrouping(other, texts, "\n", maxChunkSize) {
      GreedyIsOptimal(texts, other, "\n", maxChunkSize);
    }
  }

  // ----- word splitting -----

  const MAX_CHUNK_CHARS := 500

  /** How many characters come before the first white space. */
  function WordLength(s: string): (n: nat)
    ensures n <= |s|
    ensures forall i :: 0 <= i < n ==> !IsSpace(s[i])
    ensures n < |s| ==> IsSpace(s[n])
  {
    if s == "" || IsSpace(s[0]) then 0 else 1 + WordLength(s[1..])
  }

  ghost predicate IsWord(w: string) {
    w != "" && forall i :: 0 <= i < |w| ==> !IsSpace(w[i])
  }

  ghost predicate AreWords(words: seq<string>) {
    forall i :: 0 <= i < |words| ==> IsWord(words[i])
  }

  /** Python's `s.split()`. */
  function Words(s: string): (words: seq<string>)
    ensures AreWords(words)
  {
    if s == "" then []
    else if IsSpace(s[0]) then Words(s[1..])
    else [s[..WordLength(s)]] + Words(s[WordLength(s)..])
  }

  lemma WordLengthIs(s: string, n: nat)
    requires n <= |s| && (forall i :: 0 <= i < n ==> !IsSpace(s[i])) && (n < |s| ==> IsSpace(s[n]))
    ensures WordLength(s) == n
  {
  }

  lemma WordAlone(w: string)
    requires IsWord(w)
    ensures Words(w) == [w]
  {
    WordLengthIs(w, |w|);
    assert w[..|w|] == w && w[|w|..] == "";
  }

  /** White space, wherever it stands, ends one word and lets the next begin. */
  lemma {:induction false} WordsSplit(a: string, c: char, b: string)
    requires IsSpace(c)
    ensures Words(a + [c] + b) == Words(a) + Words(b)
    decreases |a|
  {
    var whole := a + [c] + b;
    if a == "" {
      assert whole[1..] == b;
    } else if IsSpace(a[0]) {
      assert whole[1..] == a[1..] + [c] + b;
      WordsSplit(a[1..], c, b);
    } else {
      var n := WordLength(a);
      assert forall i :: 0 <= i < n ==> whole[i] == a[i];
      assert whole[n] == if n < |a| then a[n] else c;
      WordLengthIs(whole, n);
      assert whole[..n] == a[..n] && whole[n..] == a[n..] + [c] + b;
      WordsSplit(a[n..], c, b);
      assert [a[..n]] + (Words(a[n..]) + Words(b)) == [a[..n]] + Words(a[n..]) + Words(b);
    }
  }

  /** Words joined by spaces are split into the same words. */
  lemma {:induction false} WordsOfJoined(words: seq<string>)
    requires AreWords(words)
    ensures Words(Join(words, " ")) == words
  {
    if words != [] {
      var front, last := words[..|words| - 1], words[|words| - 1];
      assert words == front + [last];
      WordAlone(last);
      if front == [] {
        JoinOne(last, " ");
      } else {
        JoinSnoc(front, last, " ");
        WordsOfJoined(front);
        WordsSplit(Join(front, " "), ' ', last);
      }
    }
  }

  /** A stretch without white space that white space or an end of the text stands around. */
  ghost predicate IsStretch(s: string, i: nat, j: nat) {
    && i < j <= |s| && (forall k :: i <= k < j ==> !IsSpace(s[k]))
    && (i > 0 ==> IsSpace(s[i - 1])) && (j < |s| ==> IsSpace(s[j]))
  }

  lemma StretchFirst(s: string, j: nat)
    requires IsStretch(s, 0, j)
    ensures Words(s) == [s[..j]] + Words(s[j..])
  {
    WordLengthIs(s, j);
  }

  /** White space ends the words before it. */
  lemma WordsBehind(s: string, i: nat)
    requires 0 < i <= |s| && IsSpace(s[i - 1])
    ensures Words(s) == Words(s[..i]) + Words(s[i..])
  {
    var before, c := s[..i - 1], s[i - 1];
    assert s == before + [c] + s[i..] && s[..i] == before + [c] + "";
    WordsSplit(before, c, s[i..]);
    WordsSplit(before, c, "");
    assert Words(before) + [] == Words(before);
  }

  /** Each such stretch is a word, between the words before it and those behind it. */
  lemma StretchIsWord(s: string, i: nat, j: nat)
    requires IsStretch(s, i, j)
    ensures Words(s) == Words(s[..i]) + [s[i..j]] + Words(s[j..])
  {
    if i == 0 {
      StretchFirst(s, j);
      assert s[..0] == "" && s[0..j] == s[..j];
    } else {
      StretchInRest(s, i, j);
      StretchFirst(s[i..], j - i);
      WordsBehind(s, i);
      Between(Words(s[..i]), s[i..j], Words(s[j..]));
    }
  }

  lemma StretchInRest(s: string, i: nat, j: nat)
    requires IsStretch(s, i, j)
    ensures IsStretch(s[i..], 0, j - i) && s[i..][..j - i] == s[i..j] && s[i..][j - i..] == s[j..]
  {
  }

  lemma Between<T>(a: seq<T>, x: T, b: seq<T>)
    ensures a + ([x] + b) == a + [x] + b
  {
  }

  /** The text without its white space. */
  function Squeeze(s: string): string {
    if s == "" then ""
    else Squeeze(s[..|s| - 1]) + if IsSpace(s[|s| - 1]) then "" else [s[|s| - 1]]
  }

  lemma {:induction false} SqueezeAppend(a: string, b: string)
    ensures Squeeze(a + b) == Squeeze(a) + Squeeze(b)
  {
    if b == "" {
      assert a + b == a;
    } else {
      assert (a + b)[..|a + b| - 1] == a + b[..|b| - 1];
      SqueezeAppend(a, b[..|b| - 1]);
    }
  }

  lemma {:induction false} SqueezeWord(w: string)
    requires forall i :: 0 <= i < |w| ==> !IsSpace(w[i])
    ensures Squeeze(w) == w
  {
    if w != "" {
      SqueezeWord(w[..|w| - 1]);
      AppendFront("", w);
    }
  }

  lemma {:induction false} WordsKeepText(s: string)
    ensures Flatten(Words(s)) == Squeeze(s)
    decreases |s|
  {
    if s != "" {
      if IsSpace(s[0]) {
        assert s == [s[0]] + s[1..];
        SqueezeAppend([s[0]], s[1..]);
        WordsKeepText(s[1..]);
      } else {
        var n := WordLength(s);
        assert s == s[..n] + s[n..];
        SqueezeAppend(s[..n], s[n..]);
        SqueezeWord(s[..n]);
        WordsKeepText(s[n..]);
      }
    }
  }

  /** An over-long word cut into pieces of `limit` characters and a rest. */
  function Pieces(word: string, limit: nat): seq<string>
    requires limit > 0
  {
    if |word| <= limit then (if word == "" then [] else [word])
    else [word[..limit]] + Pieces(word[limit..], limit)
  }

  lemma {:induction false} PiecesHold(word: string, limit: nat)
    requires limit > 0
    ensures Flatten(Pieces(word, limit)) == word
    ensures forall p :: p in Pieces(word, limit) ==> |p| <= limit
  {
    if |word| > limit {
      PiecesHold(word[limit..], limit);
      assert word == word[..limit] + word[limit..];
    } else if word != "" {
      assert [word][1..] == [];
    }
  }

  method CutWord(word: string, limit: nat) returns (pieces: seq<string>)
    requires limit > 0
    ensures pieces == Pieces(word, limit)
  {
    pieces := [];
    var start := 0;
    while start < |word|
      invariant 0 <= start
      invariant Pieces(word, limit) == pieces + if start < |word| then Pieces(word[start..], limit) else []
      decreases |word| - start
    {
      var end := start + limit;
      if end < |word| {
        assert word[start..][..limit] == word[start..end] && word[start..][limit..] == word[end..];
        pieces := pieces + [word[start..end]];
      } else {
        pieces := pieces + [word[start..]];
      }
      start := end;
    }
  }

  /** The chunks so far and the line being filled. */
  datatype Line = Line(chunks: seq<string>, current: string)

  /** One more word: it extends the line if it fits, or closes it; on an empty line an over-long word is cut. */
  function NextLine(line: Line, word: string, limit: nat): Line
    requires limit > 0
  {
    var candidate := if line.current != "" then line.current + " " + word else word;
    if |candidate| > limit && line.current != "" then Line(line.chunks + [line.current], word)
    else if |candidate| > limit then Line(line.chunks + Pieces(word, limit), "")
    else Line(line.chunks, candidate)
  }

  function SplitWords(words: seq<string>, limit: nat): Line
    requires limit > 0
  {
    if words == [] then Line([], "")
    else NextLine(SplitWords(words[..|words| - 1], limit), words[|words| - 1], limit)
  }

  function LinesOf(line: Line): seq<string> {
    line.chunks + if line.current == "" then [] else [line.current]
  }

  lemma ExtendedIsStripped(current: string, word: string)
    requires IsWord(word) && Stripped(current)
    ensures Stripped(word)
    ensures current != "" ==> Stripped(current + " " + word)
  {
  }

  lemma {:induction false} SplitIsStripped(words: seq<string>, limit: nat)
    requires limit > 0 && AreWords(words)
    ensures Stripped(SplitWords(words, limit).current)
  {
    if words != [] {
      SplitIsStripped(words[..|words| - 1], limit);
      ExtendedIsStripped(SplitWords(words[..|words| - 1], limit).current, words[|words| - 1]);
    }
  }

  /** One turn of the loop. */
  method AddWord(line: Line, word: string, limit: nat) returns (r: Line)
    requires limit > 0 && IsWord(word) && Stripped(line.current)
    ensures r == NextLine(line, word, limit)
  {
    ExtendedIsStripped(line.current, word);
    var candidate := if line.current != "" then Strip(line.current + " " + word) else word;
    if |candidate| > limit && line.current != "" {
      r := Line(line.chunks + [line.current], word);
    } else if |candidate| > limit {
      var pieces := CutWord(word, limit);
      r := Line(line.chunks + pieces, "");
    } else {
      r := Line(line.chunks, candidate);
    }
  }

  method SplitLongParagraph(paragraph: string) returns (chunks: seq<string>)
    ensures chunks == LinesOf(SplitWords(Words(paragraph), MAX_CHUNK_CHARS))
  {
    var line := Line([], "");
    var words := Words(paragraph);
    for i := 0 to |words|
      invariant line == SplitWords(words[..i], MAX_CHUNK_CHARS)
    {
      assert words[..i + 1][..i] == words[..i];
      SplitIsStripped(words[..i], MAX_CHUNK_CHARS);
      line := AddWord(line, words[i], MAX_CHUNK_CHARS);
    }
    assert words[..|words|] == words;
    return if line.current != "" then line.chunks + [line.current] else line.chunks;
  }

  // ----- what the splitter makes of the words -----

  /** A stretch of the words: put on one line, or an over-long word cut into pieces. */
  datatype Part = Whole(words: seq<string>) | Cut(word: string)

  function PartWords(part: Part): seq<string> {
    match part
    case Whole(words) => words
    case Cut(word) => [word]
  }

  function PartChunks(part: Part, limit: nat): seq<string>
    requires limit > 0
  {
    match part
    case Whole(words) => [Join(words, " ")]
    case Cut(word) => Pieces(word, limit)
  }

  function WordsOf(parts: seq<Part>): seq<string> {
    if parts == [] then [] else WordsOf(parts[..|parts| - 1]) + PartWords(parts[|parts| - 1])
  }

  function ChunksOf(parts: seq<Part>, limit: nat): seq<string>
    requires limit > 0
  {
    if parts == [] then [] else ChunksOf(parts[..|parts| - 1], limit) + PartChunks(parts[|parts| - 1], limit)
  }

  /**
   What may follow what: a line fits unless it is a single word behind another line, and a line
   behind another one starts with a word that did not fit there; only an over-long word is cut,
   and never behind a line.
   */
  ghost predicate MayFollow(before: Option<Part>, part: Part, limit: nat) {
    match part
    case Whole(words) =>
      && words != []
      && (|Join(words, " ")| > limit ==> |words| == 1 && before.Some? && before.value.Whole?)
      && (before.Some? && before.value.Whole? ==> |Join(before.value.words + [words[0]], " ")| > limit)
    case Cut(word) => |word| > limit && (before.Some? ==> before.value.Cut?)
  }

  function Before(parts: seq<Part>, i: nat): Option<Part>
    requires i <= |parts|
  {
    if i == 0 then None else Some(parts[i - 1])
  }

  /** The words split into parts as the splitter does it. */
  ghost predicate IsLayout(parts: seq<Part>, words: seq<string>, limit: nat) {
    && WordsOf(parts) == words
    && forall i :: 0 <= i < |parts| ==> MayFollow(Before(parts, i), parts[i], limit)
  }

  /** The parts closed and the words on the open line. */
  datatype Layout = Layout(done: seq<Part>, open: seq<string>)

  function PartsOf(l: Layout): seq<Part> {
    l.done + if l.open == [] then [] else [Whole(l.open)]
  }

  function NextLayout(l: Layout, word: string, limit: nat): Layout {
    if l.open != [] && |Join(l.open + [word], " ")| > limit then Layout(l.done + [Whole(l.open)], [word])
    else if l.open == [] && |word| > limit then Layout(l.done + [Cut(word)], [])
    else Layout(l.done, l.open + [word])
  }

  function LayoutOf(words: seq<string>, limit: nat): Layout {
    if words == [] then Layout([], []) else NextLayout(LayoutOf(words[..|words| - 1], limit), words[|words| - 1], limit)
  }

  lemma WordsSnoc(parts: seq<Part>, part: Part)
    ensures WordsOf(parts + [part]) == WordsOf(parts) + PartWords(part)
  {
    assert (parts + [part])[..|parts|] == parts;
  }

  lemma ChunksSnoc(parts: seq<Part>, part: Part, limit: nat)
    requires limit > 0
    ensures ChunksOf(parts + [part], limit) == ChunksOf(parts, limit) + PartChunks(part, limit)
  {
    assert (parts + [part])[..|parts|] == parts;
  }

  lemma LayoutSnoc(parts: seq<Part>, words: seq<string>, part: Part, limit: nat)
    requires IsLayout(parts, words, limit) && MayFollow(Before(parts, |parts|), part, limit)
    ensures IsLayout(parts + [part], words + PartWords(part), limit)
  {
    WordsSnoc(parts, part);
    var more := parts + [part];
    forall i | 0 <= i < |more| ensures MayFollow(Before(more, i), more[i], limit) {
      assert Before(more, i) == Before(parts, i);
    }
  }

  lemma LayoutFront(parts: seq<Part>, part: Part, words: seq<string>, limit: nat)
    requires IsLayout(parts + [part], words, limit)
    ensures IsLayout(parts, WordsOf(parts), limit) && MayFollow(Before(parts, |parts|), part, limit)
    ensures words == WordsOf(parts) + PartWords(part)
  {
    WordsSnoc(parts, part);
    var more := parts + [part];
    assert MayFollow(Before(more, |parts|), more[|parts|], limit);
    forall i | 0 <= i < |parts| ensures MayFollow(Before(parts, i), parts[i], limit) {
      assert MayFollow(Before(more, i), more[i], limit);
    }
  }

  /** A layout whose open line is empty only at the start or behind a cut word. */
  ghost predicate LayoutHolds(l: Layout, words: seq<string>, limit: nat) {
    IsLayout(PartsOf(l), words, limit) && (l.open == [] && l.done != [] ==> l.done[|l.done| - 1].Cut?)
  }

  lemma EmptyLineKeepsLayout(done: seq<Part>, words: seq<string>, word: string, limit: nat)
    requires IsLayout(done, words, limit) && (done != [] ==> done[|done| - 1].Cut?)
    ensures IsLayout(done + [if |word| > limit then Cut(word) else Whole([word])], words + [word], limit)
  {
    JoinOne(word, " ");
    LayoutSnoc(done, words, if |word| > limit then Cut(word) else Whole([word]), limit);
  }

  lemma CloseKeepsLayout(done: seq<Part>, open: seq<string>, words: seq<string>, word: string, limit: nat)
    requires IsLayout(done + [Whole(open)], words, limit) && |Join(open + [word], " ")| > limit
    ensures IsLayout(done + [Whole(open)] + [Whole([word])], words + [word], limit)
  {
    var parts := done + [Whole(open)];
    assert Before(parts, |parts|) == Some(Whole(open));
    LayoutSnoc(parts, words, Whole([word]), limit);
  }

  lemma LongerMayFollow(before: Option<Part>, open: seq<string>, word: string, limit: nat)
    requires open != [] && MayFollow(before, Whole(open), limit) && |Join(open + [word], " ")| <= limit
    ensures MayFollow(before, Whole(open + [word]), limit)
  {
    assert (open + [word])[0] == open[0];
  }

  lemma ExtendKeepsLayout(done: seq<Part>, open: seq<string>, words: seq<string>, word: string, limit: nat)
    requires open != [] && IsLayout(done + [Whole(open)], words, limit) && |Join(open + [word], " ")| <= limit
    ensures IsLayout(done + [Whole(open + [word])], words + [word], limit)
  {
    LayoutFront(done, Whole(open), words, limit);
    LongerMayFollow(Before(done, |done|), open, word, limit);
    LayoutSnoc(done, WordsOf(done), Whole(open + [word]), limit);
    Reassociate(WordsOf(done), open, [word]);
  }

  lemma PartsOfOpen(done: seq<Part>, open: seq<string>)
    ensures open != [] ==> PartsOf(Layout(done, open)) == done + [Whole(open)]
    ensures open == [] ==> PartsOf(Layout(done, open)) == done
  {
  }

  lemma NextKeepsLayout(l: Layout, words: seq<string>, word: string, limit: nat)
    requires LayoutHolds(l, words, limit)
    ensures LayoutHolds(NextLayout(l, word, limit), words + [word], limit)
  {
    PartsOfOpen(l.done, l.open);
    if l.open == [] {
      EmptyLineKeepsLayout(l.done, words, word, limit);
      if |word| > limit {
        PartsOfOpen(l.done + [Cut(word)], []);
        assert (l.done + [Cut(word)])[|l.done|] == Cut(word);
      } else {
        assert l.open + [word] == [word];
        PartsOfOpen(l.done, [word]);
      }
    } else if |Join(l.open + [word], " ")| > limit {
      CloseKeepsLayout(l.done, l.open, words, word, limit);
      PartsOfOpen(l.done + [Whole(l.open)], [word]);
    } else {
      ExtendKeepsLayout(l.done, l.open, words, word, limit);
      PartsOfOpen(l.done, l.open + [word]);
    }
  }

  lemma {:induction false} LayoutIsLayout(words: seq<string>, limit: nat)
    ensures LayoutHolds(LayoutOf(words, limit), words, limit)
  {
    if words != [] {
      var front, word := words[..|words| - 1], words[|words| - 1];
      assert words == front + [word];
      LayoutIsLayout(front, limit);
      NextKeepsLayout(LayoutOf(front, limit), front, word, limit);
    }
  }

  /** The line of the splitter and the layout hold the same text. */
  ghost predicate SameText(line: Line, l: Layout, limit: nat)
    requires limit > 0
  {
    line.chunks == ChunksOf(l.done, limit) && line.current == Join(l.open, " ") && (line.current == "" <==> l.open == [])
  }

  lemma NextKeepsSameText(line: Line, l: Layout, word: string, limit: nat)
    requires limit > 0 && word != "" && SameText(line, l, limit)
    ensures SameText(NextLine(line, word, limit), NextLayout(l, word, limit), limit)
  {
    JoinOne(word, " ");
    if l.open == [] {
      ChunksSnoc(l.done, Cut(word), limit);
      assert l.open + [word] == [word];
    } else {
      JoinSnoc(l.open, word, " ");
      ChunksSnoc(l.done, Whole(l.open), limit);
    }
  }

  lemma {:induction false} SplitIsLayout(words: seq<string>, limit: nat)
    requires limit > 0 && AreWords(words)
    ensures SameText(SplitWords(words, limit), LayoutOf(words, limit), limit)
  {
    if words != [] {
      var front, word := words[..|words| - 1], words[|words| - 1];
      SplitIsLayout(front, limit);
      NextKeepsSameText(SplitWords(front, limit), LayoutOf(front, limit), word, limit);
    }
  }

  lemma SqueezeSpace(text: string)
    ensures Squeeze(text + " ") == Squeeze(text)
  {
    assert (text + " ")[..|text|] == text;
  }

  /** Joining words with spaces adds nothing but white space. */
  lemma {:induction false} SqueezeJoin(words: seq<string>)
    requires AreWords(words)
    ensures Squeeze(Join(words, " ")) == Flatten(words)
  {
    if words != [] {
      var front, word := words[..|words| - 1], words[|words| - 1];
      assert words == front + [word];
      SqueezeWord(word);
      FlattenSnoc(front, word);
      SqueezeJoin(front);
      if front == [] {
        JoinOne(word, " ");
      } else {
        JoinSnoc(front, word, " ");
        SqueezeAppend(Join(front, " ") + " ", word);
        SqueezeSpace(Join(front, " "));
      }
    }
  }

  lemma PartKeepsText(part: Part, limit: nat)
    requires limit > 0 && AreWords(PartWords(part))
    ensures Squeeze(Flatten(PartChunks(part, limit))) == Flatten(PartWords(part))
  {
    match part
    case Whole(words) =>
      SqueezeJoin(words);
      FlattenOne(Join(words, " "));
    case Cut(word) =>
      PiecesHold(word, limit);
      assert IsWord(PartWords(part)[0]);
      SqueezeWord(word);
      FlattenOne(word);
  }

  lemma FlattenOne<T>(one: seq<T>)
    ensures Flatten([one]) == one
  {
    assert [one][1..] == [];
  }

  lemma {:induction false} LayoutKeepsText(parts: seq<Part>, limit: nat)
    requires limit > 0 && AreWords(WordsOf(parts))
    ensures Squeeze(Flatten(ChunksOf(parts, limit))) == Flatten(WordsOf(parts))
  {
    if parts != [] {
      var front, part := parts[..|parts| - 1], parts[|parts| - 1];
      var words := WordsOf(front);
      assert forall i :: 0 <= i < |words| ==> WordsOf(parts)[i] == words[i];
      assert forall i :: 0 <= i < |PartWords(part)| ==> WordsOf(parts)[|words| + i] == PartWords(part)[i];
      LayoutKeepsText(front, limit);
      PartKeepsText(part, limit);
      FlattenAppend(words, PartWords(part));
      FlattenAppend(ChunksOf(front, limit), PartChunks(part, limit));
      SqueezeAppend(Flatten(ChunksOf(front, limit)), Flatten(PartChunks(part, limit)));
    }
  }

  /** Only a whole word can exceed the limit. */
  lemma {:induction false} SplitFits(words: seq<string>, limit: nat)
    requires limit > 0
    ensures forall c :: c in LinesOf(SplitWords(words, limit)) && |c| > limit ==> c in words
  {
    if words != [] {
      var front, word := words[..|words| - 1], words[|words| - 1];
      assert words == front + [word];
      SplitFits(front, limit);
      PiecesHold(word, limit);
      var before, pieces := LinesOf(SplitWords(front, limit)), Pieces(word, limit);
      forall c | c in LinesOf(SplitWords(words, limit)) && |c| > limit ensures c in words {
        assert c in before || c == word || c in pieces;
      }
    }
  }

  /** The line and the packing hold the same text. */
  ghost predicate Same(line: Line, p: Packing) {
    && line.chunks == Render(p.closed, " ") && line.current == Join(p.current, " ")
    && (line.current == "" <==> p.current == [])
  }

  /** One more word keeps them the same, when it is not over-long. */
  lemma NextIsSame(line: Line, p: Packing, word: string, limit: nat)
    requires limit > 0 && word != "" && |word| <= limit && Same(line, p)
    ensures Same(NextLine(line, word, limit), Next(p, word, " ", limit))
  {
    RenderSnoc(p.closed, p.current, " ");
    JoinOne(word, " ");
    if p.current != [] {
      JoinSnoc(p.current, word, " ");
    } else {
      assert p.current + [word] == [word];
    }
  }

  /** Without over-long words the splitter is the greedy packing, so it is optimal as well. */
  lemma {:induction false} SplitIsPacking(words: seq<string>, limit: nat)
    requires limit > 0 && AreWords(words) && forall i :: 0 <= i < |words| ==> |words[i]| <= limit
    ensures Same(SplitWords(words, limit), Pack(words, " ", limit))
  {
    if words != [] {
      var front, word := words[..|words| - 1], words[|words| - 1];
      SplitIsPacking(front, limit);
      NextIsSame(SplitWords(front, limit), Pack(front, " ", limit), word, limit);
    }
  }

  lemma LinesRenderGroups(words: seq<string>, limit: nat)
    requires limit > 0 && AreWords(words) && forall i :: 0 <= i < |words| ==> |words[i]| <= limit
    ensures LinesOf(SplitWords(words, limit)) == Render(GroupsOf(Pack(words, " ", limit)), " ")
  {
    SplitIsPacking(words, limit);
    var p := Pack(words, " ", limit);
    RenderSnoc(p.closed, p.current, " ");
    assert p.current == [] ==> GroupsOf(p) == p.closed;
  }

  lemma LinesAreChunks(words: seq<string>, limit: nat)
    requires limit > 0 && AreWords(words)
    ensures LinesOf(SplitWords(words, limit)) == ChunksOf(PartsOf(LayoutOf(words, limit)), limit)
  {
    var l := LayoutOf(words, limit);
    SplitIsLayout(words, limit);
    if l.open == [] {
      assert PartsOf(l) == l.done;
    } else {
      ChunksSnoc(l.done, Whole(l.open), limit);
    }
  }

  /**
   The chunks of a long paragraph are the lines and pieces of a layout of its words: every word
   is whole on one line or cut into pieces of its own, an over-long word is left whole exactly
   behind a line, and no line could take the word behind it.  So no character but white space is
   lost, added or moved, and a chunk over 500 characters is one over-long word.
   */
  lemma ParagraphSplitIsFaithful(paragraph: string)
    ensures var words, chunks := Words(paragraph), LinesOf(SplitWords(Words(paragraph), MAX_CHUNK_CHARS));
            && (exists parts :: IsLayout(parts, words, MAX_CHUNK_CHARS) && chunks == ChunksOf(parts, MAX_CHUNK_CHARS))
            && Squeeze(Flatten(chunks)) == Squeeze(paragraph)
            && (forall c :: c in chunks && |c| > MAX_CHUNK_CHARS ==> c in words)
  {
    var words := Words(paragraph);
    var parts := PartsOf(LayoutOf(words, MAX_CHUNK_CHARS));
    LayoutIsLayout(words, MAX_CHUNK_CHARS);
    LinesAreChunks(words, MAX_CHUNK_CHARS);
    LayoutKeepsText(parts, MAX_CHUNK_CHARS);
    SplitFits(words, MAX_CHUNK_CHARS);
    WordsKeepText(paragraph);
  }

  // ----- where a word stands -----

  /** The word stands whole in chunk `c`, between spaces or ends of the chunk, behind the given characters. */
  ghost predicate StandsAt(chunks: seq<string>, w: string, before: string, c: nat, o: nat) {
    && c < |chunks| && o + |w| <= |chunks[c]| && chunks[c][o..o + |w|] == w
    && (o > 0 ==> chunks[c][o - 1] == ' ') && (o + |w| < |chunks[c]| ==> chunks[c][o + |w|] == ' ')
    && Squeeze(Flatten(chunks[..c]) + chunks[c][..o]) == before
  }

  ghost predicate Stands(chunks: seq<string>, w: string, before: string) {
    exists c: nat, o: nat :: StandsAt(chunks, w, before, c, o)
  }

  /** Further chunks change nothing. */
  lemma StandsInMore(chunks: seq<string>, more: seq<string>, w: string, before: string)
    requires Stands(chunks, w, before)
    ensures Stands(chunks + more, w, before)
  {
    var c: nat, o: nat :| StandsAt(chunks, w, before, c, o);
    assert (chunks + more)[..c] == chunks[..c];
    assert StandsAt(chunks + more, w, before, c, o);
  }

  /** Neither does another word behind a space on the last chunk. */
  lemma StandsInLonger(chunks: seq<string>, last: string, x: string, w: string, before: string)
    requires Stands(chunks + [last], w, before)
    ensures Stands(chunks + [last + " " + x], w, before)
  {
    var c: nat, o: nat :| StandsAt(chunks + [last], w, before, c, o);
    var longer := chunks + [last + " " + x];
    assert longer[..c] == (chunks + [last])[..c];
    if c == |chunks| {
      assert longer[c][o..o + |w|] == last[o..o + |w|] && longer[c][..o] == last[..o];
    }
    assert StandsAt(longer, w, before, c, o);
  }

  lemma StandsStays(line: Line, x: string, limit: nat, w: string, before: string)
    requires limit > 0 && Stands(LinesOf(line), w, before)
    ensures Stands(LinesOf(NextLine(line, x, limit)), w, before)
  {
    var next := NextLine(line, x, limit);
    if line.current == "" {
      assert LinesOf(line) == line.chunks;
      if |x| > limit {
        assert LinesOf(next) == line.chunks + Pieces(x, limit);
        StandsInMore(line.chunks, Pieces(x, limit), w, before);
      } else {
        StandsInMore(line.chunks, if x == "" then [] else [x], w, before);
      }
    } else if |line.current + " " + x| > limit {
      StandsInMore(LinesOf(line), if x == "" then [] else [x], w, before);
    } else {
      StandsInLonger(line.chunks, line.current, x, w, before);
    }
  }

  lemma SpacedBefore(chunks: seq<string>, current: string)
    ensures Squeeze(Flatten(chunks) + (current + " ")) == Squeeze(Flatten(chunks) + current)
  {
    assert Flatten(chunks) + (current + " ") == Flatten(chunks) + current + " ";
    SqueezeSpace(Flatten(chunks) + current);
  }

  lemma NewLine(chunks: seq<string>, w: string)
    ensures StandsAt(chunks + [w], w, Squeeze(Flatten(chunks)), |chunks|, 0)
  {
    var lines := chunks + [w];
    assert lines[..|chunks|] == chunks && lines[|chunks|] == w && w[0..|w|] == w;
    assert Flatten(chunks) + w[..0] == Flatten(chunks);
  }

  lemma SameLine(chunks: seq<string>, current: string, w: string)
    ensures StandsAt(chunks + [current + " " + w], w, Squeeze(Flatten(chunks) + current), |chunks|, |current| + 1)
  {
    var last := current + " " + w;
    var lines, o := chunks + [last], |current| + 1;
    EndOfLine(current, w);
    assert lines[..|chunks|] == chunks && lines[|chunks|] == last;
    SpacedBefore(chunks, current);
    assert Squeeze(Flatten(lines[..|chunks|]) + last[..o]) == Squeeze(Flatten(chunks) + current);
  }

  lemma EndOfLine(current: string, w: string)
    ensures var last, o := current + " " + w, |current| + 1;
            |last| == o + |w| && last[o - 1] == ' ' && last[..o] == current + " " && last[o..o + |w|] == w
  {
    var last := current + " " + w;
    assert last[|current| + 1..] == w;
  }

  /** A word that is not over-long is put whole behind what was there. */
  lemma WordArrives(line: Line, w: string, limit: nat)
    requires 0 < |w| <= limit
    ensures Stands(LinesOf(NextLine(line, w, limit)), w, Squeeze(Flatten(line.chunks) + line.current))
  {
    if line.current == "" {
      NewLine(line.chunks, w);
      assert Flatten(line.chunks) + "" == Flatten(line.chunks);
    } else if |line.current + " " + w| > limit {
      NewLine(line.chunks + [line.current], w);
      FlattenSnoc(line.chunks, line.current);
    } else {
      SameLine(line.chunks, line.current, w);
    }
  }

  lemma LinesFlat(line: Line)
    ensures Flatten(LinesOf(line)) == Flatten(line.chunks) + line.current
  {
    if line.current == "" {
      assert LinesOf(line) == line.chunks && Flatten(line.chunks) + "" == Flatten(line.chunks);
    } else {
      FlattenSnoc(line.chunks, line.current);
    }
  }

  /** The lines hold the characters of the words, in order. */
  lemma SplitKeepsText(words: seq<string>, limit: nat)
    requires limit > 0 && AreWords(words)
    ensures Squeeze(Flatten(LinesOf(SplitWords(words, limit)))) == Flatten(words)
  {
    LayoutIsLayout(words, limit);
    LinesAreChunks(words, limit);
    LayoutKeepsText(PartsOf(LayoutOf(words, limit)), limit);
  }

  lemma {:induction false} WordStandsWhole(front: seq<string>, w: string, back: seq<string>, limit: nat)
    requires AreWords(front) && 0 < |w| <= limit
    ensures Stands(LinesOf(SplitWords(front + [w] + back, limit)), w, Flatten(front))
    decreases |back|
  {
    var words := front + [w] + back;
    if back == [] {
      assert words[..|words| - 1] == front;
      SplitKeepsText(front, limit);
      LinesFlat(SplitWords(front, limit));
      WordArrives(SplitWords(front, limit), w, limit);
    } else {
      var x := back[|back| - 1];
      assert words[..|words| - 1] == front + [w] + back[..|back| - 1];
      WordStandsWhole(front, w, back[..|back| - 1], limit);
      StandsStays(SplitWords(words[..|words| - 1], limit), x, limit, w, Flatten(front));
    }
  }

  /**
   Every stretch of at most 500 characters without white space stands whole in one chunk, with
   nothing but a space or an end of the chunk around it, and behind exactly the characters that
   are before it in the paragraph.
   */
  lemma StretchStandsWhole(paragraph: string, i: nat, j: nat)
    requires IsStretch(paragraph, i, j) && j - i <= MAX_CHUNK_CHARS
    ensures var chunks := LinesOf(SplitWords(Words(paragraph), MAX_CHUNK_CHARS));
            Stands(chunks, paragraph[i..j], Squeeze(paragraph[..i]))
  {
    StretchIsWord(paragraph, i, j);
    WordsKeepText(paragraph[..i]);
    WordStandsWhole(Words(paragraph[..i]), paragraph[i..j], Words(paragraph[j..]), MAX_CHUNK_CHARS);
  }

  /**
   When no word is over-long, the chunks joined by spaces are the words joined by spaces, and no
   other way to put the words into chunks that fit needs fewer.
   */
  lemma ParagraphSplitIsFewest(paragraph: string, other: seq<Group>)
    requires forall w :: w in Words(paragraph) ==> |w| <= MAX_CHUNK_CHARS
    ensures var words := Words(paragraph);
            var chunks := LinesOf(SplitWords(words, MAX_CHUNK_CHARS));
            && Join(chunks, " ") == Join(words, " ") && Words(Join(chunks, " ")) == words
            && (IsGrouping(other, words, " ", MAX_CHUNK_CHARS) ==> |chunks| <= |other|)
  {
    var words := Words(paragraph);
    WordsOfJoined(words);
    LinesRenderGroups(words, MAX_CHUNK_CHARS);
    var groups := GroupsOf(Pack(words, " ", MAX_CHUNK_CHARS));
    PackIsGrouping(words, " ", MAX_CHUNK_CHARS);
    RenderKeepsText(groups, " ");
    RenderHolds(groups, " ");
    if IsGrouping(other, words, " ", MAX_CHUNK_CHARS) {
      GreedyIsOptimal(words, other, " ", MAX_CHUNK_CHARS);
    }
  }
}
