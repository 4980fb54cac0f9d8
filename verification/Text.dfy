/** Python's string operations that several components rely on. */
module Text {
  import opened Common

  /** Python's `part in s` on strings. */
  predicate Contains(s: string, part: string) {
    exists i :: 0 <= i <= |s| && part <= s[i..]
  }

  ghost predicate Surrounds(s: string, a: string, part: string, b: string) {
    s == a + part + b
  }

  lemma ContainsMeans(s: string, part: string)
    ensures Contains(s, part) <==> exists a, b :: Surrounds(s, a, part, b)
  {
    if i :| 0 <= i <= |s| && part <= s[i..] {
      assert s == s[..i] + part + s[i + |part|..];
      assert Surrounds(s, s[..i], part, s[i + |part|..]);
    }
    if a, b :| Surrounds(s, a, part, b) {
      assert s[|a|..] == part + b;
    }
  }

  /** Python's `c.isspace()`. */
  predicate IsSpace(c: char) {
    || c == ' ' || '\t' <= c <= '\r' || '\U{1C}' <= c <= '\U{1F}' || c == '\U{85}' || c == '\U{A0}'
    || c == '\U{1680}' || '\U{2000}' <= c <= '\U{200A}' || c == '\U{2028}' || c == '\U{2029}'
    || c == '\U{202F}' || c == '\U{205F}' || c == '\U{3000}'
  }

  lemma SpacesAre(c: char)
    ensures IsSpace(c) <==> c in "\U{09}\n\U{0B}\U{0C}\r\U{1C}\U{1D}\U{1E}\U{1F} \U{85}\U{A0}\U{1680}\U{2000}\U{2001}\U{2002}\U{2003}"
                                + "\U{2004}\U{2005}\U{2006}\U{2007}\U{2008}\U{2009}\U{200A}\U{2028}\U{2029}\U{202F}\U{205F}\U{3000}"
  {
  }

  function StripLeft(s: string): (r: string)
    ensures r != "" ==> !IsSpace(r[0])
    ensures s != "" && !IsSpace(s[0]) ==> r == s
    ensures r != "" ==> s != "" && r[|r| - 1] == s[|s| - 1]
    ensures |r| <= |s|
  {
    if s != "" && IsSpace(s[0]) then StripLeft(s[1..]) else s
  }

  function StripRight(s: string): (r: string)
    ensures r <= s
    ensures r != "" ==> !IsSpace(r[|r| - 1])
    ensures s != "" && !IsSpace(s[|s| - 1]) ==> r == s
  {
    if s != "" && IsSpace(s[|s| - 1]) then StripRight(s[..|s| - 1]) else s
  }

  /** Neither end is white space. */
  predicate Stripped(s: string) {
    s != "" ==> !IsSpace(s[0]) && !IsSpace(s[|s| - 1])
  }

  /** Python's `s.strip()`. */
  function Strip(s: string): (r: string)
    ensures Stripped(r)
    ensures Stripped(s) ==> r == s
    ensures |r| <= |s|
  {
    StripRight(StripLeft(s))
  }

  predicate AllSpace(s: string) {
    forall i :: 0 <= i < |s| ==> IsSpace(s[i])
  }

  lemma SpaceMore(c: char, rest: string)
    requires IsSpace(c) && AllSpace(rest)
    ensures AllSpace([c] + rest) && AllSpace(rest + [c])
  {
  }

  lemma Behind(a: string, b: string, c: string)
    ensures a + b + c == a + (b + c)
  {
  }

  lemma StripLeftOne(s: string, rest: string)
    requires s != "" && IsSpace(s[0]) && s[1..] == rest + StripLeft(s[1..])
    ensures s == [s[0]] + rest + StripLeft(s)
  {
    Behind([s[0]], rest, StripLeft(s));
    assert s == [s[0]] + s[1..];
  }

  lemma {:induction false} StripLeftMeans(s: string) returns (a: string)
    ensures s == a + StripLeft(s) && AllSpace(a)
  {
    a := "";
    if s != "" && IsSpace(s[0]) {
      var rest := StripLeftMeans(s[1..]);
      SpaceMore(s[0], rest);
      StripLeftOne(s, rest);
      a := [s[0]] + rest;
    }
  }

  lemma {:induction false} StripRightMeans(s: string) returns (b: string)
    ensures s == StripRight(s) + b && AllSpace(b)
  {
    b := "";
    if s != "" && IsSpace(s[|s| - 1]) {
      var rest := StripRightMeans(s[..|s| - 1]);
      b := rest + [s[|s| - 1]];
      SpaceMore(s[|s| - 1], rest);
      Behind(StripRight(s), rest, [s[|s| - 1]]);
      assert s == s[..|s| - 1] + [s[|s| - 1]];
    }
  }

  /** Only white space is taken away, and only at the ends. */
  lemma StripMeans(s: string) returns (a: string, b: string)
    ensures s == a + Strip(s) + b && AllSpace(a) && AllSpace(b)
  {
    a := StripLeftMeans(s);
    b := StripRightMeans(StripLeft(s));
    Behind(a, Strip(s), b);
  }

  /** Python's `separator.join(parts)`. */
  function Join(parts: seq<string>, separator: string): string {
    if parts == [] then ""
    else if |parts| == 1 then parts[0]
    else Join(parts[..|parts| - 1], separator) + separator + parts[|parts| - 1]
  }

  lemma JoinOne(part: string, separator: string)
    ensures Join([part], separator) == part
  {
  }

  lemma JoinSnoc(parts: seq<string>, last: string, separator: string)
    requires parts != []
    ensures Join(parts + [last], separator) == Join(parts, separator) + separator + last
  {
    assert (parts + [last])[..|parts|] == parts;
  }

  lemma {:induction false} JoinAppend(a: seq<string>, b: seq<string>, separator: string)
    requires a != [] && b != []
    ensures Join(a + b, separator) == Join(a, separator) + separator + Join(b, separator)
  {
    var front, last := b[..|b| - 1], b[|b| - 1];
    AppendFront(a, b);
    JoinSnoc(a + front, last, separator);
    if front == [] {
      AppendNothing(a);
    } else {
      JoinAppend(a, front, separator);
      JoinSnoc(front, last, separator);
      Regroup(Join(a, separator), separator, Join(front, separator), separator, last);
    }
  }

  lemma Regroup<T>(a: seq<T>, b: seq<T>, c: seq<T>, d: seq<T>, e: seq<T>)
    ensures a + b + c + d + e == a + b + (c + d + e)
  {
  }

  lemma JoinOfSuffixIsShorter(parts: seq<string>, k: nat, separator: string)
    requires k < |parts|
    ensures |Join(parts[k..], separator)| <= |Join(parts, separator)|
  {
    if k > 0 {
      assert parts == parts[..k] + parts[k..];
      JoinAppend(parts[..k], parts[k..], separator);
    }
  }

  lemma JoinOfPrefixIsShorter(parts: seq<string>, k: nat, separator: string)
    requires 0 < k <= |parts|
    ensures |Join(parts[..k], separator)| <= |Join(parts, separator)|
  {
    if k < |parts| {
      assert parts == parts[..k] + parts[k..];
      JoinAppend(parts[..k], parts[k..], separator);
    } else {
      assert parts[..k] == parts;
    }
  }
}
