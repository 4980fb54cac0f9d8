/** Small datatypes and sequence facts shared by the component models. */
module Common {

  datatype Option<+T> = None | Some(value: T)

  datatype Result<+T, +E> = Ok(value: T) | Err(error: E)

  /** No element occurs twice. */
  ghost predicate Distinct<T>(s: seq<T>) {
    forall i, j :: 0 <= i < j < |s| ==> s[i] != s[j]
  }

  function Elements<T>(s: seq<T>): set<T> {
    set x | x in s
  }

  lemma AppendNothing<T>(a: seq<T>)
    ensures a + [] == a
  {
  }

  lemma AppendFront<T>(a: seq<T>, b: seq<T>)
    requires b != []
    ensures b == b[..|b| - 1] + [b[|b| - 1]]
    ensures a + b == (a + b[..|b| - 1]) + [b[|b| - 1]]
  {
  }

  /** The concatenation of all the sequences in `parts`. */
  function Flatten<T>(parts: seq<seq<T>>): seq<T> {
    if parts == [] then [] else parts[0] + Flatten(parts[1..])
  }

  lemma {:induction false} FlattenAppend<T>(a: seq<seq<T>>, b: seq<seq<T>>)
    ensures Flatten(a + b) == Flatten(a) + Flatten(b)
  {
    if a == [] {
      assert a + b == b;
    } else {
      FlattenAppend(a[1..], b);
      assert (a + b)[1..] == a[1..] + b;
      assert a[0] + (Flatten(a[1..]) + Flatten(b)) == a[0] + Flatten(a[1..]) + Flatten(b);
    }
  }

  /** Pigeonhole: a sequence without repetition is no longer than a set that holds its elements. */
  lemma {:induction false} DistinctFits<T>(s: seq<T>, universe: set<T>)
    requires Distinct(s)
    requires forall x :: x in s ==> x in universe
    ensures |s| <= |universe|
  {
    if s != [] {
      var rest := s[1..];
      assert s[0] !in rest;
      forall x | x in rest ensures x in universe - {s[0]} {
        assert x in s;
      }
      assert s[0] in universe;
      DistinctFits(rest, universe - {s[0]});
    }
  }

  lemma DistinctFirst<T>(x: T, rest: seq<T>)
    ensures Distinct([x] + rest) <==> x !in rest && Distinct(rest)
  {
    var s := [x] + rest;
    assert forall i :: 0 <= i < |rest| ==> rest[i] == s[i + 1];
    if x in rest {
      var j :| 0 <= j < |rest| && rest[j] == x;
      assert s[0] == s[j + 1];
    }
    if x !in rest && Distinct(rest) {
      forall i, j | 0 <= i < j < |s| ensures s[i] != s[j] {
        assert s[j] == rest[j - 1];
      }
    }
  }

  lemma ElementsFirst<T>(x: T, rest: seq<T>)
    ensures Elements([x] + rest) == {x} + Elements(rest)
    ensures x in Elements(rest) <==> x in rest
  {
  }

  /** Python's `len(xs) == len(set(xs))` test says exactly that `xs` has no repetition. */
  lemma {:induction false} SizeTestsDistinct<T>(s: seq<T>)
    ensures |Elements(s)| <= |s|
    ensures |Elements(s)| == |s| <==> Distinct(s)
  {
    if s != [] {
      var rest := s[1..];
      SizeTestsDistinct(rest);
      assert s == [s[0]] + rest;
      ElementsFirst(s[0], rest);
      DistinctFirst(s[0], rest);
      if s[0] in rest {
        assert Elements(s) == Elements(rest);
      }
    }
  }

  /** Of two ways to split at a separator, the later one has it inside its head, the earlier inside its tail. */
  lemma LaterSplit<T>(a: seq<T>, x: seq<T>, b: seq<T>, y: seq<T>, separator: T)
    requires a + [separator] + x == b + [separator] + y
    ensures |a| < |b| ==> separator in b && separator in x
    ensures |a| == |b| ==> a == b && x == y
  {
    var whole := a + [separator] + x;
    assert whole[|a|] == separator && whole[|b|] == separator;
    if |a| < |b| {
      assert b[|a|] == whole[|a|];
      assert x[|b| - |a| - 1] == whole[|b|];
    } else if |a| == |b| {
      assert whole[..|a|] == a && whole[..|b|] == b;
      assert whole[|a| + 1..] == x && whole[|b| + 1..] == y;
    }
  }
}
