/** Sequence helpers shared by the model: concatenation of a list of strings, the
    separator join of `Array.prototype.join` / `str.join`, and its inverse. */
module Sequences {

  /** Concatenation of all parts in order, with no separator (`'' + a + b + ...`). */
  function Flatten<T>(parts: seq<seq<T>>): (whole: seq<T>)
    decreases |parts|
  {
    if |parts| == 0 then [] else Flatten(parts[..|parts| - 1]) + parts[|parts| - 1]
  }

  lemma {:induction false} FlattenAppend<T>(a: seq<seq<T>>, b: seq<seq<T>>)
    ensures Flatten(a + b) == Flatten(a) + Flatten(b)
    decreases |b|
  {
    if |b| == 0 {
      assert a + b == a;
    } else {
      var last := |b| - 1;
      assert (a + b)[..|a + b| - 1] == a + b[..last];
      FlattenAppend(a, b[..last]);
    }
  }

  /** Appending one part appends its elements. */
  lemma FlattenSnoc<T>(parts: seq<seq<T>>, last: seq<T>)
    ensures Flatten(parts + [last]) == Flatten(parts) + last
  {
    assert (parts + [last])[..|parts|] == parts;
  }

  /** A concatenation begins with its first part. */
  lemma {:induction false} FlattenStartsWithFirst<T>(parts: seq<seq<T>>)
    requires |parts| > 0
    ensures |parts[0]| <= |Flatten(parts)| && Flatten(parts)[..|parts[0]|] == parts[0]
  {
    FlattenAppend([parts[0]], parts[1..]);
    assert [parts[0]] + parts[1..] == parts;
    assert Flatten([parts[0]]) == parts[0] by {
      assert [parts[0]][..0] == [];
    }
  }

  /** Concatenations of one, two and three parts. */
  lemma FlattenSmall<T>(x: seq<T>, y: seq<T>, z: seq<T>)
    ensures Flatten([x]) == x
    ensures Flatten([x, y]) == x + y
    ensures Flatten([x, y, z]) == x + y + z
  {
    assert [x][..0] == [];
    assert [x, y][..1] == [x];
    assert [x, y, z][..2] == [x, y];
  }

  /** A separator that occurs in no part does not occur in their concatenation. */
  lemma {:induction false} FlattenAvoids<T>(parts: seq<seq<T>>, sep: T)
    requires forall i :: 0 <= i < |parts| ==> sep !in parts[i]
    ensures sep !in Flatten(parts)
    decreases |parts|
  {
    if |parts| > 0 {
      FlattenAvoids(parts[..|parts| - 1], sep);
    }
  }

  /** `parts.join(sep)` / `sep.join(parts)`: the parts in order with one `sep` between
      neighbours; empty for no parts. The result starts with the first part, and it is as
      long as all parts together plus one separator between each pair of neighbours. */
  function Join<T>(parts: seq<seq<T>>, sep: T): (joined: seq<T>)
    ensures |parts| == 0 ==> joined == []
    ensures |parts| > 0 ==> |joined| == |Flatten(parts)| + |parts| - 1
    ensures |parts| > 0 ==> |parts[0]| <= |joined| && joined[..|parts[0]|] == parts[0]
    decreases |parts|
  {
    if |parts| == 0 then []
    else
      FlattenCons(parts);
      if |parts| == 1 then parts[0]
      else
        var joined := parts[0] + [sep] + Join(parts[1..], sep);
        assert joined[..|parts[0]|] == parts[0];
        joined
  }

  /** A concatenation is its first part followed by the concatenation of the rest. */
  lemma FlattenCons<T>(parts: seq<seq<T>>)
    requires |parts| > 0
    ensures Flatten(parts) == parts[0] + Flatten(parts[1..])
  {
    FlattenAppend([parts[0]], parts[1..]);
    assert [parts[0]] + parts[1..] == parts;
    assert Flatten([parts[0]]) == parts[0] by {
      assert [parts[0]][..0] == [];
    }
  }

  /** Joining a part in front of at least one more part adds it and one separator. */
  lemma JoinCons<T>(first: seq<T>, rest: seq<seq<T>>, sep: T)
    requires |rest| > 0
    ensures Join([first] + rest, sep) == first + [sep] + Join(rest, sep)
  {
    assert ([first] + rest)[1..] == rest;
  }

  /** Cuts `s` at every occurrence of `sep`; always at least one piece. */
  function Split<T(==)>(s: seq<T>, sep: T): (pieces: seq<seq<T>>)
    ensures |pieces| >= 1
    decreases |s|
  {
    if |s| == 0 then [[]]
    else
      var rest := Split(s[1..], sep);
      if s[0] == sep then [[]] + rest else [[s[0]] + rest[0]] + rest[1..]
  }

  lemma {:induction false} SplitWithoutSeparator<T>(s: seq<T>, sep: T)
    requires sep !in s
    ensures Split(s, sep) == [s]
    decreases |s|
  {
    if |s| > 0 {
      SplitWithoutSeparator(s[1..], sep);
      assert [s[0]] + s[1..] == s;
    }
  }

  lemma {:induction false} SplitAtFirstSeparator<T>(a: seq<T>, sep: T, b: seq<T>)
    requires sep !in a
    ensures Split(a + [sep] + b, sep) == [a] + Split(b, sep)
    decreases |a|
  {
    var s := a + [sep] + b;
    if |a| == 0 {
      assert s[1..] == b;
    } else {
      assert s[1..] == a[1..] + [sep] + b;
      SplitAtFirstSeparator(a[1..], sep, b);
      assert [a[0]] + a[1..] == a;
    }
  }

  /** Splitting a non-empty join at its separator gives the parts back, provided no part
      contains the separator. (An empty list joins to the empty sequence, which splits
      into one empty piece, so non-emptiness is needed.) */
  lemma {:induction false} SplitJoin<T>(parts: seq<seq<T>>, sep: T)
    requires |parts| > 0
    requires forall i :: 0 <= i < |parts| ==> sep !in parts[i]
    ensures Split(Join(parts, sep), sep) == parts
    decreases |parts|
  {
    if |parts| == 1 {
      SplitWithoutSeparator(parts[0], sep);
    } else {
      SplitJoin(parts[1..], sep);
      SplitAtFirstSeparator(parts[0], sep, Join(parts[1..], sep));
      assert [parts[0]] + parts[1..] == parts;
    }
  }
}
