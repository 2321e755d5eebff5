/**
 * Values shared by every part of the model: optional and failing results,
 * the string helpers the label conventions rely on (Python's `str.split`,
 * `in` on strings, `list.index`) and the grid shape.
 */
module Common {

  datatype Option<T> = None | Some(value: T)

  /** The two Python exceptions the constraint builders can raise. */
  datatype Error = IndexError | ValueError

  datatype Result<T> = Ok(value: T) | Err(error: Error)

  /** A grid of cell values: at least one row, every row as long as the first. */
  predicate IsGrid(grid: seq<seq<int>>)
  {
    |grid| > 0 && forall i :: 0 <= i < |grid| ==> |grid[i]| == |grid[0]|
  }

  /** Concatenates the parts with `sep` between consecutive parts (Python's `sep.join`). */
  function Join(parts: seq<string>, sep: char): string
    requires |parts| >= 1
  {
    if |parts| == 1 then parts[0] else parts[0] + [sep] + Join(parts[1..], sep)
  }

  /**
   * Python's `s.split(sep)` for a one-character separator: the pieces between
   * consecutive occurrences of `sep`, so there is always one more piece than
   * there are separators.
   */
  function Split(s: string, sep: char): (parts: seq<string>)
    ensures |parts| >= 1
    ensures forall i :: 0 <= i < |parts| ==> sep !in parts[i]
    ensures Join(parts, sep) == s
    decreases |s|
  {
    if |s| == 0 then [""]
    else
      var rest := Split(s[1..], sep);
      if s[0] == sep then
        assert ([""] + rest)[1..] == rest;
        assert s == [s[0]] + s[1..];
        [""] + rest
      else
        var parts := [[s[0]] + rest[0]] + rest[1..];
        assert parts[1..] == rest[1..];
        assert s == [s[0]] + s[1..];
        assert |rest| > 1 ==> Join(rest, sep) == rest[0] + [sep] + Join(rest[1..], sep);
        assert |rest| > 1 ==> Join(parts, sep) == ([s[0]] + rest[0]) + [sep] + Join(rest[1..], sep);
        parts
  }

  /** A piece without separator, followed by more text, starts the split of the whole. */
  lemma {:induction false} SplitPrefix(p: string, t: string, sep: char)
    requires sep !in p
    ensures Split(p + t, sep) == [p + Split(t, sep)[0]] + Split(t, sep)[1..]
    decreases |p|
  {
    if |p| > 0 {
      assert (p + t)[1..] == p[1..] + t;
      assert (p + t)[0] == p[0];
      SplitPrefix(p[1..], t, sep);
      assert [p[0]] + (p[1..] + Split(t, sep)[0]) == p + Split(t, sep)[0];
    } else {
      assert p == [];
      assert p + t == t;
      assert p + Split(t, sep)[0] == Split(t, sep)[0];
      assert Split(t, sep) == [Split(t, sep)[0]] + Split(t, sep)[1..];
    }
  }

  /** Splitting undoes joining when no piece contains the separator. */
  lemma {:induction false} SplitJoin(parts: seq<string>, sep: char)
    requires |parts| >= 1
    requires forall i :: 0 <= i < |parts| ==> sep !in parts[i]
    ensures Split(Join(parts, sep), sep) == parts
  {
    if |parts| == 1 {
      SplitPrefix(parts[0], "", sep);
      assert parts[0] + "" == parts[0];
      assert Split("", sep) == [""];
      assert [parts[0] + ""] + [""][1..] == parts;
    } else {
      var rest := Join(parts[1..], sep);
      SplitJoin(parts[1..], sep);
      assert Join(parts, sep) == parts[0] + ([sep] + rest);
      SplitPrefix(parts[0], [sep] + rest, sep);
      assert ([sep] + rest)[1..] == rest && ([sep] + rest)[0] == sep;
      assert Split([sep] + rest, sep) == [""] + parts[1..];
      assert parts[0] + "" == parts[0];
      assert ([""] + parts[1..])[1..] == parts[1..];
      assert parts == [parts[0]] + parts[1..];
    }
  }

  /**
   * The first field of `s` is `p` (a text without separator) exactly when
   * `s` is `p` or starts with `p` followed by the separator.
   */
  lemma FirstField(s: string, sep: char, p: string)
    requires sep !in p
    ensures Split(s, sep)[0] == p <==> (s == p || p + [sep] <= s)
  {
    var parts := Split(s, sep);
    var f := parts[0];
    assert f <= s && (|parts| > 1 ==> s[|f|] == sep) && (|parts| == 1 ==> f == s) by {
      if |parts| > 1 {
        assert s == f + [sep] + Join(parts[1..], sep);
      }
    }
    if s == p {
      SplitPrefix(p, "", sep);
      assert p + "" == p;
    } else if p + [sep] <= s {
      var t := s[|p| + 1..];
      assert s == p + ([sep] + t);
      SplitPrefix(p, [sep] + t, sep);
      assert ([sep] + t)[1..] == t;
      assert Split([sep] + t, sep)[0] == "";
    }
  }

  /** `t` occurs in `s` as a contiguous piece (Python's `t in s` on strings). */
  predicate Contains(s: string, t: string)
    decreases |s|
  {
    t <= s || (|s| > 0 && Contains(s[1..], t))
  }

  /** `t` occurs in `s` starting at position `i`. */
  predicate OccursAt(s: string, t: string, i: int)
  {
    0 <= i <= |s| - |t| && s[i..i + |t|] == t
  }

  lemma {:induction false} ContainsAt(s: string, t: string)
    ensures Contains(s, t) <==> exists i :: OccursAt(s, t, i)
    decreases |s|
  {
    if |s| > 0 {
      ContainsAt(s[1..], t);
      if Contains(s[1..], t) {
        var i :| OccursAt(s[1..], t, i);
        assert s[i + 1..i + 1 + |t|] == t;
        assert OccursAt(s, t, i + 1);
      }
      if t <= s {
        assert OccursAt(s, t, 0);
      }
      if i :| OccursAt(s, t, i) {
        if i > 0 {
          assert s[1..][i - 1..i - 1 + |t|] == t;
          assert OccursAt(s[1..], t, i - 1);
        } else {
          assert t <= s;
        }
      }
    } else {
      if t <= s {
        assert OccursAt(s, t, 0);
      }
      if i :| OccursAt(s, t, i) {
        assert t <= s;
      }
    }
  }

  /** Python's `xs.index(x)`: the first position holding `x`, or nothing. */
  function IndexOf<T(==)>(xs: seq<T>, x: T): (r: Option<nat>)
    ensures r.None? <==> x !in xs
    ensures r.Some? ==> r.value < |xs| && xs[r.value] == x && x !in xs[..r.value]
  {
    if |xs| == 0 then None
    else if xs[0] == x then Some(0)
    else match IndexOf(xs[1..], x)
      case None => None
      case Some(i) =>
        assert xs[..i + 1] == [xs[0]] + xs[1..][..i];
        Some(i + 1)
  }

  /** No value occurs twice in `xs`. */
  predicate Distinct<T(==)>(xs: seq<T>)
  {
    forall i, j :: 0 <= i < j < |xs| ==> xs[i] != xs[j]
  }

  /** In a list without repeats, `index` finds each element at its own position. */
  lemma IndexOfDistinct<T>(xs: seq<T>, k: int)
    requires Distinct(xs) && 0 <= k < |xs|
    ensures IndexOf(xs, xs[k]) == Some(k)
  {
  }

  /** Putting a new value in front of a list without repeats keeps it without repeats. */
  lemma DistinctCons<T>(x: T, xs: seq<T>)
    requires x !in xs && Distinct(xs)
    ensures Distinct([x] + xs)
  {
    var ys := [x] + xs;
    forall i, j | 0 <= i < j < |ys| ensures ys[i] != ys[j] {
      assert ys[j] == xs[j - 1];
      if i > 0 { assert ys[i] == xs[i - 1]; }
    }
  }

  /** Every element of `xs` satisfies `p`, taken from the last element back. */
  ghost predicate All<T>(xs: seq<T>, p: T -> bool)
    decreases |xs|
  {
    |xs| == 0 || (All(xs[..|xs| - 1], p) && p(xs[|xs| - 1]))
  }

  /** All is the bounded universal quantifier over the elements. */
  lemma {:induction false} AllMeaning<T>(xs: seq<T>, p: T -> bool)
    ensures All(xs, p) <==> forall i :: 0 <= i < |xs| ==> p(xs[i])
    decreases |xs|
  {
    if |xs| > 0 {
      var init := xs[..|xs| - 1];
      AllMeaning(init, p);
      assert forall i :: 0 <= i < |init| ==> init[i] == xs[i];
    }
  }
}
