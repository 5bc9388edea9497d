/** String operations the reporting layer takes from Python's built-ins:
    the ordering `sorted` uses on `str`, `sorted` of a set, `', '.join`,
    the substring test `needle in hay` and `str.replace("_", " ")`. */
module Text {

  /** Python's `a <= b` on `str`: lexicographic by code point, a proper prefix first. */
  predicate Below(a: string, b: string)
    decreases |a|
  {
    if a == [] then true
    else if b == [] then false
    else if a[0] != b[0] then a[0] < b[0]
    else Below(a[1..], b[1..])
  }

  lemma {:induction false} BelowReflexive(a: string)
    ensures Below(a, a)
    decreases |a|
  {
    if a != [] { BelowReflexive(a[1..]); }
  }

  lemma {:induction false} BelowTotal(a: string, b: string)
    ensures Below(a, b) || Below(b, a)
    decreases |a|
  {
    if a != [] && b != [] && a[0] == b[0] { BelowTotal(a[1..], b[1..]); }
  }

  lemma {:induction false} BelowAntisymmetric(a: string, b: string)
    requires Below(a, b) && Below(b, a)
    ensures a == b
    decreases |a|
  {
    if a != [] && b != [] {
      BelowAntisymmetric(a[1..], b[1..]);
      assert a == [a[0]] + a[1..] && b == [b[0]] + b[1..];
    }
  }

  lemma {:induction false} BelowTransitive(a: string, b: string, c: string)
    requires Below(a, b) && Below(b, c)
    ensures Below(a, c)
    decreases |a|
  {
    if a != [] && b != [] && c != [] && a[0] == b[0] && b[0] == c[0] {
      BelowTransitive(a[1..], b[1..], c[1..]);
    }
  }

  /** `m` is the smallest string of `s`. */
  predicate IsLeast(m: string, s: set<string>)
  {
    m in s && forall x :: x in s ==> Below(m, x)
  }

  lemma {:induction false} LeastExists(s: set<string>)
    requires s != {}
    ensures exists m :: IsLeast(m, s)
    decreases |s|
  {
    var x :| x in s;
    if s == {x} {
      BelowReflexive(x);
      assert IsLeast(x, s);
    } else {
      LeastExists(s - {x});
      var m :| IsLeast(m, s - {x});
      BelowTotal(x, m);
      if Below(x, m) {
        forall y | y in s ensures Below(x, y) {
          if y == x { BelowReflexive(x); } else { BelowTransitive(x, m, y); }
        }
        assert IsLeast(x, s);
      } else {
        assert IsLeast(m, s);
      }
    }
  }

  lemma LeastUnique(s: set<string>)
    ensures forall a, b :: IsLeast(a, s) && IsLeast(b, s) ==> a == b
  {
    forall a, b | IsLeast(a, s) && IsLeast(b, s) ensures a == b {
      BelowAntisymmetric(a, b);
    }
  }

  /** The smallest string of a non-empty set. */
  function Least(s: set<string>): (m: string)
    requires s != {}
    ensures IsLeast(m, s)
  {
    LeastExists(s);
    LeastUnique(s);
    var m :| IsLeast(m, s); m
  }

  /** Strictly increasing in Python's order: sorted and without repeats. */
  predicate StrictlySorted(xs: seq<string>)
  {
    forall i, j :: 0 <= i < j < |xs| ==> Below(xs[i], xs[j]) && xs[i] != xs[j]
  }

  /** `sorted(s)` for a set of strings. */
  function SortedSet(s: set<string>): (r: seq<string>)
    ensures StrictlySorted(r)
    ensures forall x :: x in r <==> x in s
    ensures |r| == |s|
    decreases |s|
  {
    if s == {} then []
    else
      var m := Least(s);
      var rest := SortedSet(s - {m});
      assert forall j :: 0 <= j < |rest| ==> rest[j] in s - {m};
      [m] + rest
  }

  /** Two sorted listings of the same strings are the same listing. */
  lemma {:induction false} SortedUnique(xs: seq<string>, ys: seq<string>)
    requires StrictlySorted(xs) && StrictlySorted(ys)
    requires forall x :: x in xs <==> x in ys
    ensures xs == ys
    decreases |xs|
  {
    assert xs != [] ==> xs[0] in ys;
    assert ys != [] ==> ys[0] in xs;
    if xs != [] && ys != [] {
      var i :| 0 <= i < |ys| && ys[i] == xs[0];
      var j :| 0 <= j < |xs| && xs[j] == ys[0];
      if xs[0] != ys[0] {
        assert i > 0 && j > 0;
        assert Below(ys[0], xs[0]) && Below(xs[0], ys[0]);
        BelowAntisymmetric(xs[0], ys[0]);
      }
      forall x ensures x in xs[1..] <==> x in ys[1..] {
        if x in xs[1..] {
          var k :| 1 <= k < |xs| && xs[k] == x;
          assert x != xs[0] && x in ys;
          var l :| 0 <= l < |ys| && ys[l] == x;
          assert l != 0;
          assert ys[1..][l - 1] == x;
        }
        if x in ys[1..] {
          var k :| 1 <= k < |ys| && ys[k] == x;
          assert x != ys[0] && x in xs;
          var l :| 0 <= l < |xs| && xs[l] == x;
          assert l != 0;
          assert xs[1..][l - 1] == x;
        }
      }
      SortedUnique(xs[1..], ys[1..]);
      assert xs == [xs[0]] + xs[1..] && ys == [ys[0]] + ys[1..];
    }
  }

  /** `', '.join(xs)`. */
  function Join(xs: seq<string>): string
  {
    if xs == [] then ""
    else if |xs| == 1 then xs[0]
    else xs[0] + ", " + Join(xs[1..])
  }

  /** Joining gives the empty string only for no items or the single item "". */
  lemma JoinEmpty(xs: seq<string>)
    ensures Join(xs) == "" <==> xs == [] || xs == [""]
  {
    if |xs| >= 2 { assert |Join(xs)| >= 2; }
  }

  /** Appending an item appends the separator and the item. */
  lemma {:induction false} JoinSnoc(xs: seq<string>, y: string)
    requires xs != []
    ensures Join(xs + [y]) == Join(xs) + ", " + y
    decreases |xs|
  {
    if |xs| == 1 {
      assert (xs + [y])[1..] == [y];
    } else {
      assert (xs + [y])[1..] == xs[1..] + [y];
      JoinSnoc(xs[1..], y);
    }
  }

  /** Python's `needle in hay` on `str`: some window of `hay` equals `needle`. */
  predicate Contains(hay: string, needle: string)
  {
    exists i :: 0 <= i <= |hay| - |needle| && OccursAt(hay, needle, i)
  }

  /** `needle` stands in `hay` from index `i` on. */
  predicate OccursAt(hay: string, needle: string, i: nat)
  {
    i + |needle| <= |hay| && hay[i..i + |needle|] == needle
  }

  /** What occurs in a part of a string occurs in the whole. */
  lemma ContainsConcat(a: string, b: string, needle: string)
    ensures Contains(a, needle) ==> Contains(a + b, needle)
    ensures Contains(b, needle) ==> Contains(a + b, needle)
  {
    if Contains(a, needle) {
      var i :| 0 <= i <= |a| - |needle| && OccursAt(a, needle, i);
      assert (a + b)[i..i + |needle|] == a[i..i + |needle|];
      assert OccursAt(a + b, needle, i);
    }
    if Contains(b, needle) {
      var i :| 0 <= i <= |b| - |needle| && OccursAt(b, needle, i);
      assert (a + b)[|a| + i..|a| + i + |needle|] == b[i..i + |needle|];
      assert OccursAt(a + b, needle, |a| + i);
    }
  }

  /** `s.endswith(suffix)`. */
  predicate EndsWith(s: string, suffix: string)
  {
    |suffix| <= |s| && s[|s| - |suffix|..] == suffix
  }

  /** Every item of a list occurs in its join. */
  lemma {:induction false} JoinContainsItems(xs: seq<string>, k: nat)
    requires k < |xs|
    ensures Contains(Join(xs), xs[k])
    decreases |xs|
  {
    var s := Join(xs);
    if |xs| == 1 || k == 0 {
      assert OccursAt(s, xs[k], 0);
    } else {
      JoinContainsItems(xs[1..], k - 1);
      var t := Join(xs[1..]);
      var i :| 0 <= i <= |t| - |xs[k]| && OccursAt(t, xs[k], i);
      var off := |xs[0]| + 2;
      assert s == xs[0] + ", " + t;
      assert s[off + i..off + i + |xs[k]|] == t[i..i + |xs[k]|];
      assert OccursAt(s, xs[k], off + i);
    }
  }

  /** `s.replace("_", " ")`. */
  function ReplaceUnderscores(s: string): (r: string)
    ensures |r| == |s|
    ensures forall i :: 0 <= i < |s| ==> r[i] == (if s[i] == '_' then ' ' else s[i])
    decreases |s|
  {
    if s == [] then []
    else [if s[0] == '_' then ' ' else s[0]] + ReplaceUnderscores(s[1..])
  }

  /** Replacing twice changes nothing further, and leaves no underscore. */
  lemma ReplaceUnderscoresIdempotent(s: string)
    ensures '_' !in ReplaceUnderscores(s)
    ensures ReplaceUnderscores(ReplaceUnderscores(s)) == ReplaceUnderscores(s)
  {
    var r := ReplaceUnderscores(s);
    assert forall i :: 0 <= i < |r| ==> r[i] != '_';
    assert ReplaceUnderscores(r) == r;
  }
}
