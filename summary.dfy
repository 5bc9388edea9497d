/** The materials phrase of the report (header.py, `get_materials`,
    `is_300_series` and `summarize_material`). */
module MaterialSummary {
  import opened Text
  import opened Piping

  /** The pattern '^3.*SS$' as Python's `re.search` reads it: a leading '3',
      then any characters but a newline, then "SS" at the end of the string
      or just before a final newline. */
  predicate IsStainless300(name: string)
    ensures IsStainless300(name) ==>
      |name| >= 3 && name[0] == '3' && (EndsWith(name, "SS") || EndsWith(name, "SS\n"))
    ensures IsStainless300(name) ==> '\n' !in name[..|name| - 1]
  {
    && |name| >= 3 && name[0] == '3'
    && ( (name[|name| - 2..] == "SS" && '\n' !in name[1..|name| - 2])
      || (|name| >= 4 && name[|name| - 3..] == "SS\n" && '\n' !in name[1..|name| - 3]))
  }

  /** On names without a newline the pattern means: starts with '3', ends with "SS". */
  lemma IsStainless300Plain(name: string)
    requires '\n' !in name
    ensures IsStainless300(name) <==> |name| >= 3 && name[0] == '3' && EndsWith(name, "SS")
  {
    if |name| >= 3 {
      assert name[|name| - 1] in name;
      assert forall c :: c in name[1..|name| - 2] ==> c in name;
    }
  }

  /** The four stainless catalogue grades match the pattern; copper and brass do not. */
  lemma CatalogueGrades()
    ensures IsStainless300(SS304.name) && IsStainless300(SS304L.name)
    ensures IsStainless300(SS316.name) && IsStainless300(SS316L.name)
    ensures !IsStainless300(Copper.name) && !IsStainless300(Brass.name)
  {
    IsStainless300Plain(SS304.name);
    IsStainless300Plain(SS304L.name);
    IsStainless300Plain(SS316.name);
    IsStainless300Plain(SS316L.name);
  }

  /** `get_materials`: the set of (type tag, material) pairs of the components. */
  method GetMaterials(elements: seq<Component>) returns (materials: set<(string, Material)>)
    ensures forall pair :: pair in materials <==>
      exists i :: 0 <= i < |elements| && pair == (elements[i].kind, elements[i].material)
    ensures |materials| <= |elements|
  {
    materials := {};
    for i := 0 to |elements|
      invariant forall pair :: pair in materials <==>
        exists j :: 0 <= j < i && pair == (elements[j].kind, elements[j].material)
      invariant |materials| <= i
    {
      materials := materials + {(elements[i].kind, elements[i].material)};
    }
  }

  /** The distinct names of the materials in a set of pairs. */
  function NamesOf(materials: set<(string, Material)>): set<string>
  {
    set m | m in materials :: m.1.name
  }

  function StainlessNames(names: set<string>): set<string>
  {
    set n | n in names && IsStainless300(n)
  }

  function NonStainless(names: set<string>): set<string>
  {
    set n | n in names && !IsStainless300(n)
  }

  /** `is_300_series`: more than one name matches the pattern, that is,
      two different names of the set match. */
  predicate Is300Series(names: set<string>)
    ensures Is300Series(names) <==>
      exists a, b :: a in names && b in names && a != b && IsStainless300(a) && IsStainless300(b)
  {
    TwoStainless(names);
    |StainlessNames(names)| > 1
  }

  /** More than one matching name means two different matching names. */
  lemma TwoStainless(names: set<string>)
    ensures |StainlessNames(names)| > 1 <==>
      exists a, b :: a in names && b in names && a != b && IsStainless300(a) && IsStainless300(b)
  {
    var st := StainlessNames(names);
    if |st| > 1 {
      var a :| a in st;
      assert |st - {a}| == |st| - 1;
      var b :| b in st - {a};
      assert a in names && b in names && a != b && IsStainless300(a) && IsStainless300(b);
    }
    if exists a, b :: a in names && b in names && a != b && IsStainless300(a) && IsStainless300(b) {
      var a, b :| a in names && b in names && a != b && IsStainless300(a) && IsStainless300(b);
      assert {a, b} <= st;
      SubsetSize({a, b}, st);
    }
  }

  lemma {:induction false} SubsetSize(a: set<string>, b: set<string>)
    requires a <= b
    ensures |a| <= |b|
    decreases |a|
  {
    if a != {} {
      var x :| x in a;
      SubsetSize(a - {x}, b - {x});
    }
  }

  /** The order-keeping filter of the 300-series branch's list comprehension. */
  function WithoutStainless(xs: seq<string>): (r: seq<string>)
    ensures forall x :: x in r <==> x in xs && !IsStainless300(x)
    ensures StrictlySorted(xs) ==> StrictlySorted(r)
    decreases |xs|
  {
    if xs == [] then []
    else
      var rest := WithoutStainless(xs[1..]);
      assert StrictlySorted(xs) ==> StrictlySorted(xs[1..]);
      assert StrictlySorted(xs) ==> forall j :: 0 <= j < |rest| ==>
        Below(xs[0], rest[j]) && xs[0] != rest[j] by {
        if StrictlySorted(xs) {
          forall j | 0 <= j < |rest| ensures Below(xs[0], rest[j]) && xs[0] != rest[j] {
            assert rest[j] in xs[1..];
            var k :| 0 <= k < |xs[1..]| && xs[1..][k] == rest[j];
            assert xs[k + 1] == rest[j];
          }
        }
      }
      (if IsStainless300(xs[0]) then [] else [xs[0]]) + rest
  }

  const Suffix: string := "300 series stainless steel"

  /** The 300-series phrase for the sorted non-matching names `others`:
      them, a comma and "and", then the suffix; the suffix alone when they
      are none, or only the empty string. */
  function Phrase300(others: seq<string>): string
  {
    if others == [] || others == [""] then Suffix else Join(others) + ", and " + Suffix
  }

  /** English enumeration of sorted names, the last one introduced by
      "and " (a single name X reads "and X"). */
  function EnglishList(items: seq<string>): string
    requires items != []
  {
    var n := |items|;
    if n == 1 then "and " + items[0] else Join(items[..n - 1]) + ", and " + items[n - 1]
  }

  /** The phrase `summarize_material` produces for a set of distinct names:
      the 300-series phrase of the sorted non-matching names for a
      300-series set, otherwise the English enumeration of all names in
      sorted order, and no phrase for no names. */
  function Summary(names: set<string>): (r: Result<string>)
    ensures r.Err? <==> names == {}
    ensures r.Err? ==> r.error == EmptyList
    ensures r.Ok? && Is300Series(names) ==>
      EndsWith(r.value, Suffix) && forall n :: n in NonStainless(names) ==> Contains(r.value, n)
    ensures r.Ok? && !Is300Series(names) ==> forall n :: n in names ==> Contains(r.value, n)
  {
    if Is300Series(names) then
      var others := SortedSet(NonStainless(names));
      Phrase300Shape(others);
      assert forall n :: n in NonStainless(names) ==> Contains(Phrase300(others), n) by {
        forall n | n in NonStainless(names) ensures Contains(Phrase300(others), n) {
          var k :| 0 <= k < |others| && others[k] == n;
        }
      }
      Ok(Phrase300(others))
    else if names == {} then Err(EmptyList)
    else
      var items := SortedSet(names);
      EnglishListMentions(items);
      assert forall n :: n in names ==> Contains(EnglishList(items), n) by {
        forall n | n in names ensures Contains(EnglishList(items), n) {
          var k :| 0 <= k < |items| && items[k] == n;
        }
      }
      Ok(EnglishList(items))
  }

  /** The 300-series phrase ends with the suffix and mentions every listed name. */
  lemma Phrase300Shape(others: seq<string>)
    ensures EndsWith(Phrase300(others), Suffix)
    ensures forall k :: 0 <= k < |others| ==> Contains(Phrase300(others), others[k])
  {
    var r := Phrase300(others);
    assert r[|r| - |Suffix|..] == Suffix;
    forall k | 0 <= k < |others| ensures Contains(r, others[k]) {
      Phrase300Mentions(others, k);
    }
  }

  lemma Phrase300Mentions(others: seq<string>, k: nat)
    requires k < |others|
    ensures Contains(Phrase300(others), others[k])
  {
    if others == [""] {
      assert OccursAt(Phrase300(others), others[k], 0);
    } else {
      JoinContainsItems(others, k);
      ContainsConcat(Join(others), ", and " + Suffix, others[k]);
      assert Join(others) + ", and " + Suffix == Join(others) + (", and " + Suffix);
    }
  }

  /** The English enumeration mentions every listed name. */
  lemma EnglishListMentions(items: seq<string>)
    requires items != []
    ensures forall k :: 0 <= k < |items| ==> Contains(EnglishList(items), items[k])
  {
    var n := |items|;
    var r := EnglishList(items);
    forall k | 0 <= k < n ensures Contains(r, items[k]) {
      if n == 1 {
        assert r[4..4 + |items[0]|] == items[0];
        assert OccursAt(r, items[k], 4);
      } else if k < n - 1 {
        JoinContainsItems(items[..n - 1], k);
        ContainsConcat(Join(items[..n - 1]), ", and " + items[n - 1], items[k]);
        assert Join(items[..n - 1]) + ", and " + items[n - 1] == Join(items[..n - 1]) + (", and " + items[n - 1]);
      } else {
        var pre := Join(items[..n - 1]) + ", and ";
        assert r == pre + items[k];
        assert r[|pre|..|pre| + |items[k]|] == items[k];
        assert OccursAt(r, items[k], |pre|);
      }
    }
  }

  /** Filtering the sorted names is sorting the non-matching names. */
  lemma FilterSorted(names: set<string>)
    ensures WithoutStainless(SortedSet(names)) == SortedSet(NonStainless(names))
  {
    SortedUnique(WithoutStainless(SortedSet(names)), SortedSet(NonStainless(names)));
  }

  /** The source's steps for the 300-series branch: join the names, add
      ", and " only when the join is not empty, then the suffix. */
  lemma Phrase300Steps(others: seq<string>)
    ensures var result := Join(others);
      Phrase300(others) == (if result != "" then result + ", and " else result) + Suffix
  {
    JoinEmpty(others);
    assert Join(others) == "" ==> Join(others) + Suffix == Suffix;
  }

  /** Joining a list whose last item was prefixed with "and " gives the
      English conjunction ", and " before that item. */
  lemma JoinAndLast(xs: seq<string>, last: string)
    requires xs != []
    ensures Join(xs + ["and " + last]) == Join(xs) + ", and " + last
  {
    JoinSnoc(xs, "and " + last);
    assert ", " + ("and " + last) == ", and " + last by {
      assert ", " + "and " == ", and ";
    }
  }

  /** The source's steps for the other branch: prefix the last name with
      "and " in place, then join. */
  lemma EnglishListSteps(items: seq<string>)
    requires items != []
    ensures EnglishList(items) == Join(items[|items| - 1 := "and " + items[|items| - 1]])
  {
    var n := |items|;
    var last := items[n - 1];
    var updated := items[n - 1 := "and " + last];
    if n > 1 {
      assert updated == items[..n - 1] + ["and " + last];
      JoinAndLast(items[..n - 1], last);
    } else {
      assert updated == ["and " + last];
    }
  }

  /** A 300-series phrase lists, in sorted order, exactly the names that do
      not match the pattern, mentions each of them, and ends with
      "300 series stainless steel": for any sorted listing `others` of the
      non-matching names. */
  lemma Summary300Series(names: set<string>, others: seq<string>)
    requires Is300Series(names)
    requires StrictlySorted(others)
    requires forall x :: x in others <==> x in names && !IsStainless300(x)
    ensures Summary(names) == Ok(Phrase300(others))
    ensures EndsWith(Summary(names).value, Suffix)
    ensures forall k :: 0 <= k < |others| ==> Contains(Summary(names).value, others[k])
  {
    SortedUnique(others, SortedSet(NonStainless(names)));
    Phrase300Shape(others);
  }

  /** Stainless names are never itemised: once a set is 300 series, adding
      a further matching name changes nothing in the phrase. */
  lemma Summary300Collapses(names: set<string>, n: string)
    requires Is300Series(names) && IsStainless300(n)
    ensures Is300Series(names + {n})
    ensures Summary(names + {n}) == Summary(names)
  {
    SubsetSize(StainlessNames(names), StainlessNames(names + {n}));
    assert NonStainless(names + {n}) == NonStainless(names);
  }

  /** Otherwise the phrase lists every name once, in sorted order, with the
      last one introduced by "and ", for any sorted listing `items` of them. */
  lemma SummaryPlainList(names: set<string>, items: seq<string>)
    requires !Is300Series(names)
    requires StrictlySorted(items) && items != []
    requires forall x :: x in items <==> x in names
    ensures Summary(names) == Ok(EnglishList(items))
    ensures forall k :: 0 <= k < |items| ==> Contains(Summary(names).value, items[k])
  {
    SortedUnique(items, SortedSet(names));
    assert items[0] in names;
    EnglishListMentions(items);
  }

  /** No names is an error (the source indexes `result[-1]` of an empty
      list); a single name X gives the dangling "and X". */
  lemma SummaryEdgeCases(x: string)
    ensures Summary({}) == Err(EmptyList)
    ensures Summary({x}) == Ok("and " + x)
  {
    assert StainlessNames({}) == {};
    SubsetSize(StainlessNames({x}), {x});
    assert SortedSet({x}) == [x] by { assert x in SortedSet({x}); }
  }

  /** Two stainless grades and copper read "copper, and 300 series stainless steel". */
  lemma SummaryExample300()
    ensures Summary({SS304.name, SS316L.name, Copper.name}) == Ok("copper, and " + Suffix)
  {
    var a := {SS304.name, SS316L.name, Copper.name};
    assert Is300Series(a) by {
      CatalogueGrades();
      assert SS304.name in a && SS316L.name in a && SS304.name != SS316L.name;
    }
    assert SortedSet(NonStainless(a)) == [Copper.name] by {
      ExampleSets();
      assert Copper.name in SortedSet({Copper.name});
    }
    ExamplePhrase();
  }

  lemma ExamplePhrase()
    ensures Phrase300([Copper.name]) == "copper, and " + Suffix
  {
    assert Phrase300([Copper.name]) == Copper.name + ", and " + Suffix;
    assert Copper.name + ", and " == "copper, and ";
  }

  lemma ExampleSets()
    ensures StainlessNames({SS304.name, SS316L.name, Copper.name}) == {SS304.name, SS316L.name}
    ensures NonStainless({SS304.name, SS316L.name, Copper.name}) == {Copper.name}
    ensures StainlessNames({Copper.name, Brass.name}) == {}
  {
    CatalogueGrades();
  }

  /** Copper and brass read "brass, and copper". */
  lemma SummaryExamplePlain()
    ensures Summary({Copper.name, Brass.name}) == Ok("brass, and copper")
  {
    var b := {Copper.name, Brass.name};
    ExampleSets();
    assert Below(Brass.name, Copper.name);
    SortedUnique([Brass.name, Copper.name], SortedSet(b));
    assert EnglishList([Brass.name, Copper.name]) == "brass, and copper";
  }

  /** `summarize_material`. */
  method SummarizeMaterial(materials: set<(string, Material)>) returns (r: Result<string>)
    ensures r == Summary(NamesOf(materials))
  {
    var names: set<string> := {};
    var rest := materials;
    while rest != {}
      invariant rest <= materials
      invariant names == NamesOf(materials - rest)
      decreases |rest|
    {
      var m :| m in rest;
      assert materials - (rest - {m}) == (materials - rest) + {m};
      names := names + {m.1.name};
      rest := rest - {m};
    }
    assert materials - rest == materials;
    if Is300Series(names) {
      var result := Join(WithoutStainless(SortedSet(names)));
      if result != "" {
        result := result + ", and ";
      }
      FilterSorted(names);
      Phrase300Steps(SortedSet(NonStainless(names)));
      r := Ok(result + Suffix);
    } else {
      var result := SortedSet(names);
      if |result| == 0 {
        r := Err(EmptyList);
        return;
      }
      EnglishListSteps(result);
      result := result[|result| - 1 := "and " + result[|result| - 1]];
      r := Ok(Join(result));
    }
  }
}
