/** A text parsed into sections, each running from an opening line to the next. */
module Sectioned {

  /** Every section, from the line that opens it. */
  function Sections<T>(d: seq<T>, opens: T -> bool): seq<seq<T>> {
    if d == [] then []
    else
      var l, found := d[|d| - 1], Sections(d[..|d| - 1], opens);
      if opens(l) then found + [[l]]
      else if found == [] then []
      else found[..|found| - 1] + [found[|found| - 1] + [l]]
  }

  /** What stands before the first. */
  function Before<T>(d: seq<T>, opens: T -> bool): seq<T> {
    if d == [] then []
    else if opens(d[|d| - 1]) || Sections(d[..|d| - 1], opens) != [] then Before(d[..|d| - 1], opens)
    else d
  }

  predicate IsSection<T>(s: seq<T>, opens: T -> bool) {
    s != [] && opens(s[0]) && forall i :: 0 < i < |s| ==> !opens(s[i])
  }

  predicate AllSections<T>(ss: seq<seq<T>>, opens: T -> bool) { forall i :: 0 <= i < |ss| ==> IsSection(ss[i], opens) }

  function Flatten<T>(ss: seq<seq<T>>): seq<T> { if ss == [] then [] else ss[0] + Flatten(ss[1..]) }

  /** Section `s` is what stands in a text from `a` up to `b`. */
  predicate StandsAt<T(==)>(d: seq<T>, a: nat, b: nat, s: seq<T>) { a < b <= |d| && d[a..b] == s }

  /** A line put at the end moves no section, */
  lemma StillStands<T>(d: seq<T>, l: T, a: nat, b: nat, s: seq<T>)
    requires StandsAt(d, a, b, s)
    ensures StandsAt(d + [l], a, b, s)
  {
    assert (d + [l])[a..b] == d[a..b];
  }

  /** and is the end of the last one, if it opens none. */
  lemma StandsLonger<T>(d: seq<T>, l: T, a: nat, s: seq<T>)
    requires StandsAt(d, a, |d|, s)
    ensures StandsAt(d + [l], a, |d| + 1, s + [l])
  {
    assert (d + [l])[a..|d| + 1] == d[a..|d|] + [l];
  }

  lemma {:induction false} FlattenCons<T>(s: seq<T>, ss: seq<seq<T>>)
    ensures Flatten([s] + ss) == s + Flatten(ss)
  {
    assert ([s] + ss)[1..] == ss;
  }

  lemma {:induction false} SectionsSnoc<T>(d: seq<T>, l: T, opens: T -> bool)
    ensures var found := Sections(d, opens);
            Sections(d + [l], opens) == if opens(l) then found + [[l]]
                                        else if found == [] then []
                                        else found[..|found| - 1] + [found[|found| - 1] + [l]]
    ensures Before(d + [l], opens) == if opens(l) || Sections(d, opens) != [] then Before(d, opens) else d + [l]
  {
    assert (d + [l])[..|d|] == d;
  }

  lemma {:induction false} SectionsConcat<T>(a: seq<T>, s: seq<T>, opens: T -> bool)
    requires IsSection(s, opens)
    ensures Sections(a + s, opens) == Sections(a, opens) + [s] && Before(a + s, opens) == Before(a, opens)
  {
    var l, rest := s[|s| - 1], s[..|s| - 1];
    assert s == rest + [l] && a + s == (a + rest) + [l];
    SectionsSnoc(a + rest, l, opens);
    if rest == [] {
      assert a + rest == a && s == [l];
    } else {
      SectionsConcat(a, rest, opens);
      assert (Sections(a, opens) + [rest])[..|Sections(a, opens)|] == Sections(a, opens);
    }
  }

  lemma {:induction false} FlattenParts<T>(a: seq<T>, ss: seq<seq<T>>, opens: T -> bool)
    requires AllSections(ss, opens)
    ensures ss == [] ==> a + Flatten(ss) == a
    ensures ss != [] ==> a + Flatten(ss) == (a + ss[0]) + Flatten(ss[1..])
    ensures ss != [] ==> IsSection(ss[0], opens) && AllSections(ss[1..], opens)
  {
    hide IsSection;
    if ss != [] { assert IsSection(ss[0], opens); }
  }

  /** Sections put after a text are parsed as themselves. */
  lemma {:induction false} SectionsFlatten<T>(a: seq<T>, ss: seq<seq<T>>, opens: T -> bool)
    requires AllSections(ss, opens)
    ensures Sections(a + Flatten(ss), opens) == Sections(a, opens) + ss
    ensures Before(a + Flatten(ss), opens) == Before(a, opens)
    decreases |ss|
  {
    hide *;
    FlattenParts(a, ss, opens);
    if ss == [] {
      assert Sections(a, opens) + ss == Sections(a, opens);
    } else {
      SectionsConcat(a, ss[0], opens);
      SectionsFlatten(a + ss[0], ss[1..], opens);
      assert (Sections(a, opens) + [ss[0]]) + ss[1..] == Sections(a, opens) + ss;
    }
  }

  lemma {:induction false} NothingBefore<T>(d: seq<T>, opens: T -> bool)
    ensures Sections(Before(d, opens), opens) == [] && Before(Before(d, opens), opens) == Before(d, opens)
    ensures Before(d, opens) <= d
  {
    if d != [] { NothingBefore(d[..|d| - 1], opens); }
  }

  lemma {:induction false} SectionsAreSections<T>(d: seq<T>, opens: T -> bool)
    ensures AllSections(Sections(d, opens), opens)
  {
    if d != [] { SectionsAreSections(d[..|d| - 1], opens); }
  }

  lemma {:induction false} FlattenLast<T>(ss: seq<seq<T>>, s: seq<T>)
    ensures Flatten(ss + [s]) == Flatten(ss) + s
    decreases |ss|
  {
    if ss == [] {
      assert ss + [s] == [s] && [s][1..] == [];
    } else {
      assert (ss + [s])[1..] == ss[1..] + [s];
      FlattenLast(ss[1..], s);
    }
  }

  /** A text is what stands before its sections and then those, end to end. */
  lemma {:induction false} PartsMakeTheText<T>(d: seq<T>, opens: T -> bool)
    ensures d == Before(d, opens) + Flatten(Sections(d, opens))
  {
    if d != [] {
      var l, rest := d[|d| - 1], d[..|d| - 1];
      var found := Sections(rest, opens);
      assert d == rest + [l];
      PartsMakeTheText(rest, opens);
      if opens(l) {
        FlattenLast(found, [l]);
      } else if found != [] {
        var last, others := found[|found| - 1], found[..|found| - 1];
        assert found == others + [last];
        FlattenLast(others, last);
        FlattenLast(others, last + [l]);
      }
    }
  }
}
