/** What seeding promises: the same blocks with their positions, every other line in order, and
    nothing left to seed. */
module SeedOnce {
  import Sectioned
  import opened SeedFixes

  // ---------------------------------------------------------------- keys across an edit

  lemma {:induction false} KeyAtConcat(a: Doc, b: Doc, k: string)
    ensures KeyAt(a + b, k) == if KeyAt(b, k) >= 0 then |a| + KeyAt(b, k) else KeyAt(a, k)
  {
    if b == [] {
      assert a + b == a;
    } else {
      var l, rest := b[|b| - 1], b[..|b| - 1];
      assert (a + b)[..|a + b| - 1] == a + rest;
      KeyAtConcat(a, rest, k);
    }
  }

  lemma {:induction false} KeyAtReplaced(s: Doc, i: nat, l: Line, k: string)
    requires i < |s| && s[i].Key? && l.Key? && l.name == s[i].name
    ensures KeyAt(s[i := l], k) == KeyAt(s, k)
  {
    var rest, n := s[..|s| - 1], |s| - 1;
    if i < n {
      KeyAtReplaced(rest, i, l, k);
      assert s[i := l][..n] == rest[i := l];
    } else {
      assert s[i := l][..n] == rest;
    }
  }

  /** Key `k` of `t` is key `k` of `s`. */
  predicate SameKey(s: Doc, t: Doc, k: string) {
    Has(t, k) == Has(s, k) && (Has(s, k) ==> ValueOf(t, k) == ValueOf(s, k))
  }

  ghost predicate OtherKeysSame(s: Doc, t: Doc) { forall k :: k != "lat" && k != "lon" ==> SameKey(s, t, k) }

  predicate CoordsAre(t: Doc, la: Value, lo: Value) {
    Has(t, "lat") && Has(t, "lon") && ValueOf(t, "lat") == la && ValueOf(t, "lon") == lo
  }

  lemma {:induction false} PlacedKeys(s: Doc, la: Value, lo: Value)
    requires Placed(s)
    ensures var t := s[KeyAt(s, "lat") := Key("lat", la)][KeyAt(s, "lon") := Key("lon", lo)];
            CoordsAre(t, la, lo) && OtherKeysSame(s, t)
  {
    var i, j := KeyAt(s, "lat"), KeyAt(s, "lon");
    var t := s[i := Key("lat", la)][j := Key("lon", lo)];
    forall k
      ensures KeyAt(t, k) == KeyAt(s, k)
    {
      KeyAtReplaced(s, i, Key("lat", la), k);
      KeyAtReplaced(s[i := Key("lat", la)], j, Key("lon", lo), k);
    }
    hide KeyAt;
    forall k | k != "lat" && k != "lon"
      ensures SameKey(s, t, k)
    {
    }
  }

  /** A coordinate that the pair put in at `z` is read for, unless one stands after it. */
  predicate ReadsNew(s: Doc, k: string, z: int) { KeyAt(s, k) < z }

  lemma InsertedKeys(s: Doc, la: Value, lo: Value, z: nat)
    requires z <= |s|
    ensures var t := s[..z] + [Key("lat", la), Key("lon", lo)] + s[z..];
            && Placed(t) && OtherKeysSame(s, t)
            && ValueOf(t, "lat") == (if ReadsNew(s, "lat", z) then la else ValueOf(s, "lat"))
            && ValueOf(t, "lon") == (if ReadsNew(s, "lon", z) then lo else ValueOf(s, "lon"))
  {
    var a, put, b := s[..z], [Key("lat", la), Key("lon", lo)], s[z..];
    var t := a + put + b;
    assert s == a + b;
    PairKeys(la, lo);
    hide KeyAt;
    KeyBehind(a, put, b, "lat");
    KeyBehind(a, put, b, "lon");
    forall k | k != "lat" && k != "lon"
      ensures SameKey(s, t, k)
    {
      SameUnlessPut(a, put, b, k);
    }
  }

  /** Of a key put between `a` and `b`, the last to set it is in `b` if any there does. */
  lemma {:induction false} KeyBehind(a: Doc, put: Doc, b: Doc, k: string)
    requires Has(put, k)
    ensures var t := a + put + b;
            Has(t, k) && ValueOf(t, k) == if KeyAt(a + b, k) >= |a| then ValueOf(a + b, k) else ValueOf(put, k)
  {
    KeyAtConcat(a + put, b, k);
    KeyAtConcat(a, put, k);
    KeyAtConcat(a, b, k);
    hide KeyAt;
    if KeyAt(b, k) >= 0 {
      assert (a + b)[|a| + KeyAt(b, k)] == b[KeyAt(b, k)] == (a + put + b)[|a + put| + KeyAt(b, k)];
    } else {
      assert (a + put + b)[|a| + KeyAt(put, k)] == put[KeyAt(put, k)];
    }
  }

  lemma {:induction false} SameUnlessPut(a: Doc, put: Doc, b: Doc, k: string)
    requires KeyAt(put, k) < 0
    ensures SameKey(a + b, a + put + b, k)
  {
    KeyAtConcat(a + put, b, k);
    KeyAtConcat(a, put, k);
    KeyAtConcat(a, b, k);
    hide KeyAt;
    if KeyAt(b, k) >= 0 {
      assert (a + b)[|a| + KeyAt(b, k)] == b[KeyAt(b, k)] == (a + put + b)[|a + put| + KeyAt(b, k)];
    } else if KeyAt(a, k) >= 0 {
      assert (a + b)[KeyAt(a, k)] == a[KeyAt(a, k)] == (a + put + b)[KeyAt(a, k)];
    }
  }

  lemma PairKeys(la: Value, lo: Value)
    ensures var put := [Key("lat", la), Key("lon", lo)];
            forall k :: KeyAt(put, k) == if k == "lon" then 1 else if k == "lat" then 0 else -1
  {
    var put := [Key("lat", la), Key("lon", lo)];
    assert put[..1] == [Key("lat", la)] && put[..1][..0] == [];
  }

  // ---------------------------------------------------------------- lines that are not coordinates

  predicate IsCoord(l: Line) { l.Key? && (l.name == "lat" || l.name == "lon") }

  function Others(d: Doc): Doc {
    if d == [] then [] else Others(d[..|d| - 1]) + (if IsCoord(d[|d| - 1]) then [] else [d[|d| - 1]])
  }

  lemma {:induction false} OthersConcat(a: Doc, b: Doc)
    ensures Others(a + b) == Others(a) + Others(b)
  {
    if b == [] {
      assert a + b == a;
    } else {
      var rest := b[..|b| - 1];
      assert (a + b)[..|a + b| - 1] == a + rest;
      OthersConcat(a, rest);
    }
  }

  lemma OthersReplaced(s: Doc, i: nat, l: Line)
    requires i < |s| && IsCoord(s[i]) && IsCoord(l)
    ensures Others(s[i := l]) == Others(s)
  {
    var a, b := s[..i], s[i + 1..];
    assert s == a + [s[i]] + b && s[i := l] == a + [l] + b;
    OthersConcat(a + [s[i]], b);
    OthersConcat(a + [l], b);
    OthersConcat(a, [s[i]]);
    OthersConcat(a, [l]);
    OnlyCoord(s[i]);
    OnlyCoord(l);
  }

  lemma OnlyCoord(l: Line)
    requires IsCoord(l)
    ensures Others([l]) == []
  {
    assert [l][..0] == [];
  }

  lemma {:induction false} OthersSkip(a: Doc, l: Line)
    requires IsCoord(l)
    ensures Others(a + [l]) == Others(a)
  {
    assert (a + [l])[..|a|] == a;
  }

  lemma Regrouped(a: Doc, x: Line, y: Line, b: Doc)
    ensures a + [x, y] + b == a + [x] + [y] + b
  {
  }

  lemma {:induction false} OthersInserted(s: Doc, la: Value, lo: Value, z: nat)
    requires z <= |s|
    ensures Others(s[..z] + [Key("lat", la), Key("lon", lo)] + s[z..]) == Others(s)
  {
    var a, x, y, b := s[..z], Key("lat", la), Key("lon", lo), s[z..];
    assert s == a + b && IsCoord(x) && IsCoord(y);
    hide *;
    Regrouped(a, x, y, b);
    OthersConcat(a + [x] + [y], b);
    OthersSkip(a + [x], y);
    OthersSkip(a, x);
    OthersConcat(a, b);
  }

  // ---------------------------------------------------------------- one section

  /** Both coordinates or neither. */
  predicate Even(s: Doc) { Has(s, "lat") <==> Has(s, "lon") }

  /** The pair put after `z` is what is read for this coordinate. */
  predicate Clear(s: Doc, k: string, v: Value) {
    !Has(s, k) || KeyAt(s, k) < KeyAt(s, "z") || ValueOf(s, k) == v
  }

  /** Seeded, the section reads as standing where the simulator puts it. */
  predicate Lands(s: Doc, got: Positions)
    requires Named(s, got)
  {
    Placed(s) || (Clear(s, "lat", got[ValueOf(s, "name")].0) && Clear(s, "lon", got[ValueOf(s, "name")].1))
  }

  predicate Seeds(s: Doc, got: Positions) { Named(s, got) && !Broken(s, got) }

  /** Section `t` is section `s` with coordinates, if it was to have them. */
  ghost predicate Kept(s: Doc, t: Doc, got: Positions) {
    && Others(t) == Others(s) && OtherKeysSame(s, t)
    && (if Seeds(s, got) then Placed(t) else t == s)
  }

  /** Section `t` is section `s` given its position, if it was to have one. */
  ghost predicate Given(s: Doc, t: Doc, got: Positions) {
    && Others(t) == Others(s) && OtherKeysSame(s, t)
    && (if Seeds(s, got) then CoordsAre(t, got[ValueOf(s, "name")].0, got[ValueOf(s, "name")].1) else t == s)
  }

  predicate SameHead(s: Doc, t: Doc) { s != [] && t != [] && t[0] == s[0] }

  /** What seeding does to a section, with the exact condition for its position to be what is read. */
  ghost predicate Seeding(s: Doc, t: Doc, got: Positions) {
    && IsSection(t) && SameHead(s, t) && Kept(s, t, got)
    && (Given(s, t, got) <==> (Seeds(s, got) ==> Lands(s, got)))
  }

  lemma SeedGives(s: Doc, got: Positions)
    requires IsSection(s)
    ensures Seeding(s, Seed(s, got), got)
  {
    if Seeds(s, got) {
      if Placed(s) { PlacedGives(s, got); } else { InsertedGives(s, got); }
    }
  }

  lemma PlacedGives(s: Doc, got: Positions)
    requires IsSection(s) && Named(s, got) && Placed(s)
    ensures Seeding(s, Seed(s, got), got)
  {
    var (la, lo) := got[ValueOf(s, "name")];
    var i, j := KeyAt(s, "lat"), KeyAt(s, "lon");
    hide KeyAt, Others, OtherKeysSame;
    PlacedKeys(s, la, lo);
    OthersReplaced(s, i, Key("lat", la));
    OthersReplaced(s[i := Key("lat", la)], j, Key("lon", lo));
  }

  /** The pair goes in after `z`. */
  function Inserted(s: Doc, la: Value, lo: Value): Doc
    requires Has(s, "z")
  {
    s[..KeyAt(s, "z") + 1] + [Key("lat", la), Key("lon", lo)] + s[KeyAt(s, "z") + 1..]
  }

  lemma InsertedReads(s: Doc, la: Value, lo: Value)
    requires Has(s, "z") && !Placed(s)
    ensures var t := Inserted(s, la, lo);
            Placed(t) && OtherKeysSame(s, t) && (CoordsAre(t, la, lo) <==> Clear(s, "lat", la) && Clear(s, "lon", lo))
  {
    hide KeyAt, OtherKeysSame;
    InsertedKeys(s, la, lo, KeyAt(s, "z") + 1);
    assert "lat"[0] != "z"[0] && "lon"[0] != "z"[0];
  }

  lemma {:induction false} InsertedSection(s: Doc, la: Value, lo: Value)
    requires IsSection(s) && Has(s, "z")
    ensures var t := Inserted(s, la, lo);
            IsSection(t) && SameHead(s, t) && Others(t) == Others(s)
  {
    hide KeyAt, Others;
    OthersInserted(s, la, lo, KeyAt(s, "z") + 1);
  }

  lemma InsertedGives(s: Doc, got: Positions)
    requires IsSection(s) && Seeds(s, got) && !Placed(s)
    ensures Seeding(s, Seed(s, got), got)
  {
    var (la, lo) := got[ValueOf(s, "name")];
    InsertedReads(s, la, lo);
    InsertedSection(s, la, lo);
    assert Seed(s, got) == Inserted(s, la, lo);
    hide KeyAt, Others, OtherKeysSame, Inserted, Clear, Has, CoordsAre, IsSection, Seed;
  }

  /** The position read after seeding is the simulator's exactly when both coordinates were there to be
      rewritten, or each that is there stands before `z` or has that value already. */
  lemma LandsExactly(s: Doc, got: Positions)
    requires IsSection(s) && Seeds(s, got)
    ensures CoordsAre(Seed(s, got), got[ValueOf(s, "name")].0, got[ValueOf(s, "name")].1) <==> Lands(s, got)
  {
    hide Seed, KeyAt, Others, OtherKeysSame;
    SeedGives(s, got);
  }

  // ---------------------------------------------------------------- how often a key is set

  function Count(s: Doc, k: string): nat {
    if s == [] then 0
    else Count(s[..|s| - 1], k) + (if s[|s| - 1].Key? && s[|s| - 1].name == k then 1 else 0)
  }

  /** No key is set twice. */
  ghost predicate Once(s: Doc) { forall k :: Count(s, k) <= 1 }

  lemma {:induction false} CountConcat(a: Doc, b: Doc, k: string)
    ensures Count(a + b, k) == Count(a, k) + Count(b, k)
  {
    if b == [] {
      assert a + b == a;
    } else {
      assert (a + b)[..|a + b| - 1] == a + b[..|b| - 1];
      CountConcat(a, b[..|b| - 1], k);
    }
  }

  lemma {:induction false} CountHas(s: Doc, k: string)
    ensures Count(s, k) > 0 <==> Has(s, k)
  {
    if s != [] { CountHas(s[..|s| - 1], k); }
  }

  lemma CountReplaced(s: Doc, i: nat, l: Line, k: string)
    requires i < |s| && s[i].Key? && l.Key? && l.name == s[i].name
    ensures Count(s[i := l], k) == Count(s, k)
  {
    var a, b := s[..i], s[i + 1..];
    assert s == a + [s[i]] + b && s[i := l] == a + [l] + b;
    CountConcat(a + [s[i]], b, k);
    CountConcat(a + [l], b, k);
    CountConcat(a, [s[i]], k);
    CountConcat(a, [l], k);
    assert [s[i]][..0] == [] && [l][..0] == [];
  }

  lemma {:induction false} PairCount(la: Value, lo: Value, k: string)
    ensures Count([Key("lat", la), Key("lon", lo)], k) == if k == "lat" || k == "lon" then 1 else 0
  {
    var put := [Key("lat", la), Key("lon", lo)];
    assert put[..1] == [Key("lat", la)] && put[..1][..0] == [];
    assert "lat"[1] != "lon"[1];
    assert Count(put[..1], k) == if k == "lat" then 1 else 0;
    assert put[1] == Key("lon", lo);
  }

  lemma {:induction false} CountInserted(s: Doc, la: Value, lo: Value, z: nat, k: string)
    requires z <= |s|
    ensures Count(s[..z] + [Key("lat", la), Key("lon", lo)] + s[z..], k)
            == Count(s, k) + if k == "lat" || k == "lon" then 1 else 0
  {
    var a, put, b := s[..z], [Key("lat", la), Key("lon", lo)], s[z..];
    assert s == a + b;
    PairCount(la, lo, k);
    CountConcat(a + put, b, k);
    CountConcat(a, put, k);
    CountConcat(a, b, k);
  }

  /** A section that sets no key twice still sets none twice exactly when it had both coordinates or
      neither. */
  lemma DoubledExactly(s: Doc, got: Positions)
    requires Seeds(s, got) && Once(s)
    ensures Once(Seed(s, got)) <==> Even(s)
  {
    var (la, lo) := got[ValueOf(s, "name")];
    CountHas(s, "lat");
    CountHas(s, "lon");
    hide KeyAt, Count;
    if Placed(s) {
      var one := s[KeyAt(s, "lat") := Key("lat", la)];
      forall k ensures Count(Seed(s, got), k) == Count(s, k) {
        CountReplaced(s, KeyAt(s, "lat"), Key("lat", la), k);
        CountReplaced(one, KeyAt(s, "lon"), Key("lon", lo), k);
      }
    } else {
      forall k ensures Count(Seed(s, got), k) == Count(s, k) + if k == "lat" || k == "lon" then 1 else 0 {
        CountInserted(s, la, lo, KeyAt(s, "z") + 1, k);
      }
      assert Count(Seed(s, got), "lat") == Count(s, "lat") + 1 && Count(Seed(s, got), "lon") == Count(s, "lon") + 1;
    }
  }

  // ---------------------------------------------------------------- the whole file

  ghost predicate AllOnce(ss: seq<Doc>) { forall i :: 0 <= i < |ss| ==> Once(ss[i]) }

  lemma Parts(d: Doc)
    ensures AllSections(Sections(d)) && forall i :: 0 <= i < |Sections(d)| ==> IsSection(Sections(d)[i])
    ensures Sections(Preamble(d)) == [] && Preamble(Preamble(d)) == Preamble(d)
  {
    Sectioned.SectionsAreSections(d, IsOpening);
    Sectioned.NothingBefore(d, IsOpening);
  }

  lemma {:induction false} PutTogether(a: Doc, ss: seq<Doc>)
    requires AllSections(ss)
    ensures Sections(a + Sectioned.Flatten(ss)) == Sections(a) + ss
            && Preamble(a + Sectioned.Flatten(ss)) == Preamble(a)
  {
    Sectioned.SectionsFlatten(a, ss, IsOpening);
  }

  lemma SeededSections(d: Doc, got: Positions)
    ensures AllSections(Sections(d)) && Sections(SeededText(d, got)) == SeedAll(Sections(d), got)
    ensures Preamble(SeededText(d, got)) == Preamble(d)
    ensures forall i :: 0 <= i < |Sections(d)| ==> Seeding(Sections(d)[i], Seed(Sections(d)[i], got), got)
  {
    var ss := Sections(d);
    Parts(d);
    hide Sections, Preamble, Kept, Given, Seed;
    forall i | 0 <= i < |ss|
      ensures Seeding(ss[i], Seed(ss[i], got), got) && IsSection(Seed(ss[i], got))
    {
      assert IsSection(ss[i]);
      SeedGives(ss[i], got);
    }
    PutTogether(Preamble(d), SeedAll(ss, got));
    assert [] + SeedAll(ss, got) == SeedAll(ss, got);
  }

  /** Parsed again, the file has the same sections in order, each with every other key and line it had
      and both coordinates where it was to have them; and each reads as standing where the simulator
      puts it exactly when it lands. */
  lemma ReparsesToTheSameBlocks(d: Doc, got: Positions)
    ensures var was, now := Sections(d), Sections(SeededText(d, got));
            && |now| == |was| && Preamble(SeededText(d, got)) == Preamble(d)
            && (forall i :: 0 <= i < |was| ==> Kept(was[i], now[i], got) && SameHead(was[i], now[i]))
            && (forall i :: 0 <= i < |was| ==>
                (Given(was[i], now[i], got) <==> (Seeds(was[i], got) ==> Lands(was[i], got))))
  {
    hide Given, Kept, Seed, Sections, Seeds, Lands;
    SeededSections(d, got);
  }

  /** In a file that sets no key of a block twice, none is set twice afterwards exactly when every block
      given a position had both coordinates or neither. */
  lemma NoKeyTwiceExactly(d: Doc, got: Positions)
    requires AllOnce(Sections(d))
    ensures AllOnce(Sections(SeededText(d, got)))
            <==> forall i :: 0 <= i < |Sections(d)| && Seeds(Sections(d)[i], got) ==> Even(Sections(d)[i])
  {
    var ss := Sections(d);
    SeededSections(d, got);
    hide Seeding, Seed, Sections, Even, Once, Seeds, SeededText;
    var ts := SeedAll(ss, got);
    forall i | 0 <= i < |ss|
      ensures ts[i] == Seed(ss[i], got)
      ensures Once(ts[i]) <==> (Seeds(ss[i], got) ==> Even(ss[i]))
    {
      assert Once(ss[i]);
      OnceAfter(ss[i], got);
    }
  }

  lemma OnceAfter(s: Doc, got: Positions)
    requires Once(s)
    ensures Once(Seed(s, got)) <==> (Seeds(s, got) ==> Even(s))
  {
    hide Even, Once;
    if Seeds(s, got) { DoubledExactly(s, got); }
  }

  // ---------------------------------------------------------------- what there is to seed

  predicate Wants(s: Doc, force: bool) {
    s != [] && s[0].Point? && Has(s, "name") && Has(s, "x") && Has(s, "z") && (force || !Placed(s))
  }

  ghost predicate Sets(s: Doc, k: string) { exists i :: 0 <= i < |s| && s[i].Key? && s[i].name == k }

  /** A key is there exactly when some line sets it, and is read from the last that does. */
  lemma {:induction false} LastLineIsRead(s: Doc, k: string)
    ensures Has(s, k) <==> Sets(s, k)
    ensures Has(s, k) ==> exists i :: 0 <= i < |s| && s[i] == Key(k, ValueOf(s, k))
                            && forall j :: i < j < |s| && s[j].Key? ==> s[j].name != k
  {
    if s != [] {
      var n := |s| - 1;
      LastLineIsRead(s[..n], k);
      if s[n].Key? && s[n].name == k {
        assert s[n] == Key(k, ValueOf(s, k));
      } else if Has(s[..n], k) {
        var i :| 0 <= i < n && s[..n][i] == Key(k, ValueOf(s[..n], k))
                 && forall j :: i < j < n && s[..n][j].Key? ==> s[..n][j].name != k;
        assert s[i] == Key(k, ValueOf(s, k));
        assert forall j :: i < j < |s| && s[j].Key? ==> s[j].name != k;
      }
    }
  }

  /** A block is asked about exactly when it is a point that sets a name, an x and a z, and does not set
      both coordinates unless forced. */
  lemma WantsExactly(s: Doc, force: bool)
    ensures Wants(s, force) <==>
              && s != [] && s[0] == Point && Sets(s, "name") && Sets(s, "x") && Sets(s, "z")
              && (force || !Sets(s, "lat") || !Sets(s, "lon"))
  {
    LastLineIsRead(s, "name");
    LastLineIsRead(s, "x");
    LastLineIsRead(s, "z");
    LastLineIsRead(s, "lat");
    LastLineIsRead(s, "lon");
    hide KeyAt, Sets;
  }

  function WantedNames(ss: seq<Doc>, force: bool): set<Value> {
    if ss == [] then {}
    else
      var last, rest := ss[|ss| - 1], WantedNames(ss[..|ss| - 1], force);
      rest + (if Wants(last, force) then {ValueOf(last, "name")} else {})
  }

  /** The points to ask the simulator about. */
  method Wanted(lines: Doc, force: bool) returns (want: set<Value>)
    ensures want == WantedNames(Sections(lines), force)
  {
    var found := Blocks(lines);
    BeforeAsking(lines, found, force);
    hide *;
    want := {};
    for i := 0 to |found|
      invariant want == WantedNames(Texts(lines, found[..i]), force)
    {
      BlockAt(lines, found, i);
      WantedNext(lines, found, i, force);
      var name := Asked(lines, found[i], force);
      want := want + name;
    }
  }

  /** One block's name, if it is to be asked about. */
  method Asked(lines: Doc, m: Mark, force: bool) returns (name: set<Value>)
    requires IsBlock(lines, m)
    ensures name == if Wants(TextOf(lines, m), force) then {ValueOf(TextOf(lines, m), "name")} else {}
  {
    var keys := m.keys;
    WantsByKeys(lines, m, force);
    hide *;
    name := {};
    if "name" in keys && "x" in keys && "z" in keys && (!("lat" in keys && "lon" in keys) || force) {
      name := {lines[keys["name"]].value};
    }
  }

  lemma {:induction false} BeforeAsking(d: Doc, found: seq<Mark>, force: bool)
    requires found == Points(Marks(d))
    ensures AllBlocks(d, found) && WantedNames(Texts(d, found[..|found|]), force) == WantedNames(Sections(d), force)
    ensures WantedNames(Texts(d, found[..0]), force) == {}
  {
    MarksLocate(d);
    Nobody(d, found, force);
    hide *;
    ParsedLocates(d);
    PointsAreBlocks(d, Marks(d), Sections(d));
    WantedOfPoints(d, Marks(d), Sections(d), force);
  }

  lemma {:induction false} ParsedLocates(d: Doc)
    requires Parsed(d)
    ensures AllLocated(d, Marks(d), Sections(d))
  {
  }

  lemma {:induction false} Nobody(d: Doc, found: seq<Mark>, force: bool)
    ensures WantedNames(Texts(d, found[..0]), force) == {} && Texts(d, found[..|found|]) == Texts(d, found)
  {
    assert found[..|found|] == found;
  }

  lemma BlockAt(d: Doc, found: seq<Mark>, i: nat)
    requires AllBlocks(d, found) && i < |found|
    ensures IsBlock(d, found[i])
  {
  }

  lemma WantsByKeys(d: Doc, m: Mark, force: bool)
    requires IsBlock(d, m)
    ensures var keys := m.keys;
            && (Wants(TextOf(d, m), force) <==>
                  "name" in keys && "x" in keys && "z" in keys && (!("lat" in keys && "lon" in keys) || force))
            && ("name" in keys ==> keys["name"] < |d| && d[keys["name"]].Key?)
            && ("name" in keys ==> Has(TextOf(d, m), "name") && d[keys["name"]].value == ValueOf(TextOf(d, m), "name"))
  {
    KeysSay(d, m, map[]);
    hide KeyAt, KeysAre;
    assert TextOf(d, m)[0] == d[m.start];
  }

  lemma {:induction false} WantedSnoc(ss: seq<Doc>, s: Doc, force: bool)
    ensures WantedNames(ss + [s], force)
            == WantedNames(ss, force) + (if Wants(s, force) then {ValueOf(s, "name")} else {})
  {
    assert (ss + [s])[..|ss|] == ss;
  }

  lemma {:induction false} WantedNext(d: Doc, found: seq<Mark>, i: nat, force: bool)
    requires i < |found|
    ensures var s := TextOf(d, found[i]);
            WantedNames(Texts(d, found[..i + 1]), force) ==
              WantedNames(Texts(d, found[..i]), force) + (if Wants(s, force) then {ValueOf(s, "name")} else {})
  {
    hide TextOf;
    assert Texts(d, found[..i + 1]) == Texts(d, found[..i]) + [TextOf(d, found[i])];
    WantedSnoc(Texts(d, found[..i]), TextOf(d, found[i]), force);
  }

  lemma {:induction false} WantedOfPoints(d: Doc, ms: seq<Mark>, ss: seq<Doc>, force: bool)
    requires AllLocated(d, ms, ss)
    ensures WantedNames(Texts(d, Points(ms)), force) == WantedNames(ss, force)
  {
    if ms != [] {
      var n := |ms| - 1;
      var m, s := ms[n], ss[n];
      assert Locates(d, m, s);
      assert m.point ==> TextOf(d, m) == s;
      assert !m.point ==> !Wants(s, force);
      hide Locates, TextOf, Wants;
      WantedOfPoints(d, ms[..n], ss[..n], force);
      var ps := Points(ms[..n]);
      if m.point {
        assert Texts(d, Points(ms)) == Texts(d, ps) + [s];
        WantedSnoc(Texts(d, ps), s, force);
      } else {
        assert Points(ms) == ps && Texts(d, Points(ms)) == Texts(d, ps);
      }
    }
  }

  lemma WantsAfter(s: Doc, t: Doc, got: Positions)
    requires Kept(s, t, got) && SameHead(s, t)
    ensures Wants(t, false) <==> Wants(s, false) && ValueOf(s, "name") !in got
    ensures Wants(t, false) ==> ValueOf(t, "name") == ValueOf(s, "name")
  {
    assert SameKey(s, t, "name") && SameKey(s, t, "x") && SameKey(s, t, "z");
    hide KeyAt;
  }

  lemma {:induction false} WantedAfter(ss: seq<Doc>, ts: seq<Doc>, got: Positions)
    requires |ss| == |ts|
    requires forall i :: 0 <= i < |ss| ==> Kept(ss[i], ts[i], got) && SameHead(ss[i], ts[i])
    ensures WantedNames(ts, false) == WantedNames(ss, false) - got.Keys
  {
    if ss != [] {
      var n := |ss| - 1;
      hide Kept, Wants;
      WantedAfter(ss[..n], ts[..n], got);
      WantsAfter(ss[n], ts[n], got);
    }
  }

  /** A second run asks for just what the simulator did not answer; nothing at all if it answered
      everything. */
  lemma SecondRunHasNothingToSeed(d: Doc, got: Positions)
    ensures WantedNames(Sections(SeededText(d, got)), false) == WantedNames(Sections(d), false) - got.Keys
  {
    SeededSections(d, got);
    var ss, ts := Sections(d), SeedAll(Sections(d), got);
    hide Given, Kept, Sections, Wants, Seed, SeededText;
    WantedAfter(ss, ts, got);
  }

  /** For instance: a latitude that stands after `z` is set a second time, and the old one is still read. */
  lemma HalfPlacedIsDoubled(lat: Value, got: Positions)
    requires Words("P") in got
    ensures var s := [Point, Key("name", Words("P")), Key("z", Number("1")), Key("lat", lat)];
            var t := Seed(s, got);
            !Even(s) && t == [Point, Key("name", Words("P")), Key("z", Number("1")), Key("lat", got[Words("P")].0),
              Key("lon", got[Words("P")].1), Key("lat", lat)]
            && ValueOf(t, "lat") == lat
  {
    var s := [Point, Key("name", Words("P")), Key("z", Number("1")), Key("lat", lat)];
    assert s[..3] == [Point, Key("name", Words("P")), Key("z", Number("1"))]
      && s[..3][..2] == [Point, Key("name", Words("P"))];
    assert s[..3][..2][..1] == [Point] && s[..3][..2][..1][..0] == [];
    assert KeyAt(s[..3], "z") == 2 && KeyAt(s, "z") == 2;
    assert KeyAt(s[..3][..2], "name") == 1 && KeyAt(s[..3], "name") == 1 && KeyAt(s, "name") == 1;
    assert KeyAt([Point], "lon") == -1;
    assert KeyAt(s[..3][..2], "lon") == -1;
    assert KeyAt(s[..3], "lon") == -1 && KeyAt(s, "lon") == -1;
  }
}
