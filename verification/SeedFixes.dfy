/**
 * Seeding coordinates into a configuration file by inserting lines, with the file parsed into
 * sections and each `[[sortie.point]]` block's keys held as line numbers.
 */
module SeedFixes {
  import opened Splice
  import opened Sectioned

  /** What stands after an equals sign, read: a number, as it is written, or other words. */
  datatype Value = Number(digits: string) | Words(text: string)

  datatype Line = Point | Header(text: string) | Key(name: string, value: Value) | Plain(text: string)
  {
    predicate Opens() { Point? || Header? }
  }

  type Doc = seq<Line>

  // ---------------------------------------------------------------- parsing

  predicate IsOpening(l: Line) { l.Opens() }

  /** Every section, from its header to the next. */
  function Sections(d: Doc): seq<Doc> { Sectioned.Sections(d, IsOpening) }

  function Preamble(d: Doc): Doc { Sectioned.Before(d, IsOpening) }

  predicate IsSection(s: Doc) { Sectioned.IsSection(s, IsOpening) }

  predicate AllSections(ss: seq<Doc>) { Sectioned.AllSections(ss, IsOpening) }

  /** The last line that sets `name`, or -1. */
  function KeyAt(s: Doc, name: string): (r: int)
    ensures -1 <= r < |s|
    ensures r >= 0 ==> s[r].Key? && s[r].name == name
  {
    if s == [] then -1
    else if s[|s| - 1].Key? && s[|s| - 1].name == name then |s| - 1
    else KeyAt(s[..|s| - 1], name)
  }

  predicate Has(s: Doc, name: string) { KeyAt(s, name) >= 0 }

  function ValueOf(s: Doc, name: string): Value
    requires Has(s, name)
  {
    s[KeyAt(s, name)].value
  }

  /** A section by its place in the file, each key by the line that last set it. */
  datatype Mark = Mark(point: bool, start: nat, end: nat, keys: map<string, nat>)

  function MarkGrown(m: Mark, l: Line, n: nat): Mark {
    m.(end := n + 1, keys := if l.Key? then m.keys[l.name := n] else m.keys)
  }

  function Marks(d: Doc): seq<Mark> {
    if d == [] then []
    else
      var l, n, found := d[|d| - 1], |d| - 1, Marks(d[..|d| - 1]);
      if l.Opens() then found + [Mark(l.Point?, n, n + 1, map[])]
      else if found == [] then []
      else found[..|found| - 1] + [MarkGrown(found[|found| - 1], l, n)]
  }

  function Points(ms: seq<Mark>): seq<Mark> {
    if ms == [] then []
    else if ms[|ms| - 1].point then Points(ms[..|ms| - 1]) + [ms[|ms| - 1]]
    else Points(ms[..|ms| - 1])
  }

  lemma {:induction false} PointsSnoc(ms: seq<Mark>, m: Mark)
    ensures Points(ms + [m]) == if m.point then Points(ms) + [m] else Points(ms)
  {
    assert (ms + [m])[..|ms|] == ms;
  }

  lemma {:induction false} MarksSnoc(d: Doc, l: Line)
    ensures var found := Marks(d);
            Marks(d + [l]) == if l.Opens() then found + [Mark(l.Point?, |d|, |d| + 1, map[])]
                              else if found == [] then []
                              else found[..|found| - 1] + [MarkGrown(found[|found| - 1], l, |d|)]
  {
    assert (d + [l])[..|d|] == d;
  }

  /** A line outside any point's block changes no point. */
  lemma {:induction false} LineOutside(d: Doc, l: Line)
    requires !l.Point? && (l.Opens() || Marks(d) == [] || !Marks(d)[|Marks(d)| - 1].point)
    ensures Points(Marks(d + [l])) == Points(Marks(d))
    ensures Marks(d + [l]) == [] || !Marks(d + [l])[|Marks(d + [l])| - 1].point
  {
    var found := Marks(d);
    MarksSnoc(d, l);
    if l.Opens() {
      PointsSnoc(found, Mark(false, |d|, |d| + 1, map[]));
    } else if found != [] {
      var last, rest := found[|found| - 1], found[..|found| - 1];
      PointsSnoc(rest, MarkGrown(last, l, |d|));
      assert found == rest + [last];
      PointsSnoc(rest, last);
    }
  }

  /** Every point with its keys, each block read to the next header. */
  method Blocks(lines: Doc) returns (out: seq<Mark>)
    ensures out == Points(Marks(lines))
  {
    hide Points, Marks;
    out := [];
    var i := 0;
    NoMarks(lines);
    while i < |lines|
      invariant 0 <= i <= |lines|
      invariant out == Points(Marks(lines[..i]))
      invariant var ms := Marks(lines[..i]);
                i == |lines| || lines[i].Opens() || ms == [] || !ms[|ms| - 1].point
      decreases |lines| - i
    {
      ghost var ms := Marks(lines[..i]);
      assert lines[..i + 1] == lines[..i] + [lines[i]];
      if lines[i].Point? {
        var j := i + 1;
        var keys: map<string, nat> := map[];
        MarksSnoc(lines[..i], lines[i]);
        while j < |lines| && !lines[j].Opens()
          invariant i < j <= |lines| && Marks(lines[..j]) == ms + [Mark(true, i, j, keys)]
        {
          assert lines[..j + 1] == lines[..j] + [lines[j]];
          MarksSnoc(lines[..j], lines[j]);
          if lines[j].Key? {
            keys := keys[lines[j].name := j];
          }
          j := j + 1;
        }
        PointsSnoc(ms, Mark(true, i, j, keys));
        out := out + [Mark(true, i, j, keys)];
        i := j;
      } else {
        LineOutside(lines[..i], lines[i]);
        i := i + 1;
      }
    }
    assert lines[..i] == lines;
  }

  lemma NoMarks(lines: Doc)
    ensures Marks(lines[..0]) == [] && Points([]) == []
  {
  }

  // ---------------------------------------------------------------- marks and sections

  ghost predicate KeysAre(keys: map<string, nat>, s: Doc, start: nat) {
    && (forall k :: k in keys <==> Has(s, k))
    && (forall k :: k in keys ==> keys[k] == start + KeyAt(s, k))
  }

  /** Mark `m` is section `s` of the file. */
  ghost predicate Locates(d: Doc, m: Mark, s: Doc) {
    && IsSection(s) && StandsAt(d, m.start, m.end, s)
    && m.point == s[0].Point? && KeysAre(m.keys, s, m.start)
  }

  ghost predicate AllLocated(d: Doc, ms: seq<Mark>, ss: seq<Doc>) {
    |ms| == |ss| && forall k :: 0 <= k < |ms| ==> Locates(d, ms[k], ss[k])
  }

  predicate Chain(ms: seq<Mark>, from: nat, n: nat) {
    && (if ms == [] then from == n else ms[0].start == from && ms[|ms| - 1].end == n)
    && (forall k :: 0 <= k < |ms| ==> ms[k].start < ms[k].end)
    && (forall k :: 0 < k < |ms| ==> ms[k - 1].end == ms[k].start)
  }

  lemma SectionsSnoc(d: Doc, l: Line)
    ensures var found := Sections(d);
            Sections(d + [l]) == if l.Opens() then found + [[l]]
                                 else if found == [] then []
                                 else found[..|found| - 1] + [found[|found| - 1] + [l]]
    ensures Preamble(d + [l]) == if l.Opens() || Sections(d) != [] then Preamble(d) else d + [l]
  {
    Sectioned.SectionsSnoc(d, l, IsOpening);
  }

  lemma KeysGrow(m: Mark, s: Doc, l: Line)
    requires KeysAre(m.keys, s, m.start) && m.start + |s| == m.end
    ensures KeysAre(MarkGrown(m, l, m.end).keys, s + [l], m.start)
  {
    assert (s + [l])[..|s|] == s;
    forall k
      ensures KeyAt(s + [l], k) == if l.Key? && l.name == k then |s| else KeyAt(s, k)
    {
    }
  }

  lemma StillLocated(d: Doc, l: Line, m: Mark, s: Doc)
    requires Locates(d, m, s)
    ensures Locates(d + [l], m, s)
  {
    hide IsSection, KeysAre;
    StillStands(d, l, m.start, m.end, s);
  }

  lemma AllStillLocated(d: Doc, l: Line, ms: seq<Mark>, ss: seq<Doc>)
    requires AllLocated(d, ms, ss)
    ensures AllLocated(d + [l], ms, ss)
  {
    hide Locates;
    forall k | 0 <= k < |ms|
      ensures Locates(d + [l], ms[k], ss[k])
    {
      StillLocated(d, l, ms[k], ss[k]);
    }
  }

  lemma LastGrows(d: Doc, l: Line, m: Mark, s: Doc)
    requires Locates(d, m, s) && m.end == |d| && !l.Opens()
    ensures Locates(d + [l], MarkGrown(m, l, |d|), s + [l])
  {
    KeysGrow(m, s, l);
    hide KeysAre;
    StandsLonger(d, l, m.start, s);
  }

  ghost predicate Parsed(d: Doc) {
    && AllLocated(d, Marks(d), Sections(d)) && Chain(Marks(d), |Preamble(d)|, |d|) && Preamble(d) <= d
    && (Marks(d) == []) == (Sections(d) == [])
  }

  lemma SectionOpens(d: Doc, l: Line)
    requires Parsed(d) && l.Opens()
    ensures Parsed(d + [l])
  {
    hide Marks, Sections, Preamble, AllLocated, Locates;
    MarksSnoc(d, l);
    SectionsSnoc(d, l);
    AllStillLocated(d, l, Marks(d), Sections(d));
    NewSection(d, l);
    Appended(d + [l], Marks(d), Sections(d), Mark(l.Point?, |d|, |d| + 1, map[]), [l]);
  }

  lemma {:induction false} LineJoins(d: Doc, l: Line)
    requires Parsed(d) && !l.Opens() && Marks(d) != []
    ensures Parsed(d + [l])
  {
    hide Marks, Sections, Preamble, Locates;
    MarksSnoc(d, l);
    SectionsSnoc(d, l);
    var ms, ss := Marks(d), Sections(d);
    var n := |ms| - 1;
    AllStillLocated(d, l, ms, ss);
    assert Locates(d, ms[n], ss[n]);
    LastGrows(d, l, ms[n], ss[n]);
    assert AllLocated(d + [l], ms[..n], ss[..n]);
    hide AllLocated;
    Appended(d + [l], ms[..n], ss[..n], MarkGrown(ms[n], l, |d|), ss[n] + [l]);
  }

  lemma {:induction false} LineBefore(d: Doc, l: Line)
    requires Parsed(d) && !l.Opens() && Marks(d) == []
    ensures Parsed(d + [l])
  {
    MarksSnoc(d, l);
    SectionsSnoc(d, l);
  }

  lemma {:induction false} MarksLocate(d: Doc)
    ensures Parsed(d)
  {
    if d != [] {
      hide Parsed, Marks;
      var l, rest := d[|d| - 1], d[..|d| - 1];
      assert d == rest + [l];
      MarksLocate(rest);
      if l.Opens() {
        SectionOpens(rest, l);
      } else if Marks(rest) != [] {
        LineJoins(rest, l);
      } else {
        LineBefore(rest, l);
      }
    }
  }

  lemma NewSection(d: Doc, l: Line)
    requires l.Opens()
    ensures Locates(d + [l], Mark(l.Point?, |d|, |d| + 1, map[]), [l])
  {
    assert (d + [l])[|d|..|d| + 1] == [l];
    assert [l][..0] == [];
    assert forall k :: KeyAt([l], k) == KeyAt([], k) == -1;
  }

  lemma Appended(d: Doc, ms: seq<Mark>, ss: seq<Doc>, m: Mark, s: Doc)
    requires AllLocated(d, ms, ss) && Locates(d, m, s)
    ensures AllLocated(d, ms + [m], ss + [s])
  {
    hide Locates;
  }

  // ---------------------------------------------------------------- seeding

  /** Where the simulator puts each named point, as the file will write it. */
  type Positions = map<Value, (Value, Value)>

  predicate Named(s: Doc, got: Positions) { s != [] && s[0].Point? && Has(s, "name") && ValueOf(s, "name") in got }

  predicate Placed(s: Doc) { Has(s, "lat") && Has(s, "lon") }

  /** Both coordinates read as numbers, so that what moved can be said. */
  predicate Readable(s: Doc)
    requires Placed(s)
  {
    ValueOf(s, "lat").Number? && ValueOf(s, "lon").Number?
  }

  /** Has a position, but coordinates that are not numbers, or not both and no `z` to put them after. */
  predicate Broken(s: Doc, got: Positions) { Named(s, got) && if Placed(s) then !Readable(s) else !Has(s, "z") }

  /** One block, given its position. */
  function Seed(s: Doc, got: Positions): Doc {
    if !Named(s, got) || Broken(s, got) then s
    else
      var (la, lo) := got[ValueOf(s, "name")];
      if Placed(s) then s[KeyAt(s, "lat") := Key("lat", la)][KeyAt(s, "lon") := Key("lon", lo)]
      else s[..KeyAt(s, "z") + 1] + [Key("lat", la), Key("lon", lo)] + s[KeyAt(s, "z") + 1..]
  }

  function SeedAll(ss: seq<Doc>, got: Positions): (r: seq<Doc>)
    ensures |r| == |ss|
  {
    seq(|ss|, i requires 0 <= i < |ss| => Seed(ss[i], got))
  }

  /** Every block given its position at once. */
  function SeededText(d: Doc, got: Positions): Doc { Preamble(d) + Flatten(SeedAll(Sections(d), got)) }

  function BlockEdits(d: Doc, ms: seq<Mark>, got: Positions): (r: seq<Edit<Line>>)
    requires forall i :: 0 <= i < |ms| ==> ms[i].start <= ms[i].end <= |d|
    ensures |r| == |ms|
  {
    seq(|ms|, i requires 0 <= i < |ms| => Edit(ms[i].start, ms[i].end, Seed(d[ms[i].start..ms[i].end], got)))
  }

  lemma {:induction false} PointsCons(ms: seq<Mark>)
    requires ms != []
    ensures Points(ms) == if ms[0].point then [ms[0]] + Points(ms[1..]) else Points(ms[1..])
  {
    if |ms| == 1 {
      assert ms[..0] == [] && ms[1..] == [];
    } else {
      hide Points;
      var last, rest := ms[|ms| - 1], ms[..|ms| - 1];
      PointsCons(rest);
      PointsSnoc(rest, last);
      PointsSnoc(rest[1..], last);
      assert rest + [last] == ms && rest[1..] + [last] == ms[1..];
    }
  }

  ghost predicate AllInside(d: Doc, ms: seq<Mark>) { forall i :: 0 <= i < |ms| ==> ms[i].start <= ms[i].end <= |d| }

  lemma {:induction false} PointsInside(d: Doc, ms: seq<Mark>)
    requires AllInside(d, ms)
    ensures AllInside(d, Points(ms))
  {
    if ms != [] { PointsInside(d, ms[..|ms| - 1]); }
  }

  lemma SeedCons(s: Doc, ss: seq<Doc>, got: Positions)
    ensures Flatten(SeedAll([s] + ss, got)) == Seed(s, got) + Flatten(SeedAll(ss, got))
  {
    hide Seed;
    assert SeedAll([s] + ss, got) == [Seed(s, got)] + SeedAll(ss, got);
    Sectioned.FlattenCons(Seed(s, got), SeedAll(ss, got));
  }

  lemma TailLocated(d: Doc, ms: seq<Mark>, ss: seq<Doc>, from: nat)
    requires AllLocated(d, ms, ss) && ms != [] && Chain(ms, from, |d|)
    ensures Locates(d, ms[0], ss[0]) && AllLocated(d, ms[1..], ss[1..]) && Chain(ms[1..], ms[0].end, |d|)
    ensures AllInside(d, ms) && AllInside(d, ms[1..]) && from == ms[0].start < ms[0].end <= |d|
  {
    hide IsSection, KeysAre;
    forall k | 0 <= k < |ms|
      ensures ms[k].start < ms[k].end <= |d|
      ensures k > 0 ==> Locates(d, ms[1..][k - 1], ss[1..][k - 1])
    {
      assert Locates(d, ms[k], ss[k]);
    }
  }

  /** Rewriting the point blocks is seeding every section. */
  lemma {:induction false} EditsSeed(d: Doc, ms: seq<Mark>, ss: seq<Doc>, from: nat, got: Positions)
    requires AllLocated(d, ms, ss) && Chain(ms, from, |d|) && from <= |d|
    ensures AllInside(d, Points(ms)) && Apart(BlockEdits(d, Points(ms), got), from, |d|)
    ensures Rewritten(d, BlockEdits(d, Points(ms), got), from) == Flatten(SeedAll(ss, got))
    ensures Points(ms) != [] ==> from <= Points(ms)[0].start
    decreases |ms|
  {
    if ms == [] {
      assert d[from..] == [];
    } else {
      var m, end := ms[0], ms[0].end;
      PointsCons(ms);
      hide Points, Flatten, Rewritten, Apart, Chain, AllLocated, SeedAll, Locates;
      TailLocated(d, ms, ss, from);
      HeadIsSection(d, m, ss[0]);
      assert ss == [ss[0]] + ss[1..];
      SeedCons(ss[0], ss[1..], got);
      PointsInside(d, ms);
      EditsSeed(d, ms[1..], ss[1..], end, got);
      if m.point {
        PointBlock(d, m, Points(ms[1..]), ss[0], from, got);
      } else {
        OtherSection(d, m, Points(ms[1..]), ss[0], from, got);
      }
    }
  }

  lemma HeadIsSection(d: Doc, m: Mark, s: Doc)
    requires Locates(d, m, s)
    ensures m.start < m.end <= |d| && d[m.start..m.end] == s && s != [] && m.point == s[0].Point?
  {
  }

  lemma {:induction false} PointBlock(d: Doc, m: Mark, ps: seq<Mark>, s: Doc, from: nat, got: Positions)
    requires m.start == from < m.end <= |d| && d[from..m.end] == s && AllInside(d, ps)
    requires Apart(BlockEdits(d, ps, got), m.end, |d|)
    ensures AllInside(d, [m] + ps) && Apart(BlockEdits(d, [m] + ps, got), from, |d|)
    ensures Rewritten(d, BlockEdits(d, [m] + ps, got), from)
            == Seed(s, got) + Rewritten(d, BlockEdits(d, ps, got), m.end)
  {
    hide Seed;
    var rest, e := BlockEdits(d, ps, got), Edit(from, m.end, Seed(s, got));
    assert BlockEdits(d, [m] + ps, got) == [e] + rest;
    assert ([e] + rest)[1..] == rest && d[from..from] == [];
  }

  lemma {:induction false} OtherSection(d: Doc, m: Mark, ps: seq<Mark>, s: Doc, from: nat, got: Positions)
    requires m.start == from < m.end <= |d| && d[from..m.end] == s && AllInside(d, ps) && s != [] && !s[0].Point?
    requires Apart(BlockEdits(d, ps, got), m.end, |d|) && (ps != [] ==> m.end <= ps[0].start)
    ensures Apart(BlockEdits(d, ps, got), from, |d|)
    ensures Rewritten(d, BlockEdits(d, ps, got), from) == Seed(s, got) + Rewritten(d, BlockEdits(d, ps, got), m.end)
  {
    assert Seed(s, got) == s;
    hide Rewritten, Seed, Apart;
    var rest := BlockEdits(d, ps, got);
    ApartFrom(rest, m.end, from, |d|);
    CarriedOver(d, rest, from, m.end);
  }

  /** Mark `m` is a point's block, its keys where it says. */
  ghost predicate IsBlock(d: Doc, m: Mark) {
    m.start < m.end <= |d| && d[m.start].Point? && KeysAre(m.keys, d[m.start..m.end], m.start)
  }

  function TextOf(d: Doc, m: Mark): Doc { if m.start <= m.end <= |d| then d[m.start..m.end] else [] }

  predicate NoneBroken(ss: seq<Doc>, got: Positions) { forall i :: 0 <= i < |ss| ==> !Broken(ss[i], got) }

  function Texts(d: Doc, ms: seq<Mark>): (r: seq<Doc>)
    ensures |r| == |ms|
  {
    seq(|ms|, i requires 0 <= i < |ms| => TextOf(d, ms[i]))
  }

  ghost predicate AllBlocks(d: Doc, ms: seq<Mark>) { forall i :: 0 <= i < |ms| ==> IsBlock(d, ms[i]) }

  lemma {:induction false} PointsAreBlocks(d: Doc, ms: seq<Mark>, ss: seq<Doc>)
    requires AllLocated(d, ms, ss)
    ensures AllBlocks(d, Points(ms))
  {
    if ms != [] {
      var n := |ms| - 1;
      assert Locates(d, ms[n], ss[n]);
      assert ms[n].point ==> IsBlock(d, ms[n]);
      hide Locates, IsBlock;
      PointsAreBlocks(d, ms[..n], ss[..n]);
    }
  }

  lemma NoneBrokenSnoc(ss: seq<Doc>, s: Doc, got: Positions)
    ensures NoneBroken(ss + [s], got) <==> NoneBroken(ss, got) && !Broken(s, got)
  {
    hide Broken;
    assert (ss + [s])[|ss|] == s;
    forall i | 0 <= i < |ss|
      ensures (ss + [s])[i] == ss[i]
    {
    }
  }

  /** Only a point can be broken, so looking at the points is looking at all. */
  lemma {:induction false} BrokenPoints(d: Doc, ms: seq<Mark>, ss: seq<Doc>, got: Positions)
    requires AllLocated(d, ms, ss)
    ensures NoneBroken(ss, got) <==> NoneBroken(Texts(d, Points(ms)), got)
  {
    if ms != [] {
      hide *;
      var n := |ms| - 1;
      LastMark(d, ms, ss, got);
      BrokenPoints(d, ms[..n], ss[..n], got);
      NoneBrokenSnoc(ss[..n], ss[n], got);
      NoneBrokenSnoc(Texts(d, Points(ms[..n])), ss[n], got);
    }
  }

  /** The last section is the last point's text, or no point's and not broken. */
  lemma {:induction false} LastMark(d: Doc, ms: seq<Mark>, ss: seq<Doc>, got: Positions)
    requires AllLocated(d, ms, ss) && ms != []
    ensures var n := |ms| - 1;
            && |ss| == |ms| && AllLocated(d, ms[..n], ss[..n]) && ss == ss[..n] + [ss[n]]
            && if ms[n].point then Texts(d, Points(ms)) == Texts(d, Points(ms[..n])) + [ss[n]]
               else Texts(d, Points(ms)) == Texts(d, Points(ms[..n])) && !Broken(ss[n], got)
  {
    hide Locates, TextOf, Broken;
    var n := |ms| - 1;
    assert Locates(d, ms[n], ss[n]);
    LocatedText(d, ms[n], ss[n], got);
    var ps := Points(ms[..n]);
    if ms[n].point { assert Texts(d, ps + [ms[n]]) == Texts(d, ps) + [TextOf(d, ms[n])]; }
  }

  lemma LocatedText(d: Doc, m: Mark, s: Doc, got: Positions)
    requires Locates(d, m, s)
    ensures if m.point then TextOf(d, m) == s else !Broken(s, got)
  {
    hide KeyAt, KeysAre;
  }

  lemma SetInside(lines: Doc, a: nat, b: nat, i: nat, l: Line)
    requires a <= b <= |lines| && i < b - a
    ensures lines[a + i := l] == lines[..a] + lines[a..b][i := l] + lines[b..]
  {
  }

  lemma SetTwice(lines: Doc, a: nat, b: nat, i: nat, l: Line, j: nat, k: Line)
    requires a <= b <= |lines| && i < b - a && j < b - a
    ensures lines[a + i := l][a + j := k] == lines[..a] + lines[a..b][i := l][j := k] + lines[b..]
  {
    SetInside(lines, a, b, i, l);
    var one := lines[a + i := l];
    SetInside(one, a, b, j, k);
    assert one[a..b] == lines[a..b][i := l] && one[..a] == lines[..a] && one[b..] == lines[b..];
  }

  lemma PutInside(lines: Doc, a: nat, b: nat, i: nat, put: Doc)
    requires a <= b <= |lines| && i <= b - a
    ensures lines[..a + i] + put + lines[a + i..]
            == lines[..a] + (lines[a..b][..i] + put + lines[a..b][i..]) + lines[b..]
  {
    assert lines[..a + i] == lines[..a] + lines[a..b][..i];
    assert lines[a + i..] == lines[a..b][i..] + lines[b..];
  }

  /** A block's keys say what its text says. */
  lemma KeysSay(d: Doc, m: Mark, got: Positions)
    requires IsBlock(d, m)
    ensures var s := TextOf(d, m);
            && s == d[m.start..m.end]
            && (forall k :: k in m.keys <==> Has(s, k))
            && (forall k :: k in m.keys ==>
                m.keys[k] == m.start + KeyAt(s, k) < m.end && d[m.keys[k]] == s[KeyAt(s, k)])
            && (Named(s, got) <==> "name" in m.keys && d[m.keys["name"]].value in got)
            && (Named(s, got) ==> d[m.keys["name"]].value == ValueOf(s, "name"))
  {
    hide KeyAt;
  }

  /** The block as it is to be, in its place. */
  ghost function Seeded(d: Doc, m: Mark, got: Positions): Doc
    requires m.start <= m.end <= |d|
  {
    d[..m.start] + Seed(TextOf(d, m), got) + d[m.end..]
  }

  lemma SeededPlaced(d: Doc, m: Mark, got: Positions)
    requires IsBlock(d, m) && Named(TextOf(d, m), got) && Placed(TextOf(d, m)) && Readable(TextOf(d, m))
    ensures "lat" in m.keys && "lon" in m.keys && m.keys["lat"] < |d| && m.keys["lon"] < |d|
    ensures var (la, lo) := got[ValueOf(TextOf(d, m), "name")];
            d[m.keys["lat"] := Key("lat", la)][m.keys["lon"] := Key("lon", lo)] == Seeded(d, m, got)
  {
    var s := TextOf(d, m);
    KeysSay(d, m, got);
    hide KeyAt, KeysAre, IsBlock, TextOf, Named, ValueOf;
    var (la, lo) := got[ValueOf(s, "name")];
    SetTwice(d, m.start, m.end, KeyAt(s, "lat"), Key("lat", la), KeyAt(s, "lon"), Key("lon", lo));
  }

  lemma SeededAfterZ(d: Doc, m: Mark, got: Positions)
    requires IsBlock(d, m) && Named(TextOf(d, m), got) && !Placed(TextOf(d, m)) && Has(TextOf(d, m), "z")
    ensures "z" in m.keys && m.keys["z"] < |d|
    ensures var (la, lo) := got[ValueOf(TextOf(d, m), "name")];
            d[..m.keys["z"] + 1] + [Key("lat", la), Key("lon", lo)] + d[m.keys["z"] + 1..] == Seeded(d, m, got)
  {
    var s := TextOf(d, m);
    KeysSay(d, m, got);
    var z, put := KeyAt(s, "z") + 1, [Key("lat", got[ValueOf(s, "name")].0), Key("lon", got[ValueOf(s, "name")].1)];
    assert Seed(s, got) == s[..z] + put + s[z..];
    assert m.keys["z"] + 1 == m.start + z;
    hide *;
    PutBlock(d, m, s, z, put);
    assert Seeded(d, m, got) == d[..m.start] + Seed(s, got) + d[m.end..] by { SeededIs(d, m, got); }
  }

  lemma SeededIs(d: Doc, m: Mark, got: Positions)
    requires m.start <= m.end <= |d|
    ensures Seeded(d, m, got) == d[..m.start] + Seed(TextOf(d, m), got) + d[m.end..]
  {
    hide Seed, TextOf;
  }

  lemma PutBlock(d: Doc, m: Mark, s: Doc, z: nat, put: Doc)
    requires m.start <= m.end <= |d| && s == d[m.start..m.end] && z <= |s|
    ensures d[..m.start + z] + put + d[m.start + z..] == d[..m.start] + (s[..z] + put + s[z..]) + d[m.end..]
  {
    PutInside(d, m.start, m.end, z, put);
  }

  lemma NotSeeded(d: Doc, m: Mark, got: Positions)
    requires IsBlock(d, m) && !Named(TextOf(d, m), got)
    ensures d == Seeded(d, m, got)
  {
    assert d == d[..m.start] + d[m.start..m.end] + d[m.end..];
  }

  lemma ReadsBoth(d: Doc, m: Mark, got: Positions)
    requires IsBlock(d, m) && "lat" in m.keys && "lon" in m.keys
    ensures Placed(TextOf(d, m)) && m.keys["lat"] < |d| && m.keys["lon"] < |d|
    ensures d[m.keys["lat"]].Key? && d[m.keys["lon"]].Key?
    ensures Readable(TextOf(d, m)) <==> d[m.keys["lat"]].value.Number? && d[m.keys["lon"]].value.Number?
  {
    KeysSay(d, m, got);
    hide KeyAt, KeysAre, IsBlock, TextOf, Named;
  }

  /** One block changed where it stands. */
  method SeedBlock(lines: Doc, m: Mark, got: Positions) returns (ok: bool, live: Doc)
    requires IsBlock(lines, m)
    ensures m.start <= m.end <= |lines|
    ensures ok <==> !Broken(TextOf(lines, m), got)
    ensures ok ==> live == Seeded(lines, m, got)
  {
    KeysSay(lines, m, got);
    ghost var s := TextOf(lines, m);
    hide KeyAt, KeysAre, TextOf, Named, ValueOf, Seeded;
    var keys := m.keys;
    ok, live := true, lines;
    if "name" in keys && lines[keys["name"]].value in got {
      var (la, lo) := got[lines[keys["name"]].value];
      if "lat" in keys && "lon" in keys {
        ReadsBoth(lines, m, got);
        if lines[keys["lat"]].value.Words? || lines[keys["lon"]].value.Words? {
          ok := false;
          return;
        }
        SeededPlaced(lines, m, got);
        live := live[keys["lat"] := Key("lat", la)];
        live := live[keys["lon"] := Key("lon", lo)];
      } else if "z" !in keys {
        ok := false;
      } else {
        SeededAfterZ(lines, m, got);
        var at := keys["z"] + 1;
        live := live[..at] + [Key("lat", la), Key("lon", lo)] + live[at..];
      }
    } else {
      NotSeeded(lines, m, got);
    }
  }

  /** Give every point its position, the last block first, so that no insertion moves a line number
      still to be used; fails when a point has nowhere to put it, or has coordinates that are not numbers. */
  method SeedInPlace(lines: Doc, got: Positions) returns (ok: bool, live: Doc)
    ensures ok <==> NoneBroken(Sections(lines), got)
    ensures ok ==> live == SeededText(lines, got)
  {
    var found := Blocks(lines);
    ghost var edits := SetUp(lines, found, got);
    hide *;
    live := lines;
    var k := |found|;
    while k > 0
      invariant 0 <= k <= |found| && Apart(edits[k..], 0, |lines|)
      invariant live == Rewritten(lines, edits[k..], 0)
      invariant NoneBroken(Texts(lines, found[k..]), got)
    {
      k := k - 1;
      BlockStillThere(lines, found, edits, k, live, got);
      ok, live := SeedBlock(live, found[k], got);
      BrokenFrom(lines, found, k, got);
      if !ok {
        SomeBroken(lines, found, k, got);
        return;
      }
    }
    ok := true;
    Whole(edits);
    Whole(found);
  }

  lemma Whole<T>(s: seq<T>)
    ensures s[0..] == s
  {
  }

  lemma BrokenFrom(d: Doc, found: seq<Mark>, k: nat, got: Positions)
    requires k < |found|
    ensures NoneBroken(Texts(d, found[k..]), got) <==>
              !Broken(TextOf(d, found[k]), got) && NoneBroken(Texts(d, found[k + 1..]), got)
  {
    hide Broken, TextOf;
    var here, below := Texts(d, found[k..]), Texts(d, found[k + 1..]);
    assert here[0] == TextOf(d, found[k]);
    forall i | 0 <= i < |below|
      ensures here[i + 1] == below[i]
    {
    }
    forall i | 0 < i < |here|
      ensures here[i] == below[i - 1]
    {
    }
  }

  lemma SomeBroken(d: Doc, found: seq<Mark>, k: nat, got: Positions)
    requires k < |found| && Broken(TextOf(d, found[k]), got)
    ensures !NoneBroken(Texts(d, found), got)
  {
    hide Broken, TextOf;
    assert Texts(d, found)[k] == TextOf(d, found[k]);
  }

  /** Below block `k` everything is done and nothing above its end has moved. */
  lemma {:induction false} BlockStillThere(
      d: Doc, found: seq<Mark>, edits: seq<Edit<Line>>, k: nat, live: Doc, got: Positions)
    requires k < |found| == |edits| && AllBlocks(d, found) && AreEdits(d, found, edits, got)
    requires Apart(edits, 0, |d|) && Apart(edits[k + 1..], 0, |d|) && live == Rewritten(d, edits[k + 1..], 0)
    ensures IsBlock(live, found[k]) && TextOf(live, found[k]) == TextOf(d, found[k]) && Apart(edits[k..], 0, |d|)
    ensures found[k].start <= found[k].end <= |live| && Seeded(live, found[k], got) == Rewritten(d, edits[k..], 0)
  {
    hide Seed, IsBlock, Rewritten, Apart, TextOf;
    OneMoreEdit(d, edits, k, live);
    assert edits[k] == BlockEdit(d, found[k], got);
    StillThere(d, live, found[k]);
  }

  lemma StillThere(d: Doc, live: Doc, m: Mark)
    requires IsBlock(d, m) && m.end <= |live| && live[..m.end] == d[..m.end]
    ensures IsBlock(live, m) && TextOf(live, m) == TextOf(d, m)
  {
    assert d[m.start..m.end] == d[..m.end][m.start..];
    assert live[m.start..m.end] == live[..m.end][m.start..];
    assert live[m.start] == live[..m.end][m.start];
  }

  function BlockEdit(d: Doc, m: Mark, got: Positions): Edit<Line> { Edit(m.start, m.end, Seed(TextOf(d, m), got)) }

  predicate AreEdits(d: Doc, found: seq<Mark>, edits: seq<Edit<Line>>, got: Positions) {
    |edits| == |found| && forall i :: 0 <= i < |found| ==> edits[i] == BlockEdit(d, found[i], got)
  }

  /** The blocks found, as edits to be made at once. */
  lemma SetUp(lines: Doc, found: seq<Mark>, got: Positions) returns (edits: seq<Edit<Line>>)
    requires found == Points(Marks(lines))
    ensures AllBlocks(lines, found) && AreEdits(lines, found, edits, got) && |edits| == |found|
    ensures Apart(edits, 0, |lines|) && Rewritten(lines, edits, 0) == SeededText(lines, got)
    ensures Apart(edits[|edits|..], 0, |lines|) && Rewritten(lines, edits[|edits|..], 0) == lines
    ensures NoneBroken(Sections(lines), got) <==> NoneBroken(Texts(lines, found), got)
    ensures NoneBroken(Texts(lines, found[|found|..]), got)
  {
    MarksLocate(lines);
    hide Points, Marks, Sections, Seed, Preamble, SeedAll, Flatten, AllLocated, Chain, KeysAre, Broken;
    var ms, ss, from := Marks(lines), Sections(lines), |Preamble(lines)|;
    EditsSeed(lines, ms, ss, from, got);
    PointsAreBlocks(lines, ms, ss);
    BrokenPoints(lines, ms, ss, got);
    edits := BlockEdits(lines, found, got);
    hide NoneBroken;
    ApartFrom(edits, from, 0, |lines|);
    CarriedOver(lines, edits, 0, from);
    assert lines[0..from] == Preamble(lines);
    ApartTail(edits, 0, |edits|, |lines|);
    assert edits[|edits|..] == [] && lines[0..] == lines;
    NothingBroken(lines, found[|found|..], got);
  }

  lemma NothingBroken(d: Doc, ms: seq<Mark>, got: Positions)
    requires ms == []
    ensures NoneBroken(Texts(d, ms), got)
  {
  }
}
