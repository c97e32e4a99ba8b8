/**
 * The advisory heights of the approach: a published table read as one straight path, or a gradient
 * from the final approach point to minimums, rounded to hundreds and clamped.
 */
module AsrDescent {
  import opened Rounding
  import opened Arith

  /** A reading, or the exception a malformed table raises. */
  datatype Reading<T> = Read(value: T) | Unreadable

  type Row = (real, real)

  datatype DescentProfile = DescentProfile(
    fapNm: real,
    finalInterceptNm: real,
    mapNm: real,
    platformFt: int,
    mdaFt: int,
    precision: bool,
    table: seq<Row>)

  // ---------------------------------------------------------------- the published table

  predicate RowBefore(a: Row, b: Row) { a.0 < b.0 || (a.0 == b.0 && a.1 <= b.1) }

  function InsertRow(a: Row, rows: seq<Row>): seq<Row> {
    if rows == [] || RowBefore(a, rows[0]) then [a] + rows
    else [rows[0]] + InsertRow(a, rows[1..])
  }

  /** `sorted(table)`. */
  function SortRows(rows: seq<Row>): seq<Row> {
    if rows == [] then [] else InsertRow(rows[0], SortRows(rows[1..]))
  }

  /** The segment the search stops at; past the end when none holds the range. */
  function SegmentFrom(r: real, t: seq<Row>, i: nat): (k: nat)
    requires i < |t|
    ensures i <= k < |t|
    decreases |t| - i
  {
    if i == |t| - 1 then i
    else if t[i].0 <= r <= t[i + 1].0 then i
    else SegmentFrom(r, t, i + 1)
  }

  function Line(a: Row, b: Row, r: real): real
    requires a.0 != b.0
  {
    a.1 + (r - a.0) * ((b.1 - a.1) / (b.0 - a.0))
  }

  function FromTable(r: real, t: seq<Row>): Reading<real> {
    if |t| < 2 then Unreadable
    else
      var k := if r <= t[0].0 then 0 else if r >= t[|t| - 1].0 then |t| - 2 else SegmentFrom(r, t, 0);
      if k == |t| - 1 || t[k].0 == t[k + 1].0 then Unreadable
      else Read(Line(t[k], t[k + 1], r))
  }

  // ---------------------------------------------------------------- what the profile says

  function DescentGradient(p: DescentProfile): real {
    (p.platformFt - p.mdaFt) as real / Max(0.1, p.fapNm - p.mapNm)
  }

  function Fap(p: DescentProfile): real { if p.fapNm != 0.0 then p.fapNm else p.finalInterceptNm }

  function Wanted(r: real, p: DescentProfile): Reading<real> {
    if p.precision && p.table != [] then FromTable(r, SortRows(p.table))
    else Read(p.mdaFt as real + Max(0.0, r - p.mapNm) * DescentGradient(p))
  }

  function Clamp(lo: int, hi: int, x: int): int {
    var m := if x < hi then x else hi;
    if m < lo then lo else m
  }

  function AdvisoryAltitude(r: real, p: DescentProfile): Reading<int> {
    if r >= Fap(p) then Read(p.platformFt)
    else
      match Wanted(r, p)
      case Unreadable => Unreadable
      case Read(want) => Read(Clamp(p.mdaFt, p.platformFt, RoundHalfEven(want / 100.0) * 100))
  }

  /** The altitude to issue: where he should be a mile further in, never inside the missed approach
      point. */
  function DescendTo(r: real, p: DescentProfile): Reading<int> {
    AdvisoryAltitude(Max(p.mapNm, r - 1.0), p)
  }

  // ---------------------------------------------------------------- plates and sorted tables

  /** No range twice, and higher further out, in whatever order the rows come. */
  predicate Consistent(t: seq<Row>) {
    && (forall i, j :: 0 <= i < j < |t| ==> t[i].0 != t[j].0)
    && (forall i, j :: 0 <= i < |t| && 0 <= j < |t| && t[i].0 < t[j].0 ==> t[i].1 <= t[j].1)
  }

  /** What a plate prints: two rows or more. */
  predicate Plate(t: seq<Row>) { |t| >= 2 && Consistent(t) }

  predicate Ascending(t: seq<Row>) {
    && (forall i, j :: 0 <= i < j < |t| ==> t[i].0 < t[j].0)
    && (forall i, j :: 0 <= i < j < |t| ==> t[i].1 <= t[j].1)
  }

  /** Row `x` lies after row `h`. */
  predicate After(h: Row, x: Row) { h.0 < x.0 && h.1 <= x.1 }

  lemma {:induction false} InsertKeeps(a: Row, rows: seq<Row>)
    requires Ascending(rows)
    requires forall x :: x in rows ==> if x.0 < a.0 then After(x, a) else After(a, x)
    ensures var out := InsertRow(a, rows);
            Ascending(out) && |out| == |rows| + 1 && forall x :: x in out <==> x == a || x in rows
  {
    hide Ascending;
    if rows == [] {
      Prepended(a, rows);
    } else {
      HeadAndRest(rows);
      assert rows == [rows[0]] + rows[1..] && rows[0] in rows;
      if RowBefore(a, rows[0]) {
        AllAfter(a, rows);
        Prepended(a, rows);
      } else {
        InsertKeeps(a, rows[1..]);
        Prepended(rows[0], InsertRow(a, rows[1..]));
      }
    }
  }

  lemma HeadAndRest(rows: seq<Row>)
    requires rows != [] && Ascending(rows)
    ensures Ascending(rows[1..]) && forall x :: x in rows[1..] ==> After(rows[0], x)
  {
    forall x | x in rows[1..]
      ensures After(rows[0], x)
    {
      var j :| 0 <= j < |rows[1..]| && rows[1..][j] == x;
      assert rows[j + 1] == x;
    }
  }

  lemma AllAfter(a: Row, rows: seq<Row>)
    requires rows != [] && After(a, rows[0]) && forall x :: x in rows[1..] ==> After(rows[0], x)
    ensures forall x :: x in rows ==> After(a, x)
  {
    assert rows == [rows[0]] + rows[1..];
  }

  lemma Prepended(h: Row, rest: seq<Row>)
    requires Ascending(rest) && forall x :: x in rest ==> After(h, x)
    ensures Ascending([h] + rest)
  {
    var all := [h] + rest;
    forall i, j | 0 <= i < j < |all|
      ensures all[i].0 < all[j].0 && all[i].1 <= all[j].1
    {
      assert all[j] == rest[j - 1] && rest[j - 1] in rest;
    }
  }

  lemma RestFits(rows: seq<Row>, rest: seq<Row>)
    requires rows != [] && Consistent(rows) && forall x :: x in rest <==> x in rows[1..]
    ensures forall x :: x in rest ==> if x.0 < rows[0].0 then After(x, rows[0]) else After(rows[0], x)
  {
    forall x | x in rest
      ensures if x.0 < rows[0].0 then After(x, rows[0]) else After(rows[0], x)
    {
      var i :| 0 <= i < |rows[1..]| && rows[1..][i] == x;
      assert rows[i + 1] == x;
    }
  }

  lemma ConsistentTail(rows: seq<Row>)
    requires rows != [] && Consistent(rows)
    ensures Consistent(rows[1..])
  {
  }

  /** Read in the order of its ranges, every plate is a strictly rising path with the same rows. */
  lemma {:induction false} PlateSorts(rows: seq<Row>)
    requires Consistent(rows)
    ensures |SortRows(rows)| == |rows| && Ascending(SortRows(rows))
    ensures forall x :: x in SortRows(rows) <==> x in rows
  {
    hide Consistent, Ascending, InsertRow;
    if rows == [] {
      NothingAscends();
    } else {
      ConsistentTail(rows);
      PlateSorts(rows[1..]);
      RestFits(rows, SortRows(rows[1..]));
      InsertKeeps(rows[0], SortRows(rows[1..]));
      assert rows == [rows[0]] + rows[1..];
    }
  }

  lemma NothingAscends()
    ensures Ascending([])
  {
  }

  // ---------------------------------------------------------------- reading a rising table

  predicate OnSegment(r: real, t: seq<Row>, k: nat) {
    && k + 1 < |t|
    && (k > 0 ==> t[k].0 <= r)
    && (k + 2 < |t| ==> r <= t[k + 1].0)
  }

  lemma {:induction false} SegmentFound(r: real, t: seq<Row>, i: nat)
    requires i < |t| && t[i].0 <= r && r <= t[|t| - 1].0 && i + 1 < |t|
    ensures var k := SegmentFrom(r, t, i); k + 1 < |t| && t[k].0 <= r <= t[k + 1].0
    decreases |t| - i
  {
    if !(t[i].0 <= r <= t[i + 1].0) {
      SegmentFound(r, t, i + 1);
    }
  }

  /** A rising table is read at every range, on a segment that spans it. */
  lemma TableAlwaysReads(r: real, t: seq<Row>) returns (k: nat)
    requires |t| >= 2 && Ascending(t)
    ensures OnSegment(r, t, k) && t[k].0 < t[k + 1].0
    ensures FromTable(r, t) == Read(Line(t[k], t[k + 1], r))
  {
    if r <= t[0].0 {
      k := 0;
    } else if r >= t[|t| - 1].0 {
      k := |t| - 2;
    } else {
      SegmentFound(r, t, 0);
      k := SegmentFrom(r, t, 0);
    }
  }

  lemma LineEnds(a: Row, b: Row)
    requires a.0 < b.0
    ensures Line(a, b, a.0) == a.1 && Line(a, b, b.0) == b.1
  {
    var d := b.0 - a.0;
    assert d * ((b.1 - a.1) / d) == b.1 - a.1;
  }

  lemma LineRises(a: Row, b: Row, r: real, s: real)
    requires a.0 < b.0 && a.1 <= b.1 && r <= s
    ensures Line(a, b, r) <= Line(a, b, s)
  {
    var slope := (b.1 - a.1) / (b.0 - a.0);
    assert slope >= 0.0 by {
      assert slope * (b.0 - a.0) == b.1 - a.1;
      if slope < 0.0 { MulPos(-slope, b.0 - a.0); }
    }
    MulMono(r - a.0, s - a.0, slope);
  }

  /** The table passes through every row it prints. */
  lemma HitsEveryRow(t: seq<Row>, i: nat)
    requires |t| >= 2 && Ascending(t) && i < |t|
    ensures FromTable(t[i].0, t) == Read(t[i].1)
  {
    var k := TableAlwaysReads(t[i].0, t);
    LineEnds(t[k], t[k + 1]);
  }

  /** Further out is never lower, over every real range and across every row. */
  lemma TableRises(r: real, s: real, t: seq<Row>)
    requires |t| >= 2 && Ascending(t) && r <= s
    ensures FromTable(r, t).Read? && FromTable(s, t).Read?
    ensures FromTable(r, t).value <= FromTable(s, t).value
  {
    var i := TableAlwaysReads(r, t);
    var j := TableAlwaysReads(s, t);
    LineEnds(t[i], t[i + 1]);
    LineEnds(t[j], t[j + 1]);
    if i == j {
      LineRises(t[i], t[i + 1], r, s);
    } else if i < j {
      LineRises(t[i], t[i + 1], r, t[i + 1].0);
      LineRises(t[j], t[j + 1], t[j].0, s);
      if i + 1 < j { assert t[i + 1].1 <= t[j].1; }
    } else {
      assert r == s == t[i].0 && i == j + 1;
    }
  }

  // ---------------------------------------------------------------- the advisory height

  /** Minimums no higher than platform, and a table only if it is a plate. */
  predicate Published(p: DescentProfile) {
    && p.mdaFt <= p.platformFt
    && (p.precision && p.table != [] ==> Plate(p.table))
  }

  lemma WantedRises(r: real, s: real, p: DescentProfile)
    requires Published(p) && r <= s
    ensures Wanted(r, p).Read? && Wanted(s, p).Read? && Wanted(r, p).value <= Wanted(s, p).value
  {
    if p.precision && p.table != [] {
      PlateSorts(p.table);
      TableRises(r, s, SortRows(p.table));
    } else {
      var run, drop := Max(0.1, p.fapNm - p.mapNm), (p.platformFt - p.mdaFt) as real;
      assert DescentGradient(p) * run == drop;
      if DescentGradient(p) < 0.0 { MulPos(-DescentGradient(p), run); }
      MulMono(Max(0.0, r - p.mapNm), Max(0.0, s - p.mapNm), DescentGradient(p));
    }
  }

  /** Further out is never lower, and every height is between minimums and platform. */
  lemma AdvisoryRises(r: real, s: real, p: DescentProfile)
    requires Published(p) && r <= s
    ensures AdvisoryAltitude(r, p).Read? && AdvisoryAltitude(s, p).Read?
    ensures p.mdaFt <= AdvisoryAltitude(r, p).value <= AdvisoryAltitude(s, p).value <= p.platformFt
  {
    WantedRises(r, s, p);
    RoundMonotone(Wanted(r, p).value / 100.0, Wanted(s, p).value / 100.0);
  }

  /** From the missed approach point outward the height issued is never above the height he should
      be at now; a mile or more outside it, it is the height he should be at a mile further in. */
  lemma IssuedIsAhead(r: real, p: DescentProfile)
    requires Published(p) && r >= p.mapNm
    ensures DescendTo(r, p).Read? && AdvisoryAltitude(r, p).Read?
    ensures p.mdaFt <= DescendTo(r, p).value <= AdvisoryAltitude(r, p).value
    ensures r - 1.0 >= p.mapNm ==> DescendTo(r, p) == AdvisoryAltitude(r - 1.0, p)
  {
    AdvisoryRises(Max(p.mapNm, r - 1.0), r, p);
  }

  /** The height before it is rounded; the table always reads. */
  function Height(r: real, p: DescentProfile): real
    requires Published(p)
  {
    WantedRises(r, r, p);
    Wanted(r, p).value
  }

  predicate OnGradient(p: DescentProfile) { !(p.precision && p.table != []) }

  /** The gradient is the straight line between the two published points: minimums at the missed
      approach point, platform at the final approach point, and between them height in proportion. */
  lemma GradientJoinsThePoints(p: DescentProfile, r: real)
    requires Published(p) && OnGradient(p) && p.mapNm + 0.1 <= p.fapNm && p.mapNm <= r <= p.fapNm
    ensures Height(p.mapNm, p) == p.mdaFt as real && Height(p.fapNm, p) == p.platformFt as real
    ensures (Height(r, p) - p.mdaFt as real) * (p.fapNm - p.mapNm) == (r - p.mapNm) * (p.platformFt - p.mdaFt) as real
  {
    var run, drop := p.fapNm - p.mapNm, (p.platformFt - p.mdaFt) as real;
    var g := drop / run;
    assert Max(0.1, run) == run && DescentGradient(p) == g && g * run == drop;
    Proportion(r - p.mapNm, g, run, drop);
  }

  lemma Proportion(x: real, g: real, run: real, drop: real)
    requires g * run == drop
    ensures x * g * run == x * drop
  {
  }

  /** Equal falls over equal distances. */
  lemma GradientFallsEvenly(p: DescentProfile, r: real, s: real, dist: real)
    requires Published(p) && OnGradient(p) && p.mapNm <= r && p.mapNm <= s && dist >= 0.0
    ensures Height(r + dist, p) - Height(r, p) == Height(s + dist, p) - Height(s, p)
  {
    var g := DescentGradient(p);
    assert (r + dist - p.mapNm) * g == (r - p.mapNm) * g + dist * g;
    assert (s + dist - p.mapNm) * g == (s - p.mapNm) * g + dist * g;
  }

  /** A height kept between minimums and platform. */
  function Kept(p: DescentProfile, ft: real): real { Max(p.mdaFt as real, Min(p.platformFt as real, ft)) }

  /** The height he should be at is the profile's own, kept between minimums and platform, to the nearest
      hundred feet. */
  lemma AdvisoryIsNearHeight(p: DescentProfile, r: real)
    requires Published(p)
    ensures AdvisoryAltitude(r, p).Read?
    ensures if r >= Fap(p) then AdvisoryAltitude(r, p).value == p.platformFt
            else Abs(AdvisoryAltitude(r, p).value as real - Kept(p, Height(r, p))) <= 50.0
  {
    AdvisoryRises(r, r, p);
    if r < Fap(p) {
      var want := Height(r, p);
      var n := RoundHalfEven(want / 100.0);
      assert want == 100.0 * (want / 100.0);
      assert Abs((n * 100) as real - want) <= 50.0;
      KeptIsNear(p, n * 100, want);
    }
  }

  lemma KeptIsNear(p: DescentProfile, n: int, want: real)
    requires p.mdaFt <= p.platformFt && Abs(n as real - want) <= 50.0
    ensures Abs(Clamp(p.mdaFt, p.platformFt, n) as real - Kept(p, want)) <= 50.0
  {
  }

  lemma AdvisoryIsNearGradient(p: DescentProfile, r: real)
    requires Published(p) && OnGradient(p) && p.fapNm != 0.0
    requires p.mapNm + 0.1 <= p.fapNm && p.mapNm <= r <= p.fapNm
    ensures AdvisoryAltitude(r, p).Read? && Abs(AdvisoryAltitude(r, p).value as real - Height(r, p)) <= 50.0
  {
    GradientStaysBetween(p, r);
    AdvisoryIsNearHeight(p, r);
    hide AdvisoryAltitude, Height;
    if r == p.fapNm { AtTheFap(p); }
  }

  lemma AtTheFap(p: DescentProfile)
    requires Published(p) && OnGradient(p) && p.mapNm + 0.1 <= p.fapNm
    ensures Height(p.fapNm, p) == p.platformFt as real
  {
    hide Height;
    GradientJoinsThePoints(p, p.fapNm);
  }

  /** So on the gradient he is told to be within fifty feet of the line from minimums at the missed approach
      point to platform at the final approach point. */
  lemma AdvisoryIsNearTheLine(p: DescentProfile, r: real, line: real)
    requires Published(p) && OnGradient(p) && p.fapNm != 0.0
    requires p.mapNm + 0.1 <= p.fapNm && p.mapNm <= r <= p.fapNm
    requires (line - p.mdaFt as real) * (p.fapNm - p.mapNm) == (r - p.mapNm) * (p.platformFt - p.mdaFt) as real
    ensures AdvisoryAltitude(r, p).Read? && Abs(AdvisoryAltitude(r, p).value as real - line) <= 50.0
  {
    hide *;
    GradientJoinsThePoints(p, r);
    SameLine(line, Height(r, p), p.mdaFt as real, p.fapNm - p.mapNm);
    AdvisoryIsNearGradient(p, r);
  }

  lemma GradientStaysBetween(p: DescentProfile, r: real)
    requires Published(p) && OnGradient(p) && p.mapNm + 0.1 <= p.fapNm && p.mapNm <= r <= p.fapNm
    ensures p.mdaFt as real <= Height(r, p) <= p.platformFt as real
  {
    GradientJoinsThePoints(p, r);
    WantedRises(p.mapNm, r, p);
    WantedRises(r, p.fapNm, p);
    hide Wanted;
  }

  lemma SameLine(x: real, y: real, from: real, run: real)
    requires run > 0.0 && (x - from) * run == (y - from) * run
    ensures x == y
  {
    if x < y {
      MulPos(y - x, run);
    } else if y < x {
      MulPos(x - y, run);
    }
    assert (y - x) * run == (y - from) * run - (x - from) * run;
  }

  /** And on a table the height between two rows is in proportion between theirs. */
  lemma TableIsStraight(r: real, t: seq<Row>, k: nat)
    requires |t| >= 2 && Ascending(t) && k + 1 < |t| && t[k].0 <= r <= t[k + 1].0
    ensures FromTable(r, t).Read?
    ensures (FromTable(r, t).value - t[k].1) * (t[k + 1].0 - t[k].0) == (r - t[k].0) * (t[k + 1].1 - t[k].1)
  {
    ReadsOn(r, t, k);
    LineIsStraight(t[k], t[k + 1], r);
    hide *;
  }

  lemma ReadsOn(r: real, t: seq<Row>, k: nat)
    requires |t| >= 2 && Ascending(t) && k + 1 < |t| && t[k].0 <= r <= t[k + 1].0
    ensures FromTable(r, t) == Read(Line(t[k], t[k + 1], r))
  {
    var i := TableAlwaysReads(r, t);
    LineEnds(t[i], t[i + 1]);
    LineEnds(t[k], t[k + 1]);
    hide Line, FromTable;
    if i < k { assert t[i + 1].0 <= t[k].0; } else if k < i { assert t[k + 1].0 <= t[i].0; }
  }

  lemma LineIsStraight(a: Row, b: Row, r: real)
    requires a.0 < b.0
    ensures (Line(a, b, r) - a.1) * (b.0 - a.0) == (r - a.0) * (b.1 - a.1)
  {
    var d := b.0 - a.0;
    assert (b.1 - a.1) / d * d == b.1 - a.1;
    Proportion(r - a.0, (b.1 - a.1) / d, d, b.1 - a.1);
  }

  /** At every range a glidepath prints, short of the final approach point, he is told to be within fifty feet
      of the height printed, kept between minimums and platform. */
  lemma PrintedRowsAreTold(p: DescentProfile, row: Row)
    requires Published(p) && p.precision && row in p.table && row.0 < Fap(p)
    ensures AdvisoryAltitude(row.0, p).Read?
    ensures Abs(AdvisoryAltitude(row.0, p).value as real - Kept(p, row.1)) <= 50.0
  {
    var t := SortRows(p.table);
    PlateSorts(p.table);
    assert row in t;
    var i :| 0 <= i < |t| && t[i] == row;
    HitsEveryRow(t, i);
    AdvisoryIsNearHeight(p, row.0);
    hide FromTable, SortRows;
  }

  // ---------------------------------------------------------------- inside the missed approach point

  /** The height rounds to less than `n` hundreds. */
  predicate RoundsBelow(height: real, n: int) {
    height < (100 * n - 50) as real || (height == (100 * n - 50) as real && n % 2 == 1)
  }

  lemma RoundsBelowExactly(height: real, n: int)
    ensures RoundHalfEven(height / 100.0) < n <==> RoundsBelow(height, n)
  {
    var x := height / 100.0;
    assert height == 100.0 * x;
    assert x - x.Floor as real < 1.0;
  }

  /** Between `r` and the missed approach point the profile passes a boundary of the rounding, above
      minimums and below platform. */
  ghost predicate Crosses(p: DescentProfile, r: real)
    requires Published(p)
  {
    && p.mdaFt < p.platformFt
    && exists n: int :: RoundsBelow(Height(r, p), n) && !RoundsBelow(Height(p.mapNm, p), n)
                     && p.mdaFt < 100 * n && 100 * (n - 1) < p.platformFt
  }

  /** At `r` the profile is past the last boundary of the rounding below platform. */
  predicate AtPlatform(p: DescentProfile, r: real)
    requires Published(p)
  {
    p.mdaFt == p.platformFt || !RoundsBelow(Height(r, p), (p.platformFt + 99) / 100)
  }

  /** The altitude issued is no higher than the one he should be at now. */
  predicate NeverAbove(p: DescentProfile, r: real)
    requires Published(p)
  {
    AdvisoryRises(Max(p.mapNm, r - 1.0), Max(p.mapNm, r - 1.0), p);
    AdvisoryRises(r, r, p);
    DescendTo(r, p).value <= AdvisoryAltitude(r, p).value
  }

  /** Exactly where that holds: outside the missed approach point or the final approach point; inside
      both, when no boundary is passed on the way in from the missed approach point or, should that lie
      outside the final approach point, when the last one below platform has not been. */
  lemma NeverAboveExactly(p: DescentProfile, r: real)
    requires Published(p)
    ensures NeverAbove(p, r) <==>
              || r >= p.mapNm || r >= Fap(p)
              || (if p.mapNm >= Fap(p) then AtPlatform(p, r) else !Crosses(p, r))
  {
    if r >= p.mapNm {
      IssuedIsAhead(r, p);
    } else {
      AtThePoint(p, r);
      if r < Fap(p) {
        var low, high := RoundHalfEven(Height(r, p) / 100.0), RoundHalfEven(Height(p.mapNm, p) / 100.0);
        RoundsBelowExactly(Height(r, p), (p.platformFt + 99) / 100);
        hide Height, RoundHalfEven, Crosses, RoundsBelow, NeverAbove, AdvisoryAltitude, DescendTo;
        if p.mapNm < Fap(p) { CrossesExactly(p, r, low, high); }
      }
    }
  }

  /** Inside the missed approach point what is issued is the height for that point. */
  lemma AtThePoint(p: DescentProfile, r: real)
    requires Published(p) && r < p.mapNm
    ensures var low, high := RoundHalfEven(Height(r, p) / 100.0), RoundHalfEven(Height(p.mapNm, p) / 100.0);
            && low <= high
            && NeverAbove(p, r) ==
                 if r >= Fap(p) then true
                 else if p.mapNm >= Fap(p) then Clamp(p.mdaFt, p.platformFt, low * 100) >= p.platformFt
                 else Clamp(p.mdaFt, p.platformFt, high * 100) <= Clamp(p.mdaFt, p.platformFt, low * 100)
  {
    assert Max(p.mapNm, r - 1.0) == p.mapNm;
    WantedRises(r, p.mapNm, p);
    AdvisoryRises(r, p.mapNm, p);
    RoundMonotone(Height(r, p) / 100.0, Height(p.mapNm, p) / 100.0);
    hide Wanted, RoundHalfEven, Fap;
  }

  lemma CrossesExactly(p: DescentProfile, r: real, low: int, high: int)
    requires Published(p) && low <= high
    requires low == RoundHalfEven(Height(r, p) / 100.0) && high == RoundHalfEven(Height(p.mapNm, p) / 100.0)
    ensures Crosses(p, r) <==> Clamp(p.mdaFt, p.platformFt, high * 100) > Clamp(p.mdaFt, p.platformFt, low * 100)
  {
    var here, there := Height(r, p), Height(p.mapNm, p);
    hide Height, RoundHalfEven, RoundsBelow;
    forall n: int
      ensures RoundsBelow(here, n) <==> low < n
      ensures RoundsBelow(there, n) <==> high < n
    {
      RoundsBelowExactly(here, n);
      RoundsBelowExactly(there, n);
    }
    if Clamp(p.mdaFt, p.platformFt, high * 100) > Clamp(p.mdaFt, p.platformFt, low * 100) {
      var above := p.mdaFt / 100 + 1;
      var n := if low + 1 > above then low + 1 else above;
      assert RoundsBelow(here, n) && !RoundsBelow(there, n);
    }
  }

  /** On the gradient there is nothing to cross: inside the point the height is minimums. */
  lemma GradientNeverAbove(p: DescentProfile, r: real)
    requires Published(p) && !(p.precision && p.table != []) && p.mapNm < Fap(p)
    ensures NeverAbove(p, r)
  {
    NeverAboveExactly(p, r);
    if r < p.mapNm {
      assert Max(0.0, r - p.mapNm) == 0.0 && Max(0.0, p.mapNm - p.mapNm) == 0.0;
      assert Height(r, p) == Height(p.mapNm, p);
    }
  }

  /** On a table, more than a hundred feet to lose between the point and `r` always crosses one. */
  lemma SteepInsideIsAbove(p: DescentProfile, r: real)
    requires Published(p) && r < p.mapNm < Fap(p)
    requires p.mdaFt as real <= Height(r, p) && Height(p.mapNm, p) <= p.platformFt as real
    requires Height(p.mapNm, p) > Height(r, p) + 100.0
    ensures !NeverAbove(p, r)
  {
    NeverAboveExactly(p, r);
    var n := RoundHalfEven(Height(r, p) / 100.0) + 1;
    RoundsBelowExactly(Height(r, p), n);
    RoundsBelowExactly(Height(p.mapNm, p), n);
    hide Height, RoundsBelow;
    assert RoundsBelow(Height(r, p), n) && !RoundsBelow(Height(p.mapNm, p), n);
  }

  /** Inside the missed approach point the bound fails on a table that keeps descending there. */
  lemma IssuedAboveInsideTheMap()
    ensures var p := DescentProfile(6.0, 11.0, 1.0, 2000, 100, true, [(6.0, 2010.0), (1.0, 387.0)]);
            && Published(p)
            && AdvisoryAltitude(0.5, p) == Read(200) && DescendTo(0.5, p) == Read(400)
  {
    var a, b := (1.0, 387.0), (6.0, 2010.0);
    SortedPair(a, b);
    assert Line(a, b, 0.5) == 224.7 && Line(a, b, 1.0) == 387.0;
    hide SortRows, Line;
    assert FromTable(0.5, [a, b]) == Read(224.7) && FromTable(1.0, [a, b]) == Read(387.0);
    assert RoundHalfEven(2.247) == 2 && RoundHalfEven(3.87) == 4;
  }

  lemma SortedPair(a: Row, b: Row)
    requires a.0 < b.0
    ensures SortRows([b, a]) == [a, b]
  {
    assert [b, a][1..] == [a] && [a][1..] == [];
    assert SortRows([a]) == [a];
    var none: seq<Row> := [];
    assert InsertRow(b, none) == [b];
  }
}
