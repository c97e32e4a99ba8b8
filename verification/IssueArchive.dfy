/**
 * The issue tracker's text, line by line: an entry runs from its own heading to the next one.  Closed
 * entries are moved to the archive by splicing from the bottom up; a status is rewritten in place.
 */
module IssueArchive {
  import opened Option
  import opened Sectioned
  import opened Splice
  import opened Text

  /** A line, with the white space that ends it where the rest of it matters. */
  datatype Line =
    | Heading(slug: string, title: string, num: Maybe<nat>, tail: string)
    | Status(word: string, tail: string)
    | Body(text: string)

  type Doc = seq<Line>

  // ---------------------------------------------------------------- parsing

  predicate IsHeading(l: Line) { l.Heading? }

  /** Every entry, as the lines from its heading to the next. */
  function Issues(d: Doc): seq<Doc> { Sectioned.Sections(d, IsHeading) }

  /** What stands before the first heading. */
  function Preamble(d: Doc): Doc { Sectioned.Before(d, IsHeading) }

  datatype Entry = Entry(num: Maybe<nat>, at: nat, end: nat)

  /** The entries one after another, each ending where the next begins. */
  predicate Chain(es: seq<Entry>, from: nat, n: nat)
    decreases |es|
  {
    if es == [] then from == n else es[0].at == from && from < es[0].end <= n && Chain(es[1..], es[0].end, n)
  }

  predicate IsIssue(c: Doc) { Sectioned.IsSection(c, IsHeading) }

  /** Entry `e` is issue `c` of the document. */
  predicate Locates(d: Doc, e: Entry, c: Doc) {
    IsIssue(c) && StandsAt(d, e.at, e.end, c) && e.num == c[0].num
  }

  predicate AllLocated(d: Doc, es: seq<Entry>, cs: seq<Doc>) {
    |es| == |cs| && forall k :: 0 <= k < |es| ==> Locates(d, es[k], cs[k])
  }

  predicate Parses(d: Doc, es: seq<Entry>) { Chain(es, |Preamble(d)|, |d|) && AllLocated(d, es, Issues(d)) }

  lemma {:induction false} ChainSnoc(es: seq<Entry>, from: nat, n: nat, e: Entry)
    requires Chain(es, from, n) && e.at == n && n < e.end
    ensures Chain(es + [e], from, e.end)
    decreases |es|
  {
    if es == [] {
      assert ([] + [e])[1..] == [];
    } else {
      ChainSnoc(es[1..], es[0].end, n, e);
      assert (es + [e])[1..] == es[1..] + [e];
    }
  }

  lemma ChainGrows(es: seq<Entry>, from: nat, n: nat)
    requires es != [] && Chain(es, from, n)
    ensures es[|es| - 1].end == n && Chain(es[..|es| - 1] + [es[|es| - 1].(end := n + 1)], from, n + 1)
    decreases |es|
  {
    var last := es[|es| - 1].(end := n + 1);
    if |es| == 1 {
      assert es[1..] == [] && es[..0] + [last] == [last] && [last][1..] == [];
    } else {
      ChainGrows(es[1..], es[0].end, n);
      assert (es[..|es| - 1] + [last])[1..] == es[1..][..|es| - 2] + [last];
    }
  }

  /** One pass over the lines: a heading opens an entry, anything else belongs to the one open. */
  method Entries(d: Doc) returns (es: seq<Entry>)
    ensures Parses(d, es)
  {
    es := [];
    assert Preamble([]) == [] && Issues([]) == [];
    for n := 0 to |d|
      invariant Parses(d[..n], es)
    {
      hide Parses;
      assert d[..n + 1] == d[..n] + [d[n]];
      ghost var was := es;
      if d[n].Heading? {
        es := es + [Entry(d[n].num, n, n + 1)];
        HeadingOpens(d[..n], d[n], was);
      } else if es != [] {
        es := es[..|es| - 1] + [es[|es| - 1].(end := n + 1)];
        LineBelongs(d[..n], d[n], was);
      } else {
        LineBefore(d[..n], d[n]);
      }
    }
    assert d[..|d|] == d;
  }

  lemma IssuesSnoc(d: Doc, l: Line)
    ensures var found := Issues(d);
            Issues(d + [l]) == if l.Heading? then found + [[l]]
                               else if found == [] then []
                               else found[..|found| - 1] + [found[|found| - 1] + [l]]
    ensures Preamble(d + [l]) == if l.Heading? || Issues(d) != [] then Preamble(d) else d + [l]
  {
    Sectioned.SectionsSnoc(d, l, IsHeading);
  }

  lemma Grown(c: Doc, l: Line)
    requires IsIssue(c) && !l.Heading?
    ensures IsIssue(c + [l]) && (c + [l])[0] == c[0]
  {
  }

  lemma StillLocated(d: Doc, l: Line, es: seq<Entry>, cs: seq<Doc>)
    requires AllLocated(d, es, cs)
    ensures AllLocated(d + [l], es, cs)
  {
    hide IsIssue;
    forall k | 0 <= k < |es|
      ensures Locates(d + [l], es[k], cs[k])
    {
      assert Locates(d, es[k], cs[k]);
      StillStands(d, l, es[k].at, es[k].end, cs[k]);
    }
  }

  lemma OneMoreLocated(d: Doc, es: seq<Entry>, cs: seq<Doc>, e: Entry, c: Doc)
    requires AllLocated(d, es, cs) && Locates(d, e, c)
    ensures AllLocated(d, es + [e], cs + [c])
  {
    hide Locates;
  }

  lemma HeadingOpens(d: Doc, l: Line, es: seq<Entry>)
    requires l.Heading? && Parses(d, es)
    ensures Parses(d + [l], es + [Entry(l.num, |d|, |d| + 1)])
  {
    var e := Entry(l.num, |d|, |d| + 1);
    assert (d + [l])[|d|..|d| + 1] == [l];
    assert Locates(d + [l], e, [l]);
    hide Chain, Issues, Preamble, Locates, AllLocated;
    IssuesSnoc(d, l);
    ChainSnoc(es, |Preamble(d)|, |d|, e);
    StillLocated(d, l, es, Issues(d));
    OneMoreLocated(d + [l], es, Issues(d), e, [l]);
  }

  lemma LineBelongs(d: Doc, l: Line, es: seq<Entry>)
    requires !l.Heading? && es != [] && Parses(d, es)
    ensures Parses(d + [l], es[..|es| - 1] + [es[|es| - 1].(end := |d| + 1)])
  {
    hide Issues, Preamble, Chain, Locates;
    var was, m := Issues(d), |es| - 1;
    var e := es[m].(end := |d| + 1);
    ChainGrows(es, |Preamble(d)|, |d|);
    LastGrows(d, l, es, was, e);
    hide AllLocated;
    IssuesSnoc(d, l);
    OneMoreLocated(d + [l], es[..m], was[..m], e, was[m] + [l]);
  }

  lemma LastGrows(d: Doc, l: Line, es: seq<Entry>, cs: seq<Doc>, e: Entry)
    requires !l.Heading? && es != [] && AllLocated(d, es, cs) && es[|es| - 1].end == |d|
    requires e == es[|es| - 1].(end := |d| + 1)
    ensures AllLocated(d + [l], es[..|es| - 1], cs[..|es| - 1])
    ensures Locates(d + [l], e, cs[|es| - 1] + [l])
  {
    var m := |es| - 1;
    StillLocated(d, l, es, cs);
    assert Locates(d, es[m], cs[m]);
    Grown(cs[m], l);
    hide IsIssue;
    StandsLonger(d, l, e.at, cs[m]);
  }

  lemma LineBefore(d: Doc, l: Line)
    requires !l.Heading? && Parses(d, [])
    ensures Parses(d + [l], [])
  {
    IssuesSnoc(d, l);
  }

  // ---------------------------------------------------------------- trailing white space

  predicate Blank(l: Line) { l.Body? && StripRight(l.text) == "" }

  function Bare(l: Line): Line {
    match l
    case Heading(slug, title, num, tail) => Heading(slug, title, num, "")
    case Status(word, tail) => Status(word, StripRight(tail))
    case Body(text) => Body(StripRight(text))
  }

  function RStrip(d: Doc): Doc {
    if d == [] then []
    else if Blank(d[|d| - 1]) then RStrip(d[..|d| - 1])
    else d[..|d| - 1] + [Bare(d[|d| - 1])]
  }

  /** Stripping a document takes the blank lines off its end and the white space off the last line left. */
  lemma {:induction false} RStripTakesTheEnd(d: Doc) returns (n: nat)
    ensures n <= |d| && (forall i :: n <= i < |d| ==> Blank(d[i]))
    ensures if n == 0 then RStrip(d) == [] else !Blank(d[n - 1]) && RStrip(d) == d[..n - 1] + [Bare(d[n - 1])]
  {
    if d == [] {
      n := 0;
    } else if Blank(d[|d| - 1]) {
      n := RStripTakesTheEnd(d[..|d| - 1]);
      if n > 0 { assert d[..|d| - 1][..n - 1] == d[..n - 1]; }
    } else {
      n := |d|;
    }
  }

  function Trimmed(cs: seq<Doc>): (r: seq<Doc>)
    ensures |r| == |cs|
  {
    seq(|cs|, i requires 0 <= i < |cs| => RStrip(cs[i]))
  }

  lemma {:induction false} StripTwice(s: string)
    ensures StripRight(StripRight(s)) == StripRight(s)
  {
    if s != [] && IsSpace(s[|s| - 1]) { StripTwice(s[..|s| - 1]); }
  }

  lemma BareTwice(l: Line)
    ensures Bare(Bare(l)) == Bare(l) && Blank(Bare(l)) == Blank(l)
  {
    match l
    case Heading(slug, title, num, tail) =>
    case Status(word, tail) => StripTwice(tail);
    case Body(text) => StripTwice(text);
  }

  lemma {:induction false} RStripSnoc(d: Doc, l: Line)
    ensures RStrip(d + [l]) == if Blank(l) then RStrip(d) else d + [Bare(l)]
  {
    assert (d + [l])[..|d|] == d;
  }

  lemma {:induction false} RStripTwice(d: Doc)
    ensures RStrip(RStrip(d)) == RStrip(d)
  {
    if d != [] {
      var l, rest := d[|d| - 1], d[..|d| - 1];
      if Blank(l) {
        RStripTwice(rest);
      } else {
        BareTwice(l);
        RStripSnoc(rest, Bare(l));
      }
    }
  }

  lemma {:induction false} TrimmedSnoc(cs: seq<Doc>, c: Doc)
    ensures Trimmed(cs + [c]) == Trimmed(cs) + [RStrip(c)]
  {
    hide RStrip;
  }

  lemma TrimmedTail(cs: seq<Doc>)
    requires cs != []
    ensures Trimmed(cs) == Trimmed(cs[..|cs| - 1]) + [RStrip(cs[|cs| - 1])]
    ensures Trimmed(cs) == [RStrip(cs[0])] + Trimmed(cs[1..])
  {
    hide RStrip;
  }

  lemma LastStripped(d: Doc, l: Line, l': Line)
    requires if Blank(l) then Blank(l') else !Blank(l') && Bare(l) == Bare(l')
    requires l.Heading? == l'.Heading?
    ensures Trimmed(Issues(d + [l])) == Trimmed(Issues(d + [l']))
  {
    var found := Issues(d);
    IssuesSnoc(d, l);
    IssuesSnoc(d, l');
    if l.Heading? {
      RStripSnoc([], l);
      RStripSnoc([], l');
      assert [] + [l] == [l] && [] + [l'] == [l'];
      hide Issues, RStrip, Blank, Bare;
      TrimmedSnoc(found, [l]);
      TrimmedSnoc(found, [l']);
    } else if found != [] {
      var c := found[|found| - 1];
      RStripSnoc(c, l);
      RStripSnoc(c, l');
      hide Issues, RStrip, Blank, Bare;
      TrimmedSnoc(found[..|found| - 1], c + [l]);
      TrimmedSnoc(found[..|found| - 1], c + [l']);
    }
  }

  lemma BlankLast(d: Doc, l: Line)
    requires Blank(l)
    ensures Trimmed(Issues(d + [l])) == Trimmed(Issues(d))
  {
    var found := Issues(d);
    IssuesSnoc(d, l);
    if found != [] {
      var c := found[|found| - 1];
      RStripSnoc(c, l);
      hide Issues, RStrip, Blank;
      TrimmedSnoc(found[..|found| - 1], c + [l]);
      TrimmedTail(found);
    }
  }

  /** Trailing white space is all that stripping a document takes from its entries. */
  lemma {:induction false} StrippingKeepsIssues(d: Doc)
    ensures Trimmed(Issues(RStrip(d))) == Trimmed(Issues(d))
  {
    if d != [] {
      var l, rest := d[|d| - 1], d[..|d| - 1];
      assert d == rest + [l];
      RStripSnoc(rest, l);
      hide Issues, RStrip, Bare, Trimmed, Blank;
      if Blank(l) {
        StrippingKeepsIssues(rest);
        BlankLast(rest, l);
      } else {
        BareTwice(l);
        BareHeading(l);
        LastStripped(rest, l, Bare(l));
      }
    }
  }

  lemma BareHeading(l: Line)
    ensures Bare(l).Heading? == l.Heading?
  {
  }

  // ---------------------------------------------------------------- putting entries together

  predicate AllIssues(cs: seq<Doc>) { Sectioned.AllSections(cs, IsHeading) }

  lemma {:induction false} IssuesFlatten(a: Doc, cs: seq<Doc>)
    requires AllIssues(cs)
    ensures Issues(a + Flatten(cs)) == Issues(a) + cs && Preamble(a + Flatten(cs)) == Preamble(a)
  {
    Sectioned.SectionsFlatten(a, cs, IsHeading);
  }

  lemma IssuesAreIssues(d: Doc)
    ensures AllIssues(Issues(d)) && Issues(Preamble(d)) == [] && Preamble(Preamble(d)) == Preamble(d)
    ensures Preamble(d) <= d
  {
    Sectioned.SectionsAreSections(d, IsHeading);
    Sectioned.NothingBefore(d, IsHeading);
  }

  lemma {:induction false} StrippedIssue(c: Doc)
    requires IsIssue(c)
    ensures IsIssue(RStrip(c)) && RStrip(c)[0].num == c[0].num
  {
    if |c| > 1 {
      StrippedHead(c);
    } else {
      assert c[..0] == [];
    }
  }

  lemma {:induction false} StrippedHead(c: Doc)
    requires IsIssue(c)
    ensures IsIssue(RStrip(c)) && RStrip(c)[0].num == c[0].num
  {
    var rest := c[..|c| - 1];
    if Blank(c[|c| - 1]) { StrippedHead(rest); }
    else if rest == [] { assert RStrip(c) == [Bare(c[0])]; }
  }

  // ---------------------------------------------------------------- the archive

  predicate Out(num: Maybe<nat>, closed: set<nat>) { num.Some? && num.value in closed }

  function Keep(cs: seq<Doc>, closed: set<nat>): seq<Doc>
    requires AllIssues(cs)
  {
    if cs == [] then [] else (if Out(cs[0][0].num, closed) then [] else [cs[0]]) + Keep(cs[1..], closed)
  }

  function Gone(cs: seq<Doc>, closed: set<nat>): seq<Doc>
    requires AllIssues(cs)
  {
    if cs == [] then [] else (if Out(cs[0][0].num, closed) then [cs[0]] else []) + Gone(cs[1..], closed)
  }

  function Cuts(es: seq<Entry>, closed: set<nat>): seq<Edit<Line>> {
    if es == [] then []
    else if Out(es[0].num, closed) && es[0].at <= es[0].end then [Edit(es[0].at, es[0].end, [])] + Cuts(es[1..], closed)
    else Cuts(es[1..], closed)
  }

  const EMPTY := Body("")

  /** Chunk put after what the archive holds, one blank line between. */
  function Glue(shelf: Doc, chunk: Doc): Doc {
    var o := RStrip(shelf);
    o + (if o == [] then [EMPTY, EMPTY] else [EMPTY]) + chunk
  }

  function Filed(shelf: Doc, chunks: seq<Doc>): Doc
    decreases |chunks|
  {
    if chunks == [] then shelf else Filed(Glue(shelf, chunks[0]), chunks[1..])
  }

  function Written(d: Doc): Doc { if RStrip(d) == [] then [EMPTY] else RStrip(d) }

  /** What each file should hold: the entries parsed, the closed ones gone over to the archive. */
  function KeptText(d: Doc, closed: set<nat>): Doc {
    IssuesAreIssues(d);
    Preamble(d) + Flatten(Keep(Issues(d), closed))
  }

  function Leaving(d: Doc, closed: set<nat>): seq<Doc> {
    IssuesAreIssues(d);
    Gone(Issues(d), closed)
  }

  function LiveAfter(live: Doc, closed: set<nat>): Doc {
    if Leaving(live, closed) == [] then live else Written(KeptText(live, closed))
  }

  function ArchiveAfter(live: Doc, shelf: Doc, closed: set<nat>): Doc {
    if Leaving(live, closed) == [] then shelf else Written(Filed(shelf, Trimmed(Leaving(live, closed))))
  }

  lemma LocatedTail(d: Doc, es: seq<Entry>, cs: seq<Doc>)
    requires AllLocated(d, es, cs) && es != []
    ensures AllLocated(d, es[1..], cs[1..]) && Locates(d, es[0], cs[0])
  {
    hide Locates;
    forall k | 0 <= k < |es| - 1
      ensures Locates(d, es[1..][k], cs[1..][k])
    {
      assert Locates(d, es[k + 1], cs[k + 1]);
    }
  }

  /** Cutting the closed entries out is keeping the others. */
  lemma {:induction false} CutsKeep(d: Doc, es: seq<Entry>, cs: seq<Doc>, from: nat, closed: set<nat>)
    requires Chain(es, from, |d|) && from <= |d| && AllIssues(cs) && AllLocated(d, es, cs)
    ensures Apart(Cuts(es, closed), from, |d|)
    ensures Rewritten(d, Cuts(es, closed), from) == Flatten(Keep(cs, closed))
    ensures Cuts(es, closed) != [] ==> from <= Cuts(es, closed)[0].a
    decreases |es|
  {
    if es == [] {
      assert d[from..] == [];
    } else {
      var end := es[0].end;
      LocatedTail(d, es, cs);
      CutsKeep(d, es[1..], cs[1..], end, closed);
      assert Locates(d, es[0], cs[0]);
      var rest := Cuts(es[1..], closed);
      if Out(es[0].num, closed) {
        OneCut(d, from, end, rest);
        assert Cuts(es, closed) == [Edit(from, end, [])] + rest;
        assert Keep(cs, closed) == Keep(cs[1..], closed);
      } else {
        SkipOver(d, rest, from, end);
        assert Keep(cs, closed) == [cs[0]] + Keep(cs[1..], closed);
        assert ([cs[0]] + Keep(cs[1..], closed))[1..] == Keep(cs[1..], closed);
      }
    }
  }

  lemma {:induction false} OneCut(d: Doc, from: nat, end: nat, rest: seq<Edit<Line>>)
    requires Apart(rest, end, |d|) && from <= end <= |d|
    ensures var cuts := [Edit(from, end, [])] + rest;
            Apart(cuts, from, |d|) && Rewritten(d, cuts, from) == Rewritten(d, rest, end)
  {
    var cuts := [Edit(from, end, [])] + rest;
    assert cuts[1..] == rest && d[from..from] == [];
  }

  lemma {:induction false} SkipOver(d: Doc, rest: seq<Edit<Line>>, from: nat, end: nat)
    requires Apart(rest, end, |d|) && from <= end <= |d| && (rest != [] ==> end <= rest[0].a)
    ensures Apart(rest, from, |d|) && Rewritten(d, rest, from) == d[from..end] + Rewritten(d, rest, end)
  {
    ApartFrom(rest, end, from, |d|);
    CarriedOver(d, rest, from, end);
  }

  // ---------------------------------------------------------------- what filing does

  lemma {:induction false} GluedIssues(shelf: Doc, c: Doc)
    requires IsIssue(c)
    ensures Trimmed(Issues(Glue(shelf, c))) == Trimmed(Issues(shelf)) + [RStrip(c)]
  {
    var o := RStrip(shelf);
    var gap := if o == [] then [EMPTY, EMPTY] else [EMPTY];
    Sectioned.SectionsConcat(o + gap, c, IsHeading);
    GapStripped(o);
    StrippingKeepsIssues(shelf);
    StrippingKeepsIssues(o + gap);
    StrippingKeepsIssues(o);
  }

  lemma {:induction false} GapStripped(o: Doc)
    ensures RStrip(o + [EMPTY]) == RStrip(o) && RStrip(o + [EMPTY, EMPTY]) == RStrip(o)
  {
    RStripSnoc(o, EMPTY);
    RStripSnoc(o + [EMPTY], EMPTY);
    assert o + [EMPTY] + [EMPTY] == o + [EMPTY, EMPTY];
  }

  lemma {:induction false} FiledNext(shelf: Doc, cs: seq<Doc>)
    requires AllIssues(cs)
    ensures cs == [] ==> Filed(shelf, cs) == shelf && Trimmed(cs) == []
    ensures cs != [] ==> Filed(shelf, cs) == Filed(Glue(shelf, cs[0]), cs[1..]) && IsIssue(cs[0]) && AllIssues(cs[1..])
  {
    hide Glue, RStrip, Sectioned.IsSection;
    if cs != [] { assert IsIssue(cs[0]); }
  }

  lemma {:induction false} FiledIssues(shelf: Doc, cs: seq<Doc>)
    requires AllIssues(cs)
    ensures Trimmed(Issues(Filed(shelf, cs))) == Trimmed(Issues(shelf)) + Trimmed(cs)
    decreases |cs|
  {
    hide *;
    FiledNext(shelf, cs);
    if cs != [] {
      TrimmedTail(cs);
      GluedIssues(shelf, cs[0]);
      FiledIssues(Glue(shelf, cs[0]), cs[1..]);
    }
  }

  lemma WrittenKeepsIssues(d: Doc)
    ensures Trimmed(Issues(Written(d))) == Trimmed(Issues(d))
  {
    StrippingKeepsIssues(d);
    IssuesSnoc([], EMPTY);
    assert [] + [EMPTY] == [EMPTY];
  }

  lemma TrimmedAll(cs: seq<Doc>)
    requires AllIssues(cs)
    ensures AllIssues(Trimmed(cs)) && Trimmed(Trimmed(cs)) == Trimmed(cs)
  {
    forall i | 0 <= i < |cs|
      ensures IsIssue(RStrip(cs[i])) && RStrip(RStrip(cs[i])) == RStrip(cs[i])
    {
      StrippedIssue(cs[i]);
      RStripTwice(cs[i]);
    }
    hide RStrip, IsIssue;
  }

  lemma {:induction false} TrimmedIssues(cs: seq<Doc>, closed: set<nat>)
    requires AllIssues(cs)
    ensures AllIssues(Trimmed(cs))
    ensures Keep(Trimmed(cs), closed) == Trimmed(Keep(cs, closed))
    ensures Gone(Trimmed(cs), closed) == Trimmed(Gone(cs, closed))
    decreases |cs|
  {
    TrimmedAll(cs);
    if cs != [] {
      StrippedIssue(cs[0]);
      assert IsIssue(cs[0]);
      hide RStrip, Out;
      TrimmedIssues(cs[1..], closed);
      TrimmedTail(cs);
      assert Trimmed(cs)[1..] == Trimmed(cs[1..]);
      TrimmedCons(cs[0], Keep(cs[1..], closed));
      TrimmedCons(cs[0], Gone(cs[1..], closed));
    }
  }

  lemma {:induction false} TrimmedCons(c: Doc, cs: seq<Doc>)
    ensures Trimmed([c] + cs) == [RStrip(c)] + Trimmed(cs)
    ensures Trimmed([] + cs) == [] + Trimmed(cs)
  {
    hide RStrip;
    assert [] + cs == cs;
  }

  lemma {:induction false} KeptAreIssues(cs: seq<Doc>, closed: set<nat>)
    requires AllIssues(cs)
    ensures AllIssues(Keep(cs, closed)) && AllIssues(Gone(cs, closed))
    ensures Gone(Keep(cs, closed), closed) == []
    decreases |cs|
  {
    if cs != [] {
      assert IsIssue(cs[0]);
      hide Out, IsIssue;
      KeptAreIssues(cs[1..], closed);
      var kept, gone := Keep(cs[1..], closed), Gone(cs[1..], closed);
      assert ([cs[0]] + kept)[1..] == kept && [] + kept == kept && [] + gone == gone;
      assert Gone(cs, closed) == gone || Gone(cs, closed) == [cs[0]] + gone;
      assert Keep(cs, closed) == kept || Keep(cs, closed) == [cs[0]] + kept;
    }
  }

  lemma {:induction false} KeptAndGone(cs: seq<Doc>, closed: set<nat>)
    requires AllIssues(cs)
    ensures multiset(Keep(cs, closed)) + multiset(Gone(cs, closed)) == multiset(cs)
    decreases |cs|
  {
    if cs != [] {
      assert IsIssue(cs[0]);
      hide Out, IsIssue;
      KeptAndGone(cs[1..], closed);
      assert cs == [cs[0]] + cs[1..];
    }
  }

  lemma {:induction false} KeptTextIssues(live: Doc, closed: set<nat>)
    ensures AllIssues(Issues(live)) && Issues(KeptText(live, closed)) == Keep(Issues(live), closed)
  {
    IssuesAreIssues(live);
    KeptAreIssues(Issues(live), closed);
    hide Issues, Preamble, Flatten, Keep, AllIssues;
    IssuesFlatten(Preamble(live), Keep(Issues(live), closed));
    assert [] + Keep(Issues(live), closed) == Keep(Issues(live), closed);
  }

  lemma {:induction false} LiveKeepsOpenIssues(live: Doc, closed: set<nat>)
    ensures AllIssues(Trimmed(Issues(live)))
    ensures Trimmed(Issues(LiveAfter(live, closed))) == Keep(Trimmed(Issues(live)), closed)
  {
    var cs := Issues(live);
    KeptTextIssues(live, closed);
    TrimmedIssues(cs, closed);
    hide Issues, RStrip, KeptText, Trimmed, Keep, Gone, Written, AllIssues;
    if Gone(cs, closed) == [] {
      NothingGone(cs, closed);
    } else {
      WrittenKeepsIssues(KeptText(live, closed));
    }
  }

  lemma {:induction false} ShelfTakesClosedIssues(live: Doc, shelf: Doc, closed: set<nat>)
    requires AllIssues(Trimmed(Issues(live)))
    ensures Trimmed(Issues(ArchiveAfter(live, shelf, closed)))
            == Trimmed(Issues(shelf)) + Gone(Trimmed(Issues(live)), closed)
  {
    var cs := Issues(live);
    IssuesAreIssues(live);
    TrimmedIssues(cs, closed);
    KeptAreIssues(cs, closed);
    var gone := Gone(cs, closed);
    TrimmedAll(gone);
    hide Issues, RStrip, Preamble, Filed, Keep, Gone, Written, AllIssues;
    if gone != [] {
      hide Trimmed;
      FiledIssues(shelf, Trimmed(gone));
      WrittenKeepsIssues(Filed(shelf, Trimmed(gone)));
    }
  }

  /** Parsed again, and up to trailing white space: the live file holds the open entries and the
      archive what it had followed by the closed ones, both in order. */
  lemma {:induction false} ArchivingConservesIssues(live: Doc, shelf: Doc, closed: set<nat>)
    ensures AllIssues(Trimmed(Issues(live)))
    ensures Trimmed(Issues(LiveAfter(live, closed))) == Keep(Trimmed(Issues(live)), closed)
    ensures Trimmed(Issues(ArchiveAfter(live, shelf, closed)))
            == Trimmed(Issues(shelf)) + Gone(Trimmed(Issues(live)), closed)
  {
    hide *;
    LiveKeepsOpenIssues(live, closed);
    ShelfTakesClosedIssues(live, shelf, closed);
  }

  lemma {:induction false} NothingGone(cs: seq<Doc>, closed: set<nat>)
    requires AllIssues(cs) && Gone(cs, closed) == []
    ensures Keep(cs, closed) == cs
    decreases |cs|
  {
    if cs != [] {
      NothingGone(cs[1..], closed);
      assert cs == [cs[0]] + cs[1..];
    }
  }

  /** Nothing is lost and nothing is in both: together the files hold the entries they held. */
  lemma EveryIssueInExactlyOneFile(live: Doc, shelf: Doc, closed: set<nat>)
    ensures multiset(Trimmed(Issues(LiveAfter(live, closed))))
            + multiset(Trimmed(Issues(ArchiveAfter(live, shelf, closed))))
            == multiset(Trimmed(Issues(live))) + multiset(Trimmed(Issues(shelf)))
  {
    ArchivingConservesIssues(live, shelf, closed);
    hide Issues, LiveAfter, ArchiveAfter;
    KeptAndGone(Trimmed(Issues(live)), closed);
  }

  /** Run again, it moves nothing and writes neither file. */
  lemma SecondRunMovesNothing(live: Doc, shelf: Doc, closed: set<nat>)
    ensures var live' := LiveAfter(live, closed);
            var shelf' := ArchiveAfter(live, shelf, closed);
            LiveAfter(live', closed) == live' && ArchiveAfter(live', shelf', closed) == shelf'
  {
    NothingLeftToMove(live, closed);
    hide Issues, Trimmed, Written, Filed, Gone, Keep;
  }

  lemma NothingLeftToMove(live: Doc, closed: set<nat>)
    ensures Leaving(LiveAfter(live, closed), closed) == []
  {
    LiveKeepsOpenIssues(live, closed);
    var was, now := Trimmed(Issues(live)), Issues(LiveAfter(live, closed));
    IssuesAreIssues(LiveAfter(live, closed));
    KeptAreIssues(was, closed);
    TrimmedIssues(now, closed);
    hide Issues, LiveAfter, Keep, Gone, AllIssues;
    assert Trimmed(Gone(now, closed)) == [];
  }

  predicate Closed(c: Doc, closed: set<nat>) { c != [] && c[0].Heading? && c[0].num.Some? && c[0].num.value in closed }

  /** The live file is left with no closed entry, and every closed entry it had is in the archive, which
      gains no other. */
  lemma ClosedGoOpenStay(live: Doc, shelf: Doc, closed: set<nat>)
    ensures forall c :: c in Trimmed(Issues(LiveAfter(live, closed))) <==>
                          c in Trimmed(Issues(live)) && !Closed(c, closed)
    ensures forall c :: c in Trimmed(Issues(ArchiveAfter(live, shelf, closed))) <==>
                          c in Trimmed(Issues(shelf)) || (c in Trimmed(Issues(live)) && Closed(c, closed))
  {
    ArchivingConservesIssues(live, shelf, closed);
    var cs := Trimmed(Issues(live));
    KeptAreOpen(cs, closed);
    hide Issues, Trimmed, Keep, Gone, LiveAfter, ArchiveAfter, AllIssues, Closed;
  }

  lemma {:induction false} KeptAreOpen(cs: seq<Doc>, closed: set<nat>)
    requires AllIssues(cs)
    ensures forall c :: c in Keep(cs, closed) <==> c in cs && !Closed(c, closed)
    ensures forall c :: c in Gone(cs, closed) <==> c in cs && Closed(c, closed)
    decreases |cs|
  {
    if cs != [] {
      assert IsIssue(cs[0]) && cs == [cs[0]] + cs[1..];
      assert Out(cs[0][0].num, closed) <==> Closed(cs[0], closed);
      hide IsIssue, Out, Closed;
      KeptAreOpen(cs[1..], closed);
    }
  }

  // ---------------------------------------------------------------- in what order

  function NumOf(c: Doc): Maybe<nat> { if c != [] && c[0].Heading? then c[0].num else None }

  /** No number stands after a higher one. */
  predicate InNumberOrder(cs: seq<Doc>) {
    forall i, j :: 0 <= i < j < |cs| && NumOf(cs[i]).Some? && NumOf(cs[j]).Some? ==>
        NumOf(cs[i]).value <= NumOf(cs[j]).value
  }

  /** No closed entry stands after one of a higher number. */
  predicate ClosedInOrder(cs: seq<Doc>, closed: set<nat>) {
    forall i, j :: 0 <= i < j < |cs| && Out(NumOf(cs[i]), closed) && Out(NumOf(cs[j]), closed) ==>
      NumOf(cs[i]).value <= NumOf(cs[j]).value
  }

  lemma {:induction false} GoneAreOut(cs: seq<Doc>, closed: set<nat>)
    requires AllIssues(cs)
    ensures forall c :: c in Gone(cs, closed) <==> c in cs && Out(NumOf(c), closed)
    decreases |cs|
  {
    if cs != [] {
      assert IsIssue(cs[0]) && cs == [cs[0]] + cs[1..];
      assert NumOf(cs[0]) == cs[0][0].num;
      hide IsIssue, Out, NumOf;
      GoneAreOut(cs[1..], closed);
    }
  }

  lemma FirstInOrder(c: Doc, cs: seq<Doc>)
    ensures InNumberOrder([c] + cs) <==>
              && InNumberOrder(cs)
              && forall x :: x in cs && NumOf(c).Some? && NumOf(x).Some? ==> NumOf(c).value <= NumOf(x).value
  {
    hide NumOf;
    var all := [c] + cs;
    assert forall i :: 0 <= i < |cs| ==> all[i + 1] == cs[i];
    if InNumberOrder(all) {
      forall x | x in cs && NumOf(c).Some? && NumOf(x).Some?
        ensures NumOf(c).value <= NumOf(x).value
      {
        var i :| 0 <= i < |cs| && cs[i] == x;
        assert all[0] == c && all[i + 1] == x;
      }
      forall i, j | 0 <= i < j < |cs| && NumOf(cs[i]).Some? && NumOf(cs[j]).Some?
        ensures NumOf(cs[i]).value <= NumOf(cs[j]).value
      {
        assert all[i + 1] == cs[i] && all[j + 1] == cs[j];
      }
    }
  }

  lemma FirstClosedInOrder(c: Doc, cs: seq<Doc>, closed: set<nat>)
    ensures ClosedInOrder([c] + cs, closed) <==>
              && ClosedInOrder(cs, closed)
              && forall x :: x in cs && Out(NumOf(c), closed) && Out(NumOf(x), closed) ==>
                  NumOf(c).value <= NumOf(x).value
  {
    hide NumOf;
    var all := [c] + cs;
    assert forall i :: 0 <= i < |cs| ==> all[i + 1] == cs[i];
    if ClosedInOrder(all, closed) {
      forall x | x in cs && Out(NumOf(c), closed) && Out(NumOf(x), closed)
        ensures NumOf(c).value <= NumOf(x).value
      {
        var i :| 0 <= i < |cs| && cs[i] == x;
        assert all[0] == c && all[i + 1] == x;
      }
      forall i, j | 0 <= i < j < |cs| && Out(NumOf(cs[i]), closed) && Out(NumOf(cs[j]), closed)
        ensures NumOf(cs[i]).value <= NumOf(cs[j]).value
      {
        assert all[i + 1] == cs[i] && all[j + 1] == cs[j];
      }
    }
  }

  lemma {:induction false} GoneInOrder(cs: seq<Doc>, closed: set<nat>)
    requires AllIssues(cs)
    ensures InNumberOrder(Gone(cs, closed)) <==> ClosedInOrder(cs, closed)
    decreases |cs|
  {
    if cs != [] {
      assert IsIssue(cs[0]) && cs == [cs[0]] + cs[1..];
      assert NumOf(cs[0]) == cs[0][0].num;
      var gone := Gone(cs[1..], closed);
      GoneAreOut(cs[1..], closed);
      assert forall c :: Out(NumOf(c), closed) ==> NumOf(c).Some?;
      assert [] + gone == gone;
      hide IsIssue, NumOf, InNumberOrder, ClosedInOrder;
      GoneInOrder(cs[1..], closed);
      FirstClosedInOrder(cs[0], cs[1..], closed);
      FirstInOrder(cs[0], gone);
    }
  }

  lemma TrimmedOrder(cs: seq<Doc>, closed: set<nat>)
    requires AllIssues(cs)
    ensures ClosedInOrder(Trimmed(cs), closed) <==> ClosedInOrder(cs, closed)
  {
    forall i | 0 <= i < |cs|
      ensures NumOf(Trimmed(cs)[i]) == NumOf(cs[i])
    {
      StrippedIssue(cs[i]);
    }
    hide RStrip, NumOf, Trimmed;
  }

  /** The archive grows in number order exactly when the closed entries stand in that order in the
      live file. */
  lemma NumberOrderExactly(live: Doc, shelf: Doc, closed: set<nat>)
    ensures var n, now := |Issues(shelf)|, Trimmed(Issues(ArchiveAfter(live, shelf, closed)));
            n <= |now| && (InNumberOrder(now[n..]) <==> ClosedInOrder(Issues(live), closed))
  {
    ArchivingConservesIssues(live, shelf, closed);
    IssuesAreIssues(live);
    hide Issues, Trimmed, Gone, ArchiveAfter, InNumberOrder, ClosedInOrder, AllIssues;
    TrimmedOrder(Issues(live), closed);
    GoneInOrder(Trimmed(Issues(live)), closed);
    var was, gone := Trimmed(Issues(shelf)), Gone(Trimmed(Issues(live)), closed);
    assert (was + gone)[|was|..] == gone;
  }

  /** Two closed entries, the higher number first, are filed with the higher number first. */
  lemma HigherNumberFirst(m: nat, n: nat, shelf: Doc)
    requires m > n
    ensures var live := [Heading("a", "", Some(m), ""), Heading("b", "", Some(n), "")];
            var now := Trimmed(Issues(ArchiveAfter(live, shelf, {m, n})));
            |Issues(shelf)| <= |now| && !InNumberOrder(now[|Issues(shelf)|..])
  {
    var a, b := Heading("a", "", Some(m), ""), Heading("b", "", Some(n), "");
    var none: Doc := [];
    assert Issues(none) == [] && none + [a] == [a] && [a] + [b] == [a, b];
    IssuesSnoc([], a);
    IssuesSnoc([a], b);
    var cs := Issues([a, b]);
    assert cs == [[a], [b]];
    assert NumOf(cs[0]) == Some(m) && NumOf(cs[1]) == Some(n);
    hide Issues, Trimmed, ArchiveAfter, NumOf, InNumberOrder;
    NumberOrderExactly([a, b], shelf, {m, n});
    assert Out(NumOf(cs[0]), {m, n}) && Out(NumOf(cs[1]), {m, n});
  }

  // ---------------------------------------------------------------- the tool

  /** Edit `e` takes out exactly `c`. */
  predicate TakesOut(d: Doc, e: Edit<Line>, c: Doc) { e.a <= e.b <= |d| && e.put == [] && d[e.a..e.b] == c }

  predicate AllTaken(d: Doc, cuts: seq<Edit<Line>>, cs: seq<Doc>) {
    |cuts| == |cs| && forall i :: 0 <= i < |cs| ==> TakesOut(d, cuts[i], cs[i])
  }

  lemma OneMoreTaken(d: Doc, cuts: seq<Edit<Line>>, cs: seq<Doc>, e: Edit<Line>, c: Doc)
    requires AllTaken(d, cuts, cs) && TakesOut(d, e, c)
    ensures AllTaken(d, [e] + cuts, [c] + cs)
  {
    hide TakesOut;
  }

  /** The cuts are the closed entries, one each, in order. */
  lemma {:induction false} CutsAreGone(d: Doc, es: seq<Entry>, cs: seq<Doc>, closed: set<nat>)
    requires AllIssues(cs) && AllLocated(d, es, cs)
    ensures AllTaken(d, Cuts(es, closed), Gone(cs, closed))
    decreases |es|
  {
    if es != [] {
      LocatedTail(d, es, cs);
      assert IsIssue(cs[0]);
      var e, gone := Edit(es[0].at, es[0].end, []), Gone(cs[1..], closed);
      assert TakesOut(d, e, cs[0]);
      assert [] + gone == gone;
      hide IsIssue, Out, TakesOut, AllTaken, AllLocated;
      CutsAreGone(d, es[1..], cs[1..], closed);
      if Out(es[0].num, closed) { OneMoreTaken(d, Cuts(es[1..], closed), gone, e, cs[0]); }
    }
  }

  /** Take each cut out from the bottom up, keeping its text without the white space at its end. */
  method TakeOut(d: Doc, cuts: seq<Edit<Line>>) returns (rest: Doc, moved: seq<Doc>)
    requires Apart(cuts, 0, |d|) && forall i :: 0 <= i < |cuts| ==> cuts[i].a <= cuts[i].b <= |d| && cuts[i].put == []
    ensures rest == Rewritten(d, cuts, 0) && |moved| == |cuts|
    ensures forall i :: 0 <= i < |cuts| ==> moved[|cuts| - 1 - i] == RStrip(d[cuts[i].a..cuts[i].b])
  {
    hide RStrip;
    rest, moved := d, [];
    var k := |cuts|;
    ApartTail(cuts, 0, k, |d|);
    assert d[0..] == d;
    while k > 0
      invariant 0 <= k <= |cuts| && |moved| == |cuts| - k && Apart(cuts[k..], 0, |d|)
      invariant rest == Rewritten(d, cuts[k..], 0)
      invariant forall i :: k <= i < |cuts| ==> moved[|cuts| - 1 - i] == RStrip(d[cuts[i].a..cuts[i].b])
    {
      k := k - 1;
      var a, b := cuts[k].a, cuts[k].b;
      OneMoreEdit(d, cuts, k, rest);
      assert rest[a..b] == rest[..b][a..] == d[a..b];
      assert rest[..a] + rest[b..] == rest[..a] + [] + rest[b..];
      moved := moved + [RStrip(rest[a..b])];
      rest := rest[..a] + rest[b..];
    }
    assert cuts[0..] == cuts;
  }

  /** Put what was taken out after what the archive holds, last taken first. */
  method PutAway(shelf: Doc, moved: seq<Doc>, ghost chunks: seq<Doc>) returns (full: Doc)
    requires |moved| == |chunks| && forall i :: 0 <= i < |chunks| ==> moved[|chunks| - 1 - i] == chunks[i]
    ensures full == Filed(shelf, chunks)
  {
    hide Glue;
    full := shelf;
    var k := |moved|;
    assert chunks[0..] == chunks;
    while k > 0
      invariant 0 <= k <= |moved| && Filed(full, chunks[|chunks| - k..]) == Filed(shelf, chunks)
    {
      assert chunks[|chunks| - k..][1..] == chunks[|chunks| - k + 1..];
      k := k - 1;
      full := Glue(full, moved[k]);
    }
  }

  class Tracker {
    var live: Doc
    var shelf: Doc

    constructor (live: Doc, shelf: Doc)
      ensures this.live == live && this.shelf == shelf
    {
      this.live, this.shelf := live, shelf;
    }

    /** Move every closed entry out of the live file and into the archive. */
    method Archive(closed: set<nat>) returns (count: nat)
      modifies this
      ensures live == LiveAfter(old(live), closed)
      ensures shelf == ArchiveAfter(old(live), old(shelf), closed)
      ensures count == |Leaving(old(live), closed)|
    {
      hide Issues, RStrip, Preamble, Chain, Locates, Rewritten, Filed, IsIssue;
      var es := Entries(live);
      var cuts := Cuts(es, closed);
      count := |cuts|;
      ghost var leaving := Leaving(live, closed);
      CutsFrom(live, es, closed);
      if cuts == [] {
        return;
      }
      var rest, moved := TakeOut(live, cuts);
      var full := PutAway(shelf, moved, Trimmed(leaving));
      live := Written(rest);
      shelf := Written(full);
    }
  }

  lemma {:induction false} CutsFrom(d: Doc, es: seq<Entry>, closed: set<nat>)
    requires Parses(d, es)
    ensures var cuts := Cuts(es, closed);
            var leaving := Leaving(d, closed);
            && Apart(cuts, 0, |d|) && Rewritten(d, cuts, 0) == KeptText(d, closed)
            && |cuts| == |leaving|
            && (forall i :: 0 <= i < |cuts| ==> cuts[i].a <= cuts[i].b <= |d| && cuts[i].put == [])
            && (forall i :: 0 <= i < |cuts| ==> RStrip(d[cuts[i].a..cuts[i].b]) == Trimmed(leaving)[i])
  {
    hide RStrip, Locates, Issues, Preamble, IsIssue, Gone, Cuts, Chain;
    var cs, from := Issues(d), |Preamble(d)|;
    IssuesAreIssues(d);
    CutsKeep(d, es, cs, from, closed);
    CutsAreGone(d, es, cs, closed);
    SkipOver(d, Cuts(es, closed), 0, from);
    assert d[0..from] == Preamble(d);
    forall i | 0 <= i < |Cuts(es, closed)|
      ensures var cut := Cuts(es, closed)[i];
              cut.a <= cut.b <= |d| && cut.put == [] && RStrip(d[cut.a..cut.b]) == Trimmed(Leaving(d, closed))[i]
    {
      assert TakesOut(d, Cuts(es, closed)[i], Gone(cs, closed)[i]);
    }
  }
}
