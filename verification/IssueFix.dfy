/** Writing GitHub's closed state back: the status word of each issue wanted, and nothing else. */
module IssueFix {
  import opened Splice
  import opened IssueArchive
  import opened Sectioned

  const CLOSED := "CLOSED"

  /** The first status line at or after `from`, or the end. */
  function StatusAt(c: Doc, from: nat): (r: nat)
    requires from <= |c|
    ensures from <= r <= |c| && (r < |c| ==> c[r].Status?)
    ensures forall i :: from <= i < r ==> !c[i].Status?
    decreases |c| - from
  {
    if from == |c| || c[from].Status? then from else StatusAt(c, from + 1)
  }

  function Reworded(l: Line): Line { if l.Status? then Status(CLOSED, l.tail) else l }

  /** An issue with its status, if it has one, said to be closed. */
  function Fix(c: Doc): (r: Doc)
    ensures |r| == |c|
  {
    var i := StatusAt(c, 0);
    if i < |c| then c[i := Reworded(c[i])] else c
  }

  predicate Wanted(c: Doc, want: set<nat>)
    requires IsIssue(c)
  {
    Out(c[0].num, want) && StatusAt(c, 0) < |c|
  }

  function Fixed(cs: seq<Doc>, want: set<nat>): seq<Doc>
    requires AllIssues(cs)
  {
    if cs == [] then [] else [if Wanted(cs[0], want) then Fix(cs[0]) else cs[0]] + Fixed(cs[1..], want)
  }

  function FixedText(d: Doc, want: set<nat>): Doc {
    IssuesAreIssues(d);
    Preamble(d) + Flatten(Fixed(Issues(d), want))
  }

  /** The edits: one status line of each entry wanted. */
  function Rewords(d: Doc, es: seq<Entry>, want: set<nat>): seq<Edit<Line>> {
    if es == [] then []
    else if es[0].at <= es[0].end <= |d| && Out(es[0].num, want)
      && StatusAt(d[es[0].at..es[0].end], 0) < es[0].end - es[0].at then
      var i := es[0].at + StatusAt(d[es[0].at..es[0].end], 0);
      [Edit(i, i + 1, [Reworded(d[i])])] + Rewords(d, es[1..], want)
    else Rewords(d, es[1..], want)
  }

  lemma OneReword(d: Doc, at: nat, i: nat, end: nat, l: Line, rest: seq<Edit<Line>>)
    requires at <= i < end <= |d| && Apart(rest, end, |d|) && (rest != [] ==> end <= rest[0].a)
    ensures var edits := [Edit(i, i + 1, [l])] + rest;
            && Apart(edits, at, |d|)
            && Rewritten(d, edits, at) == d[at..end][i - at := l] + Rewritten(d, rest, end)
  {
    var edits := [Edit(i, i + 1, [l])] + rest;
    assert edits[1..] == rest;
    ApartFrom(rest, end, i + 1, |d|);
    CarriedOver(d, rest, i + 1, end);
    assert d[at..end][i - at := l] == d[at..i] + [l] + d[i + 1..end];
  }

  /** The edits rewrite each wanted entry and leave the others. */
  lemma {:induction false} RewordsFix(d: Doc, es: seq<Entry>, cs: seq<Doc>, from: nat, want: set<nat>)
    requires Chain(es, from, |d|) && from <= |d| && AllIssues(cs) && AllLocated(d, es, cs)
    ensures Apart(Rewords(d, es, want), from, |d|)
    ensures Rewritten(d, Rewords(d, es, want), from) == Flatten(Fixed(cs, want))
    ensures Rewords(d, es, want) != [] ==> from <= Rewords(d, es, want)[0].a
    decreases |es|
  {
    if es == [] {
      assert d[from..] == [];
    } else {
      LocatedTail(d, es, cs);
      assert IsIssue(cs[0]) && AllIssues(cs[1..]);
      RewordsFix(d, es[1..], cs[1..], es[0].end, want);
      OneEntry(d, es, cs, from, want);
    }
  }

  lemma {:induction false} OneEntry(d: Doc, es: seq<Entry>, cs: seq<Doc>, from: nat, want: set<nat>)
    requires es != [] && |es| == |cs| && es[0].at == from < es[0].end <= |d| && AllIssues(cs)
    requires Locates(d, es[0], cs[0])
    requires var rest := Rewords(d, es[1..], want);
             && Apart(rest, es[0].end, |d|) && (rest != [] ==> es[0].end <= rest[0].a)
             && Rewritten(d, rest, es[0].end) == Flatten(Fixed(cs[1..], want))
    ensures Apart(Rewords(d, es, want), from, |d|)
    ensures Rewritten(d, Rewords(d, es, want), from) == Flatten(Fixed(cs, want))
    ensures Rewords(d, es, want) != [] ==> from <= Rewords(d, es, want)[0].a
  {
    hide *;
    LocatesIssue(d, es[0], cs[0]);
    RewordsHead(d, es, cs[0], want);
    FixedHead(cs, want);
    var end, rest := es[0].end, Rewords(d, es[1..], want);
    if Wanted(cs[0], want) {
      var i := from + StatusAt(cs[0], 0);
      OneReword(d, from, i, end, Reworded(d[i]), rest);
    } else {
      SkipOver(d, rest, from, end);
    }
  }

  lemma LocatesIssue(d: Doc, e: Entry, c: Doc)
    requires Locates(d, e, c)
    ensures IsIssue(c)
  {
  }

  lemma {:induction false} FixedHead(cs: seq<Doc>, want: set<nat>)
    requires cs != [] && AllIssues(cs) && IsIssue(cs[0])
    ensures AllIssues(cs[1..])
    ensures Flatten(Fixed(cs, want))
            == (if Wanted(cs[0], want) then Fix(cs[0]) else cs[0]) + Flatten(Fixed(cs[1..], want))
  {
    var c := if Wanted(cs[0], want) then Fix(cs[0]) else cs[0];
    assert Fixed(cs, want) == [c] + Fixed(cs[1..], want);
    FlattenCons(c, Fixed(cs[1..], want));
  }

  /** What the first entry adds to the edits, and what its text becomes. */
  lemma {:induction false} RewordsHead(d: Doc, es: seq<Entry>, c: Doc, want: set<nat>)
    requires es != [] && es[0].at < es[0].end <= |d| && Locates(d, es[0], c) && IsIssue(c)
    ensures var i, rest := es[0].at + StatusAt(c, 0), Rewords(d, es[1..], want);
            && d[es[0].at..es[0].end] == c
            && (Wanted(c, want) ==>
                  && es[0].at <= i < es[0].end && Rewords(d, es, want) == [Edit(i, i + 1, [Reworded(d[i])])] + rest
                  && Fix(c) == d[es[0].at..es[0].end][i - es[0].at := Reworded(d[i])])
            && (!Wanted(c, want) ==> Rewords(d, es, want) == rest)
  {
    hide StatusAt, IsIssue;
    assert |c| == es[0].end - es[0].at;
    if Wanted(c, want) { assert d[es[0].at + StatusAt(c, 0)] == c[StatusAt(c, 0)]; }
  }

  /** Rewrite the file's own status words, last first. */
  method WriteBack(d: Doc, want: set<nat>) returns (live: Doc)
    ensures live == FixedText(d, want)
  {
    var es := Entries(d);
    var edits := Rewords(d, es, want);
    FixFrom(d, es, want);
    live := BottomUp(d, edits);
  }

  lemma {:induction false} FixFrom(d: Doc, es: seq<Entry>, want: set<nat>)
    requires Parses(d, es)
    ensures Apart(Rewords(d, es, want), 0, |d|)
    ensures Rewritten(d, Rewords(d, es, want), 0) == FixedText(d, want)
  {
    hide Locates, Issues, Preamble, IsIssue, Rewords, Chain;
    var from := |Preamble(d)|;
    IssuesAreIssues(d);
    RewordsFix(d, es, Issues(d), from, want);
    SkipOver(d, Rewords(d, es, want), 0, from);
    assert d[0..from] == Preamble(d);
  }

  // ---------------------------------------------------------------- what was promised

  lemma {:induction false} FixedIssue(c: Doc)
    requires IsIssue(c)
    ensures IsIssue(Fix(c)) && Fix(c)[0] == c[0] && StatusAt(Fix(c), 0) == StatusAt(c, 0) && Fix(Fix(c)) == Fix(c)
  {
    var i := StatusAt(c, 0);
    if i < |c| { assert Fix(c)[i].Status?; }
    assert StatusAt(Fix(c), 0) == i;
  }

  lemma {:induction false} FixedAll(cs: seq<Doc>, want: set<nat>)
    requires AllIssues(cs)
    ensures |Fixed(cs, want)| == |cs| && AllIssues(Fixed(cs, want))
    ensures forall k :: 0 <= k < |cs| ==> Fixed(cs, want)[k] == if Wanted(cs[k], want) then Fix(cs[k]) else cs[k]
    decreases |cs|
  {
    if cs != [] {
      assert IsIssue(cs[0]) && AllIssues(cs[1..]);
      FixedAll(cs[1..], want);
      if Wanted(cs[0], want) { FixedIssue(cs[0]); }
    }
  }

  /** `c` and `c'` differ in one status word at most. */
  predicate OnlyTheStatus(c: Doc, c': Doc) {
    |c| == |c'| && forall i :: 0 <= i < |c| && c[i] != c'[i] ==>
      i == StatusAt(c, 0) && c[i].Status? && c'[i] == Status(CLOSED, c[i].tail)
  }

  /** What `c` should be afterwards: closed if it was wanted, and otherwise itself. */
  predicate AsWanted(c: Doc, c': Doc, want: set<nat>)
    requires IsIssue(c)
  {
    && OnlyTheStatus(c, c')
    && (if Wanted(c, want) then c'[StatusAt(c, 0)] == Status(CLOSED, c[StatusAt(c, 0)].tail) else c' == c)
  }

  lemma {:induction false} AllAsWanted(cs: seq<Doc>, want: set<nat>)
    requires AllIssues(cs)
    ensures |Fixed(cs, want)| == |cs| && forall k :: 0 <= k < |cs| ==> AsWanted(cs[k], Fixed(cs, want)[k], want)
  {
    FixedAll(cs, want);
  }

  /** Parsed again, the file holds the same issues in order; each wanted one with a status says closed,
      and not a line of any has changed but that word. */
  lemma FixingTouchesOnlyStatuses(d: Doc, want: set<nat>)
    ensures var was, now := Issues(d), Issues(FixedText(d, want));
            && AllIssues(was) && |now| == |was| && Preamble(FixedText(d, want)) == Preamble(d)
            && forall k :: 0 <= k < |was| ==> AsWanted(was[k], now[k], want)
  {
    var cs := Issues(d);
    IssuesAreIssues(d);
    FixedAll(cs, want);
    AllAsWanted(cs, want);
    hide Flatten, Preamble, Issues, Fixed, IsIssue, AsWanted;
    IssuesFlatten(Preamble(d), Fixed(cs, want));
    assert [] + Fixed(cs, want) == Fixed(cs, want);
  }

  /** An issue not wanted is left as it is, and so is one with no status; of any other the first status line
      now says CLOSED and the rest is as it was. */
  lemma FixingCloses(d: Doc, want: set<nat>, k: nat)
    requires k < |Issues(d)|
    ensures AllIssues(Issues(d)) && |Issues(FixedText(d, want))| == |Issues(d)|
    ensures var was, now := Issues(d)[k], Issues(FixedText(d, want))[k];
            if was[0].num.Some? && was[0].num.value in want && exists i :: 0 <= i < |was| && was[i].Status? then
              exists i :: 0 <= i < |was| && was[i].Status? && (forall j :: 0 <= j < i ==> !was[j].Status?)
                && now == was[i := Status("CLOSED", was[i].tail)]
            else now == was
  {
    FixingTouchesOnlyStatuses(d, want);
    IssueNumbered(d, k);
    var was, now := Issues(d)[k], Issues(FixedText(d, want))[k];
    assert AsWanted(was, now, want);
    hide Issues, FixedText, IsIssue;
    var i := StatusAt(was, 0);
    if Wanted(was, want) { assert now == was[i := Status(CLOSED, was[i].tail)]; }
  }

  lemma IssueNumbered(d: Doc, k: nat)
    requires k < |Issues(d)|
    ensures IsIssue(Issues(d)[k]) && Issues(d)[k] != [] && Issues(d)[k][0].Heading?
  {
    IssuesAreIssues(d);
    hide Issues;
  }

  /** Run again with the same wants, it writes what is there. */
  lemma FixingTwiceChangesNothing(d: Doc, want: set<nat>)
    ensures FixedText(FixedText(d, want), want) == FixedText(d, want)
  {
    var cs := Issues(d);
    IssuesAreIssues(d);
    FixedAll(cs, want);
    var now := Fixed(cs, want);
    FixedTwice(cs, want);
    hide Flatten, Preamble, Issues, Fixed, IsIssue;
    IssuesFlatten(Preamble(d), now);
    assert [] + now == now;
  }

  lemma {:induction false} FixedTwice(cs: seq<Doc>, want: set<nat>)
    requires AllIssues(cs) && AllIssues(Fixed(cs, want))
    ensures Fixed(Fixed(cs, want), want) == Fixed(cs, want)
    decreases |cs|
  {
    if cs != [] {
      assert IsIssue(cs[0]) && AllIssues(cs[1..]);
      FixedAll(cs[1..], want);
      FixedTwice(cs[1..], want);
      FixedIssue(cs[0]);
      assert Fixed(cs, want)[1..] == Fixed(cs[1..], want);
    }
  }
}
