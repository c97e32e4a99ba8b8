/** Numbered SQL files, found in a directory and applied once each, in order. */
module Migrate {
  import opened Picks
  import opened Text

  // ---------------------------------------------------------------- finding the files

  function DigitsBefore(name: string): (n: nat)
    ensures n <= |name| && (forall i :: 0 <= i < n ==> IsDigit(name[i]))
    ensures n < |name| ==> !IsDigit(name[n])
  {
    if name != [] && IsDigit(name[0]) then 1 + DigitsBefore(name[1..]) else 0
  }

  /** A number, an underscore, something, `.sql`. */
  predicate IsMigration(name: string) {
    var n := DigitsBefore(name);
    && n > 0 && n < |name| && name[n] == '_'
    && |name| >= n + 6 && name[|name| - 4..] == ".sql" && '\n' !in name
  }

  function Value(digits: string): nat
    requires forall i :: 0 <= i < |digits| ==> IsDigit(digits[i])
  {
    if digits == [] then 0
    else
      assert IsDigit(digits[|digits| - 1]);
      10 * Value(digits[..|digits| - 1]) + (digits[|digits| - 1] as int - '0' as int)
  }

  function Number(name: string): nat { Value(name[..DigitsBefore(name)]) }

  predicate AllDigits(s: string) { forall i :: 0 <= i < |s| ==> IsDigit(s[i]) }

  function Pow10(n: nat): nat { if n == 0 then 1 else 10 * Pow10(n - 1) }

  /** A name that fits is digits, an underscore, something on one line and `.sql`; and its number is the
      number those digits write. */
  lemma FitsExactly(name: string)
    ensures IsMigration(name) <==>
              exists d, some: string :: AllDigits(d) && d != "" && some != "" && '\n' !in name
                && name == d + "_" + some + ".sql"
  {
    if IsMigration(name) {
      var n := DigitsBefore(name);
      var d, some := name[..n], name[n + 1..|name| - 4];
      assert name == d + "_" + some + ".sql";
    }
    if d, some: string :| AllDigits(d) && d != "" && some != "" && '\n' !in name && name == d + "_" + some + ".sql" {
      DigitsStop(d, some, name);
    }
  }

  lemma {:induction false} DigitsStop(d: string, some: string, name: string)
    requires AllDigits(d) && d != "" && some != "" && '\n' !in name && name == d + "_" + some + ".sql"
    ensures DigitsBefore(name) == |d| && IsMigration(name) && Number(name) == Value(d)
  {
    var n := DigitsBefore(name);
    assert name[|d|] == '_';
    assert name[..|d|] == d;
    assert forall i :: 0 <= i < |d| ==> name[i] == d[i] && IsDigit(name[i]);
    assert name[|name| - 4..] == ".sql";
  }

  lemma {:induction false} NumberIsOfTheDigits(d: string, some: string)
    requires AllDigits(d) && d != "" && some != "" && '\n' !in d + "_" + some + ".sql"
    ensures IsMigration(d + "_" + some + ".sql") && Number(d + "_" + some + ".sql") == Value(d)
  {
    DigitsStop(d, some, d + "_" + some + ".sql");
  }

  lemma {:induction false} ValueOfSnoc(s: string, c: char)
    requires AllDigits(s) && IsDigit(c)
    ensures AllDigits(s + [c]) && Value(s + [c]) == 10 * Value(s) + (c as int - '0' as int)
  {
    assert (s + [c])[..|s|] == s;
  }

  /** So many digits write a number below that power of ten. */
  lemma {:induction false} ValueBound(s: string)
    requires AllDigits(s)
    ensures Value(s) < Pow10(|s|)
  {
    if s != [] {
      assert IsDigit(s[|s| - 1]);
      ValueBound(s[..|s| - 1]);
    }
  }

  /** Of two equally long, the first digit in which they differ says which is more. */
  lemma {:induction false} FirstDigitDecides(a: string, b: string, i: nat)
    requires AllDigits(a) && AllDigits(b) && |a| == |b| && i < |a| && a[..i] == b[..i] && a[i] < b[i]
    ensures Value(a) < Value(b)
    decreases |a|
  {
    var n := |a| - 1;
    assert IsDigit(a[n]) && IsDigit(b[n]);
    if i < n {
      assert a[..n][..i] == a[..i] && b[..n][..i] == b[..i];
      FirstDigitDecides(a[..n], b[..n], i);
    } else {
      assert a[..n] == b[..n];
    }
  }

  lemma {:induction false} LeadingZeros(s: string)
    requires AllDigits(s)
    ensures AllDigits("0" + s) && Value("0" + s) == Value(s)
  {
    if s == [] {
      assert "0" + s == "0" && "0"[..0] == [];
    } else {
      var rest, c := s[..|s| - 1], s[|s| - 1];
      assert IsDigit(c);
      LeadingZeros(rest);
      assert "0" + s == ("0" + rest) + [c] && s == rest + [c];
      ValueOfSnoc("0" + rest, c);
    }
  }

  /** `name` put after everything numbered no higher: a stable sort's insertion. */
  function Insert(name: string, sorted: seq<string>): (r: seq<string>)
    ensures multiset(r) == multiset(sorted) + multiset{name}
  {
    if sorted == [] || Number(sorted[|sorted| - 1]) <= Number(name) then sorted + [name]
    else
      assert sorted == sorted[..|sorted| - 1] + [sorted[|sorted| - 1]];
      Insert(name, sorted[..|sorted| - 1]) + [sorted[|sorted| - 1]]
  }

  function Discover(listing: seq<string>): seq<string> {
    if listing == [] then []
    else
      var name := listing[|listing| - 1];
      var rest := Discover(listing[..|listing| - 1]);
      if IsMigration(name) then Insert(name, rest) else rest
  }

  predicate Ordered(names: seq<string>) { forall i, j :: 0 <= i < j < |names| ==> Number(names[i]) <= Number(names[j]) }

  predicate Distinct(names: seq<string>) { forall i, j :: 0 <= i < j < |names| ==> names[i] != names[j] }

  predicate DistinctNumbers(names: seq<string>) {
    forall i, j :: 0 <= i < j < |names| && IsMigration(names[i]) && IsMigration(names[j]) ==>
        Number(names[i]) != Number(names[j])
  }

  lemma {:induction false} InsertOrdered(name: string, sorted: seq<string>)
    requires Ordered(sorted)
    ensures Ordered(Insert(name, sorted))
  {
    hide Number;
    if sorted != [] && Number(sorted[|sorted| - 1]) > Number(name) {
      var last, rest := sorted[|sorted| - 1], sorted[..|sorted| - 1];
      InsertOrdered(name, rest);
      var r := Insert(name, rest);
      forall i | 0 <= i < |r|
        ensures Number(r[i]) <= Number(last)
      {
        assert r[i] in multiset(r);
        assert r[i] in multiset(rest) || r[i] == name;
      }
    }
  }

  /** Files in numeric order, exactly the ones whose names fit. */
  lemma {:induction false} DiscoverSortsMigrations(listing: seq<string>)
    ensures Ordered(Discover(listing))
    ensures forall f :: multiset(Discover(listing))[f] == if IsMigration(f) then multiset(listing)[f] else 0
  {
    hide Number, IsMigration;
    if listing != [] {
      var name, rest := listing[|listing| - 1], listing[..|listing| - 1];
      assert listing == rest + [name];
      DiscoverSortsMigrations(rest);
      if IsMigration(name) { InsertOrdered(name, Discover(rest)); }
    }
  }

  predicate NumbersApart(a: seq<string>) {
    forall i, j :: 0 <= i < |a| && 0 <= j < |a| && i != j ==> Number(a[i]) != Number(a[j])
  }

  lemma SameLast(a: seq<string>, b: seq<string>)
    requires Ordered(a) && Ordered(b) && multiset(a) == multiset(b) && NumbersApart(a) && a != [] && b != []
    ensures a[|a| - 1] == b[|b| - 1]
  {
    hide Number;
    var x, y := a[|a| - 1], b[|b| - 1];
    assert y in multiset(b) && x in multiset(a);
    var i :| 0 <= i < |a| && a[i] == y;
    var j :| 0 <= j < |b| && b[j] == x;
    assert Number(y) <= Number(x) && Number(x) <= Number(y);
  }

  lemma WithoutLast(a: seq<string>)
    requires a != []
    ensures multiset(a[..|a| - 1]) == multiset(a) - multiset{a[|a| - 1]}
  {
    assert a == a[..|a| - 1] + [a[|a| - 1]];
  }

  lemma PrefixOrdered(a: seq<string>)
    requires a != [] && Ordered(a)
    ensures Ordered(a[..|a| - 1]) && (NumbersApart(a) ==> NumbersApart(a[..|a| - 1]))
  {
    hide Number;
  }

  /** A strictly ordered sequence is determined by what is in it. */
  lemma {:induction false} OneOrder(a: seq<string>, b: seq<string>)
    requires Ordered(a) && Ordered(b) && multiset(a) == multiset(b) && NumbersApart(a)
    ensures a == b
  {
    hide Number, Ordered, NumbersApart;
    assert |multiset(a)| == |multiset(b)|;
    if a != [] {
      PrefixOrdered(a);
      PrefixOrdered(b);
      SameLast(a, b);
      WithoutLast(a);
      WithoutLast(b);
      OneOrder(a[..|a| - 1], b[..|b| - 1]);
      assert a == a[..|a| - 1] + [a[|a| - 1]] && b == b[..|b| - 1] + [b[|b| - 1]];
    }
  }

  /** With distinct numbers the order does not depend on how the directory was listed. */
  lemma {:induction false} ListingOrderDoesNotMatter(one: seq<string>, other: seq<string>)
    requires multiset(one) == multiset(other) && DistinctNumbers(one) && Distinct(one)
    ensures Discover(one) == Discover(other)
  {
    hide Number, IsMigration;
    DiscoverSortsMigrations(one);
    DiscoverSortsMigrations(other);
    var a := Discover(one);
    forall i, j | 0 <= i < |a| && 0 <= j < |a| && i != j
      ensures Number(a[i]) != Number(a[j])
    {
      DistinctFound(one, i, j);
    }
    assert multiset(a) == multiset(Discover(other));
    OneOrder(a, Discover(other));
  }

  lemma OnceEach(names: seq<string>, f: string)
    requires Distinct(names)
    ensures multiset(names)[f] <= 1
    decreases |names|
  {
    if names != [] {
      assert names == names[..|names| - 1] + [names[|names| - 1]];
      OnceEach(names[..|names| - 1], f);
      if multiset(names[..|names| - 1])[f] > 0 { assert f in names[..|names| - 1]; }
    }
  }

  lemma TwiceCounted(names: seq<string>, i: nat, j: nat)
    requires i < j < |names| && names[i] == names[j]
    ensures multiset(names)[names[i]] >= 2
  {
    assert names == names[..j] + [names[j]] + names[j + 1..];
    assert names[i] in names[..j];
  }

  lemma {:induction false} DistinctFound(listing: seq<string>, i: nat, j: nat)
    requires DistinctNumbers(listing) && Distinct(listing)
    requires i < |Discover(listing)| && j < |Discover(listing)| && i != j
    ensures Number(Discover(listing)[i]) != Number(Discover(listing)[j]) && Discover(listing)[i] != Discover(listing)[j]
  {
    hide Number, IsMigration;
    DiscoverSortsMigrations(listing);
    var a := Discover(listing);
    var x, y := a[i], a[j];
    OnceEach(listing, x);
    if x == y { TwiceCounted(a, if i < j then i else j, if i < j then j else i); }
    assert x in multiset(a) && y in multiset(a);
    var p :| 0 <= p < |listing| && listing[p] == x;
    var q :| 0 <= q < |listing| && listing[q] == y;
    assert p != q;
    var first, second := if p < q then p else q, if p < q then q else p;
    assert Number(listing[first]) != Number(listing[second]);
  }

  /** The files under one number, as they come. */
  function Under(names: seq<string>, n: nat): seq<string> {
    if names == [] then []
    else
      var last, found := names[|names| - 1], Under(names[..|names| - 1], n);
      if IsMigration(last) && Number(last) == n then found + [last] else found
  }

  lemma {:induction false} UnderSnoc(names: seq<string>, name: string, n: nat)
    ensures Under(names + [name], n)
            == if IsMigration(name) && Number(name) == n then Under(names, n) + [name] else Under(names, n)
  {
    assert (names + [name])[..|names|] == names;
  }

  lemma {:induction false} InsertUnder(name: string, sorted: seq<string>, n: nat)
    ensures Under(Insert(name, sorted), n) == Under(sorted + [name], n)
  {
    hide Number, IsMigration, Under;
    if sorted != [] && Number(sorted[|sorted| - 1]) > Number(name) {
      var last, rest := sorted[|sorted| - 1], sorted[..|sorted| - 1];
      InsertUnder(name, rest, n);
      UnderSnoc(Insert(name, rest), last, n);
      UnderSnoc(rest, name, n);
      UnderSnoc(rest, last, n);
      UnderSnoc(sorted, name, n);
      assert sorted == rest + [last];
    }
  }

  /** Under one number the files stay in the order of the listing. */
  lemma {:induction false} SortIsStable(listing: seq<string>, n: nat)
    ensures Under(Discover(listing), n) == Under(listing, n)
  {
    hide Number, IsMigration, Insert;
    if listing != [] {
      var name, rest := listing[|listing| - 1], listing[..|listing| - 1];
      SortIsStable(rest, n);
      if IsMigration(name) {
        InsertUnder(name, Discover(rest), n);
        UnderSnoc(Discover(rest), name, n);
      }
    }
  }

  function Backwards(names: seq<string>): (r: seq<string>)
    ensures |r| == |names| && multiset(r) == multiset(names)
    ensures forall i :: 0 <= i < |r| ==> r[i] == names[|names| - 1 - i]
  {
    if names == [] then []
    else
      assert names == names[..|names| - 1] + [names[|names| - 1]];
      [names[|names| - 1]] + Backwards(names[..|names| - 1])
  }

  lemma {:induction false} UnderCons(name: string, names: seq<string>, n: nat)
    ensures Under([name] + names, n)
            == if IsMigration(name) && Number(name) == n then [name] + Under(names, n) else Under(names, n)
  {
    hide Number, IsMigration;
    if names == [] {
      assert [name] + names == [name] && [name][..0] == [];
    } else {
      var last, rest := names[|names| - 1], names[..|names| - 1];
      assert ([name] + names)[..|names|] == [name] + rest;
      UnderCons(name, rest, n);
    }
  }

  lemma {:induction false} UnderBackwards(names: seq<string>, n: nat)
    ensures Under(Backwards(names), n) == Backwards(Under(names, n))
  {
    hide Number, IsMigration;
    if names != [] {
      var last, rest := names[|names| - 1], names[..|names| - 1];
      UnderBackwards(rest, n);
      UnderCons(last, Backwards(rest), n);
      BackwardsSnoc(Under(rest, n), last);
    }
  }

  lemma {:induction false} BackwardsSnoc(names: seq<string>, name: string)
    ensures Backwards(names + [name]) == [name] + Backwards(names)
  {
    assert (names + [name])[..|names|] == names;
  }

  lemma {:induction false} UnderCounts(names: seq<string>, n: nat, f: string)
    ensures multiset(Under(names, n))[f] == if IsMigration(f) && Number(f) == n then multiset(names)[f] else 0
  {
    hide Number, IsMigration;
    if names != [] {
      assert names == names[..|names| - 1] + [names[|names| - 1]];
      UnderCounts(names[..|names| - 1], n, f);
    }
  }

  /** Two files under one number: listed backwards they are applied the other way about. */
  lemma {:induction false} BackwardsDiffers(one: seq<string>, i: nat, j: nat)
    requires Distinct(one) && i < j < |one|
    requires IsMigration(one[i]) && IsMigration(one[j]) && Number(one[i]) == Number(one[j])
    ensures Discover(Backwards(one)) != Discover(one)
  {
    hide Number, IsMigration, Under, Backwards;
    var n := Number(one[i]);
    var u := Under(one, n);
    SortIsStable(one, n);
    SortIsStable(Backwards(one), n);
    UnderBackwards(one, n);
    BothUnder(one, i, j, n);
    if u == Backwards(u) {
      assert u[0] == u[|u| - 1];
      TwiceCounted(u, 0, |u| - 1);
      UnderCounts(one, n, u[0]);
      OnceEach(one, u[0]);
    }
  }

  lemma {:induction false} BothUnder(one: seq<string>, i: nat, j: nat, n: nat)
    requires Distinct(one) && i < j < |one|
    requires IsMigration(one[i]) && IsMigration(one[j]) && Number(one[i]) == Number(one[j]) == n
    ensures |Under(one, n)| >= 2
  {
    hide Number, IsMigration, Under;
    var u := Under(one, n);
    UnderCounts(one, n, one[i]);
    UnderCounts(one, n, one[j]);
    assert one[i] in multiset(one) && one[j] in multiset(one);
    assert one[i] in u && one[j] in u && one[i] != one[j];
  }

  /** The order of application is the same however the directory is listed exactly when no two files
      have one number. */
  lemma {:induction false} SameHoweverListedExactly(one: seq<string>)
    requires Distinct(one)
    ensures (forall other | multiset(other) == multiset(one) :: Discover(other) == Discover(one)) <==>
              DistinctNumbers(one)
  {
    hide Number, IsMigration, Discover;
    if DistinctNumbers(one) {
      forall other | multiset(other) == multiset(one)
        ensures Discover(other) == Discover(one)
      {
        ListingOrderDoesNotMatter(one, other);
      }
    } else {
      var i, j :| 0 <= i < j < |one| && IsMigration(one[i]) && IsMigration(one[j]) && Number(one[i]) == Number(one[j]);
      BackwardsDiffers(one, i, j);
    }
  }

  // ---------------------------------------------------------------- one run

  function Pending(files: seq<string>, already: set<string>): seq<string> {
    if files == [] then []
    else if files[0] in already then Pending(files[1..], already)
    else [files[0]] + Pending(files[1..], already)
  }

  /** What is pending is exactly what is not already applied, in order. */
  lemma {:induction false} PendingExactly(files: seq<string>, already: set<string>) returns (at: seq<nat>)
    ensures PicksOut(files, Pending(files, already), at, (f: string) => f !in already)
    decreases |files|
  {
    hide PicksOut;
    if files == [] {
      at := [];
      NothingPicked((f: string) => f !in already);
    } else {
      assert files == [files[0]] + files[1..];
      at := PendingExactly(files[1..], already);
      at := PickFirst(files[0], files[1..], Pending(files[1..], already), at, (f: string) => f !in already);
    }
  }

  /** Everything before the first file whose SQL fails. */
  function UpToFailure(files: seq<string>, fails: set<string>): (r: seq<string>)
    ensures r <= files
    ensures |r| < |files| ==> files[|r|] in fails
    ensures forall i :: 0 <= i < |r| ==> r[i] !in fails
  {
    if files == [] || files[0] in fails then [] else [files[0]] + UpToFailure(files[1..], fails)
  }

  function Names(files: seq<string>): set<string> { set f | f in files }

  /** The migrations table, and what the applied SQL has done, in order. */
  class Database {
    var recorded: set<string>
    var effects: seq<string>

    constructor ()
      ensures recorded == {} && effects == []
    {
      recorded, effects := {}, [];
    }

    /** One run alone: every pending file in order, each with its record, until one fails. */
    method Apply(files: seq<string>, fails: set<string>) returns (applied: seq<string>, ok: bool)
      requires Distinct(files)
      modifies this
      ensures applied == UpToFailure(Pending(files, old(recorded)), fails)
      ensures ok <==> |applied| == |Pending(files, old(recorded))|
      ensures effects == old(effects) + applied && recorded == old(recorded) + Names(applied)
    {
      hide Pending, UpToFailure;
      applied, ok := [], true;
      var already := recorded;
      var n := 0;
      while n < |files|
        invariant n <= |files| && ok
        invariant effects == old(effects) + applied && recorded == already + Names(applied)
        invariant forall f :: f in applied ==> f in files[..n] && f !in fails
        invariant Pending(files, already) == applied + Pending(files[n..], already)
      {
        var f := files[n];
        PendingNext(files, n, already);
        if f !in already {
          if f in fails {
            ok := false;
            Stopped(applied, Pending(files[n..], already), fails);
            return;
          }
          assert f !in recorded;
          NamesMore(applied, f);
          effects := effects + [f];
          recorded := recorded + {f};
          applied := applied + [f];
        }
        n := n + 1;
      }
      PendingNone(files[n..], already);
      Stopped(applied, [], fails);
    }
  }

  lemma {:induction false} PendingNone(files: seq<string>, already: set<string>)
    requires files == []
    ensures Pending(files, already) == []
  {
  }

  lemma {:induction false} PendingNext(files: seq<string>, n: nat, already: set<string>)
    requires n < |files|
    ensures Pending(files[n..], already) ==
            (if files[n] in already then [] else [files[n]]) + Pending(files[n + 1..], already)
    ensures files[n] !in already ==> Pending(files[n..], already)[0] == files[n]
  {
    assert files[n..][1..] == files[n + 1..];
  }

  lemma NamesMore(names: seq<string>, f: string)
    ensures Names(names + [f]) == Names(names) + {f}
  {
  }

  lemma {:induction false} Stopped(done: seq<string>, rest: seq<string>, fails: set<string>)
    requires forall f :: f in done ==> f !in fails
    requires rest == [] || rest[0] in fails
    ensures UpToFailure(done + rest, fails) == done
  {
    if done == [] {
      assert done + rest == rest;
    } else {
      assert (done + rest)[1..] == done[1..] + rest;
      Stopped(done[1..], rest, fails);
    }
  }

  // ---------------------------------------------------------------- many runs at once

  type Tid = nat

  /** Where one run is: its own snapshot of what was applied, the next file, and what it has applied. */
  datatype Run = Run(at: nat, already: set<string>, applied: seq<string>, inside: bool, stage: Stage)
  datatype Stage = Going | Finished | Crashed

  datatype State = State(runs: map<Tid, Run>, recorded: set<string>, effects: seq<string>)

  /** `Open` executes the next file's SQL and its insert in a transaction; `Commit` ends it. */
  datatype Step = Begin(t: Tid) | Skip(t: Tid) | Open(t: Tid) | Commit(t: Tid) | Finish(t: Tid) | Crash(t: Tid)

  const Init := State(map[], {}, [])

  function Moved(s: State, t: Tid, r: Run): State { s.(runs := s.runs[t := r]) }

  predicate GoingAt(s: State, t: Tid, dir: seq<string>) {
    t in s.runs && s.runs[t].stage.Going? && s.runs[t].at < |dir|
  }

  /** The record's primary key: the second to commit a file fails, and its SQL is rolled back with it. */
  function DoCommit(dir: seq<string>, s: State, t: Tid): State
    requires GoingAt(s, t, dir)
  {
    var r := s.runs[t];
    var f := dir[r.at];
    if f in s.recorded then Moved(s, t, r.(stage := Crashed))
    else State(s.runs[t := Run(r.at + 1, r.already, r.applied + [f], false, Going)], s.recorded + {f}, s.effects + [f])
  }

  function Do(dir: seq<string>, s: State, step: Step): State {
    match step
    case Begin(t) => if t in s.runs then s else Moved(s, t, Run(0, s.recorded, [], false, Going))
    case Skip(t) =>
      if GoingAt(s, t, dir) && !s.runs[t].inside && dir[s.runs[t].at] in s.runs[t].already
      then Moved(s, t, s.runs[t].(at := s.runs[t].at + 1)) else s
    case Open(t) =>
      if GoingAt(s, t, dir) && dir[s.runs[t].at] !in s.runs[t].already then
        Moved(s, t, s.runs[t].(inside := true))
      else s
    case Commit(t) => if GoingAt(s, t, dir) && s.runs[t].inside then DoCommit(dir, s, t) else s
    case Finish(t) =>
      if t in s.runs && s.runs[t].stage.Going? && s.runs[t].at >= |dir| then
        Moved(s, t, s.runs[t].(stage := Finished))
      else s
    case Crash(t) => if t in s.runs && s.runs[t].stage.Going? then Moved(s, t, s.runs[t].(stage := Crashed)) else s
  }

  function After(dir: seq<string>, steps: seq<Step>): State {
    if steps == [] then Init else Do(dir, After(dir, steps[..|steps| - 1]), steps[|steps| - 1])
  }

  predicate Credited(s: State, t: Tid, f: string) { t in s.runs && f in s.runs[t].applied }

  predicate Sound(dir: seq<string>, s: State, r: Run) {
    && r.at <= |s.effects| && r.already <= s.recorded
    && (r.stage.Finished? ==> r.at >= |dir|)
  }

  ghost predicate Inv(dir: seq<string>, s: State) {
    && s.effects <= dir && s.recorded == Names(s.effects)
    && (forall t :: t in s.runs ==> Sound(dir, s, s.runs[t]))
  }

  ghost predicate CreditInv(s: State) {
    && (forall f :: f in s.recorded ==> exists t :: Credited(s, t, f))
    && (forall t, f :: Credited(s, t, f) ==> f in s.recorded)
    && (forall t, u, f :: Credited(s, t, f) && Credited(s, u, f) ==> t == u)
  }

  lemma EarlierIsDone(dir: seq<string>, s: State, at: nat)
    requires s.effects <= dir && s.recorded == Names(s.effects) && at < |s.effects|
    ensures dir[at] in s.recorded
  {
    assert s.effects[at] == dir[at];
  }

  lemma CommitKeeps(dir: seq<string>, s: State, t: Tid)
    requires Distinct(dir) && Inv(dir, s) && GoingAt(s, t, dir)
    ensures Inv(dir, DoCommit(dir, s, t))
  {
    var at, n := s.runs[t].at, |s.effects|;
    assert Sound(dir, s, s.runs[t]);
    if at < n { EarlierIsDone(dir, s, at); }
    if dir[at] !in s.recorded {
      assert s.effects + [dir[at]] == dir[..n + 1];
    }
  }

  lemma StepKeeps(dir: seq<string>, s: State, step: Step)
    requires Distinct(dir) && Inv(dir, s)
    ensures Inv(dir, Do(dir, s, step))
  {
    hide Distinct;
    if step.t in s.runs { assert Sound(dir, s, s.runs[step.t]); }
    if step.Commit? && GoingAt(s, step.t, dir) { CommitKeeps(dir, s, step.t); }
    if step.Skip? && GoingAt(s, step.t, dir) && dir[s.runs[step.t].at] in s.runs[step.t].already {
      SkippedIsDone(dir, s, s.runs[step.t].at);
    }
  }

  lemma SkippedIsDone(dir: seq<string>, s: State, at: nat)
    requires Distinct(dir) && s.effects <= dir && s.recorded == Names(s.effects) && at < |dir| && dir[at] in s.recorded
    ensures at < |s.effects|
  {
    var i :| 0 <= i < |s.effects| && s.effects[i] == dir[at];
    assert dir[i] == dir[at];
  }

  lemma CreditStep(dir: seq<string>, s: State, step: Step)
    requires CreditInv(s)
    ensures CreditInv(Do(dir, s, step))
  {
    var s' := Do(dir, s, step);
    var t := step.t;
    if step.Commit? && GoingAt(s, t, dir) && s.runs[t].inside && dir[s.runs[t].at] !in s.recorded {
      var f := dir[s.runs[t].at];
      assert forall u, g :: Credited(s', u, g) <==> Credited(s, u, g) || (u == t && g == f);
      assert Credited(s', t, f);
    } else {
      assert forall u, g :: Credited(s', u, g) <==> Credited(s, u, g);
    }
  }

  lemma {:induction false} Reachable(dir: seq<string>, steps: seq<Step>)
    requires Distinct(dir)
    ensures Inv(dir, After(dir, steps)) && CreditInv(After(dir, steps))
  {
    if steps != [] {
      hide Inv, CreditInv, Do;
      var before := steps[..|steps| - 1];
      Reachable(dir, before);
      StepKeeps(dir, After(dir, before), steps[|steps| - 1]);
      CreditStep(dir, After(dir, before), steps[|steps| - 1]);
    }
  }

  /** However many runs, crashing wherever they do: what has been applied is the first so many files
      in order, so none twice, and the table records exactly those. */
  lemma {:induction false} AlwaysAPrefix(listing: seq<string>, steps: seq<Step>)
    requires DistinctNumbers(listing) && Distinct(listing)
    ensures var dir := Discover(listing);
            var s := After(dir, steps);
            && s.effects <= dir && Distinct(s.effects) && Ordered(s.effects) && s.recorded == Names(s.effects)
  {
    hide After, Number, IsMigration, Do;
    var dir := Discover(listing);
    forall i, j | 0 <= i < j < |dir|
      ensures dir[i] != dir[j]
    {
      DistinctFound(listing, i, j);
    }
    DiscoverSortsMigrations(listing);
    Reachable(dir, steps);
    var done := After(dir, steps).effects;
    assert done == dir[..|done|];
  }

  /** A run that finishes leaves every file applied, by whichever run. */
  lemma {:induction false} FinishedMeansAll(dir: seq<string>, steps: seq<Step>, t: Tid)
    requires Distinct(dir)
    requires t in After(dir, steps).runs && After(dir, steps).runs[t].stage.Finished?
    ensures After(dir, steps).effects == dir
  {
    hide After, Do;
    Reachable(dir, steps);
    assert Sound(dir, After(dir, steps), After(dir, steps).runs[t]);
  }

  /** Every applied file is reported by exactly one run. */
  lemma {:induction false} AppliedByExactlyOneRun(dir: seq<string>, steps: seq<Step>, f: string)
    requires Distinct(dir)
    ensures var s := After(dir, steps);
            && (f in s.effects <==> exists t :: Credited(s, t, f))
            && (forall t, u :: Credited(s, t, f) && Credited(s, u, f) ==> t == u)
  {
    hide After, Do;
    Reachable(dir, steps);
    var s := After(dir, steps);
    assert f in s.effects <==> f in s.recorded;
    if t :| Credited(s, t, f) { assert f in s.recorded; }
  }

  // ---------------------------------------------------------------- and they get there

  function Further(k: nat, a: nat): nat { if k < a then a else k }

  /** Run `t` is at file `a` of the directory with nobody disturbing it, having found the first `k` applied. */
  predicate Undisturbed(dir: seq<string>, s: State, t: Tid, k: nat, a: nat) {
    && k <= |dir| && a <= |dir| && t in s.runs && s.recorded == Names(s.effects)
    && s.effects == dir[..Further(k, a)]
    && s.runs[t] == Run(a, Names(dir[..k]), dir[k..Further(k, a)], false, Going)
  }

  lemma EarlierFile(dir: seq<string>, k: nat, a: nat)
    requires Distinct(dir) && k <= |dir| && a < |dir|
    ensures dir[a] in Names(dir[..k]) <==> a < k
  {
    if a < k { assert dir[..k][a] == dir[a]; }
    if dir[a] in Names(dir[..k]) {
      var i :| 0 <= i < k && dir[..k][i] == dir[a];
      assert dir[i] == dir[a];
    }
  }

  lemma NextFile(dir: seq<string>, s: State, t: Tid, k: nat, a: nat)
    requires Distinct(dir) && Undisturbed(dir, s, t, k, a) && a < |dir|
    ensures if a < k then Undisturbed(dir, Do(dir, s, Skip(t)), t, k, a + 1)
            else Undisturbed(dir, Do(dir, Do(dir, s, Open(t)), Commit(t)), t, k, a + 1)
  {
    EarlierFile(dir, k, a);
    EarlierFile(dir, Further(k, a), a);
    hide Distinct;
    if k <= a {
      assert dir[..a + 1] == dir[..a] + [dir[a]] && dir[k..a + 1] == dir[k..a] + [dir[a]];
      assert Names(dir[..a + 1]) == Names(dir[..a]) + {dir[a]};
    }
  }

  lemma {:induction false} Then(dir: seq<string>, steps: seq<Step>, step: Step)
    ensures After(dir, steps + [step]) == Do(dir, After(dir, steps), step)
  {
    assert (steps + [step])[..|steps|] == steps;
  }

  predicate AllBy(steps: seq<Step>, t: Tid) { forall i :: 0 <= i < |steps| ==> steps[i].t == t }

  lemma {:induction false} Through(dir: seq<string>, before: seq<Step>, t: Tid, k: nat, a: nat)
    returns (more: seq<Step>)
    requires Distinct(dir) && Undisturbed(dir, After(dir, before), t, k, a)
    ensures AllBy(more, t) && Undisturbed(dir, After(dir, before + more), t, k, |dir|)
    decreases |dir| - a
  {
    hide After, Do, Distinct;
    more := [];
    assert before + more == before;
    assert Undisturbed(dir, After(dir, before), t, k, a);
    if a < |dir| {
      NextFile(dir, After(dir, before), t, k, a);
      hide Undisturbed;
      if a < k {
        Then(dir, before, Skip(t));
        more := Through(dir, before + [Skip(t)], t, k, a + 1);
        assert before + [Skip(t)] + more == before + ([Skip(t)] + more);
        more := [Skip(t)] + more;
      } else {
        Then(dir, before, Open(t));
        Then(dir, before + [Open(t)], Commit(t));
        more := Through(dir, before + [Open(t)] + [Commit(t)], t, k, a + 1);
        assert before + [Open(t)] + [Commit(t)] + more == before + ([Open(t), Commit(t)] + more);
        more := [Open(t), Commit(t)] + more;
      }
    }
  }

  lemma {:induction false} Starts(dir: seq<string>, before: seq<Step>, t: Tid)
    requires Distinct(dir) && t !in After(dir, before).runs
    ensures var s := After(dir, before);
            && |s.effects| <= |dir| && s.effects == dir[..|s.effects|]
            && Undisturbed(dir, After(dir, before + [Begin(t)]), t, |s.effects|, 0)
  {
    var s := After(dir, before);
    var k := |s.effects|;
    Reachable(dir, before);
    assert s.effects == dir[..k] && dir[k..k] == [];
    hide After, Distinct;
    Then(dir, before, Begin(t));
  }

  lemma Finishes(dir: seq<string>, s: State, t: Tid, k: nat)
    requires Undisturbed(dir, s, t, k, |dir|)
    ensures var s' := Do(dir, s, Finish(t));
            && t in s'.runs && s'.runs[t].stage.Finished? && s'.effects == dir && s'.recorded == Names(dir)
            && dir[..k] + s'.runs[t].applied == dir
  {
    assert dir[..|dir|] == dir && dir[..k] + dir[k..] == dir;
  }

  /** Whatever has gone before and wherever it crashed, one more run, left to itself, finishes: it applies
      and reports exactly what was left, in order. */
  lemma {:induction false} OneMoreRunFinishes(dir: seq<string>, before: seq<Step>, t: Tid) returns (more: seq<Step>)
    requires Distinct(dir) && t !in After(dir, before).runs
    ensures AllBy(more, t)
    ensures var s, s' := After(dir, before), After(dir, before + more);
            && t in s'.runs && s'.runs[t].stage.Finished? && s'.effects == dir && s'.recorded == Names(dir)
            && s.effects + s'.runs[t].applied == dir
  {
    hide After, Distinct, Undisturbed, Do;
    Starts(dir, before, t);
    var k := |After(dir, before).effects|;
    more := Through(dir, before + [Begin(t)], t, k, 0);
    Then(dir, before + [Begin(t)] + more, Finish(t));
    Finishes(dir, After(dir, before + [Begin(t)] + more), t, k);
    assert before + [Begin(t)] + more + [Finish(t)] == before + ([Begin(t)] + more + [Finish(t)]);
    more := [Begin(t)] + more + [Finish(t)];
  }
}
