/**
 * Editing a text by offsets worked out before the first edit: done from the bottom up, one splice at
 * a time, it is the same as making every edit at once.
 */
module Splice {

  /** Replace `[a, b)` by `put`; an insertion has `a == b`. */
  datatype Edit<T> = Edit(a: nat, b: nat, put: seq<T>)

  /** In order, none overlapping another, none outside. */
  predicate Apart<T>(edits: seq<Edit<T>>, from: nat, n: nat)
    decreases |edits|
  {
    if edits == [] then from <= n
    else from <= edits[0].a <= edits[0].b <= n && Apart(edits[1..], edits[0].b, n)
  }

  /** Every edit at once: what lies between them, and what each puts in. */
  function Rewritten<T>(text: seq<T>, edits: seq<Edit<T>>, from: nat): seq<T>
    requires Apart(edits, from, |text|)
    decreases |edits|
  {
    if edits == [] then text[from..]
    else text[from..edits[0].a] + edits[0].put + Rewritten(text, edits[1..], edits[0].b)
  }

  lemma {:induction false} ApartFrom<T>(edits: seq<Edit<T>>, from: nat, m: nat, n: nat)
    requires Apart(edits, from, n) && m <= n && (edits != [] ==> m <= edits[0].a)
    ensures Apart(edits, m, n)
  {
  }

  lemma Joined<T>(p: seq<T>, q: seq<T>, r: seq<T>, t: seq<T>)
    ensures (p + q) + r + t == p + (q + r + t)
  {
  }

  /** Text before the first edit is carried over. */
  lemma {:induction false} CarriedOver<T>(text: seq<T>, edits: seq<Edit<T>>, from: nat, m: nat)
    requires Apart(edits, from, |text|) && from <= m <= |text| && (edits != [] ==> m <= edits[0].a)
    ensures Apart(edits, m, |text|)
    ensures Rewritten(text, edits, from) == text[from..m] + Rewritten(text, edits, m)
  {
    if edits == [] {
      assert text[from..] == text[from..m] + text[m..];
    } else {
      var e, below := edits[0], Rewritten(text, edits[1..], edits[0].b);
      assert text[from..e.a] == text[from..m] + text[m..e.a];
      Joined(text[from..m], text[m..e.a], e.put, below);
    }
  }

  lemma {:induction false} ApartTail<T>(edits: seq<Edit<T>>, from: nat, k: nat, n: nat)
    requires Apart(edits, from, n) && k <= |edits|
    ensures Apart(edits[k..], from, n)
    ensures k < |edits| ==> from <= edits[k].a <= edits[k].b <= n && Apart(edits[k + 1..], edits[k].b, n)
    decreases k
  {
    if k == 0 {
      assert edits[0..] == edits;
    } else {
      ApartTail(edits[1..], edits[0].b, k - 1, n);
      assert edits[1..][k - 1..] == edits[k..];
      if k < |edits| { assert edits[1..][k..] == edits[k + 1..] && edits[1..][k - 1] == edits[k]; }
      ApartFrom(edits[k..], edits[0].b, from, n);
    }
  }

  /** One more edit from the bottom: a splice of what the edits below it have made. */
  lemma {:induction false} OneMoreEdit<T>(text: seq<T>, edits: seq<Edit<T>>, k: nat, live: seq<T>)
    requires Apart(edits, 0, |text|) && k < |edits| && Apart(edits[k + 1..], 0, |text|)
    requires live == Rewritten(text, edits[k + 1..], 0)
    ensures edits[k].a <= edits[k].b <= |text| && edits[k].b <= |live| && Apart(edits[k..], 0, |text|)
    ensures live[..edits[k].b] == text[..edits[k].b]
    ensures live[..edits[k].a] + edits[k].put + live[edits[k].b..] == Rewritten(text, edits[k..], 0)
  {
    var e, below := edits[k], edits[k + 1..];
    ApartTail(edits, 0, k, |text|);
    assert edits[k..][1..] == below && edits[k..][0] == e;
    CarriedOver(text, below, 0, e.b);
    assert live == text[..e.b] + Rewritten(text, below, e.b);
    assert live[..e.a] == text[..e.a] && live[e.b..] == Rewritten(text, below, e.b);
  }

  /** The last edit first, so that no splice moves an offset still to be used. */
  method BottomUp<T>(text: seq<T>, edits: seq<Edit<T>>) returns (live: seq<T>)
    requires Apart(edits, 0, |text|)
    ensures live == Rewritten(text, edits, 0)
  {
    live := text;
    var k := |edits|;
    ApartTail(edits, 0, k, |text|);
    assert text[0..] == text;
    while k > 0
      invariant 0 <= k <= |edits| && Apart(edits[k..], 0, |text|)
      invariant live == Rewritten(text, edits[k..], 0)
    {
      k := k - 1;
      OneMoreEdit(text, edits, k, live);
      live := live[..edits[k].a] + edits[k].put + live[edits[k].b..];
    }
    assert edits[0..] == edits;
  }

  // ---------------------------------------------------------------- from the top down

  /** Offsets past the end of the text stop at its end. */
  function Within<T>(n: nat, text: seq<T>): nat { if n <= |text| then n else |text| }

  function Spliced<T>(live: seq<T>, e: Edit<T>): seq<T> {
    live[..Within(e.a, live)] + e.put + live[Within(e.b, live)..]
  }

  /** The first edit first, by the same offsets. */
  function TopDown<T>(live: seq<T>, edits: seq<Edit<T>>): seq<T>
    decreases |edits|
  {
    if edits == [] then live else TopDown(Spliced(live, edits[0]), edits[1..])
  }

  /** Every edit but the last puts in as much as it takes out. */
  predicate KeepLengths<T>(edits: seq<Edit<T>>) {
    forall i :: 0 <= i < |edits| - 1 ==> edits[i].a + |edits[i].put| == edits[i].b
  }

  lemma {:induction false} TopDownFrom<T>(text: seq<T>, live: seq<T>, edits: seq<Edit<T>>, from: nat)
    requires Apart(edits, from, |text|) && KeepLengths(edits)
    requires from <= |text| == |live| && live[from..] == text[from..]
    ensures TopDown(live, edits) == live[..from] + Rewritten(text, edits, from)
    decreases |edits|
  {
    if edits == [] {
      assert live == live[..from] + text[from..];
    } else {
      var e := edits[0];
      var next := live[..e.a] + e.put + live[e.b..];
      assert next == Spliced(live, e);
      assert forall k :: from <= k <= |text| ==>
          text[k..] == text[from..][k - from..] && live[k..] == live[from..][k - from..];
      assert live[..e.a] == live[..from] + text[from..e.a] by {
        assert text[from..e.a] == text[from..][..e.a - from] && live[from..e.a] == live[from..][..e.a - from];
      }
      if |edits| == 1 {
        assert edits[1..] == [];
        assert next == live[..from] + (text[from..e.a] + e.put + text[e.b..]);
      } else {
        assert e.a + |e.put| == e.b;
        assert forall i :: 0 <= i < |edits| - 2 ==> edits[1..][i] == edits[i + 1];
        assert next[e.b..] == text[e.b..] && next[..e.b] == live[..e.a] + e.put;
        TopDownFrom(text, next, edits[1..], e.b);
        Joined(live[..from], text[from..e.a], e.put, Rewritten(text, edits[1..], e.b));
      }
    }
  }

  /** From the top down is making every edit at once as long as nothing moves before it is used: when
      every edit but the last keeps its length. */
  lemma {:induction false} TopDownInPlace<T>(text: seq<T>, edits: seq<Edit<T>>)
    requires Apart(edits, 0, |text|) && KeepLengths(edits)
    ensures TopDown(text, edits) == Rewritten(text, edits, 0)
  {
    TopDownFrom(text, text, edits, 0);
    assert [] + Rewritten(text, edits, 0) == Rewritten(text, edits, 0);
  }

  /** An edit that changes the length before one that takes something out: whenever what should go
      first, or last, is nowhere else, it stays. */
  lemma {:induction false} TopDownMisses<T>(text: seq<T>, e: Edit<T>, f: Edit<T>, k: nat)
    requires Apart([e, f], 0, |text|) && f.a < f.b && e.a + |e.put| != e.b
    requires k == if e.a + |e.put| < e.b then f.a else f.b - 1
    requires k < |text| && text[k] !in e.put + f.put && forall i :: 0 <= i < |text| && i != k ==> text[i] != text[k]
    ensures text[k] !in Rewritten(text, [e, f], 0) && text[k] in TopDown(text, [e, f])
  {
    PairRewritten(text, e, f);
    TopDownPair(text, e, f);
    var live := text[..e.a] + e.put + text[e.b..];
    assert live == Spliced(text, e) && live[e.a + |e.put| + (k - e.b)] == text[k];
    hide *;
    StillThere(live, f, e.a + |e.put| + (k - e.b));
    NotAmong(text, e, f, k);
  }

  lemma {:induction false} TopDownPair<T>(text: seq<T>, e: Edit<T>, f: Edit<T>)
    ensures TopDown(text, [e, f]) == Spliced(Spliced(text, e), f)
  {
    hide Spliced;
    assert [e, f][1..] == [f] && [f][1..] == [];
    assert TopDown(Spliced(text, e), [f]) == TopDown(Spliced(Spliced(text, e), f), []);
  }

  /** What a splice does not reach stays. */
  lemma StillThere<T>(live: seq<T>, f: Edit<T>, at: nat)
    requires at < |live| && f.a <= f.b && (at < f.a || f.b <= at)
    ensures live[at] in Spliced(live, f)
  {
    var a, b, out := Within(f.a, live), Within(f.b, live), Spliced(live, f);
    if at < f.a { assert out[at] == live[at]; } else { assert out[a + |f.put| + (at - b)] == live[at]; }
  }

  lemma NotAmong<T>(text: seq<T>, e: Edit<T>, f: Edit<T>, k: nat)
    requires e.a <= e.b <= f.a <= k < f.b <= |text|
    requires text[k] !in e.put + f.put && forall i :: 0 <= i < |text| && i != k ==> text[i] != text[k]
    ensures text[k] !in text[..e.a] + e.put + (text[e.b..f.a] + f.put + text[f.b..])
  {
    assert forall x :: x in e.put || x in f.put ==> x in e.put + f.put;
  }

  lemma {:induction false} PairRewritten<T>(text: seq<T>, e: Edit<T>, f: Edit<T>)
    requires Apart([e, f], 0, |text|)
    ensures e.a <= e.b <= f.a <= f.b <= |text|
    ensures Rewritten(text, [e, f], 0) == text[..e.a] + e.put + (text[e.b..f.a] + f.put + text[f.b..])
  {
    assert [e, f][1..] == [f] && [f][1..] == [];
    assert Apart([f], e.b, |text|);
    assert Rewritten(text, [f], e.b) == text[e.b..f.a] + f.put + text[f.b..];
    assert text[0..e.a] == text[..e.a];
  }
}
