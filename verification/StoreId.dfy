/** The key a controller's conversation is stored under. */
module StoreId {
  import opened Text

  function Dashed(s: string): (r: string)
    ensures |r| == |s| && forall i :: 0 <= i < |s| ==> r[i] == if s[i] == ' ' then '-' else s[i]
  {
    if s == [] then [] else [if s[0] == ' ' then '-' else s[0]] + Dashed(s[1..])
  }

  /** The seat: the station when there is one, the role when there is not. */
  function SeatKey(role: string, station: string): string {
    Dashed(Lower(Strip(if station != [] then station else role)))
  }

  function StoreId(session: string, role: string, station: string): string {
    var key := SeatKey(role, station);
    if key == [] then session else session + ":" + key
  }

  predicate NoColon(s: string) { ':' !in s }

  lemma ColonAt(s: string, t: string, y: string)
    requires s <= t + ":" + y && |t| < |s|
    ensures ':' in s
  {
    assert s[|t|] == (t + ":" + y)[|t|] == ':';
  }

  lemma FirstColon(s: string, x: string, t: string, y: string)
    requires NoColon(s) && NoColon(t) && s + ":" + x == t + ":" + y
    ensures s == t && x == y
  {
    var a, b := s + ":" + x, t + ":" + y;
    assert s == a[..|s|] && t == b[..|t|];
    if |s| < |t| { ColonAt(t, s, x); }
    if |t| < |s| { ColonAt(s, t, y); }
    assert x == a[|s| + 1..] && y == b[|t| + 1..];
  }

  /** Two controllers share a conversation exactly when they share a session and a seat, for sessions
      without a colon. */
  lemma StoreIsInjective(s: string, role: string, station: string, s': string, role': string, station': string)
    requires NoColon(s) && NoColon(s')
    ensures StoreId(s, role, station) == StoreId(s', role', station')
            <==> s == s' && SeatKey(role, station) == SeatKey(role', station')
  {
    var k, k' := SeatKey(role, station), SeatKey(role', station');
    if StoreId(s, role, station) == StoreId(s', role', station') {
      if k != [] && k' != [] {
        FirstColon(s, k, s', k');
      } else if k != [] {
        ColonAt(s', s, k);
      } else if k' != [] {
        ColonAt(s, s', k');
      }
    }
  }

  /** With a station the role is not looked at; without one it stands in for it; and without either the store
      is the session's own. */
  lemma StationBeforeRole(session: string, role: string, other: string, station: string)
    ensures station != [] ==> SeatKey(role, station) == SeatKey(other, station)
    ensures SeatKey(role, []) == SeatKey([], role)
    ensures StoreId(session, [], []) == session
  {
    assert Strip("") == "";
  }

  lemma {:induction false} LowerIs(s: string, t: string)
    requires |t| == |s| && forall i :: 0 <= i < |s| ==> t[i] == LowerChar(s[i])
    ensures Lower(s) == t
  {
  }

  lemma {:induction false} LowerStripsLeft(s: string)
    ensures StripLeft(Lower(s)) == Lower(StripLeft(s))
  {
    if s != [] && IsSpace(s[0]) {
      LowerIs(s[1..], Lower(s)[1..]);
      LowerStripsLeft(s[1..]);
    }
  }

  lemma {:induction false} LowerStripsRight(s: string)
    ensures StripRight(Lower(s)) == Lower(StripRight(s))
  {
    if s != [] && IsSpace(s[|s| - 1]) {
      LowerIs(s[..|s| - 1], Lower(s)[..|s| - 1]);
      LowerStripsRight(s[..|s| - 1]);
    }
  }

  lemma {:induction false} LowerTwice(s: string)
    ensures Lower(Lower(s)) == Lower(s)
  {
    LowerIs(Lower(s), Lower(s));
  }

  lemma {:induction false} LowerStrips(s: string)
    ensures Strip(Lower(s)) == Lower(Strip(s))
  {
    hide Lower, StripLeft, StripRight;
    LowerStripsLeft(s);
    LowerStripsRight(StripLeft(s));
  }

  /** Capitals are nothing to it. */
  lemma {:induction false} CaseDoesNotMatter(role: string, station: string)
    ensures SeatKey(Lower(role), Lower(station)) == SeatKey(role, station)
  {
    var raw := if station != [] then station else role;
    assert (if Lower(station) != [] then Lower(station) else Lower(role)) == Lower(raw);
    hide Lower, Strip, Dashed;
    LowerStrips(raw);
    LowerTwice(Strip(raw));
  }

  /** A key put through again is itself. */
  lemma KeyOfAKey(role: string, station: string)
    requires SeatKey(role, station) != []
    ensures SeatKey([], SeatKey(role, station)) == SeatKey(role, station)
  {
    var k := SeatKey(role, station);
    var s := Strip(if station != [] then station else role);
    var a, b := StripTakesOnlySpace(if station != [] then station else role);
    DashedLowered(s);
    hide Lower, Dashed;
    assert StripLeft(k) == k && StripRight(k) == k;
  }

  lemma {:induction false} DashedLowered(s: string)
    ensures var k := Dashed(Lower(s));
            && Lower(k) == k && Dashed(k) == k && |k| == |s|
            && forall i :: 0 <= i < |s| && !IsSpace(s[i]) ==> !IsSpace(k[i])
  {
    hide Lower, Dashed, IsSpace;
    var k := Dashed(Lower(s));
    assert Lower(k) == k;
    assert Dashed(k) == k;
    NotMadeSpace(s, k);
  }

  lemma NotMadeSpace(s: string, k: string)
    requires |k| == |s|
    requires forall i :: 0 <= i < |s| ==> k[i] == LowerChar(s[i]) || k[i] == '-'
    ensures forall i :: 0 <= i < |s| && !IsSpace(s[i]) ==> !IsSpace(k[i])
  {
    forall i | 0 <= i < |s| && !IsSpace(s[i])
      ensures !IsSpace(k[i])
    {
      assert k[i] == LowerChar(s[i]) || k[i] == '-';
    }
  }

  // ---------------------------------------------------------------- which sessions collide

  /** A text some seat's key can begin with. */
  predicate Startable(x: string) {
    && (forall i :: 0 <= i < |x| ==> x[i] != ' ' && !('A' <= x[i] <= 'Z'))
    && (x != [] ==> !IsSpace(x[0]))
  }

  lemma {:induction false} StripLeftStarts(s: string)
    ensures StripLeft(s) == [] || !IsSpace(StripLeft(s)[0])
  {
    if s != [] && IsSpace(s[0]) { StripLeftStarts(s[1..]); }
  }

  lemma {:induction false} StripRightIsPrefix(s: string)
    ensures StripRight(s) <= s
  {
    if s != [] && IsSpace(s[|s| - 1]) { StripRightIsPrefix(s[..|s| - 1]); }
  }

  /** Whatever the pilot's client sends, the key it makes is startable, and so is all before a part of it. */
  lemma KeysAreStartable(role: string, station: string, x: string)
    requires x <= SeatKey(role, station)
    ensures Startable(x)
  {
    var raw := if station != [] then station else role;
    StripLeftStarts(raw);
    StripRightIsPrefix(StripLeft(raw));
  }

  /** A startable text with more after it is the start of a key that is left as it is. */
  lemma KeptAsKey(role: string, x: string, y: char)
    requires Startable(x + [y]) && !IsSpace(y)
    ensures SeatKey(role, x + [y]) == x + [y]
  {
    var k := x + [y];
    assert StripRight(k) == k;
    assert Lower(k) == k;
    assert Dashed(k) == k;
  }

  /** The seat that carries the rest of a longer session's name in its key. */
  lemma SeatInside(s: string, x: string, role: string)
    requires Startable(x)
    ensures StoreId(s, role, x + ":a") == s + ":" + x + ":a"
  {
    StillStartable(x);
    hide SeatKey, Startable;
    var key := x + ":a";
    assert key == (x + ":") + ['a'];
    KeptAsKey(role, x + ":", 'a');
    assert s + ":" + key == s + ":" + x + ":a";
  }

  lemma StillStartable(x: string)
    requires Startable(x)
    ensures Startable(x + ":" + ['a'])
  {
  }

  /** What one store's name being the start of another's says of their sessions. */
  lemma StartOf(s: string, t: string, k: string)
    requires s + ":" <= t + ":" + k && |t| < |s|
    ensures var x := s[|t| + 1..]; s == t + ":" + x && x + ":" <= k
  {
    var whole, x := t + ":" + k, s[|t| + 1..];
    assert s + ":" == whole[..|s| + 1];
    assert s == whole[..|s|];
    assert s[..|t|] == t && s[|t|] == whole[|t|] == ':';
    assert x + ":" == (s + ":")[|t| + 1..] == whole[|t| + 1..|s| + 1];
    assert whole[|t| + 1..] == k;
  }

  ghost predicate Shared(s: string, s': string) {
    exists role, station, role', station' :: StoreId(s, role, station) == StoreId(s', role', station')
  }

  /** The rest of the longer name is something a seat's key can begin with. */
  ghost predicate Extends(s: string, s': string) {
    exists x :: Startable(x) && s == s' + ":" + x
  }

  lemma ExtendsShares(s: string, s': string)
    requires Extends(s, s')
    ensures Shared(s, s')
  {
    var x :| Startable(x) && s == s' + ":" + x;
    hide SeatKey, Startable;
    SeatInside(s', x, "");
    PlainSeat(s);
    assert s + ":a" == s' + ":" + x + ":a";
  }

  lemma PlainSeat(s: string)
    ensures StoreId(s, "", "a") == s + ":a"
  {
    assert "" + ['a'] == "a";
    KeptAsKey("", "", 'a');
  }

  /** A shared store whose session is the longer one's. */
  lemma SharesExtends(s: string, role: string, station: string, s': string, role': string, station': string)
    requires StoreId(s, role, station) == StoreId(s', role', station') && s != s' && |s'| <= |s|
    ensures Extends(s, s')
  {
    var k, k' := SeatKey(role, station), SeatKey(role', station');
    if k == [] {
      assert s == s' + ":" + k';
      KeysAreStartable(role', station', k');
    } else {
      var whole := s + ":" + k;
      assert whole[..|s|] == s && |whole| > |s|;
      assert whole[..|s'|] == s';
      assert |s'| < |s|;
      assert s + ":" == whole[..|s| + 1];
      StartOf(s, s', k');
      KeysAreStartable(role', station', s[|s'| + 1..]);
    }
  }

  /** Two sessions share a conversation exactly when one is the other with a colon and something a
      seat's key can begin with. */
  lemma SessionsCollideExactly(s: string, s': string)
    requires s != s'
    ensures Shared(s, s') <==> Extends(s, s') || Extends(s', s)
  {
    if Shared(s, s') {
      var role, station, role', station' :| StoreId(s, role, station) == StoreId(s', role', station');
      if |s'| <= |s| { SharesExtends(s, role, station, s', role', station'); }
      else { SharesExtends(s', role', station', s, role, station); }
    }
    if Extends(s, s') { ExtendsShares(s, s'); }
    if Extends(s', s) {
      ExtendsShares(s', s);
      var role, station, role', station' :| StoreId(s', role, station) == StoreId(s, role', station');
    }
  }

  /** With a colon in the session a bare session can be another session's seat. */
  lemma ColonCollides()
    ensures StoreId("hooks:tower", "", "") == StoreId("hooks", "tower", "")
  {
    assert Lower("tower") == "tower";
    assert Dashed("tower") == "tower";
    assert Strip("tower") == "tower";
    assert SeatKey("", "") == "" by { assert Strip("") == ""; }
  }
}
