/**
 * A conversation is held twice: live in a cached agent, which drops old turns and strips stale
 * situation blocks, and as stored rows, which keep everything.  What each endpoint does to both.
 */
module Transcript {
  import opened Seats
  import opened StoreId
  import opened Text

  datatype Role = User | Assistant
  datatype Turn = Turn(role: Role, content: seq<string>)

  type Talk = seq<Turn>

  // ---------------------------------------------------------------- situation blocks

  predicate IsAt(text: string, pat: string, i: nat) { i + |pat| <= |text| && text[i..i + |pat|] == pat }

  /** The first place at or after `from` where `pat` stands, or -1. */
  function Find(text: string, pat: string, from: nat): (r: int)
    ensures r == -1 || (from <= r && IsAt(text, pat, r))
    decreases |text| - from
  {
    if from + |pat| > |text| then -1 else if IsAt(text, pat, from) then from
    else if from == |text| then -1 else Find(text, pat, from + 1)
  }

  const PILOT := "PILOT:"
  const EVENT := "EVENT --"
  const RADAR := "\nRADAR:"
  const CALL := "\nMake the radio call now"

  predicate HasSituation(text: string) { Find(text, PILOT, 0) != -1 || EVENT <= text }

  function StripSituation(text: string): string {
    var cut := Find(text, PILOT, 0);
    if cut != -1 then text[cut..]
    else if EVENT <= text then
      var a := Find(text, RADAR, 0);
      if a == -1 then text
      else
        var b := Find(text, CALL, a + |RADAR|);
        text[..a] + (if b == -1 then "" else text[b..])
    else text
  }

  function ScrubTurn(t: Turn): Turn {
    Turn(t.role, seq(|t.content|, i requires 0 <= i < |t.content| => StripSituation(t.content[i])))
  }

  predicate Situated(t: Turn) { exists i :: 0 <= i < |t.content| && HasSituation(t.content[i]) }

  /** The newest turn that carries a situation, or -1. */
  function Newest(talk: Talk): (r: int)
    ensures -1 <= r < |talk|
  {
    if talk == [] then -1 else if Situated(talk[|talk| - 1]) then |talk| - 1 else Newest(talk[..|talk| - 1])
  }

  function Scrub(talk: Talk): (r: Talk)
    ensures |r| == |talk|
  {
    seq(|talk|, i requires 0 <= i < |talk| => if i == Newest(talk) then talk[i] else ScrubTurn(talk[i]))
  }

  function Windowed(talk: Talk, drop: nat): Talk { if drop < |talk| then talk[drop..] else [] }

  // ---------------------------------------------------------------- the two copies

  datatype Memory = Memory(agents: map<Key, Talk>, rows: map<string, Talk>)

  function Stored(rows: map<string, Talk>, store: string): Talk { if store in rows then rows[store] else [] }

  /** A text stripped `k` times. */
  function Strips(text: string, k: nat): string { if k == 0 then text else StripSituation(Strips(text, k - 1)) }

  ghost predicate IsStripped(a: string, b: string) { exists k: nat :: a == Strips(b, k) }

  /** Live turn `a` is stored turn `b`, each block as stored or stripped. */
  ghost predicate Remembers(a: Turn, b: Turn) {
    && a.role == b.role && |a.content| == |b.content|
    && forall k :: 0 <= k < |a.content| ==> IsStripped(a.content[k], b.content[k])
  }

  /** Live talk is the end of the stored one. */
  ghost predicate Agrees(live: Talk, stored: Talk) {
    && |live| <= |stored|
    && forall i :: 0 <= i < |live| ==> Remembers(live[i], stored[|stored| - |live| + i])
  }

  /** The last thing the controller said, or -1. */
  function LastReply(talk: Talk): (r: int)
    ensures -1 <= r < |talk|
    ensures r >= 0 ==> talk[r].role == Assistant
    ensures forall i :: r < i < |talk| ==> talk[i].role == User
  {
    if talk == [] then -1
    else if talk[|talk| - 1].role == Assistant then |talk| - 1
    else
      var rest := talk[..|talk| - 1];
      assert talk == rest + [talk[|talk| - 1]] && talk[|talk| - 1].role == User;
      LastReply(rest)
  }

  function Join(content: seq<string>): string { if content == [] then "" else content[0] + Join(content[1..]) }

  function OnAir(text: string): Turn { Turn(Assistant, ["RADIO: " + text]) }

  // ---------------------------------------------------------------- the endpoints

  /** One completed call that adds `added` to both copies, by a cached agent or a rebuilt one; the
      window drops `removed` turns of a restored talk and `drop` of a finished one. */
  function Call(m: Memory, key: Key, stale: bool, removed: nat, added: Talk, drop: nat): Memory {
    var stored := Stored(m.rows, StoreOf(key));
    var before := if key in m.agents && !stale then m.agents[key] else Scrub(Windowed(stored, removed));
    Memory(m.agents[key := Windowed(Scrub(before + added), drop)], m.rows[StoreOf(key) := stored + added])
  }

  datatype Outcome = Refused | Unknown | NothingSaid | AlreadySo | Corrected(persisted: bool)

  function CorrectOutcome(m: Memory, key: Key, text: string, up: bool): Outcome {
    if key.session == "" || text == "" then Refused
    else if key !in m.agents then Unknown
    else
      var i := LastReply(m.agents[key]);
      if i < 0 then NothingSaid
      else if Strip(Join(m.agents[key][i].content)) == Strip(text) then AlreadySo
      else Corrected(up)
  }

  function Reworded(talk: Talk, text: string): (r: Talk)
    ensures |r| == |talk|
  {
    if LastReply(talk) < 0 then talk else talk[LastReply(talk) := OnAir(text)]
  }

  /** What went on the air is put in place of what was generated, in both copies. */
  function Correct(m: Memory, key: Key, text: string, up: bool): Memory {
    if !CorrectOutcome(m, key, text, up).Corrected? then m
    else
      var store := StoreOf(key);
      Memory(m.agents[key := Reworded(m.agents[key], text)],
             if up && store in m.rows then m.rows[store := Reworded(m.rows[store], text)] else m.rows)
  }

  predicate Matches(k: Key, session: string, station: string, role: string) {
    && k.session == session
    && (station != "" ==> Lower(Strip(k.station)) == Lower(station))
    && (role != "" ==> Lower(Strip(k.role)) == role)
  }

  function Matched(m: Memory, session: string, station: string, role: string): set<Key> {
    set k | k in m.agents && Matches(k, session, station, role)
  }

  function StoresOf(keys: set<Key>): set<string> { set k | k in keys :: StoreOf(k) }

  /** The stores whose rows go: those of the seats dropped, or of the seat named when none was cached. */
  function SeatsOf(matched: set<Key>, session: string, station: string, role: string): set<string> {
    var seats := StoresOf(matched);
    if seats == {} && (station != "" || role != "") then {StoreId.StoreId(session, role, station)} else seats
  }

  /** SQL's LIKE, with backslash as its escape. */
  predicate Like(s: string, p: string)
    decreases |p|, |s|
  {
    if p == "" then s == ""
    else if p[0] == '%' then Like(s, p[1..]) || (s != "" && Like(s[1..], p))
    else if p[0] == '\\' && |p| > 1 then s != "" && s[0] == p[1] && Like(s[1..], p[2..])
    else s != "" && (p[0] == '_' || s[0] == p[0]) && Like(s[1..], p[1..])
  }

  predicate Deletes(seats: set<string>, session: string, store: string) {
    if seats != {} then store in seats else store == session || Like(store, session + ":%")
  }

  function Forget(m: Memory, session: string, station: string, role: string, up: bool): Memory {
    if session == "" then m
    else
      var matched := Matched(m, session, station, role);
      var seats := SeatsOf(matched, session, station, role);
      Memory(m.agents - matched,
             if up then map s | s in m.rows && !Deletes(seats, session, s) :: m.rows[s] else m.rows)
  }

  // ---------------------------------------------------------------- situation blocks never hide dialogue

  lemma {:induction false} FindFirst(text: string, pat: string, from: nat, i: nat)
    requires from <= i && IsAt(text, pat, i)
    ensures from <= Find(text, pat, from) <= i
    decreases |text| - from
  {
    if !IsAt(text, pat, from) { FindFirst(text, pat, from + 1, i); }
  }

  lemma PlainTextStays(text: string)
    requires !HasSituation(text)
    ensures StripSituation(text) == text
  {
  }

  /** Scrubbing leaves every turn in its place, and word for word but for situations older than the
      newest. */
  lemma {:induction false} ScrubLeavesDialogue(talk: Talk, i: nat)
    requires i < |talk|
    ensures Scrub(talk)[i].role == talk[i].role && |Scrub(talk)[i].content| == |talk[i].content|
    ensures !Situated(talk[i]) || i == Newest(talk) ==> Scrub(talk)[i] == talk[i]
  {
    if !Situated(talk[i]) {
      forall k | 0 <= k < |talk[i].content|
        ensures StripSituation(talk[i].content[k]) == talk[i].content[k]
      {
        PlainTextStays(talk[i].content[k]);
      }
      assert ScrubTurn(talk[i]).content == talk[i].content;
    }
  }

  /** What is kept of a pilot's call is the call, from the first place it is marked to the end; keeping
      it again changes nothing. */
  lemma {:induction false} PilotsWordsAreKept(text: string)
    requires Find(text, PILOT, 0) != -1
    ensures var kept := StripSituation(text);
            && PILOT <= kept && |kept| <= |text| && text[|text| - |kept|..] == kept
            && (forall i :: 0 <= i < |text| - |kept| ==> !IsAt(text, PILOT, i))
            && StripSituation(kept) == kept
  {
    hide Find;
    var cut := Find(text, PILOT, 0);
    forall i | 0 <= i < cut
      ensures !IsAt(text, PILOT, i)
    {
      if IsAt(text, PILOT, i) { FindFirst(text, PILOT, 0, i); }
    }
    var kept := text[cut..];
    assert text[cut..cut + |PILOT|] == kept[0..|PILOT|];
    FindFirst(kept, PILOT, 0, 0);
    assert kept[0..] == kept;
  }

  /** What is kept of an event is all of it but its radar: from the first mark of that, which stays no
      longer, up to the call it asks for or the end. */
  lemma EventsWordsAreKept(text: string) returns (head: string, radar: string, tail: string)
    requires Find(text, PILOT, 0) == -1 && EVENT <= text && Find(text, RADAR, 0) != -1
    ensures text == head + radar + tail && StripSituation(text) == head + tail
    ensures RADAR <= radar && forall i :: 0 <= i < |head| ==> !IsAt(text, RADAR, i)
    ensures tail == "" || CALL <= tail
    ensures forall i :: |head| + |RADAR| <= i < |head| + |radar| ==> !IsAt(text, CALL, i)
  {
    var a := Find(text, RADAR, 0);
    var b := Find(text, CALL, a + |RADAR|);
    var end := if b == -1 then |text| else b;
    NoneBefore(text, RADAR, 0, a);
    NoneBefore(text, CALL, a + |RADAR|, end);
    assert end >= a + |RADAR|;
    EventStrips(text, a, b);
    head, radar, tail := text[..a], text[a..end], text[end..];
    hide *;
    assert text == head + radar + tail;
    PartIs(text, RADAR, a, end);
    if b != -1 { PartIs(text, CALL, b, |text|); }
  }

  lemma {:induction false} EventStrips(text: string, a: int, b: int)
    requires Find(text, PILOT, 0) == -1 && EVENT <= text && a == Find(text, RADAR, 0) && a != -1
    requires b == Find(text, CALL, a + |RADAR|)
    ensures StripSituation(text) == text[..a] + text[if b == -1 then |text| else b..]
  {
    hide Find;
    if b == -1 { assert text[|text|..] == ""; }
  }

  lemma PartIs(text: string, pat: string, a: nat, b: nat)
    requires IsAt(text, pat, a) && a + |pat| <= b <= |text|
    ensures pat <= text[a..b] && text[a..|text|] == text[a..]
  {
    assert text[a..b][..|pat|] == text[a..a + |pat|];
  }

  lemma {:induction false} NoneBefore(text: string, pat: string, from: nat, end: nat)
    requires var b := Find(text, pat, from); end == if b == -1 then |text| else b
    ensures forall i :: from <= i < end ==> !IsAt(text, pat, i)
  {
    forall i | from <= i < end
      ensures !IsAt(text, pat, i)
    {
      if IsAt(text, pat, i) { FindFirst(text, pat, from, i); }
    }
  }

  lemma AsStored(text: string)
    ensures IsStripped(text, text)
  {
    assert Strips(text, 0) == text;
  }

  lemma Unchanged(t: Turn)
    ensures Remembers(t, t)
  {
    forall k | 0 <= k < |t.content|
      ensures IsStripped(t.content[k], t.content[k])
    {
      AsStored(t.content[k]);
    }
  }

  lemma StripAgain(a: string, b: string)
    requires IsStripped(a, b)
    ensures IsStripped(StripSituation(a), b)
  {
    var k: nat :| a == Strips(b, k);
    assert StripSituation(a) == Strips(b, k + 1);
  }

  /** A text with no situation in it is never changed. */
  lemma {:induction false} PlainStays(text: string, k: nat)
    requires !HasSituation(text)
    ensures Strips(text, k) == text
  {
    if k > 0 {
      PlainStays(text, k - 1);
      PlainTextStays(text);
    }
  }

  /** A pilot's call is stripped once: to strip it again changes nothing. */
  lemma {:induction false} CallStripsOnce(text: string, k: nat)
    requires Find(text, PILOT, 0) != -1
    ensures Strips(text, k) == if k == 0 then text else StripSituation(text)
  {
    hide Find, StripSituation;
    if k > 1 {
      CallStripsOnce(text, k - 1);
      PilotsWordsAreKept(text);
    }
  }

  /** A block live as it may be: word for word, stripped once if a pilot's call. */
  lemma {:induction false} BlockStays(a: string, b: string)
    requires IsStripped(a, b)
    ensures !HasSituation(b) ==> a == b
    ensures Find(b, PILOT, 0) != -1 ==> a == b || a == StripSituation(b)
  {
    hide Find, StripSituation, HasSituation;
    var k: nat :| a == Strips(b, k);
    if !HasSituation(b) { PlainStays(b, k); }
    if Find(b, PILOT, 0) != -1 { CallStripsOnce(b, k); }
  }

  lemma ScrubKeeps(a: Turn, b: Turn)
    requires Remembers(a, b)
    ensures Remembers(ScrubTurn(a), b)
  {
    hide StripSituation, IsStripped;
    forall k | 0 <= k < |a.content|
      ensures IsStripped(ScrubTurn(a).content[k], b.content[k])
    {
      StripAgain(a.content[k], b.content[k]);
    }
  }

  lemma ScrubAgrees(live: Talk, stored: Talk)
    requires Agrees(live, stored)
    ensures Agrees(Scrub(live), stored)
  {
    hide Remembers, Newest;
    forall i | 0 <= i < |live|
      ensures Remembers(Scrub(live)[i], stored[|stored| - |live| + i])
    {
      ScrubKeeps(live[i], stored[|stored| - |live| + i]);
    }
  }

  lemma WindowAgrees(live: Talk, stored: Talk, drop: nat)
    requires Agrees(live, stored)
    ensures Agrees(Windowed(live, drop), stored)
  {
    hide Remembers;
    var short := Windowed(live, drop);
    forall i | 0 <= i < |short|
      ensures Remembers(short[i], stored[|stored| - |short| + i])
    {
      assert short[i] == live[drop + i];
    }
  }

  lemma AddedAgrees(live: Talk, stored: Talk, added: Talk)
    requires Agrees(live, stored)
    ensures Agrees(live + added, stored + added)
  {
    var l, s := live + added, stored + added;
    forall i | 0 <= i < |l|
      ensures Remembers(l[i], s[|s| - |l| + i])
    {
      if i < |live| { assert Remembers(live[i], stored[|stored| - |live| + i]); } else { Unchanged(l[i]); }
    }
  }

  lemma RestoredAgrees(stored: Talk, removed: nat)
    ensures Agrees(Scrub(Windowed(stored, removed)), stored)
  {
    forall t: Turn ensures Remembers(t, t) { Unchanged(t); }
    hide Remembers;
    WindowAgrees(stored, stored, removed);
    ScrubAgrees(Windowed(stored, removed), stored);
  }

  /** The last reply of a live talk is the last reply of the stored one. */
  lemma {:induction false} LastRepliesLineUp(live: Talk, stored: Talk)
    requires Agrees(live, stored) && LastReply(live) >= 0
    ensures LastReply(stored) == |stored| - |live| + LastReply(live)
    ensures Remembers(live[LastReply(live)], stored[LastReply(stored)])
  {
    hide LastReply, Remembers;
    var off, i, j := |stored| - |live|, LastReply(live), LastReply(stored);
    assert Remembers(live[i], stored[off + i]);
    SameRole(live[i], stored[off + i]);
    forall n | off + i < n < |stored|
      ensures stored[n].role == User
    {
      assert Remembers(live[n - off], stored[n]);
      SameRole(live[n - off], stored[n]);
    }
  }

  lemma SameRole(a: Turn, b: Turn)
    requires Remembers(a, b)
    ensures a.role == b.role
  {
  }

  lemma {:induction false} RewordedAgrees(live: Talk, stored: Talk, text: string)
    requires Agrees(live, stored) && LastReply(live) >= 0
    ensures Agrees(Reworded(live, text), Reworded(stored, text))
  {
    LastRepliesLineUp(live, stored);
    Unchanged(OnAir(text));
    hide LastReply, Remembers;
    var l, s := Reworded(live, text), Reworded(stored, text);
    forall i | 0 <= i < |l|
      ensures Remembers(l[i], s[|s| - |l| + i])
    {
      assert Remembers(live[i], stored[|stored| - |live| + i]);
    }
  }

  /** A call by a cached agent forgets no dialogue and stores every turn: what was said stays said. */
  lemma CallForgetsNoDialogue(m: Memory, key: Key, removed: nat, added: Talk, i: nat)
    requires key in m.agents && i < |m.agents[key]| + |added|
    ensures var live := m.agents[key];
            var m' := Call(m, key, false, removed, added, 0);
            && |m'.agents[key]| == |live| + |added|
            && (!Situated((live + added)[i]) ==> m'.agents[key][i] == (live + added)[i])
            && Stored(m'.rows, StoreOf(key)) == Stored(m.rows, StoreOf(key)) + added
            && (forall s :: s != StoreOf(key) ==> Stored(m'.rows, s) == Stored(m.rows, s))
            && (forall k :: k in m.agents && k != key ==> k in m'.agents && m'.agents[k] == m.agents[k])
  {
    var both := m.agents[key] + added;
    ScrubLeavesDialogue(both, i);
    hide Scrub, StoreOf, Situated;
    assert Windowed(Scrub(both), 0) == Scrub(both);
  }

  function Less(n: nat, k: nat): nat { if k < n then n - k else 0 }

  /** `live` is the end of `all`: turn for turn by the same speaker, and word for word where there was no
      situation. */
  ghost predicate EndOf(live: Talk, all: Talk) {
    && |live| <= |all|
    && forall i :: 0 <= i < |live| ==>
         var was := all[|all| - |live| + i];
         && live[i].role == was.role
         && (!Situated(was) ==> live[i] == was)
  }

  lemma ScrubEnds(live: Talk, all: Talk)
    requires EndOf(live, all)
    ensures EndOf(Scrub(live), all)
  {
    hide Situated, Scrub;
    forall i | 0 <= i < |live|
      ensures var was := all[|all| - |live| + i];
              Scrub(live)[i].role == was.role && (!Situated(was) ==> Scrub(live)[i] == was)
    {
      ScrubLeavesDialogue(live, i);
    }
  }

  lemma WindowEnds(live: Talk, all: Talk, drop: nat)
    requires EndOf(live, all)
    ensures EndOf(Windowed(live, drop), all) && |Windowed(live, drop)| == Less(|live|, drop)
  {
    hide Situated;
    var short := Windowed(live, drop);
    forall i | 0 <= i < |short|
      ensures var was := all[|all| - |short| + i];
              short[i].role == was.role && (!Situated(was) ==> short[i] == was)
    {
      assert short[i] == live[drop + i];
    }
  }

  lemma AddedEnds(live: Talk, all: Talk, added: Talk)
    requires EndOf(live, all)
    ensures EndOf(live + added, all + added)
  {
    hide Situated;
  }

  lemma AllEnds(all: Talk)
    ensures EndOf(all, all)
  {
  }

  /** A call by a cached agent leaves it all but the oldest turns the window drops. */
  lemma CachedKeepsTheEnd(m: Memory, key: Key, removed: nat, added: Talk, drop: nat)
    requires key in m.agents
    ensures var talk := m.agents[key] + added;
            var live := Call(m, key, false, removed, added, drop).agents[key];
            EndOf(live, talk) && |live| == Less(|talk|, drop)
  {
    var talk := m.agents[key] + added;
    hide StoreOf, Scrub, EndOf, Windowed;
    AllEnds(talk);
    ScrubEnds(talk, talk);
    WindowEnds(Scrub(talk), talk, drop);
  }

  /** An agent rebuilt, because its prompt changed or there was none, remembers the stored talk and then what
      the call adds, but for the oldest turns that the restoring and the window drop. */
  lemma RebuiltRemembersTheStored(m: Memory, key: Key, stale: bool, removed: nat, added: Talk, drop: nat)
    requires key !in m.agents || stale
    ensures var stored := Stored(m.rows, StoreOf(key));
            var live := Call(m, key, stale, removed, added, drop).agents[key];
            EndOf(live, stored + added) && |live| == Less(Less(|stored|, removed) + |added|, drop)
  {
    var stored := Stored(m.rows, StoreOf(key));
    hide StoreOf, Scrub, EndOf, Windowed;
    AllEnds(stored);
    WindowEnds(stored, stored, removed);
    var restored := Scrub(Windowed(stored, removed));
    ScrubEnds(Windowed(stored, removed), stored);
    AddedEnds(restored, stored, added);
    ScrubEnds(restored + added, stored + added);
    WindowEnds(Scrub(restored + added), stored + added, drop);
  }

  /** So a restart between two calls loses no dialogue: with nothing dropped in restoring, the agent made
      anew remembers every stored turn, and no fewer than the one it replaces would have. */
  lemma RestartLosesNoDialogue(m: Memory, key: Key, added: Talk)
    requires CopiesAgree(m) && key in m.agents
    ensures var kept := Call(m, key, false, 0, added, 0).agents[key];
            var anew := Call(Memory(m.agents - {key}, m.rows), key, false, 0, added, 0).agents[key];
            var all := Stored(m.rows, StoreOf(key)) + added;
            EndOf(anew, all) && EndOf(kept, all) && |kept| <= |anew| == |all|
  {
    var stored := Stored(m.rows, StoreOf(key));
    RebuiltRemembersTheStored(Memory(m.agents - {key}, m.rows), key, false, 0, added, 0);
    hide StoreOf, Scrub, EndOf, Remembers;
    AgreeingEnds(m.agents[key], stored);
    AddedEnds(m.agents[key], stored, added);
    ScrubEnds(m.agents[key] + added, stored + added);
    WindowEnds(Scrub(m.agents[key] + added), stored + added, 0);
  }

  lemma AgreeingEnds(live: Talk, stored: Talk)
    requires Agrees(live, stored)
    ensures EndOf(live, stored)
  {
    hide Situated, Remembers;
    forall i | 0 <= i < |live|
      ensures var was := stored[|stored| - |live| + i];
              live[i].role == was.role && (!Situated(was) ==> live[i] == was)
    {
      assert Remembers(live[i], stored[|stored| - |live| + i]);
      SameRole(live[i], stored[|stored| - |live| + i]);
      PlainIsSame(live[i], stored[|stored| - |live| + i]);
    }
  }

  // ---------------------------------------------------------------- runs

  datatype Op =
    | Called(key: Key, stale: bool, removed: nat, added: Talk, drop: nat)
    | Transmitted(key: Key, text: string)
    | Forgot(session: string, station: string, role: string)

  /** Every store answering. */
  function Apply(m: Memory, op: Op): Memory {
    match op
    case Called(key, stale, removed, added, drop) => Call(m, key, stale, removed, added, drop)
    case Transmitted(key, text) => Correct(m, key, text, true)
    case Forgot(session, station, role) => Forget(m, session, station, role, true)
  }

  function After(ops: seq<Op>): Memory {
    if ops == [] then Memory(map[], map[]) else Apply(After(ops[..|ops| - 1]), ops[|ops| - 1])
  }

  ghost predicate DistinctStores(m: Memory) {
    forall j, k :: j in m.agents && k in m.agents && StoreOf(j) == StoreOf(k) ==> j == k
  }

  /** No seat is left answering from memory while its rows go. */
  ghost predicate Reaches(m: Memory, session: string, station: string, role: string) {
    var matched := Matched(m, session, station, role);
    forall k :: k in m.agents && k !in matched ==>
      !Deletes(SeatsOf(matched, session, station, role), session, StoreOf(k))
  }

  /** Nobody calls a seat while another cached one shares its store, and what a forget deletes it drops. */
  ghost predicate Careful(m: Memory, op: Op) {
    match op
    case Called(key, _, _, _, _) => forall k :: k in m.agents && k != key ==> StoreOf(k) != StoreOf(key)
    case Transmitted(key, text) => true
    case Forgot(session, station, role) => Reaches(m, session, station, role)
  }

  ghost predicate CarefulRun(ops: seq<Op>) {
    forall n :: 0 <= n < |ops| ==> Careful(After(ops[..n]), ops[n])
  }

  ghost predicate CopiesAgree(m: Memory) {
    forall k :: k in m.agents ==> Agrees(m.agents[k], Stored(m.rows, StoreOf(k)))
  }

  lemma CallKeeps(m: Memory, key: Key, stale: bool, removed: nat, added: Talk, drop: nat)
    requires DistinctStores(m) && CopiesAgree(m) && Careful(m, Called(key, stale, removed, added, drop))
    ensures var m' := Call(m, key, stale, removed, added, drop); DistinctStores(m') && CopiesAgree(m')
  {
    hide Agrees, Scrub, StoreOf;
    var stored := Stored(m.rows, StoreOf(key));
    RestoredAgrees(stored, removed);
    var before := if key in m.agents && !stale then m.agents[key] else Scrub(Windowed(stored, removed));
    AddedAgrees(before, stored, added);
    ScrubAgrees(before + added, stored + added);
    WindowAgrees(Scrub(before + added), stored + added, drop);
  }

  lemma CorrectKeeps(m: Memory, key: Key, text: string)
    requires DistinctStores(m) && CopiesAgree(m)
    ensures var m' := Correct(m, key, text, true); DistinctStores(m') && CopiesAgree(m')
  {
    hide Agrees, StoreOf, Join, Strip, Reworded;
    if CorrectOutcome(m, key, text, true).Corrected? {
      LiveHasRows(m, key);
      RewordedAgrees(m.agents[key], Stored(m.rows, StoreOf(key)), text);
    }
  }

  lemma LiveHasRows(m: Memory, key: Key)
    requires CopiesAgree(m) && key in m.agents && LastReply(m.agents[key]) >= 0
    ensures StoreOf(key) in m.rows
  {
  }

  lemma ForgetKeeps(m: Memory, session: string, station: string, role: string)
    requires DistinctStores(m) && CopiesAgree(m) && Reaches(m, session, station, role)
    ensures var m' := Forget(m, session, station, role, true); DistinctStores(m') && CopiesAgree(m')
  {
    hide Agrees, StoreOf, Matches, SeatsOf, Deletes;
    var m' := Forget(m, session, station, role, true);
    forall k | k in m'.agents
      ensures Agrees(m'.agents[k], Stored(m'.rows, StoreOf(k)))
    {
      if session != "" { assert k !in Matched(m, session, station, role); }
      assert Stored(m'.rows, StoreOf(k)) == Stored(m.rows, StoreOf(k));
    }
  }

  lemma ApplyKeeps(m: Memory, op: Op)
    requires DistinctStores(m) && CopiesAgree(m) && Careful(m, op)
    ensures DistinctStores(Apply(m, op)) && CopiesAgree(Apply(m, op))
  {
    hide DistinctStores, CopiesAgree, Call, Correct, Forget, Reaches;
    match op
    case Called(key, stale, removed, added, drop) => CallKeeps(m, key, stale, removed, added, drop);
    case Transmitted(key, text) => CorrectKeeps(m, key, text);
    case Forgot(session, station, role) => ForgetKeeps(m, session, station, role);
  }

  lemma CarefulBefore(ops: seq<Op>)
    requires ops != [] && CarefulRun(ops)
    ensures CarefulRun(ops[..|ops| - 1]) && Careful(After(ops[..|ops| - 1]), ops[|ops| - 1])
  {
    hide Careful, After;
    var before := ops[..|ops| - 1];
    forall i | 0 <= i < |before|
      ensures Careful(After(before[..i]), before[i])
    {
      assert before[..i] == ops[..i];
    }
  }

  lemma {:induction false} Reachable(ops: seq<Op>)
    requires CarefulRun(ops)
    ensures DistinctStores(After(ops)) && CopiesAgree(After(ops))
  {
    if ops != [] {
      CarefulBefore(ops);
      hide DistinctStores, CopiesAgree, Careful, CarefulRun, Apply;
      Reachable(ops[..|ops| - 1]);
      ApplyKeeps(After(ops[..|ops| - 1]), ops[|ops| - 1]);
    }
  }

  /** No block of a live talk says anything the stored one does not: it is as stored, or a pilot's call
      stripped once, or an event stripped of its radar. */
  ghost predicate SaysAsStored(live: Talk, stored: Talk) {
    && |live| <= |stored|
    && forall i, k :: 0 <= i < |live| && 0 <= k < |live[i].content| ==>
         var was := stored[|stored| - |live| + i];
         && k < |was.content| && live[i].role == was.role
         && (!HasSituation(was.content[k]) ==> live[i].content[k] == was.content[k])
         && (Find(was.content[k], PILOT, 0) != -1 ==>
               live[i].content[k] == was.content[k] || live[i].content[k] == StripSituation(was.content[k]))
  }

  lemma AgreeingSaysAsStored(live: Talk, stored: Talk)
    requires Agrees(live, stored)
    ensures SaysAsStored(live, stored)
  {
    hide StripSituation, HasSituation, Find, IsStripped;
    forall i, k | 0 <= i < |live| && 0 <= k < |live[i].content|
      ensures var was := stored[|stored| - |live| + i];
              && k < |was.content| && live[i].role == was.role
              && (!HasSituation(was.content[k]) ==> live[i].content[k] == was.content[k])
              && (Find(was.content[k], PILOT, 0) != -1 ==>
                    live[i].content[k] == was.content[k] || live[i].content[k] == StripSituation(was.content[k]))
    {
      assert Remembers(live[i], stored[|stored| - |live| + i]);
      BlockStays(live[i].content[k], stored[|stored| - |live| + i].content[k]);
    }
  }

  /** Over any careful run, what a live agent remembers is the end of what is stored, each block as
      stored or stripped of its situation, a pilot's call at most once; and the last thing it said is
      the last thing stored, word for word unless that carries a situation block. */
  lemma {:induction false} TheTwoCopiesAgree(ops: seq<Op>, key: Key)
    requires CarefulRun(ops) && key in After(ops).agents
    ensures var m := After(ops);
            var live, stored := m.agents[key], Stored(m.rows, StoreOf(key));
            && Agrees(live, stored) && SaysAsStored(live, stored)
            && (LastReply(live) >= 0 ==>
                  LastReply(stored) >= 0 && Remembers(live[LastReply(live)], stored[LastReply(stored)])
                  && (!Situated(stored[LastReply(stored)]) ==> live[LastReply(live)] == stored[LastReply(stored)]))
  {
    hide After, CarefulRun, Remembers;
    Reachable(ops);
    var m := After(ops);
    var live, stored := m.agents[key], Stored(m.rows, StoreOf(key));
    AgreeingSaysAsStored(live, stored);
    hide SaysAsStored;
    if LastReply(live) >= 0 {
      LastRepliesLineUp(live, stored);
      PlainIsSame(live[LastReply(live)], stored[LastReply(stored)]);
    }
  }

  lemma ScrubSituates(t: Turn)
    requires Situated(ScrubTurn(t))
    ensures Situated(t)
  {
    hide HasSituation, StripSituation;
    if !Situated(t) {
      forall k | 0 <= k < |t.content|
        ensures ScrubTurn(t).content[k] == t.content[k]
      {
        PlainTextStays(t.content[k]);
      }
    }
  }

  lemma {:induction false} AfterNewest(talk: Talk, i: nat)
    requires i < |talk| && Situated(talk[i])
    ensures i <= Newest(talk)
  {
    hide Situated;
    if i < |talk| - 1 { AfterNewest(talk[..|talk| - 1], i); }
  }

  /** The newest that carries a situation is still the newest to, whatever the window drops before it. */
  lemma {:induction false} NewestStays(talk: Talk, drop: nat, i: nat)
    requires drop + i == Newest(talk) && Situated(talk[drop + i])
    ensures Newest(Windowed(Scrub(talk), drop)) == i
  {
    hide Newest, Situated, ScrubTurn;
    var live := Windowed(Scrub(talk), drop);
    assert live[i] == talk[drop + i];
    AfterNewest(live, i);
    var j := Newest(live);
    if j != i {
      NewestIsSituated(live);
      assert live[j] == ScrubTurn(talk[drop + j]);
      ScrubSituates(talk[drop + j]);
      AfterNewest(talk, drop + j);
    }
  }

  lemma {:induction false} NewestIsSituated(talk: Talk)
    requires Newest(talk) >= 0
    ensures Situated(talk[Newest(talk)])
  {
    hide Situated;
    if !Situated(talk[|talk| - 1]) { NewestIsSituated(talk[..|talk| - 1]); }
  }

  /** A pilot's call in this block of the stored talk is live without its situation. */
  predicate WithoutSituation(live: Talk, stored: Talk, i: nat, k: nat) {
    && i < |live| <= |stored| && var was := stored[|stored| - |live| + i];
    && k < |live[i].content| == |was.content|
    && (Find(was.content[k], PILOT, 0) != -1 ==> live[i].content[k] == StripSituation(was.content[k]))
  }

  /** After a call every pilot's call in the live talk, but for the newest turn to carry a situation, is
      without it: exactly the stored one stripped. */
  lemma OnlyTheNewestKeepsItsSituation(
      m: Memory, key: Key, stale: bool, removed: nat, added: Talk, drop: nat, i: nat, k: nat)
    requires CopiesAgree(m)
    requires var live := Call(m, key, stale, removed, added, drop).agents[key];
             i < |live| && i != Newest(live) && k < |live[i].content|
    ensures var m' := Call(m, key, stale, removed, added, drop);
            WithoutSituation(m'.agents[key], m'.rows[StoreOf(key)], i, k)
  {
    hide StoreOf, Scrub, Agrees, Newest, WithoutSituation;
    var before := Before(m, key, stale, removed);
    AddedAgrees(before, Stored(m.rows, StoreOf(key)), added);
    LiveBlock(before + added, Stored(m.rows, StoreOf(key)) + added, drop, i, k);
  }

  /** What the agent remembers when the call begins. */
  lemma Before(m: Memory, key: Key, stale: bool, removed: nat) returns (before: Talk)
    requires CopiesAgree(m)
    ensures var stored := Stored(m.rows, StoreOf(key));
            before == if key in m.agents && !stale then m.agents[key] else Scrub(Windowed(stored, removed))
    ensures Agrees(before, Stored(m.rows, StoreOf(key)))
  {
    hide StoreOf, Scrub, Agrees;
    RestoredAgrees(Stored(m.rows, StoreOf(key)), removed);
    var stored := Stored(m.rows, StoreOf(key));
    before := if key in m.agents && !stale then m.agents[key] else Scrub(Windowed(stored, removed));
  }

  lemma LiveBlock(talk: Talk, stored: Talk, drop: nat, i: nat, k: nat)
    requires Agrees(talk, stored)
    requires var live := Windowed(Scrub(talk), drop);
             i < |live| && i != Newest(live) && k < |live[i].content|
    ensures WithoutSituation(Windowed(Scrub(talk), drop), stored, i, k)
  {
    hide Find, StripSituation, IsStripped, Newest, Situated;
    var was := stored[|stored| - |talk| + drop + i];
    assert Remembers(talk[drop + i], was);
    if drop + i == Newest(talk) {
      NewestIsSituated(talk);
      NewestStays(talk, drop, i);
    }
    BlockStays(talk[drop + i].content[k], was.content[k]);
    if Find(was.content[k], PILOT, 0) != -1 { PilotsWordsAreKept(was.content[k]); }
  }

  lemma PlainIsSame(a: Turn, b: Turn)
    requires Remembers(a, b)
    ensures !Situated(b) ==> a == b
  {
    hide Find, StripSituation, HasSituation, IsStripped;
    if !Situated(b) {
      forall k | 0 <= k < |a.content|
        ensures a.content[k] == b.content[k]
      {
        BlockStays(a.content[k], b.content[k]);
      }
    }
  }

  // ---------------------------------------------------------------- corrections

  /** `s` is `t` but for one turn. */
  predicate OneTurnApart(s: Talk, t: Talk, i: int, now: Turn) {
    |s| == |t| && 0 <= i < |s| && t[i] == now && forall j :: 0 <= j < |s| && j != i ==> s[j] == t[j]
  }

  /** A correction changes exactly the last reply in each copy of one seat, and repeating it changes
      nothing more. */
  lemma CorrectionChangesOneTurn(m: Memory, key: Key, text: string)
    requires CopiesAgree(m) && CorrectOutcome(m, key, text, true).Corrected?
    ensures var m' := Correct(m, key, text, true);
            var store := StoreOf(key);
            && OneTurnApart(m.agents[key], m'.agents[key], LastReply(m.agents[key]), OnAir(text))
            && store in m.rows
            && OneTurnApart(m.rows[store], m'.rows[store], LastReply(m.rows[store]), OnAir(text))
            && m'.agents.Keys == m.agents.Keys
              && (forall k :: k in m.agents && k != key ==> m'.agents[k] == m.agents[k])
            && m'.rows.Keys == m.rows.Keys && (forall s :: s in m.rows && s != store ==> m'.rows[s] == m.rows[s])
            && Correct(m', key, text, true) == m'
  {
    hide StoreOf, Join, Strip;
    LastRepliesLineUp(m.agents[key], Stored(m.rows, StoreOf(key)));
    var m' := Correct(m, key, text, true);
    RewordTwice(m.agents[key], text);
    RewordTwice(m.rows[StoreOf(key)], text);
    assert m'.agents[key := m'.agents[key]] == m'.agents && m'.rows[StoreOf(key) := m'.rows[StoreOf(key)]] == m'.rows;
  }

  lemma {:induction false} RewordTwice(talk: Talk, text: string)
    requires LastReply(talk) >= 0
    ensures LastReply(Reworded(talk, text)) == LastReply(talk)
    ensures Reworded(Reworded(talk, text), text) == Reworded(talk, text)
  {
    var i, j := LastReply(talk), LastReply(Reworded(talk, text));
    assert Reworded(talk, text)[i].role == Assistant;
    assert j == i;
  }

  lemma {:induction false} StripRightLength(s: string)
    ensures |StripRight(s)| <= |s|
  {
    if s != [] && IsSpace(s[|s| - 1]) { StripRightLength(s[..|s| - 1]); }
  }

  lemma {:induction false} StripLeftEnd(s: string)
    ensures |StripLeft(s)| <= |s| && StripLeft(s) == s[|s| - |StripLeft(s)|..]
  {
    if s != [] && IsSpace(s[0]) { StripLeftEnd(s[1..]); }
  }

  /** Stripping the tail of a longer text never reaches past a shorter ending of it. */
  lemma {:induction false} StripRightLonger(a: string, b: string)
    requires a != [] && !IsSpace(a[|a| - 1])
    ensures |StripRight(a + b)| >= |a| + |StripRight(b)|
  {
    var s := a + b;
    if b == [] {
      assert s == a;
    } else if IsSpace(b[|b| - 1]) {
      assert s[..|s| - 1] == a + b[..|b| - 1] && s[|s| - 1] == b[|b| - 1];
      StripRightLonger(a, b[..|b| - 1]);
    }
  }

  /** A correction sent twice answers `changed` twice: what is stored carries the marker, what is sent
      does not, so the two never compare equal. */
  lemma RepeatReportsAChange(m: Memory, key: Key, text: string)
    requires CorrectOutcome(m, key, text, true).Corrected?
    ensures CorrectOutcome(Correct(m, key, text, true), key, text, true).Corrected?
  {
    hide StoreOf;
    var live := m.agents[key];
    RewordTwice(live, text);
    assert Join(["RADIO: " + text]) == "RADIO: " + text;
    MarkerStaysLonger(text);
  }

  lemma MarkerStaysLonger(text: string)
    ensures Strip("RADIO: " + text) != Strip(text)
  {
    var marked := "RADIO: " + text;
    assert StripLeft(marked) == marked;
    var tail := " " + text;
    assert marked == "RADIO:" + tail;
    StripRightLonger("RADIO:", tail);
    StripLeftEnd(text);
    StripRightKeepsEnd(tail, StripLeft(text));
  }

  /** The tail of a text, stripped, is no longer than the text, stripped. */
  lemma {:induction false} StripRightKeepsEnd(s: string, e: string)
    requires |e| <= |s| && e == s[|s| - |e|..]
    ensures |StripRight(e)| <= |StripRight(s)|
  {
    if e == [] {
    } else if IsSpace(s[|s| - 1]) {
      assert e[|e| - 1] == s[|s| - 1];
      assert e[..|e| - 1] == s[..|s| - 1][|s| - |e|..];
      StripRightKeepsEnd(s[..|s| - 1], e[..|e| - 1]);
    } else {
      assert e[|e| - 1] == s[|s| - 1];
    }
  }

  /** What is left of a situation still begins as one. */
  lemma {:induction false} StillASituation(text: string, k: nat)
    requires HasSituation(text) && k > 0
    ensures PILOT <= Strips(text, k) || EVENT <= Strips(text, k)
  {
    if Find(text, PILOT, 0) != -1 {
      CallStripsOnce(text, k);
      PilotsWordsAreKept(text);
    } else {
      if k > 1 { StillASituation(text, k - 1); }
      EventStays(Strips(text, k - 1));
    }
  }

  lemma EventStays(text: string)
    requires PILOT <= text || EVENT <= text
    ensures PILOT <= StripSituation(text) || EVENT <= StripSituation(text)
  {
    hide Find;
    var cut, a := Find(text, PILOT, 0), Find(text, RADAR, 0);
    if cut != -1 {
      assert text[cut..][..|PILOT|] == text[cut..cut + |PILOT|];
    } else if EVENT <= text && a != -1 {
      assert text[a] == text[a..a + |RADAR|][0] == '\n';
      assert forall i :: 0 <= i < |EVENT| ==> text[i] == EVENT[i] != '\n';
      assert a >= |EVENT|;
      assert text[..a][..|EVENT|] == text[..|EVENT|];
    }
  }

  /** No situation is stripped to what goes on the air. */
  lemma OnlyTheSame(text: string, b: string)
    ensures IsStripped("RADIO: " + text, b) <==> "RADIO: " + text == b
  {
    var said := "RADIO: " + text;
    if IsStripped(said, b) {
      var k: nat :| said == Strips(b, k);
      assert said[0] == 'R';
      if HasSituation(b) && k > 0 {
        StillASituation(b, k);
      } else if k > 0 {
        PlainStays(b, k);
      }
    }
    AsStored(said);
  }

  /** A store that fails halfway leaves the stored copy as it was: the copies agree exactly when what was
      on the air is what was stored. */
  lemma HalfCorrected(m: Memory, key: Key, text: string)
    requires CopiesAgree(m) && CorrectOutcome(m, key, text, false).Corrected?
    ensures var m' := Correct(m, key, text, false);
            && m'.rows == m.rows && StoreOf(key) in m.rows && LastReply(m.rows[StoreOf(key)]) >= 0
            && (Agrees(m'.agents[key], Stored(m'.rows, StoreOf(key)))
                <==> m.rows[StoreOf(key)][LastReply(m.rows[StoreOf(key)])] == OnAir(text))
  {
    hide StoreOf, Join, Strip, Remembers;
    var live, stored := m.agents[key], Stored(m.rows, StoreOf(key));
    LastRepliesLineUp(live, stored);
    var live' := Correct(m, key, text, false).agents[key];
    var i := LastReply(live);
    assert live'[i] == OnAir(text);
    forall n | 0 <= n < |live'| && n != i
      ensures Remembers(live'[n], stored[|stored| - |live'| + n])
    {
      assert live'[n] == live[n];
    }
    OnlyOnAir(text, stored[LastReply(stored)]);
  }

  lemma OnlyOnAir(text: string, b: Turn)
    requires b.role == Assistant
    ensures Remembers(OnAir(text), b) <==> b == OnAir(text)
  {
    hide IsStripped;
    if Remembers(OnAir(text), b) {
      OnlyTheSame(text, b.content[0]);
      assert b.content == [b.content[0]];
    }
    Unchanged(OnAir(text));
  }

  /** What a correction that names a seat and has something to say is answered, by the last thing the
      controller there said: nothing at all, the same words but for white space, or others. */
  lemma CorrectionIsAnswered(m: Memory, key: Key, text: string, up: bool)
    ensures var o := CorrectOutcome(m, key, text, up);
            && (o.Refused? <==> key.session == "" || text == "")
            && (o.Unknown? <==> key.session != "" && text != "" && key !in m.agents)
            && (o.NothingSaid? <==>
                  && key.session != "" && text != "" && key in m.agents
                  && forall i :: 0 <= i < |m.agents[key]| ==> m.agents[key][i].role == User)
            && (o.Corrected? ==> o.persisted == up)
            && (!o.Corrected? ==> Correct(m, key, text, up) == m)
  {
    hide StoreOf, Join, Strip;
  }

  /** With `i` the last thing said, the two are told apart by the words alone. */
  lemma CorrectedWhenOthers(m: Memory, key: Key, text: string, up: bool, i: nat)
    requires key.session != "" && text != "" && key in m.agents && i < |m.agents[key]|
    requires m.agents[key][i].role == Assistant
    requires forall j :: i < j < |m.agents[key]| ==> m.agents[key][j].role == User
    ensures CorrectOutcome(m, key, text, up)
            == if Strip(Join(m.agents[key][i].content)) == Strip(text) then AlreadySo else Corrected(up)
  {
    hide Join, Strip;
    assert LastReply(m.agents[key]) == i;
  }

  lemma {:induction false} JoinsInOrder(a: seq<string>, b: seq<string>)
    ensures Join(a + b) == Join(a) + Join(b) && Join([]) == "" && forall s: string :: Join([s]) == s
  {
    if a == [] {
      assert a + b == b;
    } else {
      assert (a + b)[1..] == a[1..] + b;
      JoinsInOrder(a[1..], b);
    }
  }

  // ---------------------------------------------------------------- forgetting

  /** Forgetting leaves the copies agreeing exactly when every seat kept either keeps its rows or had
      nothing in memory. */
  lemma ForgetExactly(m: Memory, session: string, station: string, role: string)
    requires CopiesAgree(m) && session != ""
    ensures var matched := Matched(m, session, station, role);
            var seats := SeatsOf(matched, session, station, role);
            CopiesAgree(Forget(m, session, station, role, true)) <==>
              forall k :: k in m.agents && k !in matched ==> !Deletes(seats, session, StoreOf(k)) || m.agents[k] == []
  {
    hide StoreOf, Matches, SeatsOf, Deletes, Remembers;
    var matched := Matched(m, session, station, role);
    var seats := SeatsOf(matched, session, station, role);
    var m' := Forget(m, session, station, role, true);
    forall k | k in m.agents && k !in matched
      ensures k in m'.agents
      ensures Agrees(m'.agents[k], Stored(m'.rows, StoreOf(k))) <==>
                !Deletes(seats, session, StoreOf(k)) || m.agents[k] == []
    {
      if Deletes(seats, session, StoreOf(k)) { assert Stored(m'.rows, StoreOf(k)) == []; }
      else { assert Stored(m'.rows, StoreOf(k)) == Stored(m.rows, StoreOf(k)); }
    }
    forall k | k in m'.agents
      ensures k in m.agents && k !in matched
    {
    }
  }

  /** A seat a request to forget does not name: of another session, or of another station or role than the
      one it gives. */
  predicate Elsewhere(k: Key, session: string, station: string, role: string) {
    || k.session != session
    || (station != "" && Lower(Strip(k.station)) != Lower(station))
    || (role != "" && Lower(Strip(k.role)) != role)
  }

  /** Forgetting drops the agents named and leaves every other as it was. */
  lemma ForgetLeavesOtherAgents(m: Memory, session: string, station: string, role: string, up: bool, k: Key)
    requires session != "" && k in m.agents
    ensures var m' := Forget(m, session, station, role, up);
            if Elsewhere(k, session, station, role) then k in m'.agents && m'.agents[k] == m.agents[k]
            else k !in m'.agents
  {
    hide StoreOf, Strip, Lower;
  }

  /** The rows that go: of the cached seats named; of the seat named, if none is cached; of all the session,
      if no seat is. */
  ghost predicate RowsNamed(m: Memory, session: string, station: string, role: string, store: string) {
    if exists k :: k in m.agents && !Elsewhere(k, session, station, role) then
      exists k :: k in m.agents && !Elsewhere(k, session, station, role) && StoreOf(k) == store
    else if station != "" || role != "" then store == StoreId.StoreId(session, role, station)
    else store == session || Like(store, session + ":%")
  }

  /** With the store up, those go and every other stays as it was; with it down none does. */
  lemma ForgetLeavesOtherRows(m: Memory, session: string, station: string, role: string, up: bool, store: string)
    requires session != "" && store in m.rows
    ensures var m' := Forget(m, session, station, role, up);
            if up && RowsNamed(m, session, station, role, store) then store !in m'.rows
            else store in m'.rows && m'.rows[store] == m.rows[store]
  {
    var matched := Matched(m, session, station, role);
    hide StoreOf, Strip, Lower, Like, StoreId.StoreId;
    assert forall k :: k in matched <==> k in m.agents && !Elsewhere(k, session, station, role);
    hide Elsewhere, Matches;
    if k :| k in matched { assert StoreOf(k) in StoresOf(matched); }
  }

  /** So a seat not named keeps its rows too, when one named is cached and none of those shares its store. */
  lemma OtherSeatsKeepTheirRows(m: Memory, session: string, station: string, role: string, up: bool, k: Key, named: Key)
    requires session != "" && k in m.agents && StoreOf(k) in m.rows
    requires named in m.agents && !Elsewhere(named, session, station, role)
    requires forall j :: j in m.agents && !Elsewhere(j, session, station, role) ==> StoreOf(j) != StoreOf(k)
    ensures var m' := Forget(m, session, station, role, up);
            StoreOf(k) in m'.rows && m'.rows[StoreOf(k)] == m.rows[StoreOf(k)]
  {
    hide StoreOf, Elsewhere, Forget, Like;
    ForgetLeavesOtherRows(m, session, station, role, up, StoreOf(k));
  }

  /** A seat forgotten by name starts from nothing: neither copy of it survives. */
  lemma ForgottenSeatStartsAfresh(m: Memory, key: Key, added: Talk, removed: nat)
    requires key in m.agents && key.session != "" && key.station == Strip(key.station)
    ensures var m' := Forget(m, key.session, key.station, "", true);
            && key !in m'.agents && StoreOf(key) !in m'.rows
            && Call(m', key, false, removed, added, 0).agents[key] == Scrub(added)
            && Stored(Call(m', key, false, removed, added, 0).rows, StoreOf(key)) == added
  {
    hide Strip, Lower, Scrub;
    var matched := Matched(m, key.session, key.station, "");
    assert key in matched && StoreOf(key) in SeatsOf(matched, key.session, key.station, "");
    var m' := Forget(m, key.session, key.station, "", true);
    assert Scrub(Windowed([], removed)) == [] by { ScrubNothing(); }
    assert [] + added == added;
    if added == [] { ScrubNothing(); }
    assert Windowed(Scrub(added), 0) == Scrub(added);
  }

  lemma ScrubNothing()
    ensures Scrub([]) == []
  {
    assert |Scrub([])| == 0;
  }

  /** Forgetting a whole session deletes every conversation of it exactly when no seat of it is
      cached, or every conversation it has stored belongs to a cached seat. */
  lemma WholeSessionExactly(m: Memory, session: string)
    requires session != ""
    ensures var matched := Matched(m, session, "", "");
            var m' := Forget(m, session, "", "", true);
            (forall s :: s in m'.rows ==> !Deletes({}, session, s)) <==>
              (matched == {} || forall s :: s in m.rows && Deletes({}, session, s) ==>
                  exists k :: k in matched && StoreOf(k) == s)
  {
    hide StoreOf, Like;
    var matched := Matched(m, session, "", "");
    var seats := SeatsOf(matched, session, "", "");
    var m' := Forget(m, session, "", "", true);
    if matched == {} {
      assert seats == {};
    } else {
      var k :| k in matched;
      assert StoreOf(k) in seats;
      forall s | s in m.rows
        ensures s in m'.rows <==> !(exists k :: k in matched && StoreOf(k) == s)
      {
      }
    }
  }

  // ---------------------------------------------------------------- whose rows a session's pattern matches

  /** A name LIKE reads literally. */
  predicate Plain(s: string) { '%' !in s && '_' !in s && '\\' !in s }

  /** A plain name and a wildcard match exactly what begins with the name. */
  lemma {:induction false} LikeIsPrefix(s: string, q: string)
    requires Plain(q)
    ensures Like(s, q + "%") <==> q <= s
  {
    var p := q + "%";
    if q == "" {
      assert p == "%";
      LikeAll(s);
    } else {
      assert p[0] == q[0] && p[1..] == q[1..] + "%";
      assert q[0] in q;
      PlainRest(q);
      if s != "" {
        LikeIsPrefix(s[1..], q[1..]);
        assert q <= s <==> s[0] == q[0] && q[1..] <= s[1..];
      }
    }
  }

  lemma PlainRest(q: string)
    requires q != ""
    ensures Plain(q) <==> q[0] != '%' && q[0] != '_' && q[0] != '\\' && Plain(q[1..])
  {
    assert q == [q[0]] + q[1..];
  }

  /** The pattern reads every backslash with the character after it. */
  predicate EscapesEnd(q: string) { q == "" || q[|q| - 1] == ':' }

  /** A name the pattern matches that is the pattern's own only when the pattern is plain. */
  function Stranger(q: string): (r: string)
    ensures |r| <= |q|
  {
    if q == "" then ""
    else if q[0] == '%' then Stranger(q[1..])
    else if q[0] == '\\' && |q| > 1 then [q[1]] + Stranger(q[2..])
    else [if q[0] == '_' then 'x' else q[0]] + Stranger(q[1..])
  }

  lemma {:induction false} StrangerIsLike(q: string, tail: string)
    requires EscapesEnd(q)
    ensures Like(Stranger(q) + tail, q + "%")
  {
    var p, s := q + "%", Stranger(q) + tail;
    if q == "" {
      assert p == "%" && s == tail;
      LikeAll(tail);
    } else {
      assert p[0] == q[0] && p[1..] == q[1..] + "%";
      if q[0] == '%' {
        StrangerIsLike(q[1..], tail);
      } else if q[0] == '\\' {
        assert p[2..] == q[2..] + "%";
        StrangerIsLike(q[2..], tail);
        assert s[1..] == Stranger(q[2..]) + tail;
      } else {
        StrangerIsLike(q[1..], tail);
        assert s[1..] == Stranger(q[1..]) + tail;
      }
    }
  }

  lemma {:induction false} OnlyPlainIsItself(q: string)
    requires EscapesEnd(q) && Stranger(q) == q
    ensures Plain(q)
  {
    if q != "" {
      assert q[0] != '%';
      assert q[0] != '\\';
      OnlyPlainIsItself(q[1..]);
      PlainRest(q);
    }
  }

  /** A row of some other session that goes with this one's. */
  lemma StrangersGo(session: string) returns (store: string)
    requires !Plain(session)
    ensures Deletes({}, session, store) && store != session && !(session + ":" <= store)
  {
    var q := session + ":";
    assert session + ":%" == q + "%";
    assert forall c :: c in session ==> c in q;
    if Stranger(q) == q { OnlyPlainIsItself(q); }
    store := Stranger(q);
    StrangerIsLike(q, "");
    assert store + "" == store;
    if store == session {
      StrangerIsLike(q, "x");
      store := session + "x";
      assert store[|session|] == 'x' && q[|session|] == ':';
    }
  }

  /** Forgetting a session deletes nothing but its own rows exactly when its name has no percent sign,
      underscore or backslash in it. */
  lemma OwnRowsExactly(session: string)
    ensures Plain(session)
      <==> forall store :: Deletes({}, session, store) ==> store == session || session + ":" <= store
  {
    if Plain(session) {
      forall store ensures Like(store, session + ":%") <==> session + ":" <= store {
        assert session + ":%" == session + ":" + "%";
        LikeIsPrefix(store, session + ":");
      }
    } else {
      var store := StrangersGo(session);
    }
  }

  ghost predicate RowsGo(s: string, t: string) {
    exists role, station :: Deletes({}, s, StoreId.StoreId(t, role, station))
  }

  /** ... and by its colons even a plain name reaches other sessions: those it begins, and those that
      it extends by the start of a seat's key. */
  lemma RowsGoExactly(s: string, t: string)
    requires Plain(s)
    ensures RowsGo(s, t) <==> s == t || s + ":" <= t || StoreId.Extends(s, t)
  {
    hide Deletes, StoreId.Extends, StoreId.StoreId;
    if RowsGo(s, t) {
      var role, station :| Deletes({}, s, StoreId.StoreId(t, role, station));
      RowsGoOnly(s, t, role, station);
    }
    if s == t || s + ":" <= t || StoreId.Extends(s, t) {
      var station := ReachedSeat(s, t);
    }
  }

  lemma RowsGoOnly(s: string, t: string, role: string, station: string)
    requires Plain(s) && Deletes({}, s, StoreId.StoreId(t, role, station))
    ensures s == t || s + ":" <= t || StoreId.Extends(s, t)
  {
    var store := StoreId.StoreId(t, role, station);
    var k := StoreId.SeatKey(role, station);
    PlainDeletes(s, store);
    hide StoreId.SeatKey, Like, Deletes, Plain, StoreId.Startable;
    if store == s {
      if k != "" {
        StoreId.KeysAreStartable(role, station, k);
        assert s == t + ":" + k;
      }
    } else if k != "" && !(s + ":" <= t) {
      PrefixLonger(s, t, k);
      if s != t {
        StoreId.StartOf(s, t, k);
        StoreId.KeysAreStartable(role, station, s[|t| + 1..]);
      }
    }
  }

  lemma StartsWithin(own: string, t: string, rest: string)
    requires own <= t + rest && |own| <= |t|
    ensures own <= t
  {
    assert own == (t + rest)[..|own|] == t[..|own|];
  }

  lemma PrefixLonger(s: string, t: string, k: string)
    requires s + ":" <= t + ":" + k && !(s + ":" <= t)
    ensures s == t || |t| < |s|
  {
    var whole, own := t + ":" + k, s + ":";
    assert whole == t + (":" + k);
    assert whole[..|t|] == t && own == whole[..|own|];
    if |own| <= |t| { StartsWithin(own, t, ":" + k); }
    if |s| == |t| { assert s == own[..|s|] == whole[..|t|]; }
  }

  lemma PlainDeletes(s: string, store: string)
    requires Plain(s)
    ensures Deletes({}, s, store) <==> store == s || s + ":" <= store
  {
    assert s + ":%" == s + ":" + "%";
    LikeIsPrefix(store, s + ":");
  }

  /** The seat of the other session whose rows go. */
  lemma ReachedSeat(s: string, t: string) returns (station: string)
    requires Plain(s) && (s == t || s + ":" <= t || StoreId.Extends(s, t))
    ensures Deletes({}, s, StoreId.StoreId(t, "", station))
  {
    hide Like, StoreId.SeatKey, Plain, StoreId.Startable, Deletes;
    if s == t || s + ":" <= t {
      station := "";
      BareStore(t);
      PlainDeletes(s, t);
    } else {
      var x :| StoreId.Startable(x) && s == t + ":" + x;
      station := x + ":a";
      StoreId.SeatInside(t, x, "");
      PlainDeletes(s, s + ":a");
      assert s + ":a" == t + ":" + x + ":a";
      assert (s + ":a")[..|s| + 1] == s + ":";
    }
  }

  lemma BareStore(t: string)
    ensures StoreId.StoreId(t, "", "") == t
  {
    assert Strip("") == "";
  }

  /** LIKE reads an underscore in a session's own name as any character: forgetting one session can
      delete another's rows. */
  lemma UnderscoreReachesAnotherSession()
    ensures Deletes({}, "a_c", "abc:tower") && Deletes({}, "a_c", "a_c:tower")
  {
    assert "a_c" + ":%" == "a_c:%";
    LikeAll("tower");
    LikeStep("abc:tower", "a_c:%");
    LikeStep("bc:tower", "_c:%");
    LikeStep("c:tower", "c:%");
    LikeStep(":tower", ":%");
    LikeStep("a_c:tower", "a_c:%");
    LikeStep("_c:tower", "_c:%");
  }

  lemma {:induction false} LikeStep(s: string, p: string)
    requires s != "" && p != "" && p[0] != '%' && p[0] != '\\'
    ensures Like(s, p) == ((p[0] == '_' || s[0] == p[0]) && Like(s[1..], p[1..]))
  {
  }

  lemma {:induction false} LikeAll(s: string)
    ensures Like(s, "%")
  {
    if s != "" { LikeAll(s[1..]); }
  }
}
