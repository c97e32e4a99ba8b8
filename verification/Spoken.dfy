/** Numbers said aloud and heard back: the words for a number, and the content of a transcript. */
module Spoken {
  import opened Rounding
  import opened Text

  function DigitChar(d: nat): (c: char)
    requires d < 10
    ensures IsDigit(c)
  {
    ('0' as int + d) as char
  }

  /** The decimal digits of a number. */
  function Digits(n: nat): (s: string)
    ensures s != "" && forall i :: 0 <= i < |s| ==> IsDigit(s[i])
  {
    if n < 10 then [DigitChar(n)] else Digits(n / 10) + [DigitChar(n % 10)]
  }

  function Spell(c: char): string {
    match c
    case '0' => "zero"
    case '1' => "one"
    case '2' => "two"
    case '3' => "three"
    case '4' => "four"
    case '5' => "five"
    case '6' => "six"
    case '7' => "seven"
    case '8' => "eight"
    case _ => "nine"
  }

  /** Words with a space between each. */
  function Join(words: seq<string>): string {
    if words == [] then "" else if |words| == 1 then words[0] else words[0] + " " + Join(words[1..])
  }

  function SpellAll(digits: string): (r: seq<string>)
    ensures |r| == |digits|
  {
    seq(|digits|, i requires 0 <= i < |digits| => Spell(digits[i]))
  }

  /** An altitude as a controller says it. */
  function AltWords(ft: nat): string {
    if ft % 1000 == 0 && 1000 <= ft < 100000 then
      var th := ft / 1000;
      if th < 10 then Spell(DigitChar(th)) + " thousand" else Join(SpellAll(Digits(th))) + " thousand"
    else Join(SpellAll(Digits(ft)))
  }

  const WORDS := ["zero", "one", "two", "three", "four", "five", "six", "seven", "eight", "nine", "one zero",
    "one one", "one two"]

  /** A range in whole miles: off the list, or digit by digit beyond it. */
  function SpokenRange(nm: real): string
    requires RoundHalfEven(nm) >= 0
  {
    var n := RoundHalfEven(nm);
    if n < |WORDS| then WORDS[n] else Join(SpellAll(Digits(n)))
  }

  // ---------------------------------------------------------------- hearing it

  predicate IsWordChar(c: char) { 'a' <= c <= 'z' || IsDigit(c) }

  function Run(s: string): (n: nat)
    ensures n <= |s| && (forall i :: 0 <= i < n ==> IsWordChar(s[i])) && (n < |s| ==> !IsWordChar(s[n]))
  {
    if s == "" || !IsWordChar(s[0]) then 0 else 1 + Run(s[1..])
  }

  /** Every unbroken run of letters and digits. */
  function Tokens(s: string): seq<string>
    decreases |s|
  {
    if s == "" then []
    else if !IsWordChar(s[0]) then Tokens(s[1..])
    else [s[..Run(s)]] + Tokens(s[Run(s)..])
  }

  function WithoutCommas(s: string): string {
    if s == "" then "" else (if s[0] == ',' then "" else [s[0]]) + WithoutCommas(s[1..])
  }

  /** What a word contributes to a number, or nothing. */
  function DigitsOf(w: string): string {
    if w == "zero" || w == "oh" then "0"
    else if w == "one" then "1"
    else if w == "two" then "2"
    else if w == "three" || w == "tree" then "3"
    else if w == "four" || w == "fower" then "4"
    else if w == "five" || w == "fife" then "5"
    else if w == "six" then "6"
    else if w == "seven" then "7"
    else if w == "eight" then "8"
    else if w == "nine" || w == "niner" then "9"
    else if w == "thousand" then "000"
    else if w == "hundred" then "00"
    else if forall i :: 0 <= i < |w| ==> IsDigit(w[i]) then w
    else ""
  }

  predicate EndsWith(w: string, tail: string) { |tail| <= |w| && w[|w| - |tail|..] == tail }

  function Stem(w: string): string {
    if EndsWith(w, "ed") || EndsWith(w, "es") then w[..|w| - 2] else if EndsWith(w, "s") then w[..|w| - 1] else w
  }

  /** A word is a number or part of one only in digits, and digits are themselves. */
  lemma DigitsAreDigits(w: string)
    ensures forall i :: 0 <= i < |DigitsOf(w)| ==> IsDigit(DigitsOf(w)[i])
    ensures (forall i :: 0 <= i < |w| ==> IsDigit(w[i])) ==> DigitsOf(w) == w
  {
    if w != "" && IsDigit(w[0]) {
      assert w[0] !in "zotfsenh";
    }
  }

  /** What the ending of a word changes, of one that has none to lose: a past tense or `es` nothing, and
      a plural in `s` nothing exactly when it does not end in `e`. */
  lemma EndingsExactly(w: string)
    requires !EndsWith(w, "s") && !EndsWith(w, "ed")
    ensures Stem(w) == w && Stem(w + "ed") == w && Stem(w + "es") == w
    ensures Stem(w + "s") == Stem(w) <==> !EndsWith(w, "e")
  {
    LastTwo(w, 'e', 'd');
    LastTwo(w, 'e', 's');
    LastOne(w, 's');
    if |w| > 0 {
      assert w == w[..|w| - 1] + [w[|w| - 1]];
      assert w + "s" == w[..|w| - 1] + [w[|w| - 1], 's'];
      LastTwo(w[..|w| - 1], w[|w| - 1], 's');
      LastOne(w[..|w| - 1], w[|w| - 1]);
    }
    EsIsS(w);
  }

  lemma EsIsS(w: string)
    ensures EndsWith(w, "es") ==> EndsWith(w, "s")
  {
    if EndsWith(w, "es") { assert w[|w| - 1..] == w[|w| - 2..][1..] == "s"; }
  }

  lemma LastOne(w: string, c: char)
    ensures EndsWith(w + [c], "s") <==> c == 's'
    ensures EndsWith(w + [c], "e") <==> c == 'e'
    ensures (w + [c])[..|w + [c]| - 1] == w
  {
    assert (w + [c])[|w|..] == [c];
  }

  lemma LastTwo(w: string, c: char, d: char)
    ensures EndsWith(w + [c, d], "ed") <==> c == 'e' && d == 'd'
    ensures EndsWith(w + [c, d], "es") <==> c == 'e' && d == 's'
    ensures (w + [c, d])[..|w + [c, d]| - 2] == w
  {
    assert (w + [c, d])[|w|..] == [c, d];
    assert [c, d] == "ed" <==> c == 'e' && d == 'd';
    assert [c, d] == "es" <==> c == 'e' && d == 's';
  }

  function Flushed(run: string): set<string> { if run == "" then {} else {run} }

  /** The content of some words, after a number already begun. */
  function Content(words: seq<string>, run: string): set<string>
    decreases |words|
  {
    if words == [] then Flushed(run)
    else if DigitsOf(words[0]) != "" then Content(words[1..], run + DigitsOf(words[0]))
    else Flushed(run) + (if |words[0]| > 2 then {Stem(words[0])} else {}) + Content(words[1..], "")
  }

  function Heard(s: string): set<string> { Content(Tokens(WithoutCommas(Lower(s))), "") }

  /** Numbers run together as digits, other words by their stems. */
  method Words(s: string) returns (out: set<string>)
    ensures out == Heard(s)
  {
    hide DigitsOf, Stem, Tokens;
    out := {};
    var run := "";
    var words := Tokens(WithoutCommas(Lower(s)));
    var i := 0;
    assert words[0..] == words;
    while i < |words|
      invariant 0 <= i <= |words|
      invariant Heard(s) == out + Content(words[i..], run)
    {
      var w := words[i];
      assert words[i..][1..] == words[i + 1..] && words[i..][0] == w;
      var d := DigitsOf(w);
      i := i + 1;
      if d != "" {
        run := run + d;
        continue;
      }
      out := out + Flushed(run);
      run := "";
      if |w| > 2 {
        out := out + {Stem(w)};
      }
    }
    out := out + Flushed(run);
  }

  // ---------------------------------------------------------------- what is said is what is heard

  /** A word of lower-case letters and digits. */
  predicate IsWord(w: string) { w != "" && forall i :: 0 <= i < |w| ==> IsWordChar(w[i]) }

  predicate AllWords(words: seq<string>) { forall i :: 0 <= i < |words| ==> IsWord(words[i]) }

  lemma {:induction false} RunOfWord(w: string, rest: string)
    requires (forall i :: 0 <= i < |w| ==> IsWordChar(w[i])) && (rest == "" || !IsWordChar(rest[0]))
    ensures Run(w + rest) == |w|
  {
    if w == "" {
      assert w + rest == rest;
    } else {
      assert (w + rest)[1..] == w[1..] + rest;
      RunOfWord(w[1..], rest);
    }
  }

  lemma {:induction false} TokensOfJoin(words: seq<string>)
    requires AllWords(words)
    ensures Tokens(Join(words)) == words
    decreases |words|
  {
    if words != [] {
      var w, rest := words[0], words[1..];
      assert IsWord(w) && AllWords(rest);
      var tail := if rest == [] then "" else " " + Join(rest);
      assert Join(words) == w + tail;
      RunOfWord(w, tail);
      assert (w + tail)[..|w|] == w && (w + tail)[|w|..] == tail;
      TokensOfJoin(rest);
      if rest != [] { assert tail[1..] == Join(rest); }
      assert words == [w] + rest;
    }
  }

  /** Lower-case words and spaces go through unchanged. */
  lemma {:induction false} PlainTextStays(s: string)
    requires forall i :: 0 <= i < |s| ==> IsWordChar(s[i]) || s[i] == ' '
    ensures WithoutCommas(Lower(s)) == s
  {
    if s != "" {
      PlainTextStays(s[1..]);
      assert Lower(s)[1..] == Lower(s[1..]);
    }
  }

  lemma {:induction false} JoinIsPlain(words: seq<string>)
    requires AllWords(words)
    ensures forall i :: 0 <= i < |Join(words)| ==> IsWordChar(Join(words)[i]) || Join(words)[i] == ' '
    decreases |words|
  {
    if words != [] {
      assert IsWord(words[0]);
      JoinIsPlain(words[1..]);
    }
  }

  lemma {:induction false} HeardWords(words: seq<string>)
    requires AllWords(words)
    ensures Heard(Join(words)) == Content(words, "")
  {
    JoinIsPlain(words);
    PlainTextStays(Join(words));
    TokensOfJoin(words);
  }

  lemma SpelledDigit(c: char)
    requires IsDigit(c)
    ensures DigitsOf(Spell(c)) == [c] && IsWord(Spell(c))
    ensures forall i :: 0 <= i < |Spell(c)| ==> !IsDigit(Spell(c)[i])
  {
    SpelledWord(c);
    hide Spell, IsWord;
  }

  lemma SpelledWord(c: char)
    requires IsDigit(c)
    ensures IsWord(Spell(c)) && forall i :: 0 <= i < |Spell(c)| ==> !IsDigit(Spell(c)[i])
  {
  }

  /** Spelled digits, heard one after another, are the digits. */
  lemma {:induction false} ContentOfSpelled(digits: string, more: seq<string>, run: string)
    requires forall i :: 0 <= i < |digits| ==> IsDigit(digits[i])
    ensures Content(SpellAll(digits) + more, run) == Content(more, run + digits)
    decreases |digits|
  {
    if digits == "" {
      assert SpellAll(digits) + more == more && run + digits == run;
    } else {
      SpelledDigit(digits[0]);
      hide DigitsOf, Spell, Stem;
      var words := SpellAll(digits) + more;
      assert words[0] == Spell(digits[0]) && words[1..] == SpellAll(digits[1..]) + more;
      ContentOfSpelled(digits[1..], more, run + [digits[0]]);
      assert run + [digits[0]] + digits[1..] == run + digits;
    }
  }

  lemma SpelledAreWords(digits: string)
    requires forall i :: 0 <= i < |digits| ==> IsDigit(digits[i])
    ensures AllWords(SpellAll(digits))
  {
    forall i | 0 <= i < |digits|
      ensures IsWord(SpellAll(digits)[i])
    {
      SpelledDigit(digits[i]);
    }
  }

  lemma HeardSpelled(digits: string)
    requires digits != "" && forall i :: 0 <= i < |digits| ==> IsDigit(digits[i])
    ensures Heard(Join(SpellAll(digits))) == {digits}
  {
    SpelledAreWords(digits);
    HeardWords(SpellAll(digits));
    ContentOfSpelled(digits, [], "");
    assert SpellAll(digits) + [] == SpellAll(digits) && "" + digits == digits;
  }

  lemma {:induction false} JoinSnoc(words: seq<string>, w: string)
    requires words != []
    ensures Join(words + [w]) == Join(words) + " " + w
    decreases |words|
  {
    if |words| == 1 {
      assert (words + [w])[1..] == [w];
    } else {
      assert (words + [w])[1..] == words[1..] + [w];
      JoinSnoc(words[1..], w);
    }
  }

  /** The words that multiply, and the noughts they put on. */
  predicate IsScale(w: string, noughts: string) {
    (w == "thousand" && noughts == "000") || (w == "hundred" && noughts == "00")
  }

  lemma {:induction false} ContentOfScale(w: string, noughts: string, more: seq<string>, run: string)
    requires IsScale(w, noughts)
    ensures IsWord(w) && Content([w] + more, run) == Content(more, run + noughts)
  {
    assert ([w] + more)[1..] == more;
  }

  lemma HeardScaled(digits: string, w: string, noughts: string)
    requires digits != "" && (forall i :: 0 <= i < |digits| ==> IsDigit(digits[i])) && IsScale(w, noughts)
    ensures Heard(Join(SpellAll(digits)) + " " + w) == {digits + noughts}
  {
    SpelledAreWords(digits);
    ContentOfScale(w, noughts, [], digits);
    assert [w] + [] == [w];
    var words := SpellAll(digits) + [w];
    assert AllWords(words);
    hide Join, Heard, SpellAll, IsWord;
    JoinSnoc(SpellAll(digits), w);
    HeardWords(words);
    ContentOfSpelled(digits, [w], "");
    assert "" + digits == digits && digits + noughts != "";
  }

  /** A number said with a word that multiplies is heard as the product. */
  lemma {:induction false} ScalesMultiply(n: nat)
    requires n > 0
    ensures Heard(Join(SpellAll(Digits(n))) + " hundred") == {Digits(100 * n)}
    ensures Heard(Join(SpellAll(Digits(n))) + " thousand") == {Digits(1000 * n)}
  {
    hide Heard, Join, SpellAll;
    var said := Join(SpellAll(Digits(n)));
    HeardScaled(Digits(n), "hundred", "00");
    HeardScaled(Digits(n), "thousand", "000");
    assert said + " " + "hundred" == said + " hundred" && said + " " + "thousand" == said + " thousand";
    TimesHundred(n);
    TimesThousand(n);
  }

  lemma {:induction false} TimesTen(n: nat)
    requires n > 0
    ensures Digits(10 * n) == Digits(n) + "0"
  {
  }

  lemma {:induction false} TimesThousand(n: nat)
    requires n > 0
    ensures Digits(1000 * n) == Digits(n) + "000"
  {
    TimesTen(n);
    TimesTen(10 * n);
    TimesTen(100 * n);
    assert Digits(n) + "0" + "0" + "0" == Digits(n) + "000";
  }

  lemma {:induction false} AltWordsAre(ft: nat)
    ensures AltWords(ft)
            == if ft % 1000 == 0 && 1000 <= ft < 100000 then Join(SpellAll(Digits(ft / 1000))) + " thousand"
                            else Join(SpellAll(Digits(ft)))
  {
    var th := ft / 1000;
    if ft % 1000 == 0 && 1000 <= ft < 10000 {
      assert SpellAll(Digits(th)) == [Spell(DigitChar(th))];
    }
  }

  /** An altitude said aloud is heard as its own digits. */
  lemma {:induction false} AltitudeComesBack(ft: nat)
    ensures Heard(AltWords(ft)) == {Digits(ft)}
  {
    AltWordsAre(ft);
    hide AltWords, Heard, Join, SpellAll;
    if ft % 1000 == 0 && 1000 <= ft < 100000 {
      ScalesMultiply(ft / 1000);
      assert 1000 * (ft / 1000) == ft;
    } else {
      HeardSpelled(Digits(ft));
    }
  }

  lemma {:induction false} RangeWordsAre(n: nat)
    requires n < |WORDS|
    ensures WORDS[n] == Join(SpellAll(Digits(n)))
  {
    if n < 10 {
      assert SpellAll(Digits(n)) == [Spell(DigitChar(n))];
    } else {
      assert Digits(n) == Digits(n / 10) + [DigitChar(n % 10)];
      var words := SpellAll(Digits(n));
      assert words == [Spell('1'), Spell(DigitChar(n - 10))];
      assert words[1..] == [Spell(DigitChar(n - 10))];
    }
  }

  /** A range said aloud is heard as the digits of the whole number of miles. */
  lemma RangeComesBack(nm: real)
    requires RoundHalfEven(nm) >= 0
    ensures Heard(SpokenRange(nm)) == {Digits(RoundHalfEven(nm))}
  {
    var n := RoundHalfEven(nm);
    if n < |WORDS| { RangeWordsAre(n); }
    HeardSpelled(Digits(n));
  }

  // ---------------------------------------------------------------- the same number written

  function ThreeDigits(n: nat): string
    requires n < 1000
  {
    [DigitChar(n / 100), DigitChar(n / 10 % 10), DigitChar(n % 10)]
  }

  /** A numeral with its thousands set off by commas. */
  function Grouped(n: nat): string {
    if n < 1000 then Digits(n) else Grouped(n / 1000) + "," + ThreeDigits(n % 1000)
  }

  lemma {:induction false} WithoutCommasConcat(a: string, b: string)
    ensures WithoutCommas(a + b) == WithoutCommas(a) + WithoutCommas(b)
  {
    if a == "" {
      assert a + b == b;
    } else {
      assert (a + b)[1..] == a[1..] + b;
      WithoutCommasConcat(a[1..], b);
    }
  }

  lemma {:induction false} DigitsStay(s: string)
    requires forall i :: 0 <= i < |s| ==> IsDigit(s[i])
    ensures WithoutCommas(s) == s
  {
    if s != "" { DigitsStay(s[1..]); }
  }

  lemma {:induction false} DigitsByTen(n: nat)
    requires n >= 10
    ensures Digits(n) == Digits(n / 10) + [DigitChar(n % 10)]
  {
  }

  lemma TenByTen(n: nat)
    ensures n / 10 / 10 == n / 100 && n / 100 / 10 == n / 1000
    ensures n % 1000 / 100 == n / 100 % 10 && n % 1000 / 10 % 10 == n / 10 % 10 && n % 1000 % 10 == n % 10
  {
  }

  lemma {:induction false} DigitsByThousands(n: nat)
    requires n >= 1000
    ensures Digits(n) == Digits(n / 1000) + ThreeDigits(n % 1000)
  {
    hide Digits;
    TenByTen(n);
    DigitsByTen(n);
    DigitsByTen(n / 10);
    DigitsByTen(n / 100);
  }

  lemma {:induction false} GroupedDigits(n: nat)
    ensures WithoutCommas(Grouped(n)) == Digits(n)
    ensures forall i :: 0 <= i < |Grouped(n)| ==> IsDigit(Grouped(n)[i]) || Grouped(n)[i] == ','
  {
    if n < 1000 {
      DigitsStay(Digits(n));
    } else {
      GroupedDigits(n / 1000);
      var head, tail := Grouped(n / 1000), ThreeDigits(n % 1000);
      WithoutCommasConcat(head + ",", tail);
      WithoutCommasConcat(head, ",");
      DigitsStay(tail);
      assert WithoutCommas(",") == "";
      DigitsByThousands(n);
    }
  }

  lemma {:induction false} LowerStays(s: string)
    requires forall i :: 0 <= i < |s| ==> IsDigit(s[i]) || s[i] == ','
    ensures Lower(s) == s
  {
    if s != "" { LowerStays(s[1..]); }
  }

  /** Spoken or written with commas, a number is heard as one and the same fact. */
  lemma {:induction false} SpokenAndWrittenAgree(n: nat)
    ensures Heard(AltWords(n)) == Heard(Grouped(n)) == {Digits(n)}
  {
    AltitudeComesBack(n);
    GroupedDigits(n);
    LowerStays(Grouped(n));
    var d := Digits(n);
    RunOfWord(d, "");
    assert d + "" == d && d[..|d|] == d && d[|d|..] == "";
    assert Tokens(d) == [d];
    OneNumeral(d);
  }

  lemma OneNumeral(d: string)
    requires d != "" && forall i :: 0 <= i < |d| ==> IsDigit(d[i])
    ensures Content([d], "") == {d}
  {
    assert IsDigit(d[0]);
    assert "" + d == d;
  }

  /** What is written has a comma before each three digits from the end, and none in front. */
  lemma {:induction false} CommasByThrees(n: nat)
    ensures IsDigit(Grouped(n)[0])
    ensures forall i :: 0 <= i < |Grouped(n)| ==> (Grouped(n)[i] == ',' <==> (|Grouped(n)| - i) % 4 == 0)
  {
    hide Digits;
    if n < 1000 {
      AtMostThree(n);
    } else {
      CommasByThrees(n / 1000);
      hide ThreeDigits;
      ThreeAreDigits(n % 1000);
      var g, head := Grouped(n), Grouped(n / 1000);
      assert |g| == |head| + 4 && g[..|head|] == head && g[|head|] == ',';
    }
  }

  lemma ThreeAreDigits(n: nat)
    requires n < 1000
    ensures |ThreeDigits(n)| == 3 && forall i :: 0 <= i < 3 ==> IsDigit(ThreeDigits(n)[i])
  {
  }

  lemma {:induction false} AtMostThree(n: nat)
    requires n < 1000
    ensures |Digits(n)| <= 3
  {
    if n >= 10 {
      DigitsByTen(n);
      if n >= 100 { DigitsByTen(n / 10); }
    }
  }

  /** Thousands and hundreds said together, as nobody here says them. */
  function Compound(n: nat, m: nat): seq<string> {
    SpellAll(Digits(n)) + (["thousand"] + (SpellAll(Digits(m)) + ["hundred"]))
  }

  /** Thousands and hundreds said together are run together, never added: `two thousand five hundred` is
      not 2500. */
  lemma {:induction false} ThousandsAndHundreds(n: nat, m: nat)
    requires n > 0 && 0 < m < 10
    ensures Heard(Join(Compound(n, m))) == {Digits(1000 * n) + Digits(100 * m)}
    ensures Heard(Join(Compound(n, m))) != {Digits(1000 * n + 100 * m)}
  {
    hide Heard, Compound, Digits;
    HeardCompound(n, m);
    TimesThousand(n);
    TimesHundred(m);
    SixMoreNotThree(n, m);
    assert Digits(1000 * n) + Digits(100 * m) in Heard(Join(Compound(n, m)));
  }

  lemma {:induction false} TimesHundred(n: nat)
    requires n > 0
    ensures Digits(100 * n) == Digits(n) + "00"
  {
    TimesTen(n);
    TimesTen(10 * n);
    assert Digits(n) + "0" + "0" == Digits(n) + "00";
  }

  lemma {:induction false} SixMoreNotThree(n: nat, m: nat)
    requires n > 0 && 0 < m < 10
    ensures |Digits(1000 * n + 100 * m)| == |Digits(n)| + 3 < |Digits(n) + "000" + (Digits(m) + "00")|
  {
    hide Digits;
    DigitsByThousands(1000 * n + 100 * m);
    assert (1000 * n + 100 * m) / 1000 == n;
  }

  lemma {:induction false} HeardCompound(n: nat, m: nat)
    ensures Heard(Join(Compound(n, m))) == {Digits(n) + "000" + (Digits(m) + "00")}
  {
    var a, b := Digits(n), Digits(m);
    var tail := SpellAll(b) + ["hundred"];
    SpelledAreWords(a);
    SpelledAreWords(b);
    ContentOfScale("thousand", "000", tail, a);
    ContentOfScale("hundred", "00", [], a + "000" + b);
    hide Heard, Join, IsWord, SpellAll;
    HeardWords(Compound(n, m));
    ContentOfSpelled(a, ["thousand"] + tail, "");
    ContentOfSpelled(b, ["hundred"], a + "000");
    assert ["hundred"] + [] == ["hundred"] && "" + a == a;
    assert a + "000" + b + "00" == a + "000" + (b + "00");
  }

  predicate NoDigit(s: string) { forall i :: 0 <= i < |s| ==> !IsDigit(s[i]) }

  lemma {:induction false} JoinHasNoDigit(words: seq<string>)
    requires forall i :: 0 <= i < |words| ==> NoDigit(words[i])
    ensures NoDigit(Join(words))
    decreases |words|
  {
    if |words| > 1 { JoinHasNoDigit(words[1..]); }
  }

  /** Nothing said has a numeral in it. */
  lemma NeverANumeral(n: nat, nm: real)
    requires RoundHalfEven(nm) >= 0
    ensures NoDigit(AltWords(n)) && NoDigit(SpokenRange(nm))
  {
    SpelledHaveNoDigit(Digits(n));
    SpelledHaveNoDigit(Digits(n / 1000));
    AltWordsAre(n);
    var r := RoundHalfEven(nm);
    SpelledHaveNoDigit(Digits(r));
    if r < |WORDS| { RangeWordsAre(r); }
  }

  lemma SpelledHaveNoDigit(digits: string)
    requires forall i :: 0 <= i < |digits| ==> IsDigit(digits[i])
    ensures NoDigit(Join(SpellAll(digits)))
  {
    forall i | 0 <= i < |digits|
      ensures NoDigit(SpellAll(digits)[i])
    {
      SpelledDigit(digits[i]);
    }
    JoinHasNoDigit(SpellAll(digits));
  }
}
