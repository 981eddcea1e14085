/**
 * The four experience regular expressions of the résumé processor, each written out as a
 * scanner with `re.findall` semantics: try a match at every position from left to right, record
 * the captured number, and resume after the match.
 *
 * Each pattern is deterministic once written out: wherever the regex may backtrack (a greedy
 * `\d+`, `\s*`, `years?` or an optional `of\s*`), the character the next token needs cannot be
 * one the greedy choice consumed, so the greedy choice is the only one that can succeed.
 *
 * The scanners work on positions of one string rather than on its suffixes: each step takes the
 * position where the previous one stopped and returns where it stops.
 */
module ExperiencePatterns {
  import opened Wrappers
  import opened Strings

  /** What a regex returns to `findall`: the text of the captured group, read as a number. */
  type Matcher = string -> seq<nat>

  /** A match at the start of the remaining text: the captured number and the match length. */
  datatype Match = Match(group: nat, length: nat)

  /** End of the run of ASCII digits that starts at position `i` (`\d+` is greedy). */
  function DigitsEnd(s: string, i: nat): (e: nat)
    requires i <= |s|
    ensures i <= e <= |s|
    ensures forall k {:trigger IsDigit(s[k])} :: i <= k < e ==> IsDigit(s[k])
    ensures e < |s| ==> !IsDigit(s[e])
    decreases |s| - i
  {
    if i < |s| && IsDigit(s[i]) then DigitsEnd(s, i + 1) else i
  }

  /** End of the run of whitespace that starts at position `i` (`\s*`). */
  function SpacesEnd(s: string, i: nat): (e: nat)
    requires i <= |s|
    ensures i <= e <= |s|
    ensures forall k {:trigger IsSpace(s[k])} :: i <= k < e ==> IsSpace(s[k])
    ensures e < |s| ==> !IsSpace(s[e])
    decreases |s| - i
  {
    if i < |s| && IsSpace(s[i]) then SpacesEnd(s, i + 1) else i
  }

  /** `int(...)` of the digit run that starts at position `i`; 0 when no digit is there. */
  function NumberFrom(s: string, i: nat): nat
    requires i <= |s|
  {
    var e := DigitsEnd(s, i);
    assert AllDigits(s[i..e]);
    DecimalValue(s[i..e])
  }

  /** The lower-case literal `word` occurs at position `i`, compared case-insensitively (`re.IGNORECASE`). */
  predicate WordAt(s: string, i: nat, word: string) {
    i + |word| <= |s| && forall k :: 0 <= k < |word| ==> LowerChar(s[i + k]) == word[k]
  }

  /** End of `(?:years?|yrs?)` matched at `i`; `years` and `yrs` win over `year` and `yr`. */
  function UnitEnd(s: string, i: nat): (r: Option<nat>)
    ensures r.Some? ==> i + 2 <= r.value <= |s|
  {
    if WordAt(s, i, "years") then Some(i + 5)
    else if WordAt(s, i, "year") then Some(i + 4)
    else if WordAt(s, i, "yrs") then Some(i + 3)
    else if WordAt(s, i, "yr") then Some(i + 2)
    else None
  }

  /** End of `(?:word\s*)?` matched at `i`: `i` itself when the word is absent. */
  function OptionalWordEnd(s: string, i: nat, word: string): (e: nat)
    requires i <= |s|
    ensures i <= e <= |s|
  {
    if WordAt(s, i, word) then SpacesEnd(s, i + |word|) else i
  }

  /** End of `\d+\s*(?:years?|yrs?)` matched at `i`, the part all four patterns share. */
  function NumberAndUnitEnd(s: string, i: nat): (r: Option<nat>)
    requires i <= |s|
    ensures r.Some? ==> i + 3 <= r.value <= |s| && IsDigit(s[i])
  {
    var n := DigitsEnd(s, i);
    if n == i then None else UnitEnd(s, SpacesEnd(s, n))
  }

  /** `(\d+)\s*(?:years?|yrs?)\s*(?:of\s*)?experience`. */
  function YearsOfExperienceAt(s: string): (r: Option<Match>)
    ensures r.Some? ==> 0 < r.value.length <= |s| && IsDigit(s[0])
    ensures r.Some? ==> 10 <= r.value.length && WordAt(s, r.value.length - 10, "experience")
    ensures r.Some? ==> r.value.group == NumberFrom(s, 0)
  {
    match NumberAndUnitEnd(s, 0)
    case None => None
    case Some(m) =>
      var c := OptionalWordEnd(s, SpacesEnd(s, m), "of");
      if WordAt(s, c, "experience") then Some(Match(NumberFrom(s, 0), c + 10)) else None
  }

  /** `experience:\s*(\d+)\s*(?:years?|yrs?)`. */
  function ExperienceColonAt(s: string): (r: Option<Match>)
    ensures r.Some? ==> 0 < r.value.length <= |s| && WordAt(s, 0, "experience:")
    ensures r.Some? ==> exists k | 11 <= k < |s| ::
      && (forall j | 11 <= j < k :: IsSpace(s[j])) && IsDigit(s[k]) && r.value.group == NumberFrom(s, k)
  {
    if !WordAt(s, 0, "experience:") then None
    else
      var a := SpacesEnd(s, 11);
      match NumberAndUnitEnd(s, a)
      case None => None
      case Some(e) => Some(Match(NumberFrom(s, a), e))
  }

  /** `(\d+)\s*(?:years?|yrs?)\s*in\s*(?:the\s*)?field`. */
  function YearsInFieldAt(s: string): (r: Option<Match>)
    ensures r.Some? ==> 0 < r.value.length <= |s| && IsDigit(s[0])
    ensures r.Some? ==> 5 <= r.value.length && WordAt(s, r.value.length - 5, "field")
    ensures r.Some? ==> r.value.group == NumberFrom(s, 0)
  {
    match NumberAndUnitEnd(s, 0)
    case None => None
    case Some(m) =>
      var b := SpacesEnd(s, m);
      if !WordAt(s, b, "in") then None
      else
        var d := OptionalWordEnd(s, SpacesEnd(s, b + 2), "the");
        if WordAt(s, d, "field") then Some(Match(NumberFrom(s, 0), d + 5)) else None
  }

  /** `worked\s*(?:for\s*)?(\d+)\s*(?:years?|yrs?)`. */
  function WorkedForAt(s: string): (r: Option<Match>)
    ensures r.Some? ==> 0 < r.value.length <= |s| && WordAt(s, 0, "worked")
    ensures r.Some? ==> exists k | 6 <= k < |s| ::
      && !IsDigit(s[k - 1]) && IsDigit(s[k]) && r.value.group == NumberFrom(s, k)
  {
    if !WordAt(s, 0, "worked") then None
    else
      var a := SpacesEnd(s, 6);
      var b := OptionalWordEnd(s, a, "for");
      match NumberAndUnitEnd(s, b)
      case None => None
      case Some(e) =>
        NonDigitBeforeNumber(s, a, b);
        Some(Match(NumberFrom(s, b), e))
  }

  /** After `worked\s*(?:for\s*)?` the character before the number is a letter or whitespace. */
  lemma NonDigitBeforeNumber(s: string, a: nat, b: nat)
    requires WordAt(s, 0, "worked")
    requires a == SpacesEnd(s, 6) && b == OptionalWordEnd(s, a, "for")
    ensures 6 <= b <= |s| && !IsDigit(s[b - 1])
  {
    if b > a + 3 {
      assert IsSpace(s[b - 1]);
    } else if b > a {
      assert LowerChar(s[a + 2]) == "for"[2];
    } else if a > 6 {
      assert IsSpace(s[a - 1]);
    } else {
      assert LowerChar(s[0 + 5]) == "worked"[5];
    }
  }

  /**
   * `re.findall` for a pattern with one group that never matches the empty string: the groups of
   * the successive non-overlapping matches, leftmost first.
   */
  function FindAll(matchAt: string -> Option<Match>, s: string): seq<nat>
    decreases |s|
  {
    if s == [] then []
    else
      match matchAt(s)
      case Some(m) =>
        if 0 < m.length <= |s| then [m.group] + FindAll(matchAt, s[m.length..])
        else FindAll(matchAt, s[1..])
      case None => FindAll(matchAt, s[1..])
  }

  /** `matchAt` matches a non-empty prefix of `t` (the only matches `FindAll` takes). */
  predicate MatchesFront(matchAt: string -> Option<Match>, t: string) {
    matchAt(t).Some? && 0 < matchAt(t).value.length <= |t|
  }

  /** `findall` finds nothing exactly when the pattern matches at no position of the text. */
  lemma {:induction false} FindAllEmptyIff(matchAt: string -> Option<Match>, s: string)
    ensures FindAll(matchAt, s) == [] <==> forall i :: 0 <= i < |s| ==> !MatchesFront(matchAt, s[i..])
    decreases |s|
  {
    if s != [] {
      assert s[0..] == s;
      if !MatchesFront(matchAt, s) {
        FindAllEmptyIff(matchAt, s[1..]);
        forall i | 1 <= i < |s|
          ensures s[1..][i - 1..] == s[i..]
        {
        }
      }
    }
  }

  /** A match at the front of the text is the first thing `findall` reports. */
  lemma FindAllFront(matchAt: string -> Option<Match>, s: string)
    requires MatchesFront(matchAt, s)
    ensures FindAll(matchAt, s) != [] && FindAll(matchAt, s)[0] == matchAt(s).value.group
  {
  }

  /** Some match of `matchAt` in `s` captures `g`. */
  predicate CapturedSomewhere(matchAt: string -> Option<Match>, s: string, g: nat) {
    exists i :: 0 <= i < |s| && MatchesFront(matchAt, s[i..]) && matchAt(s[i..]).value.group == g
  }

  /** Every number `findall` reports is the group of a match at some position of the text. */
  lemma {:induction false} FindAllSound(matchAt: string -> Option<Match>, s: string)
    ensures forall g :: g in FindAll(matchAt, s) ==> CapturedSomewhere(matchAt, s, g)
    decreases |s|
  {
    if s != [] {
      var skip := if MatchesFront(matchAt, s) then matchAt(s).value.length else 1;
      var rest := s[skip..];
      FindAllSound(matchAt, rest);
      forall g | g in FindAll(matchAt, s)
        ensures CapturedSomewhere(matchAt, s, g)
      {
        if MatchesFront(matchAt, s) && g == matchAt(s).value.group {
          assert s[0..] == s;
        } else {
          assert g in FindAll(matchAt, rest);
          var i :| 0 <= i < |rest| && MatchesFront(matchAt, rest[i..]) && matchAt(rest[i..]).value.group == g;
          assert rest[i..] == s[skip + i..];
        }
      }
    }
  }

  function YearsOfExperience(text: string): seq<nat> { FindAll(YearsOfExperienceAt, text) }

  function ExperienceColon(text: string): seq<nat> { FindAll(ExperienceColonAt, text) }

  function YearsInField(text: string): seq<nat> { FindAll(YearsInFieldAt, text) }

  function WorkedFor(text: string): seq<nat> { FindAll(WorkedForAt, text) }

  /** `ResumeProcessor.experience_patterns`, in priority order. */
  const Patterns: seq<Matcher> := [YearsOfExperience, ExperienceColon, YearsInField, WorkedFor]

  // Soundness: every reported number is the value of a digit run of the text.

  /** Some position of `s` starts a run of digits whose value is `g`. */
  predicate NumberAt(s: string, g: nat) {
    exists i :: 0 <= i < |s| && IsDigit(s[i]) && g == NumberFrom(s, i)
  }

  /** The digit run at position `j` of a suffix is the digit run at the same place of the whole. */
  lemma {:induction false} DigitsEndShift(s: string, i: nat, j: nat)
    requires i + j <= |s|
    ensures DigitsEnd(s[i..], j) + i == DigitsEnd(s, i + j)
    decreases |s| - i - j
  {
    if i + j < |s| {
      assert s[i..][j] == s[i + j];
      if IsDigit(s[i + j]) {
        DigitsEndShift(s, i, j + 1);
      }
    }
  }

  /** A number read in a suffix is the number read at the same place of the whole text. */
  lemma NumberFromShift(s: string, i: nat, j: nat)
    requires i + j <= |s|
    ensures NumberFrom(s[i..], j) == NumberFrom(s, i + j)
  {
    DigitsEndShift(s, i, j);
    var e := DigitsEnd(s[i..], j);
    assert s[i..][j..e] == s[i + j..i + e];
  }

  /** A digit run of a suffix of the text is a digit run of the text. */
  lemma NumberAtShift(s: string, i: nat, k: nat, g: nat)
    requires i + k < |s| && IsDigit(s[i..][k]) && g == NumberFrom(s[i..], k)
    ensures NumberAt(s, g)
  {
    NumberFromShift(s, i, k);
    assert s[i + k] == s[i..][k];
  }

  /** When every match of `matchAt` captures a digit run of what it matched, `findall` reports only digit runs. */
  lemma FindAllReadsDigits(matchAt: string -> Option<Match>, text: string)
    requires forall t :: matchAt(t).Some? ==> NumberAt(t, matchAt(t).value.group)
    ensures forall g :: g in FindAll(matchAt, text) ==> NumberAt(text, g)
  {
    FindAllSound(matchAt, text);
    forall g | g in FindAll(matchAt, text)
      ensures NumberAt(text, g)
    {
      var i :| 0 <= i < |text| && MatchesFront(matchAt, text[i..]) && matchAt(text[i..]).value.group == g;
      var t := text[i..];
      assert NumberAt(t, g);
      var k :| 0 <= k < |t| && IsDigit(t[k]) && g == NumberFrom(t, k);
      NumberAtShift(text, i, k, g);
    }
  }

  /** Every number the first pattern reports is the value of a digit run in the text. */
  lemma YearsOfExperienceReadsDigits(text: string)
    ensures forall g :: g in YearsOfExperience(text) ==> NumberAt(text, g)
  {
    forall t | YearsOfExperienceAt(t).Some?
      ensures NumberAt(t, YearsOfExperienceAt(t).value.group)
    {
      assert IsDigit(t[0]);
    }
    FindAllReadsDigits(YearsOfExperienceAt, text);
  }

  /** Every number the second pattern reports is the value of a digit run in the text. */
  lemma ExperienceColonReadsDigits(text: string)
    ensures forall g :: g in ExperienceColon(text) ==> NumberAt(text, g)
  {
    FindAllReadsDigits(ExperienceColonAt, text);
  }

  /** Every number the third pattern reports is the value of a digit run in the text. */
  lemma YearsInFieldReadsDigits(text: string)
    ensures forall g :: g in YearsInField(text) ==> NumberAt(text, g)
  {
    forall t | YearsInFieldAt(t).Some?
      ensures NumberAt(t, YearsInFieldAt(t).value.group)
    {
      assert IsDigit(t[0]);
    }
    FindAllReadsDigits(YearsInFieldAt, text);
  }

  /** Every number the fourth pattern reports is the value of a digit run in the text. */
  lemma WorkedForReadsDigits(text: string)
    ensures forall g :: g in WorkedFor(text) ==> NumberAt(text, g)
  {
    FindAllReadsDigits(WorkedForAt, text);
  }

  // Completeness: text of each pattern's shape is matched, with the number it spells captured.

  /** `r` is a match capturing `group` over `length` characters. */
  predicate Matched(r: Option<Match>, group: nat, length: nat) {
    r.Some? && r.value.group == group && r.value.length == length
  }

  /** `r` is the position `n`. */
  predicate Ends(r: Option<nat>, n: nat) {
    r.Some? && r.value == n
  }

  /** `x` spells the lower-case literal `word`, in any ASCII case. */
  predicate Spells(x: string, word: string) {
    |x| == |word| && forall k :: 0 <= k < |x| ==> LowerChar(x[k]) == word[k]
  }

  /** Every character of `w` is whitespace (a run `\s*` consumes). */
  predicate AllSpaces(w: string) {
    forall k :: 0 <= k < |w| ==> IsSpace(w[k])
  }

  /** `u` spells one of the units `years`, `year`, `yrs`, `yr`. */
  predicate IsUnit(u: string) {
    Spells(u, "years") || Spells(u, "year") || Spells(u, "yrs") || Spells(u, "yr")
  }

  /** `o` is what `(?:word\s*)?` consumes: nothing, or `word` in any ASCII case and then whitespace. */
  predicate OptionalPart(o: string, word: string) {
    || o == []
    || (&& |word| <= |o|
        && (forall k :: 0 <= k < |word| ==> LowerChar(o[k]) == word[k])
        && (forall k :: |word| <= k < |o| ==> IsSpace(o[k])))
  }

  /** `x` occurs in `s` at position `i`. */
  predicate Has(s: string, i: nat, x: string) {
    i + |x| <= |s| && forall k :: 0 <= k < |x| ==> s[i + k] == x[k]
  }

  /** A text occurs in itself at the start. */
  lemma HasSelf(s: string)
    ensures Has(s, 0, s)
  {
  }

  /** Where `x + y` starts `s`, `x` starts it and `y` follows. */
  lemma HasSplit(s: string, x: string, y: string)
    requires Has(s, 0, x + y)
    ensures Has(s, 0, x) && Has(s, |x|, y)
  {
    forall k | 0 <= k < |x|
      ensures s[k] == x[k]
    {
      assert (x + y)[k] == x[k];
    }
    forall k | 0 <= k < |y|
      ensures s[|x| + k] == y[k]
    {
      assert (x + y)[|x| + k] == y[k];
    }
  }

  /** The character at position `i + k` of `s` where `x` occurs at `i`. */
  lemma CharOf(s: string, i: nat, x: string, k: nat)
    requires Has(s, i, x) && k < |x|
    ensures i + k < |s| && s[i + k] == x[k]
  {
  }

  /** A digit string occurring at `i` makes the positions it covers digits. */
  lemma DigitsIn(s: string, i: nat, d: string)
    requires Has(s, i, d) && AllDigits(d)
    ensures forall k :: i <= k < i + |d| ==> IsDigit(s[k])
  {
    forall k | i <= k < i + |d|
      ensures IsDigit(s[k])
    {
      CharOf(s, i, d, k - i);
    }
  }

  /** A whitespace string occurring at `i` makes the positions it covers whitespace. */
  lemma SpacesIn(s: string, i: nat, w: string)
    requires Has(s, i, w) && AllSpaces(w)
    ensures forall k :: i <= k < i + |w| ==> IsSpace(s[k])
  {
    forall k | i <= k < i + |w|
      ensures IsSpace(s[k])
    {
      CharOf(s, i, w, k - i);
    }
  }

  /** A spelling of `word` occurring at `i` is the literal `word` at `i`. */
  lemma WordIn(s: string, i: nat, x: string, word: string)
    requires Has(s, i, x) && Spells(x, word)
    ensures WordAt(s, i, word)
  {
    forall k | 0 <= k < |word|
      ensures LowerChar(s[i + k]) == word[k]
    {
      CharOf(s, i, x, k);
    }
  }

  /** A literal is not at position `i` when the character `k` places on differs from it. */
  lemma Mismatch(s: string, i: nat, word: string, k: nat)
    requires k < |word| && (i + k < |s| ==> LowerChar(s[i + k]) != word[k])
    ensures !WordAt(s, i, word)
  {
    if i + |word| <= |s| {
      assert LowerChar(s[i + k]) != word[k];
    }
  }

  /** A spelling of a word that begins with a letter begins with a letter: not a digit, not whitespace. */
  lemma SpellsFirst(x: string, word: string)
    requires Spells(x, word) && word != [] && IsLower(word[0])
    ensures x != [] && LowerChar(x[0]) == word[0] && !IsDigit(x[0]) && !IsSpace(x[0])
  {
  }

  /** Whitespace is left alone by lower-casing, and is no letter. */
  lemma SpaceNotLetter(c: char)
    requires IsSpace(c)
    ensures LowerChar(c) == c && !IsLower(c) && !IsDigit(c)
  {
  }

  /** `\d+` stops where the digits stop. */
  lemma {:induction false} DigitsEndAt(s: string, i: nat, j: nat)
    requires i <= j <= |s| && (forall k :: i <= k < j ==> IsDigit(s[k])) && (j < |s| ==> !IsDigit(s[j]))
    ensures DigitsEnd(s, i) == j
    decreases j - i
  {
    if i < j {
      DigitsEndAt(s, i + 1, j);
    }
  }

  /** `\s*` stops where the whitespace stops. */
  lemma {:induction false} SpacesEndAt(s: string, i: nat, j: nat)
    requires i <= j <= |s| && (forall k :: i <= k < j ==> IsSpace(s[k])) && (j < |s| ==> !IsSpace(s[j]))
    ensures SpacesEnd(s, i) == j
    decreases j - i
  {
    if i < j {
      SpacesEndAt(s, i + 1, j);
    }
  }

  /** The number read at `i` is the value of the digit string occurring there. */
  lemma NumberFromOf(s: string, i: nat, d: string)
    requires Has(s, i, d) && AllDigits(d) && (i + |d| < |s| ==> !IsDigit(s[i + |d|]))
    ensures NumberFrom(s, i) == DecimalValue(d)
  {
    DigitsIn(s, i, d);
    DigitsEndAt(s, i, i + |d|);
    assert s[i..i + |d|] == d;
  }

  /** A unit begins with a `y`: a letter, neither digit nor whitespace. */
  lemma UnitFirst(u: string)
    requires IsUnit(u)
    ensures u != [] && LowerChar(u[0]) == 'y' && !IsDigit(u[0]) && !IsSpace(u[0])
  {
  }

  /** `(?:years?|yrs?)` takes exactly the unit occurring at `a` when no `s` follows a `year` or `yr`. */
  lemma UnitEndAt(s: string, a: nat, u: string)
    requires Has(s, a, u) && IsUnit(u)
    requires a + |u| < |s| ==> LowerChar(s[a + |u|]) != 's'
    ensures Ends(UnitEnd(s, a), a + |u|)
  {
    if Spells(u, "years") {
      WordIn(s, a, u, "years");
    } else if Spells(u, "year") {
      WordIn(s, a, u, "year");
      Mismatch(s, a, "years", 4);
    } else {
      CharOf(s, a, u, 1);
      Mismatch(s, a, "years", 1);
      Mismatch(s, a, "year", 1);
      if Spells(u, "yrs") {
        WordIn(s, a, u, "yrs");
      } else {
        WordIn(s, a, u, "yr");
        Mismatch(s, a, "yrs", 2);
      }
    }
  }

  /** The character after a digit string that whitespace `w` and a unit `u` follow is no digit or space. */
  lemma AfterDigits(s: string, n: nat, w: string, u: string)
    requires Has(s, n, w) && Has(s, n + |w|, u) && AllSpaces(w) && IsUnit(u)
    ensures n < |s| && !IsDigit(s[n]) && !IsSpace(s[n + |w|])
  {
    UnitFirst(u);
    CharOf(s, n + |w|, u, 0);
    if w != [] {
      CharOf(s, n, w, 0);
      SpaceNotLetter(w[0]);
    }
  }

  /** `\d+\s*(?:years?|yrs?)` at `i`: a digit string `d`, whitespace `w` and a unit `u` occurring in turn. */
  lemma NumberAndUnitEndAt(s: string, i: nat, d: string, w: string, u: string)
    requires Has(s, i, d) && Has(s, i + |d|, w) && Has(s, i + |d| + |w|, u)
    requires d != [] && AllDigits(d) && AllSpaces(w) && IsUnit(u)
    requires i + |d| + |w| + |u| < |s| ==> LowerChar(s[i + |d| + |w| + |u|]) != 's'
    ensures Ends(NumberAndUnitEnd(s, i), i + |d| + |w| + |u|)
    ensures NumberFrom(s, i) == DecimalValue(d)
  {
    var n, a := i + |d|, i + |d| + |w|;
    AfterDigits(s, n, w, u);
    DigitsIn(s, i, d);
    DigitsEndAt(s, i, n);
    SpacesIn(s, n, w);
    SpacesEndAt(s, n, a);
    UnitEndAt(s, a, u);
    NumberFromOf(s, i, d);
  }

  /** `(?:word\s*)?` at `i` takes exactly the optional part `o` when a non-space, non-`word` text follows. */
  lemma OptionalWordEndAt(s: string, i: nat, o: string, word: string)
    requires Has(s, i, o) && OptionalPart(o, word) && word != []
    requires i + |o| < |s| && !IsSpace(s[i + |o|]) && LowerChar(s[i + |o|]) != word[0]
    ensures OptionalWordEnd(s, i, word) == i + |o|
  {
    if o == [] {
      Mismatch(s, i, word, 0);
    } else {
      forall k | 0 <= k < |word|
        ensures LowerChar(s[i + k]) == word[k]
      {
        CharOf(s, i, o, k);
      }
      forall k | i + |word| <= k < i + |o|
        ensures IsSpace(s[k])
      {
        CharOf(s, i, o, k - i);
      }
      SpacesEndAt(s, i + |word|, i + |o|);
    }
  }

  /**
   * An optional part `o` of `owd` followed by a spelling `x` of `word` at `i`: the optional word
   * is read exactly, and the text at `i` starts with a letter of one of the two words.
   */
  lemma OptionalThenWord(s: string, i: nat, o: string, owd: string, x: string, word: string)
    requires Has(s, i, o) && OptionalPart(o, owd) && owd != [] && IsLower(owd[0])
    requires Has(s, i + |o|, x) && Spells(x, word) && word != [] && IsLower(word[0]) && owd[0] != word[0]
    requires owd[0] != 's' && word[0] != 's'
    ensures OptionalWordEnd(s, i, owd) == i + |o| && WordAt(s, i + |o|, word)
    ensures i < |s| && !IsSpace(s[i]) && LowerChar(s[i]) != 's'
  {
    SpellsFirst(x, word);
    CharOf(s, i + |o|, x, 0);
    OptionalWordEndAt(s, i, o, owd);
    WordIn(s, i + |o|, x, word);
    if o != [] {
      CharOf(s, i, o, 0);
    }
  }

  /** Whitespace `w` at `i`, then a non-space character other than `s`: `\s*` takes `w`, and no `s` is at `i`. */
  lemma SpacesThen(s: string, i: nat, w: string)
    requires Has(s, i, w) && AllSpaces(w) && i + |w| < |s| && !IsSpace(s[i + |w|]) && LowerChar(s[i + |w|]) != 's'
    ensures SpacesEnd(s, i) == i + |w|
    ensures LowerChar(s[i]) != 's'
  {
    SpacesIn(s, i, w);
    SpacesEndAt(s, i, i + |w|);
    if w != [] {
      CharOf(s, i, w, 0);
      SpaceNotLetter(w[0]);
    }
  }

  /**
   * `\d+\s*(?:years?|yrs?)\s*` at the start of `s`, spelt by the pieces `d`, `w1`, `u` and `w2`
   * occurring in turn before a character that is neither whitespace nor `s`.
   */
  lemma LeadingNumberAndUnit(s: string, d: string, w1: string, u: string, w2: string)
    requires d != [] && AllDigits(d) && AllSpaces(w1) && IsUnit(u) && AllSpaces(w2)
    requires Has(s, 0, d) && Has(s, |d|, w1) && Has(s, |d + w1|, u) && Has(s, |d + w1 + u|, w2)
    requires |d + w1 + u + w2| < |s| && !IsSpace(s[|d + w1 + u + w2|]) && LowerChar(s[|d + w1 + u + w2|]) != 's'
    ensures Ends(NumberAndUnitEnd(s, 0), |d + w1 + u|) && SpacesEnd(s, |d + w1 + u|) == |d + w1 + u + w2|
    ensures NumberFrom(s, 0) == DecimalValue(d)
  {
    SpacesThen(s, |d + w1 + u|, w2);
    NumberAndUnitEndAt(s, 0, d, w1, u);
  }

  /** `YearsOfExperienceAt` read off the positions where its steps stop. */
  lemma YearsOfExperienceSteps(s: string, m: nat, b: nat, c: nat)
    requires Ends(NumberAndUnitEnd(s, 0), m) && SpacesEnd(s, m) == b && OptionalWordEnd(s, b, "of") == c
    requires WordAt(s, c, "experience")
    ensures Matched(YearsOfExperienceAt(s), NumberFrom(s, 0), c + 10)
  {
  }

  /** Text of the shape `\d+\s*(?:years?|yrs?)\s*(?:of\s*)?experience` is matched in full. */
  lemma YearsOfExperienceOf(d: string, w1: string, u: string, w2: string, o: string, e: string, t: string)
    requires d != [] && AllDigits(d) && AllSpaces(w1) && IsUnit(u) && AllSpaces(w2)
    requires OptionalPart(o, "of") && Spells(e, "experience")
    ensures Matched(YearsOfExperienceAt(d + w1 + u + w2 + o + e + t), DecimalValue(d), |d + w1 + u + w2 + o + e|)
  {
    var s := d + w1 + u + w2 + o + e + t;
    HasSelf(s);
    HasSplit(s, d + w1 + u + w2 + o + e, t);
    HasSplit(s, d + w1 + u + w2 + o, e);
    HasSplit(s, d + w1 + u + w2, o);
    HasSplit(s, d + w1 + u, w2);
    HasSplit(s, d + w1, u);
    HasSplit(s, d, w1);
    YearsOfExperienceIn(s, d, w1, u, w2, o, e);
  }

  /** The pieces of `YearsOfExperienceOf` occurring in turn from the start of `s`. */
  lemma YearsOfExperienceIn(s: string, d: string, w1: string, u: string, w2: string, o: string, e: string)
    requires d != [] && AllDigits(d) && AllSpaces(w1) && IsUnit(u) && AllSpaces(w2)
    requires OptionalPart(o, "of") && Spells(e, "experience")
    requires Has(s, 0, d) && Has(s, |d|, w1) && Has(s, |d + w1|, u) && Has(s, |d + w1 + u|, w2)
    requires Has(s, |d + w1 + u + w2|, o) && Has(s, |d + w1 + u + w2 + o|, e)
    ensures Matched(YearsOfExperienceAt(s), DecimalValue(d), |d + w1 + u + w2 + o + e|)
  {
    var p3 := |d + w1 + u|;
    var p4 := p3 + |w2|;
    var p5 := p4 + |o|;
    OptionalThenWord(s, p4, o, "of", e, "experience");
    LeadingNumberAndUnit(s, d, w1, u, w2);
    YearsOfExperienceSteps(s, p3, p4, p5);
  }

  /** `ExperienceColonAt` read off the positions where its steps stop. */
  lemma ExperienceColonSteps(s: string, a: nat, e: nat)
    requires WordAt(s, 0, "experience:") && SpacesEnd(s, 11) == a && Ends(NumberAndUnitEnd(s, a), e)
    ensures Matched(ExperienceColonAt(s), NumberFrom(s, a), e)
  {
  }

  /** Text of the shape `experience:\s*\d+\s*(?:years?|yrs?)` is matched in full. */
  lemma ExperienceColonOf(x: string, w1: string, d: string, w2: string, u: string, t: string)
    requires Spells(x, "experience:") && AllSpaces(w1) && d != [] && AllDigits(d)
    requires AllSpaces(w2) && IsUnit(u) && (t == [] || LowerChar(t[0]) != 's')
    ensures Matched(ExperienceColonAt(x + w1 + d + w2 + u + t), DecimalValue(d), |x + w1 + d + w2 + u|)
  {
    var s := x + w1 + d + w2 + u + t;
    HasSelf(s);
    HasSplit(s, x + w1 + d + w2 + u, t);
    HasSplit(s, x + w1 + d + w2, u);
    HasSplit(s, x + w1 + d, w2);
    HasSplit(s, x + w1, d);
    HasSplit(s, x, w1);
    if t != [] {
      CharOf(s, |x + w1 + d + w2 + u|, t, 0);
    }
    ExperienceColonIn(s, x, w1, d, w2, u);
  }

  /** The pieces of `ExperienceColonOf` occurring in turn from the start of `s`. */
  lemma ExperienceColonIn(s: string, x: string, w1: string, d: string, w2: string, u: string)
    requires Spells(x, "experience:") && AllSpaces(w1) && d != [] && AllDigits(d) && AllSpaces(w2) && IsUnit(u)
    requires Has(s, 0, x) && Has(s, |x|, w1) && Has(s, |x + w1|, d) && Has(s, |x + w1 + d|, w2)
    requires Has(s, |x + w1 + d + w2|, u)
    requires |x + w1 + d + w2 + u| < |s| ==> LowerChar(s[|x + w1 + d + w2 + u|]) != 's'
    ensures Matched(ExperienceColonAt(s), DecimalValue(d), |x + w1 + d + w2 + u|)
  {
    var a := |x + w1|;
    WordIn(s, 0, x, "experience:");
    CharOf(s, a, d, 0);
    SpacesIn(s, 11, w1);
    SpacesEndAt(s, 11, a);
    NumberAndUnitEndAt(s, a, d, w2, u);
    ExperienceColonSteps(s, a, a + |d| + |w2| + |u|);
  }

  /** `YearsInFieldAt` read off the positions where its steps stop. */
  lemma YearsInFieldSteps(s: string, m: nat, b: nat, d: nat)
    requires Ends(NumberAndUnitEnd(s, 0), m) && SpacesEnd(s, m) == b && WordAt(s, b, "in")
    requires OptionalWordEnd(s, SpacesEnd(s, b + 2), "the") == d && WordAt(s, d, "field")
    ensures Matched(YearsInFieldAt(s), NumberFrom(s, 0), d + 5)
  {
  }

  /** Text of the shape `\d+\s*(?:years?|yrs?)\s*in\s*(?:the\s*)?field` is matched in full. */
  lemma YearsInFieldOf(d: string, w1: string, u: string, w2: string, i: string, w3: string, th: string, f: string, t: string)
    requires d != [] && AllDigits(d) && AllSpaces(w1) && IsUnit(u) && AllSpaces(w2)
    requires Spells(i, "in") && AllSpaces(w3) && OptionalPart(th, "the") && Spells(f, "field")
    ensures Matched(YearsInFieldAt(d + w1 + u + w2 + i + w3 + th + f + t), DecimalValue(d), |d + w1 + u + w2 + i + w3 + th + f|)
  {
    var s := d + w1 + u + w2 + i + w3 + th + f + t;
    HasSelf(s);
    HasSplit(s, d + w1 + u + w2 + i + w3 + th + f, t);
    HasSplit(s, d + w1 + u + w2 + i + w3 + th, f);
    HasSplit(s, d + w1 + u + w2 + i + w3, th);
    HasSplit(s, d + w1 + u + w2 + i, w3);
    HasSplit(s, d + w1 + u + w2, i);
    HasSplit(s, d + w1 + u, w2);
    HasSplit(s, d + w1, u);
    HasSplit(s, d, w1);
    YearsInFieldIn(s, d, w1, u, w2, i, w3, th, f);
  }

  /** The pieces of `YearsInFieldOf` occurring in turn from the start of `s`. */
  lemma YearsInFieldIn(s: string, d: string, w1: string, u: string, w2: string, i: string, w3: string, th: string, f: string)
    requires d != [] && AllDigits(d) && AllSpaces(w1) && IsUnit(u) && AllSpaces(w2)
    requires Spells(i, "in") && AllSpaces(w3) && OptionalPart(th, "the") && Spells(f, "field")
    requires Has(s, 0, d) && Has(s, |d|, w1) && Has(s, |d + w1|, u) && Has(s, |d + w1 + u|, w2)
    requires Has(s, |d + w1 + u + w2|, i) && Has(s, |d + w1 + u + w2 + i|, w3)
    requires Has(s, |d + w1 + u + w2 + i + w3|, th) && Has(s, |d + w1 + u + w2 + i + w3 + th|, f)
    ensures Matched(YearsInFieldAt(s), DecimalValue(d), |d + w1 + u + w2 + i + w3 + th + f|)
  {
    var p3 := |d + w1 + u|;
    var p4 := p3 + |w2|;
    SpellsFirst(i, "in");
    CharOf(s, p4, i, 0);
    WordIn(s, p4, i, "in");
    TheFieldAt(s, p4 + 2, w3, th, f);
    LeadingNumberAndUnit(s, d, w1, u, w2);
    YearsInFieldSteps(s, p3, p4, p4 + 2 + |w3| + |th|);
  }

  /** `\s*(?:the\s*)?field` at `c`, spelt by the pieces `w3`, `th` and `f` occurring in turn. */
  lemma TheFieldAt(s: string, c: nat, w3: string, th: string, f: string)
    requires AllSpaces(w3) && OptionalPart(th, "the") && Spells(f, "field")
    requires Has(s, c, w3) && Has(s, c + |w3|, th) && Has(s, c + |w3| + |th|, f)
    ensures OptionalWordEnd(s, SpacesEnd(s, c), "the") == c + |w3| + |th|
    ensures WordAt(s, c + |w3| + |th|, "field")
  {
    OptionalThenWord(s, c + |w3|, th, "the", f, "field");
    SpacesThen(s, c, w3);
  }

  /** `WorkedForAt` read off the positions where its steps stop. */
  lemma WorkedForSteps(s: string, a: nat, b: nat, e: nat)
    requires WordAt(s, 0, "worked") && SpacesEnd(s, 6) == a && OptionalWordEnd(s, a, "for") == b
    requires Ends(NumberAndUnitEnd(s, b), e)
    ensures Matched(WorkedForAt(s), NumberFrom(s, b), e)
  {
  }

  /** Text of the shape `worked\s*(?:for\s*)?\d+\s*(?:years?|yrs?)` is matched in full. */
  lemma WorkedForOf(x: string, w1: string, fo: string, d: string, w2: string, u: string, t: string)
    requires Spells(x, "worked") && AllSpaces(w1) && OptionalPart(fo, "for") && d != [] && AllDigits(d)
    requires AllSpaces(w2) && IsUnit(u) && (t == [] || LowerChar(t[0]) != 's')
    ensures Matched(WorkedForAt(x + w1 + fo + d + w2 + u + t), DecimalValue(d), |x + w1 + fo + d + w2 + u|)
  {
    var s := x + w1 + fo + d + w2 + u + t;
    HasSelf(s);
    HasSplit(s, x + w1 + fo + d + w2 + u, t);
    HasSplit(s, x + w1 + fo + d + w2, u);
    HasSplit(s, x + w1 + fo + d, w2);
    HasSplit(s, x + w1 + fo, d);
    HasSplit(s, x + w1, fo);
    HasSplit(s, x, w1);
    if t != [] {
      CharOf(s, |x + w1 + fo + d + w2 + u|, t, 0);
    }
    WorkedForIn(s, x, w1, fo, d, w2, u);
  }

  /** The pieces of `WorkedForOf` occurring in turn from the start of `s`. */
  lemma WorkedForIn(s: string, x: string, w1: string, fo: string, d: string, w2: string, u: string)
    requires Spells(x, "worked") && AllSpaces(w1) && OptionalPart(fo, "for") && d != [] && AllDigits(d)
    requires AllSpaces(w2) && IsUnit(u)
    requires Has(s, 0, x) && Has(s, |x|, w1) && Has(s, |x + w1|, fo) && Has(s, |x + w1 + fo|, d)
    requires Has(s, |x + w1 + fo + d|, w2) && Has(s, |x + w1 + fo + d + w2|, u)
    requires |x + w1 + fo + d + w2 + u| < |s| ==> LowerChar(s[|x + w1 + fo + d + w2 + u|]) != 's'
    ensures Matched(WorkedForAt(s), DecimalValue(d), |x + w1 + fo + d + w2 + u|)
  {
    var a := |x + w1|;
    var b := a + |fo|;
    WordIn(s, 0, x, "worked");
    ForThenNumber(s, a, fo, d);
    SpacesIn(s, 6, w1);
    SpacesEndAt(s, 6, a);
    NumberAndUnitEndAt(s, b, d, w2, u);
    WorkedForSteps(s, a, b, b + |d| + |w2| + |u|);
  }

  /** `(?:for\s*)?` at `a` takes exactly the optional part `fo` when a digit string `d` follows it. */
  lemma ForThenNumber(s: string, a: nat, fo: string, d: string)
    requires Has(s, a, fo) && OptionalPart(fo, "for") && Has(s, a + |fo|, d) && d != [] && AllDigits(d)
    ensures OptionalWordEnd(s, a, "for") == a + |fo|
    ensures a < |s| && !IsSpace(s[a])
  {
    CharOf(s, a + |fo|, d, 0);
    OptionalWordEndAt(s, a, fo, "for");
    if fo != [] {
      CharOf(s, a, fo, 0);
    }
  }
}
