/** The answer matcher of `utils/matcher.py`: normalisation, the fuzzy title /
    artist comparison, the numeric difficulty comparison and the dispatch on the
    answer type. */
module Matcher {
  import opened Text
  import opened Records

  // ---------------------------------------------------------------- normalise

  /** The characters of the regular-expression class of `normalize_string`,
      each of which is replaced by a space. */
  const Punctuation: string := "!@#$%^&*()_+-=[]{};':\"\\|,.<>/?`~"

  predicate IsPunct(c: char) { c in Punctuation }

  /** `re.sub(<class>, ' ', s)` for the single-character class above. */
  function Depunct(s: string): (r: string)
    ensures |r| == |s|
    ensures forall i | 0 <= i < |s| :: r[i] == (if IsPunct(s[i]) then ' ' else s[i])
  {
    if s == [] then [] else [if IsPunct(s[0]) then ' ' else s[0]] + Depunct(s[1..])
  }

  /** The longest prefix of `s` without whitespace. */
  function WordPrefix(s: string): (w: string)
    ensures IsPrefix(w, s)
    ensures forall i | 0 <= i < |w| :: !IsSpace(w[i])
    ensures |w| < |s| ==> IsSpace(s[|w|])
  {
    if s == [] || IsSpace(s[0]) then [] else [s[0]] + WordPrefix(s[1..])
  }

  /** `s.split()`: the maximal runs of non-whitespace characters, in order. */
  function Words(s: string): seq<string>
    decreases |s|
  {
    if s == [] then []
    else if IsSpace(s[0]) then Words(s[1..])
    else
      var w := WordPrefix(s);
      [w] + Words(s[|w|..])
  }

  /** A word as `split()` produces it: non-empty and without whitespace. */
  predicate IsWord(w: string)
  {
    w != [] && forall i | 0 <= i < |w| :: !IsSpace(w[i])
  }

  /** A character that may survive normalisation. */
  predicate IsKeptChar(c: char)
  {
    !IsUpper(c) && !IsPunct(c) && (IsSpace(c) ==> c == ' ')
  }

  /** The words of `s` are words, made of characters of `s`. */
  lemma {:induction false} WordsShape(s: string)
    ensures forall k | 0 <= k < |Words(s)| :: IsWord(Words(s)[k])
    ensures forall k, i | 0 <= k < |Words(s)| && 0 <= i < |Words(s)[k]| :: Words(s)[k][i] in s
    decreases |s|
  {
    if s == [] {
    } else if IsSpace(s[0]) {
      WordsShape(s[1..]);
      forall k, i | 0 <= k < |Words(s)| && 0 <= i < |Words(s)[k]| ensures Words(s)[k][i] in s {
        assert Words(s)[k][i] in s[1..];
      }
    } else {
      var w := WordPrefix(s);
      WordsShape(s[|w|..]);
      var ws := Words(s);
      assert ws == [w] + Words(s[|w|..]);
      forall k, i | 0 <= k < |ws| && 0 <= i < |ws[k]| ensures ws[k][i] in s {
        if k == 0 {
          assert ws[0][i] == s[i];
        } else {
          assert ws[k] == Words(s[|w|..])[k - 1];
          assert ws[k][i] in s[|w|..];
        }
      }
    }
  }

  /** The shape of a normalised string: lowercase, no punctuation, no
      whitespace other than single inner spaces. */
  predicate IsNormalized(s: string)
  {
    && (forall i | 0 <= i < |s| :: IsKeptChar(s[i]))
    && (s == [] || (s[0] != ' ' && s[|s| - 1] != ' '))
    && (forall i | 0 <= i < |s| - 1 :: !(s[i] == ' ' && s[i + 1] == ' '))
  }

  /** Joining words of kept characters with single spaces gives a normalised
      string, empty only when there are no words. */
  lemma {:induction false} JoinWordsShape(ws: seq<string>)
    requires forall k | 0 <= k < |ws| :: IsWord(ws[k])
    requires forall k, i | 0 <= k < |ws| && 0 <= i < |ws[k]| :: IsKeptChar(ws[k][i])
    ensures IsNormalized(Join(ws, " "))
    ensures (Join(ws, " ") == []) == (ws == [])
    decreases |ws|
  {
    if |ws| <= 1 {
    } else {
      var w, rest := ws[0], ws[1..];
      JoinWordsShape(rest);
      assert Join(ws, " ") == w + " " + Join(rest, " ");
      assert forall i | 0 <= i < |w| :: IsKeptChar(ws[0][i]);
      SpacedJoin(w, Join(rest, " "));
    }
  }

  /** A word, a space and a non-empty normalised string make a normalised
      string. */
  lemma SpacedJoin(w: string, j: string)
    requires IsWord(w) && forall i | 0 <= i < |w| :: IsKeptChar(w[i])
    requires IsNormalized(j) && j != []
    ensures IsNormalized(w + " " + j)
  {
    var r := w + " " + j;
    forall i | 0 <= i < |r| ensures IsKeptChar(r[i]) {
      if i < |w| {
        assert r[i] == w[i];
      } else if i > |w| {
        assert r[i] == j[i - |w| - 1];
      }
    }
    forall i | 0 <= i < |r| - 1 ensures !(r[i] == ' ' && r[i + 1] == ' ') {
      if i < |w| - 1 {
        assert r[i] == w[i];
      } else if i == |w| - 1 {
        assert r[i] == w[|w| - 1];
      } else if i == |w| {
        assert r[i + 1] == j[0];
      } else {
        assert r[i] == j[i - |w| - 1] && r[i + 1] == j[i - |w|];
      }
    }
    assert r[0] == w[0];
    assert r[|r| - 1] == j[|j| - 1];
  }

  /** `' '.join(text.split())` cuts `w + ' ' + rest` after `w`. */
  lemma {:induction false} WordPrefixOfWord(w: string, tail: string)
    requires IsWord(w)
    requires tail == [] || IsSpace(tail[0])
    ensures WordPrefix(w + tail) == w
    decreases |w|
  {
    if |w| == 1 {
      assert (w + tail)[1..] == tail;
    } else {
      assert (w + tail)[1..] == w[1..] + tail;
      WordPrefixOfWord(w[1..], tail);
    }
  }

  /** Splitting a single-space join of words gives the words back. */
  lemma {:induction false} WordsOfJoin(ws: seq<string>)
    requires forall k | 0 <= k < |ws| :: IsWord(ws[k])
    ensures Words(Join(ws, " ")) == ws
    decreases |ws|
  {
    if |ws| == 0 {
    } else if |ws| == 1 {
      WordPrefixOfWord(ws[0], []);
      assert ws[0] + [] == ws[0];
      assert ws[0][|ws[0]|..] == [];
    } else {
      var w, rest := ws[0], ws[1..];
      var j := Join(rest, " ");
      var s := w + " " + j;
      assert Join(ws, " ") == s;
      WordPrefixOfWord(w, " " + j);
      assert w + " " + j == w + (" " + j);
      assert s[|w|..] == " " + j;
      assert (" " + j)[1..] == j;
      WordsOfJoin(rest);
      assert Words(s) == [w] + Words(" " + j);
      assert Words(" " + j) == Words(j);
    }
  }

  /** `normalize_string`: empty input gives ""; otherwise lowercase, replace
      the punctuation class by spaces, and collapse whitespace. */
  function NormalizeString(text: string): (r: string)
  {
    if text == "" then "" else Join(Words(Depunct(Lower(text))), " ")
  }

  /** Every output of `normalize_string` is lowercase, free of the punctuation
      class, and has no leading, trailing or doubled spaces. */
  lemma NormalizeShape(text: string)
    ensures IsNormalized(NormalizeString(text))
  {
    if text != "" {
      var s := Depunct(Lower(text));
      assert forall i | 0 <= i < |s| :: !IsUpper(s[i]) && !IsPunct(s[i]);
      WordsShape(s);
      var ws := Words(s);
      forall k, i | 0 <= k < |ws| && 0 <= i < |ws[k]| ensures IsKeptChar(ws[k][i]) {
        assert ws[k][i] in s;
      }
      JoinWordsShape(ws);
    }
  }

  lemma LowerOfLowercase(s: string)
    requires forall i | 0 <= i < |s| :: !IsUpper(s[i])
    ensures Lower(s) == s
  {
  }

  lemma DepunctOfClean(s: string)
    requires forall i | 0 <= i < |s| :: !IsPunct(s[i])
    ensures Depunct(s) == s
  {
  }

  /** Normalising twice is normalising once. */
  lemma NormalizeIdempotent(text: string)
    ensures NormalizeString(NormalizeString(text)) == NormalizeString(text)
  {
    var n := NormalizeString(text);
    if text != "" && n != "" {
      var s := Depunct(Lower(text));
      var ws := Words(s);
      WordsShape(s);
      NormalizeShape(text);
      LowerOfLowercase(n);
      DepunctOfClean(n);
      WordsOfJoin(ws);
    }
  }

  // ---------------------------------------------------------- fuzzy matching

  const DefaultThreshold: real := 0.8

  /** `max(3, int(len(target) * 0.4))`. The float 0.4 lies slightly above 2/5
      and rounding is monotone, so the truncation equals (2 * n) / 5 for every
      length that fits a string. */
  function MinLength(targetLen: nat): (m: nat)
    ensures m >= 3
    ensures m * 5 >= 2 * targetLen - 4
    ensures 2 * targetLen < 20 ==> m == 3
    ensures 2 * targetLen >= 20 ==> 5 * m <= 2 * targetLen < 5 * m + 5
  {
    if (2 * targetLen) / 5 > 3 then (2 * targetLen) / 5 else 3
  }

  /** A similarity measure in the sense of difflib's `ratio()`: a value in [0, 1]. */
  ghost predicate IsRatio(ratio: (string, string) -> real)
  {
    forall a, b :: 0.0 <= ratio(a, b) <= 1.0
  }

  /** `fuzzy_match(guess, target, threshold)`, with difflib's similarity
      supplied as `ratio`. */
  predicate FuzzyMatch(ratio: (string, string) -> real, guess: string, target: string, threshold: real)
  {
    var g := NormalizeString(guess);
    var t := NormalizeString(target);
    if g == "" || t == "" then false
    else if |g| < MinLength(|t|) then false
    else if Contains(t, g) then true
    else if Contains(g, t) then true
    else ratio(g, t) >= threshold
  }

  /** The decision table of `fuzzy_match`: empty normalised strings and guesses
      below the length floor are rejected whatever their content; a guess past
      the floor is accepted when either normalised string contains the other,
      and otherwise exactly when the similarity reaches the threshold. */
  lemma FuzzyMatchSpec(ratio: (string, string) -> real, guess: string, target: string, threshold: real)
    ensures var g, t := NormalizeString(guess), NormalizeString(target);
      && (g == "" || t == "" ==> !FuzzyMatch(ratio, guess, target, threshold))
      && (|g| < MinLength(|t|) ==> !FuzzyMatch(ratio, guess, target, threshold))
      && (g != "" && t != "" && |g| >= MinLength(|t|) && (Contains(t, g) || Contains(g, t))
          ==> FuzzyMatch(ratio, guess, target, threshold))
      && (g != "" && t != "" && |g| >= MinLength(|t|) && !Contains(t, g) && !Contains(g, t)
          ==> (FuzzyMatch(ratio, guess, target, threshold) <==> ratio(g, t) >= threshold))
  {
  }

  /** A target whose normalised form is shorter than 3 characters never
      matches itself, and any guess it does match normalises to something
      strictly longer than it. */
  lemma ShortTargetNeverMatchesItself(ratio: (string, string) -> real, guess: string, target: string, threshold: real)
    requires |NormalizeString(target)| < 3
    ensures !FuzzyMatch(ratio, target, target, threshold)
    ensures FuzzyMatch(ratio, guess, target, threshold) ==> |NormalizeString(guess)| > |NormalizeString(target)|
  {
  }

  /** A guess of at most two normalised characters never matches. */
  lemma ShortGuessNeverMatches(ratio: (string, string) -> real, guess: string, target: string, threshold: real)
    requires |NormalizeString(guess)| < 3
    ensures !FuzzyMatch(ratio, guess, target, threshold)
  {
  }

  /** A target of normalised length at least 3 matches itself, whatever the
      similarity measure and threshold. */
  lemma SelfMatch(ratio: (string, string) -> real, target: string, threshold: real)
    requires |NormalizeString(target)| >= 3
    ensures FuzzyMatch(ratio, target, target, threshold)
  {
    var t := NormalizeString(target);
    ContainsSelf(t);
  }

  /** The matcher sees guesses only through their normal form. */
  lemma FuzzyMatchNormalizedGuess(ratio: (string, string) -> real, guess: string, target: string, threshold: real)
    ensures FuzzyMatch(ratio, NormalizeString(guess), target, threshold) == FuzzyMatch(ratio, guess, target, threshold)
  {
    NormalizeIdempotent(guess);
  }

  /** With a proper similarity measure, a threshold above 1 leaves only the
      substring rules, and one at or below 0 accepts every guess past the floor. */
  lemma ThresholdExtremes(ratio: (string, string) -> real, guess: string, target: string, threshold: real)
    requires IsRatio(ratio)
    ensures var g, t := NormalizeString(guess), NormalizeString(target);
      && (threshold > 1.0 ==> (FuzzyMatch(ratio, guess, target, threshold)
            <==> g != "" && t != "" && |g| >= MinLength(|t|) && (Contains(t, g) || Contains(g, t))))
      && (threshold <= 0.0 ==> (FuzzyMatch(ratio, guess, target, threshold)
            <==> g != "" && t != "" && |g| >= MinLength(|t|)))
  {
    var g, t := NormalizeString(guess), NormalizeString(target);
    assert 0.0 <= ratio(g, t) <= 1.0;
  }

  // ------------------------------------------------------- difficulty guesses

  predicate IsDigit(c: char) { '0' <= c <= '9' }

  /** A run of ASCII digits, with single underscores allowed between digits
      (the grammar of Python's `float()` for each digit group). */
  predicate IsDigitRun(s: string)
  {
    && s != [] && IsDigit(s[0]) && IsDigit(s[|s| - 1])
    && (forall i | 0 <= i < |s| :: IsDigit(s[i]) || s[i] == '_')
    && (forall i | 0 <= i < |s| - 1 :: !(s[i] == '_' && s[i + 1] == '_'))
  }

  /** The value of a digit run, read left to right; underscores are skipped. */
  function DigitsValue(s: string): (v: nat)
    requires forall i | 0 <= i < |s| :: IsDigit(s[i]) || s[i] == '_'
    decreases |s|
  {
    if s == [] then 0
    else if s[|s| - 1] == '_' then DigitsValue(s[..|s| - 1])
    else
      assert IsDigit(s[|s| - 1]);
      DigitsValue(s[..|s| - 1]) * 10 + (s[|s| - 1] as int - '0' as int)
  }

  /** The number of digits of a run, underscores not counted. */
  function DigitCount(s: string): nat
  {
    if s == [] then 0 else (if IsDigit(s[0]) then 1 else 0) + DigitCount(s[1..])
  }

  function Pow10(n: nat): (p: real)
    ensures p >= 1.0
  {
    if n == 0 then 1.0 else 10.0 * Pow10(n - 1)
  }

  /** Strip one leading sign, giving the sign's factor. */
  function SplitSign(s: string): (real, string)
  {
    if s != [] && s[0] == '-' then (-1.0, s[1..])
    else if s != [] && s[0] == '+' then (1.0, s[1..])
    else (1.0, s)
  }

  /** The mantissa `int[.frac]`, `int.` or `.frac`. */
  function ParseMantissa(m: string): Option<real>
  {
    var dot := IndexOf(m, '.');
    var intPart := m[..dot];
    var fracPart := if dot < |m| then m[dot + 1..] else "";
    if intPart == "" && fracPart == "" then None
    else if intPart != "" && !IsDigitRun(intPart) then None
    else if fracPart != "" && !IsDigitRun(fracPart) then None
    else Some(DigitsValue(intPart) as real + DigitsValue(fracPart) as real / Pow10(DigitCount(fracPart)))
  }

  /** Python's `float()` for the decimal forms `[sign] mantissa [e [sign]
      digits]` with ASCII digits and single underscores between digits, read
      from a string without surrounding white space. The forms `inf` and `nan`
      are read as failures: every comparison the matcher makes with them is
      false, exactly as for an unparseable guess. */
  function ParseNumber(s: string): Option<real>
  {
    var (sign, body) := SplitSign(s);
    var e := if IndexOf(body, 'e') < |body| then IndexOf(body, 'e') else IndexOf(body, 'E');
    var mant := body[..e];
    match ParseMantissa(mant)
    case None => None
    case Some(m) =>
      if e == |body| then Some(sign * m)
      else
        var (esign, edigits) := SplitSign(body[e + 1..]);
        if !IsDigitRun(edigits) then None
        else if esign > 0.0 then Some(sign * m * Pow10(DigitsValue(edigits)))
        else Some(sign * m / Pow10(DigitsValue(edigits)))
  }

  /** Python's `float()`: the white space around the number is ignored. */
  function ParseFloat(s: string): Option<real>
  {
    ParseNumber(Strip(s))
  }

  /** `guess.strip().replace(',', '.').replace('+', '')`. */
  function CleanDifficultyGuess(guess: string): (r: string)
    ensures forall i | 0 <= i < |r| :: r[i] != '+' && r[i] != ','
  {
    RemoveChar(ReplaceChar(Strip(guess), ',', '.'), '+')
  }

  function Abs(x: real): real { if x < 0.0 then -x else x }

  /** `check_difficulty(guess, song, exact_only)` against the song's level. */
  predicate CheckDifficulty(guess: string, level: real, exactOnly: bool)
  {
    match ParseFloat(CleanDifficultyGuess(guess))
    case None => false
    case Some(g) => if exactOnly then Abs(g - level) < 0.01 else Abs(g - level) <= 0.5
  }

  /** What `check_difficulty` decides: no number, no match; exact mode accepts
      within 0.01 of the level, tolerant mode within 0.5; an exact match is
      always a tolerant one. */
  lemma CheckDifficultySpec(guess: string, level: real)
    ensures ParseFloat(CleanDifficultyGuess(guess)).None? ==>
      !CheckDifficulty(guess, level, true) && !CheckDifficulty(guess, level, false)
    ensures ParseFloat(CleanDifficultyGuess(guess)).Some? ==>
      var g := ParseFloat(CleanDifficultyGuess(guess)).value;
      && (CheckDifficulty(guess, level, true) <==> -0.01 < g - level < 0.01)
      && (CheckDifficulty(guess, level, false) <==> -0.5 <= g - level <= 0.5)
    ensures CheckDifficulty(guess, level, true) ==> CheckDifficulty(guess, level, false)
  {
  }

  lemma MantissaThirteenSeven()
    ensures ParseMantissa("13.7") == Some(13.7)
  {
    assert IndexOf("13.7", '.') == 2 by {
      assert "13.7"[1..] == "3.7" && "3.7"[1..] == ".7";
    }
    assert "13.7"[..2] == "13" && "13.7"[3..] == "7";
    assert "13"[..1] == "1" && "1"[..0] == "";
    assert DigitsValue("13") == 13;
    assert "7"[..0] == "" && "7"[1..] == "";
    assert DigitsValue("7") == 7 && DigitCount("7") == 1;
  }

  lemma ParseThirteenSeven()
    ensures ParseNumber("13.7") == Some(13.7)
  {
    assert SplitSign("13.7") == (1.0, "13.7");
    IndexOfAbsent("13.7", 'e');
    IndexOfAbsent("13.7", 'E');
    assert "13.7"[..4] == "13.7";
    MantissaThirteenSeven();
  }

  lemma ParseThirteen()
    ensures ParseNumber("13") == Some(13.0)
  {
    assert SplitSign("13") == (1.0, "13");
    IndexOfAbsent("13", 'e');
    IndexOfAbsent("13", 'E');
    IndexOfAbsent("13", '.');
    assert "13"[..2] == "13" && "13"[..1] == "1" && "1"[..0] == "";
    assert DigitsValue("13") == 13;
    assert ParseMantissa("13") == Some(13.0);
  }

  lemma MantissaThirteenEight()
    ensures ParseMantissa("13.8") == Some(13.8)
  {
    assert IndexOf("13.8", '.') == 2 by {
      assert "13.8"[1..] == "3.8" && "3.8"[1..] == ".8";
    }
    assert "13.8"[..2] == "13" && "13.8"[3..] == "8";
    assert "13"[..1] == "1" && "1"[..0] == "";
    assert DigitsValue("13") == 13;
    assert "8"[..0] == "" && "8"[1..] == "";
    assert DigitsValue("8") == 8 && DigitCount("8") == 1;
  }

  lemma ParseThirteenEight()
    ensures ParseNumber("13.8") == Some(13.8)
  {
    assert SplitSign("13.8") == (1.0, "13.8");
    IndexOfAbsent("13.8", 'e');
    IndexOfAbsent("13.8", 'E');
    assert "13.8"[..4] == "13.8";
    MantissaThirteenEight();
  }

  lemma StripUnpadded(s: string)
    requires s != [] && !IsSpace(s[0]) && !IsSpace(s[|s| - 1])
    ensures Strip(s) == s
  {
  }

  lemma {:induction false} RemoveAbsent(s: string, c: char)
    requires c !in s
    ensures RemoveChar(s, c) == s
    decreases |s|
  {
    if s != [] { RemoveAbsent(s[1..], c); }
  }

  lemma ReplaceAbsent(s: string, from: char, to: char)
    requires from !in s
    ensures ReplaceChar(s, from, to) == s
  {
  }

  /** A guess without padding, comma or plus is read as typed. */
  lemma CleanUntouched(s: string)
    requires s != [] && !IsSpace(s[0]) && !IsSpace(s[|s| - 1])
    requires ',' !in s && '+' !in s
    ensures CleanDifficultyGuess(s) == s && Strip(s) == s
  {
    StripUnpadded(s);
    ReplaceAbsent(s, ',', '.');
    RemoveAbsent(s, '+');
  }

  lemma StripCommaGuess()
    ensures Strip(" 13,7 ") == "13,7"
  {
    var padded, left, bare := " 13,7 ", "13,7 ", "13,7";
    assert padded[1..] == left;
    assert IsSpace(padded[0]) && !IsSpace(left[0]);
    assert StripLeft(padded) == left;
    assert left[..4] == bare;
    assert IsSpace(left[4]) && !IsSpace(bare[3]);
    assert StripRight(left) == bare;
  }

  lemma CleanCommaGuess()
    ensures CleanDifficultyGuess(" 13,7 ") == "13.7"
  {
    StripCommaGuess();
    ReplaceCommaGuess();
    RemoveNoPlus();
  }

  lemma ReplaceCommaGuess()
    ensures ReplaceChar("13,7", ',', '.') == "13.7"
  {
  }

  lemma RemoveNoPlus()
    ensures RemoveChar("13.7", '+') == "13.7"
  {
    RemoveAbsent("13.7", '+');
  }

  lemma StripThirteenSeven()
    ensures Strip("13.7") == "13.7"
  {
    StripUnpadded("13.7");
  }

  lemma RemovePlus()
    ensures RemoveChar("13+", '+') == "13"
  {
    assert "13+"[1..] == "3+" && "3+"[1..] == "+" && "+"[1..] == "";
  }

  lemma StripPlusGuess()
    ensures Strip("13+") == "13+"
  {
    StripUnpadded("13+");
  }

  lemma ReplacePlusGuess()
    ensures ReplaceChar("13+", ',', '.') == "13+"
  {
    ReplaceAbsent("13+", ',', '.');
  }

  lemma CleanPlusGuess()
    ensures CleanDifficultyGuess("13+") == "13"
  {
    StripPlusGuess();
    ReplacePlusGuess();
    RemovePlus();
  }

  lemma WordIsNoMantissa()
    ensures ParseMantissa("t") == None
  {
    assert IndexOf("t", '.') == 1;
    assert "t"[..1] == "t";
  }

  lemma WordIsNoNumber()
    ensures ParseNumber("ten") == None
  {
    WordIsNoMantissa();
    assert SplitSign("ten") == (1.0, "ten");
    assert IndexOf("ten", 'e') == 1 by {
      assert "ten"[1..] == "en";
    }
    assert "ten"[..1] == "t";
  }

  /** A plus typed after a blank leaves the blank at the end of the cleaned
      guess, and `float()` strips it again. */
  lemma CleanSpacedPlus()
    ensures CleanDifficultyGuess("13 +") == "13 "
  {
    StripSpacedPlus();
    ReplaceSpacedPlus();
    RemoveSpacedPlus();
  }

  lemma ReplaceSpacedPlus()
    ensures ReplaceChar("13 +", ',', '.') == "13 +"
  {
    ReplaceAbsent("13 +", ',', '.');
  }

  lemma StripSpacedPlus()
    ensures Strip("13 +") == "13 +"
  {
    StripUnpadded("13 +");
  }

  lemma RemoveSpacedPlus()
    ensures RemoveChar("13 +", '+') == "13 "
  {
    assert "13 +"[1..] == "3 +" && "3 +"[1..] == " +" && " +"[1..] == "+" && "+"[1..] == "";
  }

  lemma StripTrailingBlank()
    ensures Strip("13 ") == "13"
  {
    assert StripLeft("13 ") == "13 ";
    assert "13 "[..2] == "13";
    assert StripRight("13 ") == "13";
  }

  lemma MantissaUnderscored()
    ensures ParseMantissa("1_3.7") == Some(13.7)
  {
    assert IndexOf("1_3.7", '.') == 3 by {
      assert "1_3.7"[1..] == "_3.7" && "_3.7"[1..] == "3.7" && "3.7"[1..] == ".7";
    }
    assert "1_3.7"[..3] == "1_3" && "1_3.7"[4..] == "7";
    assert IsDigitRun("1_3");
    assert "1_3"[..2] == "1_" && "1_"[..1] == "1" && "1"[..0] == "";
    assert DigitsValue("1_3") == 13;
    assert "7"[..0] == "" && "7"[1..] == "";
    assert DigitsValue("7") == 7 && DigitCount("7") == 1;
  }

  lemma ParseUnderscored()
    ensures ParseNumber("1_3.7") == Some(13.7)
  {
    assert SplitSign("1_3.7") == (1.0, "1_3.7");
    IndexOfAbsent("1_3.7", 'e');
    IndexOfAbsent("1_3.7", 'E');
    assert "1_3.7"[..5] == "1_3.7";
    MantissaUnderscored();
  }

  lemma SpacedPlusGuessAccepted()
    ensures CheckDifficulty("13 +", 13.0, true)
  {
    CleanSpacedPlus();
    StripTrailingBlank();
    ParseThirteen();
    ReadAs("13 +", "13 ", "13", 13.0, 13.0, true);
  }

  lemma UnderscoreGuessAccepted()
    ensures CheckDifficulty("1_3.7", 13.7, true)
  {
    assert CleanDifficultyGuess("1_3.7") == "1_3.7" && Strip("1_3.7") == "1_3.7" by {
      CleanUntouched("1_3.7");
    }
    ParseUnderscored();
    ReadAs("1_3.7", "1_3.7", "1_3.7", 13.7, 13.7, true);
  }

  /** A guess that cleans to `t`, which `float()` reads as `x`, is judged
      by `x`. */
  lemma ReadAs(guess: string, t: string, n: string, x: real, level: real, exactOnly: bool)
    requires CleanDifficultyGuess(guess) == t && Strip(t) == n && ParseNumber(n) == Some(x)
    ensures CheckDifficulty(guess, level, exactOnly) == if exactOnly then Abs(x - level) < 0.01 else Abs(x - level) <= 0.5
  {
  }

  /** A guess that cleans to `t`, which `float()` refuses, never matches. */
  lemma ReadAsNothing(guess: string, t: string, n: string, level: real, exactOnly: bool)
    requires CleanDifficultyGuess(guess) == t && Strip(t) == n && ParseNumber(n) == None
    ensures !CheckDifficulty(guess, level, exactOnly)
  {
  }

  lemma StripThirteen()
    ensures Strip("13") == "13"
  {
    StripUnpadded("13");
  }

  lemma ExactGuessAccepted()
    ensures CheckDifficulty("13.7", 13.7, true)
  {
    assert CleanDifficultyGuess("13.7") == "13.7" && Strip("13.7") == "13.7" by {
      CleanUntouched("13.7");
    }
    ParseThirteenSeven();
    ReadAs("13.7", "13.7", "13.7", 13.7, 13.7, true);
  }

  lemma CommaGuessAccepted()
    ensures CheckDifficulty(" 13,7 ", 13.7, true)
  {
    CleanCommaGuess();
    StripThirteenSeven();
    ParseThirteenSeven();
    ReadAs(" 13,7 ", "13.7", "13.7", 13.7, 13.7, true);
  }

  lemma PlusGuessAccepted()
    ensures CheckDifficulty("13+", 13.0, true)
  {
    CleanPlusGuess();
    StripThirteen();
    ParseThirteen();
    ReadAs("13+", "13", "13", 13.0, 13.0, true);
  }

  lemma NearGuessTolerated()
    ensures !CheckDifficulty("13.8", 13.7, true) && CheckDifficulty("13.8", 13.7, false)
  {
    assert CleanDifficultyGuess("13.8") == "13.8" && Strip("13.8") == "13.8" by {
      CleanUntouched("13.8");
    }
    ParseThirteenEight();
    ReadAs("13.8", "13.8", "13.8", 13.8, 13.7, true);
    ReadAs("13.8", "13.8", "13.8", 13.8, 13.7, false);
  }

  lemma WordGuessRejected()
    ensures !CheckDifficulty("ten", 10.0, false)
  {
    assert CleanDifficultyGuess("ten") == "ten" && Strip("ten") == "ten" by {
      CleanUntouched("ten");
    }
    WordIsNoNumber();
    ReadAsNothing("ten", "ten", "ten", 10.0, false);
  }

  /** Guesses as players type them: a comma for the decimal point, surrounding
      blanks and a trailing plus are accepted; exact mode tells 13.8 from 13.7
      where tolerant mode does not; a word is no number. A blank left before
      a deleted plus and an underscore between digits are accepted, as
      `float()` accepts them. */
  lemma DifficultyExamples()
    ensures CheckDifficulty("13.7", 13.7, true)
    ensures CheckDifficulty(" 13,7 ", 13.7, true)
    ensures CheckDifficulty("13+", 13.0, true)
    ensures CheckDifficulty("13 +", 13.0, true)
    ensures CheckDifficulty("1_3.7", 13.7, true)
    ensures !CheckDifficulty("13.8", 13.7, true) && CheckDifficulty("13.8", 13.7, false)
    ensures !CheckDifficulty("ten", 10.0, false)
  {
    ExactGuessAccepted();
    CommaGuessAccepted();
    PlusGuessAccepted();
    SpacedPlusGuessAccepted();
    UnderscoreGuessAccepted();
    NearGuessTolerated();
    WordGuessRejected();
  }

  // ----------------------------------------------------------------- dispatch

  /** `check_answer(guess, song, answer_type, threshold)`. */
  predicate CheckAnswer(ratio: (string, string) -> real, guess: string, song: Song, answerType: string, threshold: real)
  {
    if answerType == "title" then
      || FuzzyMatch(ratio, guess, song.title, threshold)
      || (song.romaji != "" && FuzzyMatch(ratio, guess, song.romaji, threshold))
      || (song.english != "" && FuzzyMatch(ratio, guess, song.english, threshold))
    else if answerType == "artist" then FuzzyMatch(ratio, guess, song.artist, threshold)
    else if answerType == "difficulty" then CheckDifficulty(guess, song.level, true)
    else false
  }

  /** The dispatch of `check_answer`: a title guess may match the title, the
      romaji or the English name (the emptiness guards change nothing, since
      an empty target never matches); an artist guess only the artist; a
      difficulty guess goes to the exact numeric check; any other answer type
      is rejected. */
  lemma CheckAnswerSpec(ratio: (string, string) -> real, guess: string, song: Song, answerType: string, threshold: real)
    ensures answerType == "title" ==> (CheckAnswer(ratio, guess, song, answerType, threshold) <==>
      FuzzyMatch(ratio, guess, song.title, threshold) || FuzzyMatch(ratio, guess, song.romaji, threshold)
      || FuzzyMatch(ratio, guess, song.english, threshold))
    ensures answerType == "artist" ==> (CheckAnswer(ratio, guess, song, answerType, threshold) <==>
      FuzzyMatch(ratio, guess, song.artist, threshold))
    ensures answerType == "difficulty" ==> (CheckAnswer(ratio, guess, song, answerType, threshold) <==>
      CheckDifficulty(guess, song.level, true))
    ensures answerType != "title" && answerType != "artist" && answerType != "difficulty" ==>
      !CheckAnswer(ratio, guess, song, answerType, threshold)
  {
  }

  /** Typing a song's own title, romaji or English name wins a title round,
      provided that name normalises to at least 3 characters. */
  lemma OwnNamesAccepted(ratio: (string, string) -> real, song: Song, threshold: real)
    ensures |NormalizeString(song.title)| >= 3 ==> CheckAnswer(ratio, song.title, song, "title", threshold)
    ensures |NormalizeString(song.romaji)| >= 3 ==> CheckAnswer(ratio, song.romaji, song, "title", threshold)
    ensures |NormalizeString(song.english)| >= 3 ==> CheckAnswer(ratio, song.english, song, "title", threshold)
    ensures |NormalizeString(song.artist)| >= 3 ==> CheckAnswer(ratio, song.artist, song, "artist", threshold)
  {
    if |NormalizeString(song.title)| >= 3 { SelfMatch(ratio, song.title, threshold); }
    if |NormalizeString(song.romaji)| >= 3 { SelfMatch(ratio, song.romaji, threshold); }
    if |NormalizeString(song.english)| >= 3 { SelfMatch(ratio, song.english, threshold); }
    if |NormalizeString(song.artist)| >= 3 { SelfMatch(ratio, song.artist, threshold); }
  }
}
