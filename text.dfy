/** String helpers shared by every module: the parts of Python's `str` API the
    repository relies on (`lower`, `strip`, `split`, `replace`, `in`, `count`),
    stated over `seq<char>`. */
module Text {
  import Records

  /** Python's `str.isspace()` set: the ASCII controls 0x09..0x0D and 0x1C..0x1F,
      the space, and the Unicode separators 0x85, 0xA0, 0x1680, 0x2000..0x200A,
      0x2028, 0x2029, 0x202F, 0x205F and 0x3000 (the ideographic space). */
  predicate IsSpace(c: char)
  {
    var n := c as int;
    n == 32 || (9 <= n <= 13) || (28 <= n <= 31) || n == 0x85 || n == 0xA0 || n == 0x1680
    || (0x2000 <= n <= 0x200A) || n == 0x2028 || n == 0x2029 || n == 0x202F || n == 0x205F
    || n == 0x3000
  }

  predicate IsUpper(c: char) { 'A' <= c <= 'Z' }

  /** `str.lower()` on one character, restricted to ASCII letters. */
  function LowerChar(c: char): (r: char)
    ensures !IsUpper(r)
    ensures IsUpper(c) ==> r as int == c as int + 32
    ensures !IsUpper(c) ==> r == c
  {
    if IsUpper(c) then (c as int + 32) as char else c
  }

  function Lower(s: string): (r: string)
    ensures |r| == |s|
    ensures forall i | 0 <= i < |s| :: r[i] == LowerChar(s[i])
  {
    if s == [] then [] else [LowerChar(s[0])] + Lower(s[1..])
  }

  lemma {:induction false} LowerIdempotent(s: string)
    ensures Lower(Lower(s)) == Lower(s)
  {
    var l := Lower(s);
    assert Lower(l) == l by {
      forall i | 0 <= i < |l| ensures Lower(l)[i] == l[i] {
        assert l[i] == LowerChar(s[i]);
      }
    }
  }

  predicate AllAscii(s: string)
  {
    forall i | 0 <= i < |s| :: s[i] as int < 128
  }

  // --- prefixes and substrings (Python's `in` on strings) ---

  predicate IsPrefix(p: string, s: string)
  {
    |p| <= |s| && s[..|p|] == p
  }

  /** `sub in s`. */
  predicate Contains(s: string, sub: string)
    decreases |s|
  {
    IsPrefix(sub, s) || (s != [] && Contains(s[1..], sub))
  }

  /** A string none of whose characters starts `sub` does not contain it. */
  lemma {:induction false} NotContainsFirst(s: string, sub: string)
    requires sub != [] && sub[0] !in s
    ensures !Contains(s, sub)
    decreases |s|
  {
    if s != [] {
      assert s[1..][0..] == s[1..];
      NotContainsFirst(s[1..], sub);
    }
  }

  /** An occurrence of `sub` starting at index `i` of `s`. */
  predicate OccursAt(s: string, sub: string, i: int)
  {
    0 <= i && i + |sub| <= |s| && s[i..i + |sub|] == sub
  }

  lemma {:induction false} ContainsIffOccurs(s: string, sub: string)
    ensures Contains(s, sub) <==> exists i :: OccursAt(s, sub, i)
    decreases |s|
  {
    if IsPrefix(sub, s) {
      assert OccursAt(s, sub, 0);
    } else if s == [] {
    } else {
      ContainsIffOccurs(s[1..], sub);
      if exists i :: OccursAt(s[1..], sub, i) {
        var i :| OccursAt(s[1..], sub, i);
        assert s[1..][i..i + |sub|] == s[i + 1..i + 1 + |sub|];
        assert OccursAt(s, sub, i + 1);
      }
      if exists i :: OccursAt(s, sub, i) {
        var i :| OccursAt(s, sub, i);
        assert i != 0;
        assert s[1..][i - 1..i - 1 + |sub|] == s[i..i + |sub|];
        assert OccursAt(s[1..], sub, i - 1);
      }
    }
  }

  lemma ContainsSelf(s: string)
    ensures Contains(s, s)
  {
    assert IsPrefix(s, s);
  }

  /** Anything occurring in a part of a concatenation occurs in the whole. */
  lemma ContainsInConcat(a: string, b: string, sub: string)
    requires Contains(a, sub) || Contains(b, sub)
    ensures Contains(a + b, sub)
  {
    ContainsIffOccurs(a, sub);
    ContainsIffOccurs(b, sub);
    ContainsIffOccurs(a + b, sub);
    if Contains(a, sub) {
      var i :| OccursAt(a, sub, i);
      assert (a + b)[i..i + |sub|] == a[i..i + |sub|];
      assert OccursAt(a + b, sub, i);
    } else {
      var i :| OccursAt(b, sub, i);
      assert (a + b)[|a| + i..|a| + i + |sub|] == b[i..i + |sub|];
      assert OccursAt(a + b, sub, |a| + i);
    }
  }

  /** `s.count(c)` for a one-character `c`. */
  function CountChar(s: string, c: char): (n: nat)
    ensures n <= |s|
  {
    if s == [] then 0 else (if s[0] == c then 1 else 0) + CountChar(s[1..], c)
  }

  // --- replace ---

  /** `s.replace(pat, rep)`: every non-overlapping occurrence of `pat`, scanned
      left to right, is replaced by `rep`. Python's empty-pattern case is never
      used by the repository and is excluded. */
  function ReplaceAll(s: string, pat: string, rep: string): string
    requires |pat| > 0
    decreases |s|
  {
    if |s| < |pat| then s
    else if s[..|pat|] == pat then rep + ReplaceAll(s[|pat|..], pat, rep)
    else [s[0]] + ReplaceAll(s[1..], pat, rep)
  }

  lemma {:induction false} ReplaceAllSameLength(s: string, pat: string, rep: string)
    requires |pat| > 0 && |rep| == |pat|
    ensures |ReplaceAll(s, pat, rep)| == |s|
    decreases |s|
  {
    if |s| < |pat| {
    } else if s[..|pat|] == pat {
      ReplaceAllSameLength(s[|pat|..], pat, rep);
    } else {
      ReplaceAllSameLength(s[1..], pat, rep);
    }
  }

  lemma {:induction false} ReplaceAllAbsent(s: string, pat: string, rep: string)
    requires |pat| > 0 && !Contains(s, pat)
    ensures ReplaceAll(s, pat, rep) == s
    decreases |s|
  {
    if |s| >= |pat| {
      assert !IsPrefix(pat, s);
      ReplaceAllAbsent(s[1..], pat, rep);
    }
  }

  /** An occurrence in the tail of `s` is an occurrence in `s`, one index later. */
  lemma OccursAtTail(s: string, sub: string, i: int)
    requires s != [] && 0 <= i
    ensures OccursAt(s[1..], sub, i) <==> OccursAt(s, sub, i + 1)
  {
    if i + |sub| <= |s| - 1 {
      assert s[1..][i..i + |sub|] == s[i + 1..i + 1 + |sub|];
    }
  }

  /** When no occurrence of `pat` starts inside `x`, replacing in `x + pat`
      touches only the final `pat`. */
  lemma {:induction false} ReplaceAllSuffix(x: string, pat: string, rep: string)
    requires |pat| > 0
    requires forall i | 0 <= i < |x| :: !OccursAt(x + pat, pat, i)
    ensures ReplaceAll(x + pat, pat, rep) == x + rep
    decreases |x|
  {
    var s := x + pat;
    if x == [] {
      assert s == pat;
      assert s[..|pat|] == pat;
      assert s[|pat|..] == [];
    } else {
      assert s[1..] == x[1..] + pat;
      forall i | 0 <= i < |x[1..]| ensures !OccursAt(x[1..] + pat, pat, i) {
        OccursAtTail(s, pat, i);
      }
      ReplaceAllSuffix(x[1..], pat, rep);
      assert !OccursAt(s, pat, 0);
      assert ReplaceAll(s, pat, rep) == [s[0]] + ReplaceAll(s[1..], pat, rep);
      assert [s[0]] + (x[1..] + rep) == x + rep;
    }
  }

  /** `s.replace(from, to)` for one-character strings: every `from` becomes `to`. */
  function ReplaceChar(s: string, from: char, to: char): (r: string)
    ensures |r| == |s|
    ensures forall i | 0 <= i < |s| :: r[i] == (if s[i] == from then to else s[i])
  {
    if s == [] then [] else [if s[0] == from then to else s[0]] + ReplaceChar(s[1..], from, to)
  }

  /** `s.replace(c, '')`: every `c` is deleted. */
  function RemoveChar(s: string, c: char): (r: string)
    ensures forall i | 0 <= i < |r| :: r[i] != c && r[i] in s
  {
    if s == [] then [] else (if s[0] == c then [] else [s[0]]) + RemoveChar(s[1..], c)
  }

  /** Removing a character keeps every other character, in order. */
  lemma {:induction false} RemoveCharKeepsOthers(s: string, c: char)
    ensures RemoveChar(s, c) == Records.Filter(s, (x: char) => x != c)
    decreases |s|
  {
    if s != [] {
      RemoveCharKeepsOthers(s[1..], c);
    }
  }

  /** Replacing a one-character pattern is the character-wise replacement. */
  lemma {:induction false} ReplaceAllSingle(s: string, c: char, d: char)
    ensures ReplaceAll(s, [c], [d]) == ReplaceChar(s, c, d)
    decreases |s|
  {
    if s != [] {
      ReplaceAllSingle(s[1..], c, d);
      assert s[..1] == [s[0]];
      assert ReplaceChar(s, c, d) == [if s[0] == c then d else s[0]] + ReplaceChar(s[1..], c, d);
    }
  }

  // --- strip and split ---

  /** `s.lstrip()`. */
  function StripLeft(s: string): (r: string)
    ensures |r| <= |s| && r == s[|s| - |r|..]
    ensures r == [] || !IsSpace(r[0])
    decreases |s|
  {
    if s != [] && IsSpace(s[0]) then StripLeft(s[1..]) else s
  }

  /** `lstrip` removes white space only. */
  lemma {:induction false} StripLeftOnlySpace(s: string)
    ensures forall k | 0 <= k < |s| - |StripLeft(s)| :: IsSpace(s[k])
    decreases |s|
  {
    if s != [] && IsSpace(s[0]) {
      StripLeftOnlySpace(s[1..]);
      forall k | 1 <= k < |s| - |StripLeft(s)|
        ensures IsSpace(s[k])
      {
        assert s[k] == s[1..][k - 1];
      }
    }
  }

  /** `s.rstrip()`. */
  function StripRight(s: string): (r: string)
    ensures |r| <= |s| && r == s[..|r|]
    ensures r == [] || !IsSpace(r[|r| - 1])
    decreases |s|
  {
    if s != [] && IsSpace(s[|s| - 1]) then StripRight(s[..|s| - 1]) else s
  }

  /** `rstrip` removes white space only. */
  lemma {:induction false} StripRightOnlySpace(s: string)
    ensures forall k | |StripRight(s)| <= k < |s| :: IsSpace(s[k])
    decreases |s|
  {
    if s != [] && IsSpace(s[|s| - 1]) {
      StripRightOnlySpace(s[..|s| - 1]);
    }
  }

  /** `s.strip()`. */
  function Strip(s: string): (r: string)
    ensures r == [] || (!IsSpace(r[0]) && !IsSpace(r[|r| - 1]))
  {
    StripRight(StripLeft(s))
  }

  /** Stripping cuts out a slice of the input and removes only white space
      around it. */
  lemma {:induction false} StripRemovesOnlySpace(s: string)
    ensures var i, r := |s| - |StripLeft(s)|, Strip(s);
      && 0 <= i <= i + |r| <= |s|
      && (forall k | 0 <= k < |r| :: r[k] == s[i + k])
      && (forall k | 0 <= k < i :: IsSpace(s[k]))
      && (forall k | i + |r| <= k < |s| :: IsSpace(s[k]))
  {
    var l := StripLeft(s);
    assert Strip(s) == StripRight(l);
    StripLeftOnlySpace(s);
    StripRightOnlySpace(l);
    InnerSlice(s, l, StripRight(l));
  }

  /** A prefix `r` of a suffix `l` of `s`, with only white space after `r`
      in `l`, sits in `s` at offset `|s| - |l|` with only white space after it. */
  lemma InnerSlice(s: string, l: string, r: string)
    requires |l| <= |s| && l == s[|s| - |l|..]
    requires |r| <= |l| && r == l[..|r|]
    requires forall k | |r| <= k < |l| :: IsSpace(l[k])
    ensures forall k | 0 <= k < |r| :: r[k] == s[|s| - |l| + k]
    ensures forall k | |s| - |l| + |r| <= k < |s| :: IsSpace(s[k])
  {
    var i := |s| - |l|;
    forall k | i + |r| <= k < |s|
      ensures IsSpace(s[k])
    {
      assert s[k] == l[k - i];
    }
  }

  /** `sep.join(parts)`. */
  function Join(parts: seq<string>, sep: string): string
  {
    if |parts| == 0 then ""
    else if |parts| == 1 then parts[0]
    else parts[0] + sep + Join(parts[1..], sep)
  }

  /** `s.split(sep)` for a one-character separator: always at least one piece,
      empty pieces kept. */
  function SplitOn(s: string, sep: char): (parts: seq<string>)
    ensures |parts| >= 1
    decreases |s|
  {
    if s == [] then [""]
    else if s[0] == sep then [""] + SplitOn(s[1..], sep)
    else
      var rest := SplitOn(s[1..], sep);
      [[s[0]] + rest[0]] + rest[1..]
  }

  /** Splitting and joining again with the same separator gives back the input,
      and no piece contains the separator. */
  lemma {:induction false} SplitOnJoin(s: string, sep: char)
    ensures Join(SplitOn(s, sep), [sep]) == s
    ensures forall k, j | 0 <= k < |SplitOn(s, sep)| && 0 <= j < |SplitOn(s, sep)[k]| :: SplitOn(s, sep)[k][j] != sep
    decreases |s|
  {
    if s == [] {
    } else if s[0] == sep {
      SplitOnJoin(s[1..], sep);
      var rest := SplitOn(s[1..], sep);
      assert SplitOn(s, sep) == [""] + rest;
      assert ([""] + rest)[1..] == rest;
    } else {
      SplitOnJoin(s[1..], sep);
      var rest := SplitOn(s[1..], sep);
      var parts := [[s[0]] + rest[0]] + rest[1..];
      assert SplitOn(s, sep) == parts;
      if |rest| == 1 {
        assert Join(rest, [sep]) == rest[0];
      } else {
        assert parts[1..] == rest[1..];
        assert Join(rest, [sep]) == rest[0] + [sep] + Join(rest[1..], [sep]);
      }
      forall k, j | 0 <= k < |parts| && 0 <= j < |parts[k]| ensures parts[k][j] != sep {
        if k == 0 && j > 0 {
          assert parts[0][j] == rest[0][j - 1];
        } else if k > 0 {
          assert parts[k] == rest[k];
        }
      }
    }
  }

  // --- lexicographic order on code points (Python's `<` on `str`) ---

  predicate LexLess(a: string, b: string)
    decreases |a|
  {
    if a == [] then b != []
    else if b == [] then false
    else if a[0] != b[0] then a[0] < b[0]
    else LexLess(a[1..], b[1..])
  }

  lemma {:induction false} LexLessIrreflexive(a: string)
    ensures !LexLess(a, a)
    decreases |a|
  {
    if a != [] { LexLessIrreflexive(a[1..]); }
  }

  lemma {:induction false} LexLessTransitive(a: string, b: string, c: string)
    requires LexLess(a, b) && LexLess(b, c)
    ensures LexLess(a, c)
    decreases |a|
  {
    if a != [] && b != [] && c != [] && a[0] == b[0] && b[0] == c[0] {
      LexLessTransitive(a[1..], b[1..], c[1..]);
    }
  }

  lemma {:induction false} LexLessTotal(a: string, b: string)
    requires a != b
    ensures LexLess(a, b) || LexLess(b, a)
    decreases |a|
  {
    if a != [] && b != [] && a[0] == b[0] {
      assert a == [a[0]] + a[1..] && b == [b[0]] + b[1..];
      LexLessTotal(a[1..], b[1..]);
    }
  }

  lemma {:induction false} LexLessAsymmetric(a: string, b: string)
    requires LexLess(a, b)
    ensures !LexLess(b, a)
    decreases |a|
  {
    if a != [] && b != [] && a[0] == b[0] {
      LexLessAsymmetric(a[1..], b[1..]);
    }
  }
}
