/** The name tables of `utils/constants.py` and the lookup maps built from
    them: every lowercased English alias and every lowercased canonical
    (Japanese) name leads to the canonical name. */
module Constants {
  import opened Text

  /** A table row: the canonical name and its English alias. */
  type Entry = (string, string)

  /** `CATEGORIES`, in dict order. */
  const Categories: seq<Entry> := [
    ("POPS＆アニメ", "pops"),
    ("niconico＆ボーカロイド", "vocaloid"),
    ("東方Project", "touhou"),
    ("ゲーム＆バラエティ", "game"),
    ("maimai", "maimai"),
    ("オンゲキ＆CHUNITHM", "ongeki")
  ]

  /** `VERSIONS`, in dict order. */
  const Versions: seq<Entry> := [
    ("maimai", "maimai"),
    ("maimai PLUS", "maimai plus"),
    ("GreeN", "green"),
    ("GreeN PLUS", "green plus"),
    ("ORANGE", "orange"),
    ("ORANGE PLUS", "orange plus"),
    ("PiNK", "pink"),
    ("PiNK PLUS", "pink plus"),
    ("MURASAKi", "murasaki"),
    ("MURASAKi PLUS", "murasaki plus"),
    ("MiLK", "milk"),
    ("MiLK PLUS", "milk plus"),
    ("FiNALE", "finale"),
    ("maimaiでらっくす", "deluxe"),
    ("maimaiでらっくす PLUS", "deluxe plus"),
    ("Splash", "splash"),
    ("Splash PLUS", "splash plus"),
    ("UNiVERSE", "universe"),
    ("UNiVERSE PLUS", "universe plus"),
    ("FESTiVAL", "festival"),
    ("FESTiVAL PLUS", "festival plus"),
    ("BUDDiES", "buddies"),
    ("BUDDiES PLUS", "buddies plus"),
    ("PRiSM", "prism"),
    ("PRiSM PLUS", "prism plus"),
    ("CiRCLE", "circle"),
    ("宴会場", "banquet"),
    ("うちゅう", "uchuu")
  ]

  /** The canonical names of a table, in order (`table.keys()`). */
  function Canonical(t: seq<Entry>): (ks: seq<string>)
    ensures |ks| == |t|
    ensures forall i | 0 <= i < |t| :: ks[i] == t[i].0
  {
    if t == [] then [] else Canonical(t[..|t| - 1]) + [t[|t| - 1].0]
  }

  /** The dict comprehension `{v.lower(): k for k, v in table.items()}`: a
      later row overwrites an earlier one with the same lowercased alias. */
  function AliasIndex(t: seq<Entry>): map<string, string>
    decreases |t|
  {
    if t == [] then map[] else AliasIndex(t[..|t| - 1])[Lower(t[|t| - 1].1) := t[|t| - 1].0]
  }

  /** `m` after the statements `m[k.lower()] = k` for the canonical names of
      `t`, in order. */
  function WithCanonical(m: map<string, string>, t: seq<Entry>): map<string, string>
    decreases |t|
  {
    if t == [] then m else WithCanonical(m, t[..|t| - 1])[Lower(t[|t| - 1].0) := t[|t| - 1].0]
  }

  /** `CATEGORY_MAPPING` / `VERSION_MAPPING` for a table. */
  function Mapping(t: seq<Entry>): map<string, string>
  {
    WithCanonical(AliasIndex(t), t)
  }

  /** Module start-up: the comprehension, then the loop that inserts every
      lowercased canonical name into the same dict. */
  method BuildMapping(table: seq<Entry>) returns (m: map<string, string>)
    ensures m == Mapping(table)
  {
    m := AliasIndex(table);
    var i := 0;
    while i < |table|
      invariant 0 <= i <= |table|
      invariant m == WithCanonical(AliasIndex(table), table[..i])
    {
      assert table[..i + 1][..i] == table[..i];
      m := m[Lower(table[i].0) := table[i].0];
      i := i + 1;
    }
    assert table[..|table|] == table;
  }

  // ------------------------------------------------------------- properties

  /** Every key of the alias index is a lowercased alias of some row. */
  lemma {:induction false} AliasIndexKeys(t: seq<Entry>)
    ensures forall key | key in AliasIndex(t) :: exists i :: 0 <= i < |t| && key == Lower(t[i].1)
    decreases |t|
  {
    if t != [] {
      var init := t[..|t| - 1];
      AliasIndexKeys(init);
      forall key | key in AliasIndex(t) ensures exists i :: 0 <= i < |t| && key == Lower(t[i].1) {
        if key != Lower(t[|t| - 1].1) {
          assert key in AliasIndex(init);
          var i :| 0 <= i < |init| && key == Lower(init[i].1);
          assert t[i] == init[i];
        }
      }
    }
  }

  /** Every lowercased alias is a key of the alias index. */
  lemma {:induction false} AliasIndexCovers(t: seq<Entry>)
    ensures forall i | 0 <= i < |t| :: Lower(t[i].1) in AliasIndex(t)
    decreases |t|
  {
    if t != [] {
      var init := t[..|t| - 1];
      AliasIndexCovers(init);
      assert forall i | 0 <= i < |init| :: init[i] == t[i];
    }
  }

  /** Every value of the alias index is a canonical name. */
  lemma {:induction false} AliasIndexValues(t: seq<Entry>)
    ensures forall key | key in AliasIndex(t) :: AliasIndex(t)[key] in Canonical(t)
    decreases |t|
  {
    if t != [] {
      var init := t[..|t| - 1];
      AliasIndexValues(init);
      forall key | key in AliasIndex(t) ensures AliasIndex(t)[key] in Canonical(t) {
        if key != Lower(t[|t| - 1].1) {
          assert AliasIndex(t)[key] == AliasIndex(init)[key];
          var i :| 0 <= i < |init| && AliasIndex(init)[key] == Canonical(init)[i];
          assert Canonical(t)[i] == t[i].0 == init[i].0;
        } else {
          assert Canonical(t)[|t| - 1] == t[|t| - 1].0;
        }
      }
    }
  }

  /** What the canonical-name loop adds: exactly the lowercased canonical
      names, each mapped to the last row with that lowercase form. */
  lemma {:induction false} WithCanonicalShape(m: map<string, string>, t: seq<Entry>)
    ensures forall key :: key in WithCanonical(m, t) <==> key in m || exists i :: 0 <= i < |t| && key == Lower(t[i].0)
    ensures forall key | key in WithCanonical(m, t) ::
      (WithCanonical(m, t)[key] in Canonical(t) || (key in m && WithCanonical(m, t)[key] == m[key]))
    decreases |t|
  {
    if t != [] {
      var init := t[..|t| - 1];
      WithCanonicalShape(m, init);
      forall key ensures key in WithCanonical(m, t) <==> key in m || exists i :: 0 <= i < |t| && key == Lower(t[i].0) {
        if exists i :: 0 <= i < |t| && key == Lower(t[i].0) {
          var i :| 0 <= i < |t| && key == Lower(t[i].0);
          if i < |init| { assert init[i] == t[i]; }
        }
        if exists i :: 0 <= i < |init| && key == Lower(init[i].0) {
          var i :| 0 <= i < |init| && key == Lower(init[i].0);
          assert init[i] == t[i];
        }
      }
      forall key | key in WithCanonical(m, t) ensures WithCanonical(m, t)[key] in Canonical(t)
        || (key in m && WithCanonical(m, t)[key] == m[key])
      {
        if key != Lower(t[|t| - 1].0) {
          if WithCanonical(m, init)[key] in Canonical(init) {
            var i :| 0 <= i < |init| && WithCanonical(m, init)[key] == Canonical(init)[i];
            assert Canonical(t)[i] == t[i].0 == init[i].0;
          }
        } else {
          assert Canonical(t)[|t| - 1] == t[|t| - 1].0;
        }
      }
    }
  }

  /** The maps hold exactly the lowercased aliases and canonical names, and
      every value is a canonical name. */
  lemma MappingShape(t: seq<Entry>)
    ensures forall key :: key in Mapping(t) <==> exists i :: 0 <= i < |t| && (key == Lower(t[i].0) || key == Lower(t[i].1))
    ensures forall key | key in Mapping(t) :: Mapping(t)[key] in Canonical(t)
  {
    AliasIndexKeys(t);
    AliasIndexCovers(t);
    AliasIndexValues(t);
    WithCanonicalShape(AliasIndex(t), t);
    forall key ensures key in Mapping(t) <==> exists i :: 0 <= i < |t| && (key == Lower(t[i].0) || key == Lower(t[i].1)) {
      if key in AliasIndex(t) {
        var i :| 0 <= i < |t| && key == Lower(t[i].1);
      }
      if exists i :: 0 <= i < |t| && key == Lower(t[i].0) {
        var i :| 0 <= i < |t| && key == Lower(t[i].0);
      }
    }
  }

  /** The lowercased canonical names of a table are pairwise different. */
  predicate DistinctCanonical(t: seq<Entry>)
  {
    forall i, j | 0 <= i < j < |t| :: Lower(t[i].0) != Lower(t[j].0)
  }

  lemma {:induction false} WithCanonicalLookup(m: map<string, string>, t: seq<Entry>, i: int)
    requires DistinctCanonical(t) && 0 <= i < |t|
    ensures Lower(t[i].0) in WithCanonical(m, t) && WithCanonical(m, t)[Lower(t[i].0)] == t[i].0
    decreases |t|
  {
    if i < |t| - 1 {
      var init := t[..|t| - 1];
      assert init[i] == t[i];
      WithCanonicalLookup(m, init, i);
    }
  }

  lemma {:induction false} AliasIndexLookup(t: seq<Entry>, i: int)
    requires 0 <= i < |t|
    requires forall j | i < j < |t| :: Lower(t[j].1) != Lower(t[i].1)
    ensures Lower(t[i].1) in AliasIndex(t) && AliasIndex(t)[Lower(t[i].1)] == t[i].0
    decreases |t|
  {
    if i < |t| - 1 {
      var init := t[..|t| - 1];
      assert init[i] == t[i];
      assert forall j | i < j < |init| :: init[j] == t[j];
      AliasIndexLookup(init, i);
    }
  }

  /** The canonical names are fixed points: the loop over the keys runs last,
      so `MAPPING[k.lower()] == k` for every canonical name `k`. */
  lemma CanonicalFixed(t: seq<Entry>, i: int)
    requires DistinctCanonical(t) && 0 <= i < |t|
    ensures Lower(t[i].0) in Mapping(t) && Mapping(t)[Lower(t[i].0)] == t[i].0
  {
    WithCanonicalLookup(AliasIndex(t), t, i);
  }

  /** An English alias leads to its own row's canonical name, unless a later
      row has the same lowercased alias or some canonical name lowercases to it. */
  lemma AliasResolves(t: seq<Entry>, i: int)
    requires 0 <= i < |t|
    requires forall j | i < j < |t| :: Lower(t[j].1) != Lower(t[i].1)
    requires forall j | 0 <= j < |t| :: Lower(t[j].0) != Lower(t[i].1) || t[j].0 == t[i].0
    ensures Lower(t[i].1) in Mapping(t) && Mapping(t)[Lower(t[i].1)] == t[i].0
  {
    AliasIndexLookup(t, i);
    CanonicalLastWins(AliasIndex(t), t, Lower(t[i].1), t[i].0);
  }

  lemma {:induction false} CanonicalLastWins(m: map<string, string>, t: seq<Entry>, key: string, v: string)
    requires key in m && m[key] == v
    requires forall j | 0 <= j < |t| :: Lower(t[j].0) != key || t[j].0 == v
    ensures key in WithCanonical(m, t) && WithCanonical(m, t)[key] == v
    decreases |t|
  {
    if t != [] {
      CanonicalLastWins(m, t[..|t| - 1], key, v);
    }
  }

  /** Resolving is idempotent: the lowercased result of a lookup leads back
      to the same canonical name. */
  lemma MappingIdempotent(t: seq<Entry>, key: string)
    requires DistinctCanonical(t) && key in Mapping(t)
    ensures Lower(Mapping(t)[key]) in Mapping(t) && Mapping(t)[Lower(Mapping(t)[key])] == Mapping(t)[key]
  {
    MappingShape(t);
    var i :| 0 <= i < |t| && Mapping(t)[key] == Canonical(t)[i];
    CanonicalFixed(t, i);
  }

  /** Two strings of different lengths, or with differently lowercased
      characters at one index, stay different after lowercasing. */
  lemma LowerDistinct(a: string, b: string, k: int)
    requires |a| != |b| || (0 <= k < |a| && k < |b| && LowerChar(a[k]) != LowerChar(b[k]))
    ensures Lower(a) != Lower(b)
  {
    if |a| == |b| {
      assert Lower(a)[k] != Lower(b)[k];
    }
  }

  /** The category names lowercase to pairwise different keys. */
  lemma CategoriesDistinct()
    ensures DistinctCanonical(Categories)
  {
    forall i, j | 0 <= i < j < |Categories| ensures Lower(Categories[i].0) != Lower(Categories[j].0) {
      LowerDistinct(Categories[i].0, Categories[j].0, 0);
    }
  }

  /** The row of a version, read off a lowercased version name or alias by
      its length and first character (and one more character where two keys
      share both); -1 for any other key. */
  function VersionRow(s: string): int
  {
    if |s| == 0 then -1
    else
      var n, c := |s|, LowerChar(s[0]);
      if c == 'm' then
        if n == 6 then 0 else if n == 11 then (if LowerChar(s[6]) == ' ' then 1 else 13)
        else if n == 8 then 8 else if n == 13 then 9 else if n == 4 then 10
        else if n == 9 then 11 else if n == 16 then 14 else -1
      else if c == 'g' then (if n == 5 then 2 else if n == 10 then 3 else -1)
      else if c == 'o' then (if n == 6 then 4 else if n == 11 then 5 else -1)
      else if c == 'p' then (if n == 4 then 6 else if n == 9 then 7 else if n == 5 then 23 else if n == 10 then 24 else -1)
      else if c == 'f' then (if n == 6 then 12 else if n == 8 then 19 else if n == 13 then 20 else -1)
      else if c == 'd' then (if n == 6 then 13 else if n == 11 then 14 else -1)
      else if c == 's' then (if n == 6 then 15 else if n == 11 then 16 else -1)
      else if c == 'u' then (if n == 8 then 17 else if n == 13 then 18 else if n == 5 then 27 else -1)
      else if c == 'b' then (if n == 7 then (if LowerChar(s[1]) == 'u' then 21 else 26) else if n == 12 then 22 else -1)
      else if c == 'c' then (if n == 6 then 25 else -1)
      else if c == '宴' then 26
      else if c == 'う' then 27
      else -1
  }

  /** The row read off a string depends only on its lowercase form. */
  lemma VersionRowLower(s: string)
    ensures VersionRow(Lower(s)) == VersionRow(s)
  {
  }

  lemma VersionNameRows0()
    ensures forall i | 0 <= i < 14 :: VersionRow(Versions[i].0) == i
  {
  }

  lemma VersionNameRows1()
    ensures forall i | 14 <= i < |Versions| :: VersionRow(Versions[i].0) == i
  {
  }

  lemma VersionAliasRows0()
    ensures forall i | 0 <= i < 14 :: VersionRow(Versions[i].1) == i
  {
  }

  lemma VersionAliasRows1()
    ensures forall i | 14 <= i < |Versions| :: VersionRow(Versions[i].1) == i
  {
  }

  /** Both the name and the alias of each version row lead back to that row. */
  lemma VersionRows()
    ensures forall i | 0 <= i < |Versions| :: VersionRow(Versions[i].0) == i && VersionRow(Versions[i].1) == i
  {
    VersionNameRows0(); VersionNameRows1(); VersionAliasRows0(); VersionAliasRows1();
  }

  /** The version names lowercase to pairwise different keys. */
  lemma VersionsDistinct()
    ensures DistinctCanonical(Versions)
  {
    VersionRows();
    forall i, j | 0 <= i < j < |Versions| ensures Lower(Versions[i].0) != Lower(Versions[j].0) {
      VersionRowLower(Versions[i].0);
      VersionRowLower(Versions[j].0);
    }
  }

  /** No later row repeats a row's lowercased alias, and no other row's
      canonical name lowercases to it. */
  predicate AliasesUnambiguous(t: seq<Entry>)
  {
    && (forall i, j | 0 <= i < j < |t| :: Lower(t[j].1) != Lower(t[i].1))
    && (forall i, j | 0 <= i < |t| && 0 <= j < |t| && j != i :: Lower(t[j].0) != Lower(t[i].1))
  }

  /** In a table with unambiguous aliases, every alias leads to its own row's
      canonical name. */
  lemma AliasesResolveAll(t: seq<Entry>)
    requires AliasesUnambiguous(t)
    ensures forall i | 0 <= i < |t| :: Lower(t[i].1) in Mapping(t) && Mapping(t)[Lower(t[i].1)] == t[i].0
  {
    forall i | 0 <= i < |t| ensures Lower(t[i].1) in Mapping(t) && Mapping(t)[Lower(t[i].1)] == t[i].0 {
      AliasResolves(t, i);
    }
  }

  /** No other category name lowercases to the alias of row `i`. */
  lemma CategoryAliasNotCanonical(i: int)
    requires 0 <= i < |Categories|
    ensures forall j | 0 <= j < |Categories| && j != i :: Lower(Categories[j].0) != Lower(Categories[i].1)
  {
    forall j | 0 <= j < |Categories| && j != i ensures Lower(Categories[j].0) != Lower(Categories[i].1) {
      LowerDistinct(Categories[j].0, Categories[i].1, 0);
    }
  }

  lemma CategoryAliasesUnambiguous()
    ensures AliasesUnambiguous(Categories)
  {
    forall i, j | 0 <= i < j < |Categories| ensures Lower(Categories[j].1) != Lower(Categories[i].1) {
      LowerDistinct(Categories[j].1, Categories[i].1, 0);
    }
    forall i | 0 <= i < |Categories|
      ensures forall j | 0 <= j < |Categories| && j != i :: Lower(Categories[j].0) != Lower(Categories[i].1)
    {
      CategoryAliasNotCanonical(i);
    }
  }

  /** Every English category alias leads to its own category. */
  lemma CategoryAliasesResolve()
    ensures forall i | 0 <= i < |Categories| ::
      Lower(Categories[i].1) in Mapping(Categories) && Mapping(Categories)[Lower(Categories[i].1)] == Categories[i].0
  {
    CategoryAliasesUnambiguous();
    AliasesResolveAll(Categories);
  }

  lemma VersionAliasesUnambiguous()
    ensures AliasesUnambiguous(Versions)
  {
    VersionRows();
    forall i, j | 0 <= i < j < |Versions| ensures Lower(Versions[j].1) != Lower(Versions[i].1) {
      VersionRowLower(Versions[i].1);
      VersionRowLower(Versions[j].1);
    }
    forall i, j | 0 <= i < |Versions| && 0 <= j < |Versions| && j != i
      ensures Lower(Versions[j].0) != Lower(Versions[i].1)
    {
      VersionRowLower(Versions[i].1);
      VersionRowLower(Versions[j].0);
    }
  }

  /** Every English version alias leads to its own version. */
  lemma VersionAliasesResolve()
    ensures forall i | 0 <= i < |Versions| ::
      Lower(Versions[i].1) in Mapping(Versions) && Mapping(Versions)[Lower(Versions[i].1)] == Versions[i].0
  {
    VersionAliasesUnambiguous();
    AliasesResolveAll(Versions);
  }
}
