/** The pure rules of the quiz cog (`cogs/quiz.py`): answer formatting, the
    crop box of the image mode, the audio snippet rule, parameter checks,
    filter-token resolution, the round pool and the leaderboard order. */
module QuizRules {
  import opened Text
  import opened Records
  import Constants
  import SongLoader

  // --------------------------------------------------------- format_answer

  /** The pieces of a title answer: the title, then the romaji when it is
      non-empty and differs from the title, then the English name in
      parentheses when it is non-empty and differs from both. */
  function AnswerParts(song: Song): seq<string>
  {
    [song.title]
    + (if song.romaji != "" && song.romaji != song.title then [song.romaji] else [])
    + (if song.english != "" && song.english != song.title && song.english != song.romaji then ["(" + song.english + ")"] else [])
  }

  /** `format_answer(song, answer_type)`; `levelText` is Python's rendering
      of the chart level. */
  function FormatAnswer(song: Song, answerType: string, levelText: real -> string): string
  {
    if answerType == "artist" then song.artist
    else if answerType == "difficulty" then levelText(song.level) + " (" + song.difficulty + ")"
    else Join(AnswerParts(song), " / ")
  }

  predicate ShowsRomaji(song: Song) { song.romaji != "" && song.romaji != song.title }

  predicate ShowsEnglish(song: Song)
  {
    song.english != "" && song.english != song.title && song.english != song.romaji
  }

  /** A title answer starts with the title, followed by the romaji exactly
      when it is non-empty and not the title, and ends with the parenthesised
      English name exactly when that is non-empty and neither the title nor
      the romaji; for the other answer types the answer is the artist, or the
      level followed by the difficulty name. */
  lemma FormatAnswerSpec(song: Song, levelText: real -> string)
    ensures var parts := AnswerParts(song);
      && |parts| == 1 + (if ShowsRomaji(song) then 1 else 0) + (if ShowsEnglish(song) then 1 else 0)
      && parts[0] == song.title
      && (ShowsRomaji(song) ==> parts[1] == song.romaji)
      && (ShowsEnglish(song) ==> parts[|parts| - 1] == "(" + song.english + ")")
    ensures FormatAnswer(song, "artist", levelText) == song.artist
    ensures FormatAnswer(song, "difficulty", levelText) == levelText(song.level) + " (" + song.difficulty + ")"
    ensures |AnswerParts(song)| > 1 ==>
      FormatAnswer(song, "title", levelText) == song.title + " / " + Join(AnswerParts(song)[1..], " / ")
  {
  }

  /** A song whose romaji and English name add nothing is answered by its
      title alone. */
  lemma PlainTitleAnswer(song: Song, levelText: real -> string)
    requires song.romaji == "" || song.romaji == song.title
    requires song.english == "" || song.english == song.title || song.english == song.romaji
    ensures FormatAnswer(song, "title", levelText) == song.title
  {
    assert AnswerParts(song) == [song.title];
  }

  // ------------------------------------------------------------- crop box

  /** The crop size for an image of `w` by `h` pixels: the whole image for
      "easy", halves for "medium", and for anything else the "hard" box of
      `int(w * 0.316)` by `int(h * 0.316)`. */
  function CropSize(w: nat, h: nat, difficulty: string): (nat, nat)
  {
    if difficulty == "easy" then (w, h)
    else if difficulty == "medium" then (w / 2, h / 2)
    else ((316 * w) / 1000, (316 * h) / 1000)
  }

  /** The crop rectangle `(left, top, right, bottom)`; `left` and `top` are
      the random offsets (0 for "easy"). */
  datatype Box = Box(left: int, top: int, right: int, bottom: int)

  function CropBox(w: nat, h: nat, difficulty: string, left: int, top: int): Box
  {
    var (cw, ch) := CropSize(w, h, difficulty);
    if difficulty == "easy" then Box(0, 0, w, h)
    else Box(left, top, left + cw, top + ch)
  }

  /** The crop box has the size of its difficulty, never exceeds the image,
      and for offsets drawn from `randint(0, w - cw)` and `randint(0, h - ch)`
      lies inside the image. */
  lemma CropBoxSpec(w: nat, h: nat, difficulty: string, left: int, top: int)
    ensures CropSize(w, h, difficulty).0 <= w && CropSize(w, h, difficulty).1 <= h
    ensures difficulty == "easy" ==> CropBox(w, h, difficulty, left, top) == Box(0, 0, w, h)
    ensures difficulty == "medium" ==> CropSize(w, h, difficulty) == (w / 2, h / 2)
    ensures difficulty != "easy" && difficulty != "medium" ==> CropSize(w, h, difficulty) == ((316 * w) / 1000, (316 * h) / 1000)
    ensures 0 <= left <= w - CropSize(w, h, difficulty).0 && 0 <= top <= h - CropSize(w, h, difficulty).1 ==>
      var b := CropBox(w, h, difficulty, left, top);
      0 <= b.left <= b.right <= w && 0 <= b.top <= b.bottom <= h
  {
  }

  /** The hard box covers about a tenth of the area: each side is at most
      0.316 of the image's and more than 0.316 of it minus one pixel. */
  lemma HardBoxRatio(w: nat, h: nat)
    ensures 1000 * CropSize(w, h, "hard").0 <= 316 * w < 1000 * (CropSize(w, h, "hard").0 + 1)
    ensures 1000 * CropSize(w, h, "hard").1 <= 316 * h < 1000 * (CropSize(w, h, "hard").1 + 1)
  {
  }

  // --------------------------------------------------------- audio snippet

  /** What `create_audio_snippet` cuts from a file of `duration` seconds. */
  datatype SnippetPlan = WholeFile | Clip(start: real, length: real)

  /** A song no longer than the snippet is played whole; otherwise the clip
      starts at `pick`, the value of `random.uniform(0, duration - length)`. */
  function PlanSnippet(duration: real, length: int, pick: real): SnippetPlan
  {
    if duration <= length as real then WholeFile
    else Clip(pick, length as real)
  }

  /** The whole file is used exactly when it is no longer than the snippet;
      otherwise the clip has the snippet's length and, for any value the
      random draw can give, lies within the song. */
  lemma PlanSnippetSpec(duration: real, length: int, pick: real)
    requires duration > length as real ==> 0.0 <= pick <= duration - length as real
    ensures PlanSnippet(duration, length, pick).WholeFile? <==> duration <= length as real
    ensures PlanSnippet(duration, length, pick).Clip? ==>
      && PlanSnippet(duration, length, pick).length == length as real
      && 0.0 <= PlanSnippet(duration, length, pick).start
      && PlanSnippet(duration, length, pick).start + PlanSnippet(duration, length, pick).length <= duration
  {
  }

  // ------------------------------------------------------ parameter checks

  /** Why `/quiz` refuses its parameters, in the order it checks them. */
  datatype ParamError = BadMode | BadAnswerType | BadRounds | BadTimeLimit | BadSnippetLength

  predicate IsMode(mode: string) { mode == "image" || mode == "audio" }

  predicate IsAnswerType(t: string) { t == "title" || t == "artist" || t == "difficulty" }

  /** The checks of `/quiz`: ranges are enforced, not clamped. */
  function CheckSlashParams(mode: string, answerType: string, rounds: int, timeLimit: int, snippetLength: int): Option<ParamError>
  {
    if !IsMode(mode) then Some(BadMode)
    else if !IsAnswerType(answerType) then Some(BadAnswerType)
    else if rounds < 1 || rounds > 50 then Some(BadRounds)
    else if timeLimit < 10 || timeLimit > 300 then Some(BadTimeLimit)
    else if snippetLength < 5 || snippetLength > 30 then Some(BadSnippetLength)
    else None
  }

  lemma CheckSlashParamsSpec(mode: string, answerType: string, rounds: int, timeLimit: int, snippetLength: int)
    ensures CheckSlashParams(mode, answerType, rounds, timeLimit, snippetLength).None? <==>
      IsMode(mode) && IsAnswerType(answerType) && 1 <= rounds <= 50 && 10 <= timeLimit <= 300 && 5 <= snippetLength <= 30
  {
  }

  /** `max(lo, min(hi, x))`. */
  function Clamp(x: int, lo: int, hi: int): (r: int)
    requires lo <= hi
    ensures lo <= r <= hi
    ensures lo <= x <= hi ==> r == x
    ensures x < lo ==> r == lo
    ensures x > hi ==> r == hi
  {
    if x < lo then lo else if x > hi then hi else x
  }

  /** The image difficulty `q>quiz` uses: an unknown value becomes "easy". */
  function PrefixImageDifficulty(d: string): string
  {
    if d == "easy" || d == "medium" || d == "hard" then d else "easy"
  }

  // ------------------------------------------------------- filter tokens

  /** `[t.strip() for t in text.split(',')]`. */
  function Tokens(text: string): (ts: seq<string>)
    ensures |ts| == |SplitOn(text, ',')|
    ensures forall i | 0 <= i < |ts| :: ts[i] == Strip(SplitOn(text, ',')[i])
  {
    seq(|SplitOn(text, ',')|, i requires 0 <= i < |SplitOn(text, ',')| => Strip(SplitOn(text, ',')[i]))
  }

  /** A token resolves when its lowercased form maps to a non-empty name. */
  predicate Resolves(m: map<string, string>, token: string)
  {
    Lower(token) in m && m[Lower(token)] != ""
  }

  /** The resolved names of the tokens that resolve, in order. */
  function Known(m: map<string, string>, tokens: seq<string>): (r: seq<string>)
    ensures |r| <= |tokens|
  {
    if tokens == [] then []
    else
      var last := tokens[|tokens| - 1];
      Known(m, tokens[..|tokens| - 1]) + (if Resolves(m, last) then [m[Lower(last)]] else [])
  }

  /** The tokens that do not resolve, in order. */
  function Unknown(m: map<string, string>, tokens: seq<string>): (r: seq<string>)
    ensures |r| <= |tokens|
  {
    if tokens == [] then []
    else
      var last := tokens[|tokens| - 1];
      Unknown(m, tokens[..|tokens| - 1]) + (if Resolves(m, last) then [] else [last])
  }

  /** Each token resolved, or kept as written when it does not resolve. */
  function ResolveOrKeep(m: map<string, string>, tokens: seq<string>): (r: seq<string>)
    ensures |r| == |tokens|
  {
    if tokens == [] then []
    else
      var last := tokens[|tokens| - 1];
      ResolveOrKeep(m, tokens[..|tokens| - 1]) + [if Resolves(m, last) then m[Lower(last)] else last]
  }

  lemma KnownSnoc(m: map<string, string>, tokens: seq<string>, t: string)
    ensures Known(m, tokens + [t]) == Known(m, tokens) + (if Resolves(m, t) then [m[Lower(t)]] else [])
  {
    assert (tokens + [t])[..|tokens|] == tokens;
  }

  lemma UnknownSnoc(m: map<string, string>, tokens: seq<string>, t: string)
    ensures Unknown(m, tokens + [t]) == Unknown(m, tokens) + (if Resolves(m, t) then [] else [t])
  {
    assert (tokens + [t])[..|tokens|] == tokens;
  }

  lemma ResolveOrKeepStep(m: map<string, string>, tokens: seq<string>, i: int)
    requires 0 <= i < |tokens|
    ensures ResolveOrKeep(m, tokens[..i + 1]) == ResolveOrKeep(m, tokens[..i]) + [if Resolves(m, tokens[i]) then m[Lower(tokens[i])] else tokens[i]]
  {
    assert tokens[..i + 1][..i] == tokens[..i];
  }

  lemma {:induction false} KnownValues(m: map<string, string>, tokens: seq<string>)
    ensures forall k | 0 <= k < |Known(m, tokens)| :: Known(m, tokens)[k] in m.Values
    decreases |tokens|
  {
    if tokens != [] {
      KnownValues(m, tokens[..|tokens| - 1]);
    }
  }

  lemma {:induction false} ResolveOrKeepSpec(m: map<string, string>, tokens: seq<string>)
    ensures forall k | 0 <= k < |tokens| && Resolves(m, tokens[k]) :: ResolveOrKeep(m, tokens)[k] == m[Lower(tokens[k])]
    ensures forall k | 0 <= k < |tokens| && !Resolves(m, tokens[k]) :: ResolveOrKeep(m, tokens)[k] == tokens[k]
    decreases |tokens|
  {
    if tokens != [] {
      ResolveOrKeepSpec(m, tokens[..|tokens| - 1]);
    }
  }

  /** The category loop of `/quiz` over the alias map `m`
      (`CATEGORY_MAPPING`, built by `Constants.BuildMapping`) and the stripped
      comma-separated `tokens` of the option: the resolved names and the
      tokens that did not resolve. */
  method ParseCategories(m: map<string, string>, tokens: seq<string>) returns (categoryList: seq<string>, invalid: seq<string>)
    ensures categoryList == Known(m, tokens)
    ensures invalid == Unknown(m, tokens)
  {
    categoryList, invalid := [], [];
    var i := 0;
    while i < |tokens|
      invariant 0 <= i <= |tokens|
      invariant categoryList == Known(m, tokens[..i])
      invariant invalid == Unknown(m, tokens[..i])
    {
      var cat := tokens[i];
      assert tokens[..i + 1] == tokens[..i] + [cat];
      UnknownSnoc(m, tokens[..i], cat);
      KnownSnoc(m, tokens[..i], cat);
      var key := Lower(cat);
      if key in m && m[key] != "" {
        categoryList := categoryList + [m[key]];
      } else {
        invalid := invalid + [cat];
      }
      i := i + 1;
    }
    assert tokens[..i] == tokens;
  }

  /** The category loop of a replay: unresolved tokens are dropped. */
  method ParseReplayCategories(m: map<string, string>, tokens: seq<string>) returns (categoryList: seq<string>)
    ensures categoryList == Known(m, tokens)
  {
    categoryList := [];
    var i := 0;
    while i < |tokens|
      invariant 0 <= i <= |tokens|
      invariant categoryList == Known(m, tokens[..i])
    {
      assert tokens[..i + 1] == tokens[..i] + [tokens[i]];
      KnownSnoc(m, tokens[..i], tokens[i]);
      var key := Lower(tokens[i]);
      if key in m && m[key] != "" {
        categoryList := categoryList + [m[key]];
      }
      i := i + 1;
    }
    assert tokens[..i] == tokens;
  }

  /** The version loop of `/quiz` and of a replay over `VERSION_MAPPING`:
      each token resolved, or kept as written. */
  method ParseVersions(m: map<string, string>, tokens: seq<string>) returns (versionList: seq<string>)
    ensures versionList == ResolveOrKeep(m, tokens)
  {
    versionList := [];
    var i := 0;
    while i < |tokens|
      invariant 0 <= i <= |tokens|
      invariant versionList == ResolveOrKeep(m, tokens[..i])
    {
      ResolveOrKeepStep(m, tokens, i);
      var key := Lower(tokens[i]);
      if key in m && m[key] != "" {
        versionList := versionList + [m[key]];
      } else {
        versionList := versionList + [tokens[i]];
      }
      i := i + 1;
    }
    assert tokens[..i] == tokens;
  }

  /** No token is left over exactly when every token resolves. */
  lemma {:induction false} UnknownEmpty(m: map<string, string>, tokens: seq<string>)
    ensures Unknown(m, tokens) == [] <==> forall k | 0 <= k < |tokens| :: Resolves(m, tokens[k])
    decreases |tokens|
  {
    if tokens != [] {
      var init := tokens[..|tokens| - 1];
      UnknownEmpty(m, init);
      assert forall k | 0 <= k < |init| :: init[k] == tokens[k];
    }
  }

  /** `/quiz` accepts a category text exactly when every token resolves, and
      then every name it filters by is a canonical name of the table. */
  lemma CategoriesStrict(table: seq<Constants.Entry>, text: string)
    ensures Unknown(Constants.Mapping(table), Tokens(text)) == [] <==>
      forall k | 0 <= k < |Tokens(text)| :: Resolves(Constants.Mapping(table), Tokens(text)[k])
    ensures forall k | 0 <= k < |Known(Constants.Mapping(table), Tokens(text))| ::
      Known(Constants.Mapping(table), Tokens(text))[k] in Constants.Canonical(table)
  {
    var m := Constants.Mapping(table);
    UnknownEmpty(m, Tokens(text));
    KnownValues(m, Tokens(text));
    Constants.MappingShape(table);
    forall k | 0 <= k < |Known(m, Tokens(text))| ensures Known(m, Tokens(text))[k] in Constants.Canonical(table) {
      var v := Known(m, Tokens(text))[k];
      var key :| key in m && m[key] == v;
    }
  }

  /** The version filter has one entry per token: its canonical version when
      it resolves, the token as written otherwise. */
  lemma VersionsVerbatim(table: seq<Constants.Entry>, text: string)
    ensures |ResolveOrKeep(Constants.Mapping(table), Tokens(text))| == |Tokens(text)|
    ensures forall k | 0 <= k < |Tokens(text)| && !Resolves(Constants.Mapping(table), Tokens(text)[k]) ::
      ResolveOrKeep(Constants.Mapping(table), Tokens(text))[k] == Tokens(text)[k]
    ensures forall k | 0 <= k < |Tokens(text)| && Resolves(Constants.Mapping(table), Tokens(text)[k]) ::
      ResolveOrKeep(Constants.Mapping(table), Tokens(text))[k] in Constants.Canonical(table)
  {
    var m := Constants.Mapping(table);
    ResolveOrKeepSpec(m, Tokens(text));
    Constants.MappingShape(table);
  }

  // ------------------------------------------------------------- the pool

  /** `[s for s in songs if s.get(field) in names]` when `names` is
      non-empty, and all songs otherwise. */
  function FilterByCategory(songs: seq<Song>, names: seq<string>): seq<Song>
  {
    if names != [] then Filter(songs, (s: Song) => s.category in names) else songs
  }

  function FilterByVersion(songs: seq<Song>, names: seq<string>): seq<Song>
  {
    if names != [] then Filter(songs, (s: Song) => s.version in names) else songs
  }

  /** The media test of the pool: a cover in image mode, an audio file in
      audio mode; any other mode keeps every song. */
  predicate HasMedia(s: Song, mode: string, fileExists: string -> bool)
  {
    (mode == "image" ==> SongLoader.ImagePath(s, fileExists).Some?)
    && (mode == "audio" ==> SongLoader.AudioPath(s, fileExists).Some?)
  }

  function Min(a: int, b: int): int { if a <= b then a else b }

  /** The round pool from the shuffled candidates: the first `rounds`, of
      which those with media. */
  function Pool(shuffled: seq<Song>, rounds: int, mode: string, fileExists: string -> bool): seq<Song>
    requires rounds >= 0
  {
    Filter(shuffled[..Min(rounds, |shuffled|)], (s: Song) => HasMedia(s, mode, fileExists))
  }

  /** The pool is no longer than the rounds asked for, holds only songs with
      media taken from the candidates in their shuffled order, and repeats no
      song when the candidates do not. */
  lemma PoolSpec(shuffled: seq<Song>, rounds: int, mode: string, fileExists: string -> bool)
    requires rounds >= 0
    ensures |Pool(shuffled, rounds, mode, fileExists)| <= Min(rounds, |shuffled|)
    ensures forall k | 0 <= k < |Pool(shuffled, rounds, mode, fileExists)| ::
      Pool(shuffled, rounds, mode, fileExists)[k] in shuffled && HasMedia(Pool(shuffled, rounds, mode, fileExists)[k], mode, fileExists)
    ensures IsSubsequence(Pool(shuffled, rounds, mode, fileExists), shuffled[..Min(rounds, |shuffled|)])
    ensures NoDuplicates(shuffled) ==> NoDuplicates(Pool(shuffled, rounds, mode, fileExists))
  {
    var p := (s: Song) => HasMedia(s, mode, fileExists);
    var pre := shuffled[..Min(rounds, |shuffled|)];
    FilterMembers(pre, p);
    FilterIsSubsequence(pre, p);
    if NoDuplicates(shuffled) {
      assert NoDuplicates(pre);
      SubsequenceNoDuplicates(Pool(shuffled, rounds, mode, fileExists), pre);
    }
  }

  // ------------------------------------------------- what a start draws

  /** The category names a start filters by: the tokens of a non-empty
      category text resolved through `m` (`CATEGORY_MAPPING`), and none (no
      filter) otherwise. */
  function CategoryNames(m: map<string, string>, text: Option<string>): seq<string>
  {
    if text.Some? && text.value != "" then Known(m, Tokens(text.value)) else []
  }

  /** The category tokens `/quiz` rejects. */
  function InvalidCategoryTokens(m: map<string, string>, text: Option<string>): seq<string>
  {
    if text.Some? && text.value != "" then Unknown(m, Tokens(text.value)) else []
  }

  /** The version names a start filters by, resolved through `m`
      (`VERSION_MAPPING`). */
  function VersionNames(m: map<string, string>, text: Option<string>): seq<string>
  {
    if text.Some? && text.value != "" then ResolveOrKeep(m, Tokens(text.value)) else []
  }

  /** The two list filters of a start; an empty list filters nothing. */
  predicate PassesFilters(s: Song, categoryNames: seq<string>, versionNames: seq<string>)
  {
    (categoryNames == [] || s.category in categoryNames) && (versionNames == [] || s.version in versionNames)
  }

  /** The loaded songs after the category filter and then the version
      filter. */
  function Candidates(songs: seq<Song>, categoryNames: seq<string>, versionNames: seq<string>): seq<Song>
  {
    FilterByVersion(FilterByCategory(songs, categoryNames), versionNames)
  }

  /** The candidates are exactly the loaded songs passing both filters, in
      their loaded order. */
  lemma CandidatesSpec(songs: seq<Song>, categoryNames: seq<string>, versionNames: seq<string>)
    ensures forall k | 0 <= k < |Candidates(songs, categoryNames, versionNames)| ::
      Candidates(songs, categoryNames, versionNames)[k] in songs
      && PassesFilters(Candidates(songs, categoryNames, versionNames)[k], categoryNames, versionNames)
    ensures forall k | 0 <= k < |songs| && PassesFilters(songs[k], categoryNames, versionNames) ::
      songs[k] in Candidates(songs, categoryNames, versionNames)
    ensures NoDuplicates(Ids(songs)) ==> NoDuplicates(Ids(Candidates(songs, categoryNames, versionNames)))
  {
    var byCategory := FilterByCategory(songs, categoryNames);
    var cands := FilterByVersion(byCategory, versionNames);
    ByCategorySpec(songs, categoryNames);
    ByVersionSpec(byCategory, versionNames);
    assert cands == Candidates(songs, categoryNames, versionNames);
    forall k | 0 <= k < |cands| ensures cands[k] in songs && PassesFilters(cands[k], categoryNames, versionNames) {
      assert cands[k] in byCategory;
    }
    if NoDuplicates(Ids(songs)) {
      SubsequenceUniqueIds(byCategory, songs);
      SubsequenceUniqueIds(cands, byCategory);
    }
  }

  /** The category filter keeps exactly the songs of a listed category (all
      songs when none is listed), in order. */
  lemma ByCategorySpec(songs: seq<Song>, names: seq<string>)
    ensures forall x | x in FilterByCategory(songs, names) :: x in songs && (names == [] || x.category in names)
    ensures forall x | x in songs && (names == [] || x.category in names) :: x in FilterByCategory(songs, names)
    ensures IsSubsequence(FilterByCategory(songs, names), songs)
  {
    if names != [] {
      var p := (s: Song) => s.category in names;
      FilterMembers(songs, p);
      FilterIsSubsequence(songs, p);
      var r := Filter(songs, p);
      forall x | x in r ensures x in songs && x.category in names {
        var k :| 0 <= k < |r| && r[k] == x;
      }
      forall x | x in songs && x.category in names ensures x in r {
        var k :| 0 <= k < |songs| && songs[k] == x;
      }
    } else {
      SubsequenceSelf(songs);
    }
  }

  /** The version filter keeps exactly the songs of a listed version (all
      songs when none is listed), in order. */
  lemma ByVersionSpec(songs: seq<Song>, names: seq<string>)
    ensures forall x | x in FilterByVersion(songs, names) :: x in songs && (names == [] || x.version in names)
    ensures forall x | x in songs && (names == [] || x.version in names) :: x in FilterByVersion(songs, names)
    ensures IsSubsequence(FilterByVersion(songs, names), songs)
  {
    if names != [] {
      var p := (s: Song) => s.version in names;
      FilterMembers(songs, p);
      FilterIsSubsequence(songs, p);
      var r := Filter(songs, p);
      forall x | x in r ensures x in songs && x.version in names {
        var k :| 0 <= k < |r| && r[k] == x;
      }
      forall x | x in songs && x.version in names ensures x in r {
        var k :| 0 <= k < |songs| && songs[k] == x;
      }
    } else {
      SubsequenceSelf(songs);
    }
  }

  lemma SubsequenceSelf<T>(xs: seq<T>)
    ensures IsSubsequence(xs, xs)
  {
    var idx := seq(|xs|, i => i);
    assert forall k | 0 <= k < |idx| :: 0 <= idx[k] < |xs| && xs[k] == xs[idx[k]];
  }

  /** Deleting songs keeps their ids free of repeats. */
  lemma SubsequenceUniqueIds(sub: seq<Song>, xs: seq<Song>)
    requires IsSubsequence(sub, xs) && NoDuplicates(Ids(xs))
    ensures NoDuplicates(Ids(sub))
  {
    var idx: seq<int> :| |idx| == |sub|
      && (forall k | 0 <= k < |idx| :: 0 <= idx[k] < |xs| && sub[k] == xs[idx[k]])
      && (forall k, l | 0 <= k < l < |idx| :: idx[k] < idx[l]);
    forall i, j | 0 <= i < j < |Ids(sub)| ensures Ids(sub)[i] != Ids(sub)[j] {
      assert Ids(xs)[idx[i]] != Ids(xs)[idx[j]];
    }
  }

  /** Songs with distinct ids are distinct songs. */
  lemma UniqueIdsDistinct(xs: seq<Song>)
    requires NoDuplicates(Ids(xs))
    ensures NoDuplicates(xs)
  {
    forall i, j | 0 <= i < j < |xs| ensures xs[i] != xs[j] {
      assert Ids(xs)[i] != Ids(xs)[j];
    }
  }

  /** Reordering songs keeps their ids free of repeats. */
  lemma PermutationUniqueIds(xs: seq<Song>, ys: seq<Song>)
    requires NoDuplicates(Ids(xs)) && multiset(xs) == multiset(ys)
    ensures NoDuplicates(Ids(ys))
  {
    UniqueIdsDistinct(xs);
    PermutationNoDuplicates(xs, ys);
    var ids := Ids(ys);
    forall i, j | 0 <= i < j < |ids| ensures ids[i] != ids[j] {
      assert ys[i] != ys[j];
      assert ys[i] in multiset(ys) && ys[j] in multiset(ys);
      IdsDiffer(xs, ys[i], ys[j]);
    }
  }

  /** Two different records of a list whose ids are unique have different ids. */
  lemma IdsDiffer(xs: seq<Song>, a: Song, b: Song)
    requires NoDuplicates(Ids(xs)) && a in xs && b in xs && a != b
    ensures a.songId != b.songId
  {
    var p :| 0 <= p < |xs| && xs[p] == a;
    var q :| 0 <= q < |xs| && xs[q] == b;
    assert Ids(xs)[p] == a.songId && Ids(xs)[q] == b.songId;
  }

  /** What every game's pool satisfies: between one song and the rounds
      asked for, master charts of the catalog passing the filters and having
      the mode's media, no song twice. */
  ghost predicate GoodPool(pool: seq<Song>, catalog: seq<Song>, categoryNames: seq<string>, versionNames: seq<string>,
                           rounds: int, mode: string, fileExists: string -> bool)
  {
    && 1 <= |pool| <= rounds
    && NoDuplicates(Ids(pool))
    && forall k | 0 <= k < |pool| ::
      && pool[k] in catalog
      && (pool[k].difficulty == "master" || pool[k].difficulty == "remaster")
      && PassesFilters(pool[k], categoryNames, versionNames)
      && HasMedia(pool[k], mode, fileExists)
  }

  /** A pool drawn from a reordering of candidates with distinct ids holds
      candidates with media, with distinct ids. */
  lemma PoolOfPermutation(cands: seq<Song>, shuffled: seq<Song>, rounds: int, mode: string, fileExists: string -> bool)
    requires multiset(shuffled) == multiset(cands) && rounds >= 0
    ensures forall k | 0 <= k < |Pool(shuffled, rounds, mode, fileExists)| ::
      Pool(shuffled, rounds, mode, fileExists)[k] in cands && HasMedia(Pool(shuffled, rounds, mode, fileExists)[k], mode, fileExists)
    ensures NoDuplicates(Ids(cands)) ==> NoDuplicates(Ids(Pool(shuffled, rounds, mode, fileExists)))
  {
    var pool := Pool(shuffled, rounds, mode, fileExists);
    var prefix := shuffled[..Min(rounds, |shuffled|)];
    PoolSpec(shuffled, rounds, mode, fileExists);
    forall k | 0 <= k < |pool| ensures pool[k] in cands {
      assert pool[k] in multiset(cands);
    }
    if NoDuplicates(Ids(cands)) {
      PermutationUniqueIds(cands, shuffled);
      assert NoDuplicates(Ids(prefix)) by {
        forall i, j | 0 <= i < j < |Ids(prefix)| ensures Ids(prefix)[i] != Ids(prefix)[j] {
          assert Ids(prefix)[i] == Ids(shuffled)[i] && Ids(prefix)[j] == Ids(shuffled)[j];
        }
      }
      SubsequenceUniqueIds(pool, prefix);
    }
  }

  /** The pool drawn from a shuffle of the candidates of the master charts
      `load_songs` returned is a good pool whenever it is not empty. */
  lemma PoolFromCatalog(catalog: seq<Song>, loaded: seq<Song>, categoryNames: seq<string>, versionNames: seq<string>,
                        shuffled: seq<Song>, rounds: int, mode: string, fileExists: string -> bool)
    requires SongLoader.IsDeduplication(Filter(catalog, (s: Song) => SongLoader.Passes(s, "master", "", "")), loaded)
    requires multiset(shuffled) == multiset(Candidates(loaded, categoryNames, versionNames))
    requires rounds >= 0
    ensures Pool(shuffled, rounds, mode, fileExists) != [] ==>
      GoodPool(Pool(shuffled, rounds, mode, fileExists), catalog, categoryNames, versionNames, rounds, mode, fileExists)
  {
    var cands := Candidates(loaded, categoryNames, versionNames);
    var pool := Pool(shuffled, rounds, mode, fileExists);
    var master := Filter(catalog, (s: Song) => SongLoader.Passes(s, "master", "", ""));
    assert forall k | 0 <= k < |loaded| ::
      loaded[k] in catalog && (loaded[k].difficulty == "master" || loaded[k].difficulty == "remaster") by {
      SongLoader.LoadedSongsPass(catalog, "master", "", "", loaded);
    }
    assert NoDuplicates(Ids(loaded)) by {
      SongLoader.DeduplicationProperties(master, loaded);
    }
    assert forall k | 0 <= k < |cands| :: cands[k] in loaded && PassesFilters(cands[k], categoryNames, versionNames) by {
      CandidatesSpec(loaded, categoryNames, versionNames);
    }
    assert NoDuplicates(Ids(cands)) by {
      CandidatesSpec(loaded, categoryNames, versionNames);
    }
    assert forall k | 0 <= k < |pool| :: pool[k] in cands && HasMedia(pool[k], mode, fileExists) by {
      PoolOfPermutation(cands, shuffled, rounds, mode, fileExists);
    }
    assert NoDuplicates(Ids(pool)) by {
      PoolOfPermutation(cands, shuffled, rounds, mode, fileExists);
    }
    assert |pool| <= rounds;
    PoolChain(catalog, loaded, cands, pool, categoryNames, versionNames);
  }

  lemma PoolChain(catalog: seq<Song>, loaded: seq<Song>, cands: seq<Song>, pool: seq<Song>, categoryNames: seq<string>, versionNames: seq<string>)
    requires forall k | 0 <= k < |loaded| ::
      loaded[k] in catalog && (loaded[k].difficulty == "master" || loaded[k].difficulty == "remaster")
    requires forall k | 0 <= k < |cands| :: cands[k] in loaded && PassesFilters(cands[k], categoryNames, versionNames)
    requires forall k | 0 <= k < |pool| :: pool[k] in cands
    ensures forall k | 0 <= k < |pool| ::
      && pool[k] in catalog && (pool[k].difficulty == "master" || pool[k].difficulty == "remaster")
      && PassesFilters(pool[k], categoryNames, versionNames)
  {
    forall k | 0 <= k < |pool|
      ensures pool[k] in catalog && (pool[k].difficulty == "master" || pool[k].difficulty == "remaster")
      ensures PassesFilters(pool[k], categoryNames, versionNames)
    {
      var j :| 0 <= j < |cands| && cands[j] == pool[k];
      var i :| 0 <= i < |loaded| && loaded[i] == cands[j];
    }
  }

  // ----------------------------------------------------------- leaderboard

  /** A leaderboard entry: a user id and a score. */
  type Entry = (int, int)

  /** `entry` inserted before the first entry of `sorted` with a lower score. */
  function InsertByScore(sorted: seq<Entry>, entry: Entry): (r: seq<Entry>)
    ensures multiset(r) == multiset(sorted) + multiset{entry}
    ensures |r| == |sorted| + 1
  {
    if sorted == [] then [entry]
    else if sorted[0].1 < entry.1 then [entry] + sorted
    else
      assert sorted == [sorted[0]] + sorted[1..];
      [sorted[0]] + InsertByScore(sorted[1..], entry)
  }

  /** `sorted(items, key=lambda x: x[1], reverse=True)`: a stable sort by
      decreasing score. */
  function SortByScore(items: seq<Entry>): seq<Entry>
  {
    if items == [] then []
    else InsertByScore(SortByScore(items[..|items| - 1]), items[|items| - 1])
  }

  predicate NonIncreasing(xs: seq<Entry>)
  {
    forall i, j | 0 <= i < j < |xs| :: xs[i].1 >= xs[j].1
  }

  /** Inserting keeps every score below a bound that all entries respect. */
  lemma {:induction false} InsertByScoreBound(sorted: seq<Entry>, entry: Entry, bound: int)
    requires forall k | 0 <= k < |sorted| :: sorted[k].1 <= bound
    requires entry.1 <= bound
    ensures forall k | 0 <= k < |InsertByScore(sorted, entry)| :: InsertByScore(sorted, entry)[k].1 <= bound
    decreases |sorted|
  {
    if sorted != [] && sorted[0].1 >= entry.1 {
      InsertByScoreBound(sorted[1..], entry, bound);
    }
  }

  lemma {:induction false} InsertByScoreSorted(sorted: seq<Entry>, entry: Entry)
    requires NonIncreasing(sorted)
    ensures NonIncreasing(InsertByScore(sorted, entry))
    decreases |sorted|
  {
    if sorted != [] && sorted[0].1 >= entry.1 {
      InsertByScoreSorted(sorted[1..], entry);
      InsertByScoreBound(sorted[1..], entry, sorted[0].1);
      var rest := InsertByScore(sorted[1..], entry);
      var r := [sorted[0]] + rest;
      assert r == InsertByScore(sorted, entry);
      forall i, j | 0 <= i < j < |r| ensures r[i].1 >= r[j].1 {
        assert r[j] == rest[j - 1];
        if i > 0 { assert r[i] == rest[i - 1]; }
      }
    }
  }

  /** The leaderboard lists every score entry once (a permutation) in
      non-increasing score order. */
  lemma {:induction false} LeaderboardSpec(items: seq<Entry>)
    ensures multiset(SortByScore(items)) == multiset(items)
    ensures NonIncreasing(SortByScore(items))
    decreases |items|
  {
    if items != [] {
      var init := items[..|items| - 1];
      LeaderboardSpec(init);
      InsertByScoreSorted(SortByScore(init), items[|items| - 1]);
      assert items == init + [items[|items| - 1]];
    }
  }

  /** Tied entries of `board` appear in the order they have in `items`. */
  predicate Stable(items: seq<Entry>, board: seq<Entry>)
  {
    forall p, q | 0 <= p < q < |board| && board[p].1 == board[q].1 :: IndexOf(items, board[p]) < IndexOf(items, board[q])
  }

  lemma IndexOfAt(xs: seq<Entry>, e: Entry, i: int)
    requires 0 <= i < |xs| && xs[i] == e && forall j | 0 <= j < i :: xs[j] != e
    ensures IndexOf(xs, e) == i
  {
  }

  /** The number of leading entries scoring at least `score`. */
  function LeadingAtLeast(sorted: seq<Entry>, score: int): (t: nat)
    ensures t <= |sorted|
    ensures forall i | 0 <= i < t :: sorted[i].1 >= score
    ensures t < |sorted| ==> sorted[t].1 < score
  {
    if sorted == [] || sorted[0].1 < score then 0 else 1 + LeadingAtLeast(sorted[1..], score)
  }

  /** `InsertByScore` puts the new entry right after the leading entries
      scoring at least as much. */
  lemma {:induction false} InsertByScoreAt(sorted: seq<Entry>, entry: Entry)
    ensures InsertByScore(sorted, entry) == sorted[..LeadingAtLeast(sorted, entry.1)] + [entry] + sorted[LeadingAtLeast(sorted, entry.1)..]
    decreases |sorted|
  {
    if sorted != [] && sorted[0].1 >= entry.1 {
      var rest := sorted[1..];
      InsertByScoreAt(rest, entry);
      var t' := LeadingAtLeast(rest, entry.1);
      assert LeadingAtLeast(sorted, entry.1) == t' + 1;
      assert InsertByScore(sorted, entry) == [sorted[0]] + InsertByScore(rest, entry);
      ConsSplit(sorted[0], rest[..t'], entry, rest[t'..]);
      assert sorted[..t' + 1] == [sorted[0]] + rest[..t'];
      assert sorted[t' + 1..] == rest[t'..];
    } else {
      assert sorted[..0] == [] && sorted[0..] == sorted;
    }
  }

  lemma ConsSplit<T>(x: T, a: seq<T>, e: T, b: seq<T>)
    ensures [x] + (a + [e] + b) == ([x] + a) + [e] + b
  {
  }

  /** Where `InsertByScore` puts the new entry in a sorted board: after every
      entry with a score at least as high, before every lower one. */
  lemma InsertByScoreSplit(sorted: seq<Entry>, entry: Entry) returns (t: nat)
    requires NonIncreasing(sorted)
    ensures t <= |sorted|
    ensures InsertByScore(sorted, entry) == sorted[..t] + [entry] + sorted[t..]
    ensures forall i | 0 <= i < t :: sorted[i].1 >= entry.1
    ensures forall i | t <= i < |sorted| :: sorted[i].1 < entry.1
  {
    t := LeadingAtLeast(sorted, entry.1);
    InsertByScoreAt(sorted, entry);
    forall i | t <= i < |sorted| ensures sorted[i].1 < entry.1 {
      assert sorted[t].1 >= sorted[i].1;
    }
  }

  /** Python's sort is stable: players with equal scores stay in the order
      of `scores.items()`, that is the order in which they first scored. */
  lemma {:induction false} SortStable(items: seq<Entry>)
    requires NoDuplicates(items)
    ensures Stable(items, SortByScore(items))
    decreases |items|
  {
    if items != [] {
      var init, x := items[..|items| - 1], items[|items| - 1];
      assert items == init + [x];
      SortStable(init);
      LeaderboardSpec(init);
      var t := InsertByScoreSplit(SortByScore(init), x);
      StableInsert(items, init, x, SortByScore(init), t);
    }
  }

  /** Appending `x` leaves the first positions of the earlier items alone
      and puts `x` last. */
  lemma IndexAfterAppend(items: seq<Entry>, init: seq<Entry>, x: Entry, s: seq<Entry>)
    requires items == init + [x] && NoDuplicates(items) && multiset(s) == multiset(init)
    ensures forall e | e in s :: IndexOf(items, e) == IndexOf(init, e) < |init|
    ensures IndexOf(items, x) == |init|
  {
    forall e | e in s ensures IndexOf(items, e) == IndexOf(init, e) < |init| {
      assert e in multiset(init);
      IndexOfAt(items, e, IndexOf(init, e));
    }
    assert x !in init by {
      forall j | 0 <= j < |init| ensures init[j] != x {
        assert items[j] == init[j] && items[|init|] == x;
      }
    }
    IndexOfAt(items, x, |init|);
  }

  /** Inserting the last item behind every entry scoring at least as much
      keeps the board stable. */
  lemma StableInsert(items: seq<Entry>, init: seq<Entry>, x: Entry, s: seq<Entry>, t: int)
    requires items == init + [x] && NoDuplicates(items)
    requires Stable(init, s) && multiset(s) == multiset(init)
    requires 0 <= t <= |s| && forall i | t <= i < |s| :: s[i].1 < x.1
    ensures Stable(items, s[..t] + [x] + s[t..])
  {
    var r := s[..t] + [x] + s[t..];
    IndexAfterAppend(items, init, x, s);
    InsertedAt(s, x, t);
    forall p, q | 0 <= p < q < |r| && r[p].1 == r[q].1 ensures IndexOf(items, r[p]) < IndexOf(items, r[q]) {
      if q == t {
        assert r[p] == s[p] && r[q] == x;
      } else {
        assert p != t;
        var p' := if p < t then p else p - 1;
        var q' := if q < t then q else q - 1;
        assert r[p] == s[p'] && r[q] == s[q'] && p' < q';
      }
    }
  }

  /** The entries of `s` with `x` inserted at position `t`. */
  lemma InsertedAt(s: seq<Entry>, x: Entry, t: int)
    requires 0 <= t <= |s|
    ensures |s[..t] + [x] + s[t..]| == |s| + 1
    ensures forall i | 0 <= i < t :: (s[..t] + [x] + s[t..])[i] == s[i]
    ensures (s[..t] + [x] + s[t..])[t] == x
    ensures forall i | t < i <= |s| :: (s[..t] + [x] + s[t..])[i] == s[i - 1]
  {
  }
}
