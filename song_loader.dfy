/** The catalog loader of `utils/song_loader.py`: the filtered, deduplicated
    song list, the cover and audio paths of a song, and the sorted lists of
    categories and versions present in the catalog. */
module SongLoader {
  import opened Text
  import opened Records

  // ------------------------------------------------------------- load_songs

  /** The filter of `load_songs`. A non-empty `difficulty` argument admits the
      master and remaster sheets whatever its value; an empty `category` or
      `version` argument (Python's `None` or `''`) does not filter. */
  predicate Passes(s: Song, difficulty: string, category: string, version: string)
  {
    && (difficulty == "" || s.difficulty == "master" || s.difficulty == "remaster")
    && (category == "" || s.category == category)
    && (version == "" || s.version == version)
  }

  /** The distinct entries of `ids`, in order of first appearance (the key
      order of a Python dict filled from `ids`). */
  function FirstOccurrences(ids: seq<string>): seq<string>
  {
    if ids == [] then []
    else
      var rest := FirstOccurrences(ids[..|ids| - 1]);
      if ids[|ids| - 1] in rest then rest else rest + [ids[|ids| - 1]]
  }

  lemma {:induction false} FirstOccurrencesSpec(ids: seq<string>)
    ensures NoDuplicates(FirstOccurrences(ids))
    ensures forall x :: x in FirstOccurrences(ids) <==> x in ids
    decreases |ids|
  {
    if ids != [] {
      FirstOccurrencesSpec(ids[..|ids| - 1]);
      assert ids == ids[..|ids| - 1] + [ids[|ids| - 1]];
    }
  }

  /** An entry of `FirstOccurrences(ids)` appears in `ids` before every later
      entry does: the list is ordered by first appearance. */
  lemma {:induction false} FirstOccurrencesOrdered(ids: seq<string>, k: int, l: int, j: int)
    requires 0 <= k < l < |FirstOccurrences(ids)|
    requires 0 <= j < |ids| && ids[j] == FirstOccurrences(ids)[l]
    ensures exists i :: 0 <= i < j && ids[i] == FirstOccurrences(ids)[k]
    decreases |ids|
  {
    var init := ids[..|ids| - 1];
    var rest := FirstOccurrences(init);
    FirstOccurrencesSpec(init);
    if j == |ids| - 1 {
      if l < |rest| {
        var j' :| 0 <= j' < |init| && init[j'] == rest[l];
        FirstOccurrencesOrdered(init, k, l, j');
      } else {
        assert FirstOccurrences(ids)[k] == rest[k];
        assert rest[k] in rest;
        assert rest[k] in init;
        var i :| 0 <= i < |init| && init[i] == rest[k];
        assert ids[i] == init[i];
      }
    } else {
      assert ids[j] == init[j];
      assert init[j] in init;
      assert init[j] in rest;
      assert l < |rest|;
      FirstOccurrencesOrdered(init, k, l, j);
      var i :| 0 <= i < j && init[i] == FirstOccurrences(init)[k];
      assert ids[i] == init[i];
    }
  }

  /** `s`, found at index `at` of `xs`, is the record `load_songs` keeps for its
      id: no record of that id has a higher level, and every earlier one has a
      lower level (the first of the highest-level records wins). */
  predicate KeptAt(xs: seq<Song>, s: Song, at: int)
  {
    && 0 <= at < |xs| && xs[at] == s
    && (forall j | 0 <= j < |xs| && xs[j].songId == s.songId :: xs[j].level <= s.level)
    && (forall j | 0 <= j < at && xs[j].songId == s.songId :: xs[j].level < s.level)
  }

  /** `s` is the record kept for its id. */
  predicate Kept(xs: seq<Song>, s: Song)
  {
    KeptAt(xs, s, IndexOf(xs, s))
  }

  /** The position a kept record was taken from is its first occurrence. */
  lemma KeptAtFirst(xs: seq<Song>, s: Song, at: int)
    requires KeptAt(xs, s, at)
    ensures Kept(xs, s)
  {
    assert IndexOf(xs, s) == at;
  }

  /** The contract of the deduplication: the ids in order of first appearance,
      each with the record kept for it. */
  predicate IsDeduplication(xs: seq<Song>, r: seq<Song>)
  {
    && Ids(r) == FirstOccurrences(Ids(xs))
    && (forall k | 0 <= k < |r| :: Kept(xs, r[k]))
  }

  lemma KeptAtSnoc(p: seq<Song>, t: Song, at: int, s: Song)
    requires KeptAt(p, t, at)
    requires s.songId != t.songId || s.level <= t.level
    ensures KeptAt(p + [s], t, at)
  {
    assert forall j | 0 <= j < |p| :: (p + [s])[j] == p[j];
  }

  lemma KeptNew(p: seq<Song>, s: Song)
    requires forall j | 0 <= j < |p| && p[j].songId == s.songId :: p[j].level < s.level
    ensures KeptAt(p + [s], s, |p|)
  {
    assert forall j | 0 <= j < |p| :: (p + [s])[j] == p[j];
  }

  /** The dict state of the loop: `order` lists the keys in insertion order,
      `kept` their values; the ghost `at` says where each value came from. */
  ghost predicate DedupState(p: seq<Song>, order: seq<string>, kept: map<string, Song>, at: map<string, int>)
  {
    && order == FirstOccurrences(Ids(p))
    && (forall id :: id in kept <==> id in order)
    && (forall id | id in kept :: id in at && kept[id].songId == id && KeptAt(p, kept[id], at[id]))
  }

  /** An id that is not a first occurrence does not occur at all. */
  lemma FreshId(ids: seq<string>, id: string)
    requires id !in FirstOccurrences(ids)
    ensures id !in ids
  {
    FirstOccurrencesSpec(ids);
  }

  lemma DedupIds(p: seq<Song>, s: Song)
    ensures Ids(p + [s]) == Ids(p) + [s.songId]
    ensures FirstOccurrences(Ids(p + [s])) ==
      if s.songId in FirstOccurrences(Ids(p)) then FirstOccurrences(Ids(p))
      else FirstOccurrences(Ids(p)) + [s.songId]
  {
    assert Ids(p + [s]) == Ids(p) + [s.songId];
    assert (Ids(p) + [s.songId])[..|Ids(p)|] == Ids(p);
  }

  /** A first record for its id is inserted at the end of the dict. */
  lemma DedupInsert(p: seq<Song>, order: seq<string>, kept: map<string, Song>, at: map<string, int>, s: Song)
    requires DedupState(p, order, kept, at) && s.songId !in kept
    ensures DedupState(p + [s], order + [s.songId], kept[s.songId := s], at[s.songId := |p|])
  {
    var p', id := p + [s], s.songId;
    var order', kept', at' := order + [id], kept[id := s], at[id := |p|];
    DedupIds(p, s);
    FreshId(Ids(p), id);
    IdsAbsent(p, id);
    KeptNew(p, s);
    forall x | x in kept' ensures x in at' && kept'[x].songId == x && KeptAt(p', kept'[x], at'[x]) {
      if x != id {
        KeptAtSnoc(p, kept[x], at[x], s);
      }
    }
    assert forall x :: x in kept' <==> x in order';
  }

  /** A record with a higher level than the kept one replaces it in place. */
  lemma DedupReplace(p: seq<Song>, order: seq<string>, kept: map<string, Song>, at: map<string, int>, s: Song)
    requires DedupState(p, order, kept, at) && s.songId in kept && s.level > kept[s.songId].level
    ensures DedupState(p + [s], order, kept[s.songId := s], at[s.songId := |p|])
  {
    DedupIds(p, s);
    var t := kept[s.songId];
    assert KeptAt(p, t, at[s.songId]);
    KeptNew(p, s);
    forall other | other in kept && other != s.songId ensures KeptAt(p + [s], kept[other], at[other]) {
      KeptAtSnoc(p, kept[other], at[other], s);
    }
  }

  /** Any other record leaves the dict as it is. */
  lemma DedupKeep(p: seq<Song>, order: seq<string>, kept: map<string, Song>, at: map<string, int>, s: Song)
    requires DedupState(p, order, kept, at) && s.songId in kept && s.level <= kept[s.songId].level
    ensures DedupState(p + [s], order, kept, at)
  {
    DedupIds(p, s);
    forall other | other in kept ensures KeptAt(p + [s], kept[other], at[other]) {
      KeptAtSnoc(p, kept[other], at[other], s);
    }
  }

  lemma DedupFinish(p: seq<Song>, order: seq<string>, kept: map<string, Song>, at: map<string, int>, r: seq<Song>)
    requires DedupState(p, order, kept, at)
    requires |r| == |order| && forall k | 0 <= k < |order| :: order[k] in kept && r[k] == kept[order[k]]
    ensures IsDeduplication(p, r)
  {
    assert Ids(r) == order by {
      forall k | 0 <= k < |r| ensures Ids(r)[k] == order[k] {
        assert kept[order[k]].songId == order[k];
      }
    }
    forall k | 0 <= k < |r| ensures Kept(p, r[k]) {
      KeptAtFirst(p, r[k], at[order[k]]);
    }
    assert Ids(r) == FirstOccurrences(Ids(p));
  }

  /** The dict's values in key order (`list(kept.values())`). */
  function KeptValues(order: seq<string>, kept: map<string, Song>): (r: seq<Song>)
    requires forall k | 0 <= k < |order| :: order[k] in kept
    ensures |r| == |order| && forall k | 0 <= k < |order| :: r[k] == kept[order[k]]
  {
    if order == [] then [] else [kept[order[0]]] + KeptValues(order[1..], kept)
  }

  /** The dict after the loop over `p`, one record at a time, as `Absorb`. */
  ghost function DedupFold(p: seq<Song>): (seq<string>, map<string, Song>, map<string, int>)
    decreases |p|
  {
    if p == [] then ([], map[], map[])
    else
      var init, s := p[..|p| - 1], p[|p| - 1];
      var st := DedupFold(init);
      if s.songId !in st.1 then (st.0 + [s.songId], st.1[s.songId := s], st.2[s.songId := |init|])
      else if s.level > st.1[s.songId].level then (st.0, st.1[s.songId := s], st.2[s.songId := |init|])
      else st
  }

  /** The fold keeps the loop's invariant, record by record. */
  lemma {:induction false} DedupFoldState(p: seq<Song>)
    ensures var st := DedupFold(p); DedupState(p, st.0, st.1, st.2)
    decreases |p|
  {
    if p != [] {
      var init, s := p[..|p| - 1], p[|p| - 1];
      assert init + [s] == p;
      DedupFoldState(init);
      var st := DedupFold(init);
      if s.songId !in st.1 {
        DedupInsert(init, st.0, st.1, st.2, s);
      } else if s.level > st.1[s.songId].level {
        DedupReplace(init, st.0, st.1, st.2, s);
      } else {
        DedupKeep(init, st.0, st.1, st.2, s);
      }
    }
  }

  /** The deduplication of a list of records: the dict's values after the
      loop over the whole list. */
  ghost function Deduplicated(xs: seq<Song>): seq<Song>
  {
    var st := DedupFold(xs);
    DedupFoldState(xs);
    KeptValues(st.0, st.1)
  }

  /** `Deduplicated` is a deduplication, hence the only one. */
  lemma DeduplicatedSpec(xs: seq<Song>)
    ensures IsDeduplication(xs, Deduplicated(xs))
  {
    var st := DedupFold(xs);
    DedupFoldState(xs);
    DedupFinish(xs, st.0, st.1, st.2, KeptValues(st.0, st.1));
  }

  /** One step of the dict loop: a record with a new id is appended, one with a
      higher level than the kept record replaces it, and any other leaves the
      dict alone. */
  method Absorb(ghost p: seq<Song>, order: seq<string>, kept: map<string, Song>, ghost at: map<string, int>, s: Song)
    returns (order': seq<string>, kept': map<string, Song>, ghost at': map<string, int>)
    requires DedupState(p, order, kept, at)
    ensures DedupState(p + [s], order', kept', at')
    ensures s.songId in kept' && kept'[s.songId].level >= s.level
  {
    var id := s.songId;
    if id !in kept {
      DedupInsert(p, order, kept, at, s);
      order', kept', at' := order + [id], kept[id := s], at[id := |p|];
    } else if s.level > kept[id].level {
      DedupReplace(p, order, kept, at, s);
      order', kept', at' := order, kept[id := s], at[id := |p|];
    } else {
      DedupKeep(p, order, kept, at, s);
      order', kept', at' := order, kept, at;
    }
  }

  /** `load_songs(difficulty, category, version)` on the catalog read from
      `output.json`; `None` for the catalog is a missing file, for which the
      loader raises. */
  method LoadSongs(catalog: Option<seq<Song>>, difficulty: string, category: string, version: string)
    returns (r: Option<seq<Song>>)
    ensures r.None? <==> catalog.None?
    ensures r.Some? ==> IsDeduplication(Filter(catalog.value, (s: Song) => Passes(s, difficulty, category, version)), r.value)
    ensures r.Some? ==> r.value == Deduplicated(Filter(catalog.value, (s: Song) => Passes(s, difficulty, category, version)))
  {
    if catalog.None? {
      return None;
    }
    var all := catalog.value;
    var keep := (s: Song) => Passes(s, difficulty, category, version);
    var order: seq<string> := [];
    var kept: map<string, Song> := map[];
    ghost var at: map<string, int> := map[];
    ghost var passed: seq<Song> := [];
    var i := 0;
    while i < |all|
      invariant 0 <= i <= |all|
      invariant passed == Filter(all[..i], keep)
      invariant DedupState(passed, order, kept, at)
    {
      var song := all[i];
      FilterPrefixStep(all, i, keep);
      if !Passes(song, difficulty, category, version) {
        i := i + 1;
        continue;
      }
      order, kept, at := Absorb(passed, order, kept, at, song);
      passed := passed + [song];
      i := i + 1;
    }
    assert all[..|all|] == all;
    var values := KeptValues(order, kept);
    DedupFinish(passed, order, kept, at, values);
    DeduplicatedSpec(passed);
    DeduplicationUnique(passed, values, Deduplicated(passed));
    return Some(values);
  }

  /** What `load_songs` promises about its result: ids are unique, every
      passing id is present, every record is a passing record carrying the
      highest level of its id, and the first of several equally high records
      wins. */
  lemma DeduplicationProperties(xs: seq<Song>, r: seq<Song>)
    requires IsDeduplication(xs, r)
    ensures NoDuplicates(Ids(r))
    ensures forall i | 0 <= i < |xs| :: xs[i].songId in Ids(r)
    ensures forall k | 0 <= k < |r| :: r[k] in xs
    ensures forall k, j | 0 <= k < |r| && 0 <= j < |xs| && xs[j].songId == r[k].songId :: xs[j].level <= r[k].level
  {
    FirstOccurrencesSpec(Ids(xs));
    forall i | 0 <= i < |xs| ensures xs[i].songId in Ids(r) {
      assert Ids(xs)[i] == xs[i].songId;
    }
    forall k | 0 <= k < |r| ensures r[k] in xs {
      assert Kept(xs, r[k]);
    }
  }

  /** Every record `load_songs` returns comes from the catalog and passes the
      filter; the value of a non-empty `difficulty` argument plays no part. */
  lemma LoadedSongsPass(catalog: seq<Song>, difficulty: string, category: string, version: string, r: seq<Song>)
    requires IsDeduplication(Filter(catalog, (s: Song) => Passes(s, difficulty, category, version)), r)
    ensures forall k | 0 <= k < |r| :: r[k] in catalog && Passes(r[k], difficulty, category, version)
    ensures forall k | 0 <= k < |r| :: r[k].difficulty == "master" || r[k].difficulty == "remaster" || difficulty == ""
  {
    var keep := (s: Song) => Passes(s, difficulty, category, version);
    DeduplicationProperties(Filter(catalog, keep), r);
    FilterMembers(catalog, keep);
  }

  /** The result lists the ids in the order their first passing record
      appears in the catalog. */
  lemma DeduplicationOrder(xs: seq<Song>, r: seq<Song>, k: int, l: int, j: int)
    requires IsDeduplication(xs, r)
    requires 0 <= k < l < |r| && 0 <= j < |xs| && xs[j].songId == r[l].songId
    ensures exists i :: 0 <= i < j && xs[i].songId == r[k].songId
  {
    assert Ids(xs)[j] == xs[j].songId;
    assert Ids(r)[l] == r[l].songId && Ids(r)[k] == r[k].songId;
    FirstOccurrencesOrdered(Ids(xs), k, l, j);
    var i :| 0 <= i < j && Ids(xs)[i] == FirstOccurrences(Ids(xs))[k];
    assert xs[i].songId == Ids(xs)[i];
  }

  /** The contract fixes the output completely: two deduplications of the
      same records are equal. */
  lemma DeduplicationUnique(xs: seq<Song>, r1: seq<Song>, r2: seq<Song>)
    requires IsDeduplication(xs, r1) && IsDeduplication(xs, r2)
    ensures r1 == r2
  {
    assert |r1| == |Ids(r1)| == |Ids(r2)| == |r2|;
    forall k | 0 <= k < |r1| ensures r1[k] == r2[k] {
      var a1, a2 := IndexOf(xs, r1[k]), IndexOf(xs, r2[k]);
      assert Kept(xs, r1[k]) && Kept(xs, r2[k]);
      assert Ids(r1)[k] == Ids(r2)[k];
      assert r1[k].songId == r2[k].songId;
      assert a1 == a2;
    }
  }

  // ------------------------------------------------------------ media paths

  /** `get_song_image_path`: `images/<image>` when the song names an image and
      that file exists. */
  function ImagePath(song: Song, fileExists: string -> bool): (p: Option<string>)
    ensures p.Some? <==> song.image != "" && fileExists("images/" + song.image)
    ensures p.Some? ==> p.value == "images/" + song.image
  {
    if song.image == "" then None
    else if fileExists("images/" + song.image) then Some("images/" + song.image)
    else None
  }

  /** The audio file name of an image name: every ".png" becomes ".mp3". */
  function AudioName(image: string): string
  {
    ReplaceAll(image, ".png", ".mp3")
  }

  /** `get_song_audio_path`: `audio/<image with .png replaced by .mp3>` when
      the song names an image and that file exists. */
  function AudioPath(song: Song, fileExists: string -> bool): (p: Option<string>)
    ensures p.Some? <==> song.image != "" && fileExists("audio/" + AudioName(song.image))
    ensures p.Some? ==> p.value == "audio/" + AudioName(song.image)
  {
    if song.image == "" then None
    else
      var path := "audio/" + AudioName(song.image);
      if fileExists(path) then Some(path) else None
  }

  /** An image named `<stem>.png`, with no other ".png" inside, has its audio at
      `<stem>.mp3`; the name keeps its length. */
  lemma AudioNameOfImage(stem: string)
    requires forall i | 0 <= i < |stem| :: !OccursAt(stem + ".png", ".png", i)
    ensures AudioName(stem + ".png") == stem + ".mp3"
    ensures |AudioName(stem + ".png")| == |stem + ".png"|
  {
    ReplaceAllSuffix(stem, ".png", ".mp3");
  }

  // ---------------------------------------------------- available filter values

  /** `v` inserted into the strictly sorted list `xs`, unless already there. */
  function InsertSorted(xs: seq<string>, v: string): seq<string>
  {
    if xs == [] then [v]
    else if v == xs[0] then xs
    else if LexLess(v, xs[0]) then [v] + xs
    else [xs[0]] + InsertSorted(xs[1..], v)
  }

  predicate StrictlySorted(xs: seq<string>)
  {
    forall k, l | 0 <= k < l < |xs| :: LexLess(xs[k], xs[l])
  }

  lemma {:induction false} InsertSortedSpec(xs: seq<string>, v: string)
    requires StrictlySorted(xs)
    ensures StrictlySorted(InsertSorted(xs, v))
    ensures forall x :: x in InsertSorted(xs, v) <==> x in xs || x == v
    decreases |xs|
  {
    if xs != [] && v != xs[0] && !LexLess(v, xs[0]) {
      LexLessTotal(v, xs[0]);
      InsertSortedSpec(xs[1..], v);
      var rest := InsertSorted(xs[1..], v);
      var r := [xs[0]] + rest;
      forall k | 0 <= k < |rest| ensures LexLess(xs[0], rest[k]) {
        assert rest[k] in rest;
        if rest[k] != v {
          assert rest[k] in xs[1..];
          var j :| 0 <= j < |xs[1..]| && xs[1..][j] == rest[k];
          assert xs[j + 1] == rest[k];
        }
      }
      forall k, l | 0 <= k < l < |r| ensures LexLess(r[k], r[l]) {
        if k > 0 { assert r[k] == rest[k - 1] && r[l] == rest[l - 1]; }
        else { assert r[l] == rest[l - 1]; }
      }
      assert forall x :: x in xs <==> x == xs[0] || x in xs[1..] by {
        assert xs == [xs[0]] + xs[1..];
      }
    } else if xs != [] && LexLess(v, xs[0]) {
      var r := [v] + xs;
      forall k, l | 0 <= k < l < |r| ensures LexLess(r[k], r[l]) {
        if k == 0 && l > 1 { LexLessTransitive(v, xs[0], xs[l - 1]); }
      }
    }
  }

  /** `sorted(set(pick(s) for s in songs if pick(s)))`. */
  function AvailableValues(songs: seq<Song>, pick: Song -> string): seq<string>
  {
    if songs == [] then []
    else
      var rest := AvailableValues(songs[..|songs| - 1], pick);
      var v := pick(songs[|songs| - 1]);
      if v == "" then rest else InsertSorted(rest, v)
  }

  /** The lists offered for the category and version filters are sorted,
      without duplicates, and hold exactly the non-empty values in the data. */
  lemma {:induction false} AvailableValuesSpec(songs: seq<Song>, pick: Song -> string)
    ensures StrictlySorted(AvailableValues(songs, pick))
    ensures NoDuplicates(AvailableValues(songs, pick))
    ensures forall v :: v in AvailableValues(songs, pick) <==>
      v != "" && exists k :: 0 <= k < |songs| && pick(songs[k]) == v
    decreases |songs|
  {
    if songs != [] {
      var init := songs[..|songs| - 1];
      AvailableValuesSpec(init, pick);
      var rest := AvailableValues(init, pick);
      var v := pick(songs[|songs| - 1]);
      if v != "" { InsertSortedSpec(rest, v); }
      forall x ensures x in AvailableValues(songs, pick) <==> x != "" && exists k :: 0 <= k < |songs| && pick(songs[k]) == x {
        if exists k :: 0 <= k < |init| && pick(init[k]) == x {
          var k :| 0 <= k < |init| && pick(init[k]) == x;
          assert songs[k] == init[k];
        }
        if exists k :: 0 <= k < |songs| && pick(songs[k]) == x {
          var k :| 0 <= k < |songs| && pick(songs[k]) == x;
          if k < |init| { assert songs[k] == init[k]; }
        }
      }
    }
    var r := AvailableValues(songs, pick);
    forall i, j | 0 <= i < j < |r| ensures r[i] != r[j] {
      if r[i] == r[j] { LexLessIrreflexive(r[i]); }
    }
  }

  /** `get_available_categories`. */
  function AvailableCategories(songs: seq<Song>): seq<string>
  {
    AvailableValues(songs, (s: Song) => s.category)
  }

  /** `get_available_versions`. */
  function AvailableVersions(songs: seq<Song>): seq<string>
  {
    AvailableValues(songs, (s: Song) => s.version)
  }
}
