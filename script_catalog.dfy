/** The helpers the three audio scripts (`replace_audio.py`,
    `manual_audio_download.py`, `download_audio.py`) each define in the same
    words: the master-only, first-occurrence catalog and the audio file name. */
module ScriptCatalog {
  import opened Text
  import opened Records
  import SongLoader

  predicate IsMaster(s: Song)
  {
    s.difficulty == "master"
  }

  /** `r` keeps, for each id of `xs` in order of first appearance, the first
      record carrying it. */
  ghost predicate KeepsFirst(xs: seq<Song>, r: seq<Song>)
  {
    && Ids(r) == SongLoader.FirstOccurrences(Ids(xs))
    && (forall k | 0 <= k < |r| :: IndexOf(Ids(xs), r[k].songId) < |xs| && r[k] == xs[IndexOf(Ids(xs), r[k].songId)])
  }

  /** `s` is the record at `a` in `p`, and no earlier record has its id. */
  predicate FirstAt(p: seq<Song>, s: Song, a: int)
  {
    && 0 <= a < |p| && p[a] == s
    && forall j | 0 <= j < a :: p[j].songId != s.songId
  }

  /** The dict state of the loop: keys in insertion order, each with the first
      record of its id, found at the ghost position `at[id]`. */
  ghost predicate DictState(p: seq<Song>, order: seq<string>, kept: map<string, Song>, at: map<string, int>)
  {
    && order == SongLoader.FirstOccurrences(Ids(p))
    && (forall id :: id in kept <==> id in order)
    && (forall id | id in kept :: id in at && kept[id].songId == id && FirstAt(p, kept[id], at[id]))
  }

  lemma FirstAtSnoc(p: seq<Song>, t: Song, a: int, s: Song)
    requires FirstAt(p, t, a)
    ensures FirstAt(p + [s], t, a)
  {
    assert forall j | 0 <= j < |p| :: (p + [s])[j] == p[j];
  }

  /** A record whose id occurs nowhere before is the first of its id. */
  lemma FirstAtNew(p: seq<Song>, s: Song)
    requires forall j | 0 <= j < |p| :: p[j].songId != s.songId
    ensures FirstAt(p + [s], s, |p|)
  {
    assert forall j | 0 <= j < |p| :: (p + [s])[j] == p[j];
  }

  lemma DictInsert(p: seq<Song>, order: seq<string>, kept: map<string, Song>, at: map<string, int>, s: Song)
    requires DictState(p, order, kept, at) && s.songId !in kept
    ensures DictState(p + [s], order + [s.songId], kept[s.songId := s], at[s.songId := |p|])
  {
    var id := s.songId;
    var kept', at' := kept[id := s], at[id := |p|];
    SongLoader.DedupIds(p, s);
    SongLoader.FreshId(Ids(p), id);
    IdsAbsent(p, id);
    FirstAtNew(p, s);
    forall x | x in kept' ensures x in at' && kept'[x].songId == x && FirstAt(p + [s], kept'[x], at'[x]) {
      if x != id {
        FirstAtSnoc(p, kept[x], at[x], s);
      }
    }
  }

  lemma DictKeep(p: seq<Song>, order: seq<string>, kept: map<string, Song>, at: map<string, int>, s: Song)
    requires DictState(p, order, kept, at) && s.songId in kept
    ensures DictState(p + [s], order, kept, at)
  {
    SongLoader.DedupIds(p, s);
    forall x | x in kept ensures FirstAt(p + [s], kept[x], at[x]) {
      FirstAtSnoc(p, kept[x], at[x], s);
    }
  }

  /** The position recorded for an id is its first index. */
  lemma IdIndexAt(p: seq<Song>, id: string, a: int)
    requires 0 <= a < |p| && p[a].songId == id
    requires forall j | 0 <= j < a :: p[j].songId != id
    ensures IndexOf(Ids(p), id) == a
  {
    assert Ids(p)[a] == id;
    assert forall j | 0 <= j < a :: Ids(p)[j] != id;
  }

  lemma DictFinish(p: seq<Song>, order: seq<string>, kept: map<string, Song>, at: map<string, int>, r: seq<Song>)
    requires DictState(p, order, kept, at)
    requires |r| == |order| && forall k | 0 <= k < |order| :: order[k] in kept && r[k] == kept[order[k]]
    ensures KeepsFirst(p, r)
  {
    assert Ids(r) == order by {
      forall k | 0 <= k < |r| ensures Ids(r)[k] == order[k] {
        assert kept[order[k]].songId == order[k];
      }
    }
    forall k | 0 <= k < |r| ensures IndexOf(Ids(p), r[k].songId) < |p| && r[k] == p[IndexOf(Ids(p), r[k].songId)] {
      var id := order[k];
      assert id in kept;
      IdIndexAt(p, id, at[id]);
    }
  }

  /** One step of the dict loop: a master chart with a new id is appended, and
      one whose id is already a key leaves the dict alone. */
  method TakeFirst(ghost p: seq<Song>, order: seq<string>, kept: map<string, Song>, ghost at: map<string, int>, s: Song)
    returns (order': seq<string>, kept': map<string, Song>, ghost at': map<string, int>)
    requires DictState(p, order, kept, at)
    ensures DictState(p + [s], order', kept', at')
    ensures kept' == if s.songId in kept then kept else kept[s.songId := s]
  {
    if s.songId !in kept {
      DictInsert(p, order, kept, at, s);
      order', kept', at' := order + [s.songId], kept[s.songId := s], at[s.songId := |p|];
    } else {
      DictKeep(p, order, kept, at, s);
      order', kept', at' := order, kept, at;
    }
  }

  /** `load_songs()` of the scripts: the master charts of `output.json`, the
      first record of each id, in order of first appearance. */
  method LoadMasterSongs(songs: seq<Song>) returns (r: seq<Song>)
    ensures KeepsFirst(Filter(songs, IsMaster), r)
  {
    var order: seq<string> := [];
    var kept: map<string, Song> := map[];
    ghost var at: map<string, int> := map[];
    ghost var passed: seq<Song> := [];
    var i := 0;
    while i < |songs|
      invariant 0 <= i <= |songs|
      invariant passed == Filter(songs[..i], IsMaster)
      invariant DictState(passed, order, kept, at)
    {
      var song := songs[i];
      FilterPrefixStep(songs, i, IsMaster);
      if song.difficulty == "master" {
        order, kept, at := TakeFirst(passed, order, kept, at, song);
        passed := passed + [song];
      }
      i := i + 1;
    }
    assert songs[..|songs|] == songs;
    r := SongLoader.KeptValues(order, kept);
    DictFinish(passed, order, kept, at, r);
  }

  /** What a first-occurrence catalog of `xs` is: each id once, every record
      taken from `xs`, every id of `xs` present, and each record found no
      later than any other record of its id. */
  lemma KeepsFirstOf(xs: seq<Song>, r: seq<Song>)
    requires KeepsFirst(xs, r)
    ensures NoDuplicates(Ids(r))
    ensures forall k | 0 <= k < |r| :: r[k] in xs
    ensures forall j | 0 <= j < |xs| :: xs[j].songId in Ids(r)
    ensures forall k, j | 0 <= k < |r| && 0 <= j < |xs| && xs[j].songId == r[k].songId ::
      IndexOf(Ids(xs), r[k].songId) <= j
  {
    SongLoader.FirstOccurrencesSpec(Ids(xs));
    forall j | 0 <= j < |xs| ensures xs[j].songId in Ids(r) {
      assert Ids(xs)[j] == xs[j].songId;
    }
    forall k, j | 0 <= k < |r| && 0 <= j < |xs| && xs[j].songId == r[k].songId
      ensures IndexOf(Ids(xs), r[k].songId) <= j
    {
      assert Ids(xs)[j] == r[k].songId;
    }
  }

  /** What the scripts' catalog is: master charts only, each id once, every
      master id present, each record the first master record of its id. */
  lemma KeepsFirstProperties(songs: seq<Song>, r: seq<Song>)
    requires KeepsFirst(Filter(songs, IsMaster), r)
    ensures NoDuplicates(Ids(r))
    ensures forall k | 0 <= k < |r| :: r[k] in songs && IsMaster(r[k])
    ensures forall i | 0 <= i < |songs| && IsMaster(songs[i]) :: songs[i].songId in Ids(r)
    ensures forall k, i | 0 <= k < |r| && 0 <= i < |songs| && IsMaster(songs[i]) && songs[i].songId == r[k].songId ::
      songs[i] in Filter(songs, IsMaster)[IndexOf(Ids(Filter(songs, IsMaster)), r[k].songId)..]
  {
    KeepsFirstOf(Filter(songs, IsMaster), r);
    KeepsFirstSound(songs, r);
    KeepsFirstComplete(songs, r);
  }

  /** Every record of the catalog is a master chart of `songs`. */
  lemma KeepsFirstSound(songs: seq<Song>, r: seq<Song>)
    requires KeepsFirst(Filter(songs, IsMaster), r)
    ensures forall k | 0 <= k < |r| :: r[k] in songs && IsMaster(r[k])
  {
    FilterSound(songs, IsMaster);
    CatalogFromMasters(songs, Filter(songs, IsMaster), r);
  }

  lemma CatalogFromMasters(songs: seq<Song>, m: seq<Song>, r: seq<Song>)
    requires KeepsFirst(m, r)
    requires forall k | 0 <= k < |m| :: m[k] in songs && IsMaster(m[k])
    ensures forall k | 0 <= k < |r| :: r[k] in songs && IsMaster(r[k])
  {
    KeepsFirstOf(m, r);
    forall k | 0 <= k < |r| ensures r[k] in songs && IsMaster(r[k]) {
      var j :| 0 <= j < |m| && m[j] == r[k];
    }
  }

  /** Every master id is in the catalog, and no later master record of an id
      comes before the one kept. */
  lemma KeepsFirstComplete(songs: seq<Song>, r: seq<Song>)
    requires KeepsFirst(Filter(songs, IsMaster), r)
    ensures forall i | 0 <= i < |songs| && IsMaster(songs[i]) :: songs[i].songId in Ids(r)
    ensures forall k, i | 0 <= k < |r| && 0 <= i < |songs| && IsMaster(songs[i]) && songs[i].songId == r[k].songId ::
      songs[i] in Filter(songs, IsMaster)[IndexOf(Ids(Filter(songs, IsMaster)), r[k].songId)..]
  {
    FilterComplete(songs, IsMaster);
    MastersInCatalog(songs, Filter(songs, IsMaster), r);
  }

  lemma MastersInCatalog(songs: seq<Song>, m: seq<Song>, r: seq<Song>)
    requires KeepsFirst(m, r)
    requires forall i | 0 <= i < |songs| && IsMaster(songs[i]) :: songs[i] in m
    ensures forall i | 0 <= i < |songs| && IsMaster(songs[i]) :: songs[i].songId in Ids(r)
    ensures forall k, i | 0 <= k < |r| && 0 <= i < |songs| && IsMaster(songs[i]) && songs[i].songId == r[k].songId ::
      songs[i] in m[IndexOf(Ids(m), r[k].songId)..]
  {
    KeepsFirstOf(m, r);
    forall i | 0 <= i < |songs| && IsMaster(songs[i]) ensures songs[i].songId in Ids(r) {
      var j :| 0 <= j < |m| && m[j] == songs[i];
    }
    forall k, i | 0 <= k < |r| && 0 <= i < |songs| && IsMaster(songs[i]) && songs[i].songId == r[k].songId
      ensures songs[i] in m[IndexOf(Ids(m), r[k].songId)..]
    {
      var j :| 0 <= j < |m| && m[j] == songs[i];
      var f := IndexOf(Ids(m), r[k].songId);
      assert m[j].songId == r[k].songId;
      assert f <= j;
      InSuffix(m, f, j);
    }
  }

  lemma InSuffix(m: seq<Song>, f: int, j: int)
    requires 0 <= f <= j < |m|
    ensures m[j] in m[f..]
  {
    assert m[f..][j - f] == m[j];
  }

  /** The contract fixes the catalog completely. */
  lemma KeepsFirstUnique(xs: seq<Song>, r1: seq<Song>, r2: seq<Song>)
    requires KeepsFirst(xs, r1) && KeepsFirst(xs, r2)
    ensures r1 == r2
  {
    assert |r1| == |Ids(r1)| == |Ids(r2)| == |r2|;
    forall k | 0 <= k < |r1| ensures r1[k] == r2[k] {
      assert Ids(r1)[k] == Ids(r2)[k];
    }
  }

  /** `get_audio_filename(song)`. */
  function AudioFilename(song: Song): string
  {
    if song.image != "" then SongLoader.AudioName(song.image) else song.songId + ".mp3"
  }

  /** The file name: ".png" replaced by ".mp3" in a non-empty image name, and
      `<song_id>.mp3` without one. */
  lemma AudioFilenameSpec(song: Song, stem: string)
    requires song.image == stem + ".png"
    requires forall i | 0 <= i < |stem| :: !OccursAt(stem + ".png", ".png", i)
    ensures AudioFilename(song) == stem + ".mp3"
  {
    SongLoader.AudioNameOfImage(stem);
  }

  lemma AudioFilenameWithoutImage(song: Song)
    requires song.image == ""
    ensures AudioFilename(song) == song.songId + ".mp3"
  {
  }

  /** A script's file for a song with an image is the file the bot plays. */
  lemma ScriptAndBotAgree(song: Song, fileExists: string -> bool)
    requires song.image != ""
    ensures SongLoader.AudioPath(song, fileExists).Some? <==> fileExists("audio/" + AudioFilename(song))
  {
  }

  /** The URL test before a download: the text names youtube.com or youtu.be. */
  predicate IsYoutubeUrl(url: string)
  {
    Contains(url, "youtube.com") || Contains(url, "youtu.be")
  }

  /** The songs whose audio file is absent, in catalog order. */
  function Missing(songs: seq<Song>, fileExists: string -> bool): seq<Song>
  {
    Filter(songs, (s: Song) => !fileExists("audio/" + AudioFilename(s)))
  }

  /** The missing list is exactly the songs without an audio file, in order. */
  lemma MissingSpec(songs: seq<Song>, fileExists: string -> bool)
    ensures forall k | 0 <= k < |Missing(songs, fileExists)| ::
      Missing(songs, fileExists)[k] in songs && !fileExists("audio/" + AudioFilename(Missing(songs, fileExists)[k]))
    ensures forall i | 0 <= i < |songs| && !fileExists("audio/" + AudioFilename(songs[i])) :: songs[i] in Missing(songs, fileExists)
    ensures IsSubsequence(Missing(songs, fileExists), songs)
  {
    FilterMembers(songs, (s: Song) => !fileExists("audio/" + AudioFilename(s)));
    FilterIsSubsequence(songs, (s: Song) => !fileExists("audio/" + AudioFilename(s)));
  }

  /** One `{path: mtime}` entry of a listing of the `.mp3` files of `audio`; the paths
      carry the directory, as `"audio/" + name`. */
  type Listing = seq<(string, real)>

  /** `Path.name`: the part of a path after its last `/`. */
  function BaseName(path: string): (r: string)
    ensures '/' !in r && |r| <= |path| && r == path[|path| - |r|..]
    ensures |r| < |path| ==> path[|path| - |r| - 1] == '/'
  {
    if path == [] then []
    else if path[|path| - 1] == '/' then []
    else BaseName(path[..|path| - 1]) + [path[|path| - 1]]
  }

  /** The name of a file of the audio directory is what follows `audio/`. */
  lemma {:induction false} AudioBaseName(name: string)
    requires '/' !in name
    ensures BaseName("audio/" + name) == name
    decreases |name|
  {
    if name != [] {
      var p, init := "audio/" + name, name[..|name| - 1];
      assert p[..|p| - 1] == "audio/" + init;
      assert p[|p| - 1] == name[|name| - 1];
      assert '/' !in init by {
        forall k | 0 <= k < |init| ensures init[k] != '/' {
          assert init[k] == name[k];
        }
      }
      AudioBaseName(init);
      assert init + [name[|name| - 1]] == name;
    }
  }



  /** Whether a file of the listing after a download is new: absent before,
      or modified since (`mtime > files_before.get(f, 0)`). */
  predicate IsNewFile(entry: (string, real), before: map<string, real>)
  {
    entry.0 !in before || entry.1 > (if entry.0 in before then before[entry.0] else 0.0)
  }

  /** The new files, in listing order. */
  function NewFiles(after: Listing, before: map<string, real>): seq<(string, real)>
  {
    Filter(after, (e: (string, real)) => IsNewFile(e, before))
  }

  /** A listed file is selected exactly when it was absent before or its
      modification time increased; the selection keeps the listing order. */
  lemma NewFilesSpec(after: Listing, before: map<string, real>)
    ensures forall k | 0 <= k < |NewFiles(after, before)| :: NewFiles(after, before)[k] in after
    ensures forall e | e in after :: e in NewFiles(after, before) <==> (e.0 !in before || e.1 > before[e.0])
    ensures IsSubsequence(NewFiles(after, before), after)
  {
    var p := (e: (string, real)) => IsNewFile(e, before);
    FilterMembers(after, p);
    FilterIsSubsequence(after, p);
    forall e | e in after ensures e in NewFiles(after, before) <==> (e.0 !in before || e.1 > before[e.0]) {
      var i :| 0 <= i < |after| && after[i] == e;
      if e in NewFiles(after, before) {
        var k :| 0 <= k < |NewFiles(after, before)| && NewFiles(after, before)[k] == e;
      }
    }
  }
}
