/** The catalog build of `convert_data.py`: file-name cleaning, the English
    and romaji name lookups, the romaji-failure fallback, and the loop that
    turns the downloaded song list into the chart entries of `output.json`. */
module ConvertData {
  import opened Text
  import opened Records
  import opened ConvertTables

  // --------------------------------------------------------- clean_filename

  /** The characters `clean_filename` replaces by '_', in its order. */
  const InvalidChars: seq<char> := ['<', '>', ':', '"', '/', '\\', '|', '?', '*']

  /** What `clean_filename` does to one character. */
  function CleanChar(c: char): char
  {
    if c in InvalidChars then '_' else c
  }

  /** The character-wise meaning of `clean_filename`. */
  function CleanName(s: string): (r: string)
    ensures |r| == |s|
    ensures forall i | 0 <= i < |s| :: r[i] == CleanChar(s[i])
  {
    if s == [] then [] else [CleanChar(s[0])] + CleanName(s[1..])
  }

  /** `clean_filename(name)`: one `str.replace` per invalid character. */
  method CleanFilename(name: string) returns (r: string)
    ensures r == CleanName(name)
  {
    r := name;
    var k := 0;
    while k < |InvalidChars|
      invariant 0 <= k <= |InvalidChars|
      invariant |r| == |name|
      invariant forall i | 0 <= i < |name| :: r[i] == if name[i] in InvalidChars[..k] then '_' else name[i]
    {
      ReplaceAllSingle(r, InvalidChars[k], '_');
      assert InvalidChars[..k + 1] == InvalidChars[..k] + [InvalidChars[k]];
      r := ReplaceAll(r, [InvalidChars[k]], "_");
      k := k + 1;
    }
    assert InvalidChars[..k] == InvalidChars;
  }

  /** A cleaned name has the same length, none of the invalid characters,
      every other character in place, and cleaning it again changes nothing. */
  lemma CleanNameSpec(s: string)
    ensures |CleanName(s)| == |s|
    ensures forall i | 0 <= i < |s| :: CleanName(s)[i] !in InvalidChars
    ensures forall i | 0 <= i < |s| && s[i] !in InvalidChars :: CleanName(s)[i] == s[i]
    ensures CleanName(CleanName(s)) == CleanName(s)
  {
    assert '_' !in InvalidChars;
  }

  // -------------------------------------------------------- name lookups

  /** Where `main` takes a chart's names from: `cutlet`'s `romaji` converter,
      the English table of `get_english_translation` and the override table
      of `get_romaji_override`. The lookups take the tables as values so that
      the proofs of the chart loop hold for any table contents. */
  datatype Namer = Namer(cutlet: string -> string, translations: map<string, string>, overrides: map<string, string>)

  /** The namer of `main`: the given converter and the two tables of the
      program. */
  function ProgramNamer(cutlet: string -> string): Namer
  {
    Namer(cutlet, KnownTranslations, RomajiOverrides)
  }

  /** `get_english_translation(title, artist, song_id)` over the English
      table `table`; the artist and id are not consulted. */
  function EnglishTranslation(title: string, table: map<string, string>): string
  {
    if AllAscii(title) then title
    else if title in table then table[title]
    else ""
  }

  /** The three outcomes of the English lookup: an all-ASCII title is its own
      English name, a non-ASCII title in the table gets the table's entry, and
      any other title gets the empty string. So the table's ASCII keys are
      never consulted. */
  lemma EnglishTranslationSpec(title: string, table: map<string, string>)
    ensures AllAscii(title) ==> EnglishTranslation(title, table) == title
    ensures !AllAscii(title) && title in table ==> EnglishTranslation(title, table) == table[title]
    ensures !AllAscii(title) && title !in table ==> EnglishTranslation(title, table) == ""
    ensures EnglishTranslation(title, table) == title || EnglishTranslation(title, table) == ""
      || EnglishTranslation(title, table) in table.Values
  {
  }

  /** `get_romaji_override(title)` over the override table `table`. */
  function RomajiOverride(title: string, table: map<string, string>): (r: Option<string>)
    ensures r.Some? <==> title in table
    ensures r.Some? ==> r.value == table[title]
  {
    if title in table then Some(table[title]) else None
  }

  /** The failure test on a romaji string: a doubled question mark, or at
      least three question marks in all. */
  predicate RomajiFailed(r: string)
  {
    Contains(r, "??") || CountChar(r, '?') >= 3
  }

  /** The romaji before the failure test: a non-empty override, else the
      converter's output. */
  function RomajiCandidate(title: string, names: Namer): string
  {
    match RomajiOverride(title, names.overrides)
    case Some(o) => if o != "" then o else names.cutlet(title)
    case None => names.cutlet(title)
  }

  /** The `romaji` field of a chart entry. */
  function Romaji(title: string, names: Namer): string
  {
    var r := RomajiCandidate(title, names);
    if RomajiFailed(r) then title else r
  }

  /** The fallback: the romaji field is the candidate when that passes the
      failure test and the title otherwise, overrides included; so a romaji
      field that fails the test is the title itself. */
  lemma RomajiFallback(title: string, names: Namer)
    ensures !RomajiFailed(RomajiCandidate(title, names)) ==> Romaji(title, names) == RomajiCandidate(title, names)
    ensures RomajiFailed(RomajiCandidate(title, names)) ==> Romaji(title, names) == title
    ensures RomajiFailed(Romaji(title, names)) ==> Romaji(title, names) == title
    ensures title in names.overrides && names.overrides[title] != "" && !RomajiFailed(names.overrides[title])
      ==> Romaji(title, names) == names.overrides[title]
  {
  }

  // ------------------------------------------------------------ chart loop

  /** One sheet of a downloaded song. */
  datatype Sheet = Sheet(kind: string, difficulty: string, version: Option<string>, level: real)

  /** One downloaded song. */
  datatype RawSong = RawSong(
    songId: string, category: string, title: string, artist: string,
    version: Option<string>, sheets: seq<Sheet>)

  /** One record of `failed_romaji.json`. */
  datatype FailedRomaji = FailedRomaji(title: string, artist: string, attempted: string, songId: string)

  predicate IsChartSheet(sheet: Sheet)
  {
    sheet.difficulty == "master" || sheet.difficulty == "remaster"
  }

  /** The version of an entry: the sheet's, else the song's, else ''. */
  function EntryVersion(song: RawSong, sheet: Sheet): string
  {
    match sheet.version
    case Some(v) => v
    case None => match song.version case Some(v) => v case None => ""
  }

  /** The chart entry written for one master or remaster sheet. */
  function ChartEntry(song: RawSong, sheet: Sheet, names: Namer): Song
  {
    Song(song.songId, song.category, song.title, song.artist, EntryVersion(song, sheet),
         sheet.kind, sheet.difficulty, sheet.level, CleanName(song.songId) + ".png",
         Romaji(song.title, names), EnglishTranslation(song.title, names.translations))
  }

  /** The entries of one song: one per master or remaster sheet, in order. */
  function SongEntries(song: RawSong, sheets: seq<Sheet>, names: Namer): seq<Song>
  {
    if sheets == [] then []
    else
      var last := sheets[|sheets| - 1];
      SongEntries(song, sheets[..|sheets| - 1], names) + (if IsChartSheet(last) then [ChartEntry(song, last, names)] else [])
  }

  /** The whole `output.json`. */
  function Charts(songs: seq<RawSong>, names: Namer): seq<Song>
  {
    if songs == [] then []
    else Charts(songs[..|songs| - 1], names) + SongEntries(songs[|songs| - 1], songs[|songs| - 1].sheets, names)
  }

  predicate HasChartSheet(song: RawSong)
  {
    exists j :: 0 <= j < |song.sheets| && IsChartSheet(song.sheets[j])
  }

  /** The titles of the failure records, in order. */
  function FailedTitles(failed: seq<FailedRomaji>): (ts: seq<string>)
    ensures |ts| == |failed|
  {
    if failed == [] then [] else FailedTitles(failed[..|failed| - 1]) + [failed[|failed| - 1].title]
  }

  lemma {:induction false} FailedTitlesAt(failed: seq<FailedRomaji>)
    ensures forall k | 0 <= k < |failed| :: FailedTitles(failed)[k] == failed[k].title
    decreases |failed|
  {
    if failed != [] {
      FailedTitlesAt(failed[..|failed| - 1]);
    }
  }

  /** The elements of a sequence, as a set. */
  ghost function Elements(s: seq<string>): set<string>
  {
    set x | x in s
  }

  /** The titles among the first `n` songs whose romaji failed on some master
      or remaster sheet. */
  ghost function FailedAmong(songs: seq<RawSong>, n: nat, names: Namer): set<string>
    requires n <= |songs|
  {
    set i | 0 <= i < n && HasChartSheet(songs[i]) && RomajiFailed(RomajiCandidate(songs[i].title, names)) :: songs[i].title
  }

  lemma ElementsPresent(s: seq<string>, x: string)
    requires x in s
    ensures Elements(s) + {x} == Elements(s)
  {
  }

  lemma FailedTitlesSnoc(failed: seq<FailedRomaji>, f: FailedRomaji)
    requires NoDuplicates(FailedTitles(failed)) && f.title !in FailedTitles(failed)
    ensures FailedTitles(failed + [f]) == FailedTitles(failed) + [f.title]
    ensures NoDuplicates(FailedTitles(failed + [f]))
    ensures Elements(FailedTitles(failed + [f])) == Elements(FailedTitles(failed)) + {f.title}
  {
    assert (failed + [f])[..|failed|] == failed;
  }

  lemma SongEntriesSnoc(song: RawSong, sheets: seq<Sheet>, j: int, names: Namer)
    requires 0 <= j < |sheets|
    ensures SongEntries(song, sheets[..j + 1], names)
      == SongEntries(song, sheets[..j], names) + (if IsChartSheet(sheets[j]) then [ChartEntry(song, sheets[j], names)] else [])
  {
    assert sheets[..j + 1][..j] == sheets[..j];
  }

  /** The romaji step of the sheet loop: the override or converter output,
      the failure record added when it fails and the title is not recorded
      yet, and the fallback to the title. */
  method ChooseRomaji(song: RawSong, names: Namer, failed0: seq<FailedRomaji>)
    returns (romaji: string, failed: seq<FailedRomaji>)
    requires NoDuplicates(FailedTitles(failed0))
    requires forall k | 0 <= k < |failed0| :: RomajiFailed(failed0[k].attempted)
    ensures romaji == Romaji(song.title, names)
    ensures NoDuplicates(FailedTitles(failed))
    ensures forall k | 0 <= k < |failed| :: RomajiFailed(failed[k].attempted)
    ensures Elements(FailedTitles(failed)) == Elements(FailedTitles(failed0))
      + (if RomajiFailed(RomajiCandidate(song.title, names)) then {song.title} else {})
  {
    failed := failed0;
    var over := RomajiOverride(song.title, names.overrides);
    if over.Some? && over.value != "" {
      romaji := over.value;
    } else {
      romaji := names.cutlet(song.title);
    }
    assert romaji == RomajiCandidate(song.title, names);
    if RomajiFailed(romaji) {
      if song.title !in FailedTitles(failed) {
        var f := FailedRomaji(song.title, song.artist, romaji, song.songId);
        FailedTitlesSnoc(failed, f);
        assert forall k | 0 <= k < |failed0| :: (failed0 + [f])[k] == failed0[k];
        failed := failed + [f];
      } else {
        ElementsPresent(FailedTitles(failed), song.title);
      }
      romaji := song.title;
    }
  }

  /** The body of the sheet loop for one master or remaster sheet. */
  method AddChart(song: RawSong, sheet: Sheet, names: Namer, failed0: seq<FailedRomaji>)
    returns (entry: Song, failed: seq<FailedRomaji>)
    requires NoDuplicates(FailedTitles(failed0))
    requires forall k | 0 <= k < |failed0| :: RomajiFailed(failed0[k].attempted)
    ensures entry == ChartEntry(song, sheet, names)
    ensures NoDuplicates(FailedTitles(failed))
    ensures forall k | 0 <= k < |failed| :: RomajiFailed(failed[k].attempted)
    ensures Elements(FailedTitles(failed)) == Elements(FailedTitles(failed0))
      + (if RomajiFailed(RomajiCandidate(song.title, names)) then {song.title} else {})
  {
    var image := CleanFilename(song.songId);
    image := image + ".png";
    var english := EnglishTranslation(song.title, names.translations);
    var romaji;
    romaji, failed := ChooseRomaji(song, names, failed0);
    var version := if sheet.version.Some? then sheet.version.value else if song.version.Some? then song.version.value else "";
    entry := Song(song.songId, song.category, song.title, song.artist, version,
      sheet.kind, sheet.difficulty, sheet.level, image, romaji, english);
  }

  /** The sheet loop of `main` for one song: entries are appended in order,
      and a failing title is recorded once. */
  method AddSheets(song: RawSong, names: Namer, charts0: seq<Song>, failed0: seq<FailedRomaji>)
    returns (charts: seq<Song>, failed: seq<FailedRomaji>)
    requires NoDuplicates(FailedTitles(failed0))
    requires forall k | 0 <= k < |failed0| :: RomajiFailed(failed0[k].attempted)
    ensures charts == charts0 + SongEntries(song, song.sheets, names)
    ensures NoDuplicates(FailedTitles(failed))
    ensures forall k | 0 <= k < |failed| :: RomajiFailed(failed[k].attempted)
    ensures Elements(FailedTitles(failed)) == Elements(FailedTitles(failed0))
      + (if HasChartSheet(song) && RomajiFailed(RomajiCandidate(song.title, names)) then {song.title} else {})
  {
    charts, failed := charts0, failed0;
    ghost var seen := false;
    ghost var fails := RomajiFailed(RomajiCandidate(song.title, names));
    var j := 0;
    while j < |song.sheets|
      invariant 0 <= j <= |song.sheets|
      invariant charts == charts0 + SongEntries(song, song.sheets[..j], names)
      invariant NoDuplicates(FailedTitles(failed))
      invariant forall k | 0 <= k < |failed| :: RomajiFailed(failed[k].attempted)
      invariant seen <==> exists k :: 0 <= k < j && IsChartSheet(song.sheets[k])
      invariant Elements(FailedTitles(failed)) == Elements(FailedTitles(failed0)) + (if seen && fails then {song.title} else {})
    {
      var sheet := song.sheets[j];
      SongEntriesSnoc(song, song.sheets, j, names);
      if sheet.difficulty == "master" || sheet.difficulty == "remaster" {
        var entry;
        entry, failed := AddChart(song, sheet, names, failed);
        charts := charts + [entry];
        seen := true;
      }
      j := j + 1;
    }
    assert song.sheets[..j] == song.sheets;
  }

  lemma FailedAmongSnoc(songs: seq<RawSong>, n: nat, names: Namer)
    requires n < |songs|
    ensures FailedAmong(songs, n + 1, names) == FailedAmong(songs, n, names)
      + (if HasChartSheet(songs[n]) && RomajiFailed(RomajiCandidate(songs[n].title, names)) then {songs[n].title} else {})
  {
  }

  /** The loop of `main` over the downloaded songs (the cover download is
      left out): it writes exactly `Charts(songs)`, and it records each title
      whose romaji failed on some master or remaster sheet, once. */
  method BuildCatalog(songs: seq<RawSong>, names: Namer)
    returns (charts: seq<Song>, failed: seq<FailedRomaji>)
    ensures charts == Charts(songs, names)
    ensures NoDuplicates(FailedTitles(failed))
    ensures forall k | 0 <= k < |failed| :: RomajiFailed(failed[k].attempted)
    ensures Elements(FailedTitles(failed)) == FailedAmong(songs, |songs|, names)
  {
    charts, failed := [], [];
    var n := 0;
    while n < |songs|
      invariant 0 <= n <= |songs|
      invariant charts == Charts(songs[..n], names)
      invariant NoDuplicates(FailedTitles(failed))
      invariant forall k | 0 <= k < |failed| :: RomajiFailed(failed[k].attempted)
      invariant Elements(FailedTitles(failed)) == FailedAmong(songs, n, names)
    {
      assert songs[..n + 1][..n] == songs[..n];
      FailedAmongSnoc(songs, n, names);
      charts, failed := AddSheets(songs[n], names, charts, failed);
      n := n + 1;
    }
    assert songs[..n] == songs;
  }

  /** What every entry satisfies. */
  ghost predicate WellFormedEntry(e: Song, names: Namer)
  {
    (e.difficulty == "master" || e.difficulty == "remaster")
    && e.image == CleanName(e.songId) + ".png"
    && e.romaji == Romaji(e.title, names)
    && (e.romaji == e.title || !RomajiFailed(e.romaji))
    && e.english == EnglishTranslation(e.title, names.translations)
  }

  lemma ChartEntryWellFormed(song: RawSong, sheet: Sheet, names: Namer)
    requires IsChartSheet(sheet)
    ensures WellFormedEntry(ChartEntry(song, sheet, names), names)
    ensures ChartEntry(song, sheet, names).songId == song.songId
    ensures ChartEntry(song, sheet, names).title == song.title
  {
    RomajiFallback(song.title, names);
  }

  /** The entries of one song belong to it and are well formed; there is one
      for each master or remaster sheet. */
  lemma {:induction false} SongEntriesSpec(song: RawSong, sheets: seq<Sheet>, names: Namer)
    ensures forall k | 0 <= k < |SongEntries(song, sheets, names)| ::
      WellFormedEntry(SongEntries(song, sheets, names)[k], names)
      && SongEntries(song, sheets, names)[k].songId == song.songId
    ensures |SongEntries(song, sheets, names)| == |Filter(sheets, IsChartSheet)|
    decreases |sheets|
  {
    if sheets != [] {
      var init, last := sheets[..|sheets| - 1], sheets[|sheets| - 1];
      assert init + [last] == sheets;
      SongEntriesSpec(song, init, names);
      FilterSnoc(init, last, IsChartSheet);
      if IsChartSheet(last) {
        ChartEntryWellFormed(song, last, names);
      }
    }
  }

  /** Every entry of `output.json` is well formed: only master and remaster
      charts, the cleaned id as cover name, the romaji with its fallback. */
  lemma {:induction false} ChartsWellFormed(songs: seq<RawSong>, names: Namer)
    ensures forall k | 0 <= k < |Charts(songs, names)| :: WellFormedEntry(Charts(songs, names)[k], names)
    decreases |songs|
  {
    if songs != [] {
      var init, last := songs[..|songs| - 1], songs[|songs| - 1];
      ChartsWellFormed(init, names);
      SongEntriesSpec(last, last.sheets, names);
      var a, b := Charts(init, names), SongEntries(last, last.sheets, names);
      assert Charts(songs, names) == a + b;
      forall k | 0 <= k < |a + b| ensures WellFormedEntry((a + b)[k], names) {
        if k >= |a| { assert (a + b)[k] == b[k - |a|]; }
      }
    }
  }

  /** The entry's version is the sheet's when the sheet has one, else the
      song's, else empty. */
  lemma EntryVersionRule(song: RawSong, sheet: Sheet, names: Namer)
    ensures sheet.version.Some? ==> ChartEntry(song, sheet, names).version == sheet.version.value
    ensures sheet.version.None? && song.version.Some? ==> ChartEntry(song, sheet, names).version == song.version.value
    ensures sheet.version.None? && song.version.None? ==> ChartEntry(song, sheet, names).version == ""
  {
  }

  /** The failure records have pairwise different titles. */
  lemma FailedTitlesDistinct(failed: seq<FailedRomaji>)
    requires NoDuplicates(FailedTitles(failed))
    ensures forall i, j | 0 <= i < j < |failed| :: failed[i].title != failed[j].title
  {
    FailedTitlesAt(failed);
  }

  /** An ASCII key of the English table is never looked up: the title
      "Don't Fight The Music" is its own English name, not the table's "donfai". */
  lemma AsciiTableKeyUnused()
    ensures "Don't Fight The Music" in KnownTranslations
    ensures KnownTranslations["Don't Fight The Music"] == "donfai"
    ensures EnglishTranslation("Don't Fight The Music", KnownTranslations) == "Don't Fight The Music"
  {
    assert AllAscii("Don't Fight The Music");
  }
}
