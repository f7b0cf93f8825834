/** `manual_audio_download.py`: the missing-audio list, the resume filter,
    the `list` preview, the detection of the downloaded file and the progress
    bookkeeping of the per-song prompt loop. */
module ManualAudioDownload {
  import opened Text
  import opened Records
  import opened ScriptCatalog

  /** `find_missing_audio(songs)`, with the file system as `fileExists`. */
  method FindMissingAudio(songs: seq<Song>, fileExists: string -> bool) returns (missing: seq<Song>)
    ensures missing == Missing(songs, fileExists)
  {
    var absent := (s: Song) => !fileExists("audio/" + AudioFilename(s));
    missing := [];
    var i := 0;
    while i < |songs|
      invariant 0 <= i <= |songs|
      invariant missing == Filter(songs[..i], absent)
    {
      FilterSnoc(songs[..i], songs[i], absent);
      assert songs[..i + 1] == songs[..i] + [songs[i]];
      var path := "audio/" + AudioFilename(songs[i]);
      if !fileExists(path) {
        missing := missing + [songs[i]];
      }
      i := i + 1;
    }
    assert songs[..i] == songs;
  }

  /** The resume filter: the missing songs whose id the saved progress lists
      neither as skipped nor as completed, in order. */
  function Remaining(missing: seq<Song>, skipped: seq<string>, completed: seq<string>): seq<Song>
  {
    Filter(missing, (s: Song) => s.songId !in skipped + completed)
  }

  lemma RemainingSpec(missing: seq<Song>, skipped: seq<string>, completed: seq<string>)
    ensures forall k | 0 <= k < |Remaining(missing, skipped, completed)| ::
      Remaining(missing, skipped, completed)[k] in missing
      && Remaining(missing, skipped, completed)[k].songId !in skipped
      && Remaining(missing, skipped, completed)[k].songId !in completed
    ensures forall i | 0 <= i < |missing| && missing[i].songId !in skipped && missing[i].songId !in completed ::
      missing[i] in Remaining(missing, skipped, completed)
    ensures IsSubsequence(Remaining(missing, skipped, completed), missing)
  {
    var p := (s: Song) => s.songId !in skipped + completed;
    FilterMembers(missing, p);
    FilterIsSubsequence(missing, p);
  }

  /** The song numbers the `list` command shows while song `i` (counted from
      1) is prompted: `range(i, min(i + 10, n + 1))`, each kept if `j <= n`. */
  method ListPreview(n: nat, i: nat) returns (shown: seq<nat>)
    requires 1 <= i <= n
    ensures |shown| <= 10
    ensures |shown| == if i + 10 <= n + 1 then 10 else n + 1 - i
    ensures forall k | 0 <= k < |shown| :: shown[k] == i + k && i <= shown[k] <= n
  {
    shown := [];
    var stop := if i + 10 <= n + 1 then i + 10 else n + 1;
    var j := i;
    while j < stop
      invariant i <= j <= stop
      invariant |shown| == j - i
      invariant forall k | 0 <= k < |shown| :: shown[k] == i + k && i <= shown[k] <= n
    {
      if j <= n {
        shown := shown + [j];
      }
      j := j + 1;
    }
  }

  /** The collection loop of the new files after a download. */
  method CollectNewFiles(after: Listing, before: map<string, real>) returns (newFiles: seq<(string, real)>)
    ensures newFiles == NewFiles(after, before)
  {
    var isNew := (e: (string, real)) => IsNewFile(e, before);
    newFiles := [];
    var i := 0;
    while i < |after|
      invariant 0 <= i <= |after|
      invariant newFiles == Filter(after[..i], isNew)
    {
      FilterSnoc(after[..i], after[i], isNew);
      assert after[..i + 1] == after[..i] + [after[i]];
      var (f, mtime) := after[i];
      if f !in before || mtime > (if f in before then before[f] else 0.0) {
        newFiles := newFiles + [after[i]];
      }
      i := i + 1;
    }
    assert after[..i] == after;
  }

  /** The name fragment of the last fallback search: the audio name without
      ".mp3" and without dots, its first five characters, lowercased. */
  function NameFragment(audioFilename: string): (r: string)
    ensures |r| <= 5
  {
    var base := ReplaceAll(ReplaceAll(audioFilename, ".mp3", ""), ".", "");
    Lower(if |base| <= 5 then base else base[..5])
  }

  /** The listed files whose lowercased name (the path without its
      directory) contains the fragment. */
  function MatchingFiles(after: Listing, audioFilename: string): seq<(string, real)>
  {
    Filter(after, (e: (string, real)) => Contains(Lower(BaseName(e.0)), NameFragment(audioFilename)))
  }

  /** A file of the audio directory matches exactly when its own name,
      lowercased, contains the fragment; the directory plays no part. */
  lemma MatchingAudioFile(name: string, mtime: real, audioFilename: string)
    requires '/' !in name
    ensures MatchingFiles([("audio/" + name, mtime)], audioFilename) != []
      <==> Contains(Lower(name), NameFragment(audioFilename))
  {
    AudioBaseName(name);
  }

  /** A fragment found only in the directory's name matches nothing:
      with fragment "dio", a file of `audio` whose name has no `d` or `D`
      is no match, though its path contains "dio". */
  lemma DirectoryNotMatched(name: string, mtime: real, audioFilename: string)
    requires NameFragment(audioFilename) == "dio"
    requires '/' !in name && 'd' !in name && 'D' !in name
    ensures Contains("audio/" + name, "dio")
    ensures MatchingFiles([("audio/" + name, mtime)], audioFilename) == []
  {
    var p := "audio/" + name;
    assert IsPrefix("dio", p[2..]) by {
      assert p[2..][..3] == "dio";
    }
    assert p[1..][1..] == p[2..];
    MatchingAudioFile(name, mtime, audioFilename);
    var l := Lower(name);
    forall i | 0 <= i < |l|
      ensures l[i] != 'd'
    {
      assert l[i] == LowerChar(name[i]);
    }
    NotContainsFirst(l, "dio");
  }

  /** How `main` goes on once the missing list and the saved progress are
      known: it returns at once when no song is missing, or when every
      missing song was processed in an earlier session (the progress file is
      then left as it is), and otherwise enters the prompt loop. */
  datatype Launch = AllHaveAudio | AllProcessed | Prompt

  function LaunchOf(missing: seq<Song>, savedSkipped: seq<string>, savedCompleted: seq<string>): Launch
  {
    if missing == [] then AllHaveAudio
    else if Remaining(missing, savedSkipped, savedCompleted) == [] then AllProcessed
    else Prompt
  }

  /** The loop is entered exactly when some missing song is still
      unprocessed; the early return for a processed list happens exactly when
      every missing song's id is among the saved skipped or completed ids. */
  lemma LaunchSpec(missing: seq<Song>, savedSkipped: seq<string>, savedCompleted: seq<string>)
    ensures LaunchOf(missing, savedSkipped, savedCompleted) == AllHaveAudio <==> missing == []
    ensures LaunchOf(missing, savedSkipped, savedCompleted) == Prompt <==> Remaining(missing, savedSkipped, savedCompleted) != []
    ensures LaunchOf(missing, savedSkipped, savedCompleted) == AllProcessed <==>
      missing != [] && forall i | 0 <= i < |missing| :: missing[i].songId in savedSkipped || missing[i].songId in savedCompleted
  {
    RemainingSpec(missing, savedSkipped, savedCompleted);
    if missing == [] {
      assert Remaining(missing, savedSkipped, savedCompleted) == [];
    }
    if Remaining(missing, savedSkipped, savedCompleted) != [] {
      var r := Remaining(missing, savedSkipped, savedCompleted);
      assert r[0] in missing;
      var i :| 0 <= i < |missing| && missing[i] == r[0];
      assert !(missing[i].songId in savedSkipped || missing[i].songId in savedCompleted);
    }
  }

  /** What one answer to the prompt does to the session. */
  datatype Outcome = Quit | Stay | SkipSong | CompleteSong

  /** The outcome of one pass of the prompt loop. `input` is the stripped
      answer (`None` at end of input); after a URL, `downloadOk` is the
      downloader's result, `expectedExists` whether the expected file is
      there, `after`/`before` the listings around the download, and `retry`
      the answer to "Retry with different URL?". */
  function StepOutcome(input: Option<string>, audioFilename: string, downloadOk: bool, expectedExists: bool,
                       after: Listing, before: map<string, real>, retry: Option<string>): Outcome
  {
    if input.None? || Lower(input.value) == "q" then Quit
    else if Lower(input.value) == "s" then SkipSong
    else if Lower(input.value) == "list" then Stay
    else if input.value == "" then Stay
    else if !IsYoutubeUrl(input.value) then Stay
    else if downloadOk then
      if expectedExists || NewFiles(after, before) != [] || MatchingFiles(after, audioFilename) != [] then CompleteSong
      else Stay
    else if retry.Some? && retry.value != "" && Lower(retry.value) != "y" then SkipSong
    else Stay
  }

  /** The session state of `main` once the remaining songs are known: the
      progress lists (`progress['skipped']`, `progress['completed']`), the
      session counters, and the current song's position. */
  class ManualSession {
    const remaining: seq<Song>
    ghost const skipped0: seq<string>
    ghost const completed0: seq<string>
    var position: nat
    var progressSkipped: seq<string>
    var progressCompleted: seq<string>
    var downloaded: nat
    var skipped: nat
    var failed: nat

    /** Each song before the current one has been recorded in exactly one of
        the lists, and the counters count this session's records. */
    ghost predicate Valid()
      reads this
    {
      && 0 < |remaining| && position <= |remaining|
      && downloaded + skipped == position
      && failed == 0
      && |progressSkipped| == |skipped0| + skipped && progressSkipped[..|skipped0|] == skipped0
      && |progressCompleted| == |completed0| + downloaded && progressCompleted[..|completed0|] == completed0
    }

    /** The start of the prompt loop, after the resume filter; `main` only
        gets here when `LaunchOf` is `Prompt`. */
    constructor(missing: seq<Song>, savedSkipped: seq<string>, savedCompleted: seq<string>)
      requires LaunchOf(missing, savedSkipped, savedCompleted) == Prompt
      ensures remaining == Remaining(missing, savedSkipped, savedCompleted)
      ensures skipped0 == savedSkipped && completed0 == savedCompleted
      ensures progressSkipped == savedSkipped && progressCompleted == savedCompleted
      ensures position == 0 && downloaded == 0 && skipped == 0 && failed == 0
      ensures Valid()
    {
      remaining := Filter(missing, (s: Song) => s.songId !in savedSkipped + savedCompleted);
      skipped0, completed0 := savedSkipped, savedCompleted;
      progressSkipped, progressCompleted := savedSkipped, savedCompleted;
      position, downloaded, skipped, failed := 0, 0, 0, 0;
    }

    /** Skipping the current song. */
    method Skip()
      requires Valid() && position < |remaining|
      modifies this
      ensures Valid()
      ensures progressSkipped == old(progressSkipped) + [remaining[old(position)].songId]
      ensures progressCompleted == old(progressCompleted)
      ensures skipped == old(skipped) + 1 && downloaded == old(downloaded) && failed == old(failed)
      ensures position == old(position) + 1
    {
      skipped := skipped + 1;
      progressSkipped := progressSkipped + [remaining[position].songId];
      position := position + 1;
    }

    /** Recording the current song as downloaded. */
    method Complete()
      requires Valid() && position < |remaining|
      modifies this
      ensures Valid()
      ensures progressCompleted == old(progressCompleted) + [remaining[old(position)].songId]
      ensures progressSkipped == old(progressSkipped)
      ensures downloaded == old(downloaded) + 1 && skipped == old(skipped) && failed == old(failed)
      ensures position == old(position) + 1
    {
      downloaded := downloaded + 1;
      progressCompleted := progressCompleted + [remaining[position].songId];
      position := position + 1;
    }

    /** One pass of the prompt loop for the current song. */
    method Step(input: Option<string>, downloadOk: bool, expectedExists: bool,
                after: Listing, before: map<string, real>, retry: Option<string>) returns (quit: bool)
      requires Valid() && position < |remaining|
      modifies this
      ensures Valid()
      ensures var o := StepOutcome(input, AudioFilename(remaining[old(position)]), downloadOk, expectedExists, after, before, retry);
        && (quit <==> o == Quit)
        && (o == Quit || o == Stay ==>
              (position == old(position) && progressSkipped == old(progressSkipped)
               && progressCompleted == old(progressCompleted) && skipped == old(skipped) && downloaded == old(downloaded)))
        && (o == SkipSong ==>
              (position == old(position) + 1 && skipped == old(skipped) + 1 && downloaded == old(downloaded)
               && progressSkipped == old(progressSkipped) + [remaining[old(position)].songId]
               && progressCompleted == old(progressCompleted)))
        && (o == CompleteSong ==>
              (position == old(position) + 1 && downloaded == old(downloaded) + 1 && skipped == old(skipped)
               && progressCompleted == old(progressCompleted) + [remaining[old(position)].songId]
               && progressSkipped == old(progressSkipped)))
    {
      var audioFilename := AudioFilename(remaining[position]);
      quit := false;
      if input.None? || Lower(input.value) == "q" {
        quit := true;
        return;
      }
      var line := input.value;
      if Lower(line) == "s" {
        Skip();
        return;
      }
      if Lower(line) == "list" || line == "" || !IsYoutubeUrl(line) {
        return;
      }
      if downloadOk {
        if expectedExists {
          Complete();
          return;
        }
        var newFiles := CollectNewFiles(after, before);
        if newFiles != [] {
          Complete();
          return;
        }
        if MatchingFiles(after, audioFilename) != [] {
          Complete();
        }
      } else if retry.Some? && retry.value != "" && Lower(retry.value) != "y" {
        Skip();
      }
    }
  }

  /** The progress file is deleted at the end only when nothing was skipped
      and nothing failed; `failed` is never incremented, so this is exactly
      when every remaining song was downloaded. The loop, and so this
      deletion, is reached only with a non-empty remaining list. */
  predicate DeletesProgressFile(skipped: nat, failed: nat)
  {
    skipped == 0 && failed == 0
  }

  lemma ProgressCleanup(s: ManualSession)
    requires s.Valid() && s.position == |s.remaining| && |s.remaining| > 0
    ensures DeletesProgressFile(s.skipped, s.failed) <==> s.downloaded == |s.remaining|
    ensures DeletesProgressFile(s.skipped, s.failed) ==> s.progressSkipped == s.skipped0
  {
    if DeletesProgressFile(s.skipped, s.failed) {
      assert s.progressSkipped == s.progressSkipped[..|s.skipped0|];
    }
  }
}
