/** `download_audio.py`: the `TEST_LIMIT` slice and the per-song outcome
    counters of the automatic downloader. */
module DownloadAudio {
  import opened Records
  import opened ScriptCatalog

  /** The configured `TEST_LIMIT` (`None`: every song). */
  const TestLimit: Option<int> := None

  /** The end index of the Python slice `xs[:n]` on a list of length `len`. */
  function SliceEnd(n: int, len: nat): (e: nat)
    ensures e <= len
  {
    if n >= 0 then (if n <= len then n else len)
    else if len + n >= 0 then len + n else 0
  }

  /** `songs[:TEST_LIMIT] if TEST_LIMIT else songs`. */
  function ToProcess(songs: seq<Song>, limit: Option<int>): seq<Song>
  {
    if limit.Some? && limit.value != 0 then songs[..SliceEnd(limit.value, |songs|)] else songs
  }

  /** No limit (or a limit of 0) processes every song; a positive limit `n`
      processes the first `min(n, |songs|)`. */
  lemma ToProcessSpec(songs: seq<Song>, limit: Option<int>)
    ensures limit.None? || limit.value == 0 ==> ToProcess(songs, limit) == songs
    ensures limit.Some? && limit.value > 0 ==>
      |ToProcess(songs, limit)| == (if limit.value <= |songs| then limit.value else |songs|)
      && ToProcess(songs, limit) == songs[..|ToProcess(songs, limit)|]
  {
  }

  lemma ConfiguredLimitTakesAll(songs: seq<Song>)
    ensures ToProcess(songs, TestLimit) == songs
  {
  }

  /** What happens to one song. */
  datatype Outcome = AlreadyExists | NoResults | DownloadError | Downloaded

  /** The outcome for `song`: skipped when its audio file exists, otherwise
      a search for "<title> <artist>" (`search` gives the first video's URL,
      `None` or empty when there is none) and a download into its file. */
  function SongOutcome(song: Song, fileExists: string -> bool, search: string -> Option<string>,
                       download: (string, string) -> bool): Outcome
  {
    var path := "audio/" + AudioFilename(song);
    if fileExists(path) then AlreadyExists
    else
      var url := search(song.title + " " + song.artist);
      if url.None? || url.value == "" then NoResults
      else if download(url.value, path) then Downloaded
      else DownloadError
  }

  /** One entry of the failure list. */
  datatype FailedSong = FailedSong(title: string, romaji: string, artist: string, reason: string)

  function CountOutcome(xs: seq<Song>, fileExists: string -> bool, search: string -> Option<string>,
                        download: (string, string) -> bool, o: Outcome): nat
  {
    if xs == [] then 0
    else
      CountOutcome(xs[..|xs| - 1], fileExists, search, download, o)
      + (if SongOutcome(xs[|xs| - 1], fileExists, search, download) == o then 1 else 0)
  }

  /** The failure entry an outcome adds. */
  function FailureEntry(s: Song, o: Outcome): seq<FailedSong>
  {
    match o
    case NoResults => [FailedSong(s.title, s.romaji, s.artist, "No YouTube results")]
    case DownloadError => [FailedSong(s.title, s.romaji, s.artist, "Download error")]
    case _ => []
  }

  /** The failure list for `xs`, in order. */
  function Failures(xs: seq<Song>, fileExists: string -> bool, search: string -> Option<string>,
                    download: (string, string) -> bool): seq<FailedSong>
  {
    if xs == [] then []
    else
      var s := xs[|xs| - 1];
      Failures(xs[..|xs| - 1], fileExists, search, download) + FailureEntry(s, SongOutcome(s, fileExists, search, download))
  }

  /** Every song has exactly one outcome, and the failure list has one entry
      per failed song. */
  lemma {:induction false} OutcomesPartition(xs: seq<Song>, fileExists: string -> bool,
                                             search: string -> Option<string>, download: (string, string) -> bool)
    ensures CountOutcome(xs, fileExists, search, download, AlreadyExists) + CountOutcome(xs, fileExists, search, download, NoResults)
      + CountOutcome(xs, fileExists, search, download, DownloadError) + CountOutcome(xs, fileExists, search, download, Downloaded) == |xs|
    ensures |Failures(xs, fileExists, search, download)| ==
      CountOutcome(xs, fileExists, search, download, NoResults) + CountOutcome(xs, fileExists, search, download, DownloadError)
    decreases |xs|
  {
    if xs != [] {
      OutcomesPartition(xs[..|xs| - 1], fileExists, search, download);
    }
  }

  lemma UnfoldCount(xs: seq<Song>, i: int, fileExists: string -> bool,
                    search: string -> Option<string>, download: (string, string) -> bool, o: Outcome)
    requires 0 <= i < |xs|
    ensures CountOutcome(xs[..i + 1], fileExists, search, download, o)
      == CountOutcome(xs[..i], fileExists, search, download, o) + (if SongOutcome(xs[i], fileExists, search, download) == o then 1 else 0)
  {
    assert xs[..i + 1][..i] == xs[..i];
  }

  lemma UnfoldFailures(xs: seq<Song>, i: int, fileExists: string -> bool,
                       search: string -> Option<string>, download: (string, string) -> bool)
    requires 0 <= i < |xs|
    ensures Failures(xs[..i + 1], fileExists, search, download)
      == Failures(xs[..i], fileExists, search, download) + FailureEntry(xs[i], SongOutcome(xs[i], fileExists, search, download))
  {
    assert xs[..i + 1][..i] == xs[..i];
  }

  /** The body of the loop for one song. */
  method ProcessSong(song: Song, fileExists: string -> bool,
                     search: string -> Option<string>, download: (string, string) -> bool)
    returns (o: Outcome, entry: seq<FailedSong>)
    ensures o == SongOutcome(song, fileExists, search, download)
    ensures entry == FailureEntry(song, o)
  {
    entry := [];
    var path := "audio/" + AudioFilename(song);
    if fileExists(path) {
      return AlreadyExists, [];
    }
    var query := song.title + " " + song.artist;
    var url := search(query);
    if url.None? || url.value == "" {
      o := NoResults;
      entry := [FailedSong(song.title, song.romaji, song.artist, "No YouTube results")];
    } else if download(url.value, path) {
      o := Downloaded;
    } else {
      o := DownloadError;
      entry := [FailedSong(song.title, song.romaji, song.artist, "Download error")];
    }
  }

  /** The counters and the failure list after the songs `xs`. */
  ghost predicate Tallied(xs: seq<Song>, fileExists: string -> bool, search: string -> Option<string>,
                          download: (string, string) -> bool,
                          downloaded: nat, skipped: nat, failed: nat, failedSongs: seq<FailedSong>)
  {
    && skipped == CountOutcome(xs, fileExists, search, download, AlreadyExists)
    && downloaded == CountOutcome(xs, fileExists, search, download, Downloaded)
    && failed == CountOutcome(xs, fileExists, search, download, NoResults)
       + CountOutcome(xs, fileExists, search, download, DownloadError)
    && failedSongs == Failures(xs, fileExists, search, download)
  }

  /** One more song adds one to the counter of its outcome and its failure
      entry to the list. */
  lemma TallyStep(xs: seq<Song>, i: int, fileExists: string -> bool, search: string -> Option<string>,
                  download: (string, string) -> bool,
                  downloaded: nat, skipped: nat, failed: nat, failedSongs: seq<FailedSong>,
                  o: Outcome, downloaded': nat, skipped': nat, failed': nat, failedSongs': seq<FailedSong>)
    requires 0 <= i < |xs|
    requires Tallied(xs[..i], fileExists, search, download, downloaded, skipped, failed, failedSongs)
    requires o == SongOutcome(xs[i], fileExists, search, download)
    requires downloaded' == downloaded + (if o == Downloaded then 1 else 0)
    requires skipped' == skipped + (if o == AlreadyExists then 1 else 0)
    requires failed' == failed + (if o == NoResults || o == DownloadError then 1 else 0)
    requires failedSongs' == failedSongs + FailureEntry(xs[i], o)
    ensures Tallied(xs[..i + 1], fileExists, search, download, downloaded', skipped', failed', failedSongs')
  {
    UnfoldFailures(xs, i, fileExists, search, download);
    UnfoldCount(xs, i, fileExists, search, download, AlreadyExists);
    UnfoldCount(xs, i, fileExists, search, download, NoResults);
    UnfoldCount(xs, i, fileExists, search, download, DownloadError);
    UnfoldCount(xs, i, fileExists, search, download, Downloaded);
  }

  /** The loop of `main`. */
  method DownloadAll(songs: seq<Song>, limit: Option<int>, fileExists: string -> bool,
                     search: string -> Option<string>, download: (string, string) -> bool)
    returns (downloaded: nat, skipped: nat, failed: nat, failedSongs: seq<FailedSong>, total: nat)
    ensures total == |ToProcess(songs, limit)|
    ensures skipped == CountOutcome(ToProcess(songs, limit), fileExists, search, download, AlreadyExists)
    ensures downloaded == CountOutcome(ToProcess(songs, limit), fileExists, search, download, Downloaded)
    ensures failed == CountOutcome(ToProcess(songs, limit), fileExists, search, download, NoResults)
      + CountOutcome(ToProcess(songs, limit), fileExists, search, download, DownloadError)
    ensures failedSongs == Failures(ToProcess(songs, limit), fileExists, search, download)
    ensures downloaded + skipped + failed == total
    ensures |failedSongs| == failed
  {
    var work := if limit.Some? && limit.value != 0 then songs[..SliceEnd(limit.value, |songs|)] else songs;
    total := |work|;
    downloaded, skipped, failed, failedSongs := 0, 0, 0, [];
    var i := 0;
    while i < |work|
      invariant 0 <= i <= |work|
      invariant Tallied(work[..i], fileExists, search, download, downloaded, skipped, failed, failedSongs)
    {
      ghost var downloaded0, skipped0, failed0, failedSongs0 := downloaded, skipped, failed, failedSongs;
      var o, entry := ProcessSong(work[i], fileExists, search, download);
      if o == AlreadyExists {
        skipped := skipped + 1;
      } else if o == Downloaded {
        downloaded := downloaded + 1;
      } else {
        failed := failed + 1;
      }
      failedSongs := failedSongs + entry;
      TallyStep(work, i, fileExists, search, download, downloaded0, skipped0, failed0, failedSongs0,
                o, downloaded, skipped, failed, failedSongs);
      i := i + 1;
    }
    assert work[..i] == work;
    OutcomesPartition(work, fileExists, search, download);
  }
}
