/** `replace_audio.py`: the interactive search, the numbered selection and
    the detection of the file a download produced. */
module ReplaceAudio {
  import opened Text
  import opened Records
  import opened ScriptCatalog
  import Matcher

  /** The match test of `search_songs`: the lowercased query `q` occurs in the
      lowercased title, romaji, artist or English name. */
  predicate MatchesQuery(song: Song, q: string)
  {
    Contains(Lower(song.title), q) || Contains(Lower(song.romaji), q)
      || Contains(Lower(song.artist), q) || Contains(Lower(song.english), q)
  }

  /** The songs matching `query`, in catalog order. */
  function Matching(songs: seq<Song>, query: string): seq<Song>
  {
    Filter(songs, (s: Song) => MatchesQuery(s, Lower(query)))
  }

  /** `search_songs(songs, query)`. */
  method SearchSongs(songs: seq<Song>, query: string) returns (results: seq<Song>)
    ensures results == Matching(songs, query)
  {
    var q := Lower(query);
    var keep := (s: Song) => MatchesQuery(s, q);
    results := [];
    var i := 0;
    while i < |songs|
      invariant 0 <= i <= |songs|
      invariant results == Filter(songs[..i], keep)
    {
      var song := songs[i];
      FilterSnoc(songs[..i], song, keep);
      assert songs[..i + 1] == songs[..i] + [song];
      var title := Lower(song.title);
      var romaji := Lower(song.romaji);
      var artist := Lower(song.artist);
      var english := Lower(song.english);
      if Contains(title, q) || Contains(romaji, q) || Contains(artist, q) || Contains(english, q) {
        results := results + [song];
      }
      i := i + 1;
    }
    assert songs[..i] == songs;
  }

  /** The search result is the order-preserving selection of the matching
      songs: every result matches, every matching song is a result. */
  lemma SearchSpec(songs: seq<Song>, query: string)
    ensures forall k | 0 <= k < |Matching(songs, query)| ::
      Matching(songs, query)[k] in songs && MatchesQuery(Matching(songs, query)[k], Lower(query))
    ensures forall i | 0 <= i < |songs| && MatchesQuery(songs[i], Lower(query)) :: songs[i] in Matching(songs, query)
    ensures IsSubsequence(Matching(songs, query), songs)
  {
    FilterMembers(songs, (s: Song) => MatchesQuery(s, Lower(query)));
    FilterIsSubsequence(songs, (s: Song) => MatchesQuery(s, Lower(query)));
  }

  lemma {:induction false} FilterAll<T>(xs: seq<T>, p: T -> bool)
    requires forall i | 0 <= i < |xs| :: p(xs[i])
    ensures Filter(xs, p) == xs
    decreases |xs|
  {
    if xs != [] {
      FilterAll(xs[1..], p);
    }
  }

  /** The empty query matches every song. */
  lemma EmptyQueryMatchesAll(songs: seq<Song>)
    ensures Matching(songs, "") == songs
  {
    assert Lower("") == "";
    forall i | 0 <= i < |songs| ensures MatchesQuery(songs[i], "") {
      assert IsPrefix("", Lower(songs[i].title));
    }
    FilterAll(songs, (s: Song) => MatchesQuery(s, Lower("")));
  }

  // ------------------------------------------------------------- selection

  /** Python's `int()` on a decimal literal: surrounding white space, one
      optional sign, ASCII digits with single underscores between them. */
  function ParseInt(s: string): Option<int>
  {
    var t := Strip(s);
    var body := if t != [] && (t[0] == '-' || t[0] == '+') then t[1..] else t;
    if !Matcher.IsDigitRun(body) then None
    else
      var v: int := Matcher.DigitsValue(body);
      Some(if t[0] == '-' then -v else v)
  }

  /** The outcome of one answer to the "Enter song number" prompt. */
  datatype Choice = Back | NotANumber | OutOfRange | Picked(song: Song)

  function Min(a: int, b: int): int { if a <= b then a else b }

  /** Only the first twenty results are listed, so only they can be chosen. */
  const DisplayLimit := 20

  /** One pass of the selection loop on the stripped answer `choice`. */
  function ReadChoice(results: seq<Song>, choice: string): Choice
  {
    if Lower(choice) == "b" || Lower(choice) == "back" then Back
    else match ParseInt(choice)
      case None => NotANumber
      case Some(n) =>
        var index := n - 1;
        if 0 <= index < |results[..Min(|results|, DisplayLimit)]| then Picked(results[index]) else OutOfRange
  }

  /** A number `n` selects `results[n - 1]` exactly when 1 <= n <= min(|results|, 20). */
  lemma SelectionSpec(results: seq<Song>, choice: string)
    requires Lower(choice) != "b" && Lower(choice) != "back"
    ensures ReadChoice(results, choice).Picked? <==>
      ParseInt(choice).Some? && 1 <= ParseInt(choice).value <= Min(|results|, DisplayLimit)
    ensures ReadChoice(results, choice).Picked? ==> ReadChoice(results, choice).song == results[ParseInt(choice).value - 1]
    ensures ParseInt(choice).None? <==> ReadChoice(results, choice) == NotANumber
  {
    SelectionRange(results, choice);
    SelectionSong(results, choice);
    SelectionNotANumber(results, choice);
  }

  lemma SelectionRange(results: seq<Song>, choice: string)
    requires Lower(choice) != "b" && Lower(choice) != "back"
    ensures ReadChoice(results, choice).Picked? <==>
      ParseInt(choice).Some? && 1 <= ParseInt(choice).value <= Min(|results|, DisplayLimit)
  {
  }

  lemma SelectionSong(results: seq<Song>, choice: string)
    requires Lower(choice) != "b" && Lower(choice) != "back"
    ensures ReadChoice(results, choice).Picked? ==>
      1 <= ParseInt(choice).value <= |results| && ReadChoice(results, choice).song == results[ParseInt(choice).value - 1]
  {
  }

  lemma SelectionNotANumber(results: seq<Song>, choice: string)
    requires Lower(choice) != "b" && Lower(choice) != "back"
    ensures ParseInt(choice).None? <==> ReadChoice(results, choice) == NotANumber
  {
  }

  /** The 21st result cannot be chosen, even when it exists. */
  lemma TwentyFirstNotSelectable(results: seq<Song>, choice: string)
    requires |results| >= 21
    requires Lower(choice) != "b" && Lower(choice) != "back"
    requires ParseInt(choice) == Some(21)
    ensures ReadChoice(results, choice) == OutOfRange
  {
  }
}
