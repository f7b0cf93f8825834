/** The `Quiz` cog of `cogs/quiz.py`: the per-channel games, the start
    commands, the round cycle and the two button views. A handler is split
    at its waits: each step runs without interruption, and the code after a
    wait is the method of the event that resumes it. */
module QuizCog {
  import opened Records
  import SongLoader
  import Matcher
  import QuizRules
  import opened QuizSession
  import Constants
  import Text

  /** How a start command ended. */
  datatype StartOutcome =
    | AlreadyActive
    | InvalidParams(error: QuizRules.ParamError)
    | Loading
    | AckFailed
    | InvalidCategories(tokens: seq<string>)
    | LoadFailed
    | NoSongsInDatabase
    | NoSongs
    | NoMedia
    | Started

  /** How a command or button press that needs a game and its host ended. */
  datatype Reply = NoGame | NotHost | AlreadyPressed | Busy | Done

  /** What `/leaderboard` shows. */
  datatype Board = NoActiveGame | NoScores | Standings(round: nat, totalRounds: int, entries: seq<QuizRules.Entry>)

  /** The first `n` entries of a leaderboard. */
  function Top(board: seq<QuizRules.Entry>, n: nat): seq<QuizRules.Entry>
  {
    board[..QuizRules.Min(n, |board|)]
  }

  /** `random.shuffle` only reorders. */
  ghost predicate IsShuffle(shuffle: seq<Song> -> seq<Song>)
  {
    forall xs :: multiset(shuffle(xs)) == multiset(xs)
  }

  /** The category option of `/quiz`: nothing to do for an absent or empty
      text, otherwise the loop over its tokens. */
  method ReadCategories(m: map<string, string>, categories: Option<string>) returns (categoryList: seq<string>, invalid: seq<string>)
    ensures categoryList == QuizRules.CategoryNames(m, categories)
    ensures invalid == QuizRules.InvalidCategoryTokens(m, categories)
  {
    categoryList, invalid := [], [];
    if categories.Some? && categories.value != "" {
      categoryList, invalid := QuizRules.ParseCategories(m, QuizRules.Tokens(categories.value));
    }
  }

  /** The category filter of a replay. */
  method ReadReplayCategories(m: map<string, string>, categories: Option<string>) returns (categoryList: seq<string>)
    ensures categoryList == QuizRules.CategoryNames(m, categories)
  {
    categoryList := [];
    if categories.Some? && categories.value != "" {
      categoryList := QuizRules.ParseReplayCategories(m, QuizRules.Tokens(categories.value));
    }
  }

  /** The version option of `/quiz` and of a replay. */
  method ReadVersions(m: map<string, string>, versions: Option<string>) returns (versionList: seq<string>)
    ensures versionList == QuizRules.VersionNames(m, versions)
  {
    versionList := [];
    if versions.Some? && versions.value != "" {
      versionList := QuizRules.ParseVersions(m, QuizRules.Tokens(versions.value));
    }
  }

  /** A user's score so far, 0 before their first point. */
  function Points(scores: map<int, int>, user: int): int
  {
    if user in scores then scores[user] else 0
  }

  /** What `load_songs(difficulty="master")` returns for a readable
      catalog. */
  ghost function MasterCharts(catalog: seq<Song>): seq<Song>
  {
    SongLoader.Deduplicated(Filter(catalog, (s: Song) => SongLoader.Passes(s, "master", "", "")))
  }

  /** The pool a start draws: the loaded songs that pass the filters,
      shuffled and cut to the round count, keeping those with media. */
  function DrawnPool(loaded: seq<Song>, categoryList: seq<string>, versionList: seq<string>,
                     shuffle: seq<Song> -> seq<Song>, rounds: int, mode: string, fileExists: string -> bool): seq<Song>
    requires rounds >= 0
  {
    QuizRules.Pool(shuffle(QuizRules.Candidates(loaded, categoryList, versionList)), rounds, mode, fileExists)
  }

  /** Nothing to draw from leaves nothing to play: the shuffle of no songs is
      empty, and so is its pool. */
  lemma DrawnPoolOfNothing(shuffle: seq<Song> -> seq<Song>, rounds: int, mode: string, fileExists: string -> bool)
    requires IsShuffle(shuffle) && rounds >= 0
    ensures forall loaded, cl, vl | QuizRules.Candidates(loaded, cl, vl) == [] ::
      DrawnPool(loaded, cl, vl, shuffle, rounds, mode, fileExists) == []
  {
    assert multiset(shuffle([])) == multiset([]);
    assert shuffle([]) == [];
  }

  /** No loaded songs leave no candidates, whatever the filters. */
  lemma CandidatesOfNothing(cl: seq<string>, vl: seq<string>)
    ensures QuizRules.Candidates([], cl, vl) == []
  {
  }

  /** Without filters every loaded song is a candidate. */
  lemma CandidatesUnfiltered(loaded: seq<Song>)
    ensures QuizRules.Candidates(loaded, [], []) == loaded
  {
  }

  /** The settings of `q>quiz`: the numbers clamped into their ranges, an
      unknown image difficulty read as easy, and no filters. */
  function PrefixSettings(mode: string, answerType: string, rounds: int, timeLimit: int, snippetLength: int,
                          imageDifficulty: string): (c: GameConfig)
    ensures 1 <= c.rounds <= 50 && 10 <= c.timeLimit <= 300 && 5 <= c.snippetLength <= 30
    ensures c.mode == mode && c.answerType == answerType && c.categories == None && c.versions == None
  {
    GameConfig(mode, answerType, QuizRules.Clamp(timeLimit, 10, 300), QuizRules.Clamp(rounds, 1, 50),
               QuizRules.Clamp(snippetLength, 5, 30), QuizRules.PrefixImageDifficulty(imageDifficulty), None, None)
  }

  /** The start outcomes the code reports with a message before it discards
      the channel's setup mark. */
  predicate ReportedBeforeRelease(outcome: StartOutcome)
  {
    outcome.InvalidCategories? || outcome.LoadFailed? || outcome.NoSongsInDatabase? || outcome.NoSongs? || outcome.NoMedia?
  }

  class QuizCog {
    var activeGames: map<int, GameSession>
    var creatingGames: set<int>
    /** `CATEGORY_MAPPING` and `VERSION_MAPPING`, which the constants module
        builds when it is loaded (`Constants.BuildMapping`). */
    const categoryMapping: map<string, string>
    const versionMapping: map<string, string>

    /** Each game is filed under its own channel, has at least one round and
        keeps its own invariant, and a channel is never both active and
        being set up. */
    ghost predicate Valid()
      reads this, activeGames.Values
    {
      && (forall c | c in activeGames ::
          activeGames[c].channelId == c && activeGames[c].config.rounds >= 1 && activeGames[c].Valid())
      && (forall c | c in activeGames :: c !in creatingGames)
    }

    constructor(categoryMapping: map<string, string>, versionMapping: map<string, string>)
      ensures Valid() && activeGames == map[] && creatingGames == {}
      ensures this.categoryMapping == categoryMapping && this.versionMapping == versionMapping
    {
      this.categoryMapping, this.versionMapping := categoryMapping, versionMapping;
      activeGames := map[];
      creatingGames := {};
    }

    // ------------------------------------------------------------- starting

    /** `/quiz` up to its "Loading songs" reply: refuse a busy channel, mark
        the channel as being set up, and check the parameters in order,
        releasing the channel on the first failure. */
    method QuizStart(channel: int, mode: string, answerType: string, rounds: int, timeLimit: int, snippetLength: int)
      returns (outcome: StartOutcome)
      requires Valid()
      modifies this
      ensures Valid() && activeGames == old(activeGames)
      ensures old(channel in activeGames || channel in creatingGames) ==>
        outcome == AlreadyActive && creatingGames == old(creatingGames)
      ensures !old(channel in activeGames || channel in creatingGames) ==>
        (match QuizRules.CheckSlashParams(mode, answerType, rounds, timeLimit, snippetLength)
         case Some(e) => outcome == InvalidParams(e) && creatingGames == old(creatingGames)
         case None => outcome == Loading && creatingGames == old(creatingGames) + {channel})
    {
      if channel in activeGames || channel in creatingGames {
        return AlreadyActive;
      }
      creatingGames := creatingGames + {channel};
      var error := QuizRules.CheckSlashParams(mode, answerType, rounds, timeLimit, snippetLength);
      if error.Some? {
        creatingGames := creatingGames - {channel};
        return InvalidParams(error.value);
      }
      outcome := Loading;
    }

    /** Files a new game for `channel`, replacing any game filed there, and
        discards the channel's setup mark. */
    method Commit(channel: int, hostId: int, config: GameConfig, pool: seq<Song>) returns (game: GameSession)
      requires Valid()
      requires |pool| == config.rounds >= 1
      modifies this
      ensures Valid() && fresh(game)
      ensures activeGames == old(activeGames)[channel := game] && creatingGames == old(creatingGames) - {channel}
      ensures game.channelId == channel && game.hostId == hostId && game.config == config
      ensures game.currentRound == 0 && game.songPool == pool && game.currentSong == None
      ensures game.scores == map[] && game.scorers == [] && !game.answered && game.timer == Idle
    {
      game := new GameSession(channel, hostId, config, pool);
      activeGames := activeGames[channel := game];
      creatingGames := creatingGames - {channel};
    }

    /** A start's error message has been sent; this is where the code
        discards the setup mark, and after an error raised while loading (the
        `except` branch) also the channel's game, whichever start filed it. */
    method ErrorReported(channel: int, outcome: StartOutcome)
      requires Valid() && ReportedBeforeRelease(outcome)
      modifies this
      ensures Valid()
      ensures creatingGames == old(creatingGames) - {channel}
      ensures activeGames == if outcome.LoadFailed? then old(activeGames) - {channel} else old(activeGames)
    {
      creatingGames := creatingGames - {channel};
      if outcome.LoadFailed? {
        activeGames := activeGames - {channel};
      }
    }

    /** The part the three start commands share: filter the loaded master
        charts, shuffle them, take the first `template.rounds`, keep those
        with media, and file the game with the pool size as its round count.
        A refusal keeps the setup mark until its message is sent. */
    method DrawAndCommit(channel: int, hostId: int, template: GameConfig, catalog: seq<Song>, loaded: seq<Song>,
                         categoryList: seq<string>, versionList: seq<string>,
                         shuffle: seq<Song> -> seq<Song>, fileExists: string -> bool)
      returns (outcome: StartOutcome)
      requires Valid() && IsShuffle(shuffle) && template.rounds >= 1
      requires SongLoader.IsDeduplication(Filter(catalog, (s: Song) => SongLoader.Passes(s, "master", "", "")), loaded)
      modifies this
      ensures Valid()
      ensures outcome == NoSongs || outcome == NoMedia || outcome == Started
      ensures creatingGames == if outcome == Started then old(creatingGames) - {channel} else old(creatingGames)
      ensures outcome != Started ==> activeGames == old(activeGames)
      ensures outcome == NoSongs <==> QuizRules.Candidates(loaded, categoryList, versionList) == []
      ensures outcome == NoMedia <==>
        QuizRules.Candidates(loaded, categoryList, versionList) != []
        && DrawnPool(loaded, categoryList, versionList, shuffle, template.rounds, template.mode, fileExists) == []
      ensures outcome == Started <==>
        DrawnPool(loaded, categoryList, versionList, shuffle, template.rounds, template.mode, fileExists) != []
      ensures outcome == Started ==>
        && channel in activeGames && fresh(activeGames[channel])
        && activeGames == old(activeGames)[channel := activeGames[channel]]
        && activeGames[channel].hostId == hostId
        && activeGames[channel].songPool ==
           DrawnPool(loaded, categoryList, versionList, shuffle, template.rounds, template.mode, fileExists)
        && activeGames[channel].config == template.(rounds := |activeGames[channel].songPool|)
        && activeGames[channel].currentRound == 0 && activeGames[channel].currentSong == None
        && activeGames[channel].scores == map[] && activeGames[channel].timer == Idle
        && QuizRules.GoodPool(activeGames[channel].songPool, catalog, categoryList, versionList,
                              template.rounds, template.mode, fileExists)
    {
      var songs := QuizRules.Candidates(loaded, categoryList, versionList);
      if songs == [] {
        DrawnPoolOfNothing(shuffle, template.rounds, template.mode, fileExists);
        return NoSongs;
      }
      var pool := QuizRules.Pool(shuffle(songs), template.rounds, template.mode, fileExists);
      if pool == [] {
        return NoMedia;
      }
      QuizRules.PoolFromCatalog(catalog, loaded, categoryList, versionList, shuffle(songs), template.rounds, template.mode, fileExists);
      var game := Commit(channel, hostId, template.(rounds := |pool|), pool);
      outcome := Started;
    }

    /** Reads the master charts (`catalog` is `None` when the song file cannot
        be read, which raises) and goes on as `DrawAndCommit`. */
    method LoadAndDraw(channel: int, hostId: int, template: GameConfig, catalog: Option<seq<Song>>,
                       categoryList: seq<string>, versionList: seq<string>,
                       shuffle: seq<Song> -> seq<Song>, fileExists: string -> bool)
      returns (outcome: StartOutcome)
      requires Valid() && IsShuffle(shuffle) && template.rounds >= 1
      modifies this
      ensures Valid()
      ensures creatingGames == if outcome == Started then old(creatingGames) - {channel} else old(creatingGames)
      ensures outcome != Started ==> activeGames == old(activeGames)
      ensures outcome == LoadFailed <==> catalog.None?
      ensures catalog.Some? ==>
        && (outcome == NoSongs || outcome == NoMedia || outcome == Started)
        && (outcome == NoSongs <==> QuizRules.Candidates(MasterCharts(catalog.value), categoryList, versionList) == [])
        && (outcome == NoMedia <==>
            QuizRules.Candidates(MasterCharts(catalog.value), categoryList, versionList) != []
            && DrawnPool(MasterCharts(catalog.value), categoryList, versionList, shuffle, template.rounds, template.mode, fileExists) == [])
        && (outcome == Started <==>
            DrawnPool(MasterCharts(catalog.value), categoryList, versionList, shuffle, template.rounds, template.mode, fileExists) != [])
      ensures outcome == Started ==>
        && catalog.Some? && channel in activeGames && fresh(activeGames[channel])
        && activeGames == old(activeGames)[channel := activeGames[channel]]
        && activeGames[channel].hostId == hostId
        && activeGames[channel].songPool ==
           DrawnPool(MasterCharts(catalog.value), categoryList, versionList, shuffle, template.rounds, template.mode, fileExists)
        && activeGames[channel].config == template.(rounds := |activeGames[channel].songPool|)
        && activeGames[channel].currentRound == 0 && activeGames[channel].currentSong == None
        && activeGames[channel].scores == map[] && activeGames[channel].timer == Idle
        && QuizRules.GoodPool(activeGames[channel].songPool, catalog.value, categoryList, versionList,
                              template.rounds, template.mode, fileExists)
    {
      var loaded := SongLoader.LoadSongs(catalog, "master", "", "");
      if loaded.None? {
        return LoadFailed;
      }
      outcome := DrawAndCommit(channel, hostId, template, catalog.value, loaded.value, categoryList, versionList, shuffle, fileExists);
    }

    /** The rest of `/quiz`, from the "Loading songs" reply (`ackOk` is false
        when it failed) to the new game. `catalog` is what reading the song
        file gives (`None` when it fails, which is the error path). The setup
        mark may have been discarded, and a game filed, by other events while
        the reply was being sent; the new game then replaces that one. */
    method QuizLoaded(channel: int, hostId: int, mode: string, answerType: string, rounds: int, timeLimit: int,
                      snippetLength: int, imageDifficulty: string, categories: Option<string>, versions: Option<string>,
                      ackOk: bool, catalog: Option<seq<Song>>, shuffle: seq<Song> -> seq<Song>, fileExists: string -> bool)
      returns (outcome: StartOutcome)
      requires Valid()
      requires QuizRules.CheckSlashParams(mode, answerType, rounds, timeLimit, snippetLength).None?
      requires IsShuffle(shuffle)
      modifies this
      ensures Valid()
      ensures creatingGames ==
        if ReportedBeforeRelease(outcome) then old(creatingGames) else old(creatingGames) - {channel}
      ensures outcome != Started ==> activeGames == old(activeGames)
      ensures !ackOk ==> outcome == AckFailed
      ensures ackOk && QuizRules.InvalidCategoryTokens(categoryMapping, categories) != [] ==>
        outcome == InvalidCategories(QuizRules.InvalidCategoryTokens(categoryMapping, categories))
      ensures ackOk && QuizRules.InvalidCategoryTokens(categoryMapping, categories) == [] && catalog.None? ==> outcome == LoadFailed
      ensures ackOk && QuizRules.InvalidCategoryTokens(categoryMapping, categories) == [] && catalog.Some? ==>
        var loaded, cl, vl :=
          MasterCharts(catalog.value), QuizRules.CategoryNames(categoryMapping, categories), QuizRules.VersionNames(versionMapping, versions);
        && (outcome == NoSongs || outcome == NoMedia || outcome == Started)
        && (outcome == NoSongs <==> QuizRules.Candidates(loaded, cl, vl) == [])
        && (outcome == NoMedia <==>
            QuizRules.Candidates(loaded, cl, vl) != [] && DrawnPool(loaded, cl, vl, shuffle, rounds, mode, fileExists) == [])
        && (outcome == Started <==> DrawnPool(loaded, cl, vl, shuffle, rounds, mode, fileExists) != [])
      ensures outcome == Started ==>
        && catalog.Some? && channel in activeGames && fresh(activeGames[channel])
        && activeGames == old(activeGames)[channel := activeGames[channel]]
        && activeGames[channel].hostId == hostId
        && activeGames[channel].songPool ==
           DrawnPool(MasterCharts(catalog.value), QuizRules.CategoryNames(categoryMapping, categories),
                     QuizRules.VersionNames(versionMapping, versions), shuffle, rounds, mode, fileExists)
        && activeGames[channel].config ==
           GameConfig(mode, answerType, timeLimit, |activeGames[channel].songPool|, snippetLength, imageDifficulty, categories, versions)
        && activeGames[channel].currentRound == 0 && activeGames[channel].scores == map[]
        && QuizRules.GoodPool(activeGames[channel].songPool, catalog.value, QuizRules.CategoryNames(categoryMapping, categories),
                              QuizRules.VersionNames(versionMapping, versions), rounds, mode, fileExists)
    {
      if !ackOk {
        creatingGames := creatingGames - {channel};
        return AckFailed;
      }
      var template := GameConfig(mode, answerType, timeLimit, rounds, snippetLength, imageDifficulty, categories, versions);
      outcome := FilterAndLoad(channel, hostId, template, catalog, shuffle, fileExists);
    }

    /** `/quiz` after a good reply: read the category filter (refusing unknown
        names), then the version filter, and go on as `LoadAndDraw`. */
    method FilterAndLoad(channel: int, hostId: int, template: GameConfig, catalog: Option<seq<Song>>,
                         shuffle: seq<Song> -> seq<Song>, fileExists: string -> bool)
      returns (outcome: StartOutcome)
      requires Valid() && IsShuffle(shuffle) && template.rounds >= 1
      modifies this
      ensures Valid()
      ensures creatingGames == if outcome == Started then old(creatingGames) - {channel} else old(creatingGames)
      ensures outcome == Started || ReportedBeforeRelease(outcome)
      ensures outcome != Started ==> activeGames == old(activeGames)
      ensures QuizRules.InvalidCategoryTokens(categoryMapping, template.categories) != [] ==>
        outcome == InvalidCategories(QuizRules.InvalidCategoryTokens(categoryMapping, template.categories))
      ensures QuizRules.InvalidCategoryTokens(categoryMapping, template.categories) == [] && catalog.None? ==> outcome == LoadFailed
      ensures QuizRules.InvalidCategoryTokens(categoryMapping, template.categories) == [] && catalog.Some? ==>
        var loaded, cl, vl := MasterCharts(catalog.value), QuizRules.CategoryNames(categoryMapping, template.categories),
          QuizRules.VersionNames(versionMapping, template.versions);
        && (outcome == NoSongs || outcome == NoMedia || outcome == Started)
        && (outcome == NoSongs <==> QuizRules.Candidates(loaded, cl, vl) == [])
        && (outcome == NoMedia <==>
            QuizRules.Candidates(loaded, cl, vl) != []
            && DrawnPool(loaded, cl, vl, shuffle, template.rounds, template.mode, fileExists) == [])
        && (outcome == Started <==> DrawnPool(loaded, cl, vl, shuffle, template.rounds, template.mode, fileExists) != [])
      ensures outcome == Started ==>
        && catalog.Some? && channel in activeGames && fresh(activeGames[channel])
        && activeGames == old(activeGames)[channel := activeGames[channel]]
        && activeGames[channel].hostId == hostId
        && activeGames[channel].songPool ==
           DrawnPool(MasterCharts(catalog.value), QuizRules.CategoryNames(categoryMapping, template.categories),
                     QuizRules.VersionNames(versionMapping, template.versions), shuffle, template.rounds, template.mode, fileExists)
        && activeGames[channel].config == template.(rounds := |activeGames[channel].songPool|)
        && activeGames[channel].currentRound == 0 && activeGames[channel].scores == map[]
        && QuizRules.GoodPool(activeGames[channel].songPool, catalog.value,
                              QuizRules.CategoryNames(categoryMapping, template.categories),
                              QuizRules.VersionNames(versionMapping, template.versions),
                              template.rounds, template.mode, fileExists)
    {
      var categoryList, invalid := ReadCategories(categoryMapping, template.categories);
      if invalid != [] {
        return InvalidCategories(invalid);
      }
      var versionList := ReadVersions(versionMapping, template.versions);
      outcome := LoadAndDraw(channel, hostId, template, catalog, categoryList, versionList, shuffle, fileExists);
    }

    /** `q>quiz`: the prefix command, with clamped numbers and no filters. */
    method PrefixQuiz(channel: int, authorId: int, mode: string, answerType: string, rounds: int, timeLimit: int,
                      snippetLength: int, imageDifficulty: string,
                      catalog: Option<seq<Song>>, shuffle: seq<Song> -> seq<Song>, fileExists: string -> bool)
      returns (outcome: StartOutcome)
      requires Valid() && IsShuffle(shuffle)
      modifies this
      ensures Valid()
      ensures old(channel in activeGames || channel in creatingGames) ==>
        outcome == AlreadyActive && activeGames == old(activeGames) && creatingGames == old(creatingGames)
      ensures !old(channel in activeGames || channel in creatingGames) ==>
        creatingGames == if ReportedBeforeRelease(outcome) then old(creatingGames) + {channel} else old(creatingGames)
      ensures outcome != Started ==> activeGames == old(activeGames)
      ensures !old(channel in activeGames || channel in creatingGames) ==>
        && (!QuizRules.IsMode(mode) ==> outcome == InvalidParams(QuizRules.BadMode))
        && (QuizRules.IsMode(mode) && !QuizRules.IsAnswerType(answerType) ==> outcome == InvalidParams(QuizRules.BadAnswerType))
        && (QuizRules.IsMode(mode) && QuizRules.IsAnswerType(answerType) ==>
            (catalog.None? ==> outcome == LoadFailed)
            && (catalog.Some? ==>
                var loaded, r := MasterCharts(catalog.value), PrefixSettings(mode, answerType, rounds, timeLimit, snippetLength, imageDifficulty).rounds;
                && (outcome == NoSongs || outcome == NoMedia || outcome == Started)
                && (outcome == NoSongs <==> loaded == [])
                && (outcome == NoMedia <==> loaded != [] && DrawnPool(loaded, [], [], shuffle, r, mode, fileExists) == [])
                && (outcome == Started <==> DrawnPool(loaded, [], [], shuffle, r, mode, fileExists) != [])))
      ensures outcome == Started ==>
        && catalog.Some? && channel in activeGames && fresh(activeGames[channel])
        && activeGames == old(activeGames)[channel := activeGames[channel]]
        && activeGames[channel].hostId == authorId
        && activeGames[channel].songPool ==
           DrawnPool(MasterCharts(catalog.value), [], [], shuffle,
                     PrefixSettings(mode, answerType, rounds, timeLimit, snippetLength, imageDifficulty).rounds, mode, fileExists)
        && activeGames[channel].config ==
           PrefixSettings(mode, answerType, rounds, timeLimit, snippetLength, imageDifficulty).(rounds := |activeGames[channel].songPool|)
        && activeGames[channel].currentRound == 0 && activeGames[channel].scores == map[]
        && QuizRules.GoodPool(activeGames[channel].songPool, catalog.value, [], [],
                              PrefixSettings(mode, answerType, rounds, timeLimit, snippetLength, imageDifficulty).rounds, mode, fileExists)
    {
      if channel in activeGames || channel in creatingGames {
        return AlreadyActive;
      }
      creatingGames := creatingGames + {channel};
      assert creatingGames - {channel} == old(creatingGames);
      outcome := PrefixChecked(channel, authorId, mode, answerType, rounds, timeLimit, snippetLength, imageDifficulty,
                               catalog, shuffle, fileExists);
    }

    /** `q>quiz` once the channel is marked: check the mode and the answer
        type, discarding the mark on a bad one, clamp the numbers, and load
        and draw with no filters. */
    method PrefixChecked(channel: int, authorId: int, mode: string, answerType: string, rounds: int, timeLimit: int,
                         snippetLength: int, imageDifficulty: string,
                         catalog: Option<seq<Song>>, shuffle: seq<Song> -> seq<Song>, fileExists: string -> bool)
      returns (outcome: StartOutcome)
      requires Valid() && IsShuffle(shuffle)
      modifies this
      ensures Valid()
      ensures creatingGames == if ReportedBeforeRelease(outcome) then old(creatingGames) else old(creatingGames) - {channel}
      ensures outcome != Started ==> activeGames == old(activeGames)
      ensures !QuizRules.IsMode(mode) ==> outcome == InvalidParams(QuizRules.BadMode)
      ensures QuizRules.IsMode(mode) && !QuizRules.IsAnswerType(answerType) ==> outcome == InvalidParams(QuizRules.BadAnswerType)
      ensures QuizRules.IsMode(mode) && QuizRules.IsAnswerType(answerType) ==>
        && (catalog.None? ==> outcome == LoadFailed)
        && (catalog.Some? ==>
            var loaded, r := MasterCharts(catalog.value), PrefixSettings(mode, answerType, rounds, timeLimit, snippetLength, imageDifficulty).rounds;
            && (outcome == NoSongs || outcome == NoMedia || outcome == Started)
            && (outcome == NoSongs <==> loaded == [])
            && (outcome == NoMedia <==> loaded != [] && DrawnPool(loaded, [], [], shuffle, r, mode, fileExists) == [])
            && (outcome == Started <==> DrawnPool(loaded, [], [], shuffle, r, mode, fileExists) != []))
      ensures outcome == Started ==>
        && catalog.Some? && channel in activeGames && fresh(activeGames[channel])
        && activeGames == old(activeGames)[channel := activeGames[channel]]
        && activeGames[channel].hostId == authorId
        && activeGames[channel].songPool ==
           DrawnPool(MasterCharts(catalog.value), [], [], shuffle,
                     PrefixSettings(mode, answerType, rounds, timeLimit, snippetLength, imageDifficulty).rounds, mode, fileExists)
        && activeGames[channel].config ==
           PrefixSettings(mode, answerType, rounds, timeLimit, snippetLength, imageDifficulty).(rounds := |activeGames[channel].songPool|)
        && activeGames[channel].currentRound == 0 && activeGames[channel].scores == map[]
        && QuizRules.GoodPool(activeGames[channel].songPool, catalog.value, [], [],
                              PrefixSettings(mode, answerType, rounds, timeLimit, snippetLength, imageDifficulty).rounds, mode, fileExists)
    {
      if !QuizRules.IsMode(mode) {
        creatingGames := creatingGames - {channel};
        return InvalidParams(QuizRules.BadMode);
      }
      if !QuizRules.IsAnswerType(answerType) {
        creatingGames := creatingGames - {channel};
        return InvalidParams(QuizRules.BadAnswerType);
      }
      var template := PrefixSettings(mode, answerType, rounds, timeLimit, snippetLength, imageDifficulty);
      outcome := LoadAndDraw(channel, authorId, template, catalog, [], [], shuffle, fileExists);
      if catalog.Some? {
        CandidatesUnfiltered(MasterCharts(catalog.value));
      }
    }

    /** `start_game_with_config`, the replay of a finished game's settings:
        unknown category tokens are dropped instead of refused, and the round
        count is the pool size of the game replayed. */
    method StartGameWithConfig(channel: int, hostId: int, config: GameConfig,
                               catalog: Option<seq<Song>>, shuffle: seq<Song> -> seq<Song>, fileExists: string -> bool)
      returns (outcome: StartOutcome)
      requires Valid() && IsShuffle(shuffle)
      requires config.rounds >= 1
      modifies this
      ensures Valid()
      ensures old(channel in activeGames || channel in creatingGames) ==>
        outcome == AlreadyActive && activeGames == old(activeGames) && creatingGames == old(creatingGames)
      ensures !old(channel in activeGames || channel in creatingGames) ==>
        creatingGames == if ReportedBeforeRelease(outcome) then old(creatingGames) + {channel} else old(creatingGames)
      ensures outcome != Started ==> activeGames == old(activeGames)
      ensures !old(channel in activeGames || channel in creatingGames) ==>
        && (catalog.None? ==> outcome == LoadFailed)
        && (catalog.Some? ==>
            var loaded, cl, vl := MasterCharts(catalog.value), QuizRules.CategoryNames(categoryMapping, config.categories),
              QuizRules.VersionNames(versionMapping, config.versions);
            && (outcome == NoSongsInDatabase || outcome == NoSongs || outcome == NoMedia || outcome == Started)
            && (outcome == NoSongsInDatabase <==> loaded == [])
            && (outcome == NoSongs <==> loaded != [] && QuizRules.Candidates(loaded, cl, vl) == [])
            && (outcome == NoMedia <==>
                QuizRules.Candidates(loaded, cl, vl) != [] && DrawnPool(loaded, cl, vl, shuffle, config.rounds, config.mode, fileExists) == [])
            && (outcome == Started <==> DrawnPool(loaded, cl, vl, shuffle, config.rounds, config.mode, fileExists) != []))
      ensures outcome == Started ==>
        && catalog.Some? && channel in activeGames && fresh(activeGames[channel])
        && activeGames == old(activeGames)[channel := activeGames[channel]]
        && activeGames[channel].hostId == hostId
        && activeGames[channel].songPool ==
           DrawnPool(MasterCharts(catalog.value), QuizRules.CategoryNames(categoryMapping, config.categories),
                     QuizRules.VersionNames(versionMapping, config.versions), shuffle, config.rounds, config.mode, fileExists)
        && activeGames[channel].config == config.(rounds := |activeGames[channel].songPool|)
        && activeGames[channel].currentRound == 0 && activeGames[channel].scores == map[]
        && QuizRules.GoodPool(activeGames[channel].songPool, catalog.value, QuizRules.CategoryNames(categoryMapping, config.categories),
                              QuizRules.VersionNames(versionMapping, config.versions), config.rounds, config.mode, fileExists)
    {
      if channel in activeGames || channel in creatingGames {
        return AlreadyActive;
      }
      creatingGames := creatingGames + {channel};
      assert creatingGames - {channel} == old(creatingGames);
      outcome := ReplayLoaded(channel, hostId, config, catalog, shuffle, fileExists);
    }

    /** `start_game_with_config` once the channel is marked: load, refuse an
        empty database, read the filters, dropping unknown categories, and go
        on as `DrawAndCommit`. */
    method ReplayLoaded(channel: int, hostId: int, config: GameConfig,
                        catalog: Option<seq<Song>>, shuffle: seq<Song> -> seq<Song>, fileExists: string -> bool)
      returns (outcome: StartOutcome)
      requires Valid() && IsShuffle(shuffle)
      requires config.rounds >= 1
      modifies this
      ensures Valid()
      ensures creatingGames == if outcome == Started then old(creatingGames) - {channel} else old(creatingGames)
      ensures outcome == Started || ReportedBeforeRelease(outcome)
      ensures outcome != Started ==> activeGames == old(activeGames)
      ensures catalog.None? ==> outcome == LoadFailed
      ensures catalog.Some? ==>
        var loaded, cl, vl := MasterCharts(catalog.value), QuizRules.CategoryNames(categoryMapping, config.categories),
          QuizRules.VersionNames(versionMapping, config.versions);
        && (outcome == NoSongsInDatabase || outcome == NoSongs || outcome == NoMedia || outcome == Started)
        && (outcome == NoSongsInDatabase <==> loaded == [])
        && (outcome == NoSongs <==> loaded != [] && QuizRules.Candidates(loaded, cl, vl) == [])
        && (outcome == NoMedia <==>
            QuizRules.Candidates(loaded, cl, vl) != [] && DrawnPool(loaded, cl, vl, shuffle, config.rounds, config.mode, fileExists) == [])
        && (outcome == Started <==> DrawnPool(loaded, cl, vl, shuffle, config.rounds, config.mode, fileExists) != [])
      ensures outcome == Started ==>
        && catalog.Some? && channel in activeGames && fresh(activeGames[channel])
        && activeGames == old(activeGames)[channel := activeGames[channel]]
        && activeGames[channel].hostId == hostId
        && activeGames[channel].songPool ==
           DrawnPool(MasterCharts(catalog.value), QuizRules.CategoryNames(categoryMapping, config.categories),
                     QuizRules.VersionNames(versionMapping, config.versions), shuffle, config.rounds, config.mode, fileExists)
        && activeGames[channel].config == config.(rounds := |activeGames[channel].songPool|)
        && activeGames[channel].currentRound == 0 && activeGames[channel].scores == map[]
        && QuizRules.GoodPool(activeGames[channel].songPool, catalog.value, QuizRules.CategoryNames(categoryMapping, config.categories),
                              QuizRules.VersionNames(versionMapping, config.versions), config.rounds, config.mode, fileExists)
    {
      var loaded := SongLoader.LoadSongs(catalog, "master", "", "");
      if loaded.None? {
        return LoadFailed;
      }
      if loaded.value == [] {
        CandidatesOfNothing(QuizRules.CategoryNames(categoryMapping, config.categories), QuizRules.VersionNames(versionMapping, config.versions));
        DrawnPoolOfNothing(shuffle, config.rounds, config.mode, fileExists);
        return NoSongsInDatabase;
      }
      var cm, vm := categoryMapping, versionMapping;
      var categoryList := ReadReplayCategories(cm, config.categories);
      var versionList := ReadVersions(vm, config.versions);
      outcome := DrawAndCommit(channel, hostId, config, catalog.value, loaded.value, categoryList, versionList, shuffle, fileExists);
    }

    // ------------------------------------------------------------ the rounds

    /** `start_round`: with no game nothing happens; a game with no songs
        left ends; otherwise the next song starts an unanswered round with a
        fresh timer and skip view. It also runs when the pause of
        `on_message`, `perform_skip` or the first round's countdown ends,
        since each of those only checks the channel and calls it. */
    method StartRound(channel: int) returns (skipView: Option<SkipButton>, podium: Option<seq<QuizRules.Entry>>)
      requires Valid()
      modifies this, if channel in activeGames then {activeGames[channel]} else {}
      ensures Valid()
      ensures channel !in old(activeGames) ==>
        activeGames == old(activeGames) && creatingGames == old(creatingGames) && skipView == None && podium == None
      ensures channel in old(activeGames) && old(activeGames[channel].songPool) == [] ==>
        && activeGames == old(activeGames) && creatingGames == old(creatingGames) && skipView == None
        && Ending(activeGames[channel]) && podium == Some(Top(old(activeGames[channel].Leaderboard()), 3))
      ensures channel in old(activeGames) && old(activeGames[channel].songPool) != [] ==>
        && activeGames == old(activeGames) && creatingGames == old(creatingGames) && podium == None
        && var g := activeGames[channel];
        && g.currentSong == Some(old(g.songPool[0])) && g.songPool == old(g.songPool[1..])
        && g.currentRound == old(g.currentRound) + 1 && !g.answered && g.timer == Waiting
        && g.scores == old(g.scores) && g.scorers == old(g.scorers)
        && skipView.Some? && fresh(skipView.value) && skipView.value.cog == this
        && skipView.value.channel == channel && skipView.value.hostId == g.hostId && !skipView.value.skipped
    {
      skipView, podium := None, None;
      if channel !in activeGames {
        return;
      }
      var game := activeGames[channel];
      var song := game.NextSong();
      if song.None? {
        var ending, top := EndGameStart(channel);
        podium := Some(top);
        return;
      }
      var view := new SkipButton(this, channel, game.hostId);
      skipView := Some(view);
      game.timer := Waiting;
    }

    /** `round_timeout` when its time limit has passed, as the source has it:
        an answered round is left alone; otherwise the answer is revealed
        and the task pauses, but the round stays open to guesses. */
    method RoundTimeoutAsWritten(game: GameSession)
      requires Valid() && game.timer == Waiting
      modifies game
      ensures Valid()
      ensures old(game.answered) ==> game.timer == Idle && game.answered
      ensures !old(game.answered) ==> game.timer == Revealing && !game.answered
      ensures game.currentRound == old(game.currentRound) && game.songPool == old(game.songPool)
      ensures game.currentSong == old(game.currentSong) && game.scores == old(game.scores) && game.scorers == old(game.scorers)
    {
      if game.answered {
        game.timer := Idle;
        return;
      }
      game.timer := Revealing;
    }

    /** `round_timeout` with the round closed once its answer is revealed,
        as the "No one guessed correctly" message means. */
    method RoundTimeout(game: GameSession)
      requires Valid() && game.timer == Waiting
      modifies game
      ensures Valid()
      ensures old(game.answered) ==> game.timer == Idle
      ensures !old(game.answered) ==> game.timer == Revealing
      ensures game.answered
      ensures game.currentRound == old(game.currentRound) && game.songPool == old(game.songPool)
      ensures game.currentSong == old(game.currentSong) && game.scores == old(game.scores) && game.scorers == old(game.scorers)
    {
      if game.answered {
        game.timer := Idle;
        return;
      }
      game.answered := true;
      game.timer := Revealing;
    }

    /** A correct guess typed after the timeout revealed the answer, with the
        timeout as the source has it: the guess still scores a point. */
    method LateGuessAsWritten(channel: int, authorId: int, content: string, ratio: (string, string) -> real)
      returns (revealed: bool, scored: bool)
      requires Valid() && channel in activeGames
      requires activeGames[channel].timer == Waiting && !activeGames[channel].answered
      requires activeGames[channel].currentSong.Some?
      requires Matcher.CheckAnswer(ratio, content, activeGames[channel].currentSong.value,
                                   activeGames[channel].config.answerType, Matcher.DefaultThreshold)
      modifies activeGames[channel]
      ensures revealed && scored
      ensures Points(activeGames[channel].scores, authorId) == Points(old(activeGames[channel].scores), authorId) + 1
    {
      RoundTimeoutAsWritten(activeGames[channel]);
      revealed := activeGames[channel].timer == Revealing;
      scored := OnMessage(channel, authorId, false, content, ratio);
    }

    /** The same guess with the round closed at the reveal: once the timeout
        has fired, no guess scores in that round. */
    method LateGuessRejected(channel: int, authorId: int, isBot: bool, content: string, ratio: (string, string) -> real)
      returns (scored: bool)
      requires Valid() && channel in activeGames && activeGames[channel].timer == Waiting
      modifies activeGames[channel]
      ensures !scored
      ensures activeGames[channel].scores == old(activeGames[channel].scores)
    {
      RoundTimeout(activeGames[channel]);
      scored := OnMessage(channel, authorId, isBot, content, ratio);
    }

    /** The end of the pause after a timeout's reveal: the task is done, and
        the next round starts if the channel still has a game. */
    method RevealOver(channel: int, game: GameSession) returns (skipView: Option<SkipButton>, podium: Option<seq<QuizRules.Entry>>)
      requires Valid() && game.timer == Revealing
      modifies this, game, if channel in activeGames then {activeGames[channel]} else {}
      ensures Valid()
      ensures channel !in old(activeGames) ==> activeGames == old(activeGames) && game.timer == Idle
    {
      game.timer := Idle;
      skipView, podium := StartRound(channel);
    }

    /** A message scores when it is not from a bot, the channel has a game
        with a current song whose round is unanswered, and `check_answer`
        accepts it for the game's answer type with the default threshold. */
    predicate GuessScores(channel: int, isBot: bool, content: string, ratio: (string, string) -> real)
      reads this, activeGames.Values
    {
      && !isBot && channel in activeGames && activeGames[channel].currentSong.Some?
      && !activeGames[channel].answered
      && Matcher.CheckAnswer(ratio, content, activeGames[channel].currentSong.value,
                             activeGames[channel].config.answerType, Matcher.DefaultThreshold)
    }

    /** `on_message`: a guess scores exactly when it is not from a bot, the
        channel has a game with a current song whose round is unanswered, and
        `check_answer` accepts it; then the round is answered, its timer
        cancelled and the author gains one point. Any other message changes
        nothing. */
    method OnMessage(channel: int, authorId: int, isBot: bool, content: string, ratio: (string, string) -> real)
      returns (scored: bool)
      requires Valid()
      modifies if channel in activeGames then {activeGames[channel]} else {}
      ensures Valid()
      ensures scored <==> old(GuessScores(channel, isBot, content, ratio))
      ensures scored ==> channel in activeGames && Accepted(activeGames[channel], authorId)
      ensures !scored && channel in activeGames ==> unchanged(activeGames[channel])
    {
      if !GuessScores(channel, isBot, content, ratio) {
        return false;
      }
      AcceptGuess(channel, authorId);
      scored := true;
    }

    /** The state a correct guess leaves its game in: the round answered, its
        timer cancelled, one more point for the author, nothing else of the
        round changed. */
    twostate predicate Accepted(g: GameSession, authorId: int)
      reads g
    {
      && g.answered && g.timer == Idle
      && g.scores == old(g.scores)[authorId := Points(old(g.scores), authorId) + 1]
      && g.currentSong == old(g.currentSong) && g.songPool == old(g.songPool) && g.currentRound == old(g.currentRound)
    }

    /** The correct-guess branch of `on_message` up to its pause. */
    method AcceptGuess(channel: int, authorId: int)
      requires Valid() && channel in activeGames
      modifies activeGames[channel]
      ensures Valid()
      ensures activeGames == old(activeGames) && Accepted(activeGames[channel], authorId)
    {
      var game := activeGames[channel];
      game.answered := true;
      game.timer := Idle;
      game.AddScore(authorId, 1);
    }

    /** `perform_skip(channel, game)` up to its pause, on the game its caller
        read before acknowledging: the timer is cancelled and the round counts
        as answered, whatever state it was in, and whether or not the game is
        still filed under the channel. */
    method PerformSkip(game: GameSession)
      requires Valid() && game.Valid()
      modifies game
      ensures Valid() && game.Valid()
      ensures game.timer == Idle && game.answered
      ensures game.currentSong == old(game.currentSong) && game.songPool == old(game.songPool)
      ensures game.currentRound == old(game.currentRound)
      ensures game.scores == old(game.scores) && game.scorers == old(game.scorers)
    {
      game.timer := Idle;
      game.answered := true;
    }

    /** `/skip` up to its acknowledgement: only the host of the channel's
        game gets through, and nothing changes yet. The game read here is the
        one `PerformSkip` works on once the acknowledgement is sent. */
    method SkipCommand(channel: int, userId: int) returns (reply: Reply, game: Option<GameSession>)
      ensures channel !in activeGames ==> reply == NoGame
      ensures channel in activeGames ==> (reply == Done <==> userId == activeGames[channel].hostId)
      ensures reply == Done || reply == NotHost || reply == NoGame
      ensures game.Some? <==> reply == Done
      ensures reply == Done ==> channel in activeGames && game.value == activeGames[channel]
    {
      if channel !in activeGames {
        return NoGame, None;
      }
      if userId != activeGames[channel].hostId {
        return NotHost, None;
      }
      reply, game := Done, Some(activeGames[channel]);
    }

    /** `/leaderboard`: the first ten entries of the game's leaderboard. */
    function LeaderboardReply(channel: int): Board
      reads this, activeGames.Values
      requires Valid()
    {
      if channel !in activeGames then NoActiveGame
      else
        var g := activeGames[channel];
        if g.scores == map[] then NoScores
        else Standings(g.currentRound, g.config.rounds, Top(g.Leaderboard(), 10))
    }

    /** `/stop` up to its acknowledgement: only the host of the channel's game
        may stop it. The game ends only when the acknowledgement has been sent,
        with `EndGameStart`; until then nothing changes. */
    method Stop(channel: int, userId: int) returns (reply: Reply)
      ensures channel !in activeGames ==> reply == NoGame
      ensures channel in activeGames ==> (reply == Done <==> userId == activeGames[channel].hostId)
      ensures reply == Done || reply == NotHost || reply == NoGame
    {
      if channel !in activeGames {
        return NoGame;
      }
      if userId != activeGames[channel].hostId {
        return NotHost;
      }
      reply := Done;
    }

    /** `q>stop`: the same checks as `/stop`, but with nothing to wait for
        before `end_game` starts; its own cancelling of the timer is the one
        `EndGameStart` does. */
    method PrefixStop(channel: int, userId: int) returns (reply: Reply, podium: seq<QuizRules.Entry>)
      requires Valid()
      modifies this, if channel in activeGames then {activeGames[channel]} else {}
      ensures Valid()
      ensures activeGames == old(activeGames) && creatingGames == old(creatingGames)
      ensures channel !in activeGames ==> reply == NoGame
      ensures channel in activeGames ==> (reply == Done <==> userId == activeGames[channel].hostId)
      ensures reply != Done ==> podium == [] && (channel in activeGames ==> unchanged(activeGames[channel]))
      ensures reply == Done ==>
        Ending(activeGames[channel]) && podium == Top(old(activeGames[channel].Leaderboard()), 3)
    {
      podium := [];
      if channel !in activeGames {
        return NoGame, [];
      }
      if userId != activeGames[channel].hostId {
        return NotHost, [];
      }
      var ending;
      ending, podium := EndGameStart(channel);
      reply := Done;
    }

    /** What the first step of `end_game` leaves a game in: its timer
        cancelled and everything else as it was. The game stays active. */
    twostate predicate Ending(g: GameSession)
      reads g
    {
      && g.timer == Idle
      && g.scores == old(g.scores) && g.scorers == old(g.scorers) && g.answered == old(g.answered)
      && g.currentSong == old(g.currentSong) && g.songPool == old(g.songPool) && g.currentRound == old(g.currentRound)
    }

    /** `end_game` up to its first wait: without a game the channel is
        released at once; with one, its timer is cancelled and the top three
        of its leaderboard are taken, while the game stays in `active_games`.
        The game is handed on to `EndGameAnnounce`, which runs once the names
        of those three are known. */
    method EndGameStart(channel: int) returns (ending: Option<GameSession>, podium: seq<QuizRules.Entry>)
      requires Valid()
      modifies this, if channel in activeGames then {activeGames[channel]} else {}
      ensures Valid()
      ensures channel !in old(activeGames) ==>
        && ending == None && podium == []
        && activeGames == old(activeGames) && creatingGames == old(creatingGames) - {channel}
      ensures channel in old(activeGames) ==>
        && ending == Some(old(activeGames[channel])) && ending.value.config.rounds >= 1
        && activeGames == old(activeGames) && creatingGames == old(creatingGames)
        && Ending(activeGames[channel]) && podium == Top(old(activeGames[channel].Leaderboard()), 3)
    {
      ending, podium := None, [];
      if channel !in activeGames {
        creatingGames := creatingGames - {channel};
        return;
      }
      var game := activeGames[channel];
      game.timer := Idle;
      podium := Top(game.Leaderboard(), 3);
      ending := Some(game);
    }

    /** The step of `end_game` after the names are fetched: the number of
        players is read from the game as it is now, and the "Play again" view
        is made with the game's host and settings. Sending the results is the
        next wait; `EndGameRelease` follows it. */
    method EndGameAnnounce(channel: int, game: GameSession) returns (playAgain: PlayAgainButton, players: nat)
      requires game.ScoresTracked()
      ensures players == |game.scores|
      ensures fresh(playAgain) && playAgain.cog == this && playAgain.channel == channel
      ensures playAgain.hostId == game.hostId && playAgain.config == game.config && !playAgain.clicked
    {
      players := |game.scores|;
      playAgain := new PlayAgainButton(this, channel, game.hostId, game.config);
    }

    /** The `finally` of `end_game`: the channel leaves both the active games
        and the games being set up. */
    method EndGameRelease(channel: int)
      requires Valid()
      modifies this
      ensures Valid()
      ensures activeGames == old(activeGames) - {channel} && creatingGames == old(creatingGames) - {channel}
    {
      activeGames := activeGames - {channel};
      creatingGames := creatingGames - {channel};
    }

    /** A correct guess that arrives while `end_game` waits for the results
        to be sent: the game is still active, so the guess scores, after the
        podium was taken, and the player count shown counts the new scorer. */
    method GuessWhileEnding(channel: int, authorId: int, content: string, ratio: (string, string) -> real)
      returns (podium: seq<QuizRules.Entry>, scored: bool, players: nat)
      requires Valid() && channel in activeGames
      requires activeGames[channel].currentSong.Some? && !activeGames[channel].answered
      requires Matcher.CheckAnswer(ratio, content, activeGames[channel].currentSong.value,
                                   activeGames[channel].config.answerType, Matcher.DefaultThreshold)
      requires authorId !in activeGames[channel].scores
      modifies this, activeGames[channel]
      ensures scored && podium == Top(old(activeGames[channel].Leaderboard()), 3)
      ensures players == |old(activeGames[channel].scores)| + 1
      ensures channel !in activeGames
    {
      var ending;
      ending, podium := EndGameStart(channel);
      scored := OnMessage(channel, authorId, false, content, ratio);
      var view;
      view, players := EndGameAnnounce(channel, ending.value);
      EndGameRelease(channel);
    }

    /** A second `/stop` while the first one's `end_game` waits: the game is
        still there, so it ends a second time and a second "Play again" view
        is made. */
    method StopTwice(channel: int) returns (first: PlayAgainButton, second: PlayAgainButton)
      requires Valid() && channel in activeGames
      modifies this, activeGames[channel]
      ensures fresh(first) && fresh(second) && first != second
      ensures first.channel == channel && second.channel == channel
      ensures channel !in activeGames
    {
      var host := activeGames[channel].hostId;
      var g1, p1 := EndGameStart(channel);
      var reply := Stop(channel, host);
      assert reply == Done;
      var g2, p2 := EndGameStart(channel);
      var n1, n2;
      first, n1 := EndGameAnnounce(channel, g1.value);
      second, n2 := EndGameAnnounce(channel, g2.value);
      EndGameRelease(channel);
      EndGameRelease(channel);
    }
  }

  /** A "Skip" press whose acknowledgement waits while `/stop` ends the
      game: the skip then lands on the game that is no longer filed, and the
      round `perform_skip` would start after its pause does not start. */
  method SkipAfterStop(view: SkipButton) returns (pressed: Reply, nextRound: Option<SkipButton>)
    requires view.cog.Valid() && view.channel in view.cog.activeGames && !view.skipped
    requires view.hostId == view.cog.activeGames[view.channel].hostId
    modifies view, view.cog, view.cog.activeGames[view.channel]
    ensures pressed == Done && nextRound == None
    ensures view.channel !in view.cog.activeGames
    ensures old(view.cog.activeGames[view.channel]).answered && old(view.cog.activeGames[view.channel]).timer == Idle
  {
    var cog, channel := view.cog, view.channel;
    var g0 := cog.activeGames[channel];
    var game;
    pressed, game := view.Press(view.hostId);
    var stop := cog.Stop(channel, view.hostId);
    var ending, podium := cog.EndGameStart(channel);
    var playAgain, players := cog.EndGameAnnounce(channel, ending.value);
    cog.EndGameRelease(channel);
    cog.PerformSkip(game.value);
    var podium2;
    nextRound, podium2 := cog.StartRound(channel);
  }

  /** With the program's tables, every alias the constants module lists,
      lowercased as the cog lowercases a typed name, resolves to its canonical
      category or version. */
  lemma ProgramAliasesResolve(cog: QuizCog)
    requires cog.categoryMapping == Constants.Mapping(Constants.Categories)
    requires cog.versionMapping == Constants.Mapping(Constants.Versions)
    ensures forall i | 0 <= i < |Constants.Categories| ::
      Text.Lower(Constants.Categories[i].1) in cog.categoryMapping
      && cog.categoryMapping[Text.Lower(Constants.Categories[i].1)] == Constants.Categories[i].0
    ensures forall i | 0 <= i < |Constants.Versions| ::
      Text.Lower(Constants.Versions[i].1) in cog.versionMapping
      && cog.versionMapping[Text.Lower(Constants.Versions[i].1)] == Constants.Versions[i].0
  {
    Constants.CategoryAliasesResolve();
    Constants.VersionAliasesResolve();
  }

  /** `/leaderboard` answers "no game" and "no scores" exactly in those
      cases; otherwise it shows the round, the round count and the best ten
      entries, highest first, each a player with their score, and no score
      left out is higher than any score shown. */
  lemma LeaderboardReplySpec(cog: QuizCog, channel: int)
    requires cog.Valid()
    ensures cog.LeaderboardReply(channel) == NoActiveGame <==> channel !in cog.activeGames
    ensures channel in cog.activeGames ==>
      (cog.LeaderboardReply(channel) == NoScores <==> cog.activeGames[channel].scores == map[])
    ensures cog.LeaderboardReply(channel).Standings? ==>
      && channel in cog.activeGames
      && var g := cog.activeGames[channel];
      && var e := cog.LeaderboardReply(channel).entries;
      && cog.LeaderboardReply(channel).round == g.currentRound
      && cog.LeaderboardReply(channel).totalRounds == g.config.rounds
      && |e| == QuizRules.Min(10, |g.scores|)
      && QuizRules.NonIncreasing(e)
      && (forall k | 0 <= k < |e| :: e[k].0 in g.scores && e[k].1 == g.scores[e[k].0])
      && (forall u, k | u in g.scores && (u, g.scores[u]) !in e && 0 <= k < |e| :: g.scores[u] <= e[k].1)
  {
    if channel in cog.activeGames && cog.activeGames[channel].scores != map[] {
      var g := cog.activeGames[channel];
      LeaderboardSpec(g);
      var board := g.Leaderboard();
      var e := Top(board, 10);
      assert e == cog.LeaderboardReply(channel).entries;
      forall u, k | u in g.scores && (u, g.scores[u]) !in e && 0 <= k < |e| ensures g.scores[u] <= e[k].1 {
        var j :| 0 <= j < |board| && board[j] == (u, g.scores[u]);
        assert forall i | 0 <= i < |e| :: e[i] == board[i];
        assert |e| <= j;
        assert e[k] == board[k];
      }
    }
  }

  /** The "Skip" view of one round. */
  class SkipButton {
    const cog: QuizCog
    const channel: int
    const hostId: int
    var skipped: bool

    constructor(cog: QuizCog, channel: int, hostId: int)
      ensures this.cog == cog && this.channel == channel && this.hostId == hostId && !skipped
    {
      this.cog := cog;
      this.channel := channel;
      this.hostId := hostId;
      skipped := false;
    }

    /** A press up to its acknowledgement: when there is a game, the presser
        is the host the view was made for and the view has not been pressed
        before, the view latches and the game read now is handed to
        `PerformSkip`, which runs after the acknowledgement. A view latches at
        most once, and no game changes yet. */
    method Press(userId: int) returns (reply: Reply, game: Option<GameSession>)
      modifies this
      ensures channel !in cog.activeGames ==> reply == NoGame
      ensures channel in cog.activeGames && userId != hostId ==> reply == NotHost
      ensures channel in cog.activeGames && userId == hostId && old(skipped) ==> reply == AlreadyPressed
      ensures reply == Done <==> channel in cog.activeGames && userId == hostId && !old(skipped)
      ensures skipped == (old(skipped) || reply == Done)
      ensures game.Some? <==> reply == Done
      ensures reply == Done ==> game.value == cog.activeGames[channel]
    {
      if channel !in cog.activeGames {
        return NoGame, None;
      }
      if userId != hostId {
        return NotHost, None;
      }
      if skipped {
        return AlreadyPressed, None;
      }
      skipped := true;
      reply, game := Done, Some(cog.activeGames[channel]);
    }
  }

  /** The "Play again" view of a finished game. */
  class PlayAgainButton {
    const cog: QuizCog
    const channel: int
    const hostId: int
    const config: GameConfig
    var clicked: bool

    constructor(cog: QuizCog, channel: int, hostId: int, config: GameConfig)
      ensures this.cog == cog && this.channel == channel && this.hostId == hostId && this.config == config && !clicked
    {
      this.cog := cog;
      this.channel := channel;
      this.hostId := hostId;
      this.config := config;
      clicked := false;
    }

    /** A press up to its acknowledgement: the original host, while the
        channel is free and the view unused, sets the latch; a view latches
        at most once. The replay itself runs after the acknowledgement, as
        `Replay`. */
    method Press(userId: int) returns (reply: Reply)
      modifies this
      ensures userId != hostId ==> reply == NotHost
      ensures userId == hostId && (channel in cog.activeGames || channel in cog.creatingGames) ==> reply == Busy
      ensures reply == Done <==>
        userId == hostId && !(channel in cog.activeGames || channel in cog.creatingGames) && !old(clicked)
      ensures reply == Done || reply == NotHost || reply == Busy || reply == AlreadyPressed
      ensures clicked == (old(clicked) || reply == Done)
    {
      if userId != hostId {
        return NotHost;
      }
      if channel in cog.activeGames || channel in cog.creatingGames {
        return Busy;
      }
      if clicked {
        return AlreadyPressed;
      }
      clicked := true;
      reply := Done;
    }

    /** `start_game_with_config` with the view's settings, once the
        acknowledgement is sent. It checks the channel again, so a game started
        during that wait makes the replay end as `AlreadyActive`. */
    method Replay(catalog: Option<seq<Song>>, shuffle: seq<Song> -> seq<Song>, fileExists: string -> bool)
      returns (outcome: StartOutcome)
      requires cog.Valid() && IsShuffle(shuffle) && config.rounds >= 1
      modifies cog
      ensures cog.Valid()
      ensures outcome == AlreadyActive <==> old(channel in cog.activeGames || channel in cog.creatingGames)
      ensures outcome != Started ==> cog.activeGames == old(cog.activeGames)
      ensures outcome == Started <==>
        && !old(channel in cog.activeGames || channel in cog.creatingGames) && catalog.Some?
        && DrawnPool(MasterCharts(catalog.value), QuizRules.CategoryNames(cog.categoryMapping, config.categories),
                     QuizRules.VersionNames(cog.versionMapping, config.versions), shuffle, config.rounds, config.mode, fileExists) != []
      ensures outcome == Started ==>
        && catalog.Some? && channel in cog.activeGames && fresh(cog.activeGames[channel])
        && cog.activeGames == old(cog.activeGames)[channel := cog.activeGames[channel]]
        && cog.activeGames[channel].hostId == hostId
        && cog.activeGames[channel].songPool ==
           DrawnPool(MasterCharts(catalog.value), QuizRules.CategoryNames(cog.categoryMapping, config.categories),
                     QuizRules.VersionNames(cog.versionMapping, config.versions), shuffle, config.rounds, config.mode, fileExists)
        && cog.activeGames[channel].config == config.(rounds := |cog.activeGames[channel].songPool|)
        && cog.activeGames[channel].currentRound == 0 && cog.activeGames[channel].scores == map[]
    {
      outcome := cog.StartGameWithConfig(channel, hostId, config, catalog, shuffle, fileExists);
    }
  }

  /** A `/quiz` that lands while a "Play again" press waits for its
      acknowledgement takes the channel, and the replay is then refused. */
  method ReplayPreempted(view: PlayAgainButton, mode: string, answerType: string, rounds: int, timeLimit: int, snippetLength: int,
                         catalog: Option<seq<Song>>, shuffle: seq<Song> -> seq<Song>, fileExists: string -> bool)
    returns (pressed: Reply, quiz: StartOutcome, replay: StartOutcome)
    requires view.cog.Valid() && IsShuffle(shuffle) && view.config.rounds >= 1
    requires view.channel !in view.cog.activeGames && view.channel !in view.cog.creatingGames && !view.clicked
    requires QuizRules.CheckSlashParams(mode, answerType, rounds, timeLimit, snippetLength).None?
    modifies view, view.cog
    ensures pressed == Done && quiz == Loading && replay == AlreadyActive
  {
    pressed := view.Press(view.hostId);
    quiz := view.cog.QuizStart(view.channel, mode, answerType, rounds, timeLimit, snippetLength);
    replay := view.Replay(catalog, shuffle, fileExists);
  }

  /** A `/quiz` whose setup mark is discarded, while its "Loading songs"
      reply is sent, by the `finally` of an `end_game` still in flight (a
      second `/stop` leaves one, as `StopTwice` shows): a "Play again" press
      then finds the channel free and its replay, here of a game without
      filters, files a game. */
  method ReplayDuringLoading(view: PlayAgainButton, mode: string, answerType: string, rounds: int,
                             timeLimit: int, snippetLength: int,
                             catalog: seq<Song>, shuffle: seq<Song> -> seq<Song>, fileExists: string -> bool)
    returns (quiz: StartOutcome, pressed: Reply, replay: StartOutcome)
    requires view.cog.Valid() && IsShuffle(shuffle) && view.config.rounds >= 1 && !view.clicked
    requires view.channel !in view.cog.activeGames && view.channel !in view.cog.creatingGames
    requires QuizRules.CheckSlashParams(mode, answerType, rounds, timeLimit, snippetLength).None?
    requires view.config.categories == None && view.config.versions == None
    requires DrawnPool(MasterCharts(catalog), [], [], shuffle, view.config.rounds, view.config.mode, fileExists) != []
    modifies view, view.cog
    ensures view.cog.Valid()
    ensures quiz == Loading && pressed == Done && replay == Started
    ensures view.channel in view.cog.activeGames && view.cog.activeGames[view.channel].hostId == view.hostId
  {
    quiz := QuizMarkDropped(view.cog, view.channel, mode, answerType, rounds, timeLimit, snippetLength);
    pressed := view.Press(view.hostId);
    replay := view.Replay(Some(catalog), shuffle, fileExists);
  }

  /** A `/quiz` reaches its "Loading songs" reply, and the `finally` of an
      earlier `end_game` then runs: the `/quiz` goes on loading, but the
      channel is neither active nor marked. */
  method QuizMarkDropped(cog: QuizCog, channel: int, mode: string, answerType: string, rounds: int,
                         timeLimit: int, snippetLength: int)
    returns (quiz: StartOutcome)
    requires cog.Valid() && channel !in cog.activeGames && channel !in cog.creatingGames
    requires QuizRules.CheckSlashParams(mode, answerType, rounds, timeLimit, snippetLength).None?
    modifies cog
    ensures cog.Valid() && quiz == Loading
    ensures channel !in cog.activeGames && channel !in cog.creatingGames
  {
    quiz := cog.QuizStart(channel, mode, answerType, rounds, timeLimit, snippetLength);
    cog.EndGameRelease(channel);
  }

  /** The `/quiz` of `ReplayDuringLoading` then resumes and files its own
      game over the replayed one. */
  method QuizOverwritesReplay(view: PlayAgainButton, hostId: int, mode: string, answerType: string, rounds: int,
                              timeLimit: int, snippetLength: int, imageDifficulty: string,
                              catalog: seq<Song>, shuffle: seq<Song> -> seq<Song>, fileExists: string -> bool)
    returns (replayed: GameSession, loaded: StartOutcome)
    requires view.cog.Valid() && IsShuffle(shuffle) && view.config.rounds >= 1 && !view.clicked
    requires view.channel !in view.cog.activeGames && view.channel !in view.cog.creatingGames
    requires QuizRules.CheckSlashParams(mode, answerType, rounds, timeLimit, snippetLength).None? && rounds >= 1
    requires view.config.categories == None && view.config.versions == None
    requires DrawnPool(MasterCharts(catalog), [], [], shuffle, view.config.rounds, view.config.mode, fileExists) != []
    requires DrawnPool(MasterCharts(catalog), [], [], shuffle, rounds, mode, fileExists) != []
    modifies view, view.cog
    ensures loaded == Started && replayed.hostId == view.hostId
    ensures view.channel in view.cog.activeGames && view.cog.activeGames[view.channel] != replayed
    ensures view.cog.activeGames[view.channel].hostId == hostId
  {
    var quiz, pressed, replay := ReplayDuringLoading(view, mode, answerType, rounds, timeLimit, snippetLength, catalog, shuffle, fileExists);
    var cog, channel := view.cog, view.channel;
    replayed := cog.activeGames[channel];
    loaded := cog.QuizLoaded(channel, hostId, mode, answerType, rounds, timeLimit, snippetLength, imageDifficulty,
                             None, None, true, Some(catalog), shuffle, fileExists);
  }

  /** A `/quiz` that fails to load keeps the channel marked while its error
      message is sent, so a second `/quiz` in that window is refused; once
      the message is out the channel is free again. */
  method QuizDuringErrorReport(cog: QuizCog, channel: int, mode: string, answerType: string, rounds: int,
                               timeLimit: int, snippetLength: int, imageDifficulty: string, hostId: int,
                               shuffle: seq<Song> -> seq<Song>, fileExists: string -> bool)
    returns (first: StartOutcome, failed: StartOutcome, second: StartOutcome, third: StartOutcome)
    requires cog.Valid() && IsShuffle(shuffle)
    requires channel !in cog.activeGames && channel !in cog.creatingGames
    requires QuizRules.CheckSlashParams(mode, answerType, rounds, timeLimit, snippetLength).None?
    modifies cog
    ensures first == Loading && failed == LoadFailed && second == AlreadyActive && third == Loading
  {
    first := cog.QuizStart(channel, mode, answerType, rounds, timeLimit, snippetLength);
    failed := cog.QuizLoaded(channel, hostId, mode, answerType, rounds, timeLimit, snippetLength, imageDifficulty,
                             None, None, true, None, shuffle, fileExists);
    second := cog.QuizStart(channel, mode, answerType, rounds, timeLimit, snippetLength);
    cog.ErrorReported(channel, failed);
    third := cog.QuizStart(channel, mode, answerType, rounds, timeLimit, snippetLength);
  }

}
