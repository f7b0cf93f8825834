/** `GameSession` of `cogs/quiz.py`: the state of one channel's game. */
module QuizSession {
  import opened Records
  import QuizRules

  /** The settings a game was started with, as kept for a replay (every key
      of `original_config`; the song pool is not part of it). `categories`
      and `versions` are the filter texts exactly as the host typed them. */
  datatype GameConfig = GameConfig(
    mode: string,
    answerType: string,
    timeLimit: int,
    rounds: int,
    snippetLength: int,
    imageDifficulty: string,
    categories: Option<string>,
    versions: Option<string>)

  /** The round's `timeout_task`: no live task, a task sleeping for the time
      limit, or a task in the pause after it revealed the answer. Cancelling
      the task (and the end of its run) makes it `Idle`. */
  datatype Timer = Idle | Waiting | Revealing

  class GameSession {
    const channelId: int
    const hostId: int
    /** `original_config`; `mode`, `answer_type`, `time_limit`,
        `total_rounds`, `snippet_length` and `image_difficulty` are its
        fields. */
    const config: GameConfig
    var currentRound: nat
    var songPool: seq<Song>
    var currentSong: Option<Song>
    /** The `scores` dictionary: `scores` holds the values and `scorers` the
        keys in insertion order, which decides the order of tied entries. */
    var scores: map<int, int>
    var scorers: seq<int>
    var answered: bool
    var timer: Timer

    /** Every scorer is a key of the score map and vice versa, once each. */
    predicate ScoresTracked()
      reads this
    {
      && NoDuplicates(scorers)
      && (forall i | 0 <= i < |scorers| :: scorers[i] in scores)
      && (forall u | u in scores :: u in scorers)
    }

    /** The invariant of a game: its rounds played plus the songs left make
        up the rounds it was configured with. */
    ghost predicate Valid()
      reads this
    {
      ScoresTracked() && currentRound + |songPool| == config.rounds
    }

    constructor(channelId: int, hostId: int, config: GameConfig, pool: seq<Song>)
      ensures this.channelId == channelId && this.hostId == hostId && this.config == config
      ensures currentRound == 0 && songPool == pool && currentSong == None
      ensures scores == map[] && scorers == [] && !answered && timer == Idle
      ensures |pool| == config.rounds ==> Valid()
    {
      this.channelId := channelId;
      this.hostId := hostId;
      this.config := config;
      currentRound := 0;
      songPool := pool;
      currentSong := None;
      scores := map[];
      scorers := [];
      answered := false;
      timer := Idle;
    }

    /** `next_song`: with songs left, the first one becomes the current song
        of a new, unanswered round; with none left nothing changes. */
    method NextSong() returns (song: Option<Song>)
      requires Valid()
      modifies this
      ensures Valid()
      ensures old(songPool) == [] ==>
        (song == None && currentRound == old(currentRound) && songPool == old(songPool)
         && currentSong == old(currentSong) && answered == old(answered))
      ensures old(songPool) != [] ==>
        (song == Some(old(songPool)[0]) && songPool == old(songPool)[1..]
         && currentRound == old(currentRound) + 1 && currentSong == song && !answered)
      ensures scores == old(scores) && scorers == old(scorers) && timer == old(timer)
    {
      if songPool == [] {
        return None;
      }
      currentRound := currentRound + 1;
      currentSong := Some(songPool[0]);
      songPool := songPool[1..];
      answered := false;
      song := currentSong;
    }

    /** `add_score`: the user's score grows by `points`, starting from 0 for a
        new scorer, who joins the end of the insertion order; no other score
        changes. */
    method AddScore(user: int, points: int)
      requires Valid()
      modifies this
      ensures Valid()
      ensures scores == old(scores)[user := (if user in old(scores) then old(scores)[user] else 0) + points]
      ensures scorers == if user in old(scores) then old(scorers) else old(scorers) + [user]
      ensures currentRound == old(currentRound) && songPool == old(songPool) && currentSong == old(currentSong)
      ensures answered == old(answered) && timer == old(timer)
    {
      var before := if user in scores then scores[user] else 0;
      if user !in scores {
        scorers := scorers + [user];
      }
      scores := scores[user := before + points];
    }

    /** `scores.items()`, in insertion order. */
    function Items(): (items: seq<QuizRules.Entry>)
      reads this
      requires ScoresTracked()
      ensures |items| == |scorers|
      ensures forall i | 0 <= i < |items| :: items[i] == (scorers[i], scores[scorers[i]])
    {
      ItemsOf(scorers, scores)
    }

    /** `get_leaderboard`. */
    function Leaderboard(): seq<QuizRules.Entry>
      reads this
      requires ScoresTracked()
    {
      QuizRules.SortByScore(Items())
    }
  }

  /** The entries `(u, scores[u])` for the users `us`, in order. */
  function ItemsOf(us: seq<int>, scores: map<int, int>): (items: seq<QuizRules.Entry>)
    requires forall i | 0 <= i < |us| :: us[i] in scores
    ensures |items| == |us|
    ensures forall i | 0 <= i < |items| :: items[i] == (us[i], scores[us[i]])
  {
    if us == [] then [] else [(us[0], scores[us[0]])] + ItemsOf(us[1..], scores)
  }

  /** The leaderboard lists each scorer once with their score, highest score
      first, and players with equal scores in the order they first scored. */
  lemma LeaderboardSpec(g: GameSession)
    requires g.ScoresTracked()
    ensures |g.Leaderboard()| == |g.scores|
    ensures QuizRules.NonIncreasing(g.Leaderboard())
    ensures forall k | 0 <= k < |g.Leaderboard()| ::
      g.Leaderboard()[k].0 in g.scores && g.Leaderboard()[k].1 == g.scores[g.Leaderboard()[k].0]
    ensures forall u | u in g.scores :: (u, g.scores[u]) in g.Leaderboard()
    ensures NoDuplicates(g.Leaderboard())
    ensures QuizRules.Stable(g.Items(), g.Leaderboard())
  {
    var items := g.Items();
    QuizRules.LeaderboardSpec(items);
    var board := g.Leaderboard();
    assert multiset(board) == multiset(items);
    assert |board| == |items| by {
      assert |multiset(board)| == |board| && |multiset(items)| == |items|;
    }
    ScorersCount(g);
    forall k | 0 <= k < |board| ensures board[k].0 in g.scores && board[k].1 == g.scores[board[k].0] {
      assert board[k] in multiset(items);
      var i :| 0 <= i < |items| && items[i] == board[k];
    }
    forall u | u in g.scores ensures (u, g.scores[u]) in board {
      var i :| 0 <= i < |g.scorers| && g.scorers[i] == u;
      assert items[i] in multiset(board);
    }
    assert NoDuplicates(items) by {
      forall i, j | 0 <= i < j < |items| ensures items[i] != items[j] {
        assert g.scorers[i] != g.scorers[j];
      }
    }
    PermutationNoDuplicates(items, board);
    QuizRules.SortStable(items);
  }

  /** There are as many scorers as scores. */
  lemma ScorersCount(g: GameSession)
    requires g.ScoresTracked()
    ensures |g.scorers| == |g.scores|
  {
    var keys := set i | 0 <= i < |g.scorers| :: g.scorers[i];
    forall u | u in g.scores ensures u in keys {
      var i :| 0 <= i < |g.scorers| && g.scorers[i] == u;
    }
    assert keys == g.scores.Keys;
    DistinctCard(g.scorers);
  }

  lemma {:induction false} DistinctCard(xs: seq<int>)
    requires NoDuplicates(xs)
    ensures |set i | 0 <= i < |xs| :: xs[i]| == |xs|
    decreases |xs|
  {
    if xs != [] {
      var init := xs[..|xs| - 1];
      DistinctCard(init);
      var s := set i | 0 <= i < |init| :: init[i];
      assert (set i | 0 <= i < |xs| :: xs[i]) == s + {xs[|xs| - 1]};
      assert xs[|xs| - 1] !in s;
    }
  }

  /** The rounds played never exceed the rounds configured. */
  lemma RoundsBounded(g: GameSession)
    requires g.Valid()
    ensures g.currentRound <= g.config.rounds
    ensures g.songPool == [] <==> g.currentRound == g.config.rounds
  {
  }
}
