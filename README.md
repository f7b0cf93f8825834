# maimai quiz bot — Dafny model

This project models a Discord bot that runs song quizzes for the rhythm game
maimai, together with the scripts that build its song catalog and fetch the
audio files.

- **The catalog.** `convert_data.py` turns the downloaded song list into
  `output.json`. There is one entry per master or remaster chart, and each
  entry carries a romaji and an English name.
- **The loader.** `utils/song_loader.py` loads the entries, filters them, and
  keeps one record per song id: the record with the highest level.
- **The matcher.** `utils/matcher.py` decides whether a chat message guesses
  the current song. It compares titles and artists fuzzily and difficulty
  levels numerically.
- **The name tables.** `utils/constants.py` maps category and version aliases
  to their canonical Japanese names.
- **The quiz cog.** `cogs/quiz.py` holds one `GameSession` per channel. It
  provides the `/quiz` and `q>quiz` start commands, the round cycle (a round
  starts, then either a correct guess, a skip or the timeout ends it), the
  leaderboard, `/stop`, the end of a game, and the "Skip" and "Play again"
  buttons.
- **The audio scripts.** `download_audio.py`, `manual_audio_download.py` and
  `replace_audio.py` fill the `audio/` directory. They download automatically
  from a search, from a URL typed for each missing song, or from a
  replacement picked by search.

## How the model is organised

Each source file is one module:

| Module | File | Source |
|---|---|---|
| `Text` | `text.dfy` | the parts of the Python `str` API the code uses |
| `Records` | `records.dfy` | the `Song` record, `Option`, filters and subsequences |
| `Constants` | `constants.dfy` | `utils/constants.py` |
| `Matcher` | `matcher.dfy` | `utils/matcher.py` |
| `SongLoader` | `song_loader.dfy` | `utils/song_loader.py` |
| `ConvertTables` | `convert_tables.dfy` | the two name tables of `convert_data.py` |
| `ConvertData` | `convert_data.dfy` | the rest of `convert_data.py` |
| `ScriptCatalog` | `script_catalog.dfy` | the helpers the three audio scripts define identically |
| `ReplaceAudio` | `replace_audio.dfy` | `replace_audio.py` |
| `ManualAudioDownload` | `manual_audio_download.dfy` | `manual_audio_download.py` |
| `DownloadAudio` | `download_audio.dfy` | `download_audio.py` |
| `QuizRules` | `quiz_rules.dfy` | the pure helpers of `cogs/quiz.py` |
| `QuizSession` | `quiz_session.dfy` | `GameSession` of `cogs/quiz.py` |
| `QuizCog` | `quiz_cog.dfy` | the `QuizCog`, `SkipButton` and `PlayAgainButton` classes of `cogs/quiz.py` |

**State.** The objects the bot changes in place are classes:
- `GameSession`;
- the cog, with its `active_games` map and its `creating_games` set;
- the two button views;
- the per-session state of `manual_audio_download.py`.

Their methods carry `modifies` clauses, and the loops are `while` loops with
invariants. The pure parts are functions, and the lemmas about them state the
promised properties.

**Events and waits.** The event loop runs one handler at a time, but only
until that handler awaits something. So a handler is modelled as the steps
between its waits. The code after a wait is the method of the event that
resumes it:
- `RevealOver` after the pause of a timeout;
- `StartRound` after the pauses of `on_message`, `perform_skip` and the first
  round's countdown;
- `end_game` as three steps. `EndGameStart` cancels the timer and takes the
  top three. `EndGameAnnounce` counts the players and makes the "Play again"
  view, after the names are fetched. `EndGameRelease` is the `finally` that
  frees the channel, after the results are sent. The game stays active in
  between;
- the "Play again" button as `Press` (the checks and the latch) and `Replay`
  (`start_game_with_config`, after the acknowledgement);
- the "Skip" button and `/skip` as `Press` and `SkipCommand` (the checks, the
  button's latch, and the game read before the acknowledgement) and
  `PerformSkip` (the skip of that game, after the acknowledgement).

A start that refuses after marking the channel sends its message first and
only then drops the mark: `ErrorReported` is that second step, so the channel
stays marked during the send. A start's outcomes say which refusal applies,
and a started game's pool is `DrawnPool` of the loaded master charts.

Seven methods run other events inside these waits:
- `GuessWhileEnding`: a guess can score after the podium was taken;
- `StopTwice`: a second `/stop` ends the same game again;
- `ReplayPreempted`: a `/quiz` can take the channel between a press and its
  replay;
- `SkipAfterStop`: a skip can land on a game that `/stop` has already ended;
- `ReplayDuringLoading`: the `finally` of an `end_game` still in flight can
  drop the mark of a `/quiz` waiting on its "Loading" reply, and a replay then
  files a game;
- `QuizOverwritesReplay`: that `/quiz` then files its own game over the
  replayed one;
- `QuizDuringErrorReport`: a second `/quiz` is refused while a failed one
  sends its error message.

A game's `timeout_task` is the `Timer` field: `Idle`, `Waiting` (sleeping for
the time limit) or `Revealing` (in the pause after the reveal).

**Parameters standing in for the outside world.** They are passed in so the
properties hold for every behaviour of them:

| Parameter | Stands in for |
|---|---|
| `fileExists` | the file system |
| `ratio` | difflib's `SequenceMatcher.ratio` |
| `names` | a `Namer`: the romaji converter `cutlet`, with the translation and override tables (`ProgramNamer` supplies the program's two tables) |
| `shuffle` | `random.shuffle`, constrained only to reorder |
| `pick` | `random.uniform` |
| `left`, `top` | `random.randint` |
| `levelText` | Python's rendering of a chart level |
| `search`, `download` | the YouTube search and download |

Each whole-number quantity the code uses is a Dafny `int`. Python integers are
unbounded too, so no wrap-around is involved. Two float products are
truncated to integers, and both are modelled exactly, as integer division:
- `int(len * 0.4)`;
- `int(w * 0.316)`.

Chart levels, durations and the level tolerances (0.01 for an exact level,
0.5 otherwise) are `real`, which is exact arithmetic and not IEEE doubles.
The two differ at the edge of a tolerance: see `Matcher.CheckDifficulty`
under "Left out".

## Model

| member | source | states |
|---|---|---|
| Text.Lower | utils/matcher.py:24 | lowercasing keeps the length and lowercases each ASCII letter, leaving every other character alone |
| Text.LowerIdempotent | utils/constants.py:16-19 | lowercasing twice is lowercasing once |
| Text.ContainsIffOccurs | utils/matcher.py:58-63 | the substring test `sub in s` holds exactly when `sub` occurs at some index of `s` |
| Text.ReplaceChar | utils/matcher.py:83 | a one-character `replace` keeps the length and swaps exactly the matching characters |
| Text.RemoveChar | utils/matcher.py:83 | removing a character leaves only other characters of the input |
| Text.RemoveCharKeepsOthers | utils/matcher.py:83 | removing a character keeps every other character of the input, in order: it is the filter `x != c` |
| Text.ReplaceAllSingle | convert_data.py:20-25 | `str.replace` with a one-character pattern is the character-wise replacement |
| Text.ReplaceAllSuffix | utils/song_loader.py:74 | when only the final `.png` is an occurrence, `replace` changes just that suffix |
| Text.Strip | cogs/quiz.py:388 | the stripped string starts and ends with characters that are not white space |
| Text.StripLeftOnlySpace | utils/matcher.py:83 | `lstrip` removes only white space from the front |
| Text.StripRightOnlySpace | utils/matcher.py:83 | `rstrip` removes only white space from the back |
| Text.StripRemovesOnlySpace | utils/matcher.py:83 | `strip` keeps one slice of the input, in place, and everything cut away before and after it is white space |
| Text.SplitOnJoin | cogs/quiz.py:388 | splitting on the comma and joining again gives the text back, and no piece contains a comma |
| Text.LexLessTotal | utils/song_loader.py:78-96 | string order is total on distinct strings; `LexLessIrreflexive`, `LexLessTransitive` and `LexLessAsymmetric` make it a strict order for `sorted` |
| Records.Filter | cogs/quiz.py:424-429 | a list comprehension with a condition is no longer than its input |
| Records.FilterMembers | cogs/quiz.py:424-429 | the comprehension holds exactly the entries satisfying its condition |
| Records.FilterIsSubsequence | cogs/quiz.py:424-429 | the comprehension keeps the order of its input |
| Records.PermutationNoDuplicates | cogs/quiz.py:442 | a reordered list without repeats has no repeats |
| Records.SubsequenceNoDuplicates | cogs/quiz.py:443-449 | deleting entries keeps a list free of repeats |
| Constants.Canonical | utils/constants.py:18 | the canonical names of a table are its keys in order |
| Constants.BuildMapping | utils/constants.py:16-19 | the comprehension followed by the canonical-name loop builds exactly the lookup map `Mapping` |
| Constants.MappingShape | utils/constants.py:16-19 | the keys of the map are exactly the lowercased aliases and canonical names, and every value is a canonical name |
| Constants.AliasIndexKeys | utils/constants.py:16 | every key of the comprehension is a lowercased alias |
| Constants.AliasIndexCovers | utils/constants.py:16 | every lowercased alias is a key of the comprehension |
| Constants.AliasIndexValues | utils/constants.py:16 | every value of the comprehension is a canonical name |
| Constants.WithCanonicalShape | utils/constants.py:18-19 | the canonical-name loop adds exactly the lowercased canonical names and maps each to a canonical name |
| Constants.CanonicalFixed | utils/constants.py:18-19 | with pairwise-different lowercased canonical names, each canonical name lowercased leads to itself |
| Constants.AliasResolves | utils/constants.py:16-19 | an alias leads to its own row's name unless a later row or some canonical name takes the same lowercase key |
| Constants.MappingIdempotent | utils/constants.py:16-19 | resolving the lowercase form of a resolved name gives the same name |
| Constants.CategoriesDistinct | utils/constants.py:6-13 | the six category names lowercase to different keys |
| Constants.VersionRows | utils/constants.py:22-57 | each version name and each version alias, lowercased or not, is recognised as its own row, so no two rows share one |
| Constants.VersionsDistinct | utils/constants.py:22-51 | the 28 version names lowercase to different keys |
| Constants.AliasesResolveAll | utils/constants.py:16-19 | when no alias shares its lowercase form with a later alias or any canonical name, every alias leads to its own row's name |
| Constants.CategoryAliasesResolve | utils/constants.py:6-19 | every English category alias leads to its own category in `CATEGORY_MAPPING` |
| Constants.VersionAliasesResolve | utils/constants.py:22-57 | every English version alias leads to its own version in `VERSION_MAPPING` |
| Matcher.Depunct | utils/matcher.py:27 | the regular-expression substitution replaces exactly the punctuation characters by spaces and keeps the length |
| Matcher.WordsOfJoin | utils/matcher.py:30 | splitting a single-space join of words gives the words back |
| Matcher.NormalizeShape | utils/matcher.py:10-32 | a normalised string is lowercase, has no punctuation, and has no leading, trailing or doubled spaces |
| Matcher.NormalizeIdempotent | utils/matcher.py:10-32 | normalising twice is normalising once |
| Matcher.MinLength | utils/matcher.py:53 | the length floor is 3 for targets of 9 characters or fewer, and otherwise the truncated two fifths of the target length |
| Matcher.FuzzyMatchSpec | utils/matcher.py:34-67 | the decision table: empty or too-short guesses are rejected, containment either way accepts, and otherwise the result is `ratio >= threshold` |
| Matcher.ShortTargetNeverMatchesItself | utils/matcher.py:53-56 | a target normalising to fewer than 3 characters never matches itself, and any guess it matches is strictly longer |
| Matcher.ShortGuessNeverMatches | utils/matcher.py:53-56 | a guess normalising to at most two characters never matches |
| Matcher.SelfMatch | utils/matcher.py:34-67 | a target of normalised length at least 3 matches itself for every similarity measure and threshold |
| Matcher.FuzzyMatchNormalizedGuess | utils/matcher.py:47-48 | the matcher sees a guess only through its normal form |
| Matcher.ThresholdExtremes | utils/matcher.py:57-67 | with a ratio in [0, 1], a threshold above 1 leaves only containment, and one at or below 0 accepts every guess past the floor |
| Matcher.CleanDifficultyGuess | utils/matcher.py:83 | a cleaned difficulty guess holds no `+` and no `,` |
| Matcher.CheckDifficultySpec | utils/matcher.py:69-96 | a guess that is not a number never matches; exact mode accepts within 0.01 of the level and tolerant mode within 0.5; an exact match is also a tolerant one |
| Matcher.DifficultyExamples | utils/matcher.py:69-96 | `13,7` with blanks and `13+` are read as numbers; 13.8 is exact-wrong but tolerant-right for 13.7; a word is never a level |
| Matcher.SpacedPlusGuessAccepted | utils/matcher.py:83-84 | `13 +` is accepted as 13: the blank left by the removed plus is stripped again by `float()` |
| Matcher.UnderscoreGuessAccepted | utils/matcher.py:84 | `1_3.7` is accepted as 13.7, since `float()` allows an underscore between digits |
| Matcher.CheckAnswerSpec | utils/matcher.py:98-134 | a title guess may match the title, romaji or English name; an artist guess the artist; a difficulty guess goes to the exact numeric check; any other answer type is rejected |
| Matcher.OwnNamesAccepted | utils/matcher.py:98-134 | a song's own title, romaji, English name or artist wins its round when it normalises to at least 3 characters |
| SongLoader.FirstOccurrencesSpec | utils/song_loader.py:45-54 | the dict keys are the distinct ids, each once |
| SongLoader.LoadSongs | utils/song_loader.py:9-56 | a missing file is the error; otherwise the result is the deduplication of the filtered entries, which is `Deduplicated` of them |
| SongLoader.DeduplicatedSpec | utils/song_loader.py:45-54 | the record-by-record dict loop `Deduplicated` meets `IsDeduplication`: unique ids in first-appearance order, every id present, each record of the highest level of its id |
| SongLoader.Absorb | utils/song_loader.py:46-54 | one step of the dict loop keeps the dict state, and the record kept for the step's id has at least the step's level |
| SongLoader.KeptValues | utils/song_loader.py:56 | the dict's values listed in key order: one per key, each the value of its key |
| SongLoader.DeduplicationProperties | utils/song_loader.py:45-54 | ids are unique, every passing id is present, every record is a passing record, and none is below the highest level of its id |
| SongLoader.LoadedSongsPass | utils/song_loader.py:37-43 | every returned record comes from the catalog and passes the filter; a non-empty difficulty argument admits master and remaster alike |
| SongLoader.DeduplicationOrder | utils/song_loader.py:45-54 | ids appear in the order their first passing record appears |
| SongLoader.DeduplicationUnique | utils/song_loader.py:45-54 | the contract fixes the result completely |
| SongLoader.ImagePath | utils/song_loader.py:58-65 | the cover path exists exactly when the song names an image and that file exists |
| SongLoader.AudioPath | utils/song_loader.py:67-76 | the audio path exists exactly when the song names an image and the `.mp3` of that name exists |
| SongLoader.AudioNameOfImage | utils/song_loader.py:74 | `<stem>.png` has its audio at `<stem>.mp3` |
| SongLoader.InsertSortedSpec | utils/song_loader.py:78-96 | inserting into a strictly sorted list keeps it strictly sorted and adds exactly the value |
| SongLoader.AvailableValuesSpec | utils/song_loader.py:78-96 | the offered categories and versions are sorted, without repeats, and are exactly the non-empty values present |
| ConvertData.CleanName | convert_data.py:20-25 | each character is cleaned in place, and the length is kept |
| ConvertData.CleanFilename | convert_data.py:20-25 | the replacement loop computes `CleanName` |
| ConvertData.CleanNameSpec | convert_data.py:20-25 | a cleaned name keeps its length, holds no invalid character, keeps every other character, and is already clean |
| ConvertData.EnglishTranslationSpec | convert_data.py:27-192 | an all-ASCII title is its own English name; another title gets the table's entry or "" |
| ConvertData.AsciiTableKeyUnused | convert_data.py:30-31 | an ASCII key of the table ("Don't Fight The Music") is never looked up |
| ConvertData.RomajiOverride | convert_data.py:194-245 | the override exists exactly for the titles of the table, with the table's value |
| ConvertData.RomajiFallback | convert_data.py:299-315 | a romaji that fails the question-mark test, override or not, is replaced by the title |
| ConvertData.ChooseRomaji | convert_data.py:299-315 | computes the romaji field, records a failing title only once, and every record failed the test |
| ConvertData.AddChart | convert_data.py:294-330 | one master or remaster sheet yields `ChartEntry` and updates the failure records as `ChooseRomaji` does |
| ConvertData.AddSheets | convert_data.py:293-330 | a song's sheets append its entries in order and record its title at most once |
| ConvertData.BuildCatalog | convert_data.py:265-330 | the loop writes exactly `Charts(songs)` and records, once each, the titles whose romaji failed on some chart sheet |
| ConvertData.ChartEntryWellFormed | convert_data.py:317-329 | an entry carries its song's id and title, its clean image name and its romaji |
| ConvertData.SongEntriesSpec | convert_data.py:293-330 | a song gets one well-formed entry per master or remaster sheet |
| ConvertData.ChartsWellFormed | convert_data.py:265-330 | every entry of `output.json` is well formed |
| ConvertData.EntryVersionRule | convert_data.py:322 | the version is the sheet's, else the song's, else "" |
| ConvertData.FailedTitlesDistinct | convert_data.py:308 | the failure records have pairwise different titles |
| ScriptCatalog.LoadMasterSongs | replace_audio.py:22-35 | the scripts' loader keeps the first master record of each id, in order of first appearance |
| ScriptCatalog.TakeFirst | replace_audio.py:31-33 | one step of the dict loop keeps the dict state; the dict gains the record exactly when its id is not yet a key, and is otherwise unchanged |
| ScriptCatalog.KeepsFirstOf | replace_audio.py:22-35 | a first-occurrence catalog has each id once, only records of its input, every id of its input, and each record no later than any other of its id |
| ScriptCatalog.KeepsFirstProperties | manual_audio_download.py:22-35 | master charts only, each id once, every master id present, and each record from the first master record of its id on |
| ScriptCatalog.KeepsFirstUnique | download_audio.py:25-38 | the contract fixes the scripts' catalog completely |
| Records.IndexOf | replace_audio.py:32 | the first index of an entry: no earlier entry equals it, and it holds the entry when below the length |
| Records.IndexOfPresent | replace_audio.py:32 | an entry that occurs is found below the length |
| Records.IndexOfAbsent | replace_audio.py:32 | an entry that does not occur gives the length |
| Records.FilterPrefixStep | utils/song_loader.py:35-43 | one more entry extends the filtered prefix by that entry exactly when it passes |
| ScriptCatalog.AudioFilenameSpec | replace_audio.py:37-43 | `<stem>.png` gives `<stem>.mp3` |
| ScriptCatalog.AudioFilenameWithoutImage | manual_audio_download.py:37-45 | without an image the file is `<song_id>.mp3` |
| ScriptCatalog.ScriptAndBotAgree | download_audio.py:40-48 | for a song with an image, the scripts write the file the bot plays |
| ScriptCatalog.MissingSpec | manual_audio_download.py:47-57 | the missing list is exactly the songs without an audio file, in order |
| ScriptCatalog.BaseName | manual_audio_download.py:278-279 | `Path.name` is the end of the path after its last `/`, and holds no `/` |
| ScriptCatalog.AudioBaseName | manual_audio_download.py:278-279 | the name of a file of the audio directory is the path after `audio/` |
| ScriptCatalog.NewFilesSpec | replace_audio.py:237-256 | a file counts as new exactly when it was absent before or its time stamp increased; listing order is kept |
| ReplaceAudio.SearchSongs | replace_audio.py:45-62 | the search loop computes `Matching` |
| ReplaceAudio.SearchSpec | replace_audio.py:45-62 | the results are exactly the songs whose title, romaji, artist or English name contains the lowercased query, in catalog order |
| ReplaceAudio.EmptyQueryMatchesAll | replace_audio.py:45-62 | the empty query matches every song |
| ReplaceAudio.SelectionSpec | replace_audio.py:165-193 | a number `n` picks `results[n - 1]` exactly when `1 <= n <= min(len, 20)`; text that is not a number is reported as such |
| ReplaceAudio.TwentyFirstNotSelectable | replace_audio.py:165-193 | the 21st result is out of range even when it exists |
| ManualAudioDownload.FindMissingAudio | manual_audio_download.py:47-57 | the loop computes the missing list |
| ManualAudioDownload.RemainingSpec | manual_audio_download.py:145-149 | the resumed list is exactly the missing songs neither skipped nor completed, in order |
| ManualAudioDownload.ListPreview | manual_audio_download.py:211-217 | `list` shows at most ten song numbers from the current one on, up to the last |
| ManualAudioDownload.CollectNewFiles | manual_audio_download.py:249-255 | the loop computes the new files |
| ManualAudioDownload.NameFragment | manual_audio_download.py:277-279 | the fallback name fragment has at most five characters |
| ManualAudioDownload.MatchingAudioFile | manual_audio_download.py:276-279 | a file of the audio directory matches exactly when its own name, lowercased, contains the fragment |
| ManualAudioDownload.DirectoryNotMatched | manual_audio_download.py:276-279 | with fragment "dio", a file of `audio` without `d` or `D` in its name is no match, though its path contains "dio" |
| ManualAudioDownload.LaunchSpec | manual_audio_download.py:140-160 | `main` returns at once exactly when no song is missing, returns after "all processed" exactly when every missing song is saved as skipped or completed, and prompts exactly when some missing song is unprocessed |
| ManualAudioDownload.ManualSession.constructor | manual_audio_download.py:144-165 | reached only when some song is left to prompt for, the session starts on the resumed list with the saved progress and zero counters |
| ManualAudioDownload.ManualSession.Skip | manual_audio_download.py:204-209 | a skip records the song id in the skipped list, counts it and moves on |
| ManualAudioDownload.ManualSession.Complete | manual_audio_download.py:240-274 | a download records the song id in the completed list, counts it and moves on |
| ManualAudioDownload.ManualSession.Step | manual_audio_download.py:192-308 | a quit, a stay, a skip and a completed download each change the session as stated, and every earlier song stays recorded exactly once |
| ManualAudioDownload.ProgressCleanup | manual_audio_download.py:320-324 | at the end of a prompt loop over a non-empty list, the progress file is deleted exactly when every remaining song was downloaded, and then no skip is saved beyond the earlier sessions' |
| DownloadAudio.SliceEnd | download_audio.py:172 | the slice end never passes the list |
| DownloadAudio.ToProcessSpec | download_audio.py:172 | no limit processes every song, and a positive limit the first `min(n, len)` |
| DownloadAudio.ConfiguredLimitTakesAll | download_audio.py:19 | the configured `TEST_LIMIT = None` processes every song |
| DownloadAudio.OutcomesPartition | download_audio.py:175-218 | every song has exactly one outcome, and the failure list has one entry per failed song |
| DownloadAudio.ProcessSong | download_audio.py:175-218 | one song is skipped, finds no video, fails to download or is downloaded |
| DownloadAudio.DownloadAll | download_audio.py:156-218 | the counters count each outcome, add up to the total, and the failure list holds the failed songs in order |
| QuizRules.FormatAnswerSpec | cogs/quiz.py:227-254 | a title answer is the title, then the romaji if new, then the English name in parentheses if new; other answer types give the artist or the level with the difficulty |
| QuizRules.PlainTitleAnswer | cogs/quiz.py:227-248 | a song whose romaji and English name add nothing is answered by its title |
| QuizRules.CropBoxSpec | cogs/quiz.py:256-296 | the crop box has its difficulty's size, is the whole image for "easy", and lies inside the image for every allowed random offset |
| QuizRules.HardBoxRatio | cogs/quiz.py:282-284 | each side of the hard box is 0.316 of the image's, truncated |
| QuizRules.PlanSnippetSpec | cogs/quiz.py:536-542 | the whole file is played exactly when it is no longer than the snippet; otherwise the clip has the snippet's length and lies within the song |
| QuizRules.CheckSlashParamsSpec | cogs/quiz.py:349-373 | `/quiz` accepts exactly the two modes, the three answer types, 1-50 rounds, 10-300 seconds and 5-30 second snippets |
| QuizRules.Clamp | cogs/quiz.py:1364-1366 | the clamped value lies in the range, equals the input inside it and the nearer bound outside |
| QuizRules.Tokens | cogs/quiz.py:388 | the tokens are the stripped comma-separated pieces |
| QuizRules.ParseCategories | cogs/quiz.py:387-404 | the category loop yields the resolved names and the unresolved tokens |
| QuizRules.ParseReplayCategories | cogs/quiz.py:1022-1032 | a replay keeps the resolved names and drops the rest |
| QuizRules.ParseVersions | cogs/quiz.py:406-417 | each version token is resolved, or else kept as written |
| QuizRules.KnownValues | cogs/quiz.py:387-404 | every resolved name is a value of the map |
| QuizRules.ResolveOrKeepSpec | cogs/quiz.py:406-417 | resolved tokens become their names, and the other tokens stay as written |
| QuizRules.UnknownEmpty | cogs/quiz.py:392-404 | nothing is refused exactly when every token resolves |
| QuizRules.CategoriesStrict | cogs/quiz.py:387-404 | `/quiz` accepts a category text exactly when every token resolves, and then filters only by canonical names |
| QuizRules.VersionsVerbatim | cogs/quiz.py:406-417 | the version filter has one entry per token, canonical when it resolves and verbatim otherwise |
| QuizRules.ByCategorySpec | cogs/quiz.py:424-426 | the category filter keeps exactly the songs of a listed category, or every song when none is listed, in order |
| QuizRules.ByVersionSpec | cogs/quiz.py:428-429 | the version filter keeps exactly the songs of a listed version, or every song when none is listed, in order |
| QuizRules.CandidatesSpec | cogs/quiz.py:424-431 | the candidates are exactly the loaded songs passing both filters, distinct ids preserved |
| QuizRules.PoolSpec | cogs/quiz.py:438-449 | the pool is within the rounds asked for, holds songs with media in shuffled order, and has no repeats |
| QuizRules.PoolOfPermutation | cogs/quiz.py:442-449 | a pool from a reordering holds candidates with media, with distinct ids |
| QuizRules.PoolFromCatalog | cogs/quiz.py:419-457 | a non-empty pool satisfies `GoodPool`: between one song and the rounds asked for, catalog master charts passing the filters, with media, no id twice |
| QuizRules.PermutationUniqueIds | cogs/quiz.py:442 | shuffling keeps ids distinct |
| QuizRules.InsertByScore | cogs/quiz.py:156-158 | inserting adds exactly one entry |
| QuizRules.InsertByScoreSorted | cogs/quiz.py:156-158 | inserting into a non-increasing board keeps it non-increasing |
| QuizRules.LeaderboardSpec | cogs/quiz.py:156-158 | the sort is a permutation of the items in non-increasing score order |
| QuizRules.LeadingAtLeast | cogs/quiz.py:156-158 | the leading entries counted all score at least the bound, and the next one scores less |
| QuizRules.InsertByScoreAt | cogs/quiz.py:156-158 | inserting puts the new entry right after the leading entries scoring at least as much |
| QuizRules.InsertByScoreSplit | cogs/quiz.py:156-158 | the new entry goes after every entry scoring at least as much and before every lower one |
| QuizRules.SortStable | cogs/quiz.py:156-158 | entries with equal scores keep their order in `scores.items()` |
| QuizRules.StableInsert | cogs/quiz.py:156-158 | inserting the last item behind every entry scoring at least as much keeps the board stable |
| QuizSession.GameSession.constructor | cogs/quiz.py:113-141 | a new game has round 0, the given pool, no song, no scores, an unanswered round and no timer |
| QuizSession.GameSession.NextSong | cogs/quiz.py:143-150 | with songs left, the first becomes the song of a new unanswered round; with none, nothing changes |
| QuizSession.GameSession.AddScore | cogs/quiz.py:152-154 | the user's score grows by the points from 0; a new scorer joins the end of the order; no other score changes |
| QuizSession.GameSession.Items | cogs/quiz.py:158 | `scores.items()` lists each scorer with their score in insertion order |
| QuizSession.ItemsOf | cogs/quiz.py:158 | the items for a list of users are those users with their scores, in order |
| QuizSession.LeaderboardSpec | cogs/quiz.py:156-158 | the leaderboard lists each scorer once with their score, highest first, ties in the order of first scoring |
| QuizSession.ScorersCount | cogs/quiz.py:152-158 | there are as many scorers as scores |
| QuizSession.RoundsBounded | cogs/quiz.py:143-150 | the rounds played never exceed the rounds configured, and the pool is empty exactly at the last round |
| QuizCog.ReadCategories | cogs/quiz.py:387-404 | an absent or empty category option filters nothing; otherwise the token loop runs |
| QuizCog.ReadReplayCategories | cogs/quiz.py:1022-1032 | the category filter of a replay |
| QuizCog.ReadVersions | cogs/quiz.py:406-417 | the version filter of `/quiz` and of a replay |
| QuizCog.QuizCog.constructor | cogs/quiz.py:164-167 | the cog starts with no games and no channel in setup, and holds the two name maps it is given |
| QuizCog.QuizCog.QuizStart | cogs/quiz.py:338-381 | a busy channel is refused; otherwise a bad parameter is refused in check order, and valid parameters reserve the channel |
| QuizCog.QuizCog.Commit | cogs/quiz.py:459-474 | the new game is filed under the channel, replacing whatever game another event filed there, and the channel is released from setup |
| QuizCog.QuizCog.ErrorReported | cogs/quiz.py:401-505 | after the error message is sent the setup mark is dropped, and after a failed load the channel's game too; nothing else changes |
| QuizCog.QuizCog.DrawAndCommit | cogs/quiz.py:419-474 | "no songs" exactly when no candidate passes the filters, "no media" exactly when some do but the drawn pool is empty, and otherwise a new game whose pool is the shuffled candidates cut to the round count with media, a `GoodPool`, with the pool size as round count; a refusal keeps the setup mark for its message |
| QuizCog.QuizCog.LoadAndDraw | cogs/quiz.py:419-435 | the load fails exactly when the catalog is unreadable, keeping the setup mark for the message; a readable one goes on as `DrawAndCommit` on its deduplicated master charts |
| QuizCog.QuizCog.QuizLoaded | cogs/quiz.py:375-474 | a failed reply, refused categories, an unreadable catalog, or exactly one of "no songs", "no media" and a started game whose pool is drawn from the master charts with the typed filters and settings; every reported refusal keeps the setup mark, which a start discards, whether or not other events discarded it first |
| QuizCog.QuizCog.FilterAndLoad | cogs/quiz.py:387-474 | unknown category names are refused with the list of them; otherwise an unreadable catalog fails, and a readable one gives "no songs", "no media" or a game drawn with the category and version filters, each in exactly its case |
| QuizCog.PrefixSettings | cogs/quiz.py:1364-1369 | the settings of `q>quiz` keep the mode and answer type, clamp the round count, the time limit and the snippet length into their ranges, and have no filters |
| QuizCog.DrawnPoolOfNothing | cogs/quiz.py:438-457 | with no candidate to shuffle, the drawn pool is empty for every filter and round count |
| QuizCog.QuizCog.PrefixQuiz | cogs/quiz.py:1338-1437 | `q>quiz` refuses a busy channel or a bad mode or answer type, then fails on an unreadable catalog, reports no songs exactly when there are no master charts and no media exactly when the drawn pool is empty, and otherwise starts a game with the clamped settings and that pool |
| QuizCog.QuizCog.PrefixChecked | cogs/quiz.py:1370-1435 | a bad mode or answer type is refused and drops the mark; otherwise the outcomes of `PrefixQuiz` after its busy check |
| QuizCog.QuizCog.StartGameWithConfig | cogs/quiz.py:1004-1112 | a replay refuses a busy channel, then reports an unreadable catalog, an empty database, no candidates and no media each in exactly its case, dropping unknown categories, and otherwise starts with the replayed settings and the drawn pool |
| QuizCog.QuizCog.ReplayLoaded | cogs/quiz.py:1017-1112 | the outcomes of `StartGameWithConfig` once the channel is marked; every reported refusal keeps the mark |
| QuizCog.QuizCog.StartRound | cogs/quiz.py:577-662 | without a game nothing happens; with no songs left `end_game` starts (timer cancelled, top three taken, game still active); otherwise a new unanswered round starts with a waiting timer and a fresh "Skip" view |
| QuizCog.QuizCog.RoundTimeoutAsWritten | cogs/quiz.py:664-719 | as written: an unanswered round reveals its answer but stays open |
| QuizCog.QuizCog.RoundTimeout | cogs/quiz.py:664-719 | corrected: the round is answered once the timeout fires |
| QuizCog.QuizCog.LateGuessAsWritten | cogs/quiz.py:664-790 | as written: a correct guess after "Time's up" still earns a point |
| QuizCog.QuizCog.LateGuessRejected | cogs/quiz.py:664-790 | corrected: no guess scores after the reveal |
| QuizCog.QuizCog.RevealOver | cogs/quiz.py:712-719 | the end of the pause leaves the timer idle when the game is gone |
| QuizCog.QuizCog.OnMessage | cogs/quiz.py:721-790 | a message scores exactly when `GuessScores` holds; then the game is left `Accepted` (round answered, timer cancelled, one more point for the author, nothing else of the round changed); otherwise nothing changes |
| QuizCog.QuizCog.AcceptGuess | cogs/quiz.py:738-749 | the correct-guess branch leaves the game `Accepted`: the round answered, the timer cancelled, one point added |
| QuizCog.QuizCog.PerformSkip | cogs/quiz.py:821-827 | a skip of the game read before the acknowledgement cancels its timer and answers its round, changing nothing else, whether or not the game is still active |
| QuizCog.QuizCog.SkipCommand | cogs/quiz.py:792-819 | `/skip` needs a game, and gets through exactly for its host; nothing changes before the acknowledgement, and the game read then is the one skipped after it |
| QuizCog.SkipAfterStop | cogs/quiz.py:821-870 | a "Skip" press whose acknowledgement waits while `/stop` ends the game skips a game no longer active, and no next round starts |
| QuizCog.LeaderboardReplySpec | cogs/quiz.py:872-907 | "no game" and "no scores" exactly in those cases; otherwise the round, the round count and the best ten entries, highest first, with no higher score left out |
| QuizCog.QuizCog.Stop | cogs/quiz.py:909-933 | `/stop` replies "no game" without a game and succeeds exactly for its host; nothing changes before the acknowledgement |
| QuizCog.QuizCog.PrefixStop | cogs/quiz.py:1455-1470 | `q>stop` has the checks of `/stop`; on success `end_game` starts and the top three are taken, otherwise nothing changes |
| QuizCog.QuizCog.EndGameStart | cogs/quiz.py:935-954 | without a game only the setup mark is dropped; with one, the timer is cancelled and the top three taken, and the game stays active |
| QuizCog.QuizCog.EndGameAnnounce | cogs/quiz.py:956-994 | after the names are fetched, the player count is the number of scorers then, and a fresh "Play again" view holds the host and the settings |
| QuizCog.QuizCog.EndGameRelease | cogs/quiz.py:999-1002 | the `finally` frees the channel: no active game and no setup mark |
| QuizCog.QuizCog.GuessWhileEnding | cogs/quiz.py:935-1002 | a correct guess during `end_game`'s waits scores after the podium was taken, and the player count includes the new scorer |
| QuizCog.QuizCog.StopTwice | cogs/quiz.py:909-1002 | a second `/stop` during `end_game`'s waits ends the game again, and two distinct "Play again" views are made |
| QuizCog.SkipButton.constructor | cogs/quiz.py:28-33 | the view belongs to its cog, channel and host, and is unpressed |
| QuizCog.SkipButton.Press | cogs/quiz.py:36-60 | a press gets through exactly when a game exists, the presser is the host and the view is unused, in that check order; the view latches exactly then, and the game read before the acknowledgement is the one skipped after it |
| QuizCog.PlayAgainButton.constructor | cogs/quiz.py:71-77 | the view holds the finished game's settings, and is unclicked |
| QuizCog.PlayAgainButton.Press | cogs/quiz.py:80-100 | only the host, on a free channel and an unused view, gets through, in that check order; the view latches exactly then |
| QuizCog.PlayAgainButton.Replay | cogs/quiz.py:102-103 | the replay is refused exactly when the channel is busy again, and starts exactly when it is free, the catalog readable and the drawn pool non-empty; the started game belongs to the host, with the view's settings, the pool size as round count and that pool |
| QuizCog.ReplayPreempted | cogs/quiz.py:80-103 | a `/quiz` during a press's acknowledgement takes the channel, and the latched replay is then refused |
| QuizCog.ReplayDuringLoading | cogs/quiz.py:375-381 | a `/quiz` whose mark the `finally` of an earlier `end_game` drops during its "Loading" reply lets a "Play again" replay, here of a game without filters, file a game for the host |
| QuizCog.QuizMarkDropped | cogs/quiz.py:999-1002 | a `/quiz` that reached "Loading" is left with its channel neither active nor marked by an `end_game` `finally` that runs then |
| QuizCog.QuizOverwritesReplay | cogs/quiz.py:375-474 | that `/quiz` then resumes and files its own game over the replayed one |
| QuizCog.QuizDuringErrorReport | cogs/quiz.py:501-505 | a `/quiz` that fails to load keeps the channel marked while its message is sent, so a second `/quiz` is refused then, and a third after the message is accepted |
| QuizCog.ProgramAliasesResolve | utils/constants.py:6-57 | with the program's two tables, every listed alias, lowercased as the cog does, leads to its canonical category or version |

## Left out

- Discord I/O: messages, embeds, interactions, voice messages, the help and
  filter texts, `show_filters`, `help`, `report_translation`,
  `report_audio` and `prefix_help`. They produce no state the quiz uses.
- `bot.py`: it only loads the cog and starts the client.
- `send_voice_message` and the ffmpeg and PIL calls of `create_audio_snippet`
  and `crop_image_for_difficulty`: these are external processes. Their
  arithmetic is kept in `PlanSnippet` and `CropBox`.
- View timeouts (`on_timeout`): they only disable buttons.
- `q>skip` and `q>lb`: they behave as `/skip` and `/leaderboard` and are not
  modelled separately. `q>stop` is `PrefixStop`.
- Unicode lowercasing: `Lower` folds ASCII letters only, so non-ASCII
  upper-case letters stay as they are.
- `display_song` and every `print`: output only.
- Network downloads of covers and of `data.json`: external I/O. A failed
  cover download leaves the catalog unchanged.
- `download_audio`, `search_youtube` and `yt_dlp`: they are the parameters
  `download` and `search`.
- `load_progress` and `save_progress`: file I/O. The saved lists are the
  constructor's arguments.
- `KeyboardInterrupt` handling in `manual_audio_download.py`: I/O only.
- Exceptions in the cog's handlers: each modelled error path is a
  `StartOutcome`. A send that raises before setup ends leaves the channel in
  `creating_games` in the code.
- QuizCog.QuizCog.PerformSkip: the code has no answered check. A skip during
  the pause after a correct guess therefore starts a second round early. The
  model does not order these events.
- QuizCog.QuizCog.StartRound: when a round starts while an earlier timer task
  is still live, the code orphans that task. The model keeps one timer per
  game.
- QuizCog.QuizCog.RevealOver: it states only the case without a game. With a
  game, the next round begins, as in `StartRound`.
- ManualAudioDownload.ManualSession.Step: `failed` is never incremented by
  the code, so the model keeps it at 0.
- ManualAudioDownload.NameFragment: only its length bound is stated. The
  fragment itself is the fallback of the file search.
- Float rendering of levels is the parameter `levelText`.
- Matcher.CheckDifficulty: levels are `real`s and not doubles, so the edge
  of the 0.01 tolerance differs. In doubles `abs(13.69 - 13.7) < 0.01`
  holds; in the model 13.69 is 0.01 away from 13.7 and is refused. Only
  ASCII digits are read: `float()` also accepts other Unicode decimal
  digits, and the model does not.

## Findings

| source | as written | input that shows it | evidently intended | confidence | as-written member | corrected member |
|---|---|---|---|---|---|---|
| cogs/quiz.py:664-719 | `round_timeout` reveals the answer and pauses 3 s, but never sets `answered`, so `on_message` still accepts guesses | the time limit passes with no correct guess; during the 3 s pause a player types the title | the round closes when "Time's up" reveals the answer | not executed | QuizCog.QuizCog.RoundTimeoutAsWritten, QuizCog.QuizCog.LateGuessAsWritten | QuizCog.QuizCog.RoundTimeout, QuizCog.QuizCog.LateGuessRejected |
