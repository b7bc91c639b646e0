# Chess review app: move analysis pipeline, in Dafny

This project models the analysis core of a small chess review application. The application downloads a user's games from a chess server and indexes each game under a readable key. It then walks a chosen game ply by ply and asks an online engine to evaluate each position. The rows it builds are stored in a directory of analysed games, and a second request for the same game reads them back. It can also classify a move from the win probabilities before and after it. Finally, it turns a table of evaluations into the values drawn on the evaluation graph.

Modules:

- `MoveClassifier` (move_classifier.dfy) covers `ChessUtils._describe_move`. It computes the floored probability drop, assigns a label from the threshold bands, and applies the one-step hysteresis ("Great Move" after an error, "Miss" for a repeated error).
- `GameKeys` (game_keys.dfy) covers the key built in `load_all_games`: `<date> [<colour> - <result> vs <opponent>]`, with the source's symbol characters. It also models Python's substring test `in`.
- `ChessUtils` (chess_utils.dfy) holds the `ChessUtils` class:
  - `LoadAllGames` indexes a download by key.
  - `CreateGameDataframe` is the read-through cache. On a miss it calls `WalkGame`, which is the ply loop; `Ply` is one pass of its body.
  - `DeleteAllAnalysedGames` clears the cache.
  - Beside the class are the specification functions `Replay`, `Walk` and `AnalyseGame`, and the best-move pattern match `ExtractBestMove`.
  - The progress bar and the directory of analysed games are the classes `ProgressBar` and `AnalysedGames`.
- `Figures` (figures.dfy) covers the evaluation-to-display mapping and the fix for a final zero in `FigureUtils.get_evaluation_graph`.
- `Wrappers` (wrappers.dfy) holds `Option` and `Result`.

Modelling choices:

- Probabilities and engine evaluations are exact `real`s.
- Positions (FEN strings) and moves are opaque strings. Applying a move is the function parameter `apply`.
- The engine is the function parameter `oracle`. It returns `None` for an answer whose success flag is false.
- A Python exception that escapes an operation becomes `None` or a `Failure` value:
  - a missing PGN tag (KeyError): of the tags read after the date, only Termination can be missing in practice, because python-chess fills White and Black with "?";
  - an unknown game key (KeyError);
  - an answer without a `bestmove <square><square>` match (AttributeError on `.group`);
  - an IndexError in the graph code.
- On a cache miss the source appends nothing for a failed engine answer, and it stores the partial table anyway. The model does the same.
- The 21-character cache prefix is exactly the formatted date (`%Y.%m.%d - %H.%M.%S`). `CacheNameOfGameKey` shows that two games keyed at the same second share one cache file.

## Model

| member | source | states |
|---|---|---|
| MoveClassifier.Drop | chess_utils.py:109 | the drop is never negative; it equals before − after when that is positive and 0 otherwise; it is 0 exactly when the probability did not fall |
| MoveClassifier.BaseDescriptor | chess_utils.py:111-122 | the label is Best exactly when the drop is 0 or the played move is the best move; otherwise the drop lies in the label's half-open band (upper bound inclusive); never Great Move or Miss |
| MoveClassifier.Relabel | chess_utils.py:124-133 | after Mistake/Blunder/Miss, Best becomes Great Move and Mistake/Blunder become Miss; after any other previous text the label is unchanged; Excellent, Good and Inaccuracy are never changed |
| MoveClassifier.DescribeMove | chess_utils.py:101-135 | the returned drop is max(0, before − after); with no error before, a zero drop or the best move gives Best and otherwise a label in the drop's band; after an error these become Great Move, a drop above 0.1 on a non-best move becomes Miss, and a non-best drop in (0, 0.1] keeps its band label; Great Move and Miss only ever follow an error |
| MoveClassifier.NameMarksError | chess_utils.py:124-135 | the label text returned for one ply, passed on as the next ply's previous label, triggers the hysteresis exactly for Mistake, Blunder and Miss |
| MoveClassifier.BaseDescriptorMonotone | chess_utils.py:113-122 | for non-best moves a larger drop never earns a better label |
| MoveClassifier.BandsDisjoint | chess_utils.py:113-122 | no drop lies in two bands, so the band determines the label |
| MoveClassifier.FiveHundredthsIsGood | chess_utils.py:115-118 | a drop of exactly 0.05 is Good, and a drop just above it is an Inaccuracy |
| GameKeys.ContainsFrom | chess_utils.py:86-89 | the search from index i succeeds exactly when the pattern occurs at some index ≥ i |
| GameKeys.Contains | chess_utils.py:86-89 | Python's `pattern in text`: true exactly when the pattern occurs at some index |
| GameKeys.Side | chess_utils.py:78-83 | the user is White exactly when the White tag equals the username, and the opponent is then the Black tag; otherwise Black against the White tag; a missing tag that is read fails (the White/Black failures cannot occur in the source, see Left out) |
| GameKeys.Status | chess_utils.py:84-92 | Win exactly when the username occurs in Termination; Draw exactly when it does not and "drawn" does; Lose otherwise |
| GameKeys.StatusIsSubstringTest | chess_utils.py:86 | the win test is a substring test: whenever the username occurs inside the winner's name, a Termination text starting with that name is a Win (user "bob", "bobby won by resignation") |
| GameKeys.GameKey | chess_utils.py:78-93 | the key is date + " [" + colour symbol + " - " + result symbol + " vs " + opponent + "]"; it fails exactly when a tag it reads is missing |
| GameKeys.KeyPrefixIsDate | chess_utils.py:93 | the key is at least 12 characters longer than the date, and its first n characters, for n up to the date's length, are the date's |
| GameKeys.WhiteSymbolMarksWhite | chess_utils.py:78-93 | if neither the date nor the opponent contains the white symbol, the key contains it exactly when the user played White |
| ChessUtils.CacheName | chess_utils.py:155 | the file name is the first 21 characters of the key (the whole key if shorter) followed by ".csv" |
| ChessUtils.CacheNameOfGameKey | chess_utils.py:155 | for a 21-character date the cache name of any key of that date is the date + ".csv", independent of colour, result and opponent |
| ChessUtils.SearchFrom | chess_utils.py:177-179 | a found index is ≥ i and `bestmove\s[a-h][1-8][a-h][1-8]` matches there |
| ChessUtils.SearchFromLeftmost | chess_utils.py:177-179 | no index from i up to the found one matches, and when nothing is found no index ≥ i matches, so the search returns the leftmost match |
| ChessUtils.ExtractBestMove | chess_utils.py:177-179 | a best move that is read has the shape `[a-h][1-8][a-h][1-8]` |
| ChessUtils.ExtractBestMoveLeftmost | chess_utils.py:177-179 | some value exactly when the pattern matches somewhere; the value is the 4-character coordinate group of the leftmost match |
| ChessUtils.ExtractFromEngineAnswer | chess_utils.py:177-179 | an answer "bestmove " + m + anything yields m for every coordinate move m |
| ChessUtils.Replay | chess_utils.py:165-199 | the position list starts at the initial position and has one more entry than there are moves |
| ChessUtils.ReplayEntries | chess_utils.py:196-199 | entry k+1 of the position list is move k applied to entry k |
| ChessUtils.AnalysePly | chess_utils.py:175-194 | a ply fails only with NoBestMove naming that ply |
| ChessUtils.AnalysePlyOutcome | chess_utils.py:175-194 | a failed answer adds nothing; an answer fails exactly when its best move cannot be read; otherwise one row with player i % 2, the ply's move, the engine's evaluation, mate and continuation, and as best move exactly the coordinate group `ExtractBestMove` reads from the answer |
| ChessUtils.Walk | chess_utils.py:165-201 | a walk of n plies yields at most n rows, and fails only with NoBestMove at a ply below n |
| ChessUtils.AnalyseGame | chess_utils.py:165-201 | the analysis of a game has at most one row per move, and fails only with NoBestMove at a ply of the game |
| ChessUtils.WalkStep | chess_utils.py:175-201 | one more ply of a walk that has succeeded so far fails where that ply fails, adds nothing for a failed answer and appends the ply's row otherwise |
| ChessUtils.AnsweredPlies | chess_utils.py:175-176 | lists, in strictly increasing order, exactly the plies below n whose engine answer succeeded |
| ChessUtils.WalkRows | chess_utils.py:169-201 | a completed walk has exactly one row per successful answer, at most one per ply, in ply order; the row of ply i has player i % 2, the move played at ply i and the engine's fields and best move for the position before ply i |
| ChessUtils.WalkFailure | chess_utils.py:175-179 | the walk fails exactly when some successful answer has no best-move match, and it reports the first such ply |
| ChessUtils.WalkWithoutAnswers | chess_utils.py:175-201 | when no engine answer succeeds, the walk succeeds with no rows |
| ChessUtils.WalkFailureSticks | chess_utils.py:175-179 | once a walk fails, walking further plies gives the same failure |
| ChessUtils.ProgressReports | chess_utils.py:170-172 | one in-progress report per ply reached |
| ChessUtils.ProgressReportAt | chess_utils.py:170-172 | the report before ply j is (j / total plies, "Analysis in progress. Please wait.") |
| ChessUtils.ProgressFractionsInRange | chess_utils.py:170-172 | every in-progress fraction lies in [0, 1) |
| ChessUtils.ProgressBar.Progress | chess_utils.py:170-172 | a report needs a value in [0, 1] and is appended to the reports |
| ChessUtils.IndexGames | chess_utils.py:63-95 | a successful index has at most one key per game of the response |
| ChessUtils.IndexGamesFails | chess_utils.py:63-95 | indexing fails exactly when some game of the response lacks the White, Black or Termination tag its key reads (the date is taken as given) |
| ChessUtils.IndexGamesKeys | chess_utils.py:63-95 | the key of every game of the response is present |
| ChessUtils.IndexGamesContents | chess_utils.py:63-97 | every key comes from a game, and a key shared by several games holds the first of them in the response (the loop runs over the reversed list) |
| ChessUtils.ChessUtils.constructor | chess_utils.py:26-29 | stores the username, year and month; no games are loaded yet |
| ChessUtils.ChessUtils.LoadAllGames | chess_utils.py:52-99 | a failed download returns nothing and changes nothing; otherwise the result is the index of the response, and on success it becomes the object's games |
| ChessUtils.ChessUtils.CreateGameDataframe | chess_utils.py:151-206 | a hit needs a stored table with rows, since a table without rows is written without a header and does not read back; on a hit: the stored rows unchanged, nothing written, one report (1.0, "Analysis loaded."); on a miss, including a stored table without rows: the analysis of the game, stored under the cache name, with one report per ply and then (1.0, "Analysis completed and saved."); an unknown key or an unreadable best move fails and writes nothing |
| ChessUtils.ChessUtils.Ply | chess_utils.py:170-194 | one pass of the loop body: the report (i / total plies, in progress), and the ply's outcome for the engine's answer on the given position |
| ChessUtils.ChessUtils.WalkGame | chess_utils.py:163-204 | the loop computes the walk over the replayed positions; it emits one in-progress report per ply reached, and on failure it stops at the failing ply |
| ChessUtils.ChessUtils.DeleteAllAnalysedGames | chess_utils.py:208-213 | every ".csv" entry is removed and every other entry kept, so no cache name of any key remains |
| ChessUtils.ChessUtils.AnalyseTwice | chess_utils.py:155-204 | a second analysis of the same key returns the same result; after a first run with rows its last report is "Analysis loaded.", after a successful first run without rows the game is analysed again and the last report is "Analysis completed and saved." |
| Figures.DisplayValue | figures.py:15-23 | "cp" values are clipped to [−400, 400] and kept when inside; "mate" values become 450 when ≥ 0 and −450 otherwise; other kinds pass through |
| Figures.DisplayMonotone | figures.py:15-23 | for one kind of evaluation the display preserves the order of values |
| Figures.EvaluationToDisplay | figures.py:15-26 | same length as the table; entry i is the display of row i except the last; a final raw 0 makes the last entry equal to the second-to-last; an empty table, or one row with value 0, fails as the source's IndexError |

## Left out

- Downloading games and calling the engine over HTTP (chess_utils.py:31-50, 137-149) are network I/O. The engine is the parameter `oracle`. An exception from the transport is not modelled; only answers with a false success flag are.
- PGN parsing, `board.push` and FEN generation belong to the python-chess library. Positions are opaque strings and `apply` stands for moving. The number of plies is taken as the number of main-line moves.
- Parsing the UTC date and time and shifting it by eight hours (chess_utils.py:68-76) is library date arithmetic. `LoadAllGames` takes the formatted date of each game as given. A missing UTCDate or UTCTime tag (neither is among python-chess's default tags), or a date that `strptime` rejects, also raises in the source; the model cannot fail there.
- CSV writing and reading, `os.remove` and directory globbing are file I/O. The directory is a map from file name to rows. A stored table with rows reads back unchanged: pandas' type conversions on reading a CSV are not modelled. A table without rows (a game without moves, or one where every engine answer failed) is the column-less DataFrame, written as a file with no header line; `pandas.read_csv` rejects it and the `except` branch analyses the game again. `Readable` models this, and only the rejection is modelled, not pandas' reader.
- The diagnostics written for a failed engine answer (chess_utils.py:191-193), the error and success messages (chess_utils.py:57-60, 213) and the whole of app.py are user-interface output.
- The plotly figure (figures.py:28-67) and the board images (figures.py:69-85) are rendering.
- `DescribeMove` uses exact real arithmetic. IEEE double rounding is not modelled, so a difference such as 0.07 − 0.02 is exactly 0.05 here.
- `ChessUtils.ChessUtils.constructor`: the source does not set `all_games` in `__init__`. The model starts with an empty map, so an analysis request before loading fails as an unknown key, where the source raises AttributeError.
- The graph's evaluation values are integers here. The graph's columns `evaluation_type` and `evaluation_value` are not produced by `create_game_dataframe`, which writes `eval` and `mate`, and the graph is not called from app.py.
- python-chess gives every parsed game the Seven Tag Roster, with "?" for a missing White or Black tag, so of the tags read after the date only a missing Termination tag raises in the source. `GameKeys.Side` also fails for a missing White or Black tag; those two branches stand for no behaviour of the source.
- The order of `all_games` is left out. The source inserts keys while walking the reversed response, so the dictionary lists the newest game first (the server lists games oldest first), and a repeated key keeps the slot of its first insertion. app.py's game selector lists keys in that order. The model's map records which game each key holds, not the order of the keys.
- `ChessUtils.ChessUtils.AnalyseTwice`: the engine is the pure function `oracle`, so the same position always gets the same answer. `second == first` after a failed first run, or after a first run without rows (which the second run analyses again), rests on that. The real engine service could answer differently on a second request.
