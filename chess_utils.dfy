/**
 * The analysis pipeline of `ChessUtils` in chess_utils.py: indexing downloaded games
 * by key, walking a game ply by ply against an evaluation oracle with a read-through
 * cache of analysed games, and clearing that cache.
 *
 * Positions are opaque FEN strings; the chess library's move application is the
 * parameter `apply`, the online engine is the parameter `oracle` (`None` is an
 * answer whose "success" flag is false). The `analysed_games` directory is the
 * class `AnalysedGames`, a map from file name to stored rows, and the progress bar
 * is the class `ProgressBar`, which records every report it is given.
 */
module ChessUtils {
  import opened Wrappers
  import opened GameKeys

  type Position = string
  type Move = string

  /** A parsed game: its PGN tags, its initial position and its main-line moves. */
  datatype Game = Game(headers: map<string, string>, start: Position, moves: seq<Move>)

  /** One successful answer of the engine. */
  datatype Evaluation = Evaluation(evaluation: Option<real>, mate: Option<int>,
                                   bestmove: string, continuation: string)

  /** One row of the analysis table. */
  datatype Row = Row(player: nat, move: Move, eval: Option<real>, mate: Option<int>,
                     bestMove: string, continuation: string)

  /** The exceptions that escape `create_game_dataframe`: a key that was never loaded,
      and an engine answer whose best-move text does not match the pattern. */
  datatype Failure = UnknownGame(key: string) | NoBestMove(ply: nat)

  const InProgress: string := "Analysis in progress. Please wait."
  const Loaded: string := "Analysis loaded."
  const Saved: string := "Analysis completed and saved."

  /** The number of characters of the game key used as the cache file name. */
  const KeyPrefixLength: nat := 21

  // ---------------------------------------------------------------------------
  // Cache file names

  predicate IsCsv(name: string) {
    |name| >= 4 && name[|name| - 4..] == ".csv"
  }

  /** `f"{game_key[:21]}.csv"`; a shorter key is used whole. */
  function CacheName(gameKey: string): (name: string)
    ensures IsCsv(name)
    ensures |gameKey| >= KeyPrefixLength ==> name == gameKey[..KeyPrefixLength] + ".csv"
    ensures |gameKey| < KeyPrefixLength ==> name == gameKey + ".csv"
  {
    var stem := if |gameKey| <= KeyPrefixLength then gameKey else gameKey[..KeyPrefixLength];
    stem + ".csv"
  }

  /** Keys built from a 21-character date share their cache file with every other key
      of the same date, whatever the colour, result and opponent. */
  lemma CacheNameOfGameKey(username: string, date: string, headers: map<string, string>)
    requires |date| == KeyPrefixLength
    requires GameKey(username, date, headers).Some?
    ensures CacheName(GameKey(username, date, headers).value) == date + ".csv"
  {
  }

  // ---------------------------------------------------------------------------
  // Best-move extraction: `re.search(r"bestmove\s([a-h][1-8][a-h][1-8])", text).group(1)`

  predicate IsFile(c: char) { 'a' <= c <= 'h' }

  predicate IsRank(c: char) { '1' <= c <= '8' }

  /** Python's `\s` on str patterns: the characters for which `str.isspace` holds. */
  predicate IsSpace(c: char) {
    || '\t' <= c <= '\r'
    || '\U{1C}' <= c <= ' '
    || c == '\U{85}' || c == '\U{A0}' || c == '\U{1680}'
    || '\U{2000}' <= c <= '\U{200A}'
    || c == '\U{2028}' || c == '\U{2029}' || c == '\U{202F}' || c == '\U{205F}' || c == '\U{3000}'
  }

  /** Four characters of the shape `[a-h][1-8][a-h][1-8]`. */
  predicate IsCoordinateMove(m: string) {
    |m| == 4 && IsFile(m[0]) && IsRank(m[1]) && IsFile(m[2]) && IsRank(m[3])
  }

  /** The pattern matches at index `i` of `text`. */
  predicate MatchAt(text: string, i: nat) {
    && i + 13 <= |text|
    && text[i..i + 8] == "bestmove"
    && IsSpace(text[i + 8])
    && IsCoordinateMove(text[i + 9..i + 13])
  }

  /** The leftmost match at index `i` or later: a found index does match. */
  function SearchFrom(text: string, i: nat): (r: Option<nat>)
    requires i <= |text|
    ensures r.Some? ==> i <= r.value && MatchAt(text, r.value)
    decreases |text| - i
  {
    if i + 13 > |text| then None
    else if MatchAt(text, i) then Some(i)
    else SearchFrom(text, i + 1)
  }

  /** No index between `i` and the found one matches, and when nothing is found no
      index from `i` on matches. */
  lemma {:induction false} SearchFromLeftmost(text: string, i: nat)
    requires i <= |text|
    ensures SearchFrom(text, i).Some? ==> forall j: nat :: i <= j < SearchFrom(text, i).value ==> !MatchAt(text, j)
    ensures SearchFrom(text, i).None? ==> forall j: nat :: i <= j ==> !MatchAt(text, j)
    decreases |text| - i
  {
    if i + 13 <= |text| && !MatchAt(text, i) {
      SearchFromLeftmost(text, i + 1);
    }
  }

  /** The captured coordinate move of the leftmost match, or `None` where the source's
      `.group(1)` on a failed search raises. */
  function ExtractBestMove(text: string): (m: Option<string>)
    ensures m.Some? ==> IsCoordinateMove(m.value)
  {
    match SearchFrom(text, 0)
    case None => None
    case Some(i) => Some(text[i + 9..i + 13])
  }

  /** A best move is read exactly when the pattern matches somewhere, and it is the
      captured group of the leftmost match. */
  lemma ExtractBestMoveLeftmost(text: string)
    ensures ExtractBestMove(text).Some? <==> exists i: nat :: MatchAt(text, i)
    ensures ExtractBestMove(text).Some? ==>
              exists i: nat :: && MatchAt(text, i) && ExtractBestMove(text).value == text[i + 9..i + 13]
                               && forall j: nat :: j < i ==> !MatchAt(text, j)
  {
    SearchFromLeftmost(text, 0);
  }

  /** The engine's usual answer `bestmove <move> ...` yields that move. */
  lemma ExtractFromEngineAnswer(move: string, rest: string)
    requires IsCoordinateMove(move)
    ensures ExtractBestMove("bestmove " + move + rest) == Some(move)
  {
  }

  // ---------------------------------------------------------------------------
  // The ply walk, as specification functions

  /** The positions `fen_list` holds after the whole game: the initial position and
      then the position after each move, in order. */
  function Replay(start: Position, moves: seq<Move>, apply: (Position, Move) -> Position): (fens: seq<Position>)
    ensures |fens| == |moves| + 1 && fens[0] == start
  {
    if moves == [] then [start]
    else
      var prev := Replay(start, moves[..|moves| - 1], apply);
      prev + [apply(prev[|prev| - 1], moves[|moves| - 1])]
  }

  /** Each replayed position is the previous one with the next move applied. */
  lemma {:induction false} ReplayEntries(start: Position, moves: seq<Move>, apply: (Position, Move) -> Position)
    ensures forall k :: 0 <= k < |moves| ==>
              Replay(start, moves, apply)[k + 1] == apply(Replay(start, moves, apply)[k], moves[k])
  {
    if moves != [] {
      var n := |moves|;
      var prev := Replay(start, moves[..n - 1], apply);
      ReplayEntries(start, moves[..n - 1], apply);
      var fens := Replay(start, moves, apply);
      assert fens == prev + [apply(prev[n - 1], moves[n - 1])];
      forall k | 0 <= k < n
        ensures fens[k + 1] == apply(fens[k], moves[k])
      {
        assert fens[k] == prev[k];
        if k < n - 1 {
          assert prev[k + 1] == apply(prev[k], moves[..n - 1][k]);
          assert fens[k + 1] == prev[k + 1] && moves[..n - 1][k] == moves[k];
        } else {
          assert fens[k + 1] == apply(prev[n - 1], moves[n - 1]);
        }
      }
    }
  }

  /** The position after ply i, in the form the ply loop steps with. */
  lemma ReplayAt(start: Position, moves: seq<Move>, apply: (Position, Move) -> Position, i: nat)
    requires i < |moves|
    ensures Replay(start, moves, apply)[i + 1] == apply(Replay(start, moves, apply)[i], moves[i])
  {
    ReplayEntries(start, moves, apply);
  }

  /** What ply `i` contributes, given the engine's answer for the position before it:
      nothing for a failed answer, one row for a successful one. */
  function AnalysePly(i: nat, move: Move, answer: Option<Evaluation>): (r: Result<Option<Row>, Failure>)
    ensures r.Failure? ==> r.error == NoBestMove(i)
  {
    match answer
    case None => Success(None)
    case Some(e) =>
      match ExtractBestMove(e.bestmove)
      case None => Failure(NoBestMove(i))
      case Some(best) => Success(Some(Row(i % 2, move, e.evaluation, e.mate, best, e.continuation)))
  }

  /** A failed answer contributes nothing; an answer whose best move cannot be read fails
      at this ply; any other answer gives one row carrying the ply's player and move, the
      engine's fields and the coordinate move read from its best-move text. */
  lemma AnalysePlyOutcome(i: nat, move: Move, answer: Option<Evaluation>)
    ensures var r := AnalysePly(i, move, answer);
            && (r == Success(None) <==> answer.None?)
            && (r.Failure? <==> answer.Some? && ExtractBestMove(answer.value.bestmove).None?)
            && (r.Success? && r.value.Some? ==>
                  && r.value.value.player == i % 2 && r.value.value.move == move
                  && r.value.value.eval == answer.value.evaluation && r.value.value.mate == answer.value.mate
                  && Some(r.value.value.bestMove) == ExtractBestMove(answer.value.bestmove)
                  && r.value.value.continuation == answer.value.continuation)
  {
  }

  /** The rows of the first `n` plies, each evaluated on the position before it. */
  function Walk(fens: seq<Position>, moves: seq<Move>, oracle: Position -> Option<Evaluation>, n: nat): (r: Result<seq<Row>, Failure>)
    requires n <= |moves| < |fens|
    ensures r.Success? ==> |r.value| <= n
    ensures r.Failure? ==> r.error.NoBestMove? && r.error.ply < n
  {
    if n == 0 then Success([])
    else
      match Walk(fens, moves, oracle, n - 1)
      case Failure(f) => Failure(f)
      case Success(rows) =>
        match AnalysePly(n - 1, moves[n - 1], oracle(fens[n - 1]))
        case Failure(f) => Failure(f)
        case Success(None) => Success(rows)
        case Success(Some(row)) => Success(rows + [row])
  }

  /** The analysis of a whole game, computed without the cache. */
  function AnalyseGame(game: Game, oracle: Position -> Option<Evaluation>,
                       apply: (Position, Move) -> Position): (r: Result<seq<Row>, Failure>)
    ensures r.Success? ==> |r.value| <= |game.moves|
    ensures r.Failure? ==> r.error.NoBestMove? && r.error.ply < |game.moves|
  {
    Walk(Replay(game.start, game.moves, apply), game.moves, oracle, |game.moves|)
  }

  /** The engine answered successfully for ply `i`. */
  predicate Answered(fens: seq<Position>, oracle: Position -> Option<Evaluation>, i: nat)
    requires i < |fens|
  {
    oracle(fens[i]).Some?
  }

  /** The engine answered for ply `i` but its best-move text does not match. */
  predicate Unreadable(fens: seq<Position>, oracle: Position -> Option<Evaluation>, i: nat)
    requires i < |fens|
  {
    oracle(fens[i]).Some? && ExtractBestMove(oracle(fens[i]).value.bestmove).None?
  }

  /** The plies among the first `n` whose evaluation succeeded, in increasing order. */
  function AnsweredPlies(fens: seq<Position>, oracle: Position -> Option<Evaluation>, n: nat): (plies: seq<nat>)
    requires n <= |fens|
    ensures forall j :: 0 <= j < |plies| ==> plies[j] < n && Answered(fens, oracle, plies[j])
    ensures forall j, k :: 0 <= j < k < |plies| ==> plies[j] < plies[k]
    ensures forall i :: 0 <= i < n && Answered(fens, oracle, i) ==> i in plies
  {
    if n == 0 then []
    else
      var before := AnsweredPlies(fens, oracle, n - 1);
      if Answered(fens, oracle, n - 1) then before + [n - 1] else before
  }

  /** A completed walk has one row per answered ply, in ply order: the row of ply `i`
      names the player `i % 2`, the move played at ply `i` and the engine's best move
      for the position before it. */
  lemma {:induction false} WalkRows(fens: seq<Position>, moves: seq<Move>, oracle: Position -> Option<Evaluation>, n: nat)
    requires n <= |moves| < |fens|
    requires Walk(fens, moves, oracle, n).Success?
    ensures var rows := Walk(fens, moves, oracle, n).value;
            var plies := AnsweredPlies(fens, oracle, n);
            && |rows| == |plies| <= n
            && forall j :: 0 <= j < |rows| ==>
                 && rows[j].player == plies[j] % 2
                 && rows[j].move == moves[plies[j]]
                 && rows[j].eval == oracle(fens[plies[j]]).value.evaluation
                 && rows[j].mate == oracle(fens[plies[j]]).value.mate
                 && Some(rows[j].bestMove) == ExtractBestMove(oracle(fens[plies[j]]).value.bestmove)
                 && rows[j].continuation == oracle(fens[plies[j]]).value.continuation
  {
    if n > 0 {
      WalkRows(fens, moves, oracle, n - 1);
      var rows := Walk(fens, moves, oracle, n - 1).value;
      var plies := AnsweredPlies(fens, oracle, n - 1);
      if Answered(fens, oracle, n - 1) {
        var e := oracle(fens[n - 1]).value;
        var row := Row((n - 1) % 2, moves[n - 1], e.evaluation, e.mate,
                       ExtractBestMove(e.bestmove).value, e.continuation);
        assert Walk(fens, moves, oracle, n).value == rows + [row];
        assert AnsweredPlies(fens, oracle, n) == plies + [n - 1];
      } else {
        assert Walk(fens, moves, oracle, n).value == rows;
        assert AnsweredPlies(fens, oracle, n) == plies;
      }
    }
  }

  /** A walk fails exactly when some answered ply has an unreadable best move, and it
      reports the first such ply. */
  lemma {:induction false} WalkFailure(fens: seq<Position>, moves: seq<Move>, oracle: Position -> Option<Evaluation>, n: nat)
    requires n <= |moves| < |fens|
    ensures Walk(fens, moves, oracle, n).Failure? <==> exists i :: 0 <= i < n && Unreadable(fens, oracle, i)
    ensures Walk(fens, moves, oracle, n).Failure? ==> Walk(fens, moves, oracle, n).error.NoBestMove?
    ensures Walk(fens, moves, oracle, n).Failure? && Walk(fens, moves, oracle, n).error.NoBestMove? ==>
              var p := Walk(fens, moves, oracle, n).error.ply;
              && p < n && Unreadable(fens, oracle, p)
              && forall i :: 0 <= i < p ==> !Unreadable(fens, oracle, i)
  {
    if n > 0 {
      WalkFailure(fens, moves, oracle, n - 1);
      var ply := AnalysePly(n - 1, moves[n - 1], oracle(fens[n - 1]));
      assert ply.Failure? <==> Unreadable(fens, oracle, n - 1);
      assert ply.Failure? ==> ply.error == NoBestMove(n - 1);
      if Walk(fens, moves, oracle, n - 1).Success? {
        assert forall i :: 0 <= i < n - 1 ==> !Unreadable(fens, oracle, i);
      }
    }
  }

  /** One more ply of a walk that has succeeded so far: the walk fails where the ply
      fails, and otherwise appends the ply's row, if any. */
  lemma WalkStep(fens: seq<Position>, moves: seq<Move>, oracle: Position -> Option<Evaluation>, i: nat, rows: seq<Row>)
    requires i < |moves| < |fens|
    requires Walk(fens, moves, oracle, i) == Success(rows)
    ensures var step := AnalysePly(i, moves[i], oracle(fens[i]));
            && (step.Failure? ==> Walk(fens, moves, oracle, i + 1) == Failure(step.error))
            && (step.Success? ==>
                  Walk(fens, moves, oracle, i + 1)
                    == Success(rows + if step.value.Some? then [step.value.value] else []))
  {
    var step := AnalysePly(i, moves[i], oracle(fens[i]));
    if step.Success? && step.value.None? {
      assert rows + [] == rows;
    }
  }

  /** With no successful engine answer the walk succeeds without rows. */
  lemma {:induction false} WalkWithoutAnswers(fens: seq<Position>, moves: seq<Move>, oracle: Position -> Option<Evaluation>, n: nat)
    requires n <= |moves| < |fens|
    requires forall k :: 0 <= k < n ==> oracle(fens[k]).None?
    ensures Walk(fens, moves, oracle, n) == Success([])
  {
    if n > 0 {
      WalkWithoutAnswers(fens, moves, oracle, n - 1);
    }
  }

  /** Once a walk fails, walking further plies reports the same failure. */
  lemma {:induction false} WalkFailureSticks(fens: seq<Position>, moves: seq<Move>, oracle: Position -> Option<Evaluation>, k: nat, n: nat)
    requires k <= n <= |moves| < |fens|
    requires Walk(fens, moves, oracle, k).Failure?
    ensures Walk(fens, moves, oracle, n) == Walk(fens, moves, oracle, k)
    decreases n - k
  {
    if k < n {
      WalkFailureSticks(fens, moves, oracle, k + 1, n);
    }
  }

  // ---------------------------------------------------------------------------
  // Progress reports

  /** The in-progress reports of plies `0 .. k-1` of a game of `total` plies. */
  function ProgressReports(k: nat, total: nat): (r: seq<(real, string)>)
    requires k <= total
    ensures |r| == k
  {
    if k == 0 then []
    else ProgressReports(k - 1, total) + [((k - 1) as real / total as real, InProgress)]
  }

  /** The report before ply j is (j / total, "Analysis in progress. Please wait."). */
  lemma {:induction false} ProgressReportAt(k: nat, total: nat)
    requires k <= total
    ensures forall j :: 0 <= j < k ==> ProgressReports(k, total)[j] == (j as real / total as real, InProgress)
  {
    if k > 0 {
      ProgressReportAt(k - 1, total);
    }
  }

  lemma FractionBelowOne(i: nat, total: nat)
    requires i < total
    ensures 0.0 <= i as real / total as real < 1.0
  {
  }

  /** Every in-progress fraction lies in [0, 1): the ply index never reaches the
      number of plies. */
  lemma ProgressFractionsInRange(k: nat, total: nat)
    requires k <= total
    ensures forall j :: 0 <= j < k ==> 0.0 <= ProgressReports(k, total)[j].0 < 1.0
  {
    ProgressReportAt(k, total);
  }

  /** Streamlit's progress bar, recording every report it is given. */
  class ProgressBar {
    var reports: seq<(real, string)>

    constructor ()
      ensures reports == []
    {
      reports := [];
    }

    /** Streamlit rejects values outside [0, 1]. */
    method Progress(value: real, text: string)
      requires 0.0 <= value <= 1.0
      modifies this
      ensures reports == old(reports) + [(value, text)]
    {
      reports := reports + [(value, text)];
    }
  }

  /** A stored table reads back as a cache hit only when it has rows: a table without
      rows is written as a file without a header line, which `pandas.read_csv` rejects,
      so the next request analyses the game again. */
  predicate Readable(files: map<string, seq<Row>>, name: string) {
    name in files && files[name] != []
  }

  /** The `analysed_games` directory: file name to the rows stored in it. */
  class AnalysedGames {
    var files: map<string, seq<Row>>

    constructor (files: map<string, seq<Row>>)
      ensures this.files == files
    {
      this.files := files;
    }
  }

  // ---------------------------------------------------------------------------
  // Indexing downloaded games by key

  /** The games of a download, keyed as `load_all_games` keys them. The response is
      walked from its last game to its first, so of two games with the same key the
      earlier one in the response is kept. Any missing tag raises, here `None`. */
  function IndexGames(username: string, entries: seq<(string, Game)>): (r: Option<map<string, Game>>)
    ensures r.Some? ==> |r.value| <= |entries|
  {
    if entries == [] then Some(map[])
    else
      match IndexGames(username, entries[1..])
      case None => None
      case Some(later) =>
        match GameKey(username, entries[0].0, entries[0].1.headers)
        case None => None
        case Some(key) => Some(later[key := entries[0].1])
  }

  /** The key of response entry `j`. */
  function EntryKey(username: string, entries: seq<(string, Game)>, j: nat): Option<string>
    requires j < |entries|
  {
    GameKey(username, entries[j].0, entries[j].1.headers)
  }

  /** Indexing fails exactly when some game of the response lacks a tag its key needs. */
  lemma {:induction false} IndexGamesFails(username: string, entries: seq<(string, Game)>)
    ensures IndexGames(username, entries).None? <==>
              exists j :: 0 <= j < |entries| && EntryKey(username, entries, j).None?
  {
    if entries != [] {
      var rest := entries[1..];
      IndexGamesFails(username, rest);
      if IndexGames(username, rest).None? {
        var j :| 0 <= j < |rest| && EntryKey(username, rest, j).None?;
        assert EntryKey(username, entries, j + 1) == EntryKey(username, rest, j);
      } else if IndexGames(username, entries).None? {
        assert EntryKey(username, entries, 0).None?;
      } else {
        forall j | 0 <= j < |entries|
          ensures EntryKey(username, entries, j).Some?
        {
          if j > 0 {
            assert EntryKey(username, entries, j) == EntryKey(username, rest, j - 1);
          }
        }
      }
    }
  }

  /** A successful index holds the key of every game of the response. */
  lemma {:induction false} IndexGamesKeys(username: string, entries: seq<(string, Game)>)
    requires IndexGames(username, entries).Some?
    ensures forall j :: 0 <= j < |entries| ==>
              && EntryKey(username, entries, j).Some?
              && EntryKey(username, entries, j).value in IndexGames(username, entries).value
  {
    if entries != [] {
      var rest := entries[1..];
      IndexGamesKeys(username, rest);
      var m := IndexGames(username, entries).value;
      forall j | 0 <= j < |entries|
        ensures EntryKey(username, entries, j).Some? && EntryKey(username, entries, j).value in m
      {
        if j > 0 {
          assert EntryKey(username, entries, j) == EntryKey(username, rest, j - 1);
        }
      }
    }
  }

  /** Every key of a successful index comes from a game of the response, and it holds
      the first game of the response that has that key. */
  lemma {:induction false} IndexGamesContents(username: string, entries: seq<(string, Game)>)
    requires IndexGames(username, entries).Some?
    ensures var m := IndexGames(username, entries).value;
            forall key :: key in m ==>
              exists j :: 0 <= j < |entries| && EntryKey(username, entries, j) == Some(key)
                          && m[key] == entries[j].1
                          && forall i :: 0 <= i < j ==> EntryKey(username, entries, i) != Some(key)
  {
    if entries != [] {
      var rest := entries[1..];
      IndexGamesContents(username, rest);
      var m := IndexGames(username, entries).value;
      var later := IndexGames(username, rest).value;
      var k0 := EntryKey(username, entries, 0).value;
      assert m == later[k0 := entries[0].1];
      forall key | key in m
        ensures exists j :: 0 <= j < |entries| && EntryKey(username, entries, j) == Some(key)
                            && m[key] == entries[j].1
                            && forall i :: 0 <= i < j ==> EntryKey(username, entries, i) != Some(key)
      {
        if key == k0 {
          assert EntryKey(username, entries, 0) == Some(key) && m[key] == entries[0].1;
        } else {
          var j :| 0 <= j < |rest| && EntryKey(username, rest, j) == Some(key)
                   && later[key] == rest[j].1
                   && forall i :: 0 <= i < j ==> EntryKey(username, rest, i) != Some(key);
          assert EntryKey(username, entries, j + 1) == Some(key) && m[key] == entries[j + 1].1;
          forall i | 0 <= i < j + 1
            ensures EntryKey(username, entries, i) != Some(key)
          {
            if i > 0 {
              assert EntryKey(username, entries, i) == EntryKey(username, rest, i - 1);
            }
          }
        }
      }
    }
  }

  /** A failure anywhere in a suffix of the response makes the whole indexing fail. */
  lemma {:induction false} IndexGamesFailureSpreads(username: string, entries: seq<(string, Game)>, i: nat)
    requires i <= |entries|
    requires IndexGames(username, entries[i..]).None?
    ensures IndexGames(username, entries).None?
    decreases i
  {
    if i > 0 {
      assert entries[i - 1..][1..] == entries[i..];
      IndexGamesFailureSpreads(username, entries, i - 1);
    }
  }

  // ---------------------------------------------------------------------------
  // The ChessUtils object

  class ChessUtils {
    const username: string
    const year: int
    const month: int
    /** `self.all_games`, set by `load_all_games`. */
    var allGames: map<string, Game>

    constructor (username: string, year: int, month: int)
      ensures this.username == username && this.year == year && this.month == month
      ensures allGames == map[]
    {
      this.username := username;
      this.year := year;
      this.month := month;
      allGames := map[];
    }

    /** `load_all_games`. `response` is the downloaded list of games with their
        formatted dates, `None` when the download failed. */
    method LoadAllGames(response: Option<seq<(string, Game)>>) returns (r: Option<map<string, Game>>)
      modifies this
      ensures response.None? ==> r.None? && allGames == old(allGames)
      ensures response.Some? ==> r == IndexGames(username, response.value)
      ensures r.Some? ==> allGames == r.value
      ensures r.None? ==> allGames == old(allGames)
    {
      if response.None? {
        return None;
      }
      var entries := response.value;
      var games: map<string, Game> := map[];
      var i := |entries|;
      while i > 0
        invariant 0 <= i <= |entries|
        invariant IndexGames(username, entries[i..]) == Some(games)
      {
        i := i - 1;
        assert entries[i..][1..] == entries[i + 1..];
        var key := GameKey(username, entries[i].0, entries[i].1.headers);
        if key.None? {
          IndexGamesFailureSpreads(username, entries, i);
          return None;
        }
        games := games[key.value := entries[i].1];
      }
      assert entries[0..] == entries;
      allGames := games;
      r := Some(games);
    }

    /** `create_game_dataframe`. A stored analysis under the key's cache name is
        returned as it is, with no engine call; otherwise the game is walked ply by ply
        and the rows are stored under that name before being returned. */
    method CreateGameDataframe(gameKey: string, bar: ProgressBar, store: AnalysedGames,
                               oracle: Position -> Option<Evaluation>,
                               apply: (Position, Move) -> Position)
      returns (data: Result<seq<Row>, Failure>)
      modifies bar, store
      ensures Readable(old(store.files), CacheName(gameKey)) ==>
                && data == Success(old(store.files)[CacheName(gameKey)])
                && store.files == old(store.files)
                && bar.reports == old(bar.reports) + [(1.0, Loaded)]
      ensures !Readable(old(store.files), CacheName(gameKey)) && gameKey !in allGames ==>
                && data == Failure(UnknownGame(gameKey))
                && store.files == old(store.files)
                && bar.reports == old(bar.reports)
      ensures !Readable(old(store.files), CacheName(gameKey)) && gameKey in allGames ==>
                var total := |allGames[gameKey].moves|;
                && data == AnalyseGame(allGames[gameKey], oracle, apply)
                && (data.Success? ==>
                      && store.files == old(store.files)[CacheName(gameKey) := data.value]
                      && bar.reports == old(bar.reports) + ProgressReports(total, total) + [(1.0, Saved)])
                && (data.Failure? ==>
                      && data.error.NoBestMove? && data.error.ply < total
                      && store.files == old(store.files)
                      && bar.reports == old(bar.reports) + ProgressReports(data.error.ply + 1, total))
    {
      var name := CacheName(gameKey);
      if Readable(store.files, name) {
        data := Success(store.files[name]);
        bar.Progress(1.0, Loaded);
        return;
      }
      if gameKey !in allGames {
        return Failure(UnknownGame(gameKey));
      }
      data := WalkGame(allGames[gameKey], bar, oracle, apply);
      if data.Success? {
        store.files := store.files[name := data.value];
        bar.Progress(1.0, Saved);
      }
    }

    /** The loop over the plies of `create_game_dataframe` on a cache miss: a progress
        report before each ply, one engine call on the position before the ply, and one
        row per successful answer. An unreadable best move stops the walk. */
    static method WalkGame(game: Game, bar: ProgressBar,
                           oracle: Position -> Option<Evaluation>,
                           apply: (Position, Move) -> Position)
      returns (data: Result<seq<Row>, Failure>)
      modifies bar
      ensures data == AnalyseGame(game, oracle, apply)
      ensures data.Success? ==> bar.reports == old(bar.reports) + ProgressReports(|game.moves|, |game.moves|)
      ensures data.Failure? ==>
                && data.error.NoBestMove? && data.error.ply < |game.moves|
                && bar.reports == old(bar.reports) + ProgressReports(data.error.ply + 1, |game.moves|)
    {
      var total := |game.moves|;
      ghost var allFens := Replay(game.start, game.moves, apply);
      var board := game.start;
      var fens := [board];
      var rows: seq<Row> := [];
      var i := 0;
      while i < total
        invariant 0 <= i <= total
        invariant |fens| == i + 1 && fens[i] == board && board == allFens[i]
        invariant Walk(allFens, game.moves, oracle, i) == Success(rows)
        invariant bar.reports == old(bar.reports) + ProgressReports(i, total)
      {
        // Evaluation of the position before ply i.
        assert fens[|fens| - 1] == board;
        var step := Ply(i, total, game.moves[i], fens[|fens| - 1], bar, oracle);
        assert bar.reports == old(bar.reports) + ProgressReports(i + 1, total);
        WalkStep(allFens, game.moves, oracle, i, rows);
        if step.Failure? {
          WalkFailureSticks(allFens, game.moves, oracle, i + 1, total);
          return Failure(step.error);
        }
        var subData: seq<Row> := if step.value.Some? then [step.value.value] else [];
        ReplayAt(game.start, game.moves, apply, i);
        board := apply(board, game.moves[i]);
        fens := fens + [board];
        rows := rows + subData;
        i := i + 1;
      }
      data := Success(rows);
    }

    /** One pass of the loop body of `create_game_dataframe`: the progress report for
        ply i, the engine's answer for the position before it, and the row built from
        it; `None` for a failed answer, a failure where `.group(1)` would raise. */
    static method Ply(i: nat, total: nat, move: Move, position: Position, bar: ProgressBar,
                      oracle: Position -> Option<Evaluation>)
      returns (step: Result<Option<Row>, Failure>)
      requires i < total
      modifies bar
      ensures bar.reports == old(bar.reports) + [(i as real / total as real, InProgress)]
      ensures step == AnalysePly(i, move, oracle(position))
    {
      FractionBelowOne(i, total);
      bar.Progress(i as real / total as real, InProgress);
      var result := oracle(position);
      if result.Some? {
        var best := ExtractBestMove(result.value.bestmove);
        if best.None? {
          return Failure(NoBestMove(i));
        }
        step := Success(Some(Row(i % 2, move, result.value.evaluation, result.value.mate,
                                 best.value, result.value.continuation)));
      } else {
        step := Success(None);
      }
    }

    /** `delete_all_analysed_games`: every `.csv` file of the directory is removed, and
        no other file is touched. */
    static method DeleteAllAnalysedGames(store: AnalysedGames)
      modifies store
      ensures store.files == map name | name in old(store.files) && !IsCsv(name) :: old(store.files)[name]
      ensures forall key :: CacheName(key) !in store.files
    {
      var csvFiles := set name | name in store.files && IsCsv(name);
      while csvFiles != {}
        invariant store.files == map name | name in old(store.files) && (!IsCsv(name) || name in csvFiles)
                                          :: old(store.files)[name]
        decreases csvFiles
      {
        var file :| file in csvFiles;
        store.files := map name | name in store.files && name != file :: store.files[name];
        csvFiles := csvFiles - {file};
      }
    }

    /** Analysing the same game twice returns the same result. When the first run
        produced rows the second one is a cache hit that only reports "Analysis loaded.";
        a run without rows is not readable from the cache, so the second run analyses the
        game again and ends with "Analysis completed and saved.". */
    method AnalyseTwice(gameKey: string, bar: ProgressBar, store: AnalysedGames,
                        oracle: Position -> Option<Evaluation>,
                        apply: (Position, Move) -> Position)
      returns (first: Result<seq<Row>, Failure>, second: Result<seq<Row>, Failure>)
      modifies bar, store
      ensures second == first
      ensures first.Success? && first.value != [] ==>
                |bar.reports| > 0 && bar.reports[|bar.reports| - 1] == (1.0, Loaded)
      ensures first.Success? && first.value == [] ==>
                |bar.reports| > 0 && bar.reports[|bar.reports| - 1] == (1.0, Saved)
    {
      first := CreateGameDataframe(gameKey, bar, store, oracle, apply);
      second := CreateGameDataframe(gameKey, bar, store, oracle, apply);
    }
  }
}
