/**
 * The game key built by `ChessUtils.load_all_games` for one downloaded game:
 * `<date> [<colour> - <result> vs <opponent>]`, where colour and result are the
 * source's symbol characters. The date arrives already formatted; PGN headers are a
 * map from tag name to value, and a missing tag is the source's KeyError (`None`).
 */
module GameKeys {
  import opened Wrappers

  const WhiteSymbol: string := "\U{2B1C}"
  const BlackSymbol: string := "\U{2B1B}"
  const WinSymbol: string := "\U{2705}"
  const DrawSymbol: string := "\U{1F7F0}"
  const LoseSymbol: string := "\U{26D4}"

  datatype Colour = White | Black
  {
    function Symbol(): string {
      match this
      case White => WhiteSymbol
      case Black => BlackSymbol
    }
  }

  datatype Outcome = Win | Draw | Lose
  {
    function Symbol(): string {
      match this
      case Win => WinSymbol
      case Draw => DrawSymbol
      case Lose => LoseSymbol
    }
  }

  /** `pattern` starts at index `i` of `text`. */
  predicate OccursAt(text: string, pattern: string, i: nat) {
    i + |pattern| <= |text| && text[i..i + |pattern|] == pattern
  }

  /** Search for `pattern` at index `i` or later. */
  function ContainsFrom(text: string, pattern: string, i: nat): (b: bool)
    requires i <= |text|
    ensures b <==> exists j: nat :: i <= j && OccursAt(text, pattern, j)
    decreases |text| - i
  {
    if i + |pattern| > |text| then false
    else if OccursAt(text, pattern, i) then true
    else ContainsFrom(text, pattern, i + 1)
  }

  /** Python's `pattern in text` on strings; the empty pattern occurs in every text. */
  function Contains(text: string, pattern: string): (b: bool)
    ensures b <==> exists j: nat :: OccursAt(text, pattern, j)
  {
    ContainsFrom(text, pattern, 0)
  }

  /** The colour the user played and the opponent's name. The Black tag is only read
      when the user is White, so only then can its absence fail. */
  function Side(username: string, headers: map<string, string>): (r: Option<(Colour, string)>)
    ensures r.Some? <==> "White" in headers && (headers["White"] == username ==> "Black" in headers)
    ensures r.Some? ==> (r.value.0 == White <==> headers["White"] == username)
    ensures r.Some? && r.value.0 == White ==> r.value.1 == headers["Black"]
    ensures r.Some? && r.value.0 == Black ==> r.value.1 == headers["White"]
  {
    if "White" !in headers then None
    else if headers["White"] == username then
      if "Black" in headers then Some((White, headers["Black"])) else None
    else Some((Black, headers["White"]))
  }

  /** The result from the user's point of view, read off the Termination tag: a win
      when the username occurs in it, else a draw when "drawn" occurs in it. */
  function Status(username: string, termination: string): (s: Outcome)
    ensures s == Win <==> exists j: nat :: OccursAt(termination, username, j)
    ensures s == Draw <==> ((forall j: nat :: !OccursAt(termination, username, j))
                            && (exists j: nat :: OccursAt(termination, "drawn", j)))
  {
    if Contains(termination, username) then Win
    else if Contains(termination, "drawn") then Draw
    else Lose
  }

  /** The win test is a substring test: a username that occurs inside the winner's name
      reads the winner's win as the user's (user "bob", "bobby won by resignation"). */
  lemma {:induction false} StatusIsSubstringTest(username: string, winner: string, rest: string)
    requires Contains(winner, username)
    ensures Status(username, winner + rest) == Win
  {
    var j: nat :| OccursAt(winner, username, j);
    assert (winner + rest)[j..j + |username|] == winner[j..j + |username|];
    assert OccursAt(winner + rest, username, j);
  }

  /** The key of one game; `None` where the source raises KeyError on a missing tag. */
  function GameKey(username: string, date: string, headers: map<string, string>): (k: Option<string>)
    ensures k.Some? <==> Side(username, headers).Some? && "Termination" in headers
    ensures k.Some? ==> k.value == date + " [" + Side(username, headers).value.0.Symbol() + " - "
                                   + Status(username, headers["Termination"]).Symbol() + " vs "
                                   + Side(username, headers).value.1 + "]"
  {
    match Side(username, headers)
    case None => None
    case Some((colour, opponent)) =>
      if "Termination" !in headers then None
      else Some(date + " [" + colour.Symbol() + " - " + Status(username, headers["Termination"]).Symbol()
                + " vs " + opponent + "]")
  }

  /** The key begins with the date, so any fixed-length prefix no longer than the date
      is the date's prefix: the colour, result and opponent do not reach it. */
  lemma KeyPrefixIsDate(username: string, date: string, headers: map<string, string>, n: nat)
    requires GameKey(username, date, headers).Some?
    requires n <= |date|
    ensures |GameKey(username, date, headers).value| >= |date| + 12
    ensures GameKey(username, date, headers).value[..n] == date[..n]
  {
  }

  /** The colour symbols tell the user's side apart whenever neither the date nor the
      opponent's name contains the white symbol. */
  lemma WhiteSymbolMarksWhite(username: string, date: string, headers: map<string, string>)
    requires GameKey(username, date, headers).Some?
    requires WhiteSymbol[0] !in date && WhiteSymbol[0] !in Side(username, headers).value.1
    ensures WhiteSymbol[0] in GameKey(username, date, headers).value
            <==> headers["White"] == username
  {
  }
}
