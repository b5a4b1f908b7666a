/** The quarter scoreboard block of the first page: six header lines, then for
    each side a separator line, the team name and six scores. */
module Scoreboard {
  import opened Results
  import opened Dicts
  import opened PyText

  /** `int(data[k].strip())`, with an IndexError for a missing line. */
  function ScoreAt(data: seq<string>, k: nat): Result<int> {
    if k >= |data| then Err(IndexError)
    else match ParseInt(data[k])
      case None => Err(ValueError)
      case Some(v) => Ok(v)
  }

  /** The scores of lines `from` .. `from + count - 1`, read left to right: the
      first line that is missing or not an integer decides the error. */
  function Scores(data: seq<string>, from: nat, count: nat): (r: Result<seq<int>>)
    decreases count
    ensures r.Ok? ==> |r.value| == count
  {
    if count == 0 then Ok([])
    else match ScoreAt(data, from)
      case Err(e) => Err(e)
      case Ok(v) =>
        match Scores(data, from + 1, count - 1)
        case Err(e) => Err(e)
        case Ok(vs) => Ok([v] + vs)
  }

  /** Lines `from` .. `from + count - 1` all exist and hold integers. */
  predicate LinesParse(data: seq<string>, from: nat, count: nat) {
    forall k :: from <= k < from + count ==> LineParses(data, k)
  }

  /** Line `k` exists and holds an integer. */
  predicate LineParses(data: seq<string>, k: nat) {
    k < |data| && ParseInt(data[k]).Some?
  }

  /** The scores parse exactly when every line of the range exists and holds
      an integer. */
  lemma {:induction false} ScoresOk(data: seq<string>, from: nat, count: nat)
    decreases count
    ensures Scores(data, from, count).Ok? <==> LinesParse(data, from, count)
  {
    if count > 0 {
      ScoresOk(data, from + 1, count - 1);
      if ScoreAt(data, from).Err? {
        assert !LineParses(data, from);
      } else if Scores(data, from + 1, count - 1).Err? {
        assert !LinesParse(data, from, count);
      } else {
        assert LineParses(data, from);
      }
    }
  }

  /** Score i is the integer on line `from + i`. */
  lemma {:induction false} ScoreValue(data: seq<string>, from: nat, count: nat, i: nat)
    requires Scores(data, from, count).Ok? && i < count
    decreases i
    ensures from + i < |data| && ParseInt(data[from + i]) == Some(Scores(data, from, count).value[i])
  {
    var first := ScoreAt(data, from);
    var rest := Scores(data, from + 1, count - 1);
    assert first.Ok? && rest.Ok?;
    assert Scores(data, from, count).value == [first.value] + rest.value;
    if i > 0 {
      ScoreValue(data, from + 1, count - 1, i - 1);
    }
  }

  /** The header-to-score entries of one side, in column order. */
  function ScoreEntries(headers: seq<string>, scores: seq<int>): (es: seq<(string, Value)>)
    requires |scores| <= |headers|
    ensures |es| == |scores|
    ensures forall i :: 0 <= i < |scores| ==> es[i] == (headers[i], Int(scores[i]))
  {
    seq(|scores|, i requires 0 <= i < |scores| => (headers[i], Int(scores[i])))
  }

  /** `{"Side": side, "Team": team, **{headers[i]: scores[i] for i in ...}}` */
  function SideRecord(side: string, team: string, headers: seq<string>, scores: seq<int>): Record
    requires |scores| <= |headers|
  {
    PutAll([("Side", Str(side)), ("Team", Str(team))], PutAll([], ScoreEntries(headers, scores)))
  }

  /** One side of the scoreboard: the team name on line `teamLine`, the six
      scores on the lines after it. */
  function SideOf(data: seq<string>, headers: seq<string>, teamLine: nat, side: string): Result<Record> {
    if teamLine >= |data| then Err(IndexError)
    else match Scores(data, teamLine + 1, 6)
      case Err(e) => Err(e)
      case Ok(scores) =>
        if |headers| < 6 then Err(IndexError)
        else Ok(SideRecord(side, Strip(data[teamLine]), headers, scores))
  }

  /** `[item.strip() for item in data[:6]]` */
  function Headers(data: seq<string>): (headers: seq<string>)
    ensures |headers| == if |data| < 6 then |data| else 6
    ensures forall i :: 0 <= i < |headers| ==> headers[i] == Strip(data[i])
  {
    var first := Take(data, 6);
    seq(|first|, i requires 0 <= i < |first| => Strip(first[i]))
  }

  /** `parse_scoreboard` on the stripped lines of the block: the visitors' team
      on line 7, the home team on line 15. */
  function ScoreboardOf(data: seq<string>): Result<seq<Record>> {
    var headers := Headers(data);
    match SideOf(data, headers, 7, "Visitor")
    case Err(e) => Err(e)
    case Ok(visitor) =>
      match SideOf(data, headers, 15, "Home")
      case Err(e) => Err(e)
      case Ok(home) => Ok([visitor, home])
  }

  /** `parse_scoreboard(s)` */
  function ParseScoreboard(s: string): Result<seq<Record>> {
    ScoreboardOf(Split(Strip(s), "\n"))
  }

  /** One side parses exactly when its team line and the six lines after it
      exist, those six hold integers, and all six headers are present. */
  lemma SideOk(data: seq<string>, headers: seq<string>, teamLine: nat, side: string)
    ensures SideOf(data, headers, teamLine, side).Ok? <==>
            teamLine < |data| && LinesParse(data, teamLine + 1, 6) && |headers| >= 6
  {
    ScoresOk(data, teamLine + 1, 6);
  }

  /** The scoreboard parses exactly when there are at least 22 lines and lines
      8-13 and 16-21 are integers; then it has two records, Visitor then Home,
      built from team lines 7 and 15 and the headers on lines 0-5. */
  lemma ScoreboardOk(data: seq<string>)
    ensures ScoreboardOf(data).Ok? <==> LinesParse(data, 8, 6) && LinesParse(data, 16, 6)
    ensures ScoreboardOf(data).Ok? ==> |data| >= 22
    ensures ScoreboardOf(data).Ok? ==>
            ScoreboardOf(data).value ==
              [SideRecord("Visitor", Strip(data[7]), Headers(data), Scores(data, 8, 6).value),
               SideRecord("Home", Strip(data[15]), Headers(data), Scores(data, 16, 6).value)]
  {
    var headers := Headers(data);
    SideOk(data, headers, 7, "Visitor");
    SideOk(data, headers, 15, "Home");
    if LinesParse(data, 16, 6) {
      assert LineParses(data, 21);
    }
  }

  /** The side and team entries survive unless a header has the same name. */
  lemma SideRecordNames(side: string, team: string, headers: seq<string>, scores: seq<int>)
    requires |scores| <= |headers|
    requires forall i :: 0 <= i < |scores| ==> headers[i] != "Side" && headers[i] != "Team"
    ensures Get(SideRecord(side, team, headers, scores), "Side") == Some(Str(side))
    ensures Get(SideRecord(side, team, headers, scores), "Team") == Some(Str(team))
  {
    var base := [("Side", Str(side)), ("Team", Str(team))];
    var es := ScoreEntries(headers, scores);
    assert "Side" !in Keys(es) && "Team" !in Keys(es) by {
      forall i | 0 <= i < |es| ensures Keys(es)[i] != "Side" && Keys(es)[i] != "Team" {
        assert Keys(es)[i] == headers[i];
      }
    }
    GetMerge(base, es, "Side");
    GetMerge(base, es, "Team");
    IndexOfFirst(base, "Side", 0);
    IndexOfFirst(base, "Team", 1);
  }

  /** Header i maps to score i unless a later header has the same name. */
  lemma SideRecordScore(side: string, team: string, headers: seq<string>, scores: seq<int>, i: nat)
    requires |scores| <= |headers| && i < |scores|
    requires forall j :: i < j < |scores| ==> headers[j] != headers[i]
    ensures Get(SideRecord(side, team, headers, scores), headers[i]) == Some(Int(scores[i]))
  {
    var es := ScoreEntries(headers, scores);
    GetMerge([("Side", Str(side)), ("Team", Str(team))], es, headers[i]);
    assert Keys(es)[i] == headers[i];
    LastValueAt(es, i);
  }

  /** Header i (line i) maps to the integer on line 8+i for the visitors and on
      line 16+i for the home side, unless a later header has the same name. */
  lemma ScoreboardScores(data: seq<string>, i: nat)
    requires |data| >= 22 && i < 6 && LinesParse(data, 8, 6) && LinesParse(data, 16, 6)
    requires forall j :: i < j < 6 ==> Strip(data[j]) != Strip(data[i])
    ensures ScoreboardOf(data).Ok? && LineParses(data, 8 + i) && LineParses(data, 16 + i)
    ensures var r := ScoreboardOf(data).value;
            |r| == 2 &&
            Get(r[0], Strip(data[i])) == Some(Int(ParseInt(data[8 + i]).value)) &&
            Get(r[1], Strip(data[i])) == Some(Int(ParseInt(data[16 + i]).value))
  {
    ScoreboardOk(data);
    var headers := Headers(data);
    ScoreValue(data, 8, 6, i);
    ScoreValue(data, 16, 6, i);
    SideRecordScore("Visitor", Strip(data[7]), headers, Scores(data, 8, 6).value, i);
    SideRecordScore("Home", Strip(data[15]), headers, Scores(data, 16, 6).value, i);
  }

  /** Lines 6 and 14 (the lines before each side's team name) do not matter. */
  lemma SeparatorsIgnored(data: seq<string>, other: seq<string>)
    requires |data| == |other|
    requires forall k :: 0 <= k < |data| && k != 6 && k != 14 ==> data[k] == other[k]
    ensures ScoreboardOf(data) == ScoreboardOf(other)
  {
    assert Headers(data) == Headers(other);
    ScoresSame(data, other, 8, 6);
    ScoresSame(data, other, 16, 6);
  }

  lemma {:induction false} ScoresSame(data: seq<string>, other: seq<string>, from: nat, count: nat)
    requires |data| == |other|
    requires forall k :: from <= k < from + count && k < |data| ==> data[k] == other[k]
    ensures Scores(data, from, count) == Scores(other, from, count)
    decreases count
  {
    if count > 0 {
      ScoresSame(data, other, from + 1, count - 1);
    }
  }
}
