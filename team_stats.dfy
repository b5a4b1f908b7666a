/** The team statistics block of page two: after an eight-line header, each
    statistic is a label line followed by its value lines. Lines are grouped at
    labels, and each group becomes a Statistic/Visitor/Home record. */
module TeamStats {
  import opened Results
  import opened PyText
  import opened Classifier

  // ---------------------------------------------------------------------
  // extract_team_stats

  /** The stripped lines after the first eight of `s.split("\n")`. */
  function StatLines(s: string): (lines: seq<string>)
    ensures |lines| == |Drop(Split(s, "\n"), 8)|
    ensures forall i :: 0 <= i < |lines| ==> lines[i] == Strip(Drop(Split(s, "\n"), 8)[i])
  {
    var data := Drop(Split(s, "\n"), 8);
    seq(|data|, i requires 0 <= i < |data| => Strip(data[i]))
  }

  /** The groups the loop has closed, and the group it still holds open,
      after reading `lines`: a label line closes a non-empty open group and
      starts a new one; every other line joins the open group. */
  function Grouping(lines: seq<string>): (seq<seq<string>>, seq<string>)
    decreases |lines|
  {
    if lines == [] then ([], [])
    else
      var (closed, open) := Grouping(lines[..|lines| - 1]);
      var line := lines[|lines| - 1];
      if IsLetterDominant(line) && open != [] then (closed + [open], [line])
      else (closed, open + [line])
  }

  /** `extract_team_stats(s)`: the closed groups; the last group is not emitted. */
  function TeamStatGroups(s: string): seq<seq<string>> {
    Grouping(StatLines(s)).0
  }

  lemma GroupingSnoc(lines: seq<string>, i: nat)
    requires i < |lines|
    ensures var g := Grouping(lines[..i]);
            Grouping(lines[..i + 1]) ==
              if IsLetterDominant(lines[i]) && g.1 != [] then (g.0 + [g.1], [lines[i]])
              else (g.0, g.1 + [lines[i]])
  {
    assert lines[..i + 1][..i] == lines[..i];
  }

  /** The loop of `extract_team_stats`. */
  method ExtractTeamStats(s: string) returns (statistics: seq<seq<string>>)
    ensures statistics == TeamStatGroups(s)
  {
    var data := Drop(Split(s, "\n"), 8);
    ghost var lines := StatLines(s);
    statistics := [];
    var stats: seq<string> := [];
    var i := 0;
    while i < |data|
      invariant i <= |data|
      invariant Grouping(lines[..i]) == (statistics, stats)
    {
      var line := Strip(data[i]);
      assert line == lines[i];
      GroupingSnoc(lines, i);
      if IsLetterDominant(line) {
        if stats != [] {
          statistics := statistics + [stats];
          stats := [];
          assert stats + [line] == [line];
        }
        stats := stats + [line];
      } else {
        stats := stats + [line];
      }
      i := i + 1;
    }
    assert lines[..i] == lines;
  }

  /** The groups laid end to end. */
  function Flatten(groups: seq<seq<string>>): seq<string>
    decreases |groups|
  {
    if groups == [] then [] else Flatten(groups[..|groups| - 1]) + groups[|groups| - 1]
  }

  /** No line is lost or reordered: the closed groups followed by the open
      one are exactly the lines read. */
  lemma {:induction false} GroupingFlatten(lines: seq<string>)
    ensures Flatten(Grouping(lines).0) + Grouping(lines).1 == lines
    decreases |lines|
  {
    if lines != [] {
      var init := lines[..|lines| - 1];
      var line := lines[|lines| - 1];
      GroupingFlatten(init);
      var (closed, open) := Grouping(init);
      if IsLetterDominant(line) && open != [] {
        assert (closed + [open])[..|closed|] == closed;
        assert Flatten(closed + [open]) == Flatten(closed) + open;
      }
      assert lines == init + [line];
    }
  }

  /** Only the first line of a group may be a label. */
  predicate LabelFirst(g: seq<string>) {
    forall k :: 1 <= k < |g| ==> !IsLetterDominant(g[k])
  }

  /** A group that opens with a label line. */
  predicate Labelled(g: seq<string>) {
    g != [] && IsLetterDominant(g[0])
  }

  /** The shape of the grouping: every group is non-empty and has no label
      after its first line; every group after the first opens with a label;
      and a group is held open exactly when a line has been read. */
  predicate WellGrouped(closed: seq<seq<string>>, open: seq<string>) {
    (forall j :: 0 <= j < |closed| ==> closed[j] != [] && LabelFirst(closed[j])) &&
    (forall j :: 0 < j < |closed| ==> Labelled(closed[j])) &&
    LabelFirst(open) && (closed != [] ==> Labelled(open))
  }

  lemma {:induction false} GroupingShape(lines: seq<string>)
    ensures WellGrouped(Grouping(lines).0, Grouping(lines).1)
    ensures Grouping(lines).1 == [] <==> lines == []
    decreases |lines|
  {
    if lines != [] {
      var init := lines[..|lines| - 1];
      GroupingShape(init);
      var (closed, open) := Grouping(init);
      var line := lines[|lines| - 1];
      if IsLetterDominant(line) && open != [] {
        var c := closed + [open];
        assert forall j :: 0 <= j < |closed| ==> c[j] == closed[j];
        assert c[|closed|] == open;
        assert init != [];
      } else {
        var o := open + [line];
        assert forall k :: 0 <= k < |open| ==> o[k] == open[k];
      }
    }
  }

  /** What `extract_team_stats` returns: groups with a label at most at their
      head, all but the first opening with a label; read with the group it
      drops, they are the stripped lines after the header, in order. */
  lemma TeamStatGroupsShape(s: string)
    ensures var (closed, open) := Grouping(StatLines(s));
            TeamStatGroups(s) == closed &&
            Flatten(closed) + open == StatLines(s) &&
            WellGrouped(closed, open) &&
            (open == [] <==> StatLines(s) == [])
  {
    GroupingFlatten(StatLines(s));
    GroupingShape(StatLines(s));
  }

  // ---------------------------------------------------------------------
  // parse_team_stats

  /** `{"Statistic": ..., "Visitor": ..., "Home": ...}` */
  datatype StatRecord = StatRecord(statistic: string, visitor: Option<string>, home: Option<string>)

  /** `entry[i] if len(entry) > i else None` */
  function At(entry: seq<string>, i: nat): Option<string> {
    if |entry| > i then Some(entry[i]) else None
  }

  /** The record of one non-empty group. */
  function StatRecordOf(entry: seq<string>): StatRecord
    requires entry != []
  {
    StatRecord(Capitalize(Lower(entry[0])), At(entry, 1), At(entry, 2))
  }

  /** The records built by the loop, or the IndexError of the first empty
      group. */
  function StatRecords(data: seq<seq<string>>): Result<seq<StatRecord>>
    decreases |data|
  {
    if data == [] then Ok([])
    else match StatRecords(data[..|data| - 1])
      case Err(e) => Err(e)
      case Ok(rs) =>
        var entry := data[|data| - 1];
        if entry == [] then Err(IndexError) else Ok(rs + [StatRecordOf(entry)])
  }

  /** A lone record has neither a visitor nor a home value. */
  function Degenerate(rs: seq<StatRecord>): seq<StatRecord> {
    if |rs| == 1 then [rs[0].(visitor := None, home := None)] else rs
  }

  /** `parse_team_stats(data)` */
  function TeamStatsOf(data: seq<seq<string>>): Result<seq<StatRecord>> {
    match StatRecords(data)
    case Err(e) => Err(e)
    case Ok(rs) => Ok(Degenerate(rs))
  }

  lemma StatRecordsSnoc(data: seq<seq<string>>, i: nat)
    requires i < |data|
    ensures StatRecords(data[..i + 1]) ==
            match StatRecords(data[..i])
            case Err(e) => Err(e)
            case Ok(rs) => if data[i] == [] then Err(IndexError) else Ok(rs + [StatRecordOf(data[i])])
  {
    assert data[..i + 1][..i] == data[..i];
  }

  /** An error among the first groups is the error of all of them. */
  lemma {:induction false} StatRecordsPrefixErr(data: seq<seq<string>>, i: nat)
    requires i <= |data| && StatRecords(data[..i]).Err?
    ensures StatRecords(data) == StatRecords(data[..i])
    decreases |data| - i
  {
    if i < |data| {
      StatRecordsSnoc(data, i);
      StatRecordsPrefixErr(data, i + 1);
    } else {
      assert data[..i] == data;
    }
  }

  /** The loop of `parse_team_stats`, then the one-record rule. */
  method ParseTeamStats(data: seq<seq<string>>) returns (r: Result<seq<StatRecord>>)
    ensures r == TeamStatsOf(data)
  {
    var result: seq<StatRecord> := [];
    var i := 0;
    while i < |data|
      invariant i <= |data|
      invariant StatRecords(data[..i]) == Ok(result)
    {
      var entry := data[i];
      StatRecordsSnoc(data, i);
      if |entry| == 0 {
        StatRecordsPrefixErr(data, i + 1);
        return Err(IndexError);
      }
      var visitor := if |entry| > 1 then Some(entry[1]) else None;
      var home := if |entry| > 2 then Some(entry[2]) else None;
      result := result + [StatRecord(Capitalize(Lower(entry[0])), visitor, home)];
      i := i + 1;
    }
    assert data[..i] == data;
    if |result| == 1 {
      result := [result[0].(visitor := None, home := None)];
    }
    return Ok(result);
  }

  /** The groups parse exactly when none of them is empty. */
  lemma {:induction false} TeamStatsFails(data: seq<seq<string>>)
    ensures TeamStatsOf(data).Err? <==> exists j :: 0 <= j < |data| && data[j] == []
    decreases |data|
  {
    if data != [] {
      var init := data[..|data| - 1];
      TeamStatsFails(init);
      if StatRecords(init).Err? {
        var j :| 0 <= j < |init| && init[j] == [];
        assert data[j] == [];
      } else {
        assert forall j :: 0 <= j < |init| ==> data[j] == init[j];
      }
    }
  }

  /** Without an error there is one record per group, in order. */
  lemma {:induction false} StatRecordsValues(data: seq<seq<string>>)
    requires StatRecords(data).Ok?
    ensures |StatRecords(data).value| == |data|
    ensures forall j :: 0 <= j < |data| ==> data[j] != [] && StatRecords(data).value[j] == StatRecordOf(data[j])
    decreases |data|
  {
    if data != [] {
      var init := data[..|data| - 1];
      StatRecordsValues(init);
      var rs := StatRecords(init).value;
      var last := data[|data| - 1];
      assert last != [] && StatRecords(data).value == rs + [StatRecordOf(last)];
      forall j | 0 <= j < |data|
        ensures data[j] != [] && StatRecords(data).value[j] == StatRecordOf(data[j])
      {
        if j < |init| {
          assert data[j] == init[j];
        }
      }
    }
  }

  /** Record j names the lower-cased, capitalized label of group j; its
      visitor and home values are the group's second and third lines where
      they exist, and are both dropped when there is only one group. */
  lemma TeamStatsFields(data: seq<seq<string>>, j: nat)
    requires TeamStatsOf(data).Ok? && j < |data|
    ensures |TeamStatsOf(data).value| == |data|
    ensures data[j] != []
    ensures TeamStatsOf(data).value[j] ==
            StatRecord(Capitalize(Lower(data[j][0])),
                       if |data| == 1 then None else At(data[j], 1),
                       if |data| == 1 then None else At(data[j], 2))
  {
    StatRecordsValues(data);
  }

  /** The groups `extract_team_stats` emits always parse. */
  lemma ExtractedGroupsParse(s: string)
    ensures TeamStatsOf(TeamStatGroups(s)).Ok?
  {
    var groups := TeamStatGroups(s);
    GroupingShape(StatLines(s));
    TeamStatsFails(groups);
  }
}
