/** The page parsers. A gamebook's pages are cut at literal section markers;
    each piece is handed to a block parser, and the results are written into
    one document dictionary, section by section. A marker split unpacked
    into a fixed number of names fails unless it yields exactly that many
    pieces, and a parser that raises leaves the sections written before it
    in place. */
module Pages {
  import opened Results
  import opened Dicts
  import opened PyText
  import Tables
  import Scoreboard
  import Metadata
  import Officials
  import TeamStats
  import PlayLog

  /** A table for each side. */
  datatype Sides = Sides(visitors: seq<Tables.Row>, home: seq<Tables.Row>)

  /** One side's participation tables. */
  datatype Squad = Squad(starter: seq<Tables.Row>, bench: seq<Tables.Row>)

  /** The value stored under one key of the document. */
  datatype Section =
    | MetaSection(meta: Metadata.Meta)
    | ScoreBoardSection(teams: seq<Record>)
    | OfficialsSection(officials: Officials.Officials)
    | RowsSection(rows: seq<Tables.Row>)
    | TeamStatsSection(stats: seq<TeamStats.StatRecord>)
    | IndividualStatsSection(passing: Sides, rushing: Sides, receiving: Sides)
    | SidesSection(sides: Sides)
    // the "home" and "visitors" entries, None while still the empty dict
    | ParticipationSection(home: Option<Squad>, visitors: Option<Squad>)
    | DriveLogsSection(drives: Dict<string, seq<Tables.Row>>)

  /** The document dictionary: section name to section. */
  type Doc = Dict<string, Section>

  /** `doc[key] = value`, where computing the value may raise. */
  datatype Write = Write(key: string, value: Result<Section>)

  /** The assignments in order, up to the first whose value raises: the
      document after them, and the error raised, if any. */
  function Apply(d: Doc, ws: seq<Write>): (Doc, Option<Error>)
    decreases |ws|
  {
    if ws == [] then (d, None)
    else match ws[0].value
      case Err(e) => (d, Some(e))
      case Ok(v) => Apply(Put(d, ws[0].key, v), ws[1..])
  }

  // ---------------------------------------------------------------------
  // Marker splits and tables

  /** `a, b, ... = s.split(marker)` with `count` names. */
  function Unpack(s: string, marker: string, count: nat): (r: Result<seq<string>>)
    requires |marker| > 0
    ensures r.Ok? ==> |r.value| == count && Join(r.value, marker) == s
    ensures r.Ok? ==> forall k :: 0 <= k < count ==> !Contains(r.value[k], marker)
    ensures r.Err? <==> |Split(s, marker)| != count
    ensures r.Err? ==> r.error == UnpackError(count, |Split(s, marker)|)
  {
    SplitJoin(s, marker);
    SplitPiecesFree(s, marker);
    var pieces := Split(s, marker);
    if |pieces| == count then Ok(pieces) else Err(UnpackError(count, |pieces|))
  }

  /** Two joined pieces are the pieces around the separator. */
  lemma JoinTwo(a: string, b: string, sep: string)
    ensures Join([a, b], sep) == a + sep + b
  {
    assert [a, b][1..] == [b];
  }

  /** Three joined pieces are the pieces around two separators. */
  lemma JoinThree(a: string, b: string, c: string, sep: string)
    ensures Join([a, b, c], sep) == a + sep + b + sep + c
  {
    assert [a, b, c][1..] == [b, c];
    JoinTwo(b, c, sep);
  }

  /** `parse_table_data(s, n)` with the first `n` lines as column names,
      which never raises. */
  function Rows(s: string, n: nat): seq<Tables.Row>
    requires n > 0
  {
    Tables.TableDefaults(s, n);
    Tables.TableData(s, n, None, None).value
  }

  /** `parse_table_data(s.split("Team")[1], 6)` */
  function TeamTable(s: string): Result<seq<Tables.Row>> {
    var pieces := Split(s, "Team");
    if |pieces| < 2 then Err(IndexError) else Ok(Rows(pieces[1], 6))
  }

  // ---------------------------------------------------------------------
  // Page one: metadata, scoreboard, officials, scoring plays

  datatype PageOneParts = PageOneParts(meta: string, scoreQuarters: string, scoringPlays: string,
                                       fieldGoals: string, officials: string, weather: string)

  /** The five two-way splits of page one. */
  function SplitPageOne(page: string): Result<PageOneParts> {
    match Unpack(page, "Score by Quarters", 2)
    case Err(e) => Err(e)
    case Ok(p1) =>
      match Unpack(p1[1], "Scoring Plays", 2)
      case Err(e) => Err(e)
      case Ok(p2) =>
        match Unpack(p2[1], "Field\nGoals", 2)
        case Err(e) => Err(e)
        case Ok(p3) =>
          match Unpack(p3[1], "Officials", 2)
          case Err(e) => Err(e)
          case Ok(p4) =>
            match Unpack(p4[1], "Weather\n", 2)
            case Err(e) => Err(e)
            case Ok(p5) => Ok(PageOneParts(p1[0], p2[0], p3[0], p4[0], p5[0], p5[1]))
  }

  function MetaValue(meta: string, weather: string): Result<Section> {
    match Metadata.MetadataOf(meta, weather)
    case Err(e) => Err(e)
    case Ok(m) => Ok(MetaSection(m))
  }

  function ScoreBoardValue(s: string): Result<Section> {
    match Scoreboard.ParseScoreboard(s)
    case Err(e) => Err(e)
    case Ok(teams) => Ok(ScoreBoardSection(teams))
  }

  function TeamTableValue(s: string): Result<Section> {
    match TeamTable(s)
    case Err(e) => Err(e)
    case Ok(rows) => Ok(RowsSection(rows))
  }

  /** The five assignments of `parse_page_one`, in order. */
  function PageOneWrites(p: PageOneParts): seq<Write> {
    [Write("meta", MetaValue(p.meta, p.weather)),
     Write("score_board", ScoreBoardValue(p.scoreQuarters)),
     Write("officials", Ok(OfficialsSection(Officials.OfficialsOf(p.officials)))),
     Write("touchdowns", TeamTableValue(p.scoringPlays)),
     Write("field_goals", TeamTableValue(p.fieldGoals))]
  }

  /** `parse_page_one(page, doc)`: the document after it, and its error. */
  function PageOne(d: Doc, page: string): (Doc, Option<Error>) {
    match SplitPageOne(page)
    case Err(e) => (d, Some(e))
    case Ok(p) => Apply(d, PageOneWrites(p))
  }

  // ---------------------------------------------------------------------
  // Page two: team statistics

  /** `parse_page_two(page, doc)` */
  function PageTwo(d: Doc, page: string): (Doc, Option<Error>) {
    var value := match TeamStats.TeamStatsOf(TeamStats.TeamStatGroups(page))
                 case Err(e) => Err(e)
                 case Ok(stats) => Ok(TeamStatsSection(stats));
    Apply(d, [Write("team_stats", value)])
  }

  // ---------------------------------------------------------------------
  // Page three: passing, rushing and receiving

  datatype PageThreeParts = PageThreeParts(passingVisitors: string, passingHome: string,
                                           rushingVisitors: string, rushingHome: string,
                                           receivingVisitors: string, receivingHome: string)

  /** The three three-way splits of page three. */
  function SplitPageThree(page: string): Result<PageThreeParts> {
    match Unpack(page, "Passing", 3)
    case Err(e) => Err(e)
    case Ok(p1) =>
      match Unpack(p1[2], "Rushing", 3)
      case Err(e) => Err(e)
      case Ok(p2) =>
        match Unpack(p2[2], "Receiving", 3)
        case Err(e) => Err(e)
        case Ok(p3) =>
          Ok(PageThreeParts(p1[1], p2[0], p2[1], p3[0], p3[1], p3[2]))
  }

  /** The individual statistics: passing tables of 10 columns, rushing and
      receiving tables of 6. */
  function IndividualStats(p: PageThreeParts): Section {
    IndividualStatsSection(Sides(Rows(p.passingVisitors, 10), Rows(p.passingHome, 10)),
                           Sides(Rows(p.rushingVisitors, 6), Rows(p.rushingHome, 6)),
                           Sides(Rows(p.receivingVisitors, 6), Rows(p.receivingHome, 6)))
  }

  /** `parse_page_three(page, doc)` */
  function PageThree(d: Doc, page: string): (Doc, Option<Error>) {
    match SplitPageThree(page)
    case Err(e) => (d, Some(e))
    case Ok(p) => Apply(d, [Write("individual_stats", Ok(IndividualStats(p)))])
  }

  // ---------------------------------------------------------------------
  // Page four: defense

  /** `parse_page_four(page, doc)` */
  function PageFour(d: Doc, page: string): (Doc, Option<Error>) {
    match Unpack(page, "Defense", 3)
    case Err(e) => (d, Some(e))
    case Ok(p) => Apply(d, [Write("defense_stats", Ok(SidesSection(Sides(Rows(p[1], 13), Rows(p[2], 13)))))])
  }

  // ---------------------------------------------------------------------
  // Page five: drive summaries

  /** The explicit column names of the drive summary tables. */
  const DriveSummaryKeys: seq<string> :=
    ["index", "Start QTR", "Start Time", "End QTR", "End Time", "Poss. Time",
     "How Obtained", "Start Yrd", "No. Plays", "Net Yds", "End Yrd", "How Given Up"]

  /** With the twelve names given and an offset of 11, the synthetic
      "Index" line and the first ten lines of the text are skipped, and the
      table never raises. */
  lemma DriveSummaryOk(s: string)
    ensures Tables.TableData(s, 12, Some(DriveSummaryKeys), Some(11)).Ok?
    ensures Tables.TableValues(Tables.DataLines(s), 12, Some(11)) == Drop(Split(Strip(s), "\n"), 10)
  {
    var lines := Split(Strip(s), "\n");
    if |lines| >= 10 {
      assert (["Index"] + lines)[11..] == lines[10..];
    }
  }

  /** `parse_table_data(s, no_columns=12, offset=11, keys=...)` */
  function DriveSummary(s: string): seq<Tables.Row> {
    DriveSummaryOk(s);
    Tables.TableData(s, 12, Some(DriveSummaryKeys), Some(11)).value
  }

  /** `parse_page_five(page, doc)`: the first piece after the marker is the
      home table, the second the visitors'. */
  function PageFive(d: Doc, page: string): (Doc, Option<Error>) {
    match Unpack(page, "How Given", 3)
    case Err(e) => (d, Some(e))
    case Ok(p) => Apply(d, [Write("drives", Ok(SidesSection(Sides(DriveSummary(p[2]), DriveSummary(p[1])))))])
  }

  // ---------------------------------------------------------------------
  // The last pages: participation and the play-by-play drives

  /** The column names put back in front of a participation table. */
  const SquadHeader := "Last Name\nPosition\n#"

  /** `home_pr.split("#")[1]` and `[2]`, each parsed with 4 columns. */
  function SquadOf(report: string): Result<Squad> {
    var pieces := Split(report, "#");
    if |pieces| < 3 then Err(IndexError)
    else Ok(Squad(Rows(SquadHeader + pieces[1], 4), Rows(SquadHeader + pieces[2], 4)))
  }

  /** The column names put in front of a drive's plays. */
  const DriveHeader := "Down&Distance\nYardLine\nDetails\n"

  /** `parse_drives(drive)` of the earlier revision: the drive without its
      header and footer, read as a 4-column table. */
  function DriveRows(drive: string): seq<Tables.Row> {
    Rows(DriveHeader + PlayLog.WithoutHeaderAndFooter(drive), 4)
  }

  /** `f"Drive {str(n).zfill(2)}"` */
  function DriveKey(n: nat): string {
    "Drive " + ZFill(IntToString(n), 2)
  }

  /** The drives after the first marker piece, numbered from 1. */
  function DriveLogs(pieces: seq<string>): (logs: Dict<string, seq<Tables.Row>>)
    requires |pieces| >= 1
  {
    seq(|pieces| - 1, k requires 0 <= k < |pieces| - 1 => (DriveKey(k + 1), DriveRows(pieces[k + 1])))
  }

  /** The participation assignments: the empty skeleton, then the home side,
      then both sides. */
  function ParticipationWrites(home: string, visitors: string): seq<Write> {
    var homeValue := match SquadOf(home)
                     case Err(e) => Err(e)
                     case Ok(h) => Ok(ParticipationSection(Some(h), None));
    var bothValue := match SquadOf(visitors)
                     case Err(e) => Err(e)
                     case Ok(v) =>
                       match SquadOf(home)
                       case Err(e) => Err(e)
                       case Ok(h) => Ok(ParticipationSection(Some(h), Some(v)));
    [Write("participation", Ok(ParticipationSection(None, None))),
     Write("participation", homeValue),
     Write("participation", bothValue)]
  }

  /** The text the drives are cut from, and the assignments before them. */
  function LastSections(pages: seq<string>): (string, seq<Write>) {
    var sections := Split(Join(pages, "\n"), "Participation Report");
    if |sections| == 3 then (sections[0], ParticipationWrites(sections[1], sections[2]))
    else (sections[0], [])
  }

  /** `parse_last_pages(pages, doc)` of the earlier revision. */
  function LastPages(d: Doc, pages: seq<string>): (Doc, Option<Error>) {
    var (drives, writes) := LastSections(pages);
    Apply(d, writes + [Write("drives", Ok(DriveLogsSection(DriveLogs(Split(drives, "Drive Start")))))])
  }

  // ---------------------------------------------------------------------
  // Stepping through the assignments

  lemma ApplyStep(d: Doc, ws: seq<Write>, k: nat)
    requires k < |ws| && ws[k].value.Ok?
    ensures Apply(d, ws[k..]) == Apply(Put(d, ws[k].key, ws[k].value.value), ws[k + 1..])
  {
    assert ws[k..][1..] == ws[k + 1..];
  }

  lemma ApplyDone(d: Doc, ws: seq<Write>)
    ensures Apply(d, ws[|ws|..]) == (d, None)
  {
  }

  /** A single assignment. */
  lemma ApplyOne(d: Doc, w: Write)
    ensures Apply(d, [w]) == if w.value.Ok? then (Put(d, w.key, w.value.value), None) else (d, Some(w.value.error))
  {
    assert [w][1..] == [];
  }

  /** Running two lists of assignments is running the first and, unless it
      raised, the second on its result. */
  lemma {:induction false} ApplyAppend(d: Doc, ws1: seq<Write>, ws2: seq<Write>)
    ensures Apply(d, ws1 + ws2) ==
            if Apply(d, ws1).1.Some? then Apply(d, ws1) else Apply(Apply(d, ws1).0, ws2)
    decreases |ws1|
  {
    if ws1 != [] {
      assert (ws1 + ws2)[0] == ws1[0];
      assert (ws1 + ws2)[1..] == ws1[1..] + ws2;
      if ws1[0].value.Ok? {
        ApplyAppend(Put(d, ws1[0].key, ws1[0].value.value), ws1[1..], ws2);
      }
    } else {
      assert ws1 + ws2 == ws2;
    }
  }

  lemma ApplyStop(d: Doc, ws: seq<Write>, k: nat)
    requires k < |ws| && ws[k].value.Err?
    ensures Apply(d, ws[k..]) == (d, Some(ws[k].value.error))
  {
  }

  // ---------------------------------------------------------------------
  // The document

  /** The dictionary the page parsers fill in place. */
  class Document {
    var sections: Doc

    constructor ()
      ensures sections == []
    {
      sections := [];
    }

    /** `parse_page_one(page, doc)` */
    method ParsePageOne(page: string) returns (err: Option<Error>)
      modifies this
      ensures (sections, err) == PageOne(old(sections), page)
    {
      var parts := SplitPageOne(page);
      if parts.Err? {
        return Some(parts.error);
      }
      assert PageOneWrites(parts.value)[0..] == PageOneWrites(parts.value);
      err := WritePageOne(parts.value);
    }

    /** The metadata and the scoreboard, then the rest of page one. */
    method WritePageOne(p: PageOneParts) returns (err: Option<Error>)
      modifies this
      ensures (sections, err) == Apply(old(sections), PageOneWrites(p)[0..])
    {
      ghost var ws := PageOneWrites(p);
      var meta := Metadata.ParseMetadata(p.meta, p.weather);
      if meta.Err? {
        ApplyStop(sections, ws, 0);
        return Some(meta.error);
      }
      ApplyStep(sections, ws, 0);
      sections := Put(sections, "meta", MetaSection(meta.value));
      var board := Scoreboard.ParseScoreboard(p.scoreQuarters);
      if board.Err? {
        ApplyStop(sections, ws, 1);
        return Some(board.error);
      }
      ApplyStep(sections, ws, 1);
      sections := Put(sections, "score_board", ScoreBoardSection(board.value));
      err := WritePageOneTables(p);
    }

    /** The officials, the touchdowns and the field goals of page one. */
    method WritePageOneTables(p: PageOneParts) returns (err: Option<Error>)
      modifies this
      ensures (sections, err) == Apply(old(sections), PageOneWrites(p)[2..])
    {
      ghost var ws := PageOneWrites(p);
      var officials := Officials.ParseOfficials(p.officials);
      ApplyStep(sections, ws, 2);
      sections := Put(sections, "officials", OfficialsSection(officials));
      var touchdowns := ParseTeamTable(p.scoringPlays);
      if touchdowns.Err? {
        ApplyStop(sections, ws, 3);
        return Some(touchdowns.error);
      }
      ApplyStep(sections, ws, 3);
      sections := Put(sections, "touchdowns", RowsSection(touchdowns.value));
      var fieldGoals := ParseTeamTable(p.fieldGoals);
      if fieldGoals.Err? {
        ApplyStop(sections, ws, 4);
        return Some(fieldGoals.error);
      }
      ApplyStep(sections, ws, 4);
      sections := Put(sections, "field_goals", RowsSection(fieldGoals.value));
      ApplyDone(sections, ws);
      return None;
    }

    /** `parse_page_two(page, doc)`, which never raises. */
    method ParsePageTwo(page: string) returns (err: Option<Error>)
      modifies this
      ensures (sections, err) == PageTwo(old(sections), page)
    {
      var groups := TeamStats.ExtractTeamStats(page);
      var stats := TeamStats.ParseTeamStats(groups);
      TeamStats.ExtractedGroupsParse(page);
      ApplyOne(sections, Write("team_stats", Ok(TeamStatsSection(stats.value))));
      sections := Put(sections, "team_stats", TeamStatsSection(stats.value));
      return None;
    }

    /** `parse_page_three(page, doc)` */
    method ParsePageThree(page: string) returns (err: Option<Error>)
      modifies this
      ensures (sections, err) == PageThree(old(sections), page)
    {
      var parts := SplitPageThree(page);
      if parts.Err? {
        return Some(parts.error);
      }
      var stats := ParseIndividualStats(parts.value);
      ApplyOne(sections, Write("individual_stats", Ok(stats)));
      sections := Put(sections, "individual_stats", stats);
      return None;
    }

    /** `parse_page_four(page, doc)` */
    method ParsePageFour(page: string) returns (err: Option<Error>)
      modifies this
      ensures (sections, err) == PageFour(old(sections), page)
    {
      var pieces := Unpack(page, "Defense", 3);
      if pieces.Err? {
        return Some(pieces.error);
      }
      var visitors := ParseRows(pieces.value[1], 13);
      var home := ParseRows(pieces.value[2], 13);
      ApplyOne(sections, Write("defense_stats", Ok(SidesSection(Sides(visitors, home)))));
      sections := Put(sections, "defense_stats", SidesSection(Sides(visitors, home)));
      return None;
    }

    /** `parse_page_five(page, doc)` */
    method ParsePageFive(page: string) returns (err: Option<Error>)
      modifies this
      ensures (sections, err) == PageFive(old(sections), page)
    {
      var pieces := Unpack(page, "How Given", 3);
      if pieces.Err? {
        return Some(pieces.error);
      }
      var visitors := ParseDriveSummary(pieces.value[2]);
      var home := ParseDriveSummary(pieces.value[1]);
      ApplyOne(sections, Write("drives", Ok(SidesSection(Sides(visitors, home)))));
      sections := Put(sections, "drives", SidesSection(Sides(visitors, home)));
      return None;
    }

    /** `parse_last_pages(pages, doc)` of the earlier revision. */
    method ParseLastPages(pages: seq<string>) returns (err: Option<Error>)
      modifies this
      ensures (sections, err) == LastPages(old(sections), pages)
    {
      var lastSections := Split(Join(pages, "\n"), "Participation Report");
      var drives := lastSections[0];
      ghost var writes := LastSections(pages).1;
      ghost var last := [Write("drives", Ok(DriveLogsSection(DriveLogs(Split(drives, "Drive Start")))))];
      ApplyAppend(sections, writes, last);
      if |lastSections| == 3 {
        err := WriteParticipation(lastSections[1], lastSections[2]);
        if err.Some? {
          return;
        }
      }
      var logs := ParseDriveLogs(drives);
      ApplyOne(sections, last[0]);
      sections := Put(sections, "drives", DriveLogsSection(logs));
      return None;
    }

    /** The participation skeleton, then the home side, then the visitors. */
    method WriteParticipation(home: string, visitors: string) returns (err: Option<Error>)
      modifies this
      ensures (sections, err) == Apply(old(sections), ParticipationWrites(home, visitors))
    {
      ghost var ws := ParticipationWrites(home, visitors);
      assert ws[0..] == ws;
      ApplyStep(sections, ws, 0);
      sections := Put(sections, "participation", ParticipationSection(None, None));
      var homeSquad := ParseSquad(home);
      if homeSquad.Err? {
        ApplyStop(sections, ws, 1);
        return Some(homeSquad.error);
      }
      ApplyStep(sections, ws, 1);
      sections := Put(sections, "participation", ParticipationSection(Some(homeSquad.value), None));
      var visitorsSquad := ParseSquad(visitors);
      if visitorsSquad.Err? {
        ApplyStop(sections, ws, 2);
        return Some(visitorsSquad.error);
      }
      ApplyStep(sections, ws, 2);
      sections := Put(sections, "participation",
                      ParticipationSection(Some(homeSquad.value), Some(visitorsSquad.value)));
      ApplyDone(sections, ws);
      return None;
    }
  }

  /** The six tables of page three. */
  method ParseIndividualStats(p: PageThreeParts) returns (stats: Section)
    ensures stats == IndividualStats(p)
  {
    var passingVisitors := ParseRows(p.passingVisitors, 10);
    var passingHome := ParseRows(p.passingHome, 10);
    var rushingVisitors := ParseRows(p.rushingVisitors, 6);
    var rushingHome := ParseRows(p.rushingHome, 6);
    var receivingVisitors := ParseRows(p.receivingVisitors, 6);
    var receivingHome := ParseRows(p.receivingHome, 6);
    stats := IndividualStatsSection(Sides(passingVisitors, passingHome),
                                    Sides(rushingVisitors, rushingHome),
                                    Sides(receivingVisitors, receivingHome));
  }

  /** One drive summary table of page five. */
  method ParseDriveSummary(s: string) returns (rows: seq<Tables.Row>)
    ensures rows == DriveSummary(s)
  {
    var r := Tables.ParseTableData(s, 12, Some(DriveSummaryKeys), Some(11));
    DriveSummaryOk(s);
    rows := r.value;
  }

  /** The loop over `drive_list[1:]`, numbering the drives from 1. */
  method ParseDriveLogs(drives: string) returns (logs: Dict<string, seq<Tables.Row>>)
    ensures logs == DriveLogs(Split(drives, "Drive Start"))
  {
    var driveList := Split(drives, "Drive Start");
    logs := [];
    var index := 1;
    while index < |driveList|
      invariant 1 <= index <= |driveList|
      invariant logs == DriveLogs(driveList[..index])
    {
      var rows := ParseDrive(driveList[index]);
      DriveLogsSnoc(driveList, index);
      logs := Put(logs, DriveKey(index), rows);
      index := index + 1;
    }
    assert driveList[..index] == driveList;
  }

  /** `parse_table_data(s.split("Team")[1], 6)` */
  method ParseTeamTable(s: string) returns (r: Result<seq<Tables.Row>>)
    ensures r == TeamTable(s)
  {
    var pieces := Split(s, "Team");
    if |pieces| < 2 {
      return Err(IndexError);
    }
    var rows := ParseRows(pieces[1], 6);
    return Ok(rows);
  }

  /** `parse_table_data(s, n)` */
  method ParseRows(s: string, n: nat) returns (rows: seq<Tables.Row>)
    requires n > 0
    ensures rows == Rows(s, n)
  {
    var r := Tables.ParseTableData(s, n, None, None);
    Tables.TableDefaults(s, n);
    rows := r.value;
  }

  /** The starter and bench tables of one side's participation report. */
  method ParseSquad(report: string) returns (r: Result<Squad>)
    ensures r == SquadOf(report)
  {
    var pieces := Split(report, "#");
    if |pieces| < 3 {
      return Err(IndexError);
    }
    var starter := ParseRows(SquadHeader + pieces[1], 4);
    var bench := ParseRows(SquadHeader + pieces[2], 4);
    return Ok(Squad(starter, bench));
  }

  /** `parse_drives(drive)` of the earlier revision. */
  method ParseDrive(drive: string) returns (rows: seq<Tables.Row>)
    ensures rows == DriveRows(drive)
  {
    rows := ParseRows(DriveHeader + PlayLog.WithoutHeaderAndFooter(drive), 4);
  }

  // ---------------------------------------------------------------------
  // Drive numbering

  /** The two-digit number of a drive key reads back as the drive's number. */
  lemma DriveNumber(n: nat)
    ensures var digits := ZFill(IntToString(n), 2);
            AllDigits(digits) && DigitsValue(digits) == n
  {
    var s := IntToString(n);
    if |s| < 2 {
      assert s[0] != '+' && s[0] != '-' by {
        assert IsDigit(s[0]);
      }
      DigitsValueLeadingZeros(2 - |s|, s);
    }
  }

  /** Different drives get different keys. */
  lemma DriveKeyInjective(a: nat, b: nat)
    requires DriveKey(a) == DriveKey(b)
    ensures a == b
  {
    DriveNumber(a);
    DriveNumber(b);
    assert DriveKey(a)[6..] == ZFill(IntToString(a), 2);
    assert DriveKey(b)[6..] == ZFill(IntToString(b), 2);
  }

  /** The keys of the first `m` drives. */
  function DriveKeys(m: nat): (ks: seq<string>)
    ensures |ks| == m
  {
    seq(m, k requires 0 <= k < m => DriveKey(k + 1))
  }

  lemma DriveLogsKeys(pieces: seq<string>)
    requires |pieces| >= 1
    ensures Keys(DriveLogs(pieces)) == DriveKeys(|pieces| - 1)
  {
  }

  /** The key of drive `m + 1` is not among the keys of the first `m`. */
  lemma DriveKeyFresh(m: nat)
    ensures DriveKey(m + 1) !in DriveKeys(m)
  {
    var ks := DriveKeys(m);
    if DriveKey(m + 1) in ks {
      var k :| 0 <= k < m && ks[k] == DriveKey(m + 1);
      DriveKeyInjective(k + 1, m + 1);
    }
  }

  /** The drive dictionary of a longer prefix extends that of the shorter one. */
  lemma DriveLogsAppend(pieces: seq<string>, index: nat)
    requires 1 <= index < |pieces|
    ensures DriveLogs(pieces[..index + 1]) ==
            DriveLogs(pieces[..index]) + [(DriveKey(index), DriveRows(pieces[index]))]
  {
    var shorter, longer := pieces[..index], pieces[..index + 1];
    var logs, more := DriveLogs(shorter), DriveLogs(longer);
    var entry := (DriveKey(index), DriveRows(pieces[index]));
    forall k | 0 <= k < |logs| ensures more[k] == logs[k] {
      DriveLogsSame(shorter, longer, k);
    }
    DriveLogsLast(longer);
    SnocEqual(logs, more, entry);
  }

  /** A sequence one longer than `a`, agreeing with it and ending in `x`, is `a + [x]`. */
  lemma SnocEqual<T>(a: seq<T>, b: seq<T>, x: T)
    requires |b| == |a| + 1 && b[|a|] == x
    requires forall k :: 0 <= k < |a| ==> b[k] == a[k]
    ensures b == a + [x]
  {
  }

  /** The last drive is the last piece, under the key of its number. */
  lemma DriveLogsLast(p: seq<string>)
    requires |p| >= 2
    ensures |DriveLogs(p)| == |p| - 1
    ensures DriveLogs(p)[|p| - 2] == (DriveKey(|p| - 1), DriveRows(p[|p| - 1]))
  {
  }

  /** Two lists of pieces that agree at piece `k + 1` agree at drive `k`. */
  lemma DriveLogsSame(p: seq<string>, q: seq<string>, k: nat)
    requires k + 1 < |p| && k + 1 < |q| && p[k + 1] == q[k + 1]
    ensures DriveLogs(p)[k] == DriveLogs(q)[k]
  {
  }

  /** One more drive adds its entry under a key not used before. */
  lemma DriveLogsSnoc(pieces: seq<string>, index: nat)
    requires 1 <= index < |pieces|
    ensures Put(DriveLogs(pieces[..index]), DriveKey(index), DriveRows(pieces[index])) ==
            DriveLogs(pieces[..index + 1])
  {
    var logs, key, rows := DriveLogs(pieces[..index]), DriveKey(index), DriveRows(pieces[index]);
    DriveLogsKeys(pieces[..index]);
    DriveKeyFresh(index - 1);
    assert key !in Keys(logs);
    PutSpec(logs, key, rows);
    DriveLogsAppend(pieces, index);
  }
}
