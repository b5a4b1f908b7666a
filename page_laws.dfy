/** What the page parsers promise: which marker counts make a page parse,
    how the pieces lay out the page, and which sections the document holds
    afterwards. */
module PageLaws {
  import opened Results
  import opened Dicts
  import opened PyText
  import Tables
  import TeamStats
  import Metadata
  import Scoreboard
  import Officials
  import opened Pages

  // ---------------------------------------------------------------------
  // A run of assignments

  /** The assignments made before the first value that raises. */
  function Applied(ws: seq<Write>): seq<(string, Section)>
    decreases |ws|
  {
    if ws == [] || ws[0].value.Err? then []
    else [(ws[0].key, ws[0].value.value)] + Applied(ws[1..])
  }

  /** The error of the first value that raises, if any. */
  function FirstError(ws: seq<Write>): Option<Error>
    decreases |ws|
  {
    if ws == [] then None
    else if ws[0].value.Err? then Some(ws[0].value.error)
    else FirstError(ws[1..])
  }

  /** Assigning one entry first, then the rest. */
  lemma PutAllCons(d: Doc, e: (string, Section), rest: seq<(string, Section)>)
    ensures PutAll(d, [e] + rest) == PutAll(Put(d, e.0, e.1), rest)
  {
    PutAllAppend(d, [e], rest);
    assert [e][..0] == [];
  }

  /** A run of assignments leaves the document as the assignments before
      the first raising value made it, and reports that value's error. */
  lemma {:induction false} ApplySpec(d: Doc, ws: seq<Write>)
    ensures Apply(d, ws) == (PutAll(d, Applied(ws)), FirstError(ws))
    decreases |ws|
  {
    if ws != [] && ws[0].value.Ok? {
      var e := (ws[0].key, ws[0].value.value);
      ApplySpec(Put(d, e.0, e.1), ws[1..]);
      PutAllCons(d, e, Applied(ws[1..]));
    }
  }

  /** Nothing raises exactly when every value is computed, and then every
      assignment is made, in order. */
  lemma {:induction false} FirstErrorNone(ws: seq<Write>)
    ensures FirstError(ws).None? <==> forall k :: 0 <= k < |ws| ==> ws[k].value.Ok?
    ensures FirstError(ws).None? ==>
              |Applied(ws)| == |ws| &&
              forall k :: 0 <= k < |ws| ==> Applied(ws)[k] == (ws[k].key, ws[k].value.value)
    decreases |ws|
  {
    if ws != [] {
      FirstErrorNone(ws[1..]);
      if ws[0].value.Ok? {
        forall k | 1 <= k < |ws| ensures ws[k] == ws[1..][k - 1] { }
      }
    }
  }

  /** After a run that raised nothing, a key assigned once holds its value. */
  lemma AppliedGet(d: Doc, ws: seq<Write>, k: nat)
    requires FirstError(ws).None? && k < |ws|
    requires forall j :: 0 <= j < |ws| && j != k ==> ws[j].key != ws[k].key
    ensures ws[k].value.Ok?
    ensures Get(Apply(d, ws).0, ws[k].key) == Some(ws[k].value.value)
  {
    ApplySpec(d, ws);
    FirstErrorNone(ws);
    var entries := Applied(ws);
    assert Keys(entries)[k] == ws[k].key;
    GetPutAll(d, entries, ws[k].key);
    LastValueAt(entries, k);
  }

  /** After a run that raised nothing, with every key assigned once, each
      key holds its value. */
  lemma AppliedGetAll(d: Doc, ws: seq<Write>)
    requires FirstError(ws).None?
    requires forall i, j :: 0 <= i < j < |ws| ==> ws[i].key != ws[j].key
    ensures forall k :: 0 <= k < |ws| ==> ws[k].value.Ok? && Get(Apply(d, ws).0, ws[k].key) == Some(ws[k].value.value)
  {
    forall k | 0 <= k < |ws|
      ensures ws[k].value.Ok? && Get(Apply(d, ws).0, ws[k].key) == Some(ws[k].value.value)
    {
      AppliedGet(d, ws, k);
    }
  }

  /** A key no assignment names keeps its value. */
  lemma {:induction false} ApplyOther(d: Doc, ws: seq<Write>, key: string)
    requires forall j :: 0 <= j < |ws| ==> ws[j].key != key
    ensures Get(Apply(d, ws).0, key) == Get(d, key)
    decreases |ws|
  {
    if ws != [] && ws[0].value.Ok? {
      GetPutOther(d, ws[0].key, ws[0].value.value, key);
      forall j | 0 <= j < |ws[1..]| ensures ws[1..][j].key != key {
        assert ws[1..][j] == ws[j + 1];
      }
      ApplyOther(Put(d, ws[0].key, ws[0].value.value), ws[1..], key);
    }
  }

  /** An assignment leaves every other key alone. */
  lemma PutKeepsOthers(d: Doc, key: string, v: Section)
    ensures Get(Put(d, key, v), key) == Some(v)
    ensures forall other :: other != key ==> Get(Put(d, key, v), other) == Get(d, other)
  {
    PutSpec(d, key, v);
    forall other | other != key ensures Get(Put(d, key, v), other) == Get(d, other) {
      GetPutOther(d, key, v, other);
    }
  }

  /** A single assignment that cannot raise. */
  lemma ApplyPut(d: Doc, key: string, v: Section)
    ensures Apply(d, [Write(key, Ok(v))]) == (Put(d, key, v), None)
    ensures Get(Put(d, key, v), key) == Some(v)
    ensures forall other :: other != key ==> Get(Put(d, key, v), other) == Get(d, other)
  {
    ApplyOne(d, Write(key, Ok(v)));
    PutKeepsOthers(d, key, v);
  }

  // ---------------------------------------------------------------------
  // Page one

  /** A marker split that is unpacked into two names. */
  lemma UnpackTwo(s: string, marker: string)
    requires |marker| > 0 && Unpack(s, marker, 2).Ok?
    ensures var p := Unpack(s, marker, 2).value;
            s == p[0] + marker + p[1] && !Contains(p[0], marker)
  {
    var p := Unpack(s, marker, 2).value;
    assert p == [p[0], p[1]];
    JoinTwo(p[0], p[1], marker);
  }

  /** Five nested two-way splits lay their pieces out left to right. */
  lemma Reassociate(s: string, a: string, r1: string, b: string, r2: string, c: string, r3: string,
                    d: string, r4: string, e: string, f: string,
                    m1: string, m2: string, m3: string, m4: string, m5: string)
    requires s == a + m1 + r1 && r1 == b + m2 + r2 && r2 == c + m3 + r3
    requires r3 == d + m4 + r4 && r4 == e + m5 + f
    ensures s == a + m1 + b + m2 + c + m3 + d + m4 + e + m5 + f
  {
    calc {
      s;
      a + m1 + (b + m2 + (c + m3 + (d + m4 + (e + m5 + f))));
      a + m1 + b + m2 + c + m3 + d + m4 + e + m5 + f;
    }
  }

  /** When page one splits, its pieces and markers make up the page, each
      piece before its marker free of it; when it does not, some marker
      split into a number of pieces other than two. */
  lemma PageOneLayout(page: string)
    ensures SplitPageOne(page).Ok? ==>
              var p := SplitPageOne(page).value;
              page == p.meta + "Score by Quarters" + p.scoreQuarters + "Scoring Plays" + p.scoringPlays +
                      "Field\nGoals" + p.fieldGoals + "Officials" + p.officials + "Weather\n" + p.weather &&
              !Contains(p.meta, "Score by Quarters") && !Contains(p.scoreQuarters, "Scoring Plays") &&
              !Contains(p.scoringPlays, "Field\nGoals") && !Contains(p.fieldGoals, "Officials") &&
              !Contains(p.officials, "Weather\n")
    ensures SplitPageOne(page).Err? ==>
              var e := SplitPageOne(page).error;
              e.UnpackError? && e.expected == 2 && e.got != 2
  {
    var s1 := Unpack(page, "Score by Quarters", 2);
    if s1.Ok? {
      UnpackTwo(page, "Score by Quarters");
      var s2 := Unpack(s1.value[1], "Scoring Plays", 2);
      if s2.Ok? {
        UnpackTwo(s1.value[1], "Scoring Plays");
        var s3 := Unpack(s2.value[1], "Field\nGoals", 2);
        if s3.Ok? {
          UnpackTwo(s2.value[1], "Field\nGoals");
          var s4 := Unpack(s3.value[1], "Officials", 2);
          if s4.Ok? {
            UnpackTwo(s3.value[1], "Officials");
            var s5 := Unpack(s4.value[1], "Weather\n", 2);
            if s5.Ok? {
              UnpackTwo(s4.value[1], "Weather\n");
              assert SplitPageOne(page) ==
                     Ok(PageOneParts(s1.value[0], s2.value[0], s3.value[0], s4.value[0], s5.value[0], s5.value[1]));
              Reassociate(page, s1.value[0], s1.value[1], s2.value[0], s2.value[1], s3.value[0], s3.value[1],
                          s4.value[0], s4.value[1], s5.value[0], s5.value[1],
                          "Score by Quarters", "Scoring Plays", "Field\nGoals", "Officials", "Weather\n");
            }
          }
        }
      }
    }
  }

  /** The keys page one assigns, in order. */
  const PageOneKeys: seq<string> := ["meta", "score_board", "officials", "touchdowns", "field_goals"]

  /** Page one's assignments are to five distinct keys, and the officials
      never raise. */
  lemma PageOneWritesShape(p: PageOneParts)
    ensures var ws := PageOneWrites(p);
            |ws| == 5 && (forall k :: 0 <= k < 5 ==> ws[k].key == PageOneKeys[k]) &&
            ws[2].value == Ok(OfficialsSection(Officials.OfficialsOf(p.officials)))
  {
  }

  /** The five keys are distinct: their first letters are. */
  lemma PageOneKeysDistinct()
    ensures forall i, j :: 0 <= i < j < 5 ==> PageOneKeys[i] != PageOneKeys[j]
  {
    var initials := "msotf";
    assert forall k :: 0 <= k < 5 ==> PageOneKeys[k][0] == initials[k];
  }

  /** After page one's assignments ran without raising, the document holds
      the five sections computed from the pieces. */
  lemma PageOneSections(d: Doc, p: PageOneParts)
    ensures var ws := PageOneWrites(p);
            var r := Apply(d, ws);
            r.1.None? ==>
              forall k :: 0 <= k < 5 ==> ws[k].value.Ok? && Get(r.0, PageOneKeys[k]) == Some(ws[k].value.value)
  {
    var ws := PageOneWrites(p);
    PageOneWritesShape(p);
    PageOneKeysDistinct();
    ApplySpec(d, ws);
    if FirstError(ws).None? {
      AppliedGetAll(d, ws);
    }
  }

  /** Page one assigns only its five sections. */
  lemma PageOneOther(d: Doc, page: string, key: string)
    requires key !in PageOneKeys
    ensures Get(PageOne(d, page).0, key) == Get(d, key)
  {
    var parts := SplitPageOne(page);
    if parts.Ok? {
      PageOneWritesShape(parts.value);
      ApplyOther(d, PageOneWrites(parts.value), key);
    }
  }

  // ---------------------------------------------------------------------
  // Page two

  /** Page two never raises: its statistic groups always parse, and the
      document gains exactly the "team_stats" section. */
  lemma PageTwoTotal(d: Doc, page: string)
    ensures TeamStats.TeamStatsOf(TeamStats.TeamStatGroups(page)).Ok?
    ensures var r := PageTwo(d, page);
            r.1 == None &&
            Get(r.0, "team_stats") == Some(TeamStatsSection(TeamStats.TeamStatsOf(TeamStats.TeamStatGroups(page)).value)) &&
            forall other :: other != "team_stats" ==> Get(r.0, other) == Get(d, other)
  {
    TeamStats.ExtractedGroupsParse(page);
    ApplyPut(d, "team_stats", TeamStatsSection(TeamStats.TeamStatsOf(TeamStats.TeamStatGroups(page)).value));
  }

  // ---------------------------------------------------------------------
  // Pages three to five: three-way splits

  /** A marker split that is unpacked into three names. */
  lemma UnpackThree(s: string, marker: string)
    requires |marker| > 0 && Unpack(s, marker, 3).Ok?
    ensures var p := Unpack(s, marker, 3).value;
            p == Split(s, marker) &&
            s == p[0] + marker + p[1] + marker + p[2] &&
            !Contains(p[0], marker) && !Contains(p[1], marker)
  {
    var p := Unpack(s, marker, 3).value;
    assert p == [p[0], p[1], p[2]];
    JoinThree(p[0], p[1], p[2], marker);
  }

  /** Three nested three-way splits lay their pieces out left to right. */
  lemma ReassociateThree(s: string, a: string, b: string, r1: string, c: string, d: string, r2: string,
                         e: string, f: string, g: string, m1: string, m2: string, m3: string)
    requires s == a + m1 + b + m1 + r1 && r1 == c + m2 + d + m2 + r2 && r2 == e + m3 + f + m3 + g
    ensures s == a + m1 + b + m1 + c + m2 + d + m2 + e + m3 + f + m3 + g
  {
    calc {
      s;
      a + m1 + b + m1 + (c + m2 + d + m2 + (e + m3 + f + m3 + g));
      a + m1 + b + m1 + c + m2 + d + m2 + e + m3 + f + m3 + g;
    }
  }

  /** When page three splits, the text before the first "Passing" is
      dropped and the six tables lie between the markers in the order
      passing visitors, passing home, rushing visitors, rushing home,
      receiving visitors, receiving home. When it does not, some marker
      split into a number of pieces other than three. */
  lemma PageThreeLayout(page: string)
    ensures SplitPageThree(page).Ok? ==>
              var p := SplitPageThree(page).value;
              page == Split(page, "Passing")[0] + "Passing" + p.passingVisitors + "Passing" + p.passingHome +
                      "Rushing" + p.rushingVisitors + "Rushing" + p.rushingHome +
                      "Receiving" + p.receivingVisitors + "Receiving" + p.receivingHome
    ensures SplitPageThree(page).Err? ==>
              var e := SplitPageThree(page).error;
              e.UnpackError? && e.expected == 3 && e.got != 3
  {
    var s1 := Unpack(page, "Passing", 3);
    if s1.Ok? {
      UnpackThree(page, "Passing");
      var s2 := Unpack(s1.value[2], "Rushing", 3);
      if s2.Ok? {
        UnpackThree(s1.value[2], "Rushing");
        var s3 := Unpack(s2.value[2], "Receiving", 3);
        if s3.Ok? {
          UnpackThree(s2.value[2], "Receiving");
          ReassociateThree(page, s1.value[0], s1.value[1], s1.value[2], s2.value[0], s2.value[1], s2.value[2],
                           s3.value[0], s3.value[1], s3.value[2], "Passing", "Rushing", "Receiving");
        }
      }
    }
  }

  /** Page three raises exactly when its splits fail, and then changes
      nothing; otherwise it assigns only "individual_stats". */
  lemma PageThreeResult(d: Doc, page: string)
    ensures var r := PageThree(d, page);
            (r.1.None? <==> SplitPageThree(page).Ok?) &&
            (r.1.Some? ==> r.0 == d && r.1.value.UnpackError?) &&
            (r.1.None? ==>
               Get(r.0, "individual_stats") == Some(IndividualStats(SplitPageThree(page).value)) &&
               forall other :: other != "individual_stats" ==> Get(r.0, other) == Get(d, other))
  {
    PageThreeLayout(page);
    if SplitPageThree(page).Ok? {
      ApplyPut(d, "individual_stats", IndividualStats(SplitPageThree(page).value));
    }
  }

  /** Page four raises exactly when "Defense" does not split it into three
      pieces, and then changes nothing; otherwise the pieces after the first
      marker become the visitors' and the home defense tables, in that order. */
  lemma PageFourResult(d: Doc, page: string)
    ensures var r := PageFour(d, page);
            var pieces := Split(page, "Defense");
            (r.1.None? <==> |pieces| == 3) &&
            (r.1.Some? ==> r == (d, Some(UnpackError(3, |pieces|)))) &&
            (r.1.None? ==>
               page == pieces[0] + "Defense" + pieces[1] + "Defense" + pieces[2] &&
               Get(r.0, "defense_stats") == Some(SidesSection(Sides(Rows(pieces[1], 13), Rows(pieces[2], 13)))) &&
               forall other :: other != "defense_stats" ==> Get(r.0, other) == Get(d, other))
  {
    var pieces := Split(page, "Defense");
    if |pieces| == 3 {
      UnpackThree(page, "Defense");
      ApplyPut(d, "defense_stats", SidesSection(Sides(Rows(pieces[1], 13), Rows(pieces[2], 13))));
    }
  }

  /** Page five raises exactly when "How Given" does not split it into three
      pieces, and then changes nothing; otherwise the piece right after the
      first marker becomes the HOME drive summary and the last piece the
      visitors'. */
  lemma PageFiveResult(d: Doc, page: string)
    ensures var r := PageFive(d, page);
            var pieces := Split(page, "How Given");
            (r.1.None? <==> |pieces| == 3) &&
            (r.1.Some? ==> r == (d, Some(UnpackError(3, |pieces|)))) &&
            (r.1.None? ==>
               page == pieces[0] + "How Given" + pieces[1] + "How Given" + pieces[2] &&
               Get(r.0, "drives") == Some(SidesSection(Sides(DriveSummary(pieces[2]), DriveSummary(pieces[1])))) &&
               forall other :: other != "drives" ==> Get(r.0, other) == Get(d, other))
  {
    var pieces := Split(page, "How Given");
    if |pieces| == 3 {
      UnpackThree(page, "How Given");
      ApplyPut(d, "drives", SidesSection(Sides(DriveSummary(pieces[2]), DriveSummary(pieces[1]))));
    }
  }

  /** The twelve drive-summary column names are distinct. */
  lemma DriveSummaryKeysDistinct()
    ensures Tables.DistinctNames(DriveSummaryKeys, 12)
  {
  }

  /** A drive summary table skips the synthetic "Index" line and the first
      ten lines of its text, then reads rows of twelve cells, each under
      its own column name; a trailing partial row is dropped. */
  lemma DriveSummaryCells(s: string)
    ensures var lines := Split(Strip(s), "\n");
            var rows := DriveSummary(s);
            |rows| == |Drop(lines, 10)| / 12 &&
            forall j, c :: 0 <= j < |rows| && 0 <= c < 12 ==>
              10 + j * 12 + c < |lines| && Get(rows[j], DriveSummaryKeys[c]) == Some(lines[10 + j * 12 + c])
  {
    var lines := Split(Strip(s), "\n");
    DriveSummaryOk(s);
    var ks := DriveSummaryKeys;
    var values := Drop(lines, 10);
    assert DriveSummary(s) == Tables.Table(ks, values, 12).value;
    Tables.TableCount(ks, values, 12);
    DriveSummaryKeysDistinct();
    forall j, c | 0 <= j < |DriveSummary(s)| && 0 <= c < 12
      ensures 10 + j * 12 + c < |lines| && Get(DriveSummary(s)[j], ks[c]) == Some(lines[10 + j * 12 + c])
    {
      Tables.TableCell(ks, values, 12, j, c);
    }
  }

  // ---------------------------------------------------------------------
  // The last pages

  /** The participation section: the empty skeleton stays if the home
      report has fewer than three "#" pieces, the home side alone if the
      visitors' report has; otherwise both sides are filled in. No other
      key changes. */
  lemma ParticipationResult(d: Doc, home: string, visitors: string)
    ensures var r := Apply(d, ParticipationWrites(home, visitors));
            (SquadOf(home).Err? ==>
               r.1 == Some(IndexError) && Get(r.0, "participation") == Some(ParticipationSection(None, None))) &&
            (SquadOf(home).Ok? && SquadOf(visitors).Err? ==>
               r.1 == Some(IndexError) &&
               Get(r.0, "participation") == Some(ParticipationSection(Some(SquadOf(home).value), None))) &&
            (SquadOf(home).Ok? && SquadOf(visitors).Ok? ==>
               r.1 == None &&
               Get(r.0, "participation") ==
                 Some(ParticipationSection(Some(SquadOf(home).value), Some(SquadOf(visitors).value)))) &&
            forall other :: other != "participation" ==> Get(r.0, other) == Get(d, other)
  {
    var ws := ParticipationWrites(home, visitors);
    assert ws[0..] == ws;
    ApplyStep(d, ws, 0);
    var d1 := Put(d, "participation", ParticipationSection(None, None));
    PutKeepsOthers(d, "participation", ParticipationSection(None, None));
    if SquadOf(home).Err? {
      ApplyStop(d1, ws, 1);
    } else {
      var h := SquadOf(home).value;
      ApplyStep(d1, ws, 1);
      var d2 := Put(d1, "participation", ParticipationSection(Some(h), None));
      PutKeepsOthers(d1, "participation", ParticipationSection(Some(h), None));
      if SquadOf(visitors).Err? {
        ApplyStop(d2, ws, 2);
      } else {
        var v := SquadOf(visitors).value;
        ApplyStep(d2, ws, 2);
        PutKeepsOthers(d2, "participation", ParticipationSection(Some(h), Some(v)));
        ApplyDone(Put(d2, "participation", ParticipationSection(Some(h), Some(v))), ws);
      }
    }
  }

  /** The last pages: the participation section is touched exactly when
      "Participation Report" cuts the joined pages into three parts, the
      only error is a report with fewer than three "#" pieces, and on
      success "drives" holds the numbered drives cut from the first part. */
  lemma LastPagesResult(d: Doc, pages: seq<string>)
    ensures var parts := Split(Join(pages, "\n"), "Participation Report");
            var r := LastPages(d, pages);
            (r.1.Some? <==> |parts| == 3 && (|Split(parts[1], "#")| < 3 || |Split(parts[2], "#")| < 3)) &&
            (r.1.Some? ==> r.1 == Some(IndexError) && Get(r.0, "drives") == Get(d, "drives")) &&
            (|parts| == 3 ==> "participation" in Keys(r.0)) &&
            (|parts| != 3 ==> Get(r.0, "participation") == Get(d, "participation")) &&
            (r.1.None? ==> Get(r.0, "drives") == Some(DriveLogsSection(DriveLogs(Split(parts[0], "Drive Start")))))
  {
    var parts := Split(Join(pages, "\n"), "Participation Report");
    var writes := LastSections(pages).1;
    var last := [Write("drives", Ok(DriveLogsSection(DriveLogs(Split(parts[0], "Drive Start")))))];
    ApplyAppend(d, writes, last);
    var m := Apply(d, writes);
    if |parts| == 3 {
      ParticipationResult(d, parts[1], parts[2]);
    } else {
      assert m == (d, None);
    }
    if m.1.None? {
      ApplyPut(m.0, "drives", last[0].value.value);
    }
  }

  /** The drives are stored under distinct keys "Drive 01", "Drive 02",
      ..., one per piece after the first. */
  lemma DriveLogsUnique(pieces: seq<string>)
    requires |pieces| >= 1
    ensures Keys(DriveLogs(pieces)) == DriveKeys(|pieces| - 1)
    ensures UniqueKeys(DriveLogs(pieces))
  {
    var logs := DriveLogs(pieces);
    DriveLogsKeys(pieces);
    forall i, j | 0 <= i < j < |logs| ensures logs[i].0 != logs[j].0 {
      if logs[i].0 == logs[j].0 {
        DriveKeyInjective(i + 1, j + 1);
      }
    }
  }

  /** Drive `k` holds the table of the `k`-th piece after the first marker. */
  lemma DriveLogsGet(pieces: seq<string>)
    requires |pieces| >= 1
    ensures forall k :: 1 <= k < |pieces| ==> Get(DriveLogs(pieces), DriveKey(k)) == Some(DriveRows(pieces[k]))
  {
    var logs := DriveLogs(pieces);
    DriveLogsUnique(pieces);
    forall k | 1 <= k < |pieces| ensures Get(logs, DriveKey(k)) == Some(DriveRows(pieces[k])) {
      GetUnique(logs, k - 1);
    }
  }

  /** Drive numbers are padded to two digits. */
  lemma DriveKeyPadding()
    ensures DriveKey(1) == "Drive 01"
    ensures DriveKey(12) == "Drive 12"
  {
    assert IntToString(1) == "1";
    assert IntToString(12) == IntToString(1) + "2";
  }

  /** The column names of a drive's plays. */
  const PlayColumns: seq<string> := ["Index", "Down&Distance", "YardLine", "Details"]

  /** A newline-free line followed by nothing or a newline is the first
      piece of the split. */
  lemma FirstLine(z: string, rest: string)
    requires '\n' !in z
    requires rest == [] || rest[0] == '\n'
    ensures Split(z + rest, "\n")[0] == z
  {
    if rest == [] {
      assert z + rest == z;
      SplitNone(z, '\n');
    } else {
      assert z + rest == z + ['\n'] + rest[1..];
      SplitAfter(z, '\n', rest[1..]);
    }
  }

  /** Three newline-free lines, then nothing or a newline: the split
      starts with the three lines. */
  lemma SplitLeadingLines(x: string, y: string, z: string, rest: string)
    requires '\n' !in x && '\n' !in y && '\n' !in z
    requires rest == [] || rest[0] == '\n'
    ensures var lines := Split(x + ['\n'] + (y + ['\n'] + (z + rest)), "\n");
            |lines| >= 3 && lines[..3] == [x, y, z]
  {
    SplitAfter(x, '\n', y + ['\n'] + (z + rest));
    SplitAfter(y, '\n', z + rest);
    FirstLine(z, rest);
  }

  /** Stripping a text that starts with a solid block and then a newline
      keeps the block, followed by nothing or by a newline. */
  lemma StripNewlineTail(a: string, clean: string) returns (rest: string)
    requires a != [] && !IsSpace(a[0]) && !IsSpace(a[|a| - 1])
    ensures Strip(a + ("\n" + clean)) == a + rest
    ensures rest == [] || rest[0] == '\n'
  {
    StripFromSolidStart(a, "\n" + clean);
    RStripAppend("\n", clean);
    rest := if AllSpace("\n" + clean) then [] else RStrip("\n" + clean);
  }

  /** The stripped lines of a drive table's text start with the three
      column names put in front of it. */
  lemma DriveHeaderLines(clean: string)
    ensures var lines := Split(Strip(DriveHeader + clean), "\n");
            |lines| >= 3 && lines[..3] == ["Down&Distance", "YardLine", "Details"]
  {
    var x, y, z := "Down&Distance", "YardLine", "Details";
    var a := x + ['\n'] + (y + ['\n'] + z);
    assert DriveHeader + clean == a + ("\n" + clean);
    var rest := StripNewlineTail(a, clean);
    assert a + rest == x + ['\n'] + (y + ['\n'] + (z + rest));
    SplitLeadingLines(x, y, z, rest);
  }

  /** When the first `n` data lines of a table are distinct, every record
      has exactly those lines as its keys, in order. */
  lemma DefaultColumns(s: string, n: nat)
    requires n > 0 && n <= |Tables.DataLines(s)|
    requires Tables.DistinctNames(Tables.DataLines(s), n)
    ensures forall j :: 0 <= j < |Rows(s, n)| ==> Keys(Rows(s, n)[j]) == Tables.DataLines(s)[..n]
  {
    var data := Tables.DataLines(s);
    var ks := Tables.TableKeys(data, n, None, None);
    var values := Tables.TableValues(data, n, None);
    assert ks == data[..n];
    Tables.TableDefaults(s, n);
    var rows := Rows(s, n);
    assert rows == Tables.Records(ks, Tables.Groups(values, n));
    forall j | 0 <= j < |rows| ensures Keys(rows[j]) == ks {
      var cells := Tables.Groups(values, n)[j];
      Tables.GroupRecordExact(ks, cells);
    }
  }

  /** Every record of a drive table has exactly the four play columns. */
  lemma DriveRowsColumns(drive: string)
    ensures forall j :: 0 <= j < |DriveRows(drive)| ==> Keys(DriveRows(drive)[j]) == PlayColumns
  {
    var text := DriveHeader + PlayLog.WithoutHeaderAndFooter(drive);
    DriveHeaderLines(PlayLog.WithoutHeaderAndFooter(drive));
    var data := Tables.DataLines(text);
    assert data[..4] == PlayColumns;
    DefaultColumns(text, 4);
  }

  /** Two newline-free lines, then the rest: the split starts with the two
      lines and continues with the first line of the rest. */
  lemma TwoLeadingLines(x: string, y: string, t: string)
    requires '\n' !in x && '\n' !in y
    ensures var lines := Split(x + ['\n'] + (y + ['\n'] + t), "\n");
            |lines| >= 3 && lines[..2] == [x, y] && lines[2] == Split(t, "\n")[0]
  {
    SplitAfter(x, '\n', y + ['\n'] + t);
    SplitAfter(y, '\n', t);
  }

  /** Stripping a text that starts with a solid block keeps the block. */
  lemma StripSolidHead(a: string, b: string) returns (rest: string)
    requires a != [] && !IsSpace(a[0]) && !IsSpace(a[|a| - 1])
    ensures Strip(a + b) == a + rest
  {
    StripFromSolidStart(a, b);
    rest := if AllSpace(b) then [] else RStrip(b);
  }

  /** The stripped lines of a participation table's text start with
      "Last Name" and "Position", then a line that is empty or starts with
      the "#" put in front of the piece. */
  lemma SquadHeaderLines(piece: string)
    ensures var lines := Split(Strip(SquadHeader + piece), "\n");
            |lines| >= 3 && lines[..2] == ["Last Name", "Position"] &&
            (lines[2] == [] || lines[2][0] == '#')
  {
    var x, y := "Last Name", "Position";
    var a := x + ['\n'] + (y + ['\n'] + "#");
    assert SquadHeader == a;
    var rest := StripSolidHead(a, piece);
    var t := "#" + rest;
    assert a + rest == x + ['\n'] + (y + ['\n'] + t);
    TwoLeadingLines(x, y, t);
    SplitFirstIsPrefix(t, "\n");
  }

  /** The column names of a participation table: "Index", "Last Name",
      "Position", then the "#" line. */
  lemma SquadColumns(piece: string)
    ensures var data := Tables.DataLines(SquadHeader + piece);
            |data| >= 4 && data[..3] == ["Index", "Last Name", "Position"] &&
            forall j :: 0 <= j < |Rows(SquadHeader + piece, 4)| ==>
              Keys(Rows(SquadHeader + piece, 4)[j]) == data[..4]
  {
    var data := Tables.DataLines(SquadHeader + piece);
    SquadHeaderLines(piece);
    var f := data[3];
    assert f == [] || f[0] == '#';
    assert Tables.DistinctNames(data, 4) by {
      assert data[0] == "Index" && data[1] == "Last Name" && data[2] == "Position";
      assert f != "Index" && f != "Last Name" && f != "Position" by {
        if f != [] {
          assert "Index"[0] != '#' && "Last Name"[0] != '#' && "Position"[0] != '#';
        }
      }
    }
    DefaultColumns(SquadHeader + piece, 4);
  }
}
