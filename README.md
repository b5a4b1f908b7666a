# gamebook-extractor parsing core in Dafny

This project models the parsing engine of gamebook-extractor. The engine
turns the linearised text of an American-football gamebook into a document
dictionary. It builds that dictionary from the following parts:

- **Metadata.** League, date, stadium, weather and wind.
- **Quarter scoreboard.** One record per side.
- **Officials.** Each title mapped to its name.
- **Scoring tables.** Touchdowns and field goals.
- **Team statistics.** Grouped label/value lines.
- **Individual statistics.** Passing, rushing, receiving and defense tables.
- **Drive summaries.** One table per side.
- **Participation report.** Starters and bench per side.
- **Play-by-play drive logs.**

All text is a `seq<char>`. The Python string primitives the engine relies on
are written out over ASCII in `PyText`:

- `str.split` with a separator keeps empty pieces and splits left to right without overlap;
- `join` and `strip`;
- slicing with clamped bounds;
- `int()` as an optional sign followed by decimal digits;
- `zfill`, `lower` and `capitalize`.

A Python dict is an insertion-ordered sequence of pairs (`Dicts`). `Put`
overwrites an existing key in place and appends a new one.

An exception becomes an `Err` of `Results.Error`:

- `IndexError` for a list index out of range;
- `ValueError` for `int()` on text that is not an integer;
- `UnpackError(expected, got)` for unpacking a marker split that has the wrong number of pieces.

Modules follow the program's structure:

- `Classifier` is `_is_letter_dominant`.
- `Tables` is `parse_table_data`. The method `FoldCells` keeps the source's
  loop over `current_record` and `records`, and is proved against the
  function `Table`.
- `Scoreboard`, `Metadata` and `Officials` are the fixed-position block
  parsers. `Metadata.ApplyMetaLines`, `Metadata.ApplyWeatherLines` and
  `Officials.ParseOfficials` keep the source's loops.
- `TeamStats` is `extract_team_stats` and `parse_team_stats`. Both are loops
  proved against the functions `TeamStatGroups` and `TeamStatsOf`.
- `PlayLog` is the line-based play tokenizer `process_game_log`. It also
  holds the boilerplate trimmers and the current revision's `parse_drives`.
  The tokenizer's `while` loop is `ProcessGameLog`, and one pass of it is
  the function `Step`.
- `PlayEvent` is the `GameEvent` record with its field validators and
  `dump_model`.
- `Pages` holds the page parsers. The document is a class, `Pages.Document`,
  whose field `sections` the page methods update in place. Each method is
  proved equal to a function of the old sections, and `PageLaws` states what
  those functions promise.

Both revisions of the script share the same helpers, and those helpers are
modelled once. The table rows below cite the current revision
(src/scouter.py) for the shared helpers. The earlier revision (scouter.py)
is cited for the parts only it has: its table-based `parse_drives` and the
drive numbering of `parse_last_pages`.

Several behaviours are modelled as the code is written, which is not always
what its comments say:

- `remove_play_by_play_summary` also drops the line after a marker
  (`PlayLog.SummaryDropsNeighbours`), and `pop()` raises IndexError when a
  marker arrives while nothing is kept, for instance with markers on lines 1
  and 3 (`PlayLog.SummaryPopsEmpty`).
- `extract_team_stats` never emits its last open group (`TeamStats.TeamStatGroupsShape`).
- The `"Yard Line"` guard in `process_game_log` tests a key that is never
  written, so it always holds (`PlayLog.OpenKeys`).
- A group that starts without a team code never completes (`PlayLog.StuckWithoutTeam`).
- The tokenizer takes any `@` line as a yard line, which `GameEvent` can
  reject (`PlayEvent.UncheckedYardLine`).
- `parse_page_five` stores the first piece after "How Given" as home.
- The participation report is parsed only when "Participation Report"
  splits the joined pages into exactly three parts.
- The last pages overwrite the `"drives"` section that page five wrote.

## Model

| member | source | states |
|---|---|---|
| Classifier.CountsPartition | src/scouter.py:40-45 | letters, digits and other characters of a line partition its length |
| Classifier.IsLetterDominant | src/scouter.py:40-45 | true exactly when letters outnumber digits plus non-alphanumerics, equivalently when letters are more than half the line |
| Classifier.TiesAndEmpty | src/scouter.py:40-45 | a tie ("AB12") and the empty line are not letter-dominant; "AB1" is |
| Tables.ParseTableData | src/scouter.py:452-494 | the method's result equals the table function `TableData` of the input, keys and offset |
| Tables.FoldCells | src/scouter.py:482-494 | the record-filling loop yields exactly `Table(keys, values, n)`: IndexError when a cell falls past the key list, otherwise one record per complete group |
| Tables.TableDefaults | src/scouter.py:474-480 | with keys and offset left out the table never fails and key 0 is "Index" |
| Tables.TableCount | src/scouter.py:482-494 | a successful table has exactly floor(len(values)/n) records, so a trailing partial group is dropped |
| Tables.TableCell | src/scouter.py:487-490 | record j maps keys[p] to values[j*n+p], given no later column reuses that key name |
| Tables.TableFails | src/scouter.py:487-489 | the table fails if and only if some value's column index `index % n` is beyond the key list |
| Tables.GroupsCount | src/scouter.py:487-492 | folding cells into groups of n gives floor(len/n) groups covering a prefix of the cells |
| Tables.GroupAt | src/scouter.py:487-492 | group j is exactly the cells j*n to j*n+n |
| Tables.DataLinesSplit | src/scouter.py:474 | the data lines are "Index" followed by the lines of the stripped input |
| Scoreboard.ScoresOk | src/scouter.py:218 | the six scores of a side parse if and only if each of the six lines is an integer |
| Scoreboard.ScoreValue | src/scouter.py:218 | score i is `int()` of line from+i |
| Scoreboard.Headers | src/scouter.py:210 | the headers are the first six lines (fewer if the block is shorter), each stripped |
| Scoreboard.ScoreboardOk | src/scouter.py:207-239 | the parse succeeds iff lines 8-13 and 16-21 are integers; then there are at least 22 lines and the result is exactly [Visitor record with team line 7, Home record with team line 15] |
| Scoreboard.ScoreboardScores | src/scouter.py:207-239 | header i maps to int(line 8+i) in the Visitor record and int(line 16+i) in the Home record |
| Scoreboard.SideRecordNames | src/scouter.py:220-224 | a side's record holds its side name and its stripped team name |
| Scoreboard.SideRecordScore | src/scouter.py:220-224 | a side's record maps header i to score i, given no later header has the same name |
| Scoreboard.SeparatorsIgnored | src/scouter.py:214-230 | lines 6 and 14 do not influence the result |
| Metadata.ParseMetadata | src/scouter.py:242-271 | the method's result equals the function `MetadataOf` of the two blocks |
| Metadata.ApplyMetaLines | src/scouter.py:249-254 | the meta loop stores every `key: value` line in order, later keys overwriting earlier ones |
| Metadata.ApplyWeatherLines | src/scouter.py:257-269 | the weather loop stores each entry, splits Temp into Temp and Wind, and fails as soon as a Temp value does not split in two |
| Metadata.WeatherFails | src/scouter.py:263-267 | the weather block fails if and only if some Temp line's value does not split on ", Wind:" into exactly two pieces |
| Metadata.WeatherWins | src/scouter.py:257-269 | a key the weather block sets has its last weather value |
| Metadata.MetaKeys | src/scouter.py:249-254 | a key set only by the meta block has its last meta value |
| Metadata.League | src/scouter.py:246-247 | League is the first stripped meta line unless a later line overwrites it |
| Officials.ParseOfficials | src/scouter.py:184-204 | the loop over lines equals the function `OfficialsOf`, carrying the current title as the last title seen |
| Officials.TitleBeforeSpec | src/scouter.py:192-196 | the current title is None iff no earlier line is a title, otherwise it is the title of the nearest earlier title line |
| Officials.NoneKey | src/scouter.py:200-202 | a None key appears iff the first line is not a title |
| Officials.KeysAreTitles | src/scouter.py:192-202 | every named key is the title of some title line |
| Officials.NameUnderTitle | src/scouter.py:200-202 | the last stripped line under a title is its name, when the title is not reused later |
| Officials.HeadOfStatisticsUnnamed | src/scouter.py:198-199 | "Head of Statistics" with no name line below maps to None |
| Officials.TitleWithoutName | src/scouter.py:192-202 | any other title with no name line below gets no entry |
| TeamStats.ExtractTeamStats | src/scouter.py:274-293 | the grouping loop equals the function `TeamStatGroups` |
| TeamStats.StatLines | src/scouter.py:275-277 | the lines considered are the stripped lines after the first eight |
| TeamStats.GroupingFlatten | src/scouter.py:278-291 | the closed groups followed by the open group are exactly the lines, in order |
| TeamStats.GroupingShape | src/scouter.py:278-291 | every group after the first starts with a letter-dominant line followed only by other lines; the open group is empty iff there are no lines |
| TeamStats.TeamStatGroupsShape | src/scouter.py:274-293 | the emitted groups are the closed groups, so the final open group is never emitted |
| TeamStats.ParseTeamStats | src/scouter.py:296-317 | the record loop equals the function `TeamStatsOf` |
| TeamStats.TeamStatsFails | src/scouter.py:299-300 | parsing fails iff some group is empty |
| TeamStats.TeamStatsFields | src/scouter.py:299-315 | record j has Statistic = capitalize(lower(entry[0])) and Visitor/Home = entry[1]/entry[2] or None, both None when there is only one record |
| TeamStats.ExtractedGroupsParse | src/scouter.py:274-317 | the groups extracted from any text always parse |
| PlayLog.TeamCodeOf | src/scouter.py:387-397 | the code read from a team line is two uppercase letters |
| PlayLog.CleanEntrySpec | src/scouter.py:415-417 | cleaning removes only a trailing whitespace-separated two-letter code, and nothing otherwise |
| PlayLog.Classify | src/scouter.py:405-432 | one classification never moves the index backwards or past the log |
| PlayLog.Step | src/scouter.py:392-438 | one pass of the loop advances the index by one or two, staying within the log |
| PlayLog.DefaultDown | src/scouter.py:402-403 | an `@` line arriving before any down-and-distance inserts exactly "0&0" under Down&Distance; a group that already has one is left unchanged |
| PlayLog.OpenKeys | src/scouter.py:410-414 | an open group never holds the key "Yard Line", so that guard always holds; three keys means Index, Down&Distance, YardLine |
| PlayLog.StepKeeps | src/scouter.py:392-438 | a pass keeps the group well-formed; it emits a play exactly when Index, Down&Distance and YardLine are set and the line is not an `@` line, and the play is the group plus its Details |
| PlayLog.StepTests | src/scouter.py:402-438 | the branches of a pass without a team line: which one completes a play, and that other groups stay open |
| PlayLog.DetailsPlay | src/scouter.py:414-432 | the details are the cleaned entry, with the next free-text line appended after one space |
| PlayLog.RunPlays | src/scouter.py:390-441 | every emitted record is a play: exactly the keys Index, Down&Distance, YardLine, Details in that order, a two-letter team code, a digits&digits down, a yard line starting with `@` |
| PlayLog.StuckWithoutTeam | src/scouter.py:396-438 | a group started without a team code never completes, so nothing more is emitted |
| PlayLog.SkippedBeforeTeam | src/scouter.py:393-438 | before a team line, a line that is no team code, down or `@` line is skipped |
| PlayLog.ClassifyDown | src/scouter.py:405-431 | the three tests either store the stripped line read, of the form digits&digits, as Down&Distance or leave Down&Distance as it was |
| PlayLog.StepDown | src/scouter.py:392-438 | after one pass the open group's Down&Distance, and the emitted play's, is "0&0" or a digits&digits stripped line of the log |
| PlayLog.RunDowns | src/scouter.py:390-441 | every emitted play's Down&Distance is "0&0" or a digits&digits stripped line of the log |
| PlayLog.ProcessGameLog | src/scouter.py:383-441 | the while loop equals the function `GameLog`; every record it emits is a play whose Down&Distance is "0&0" or a digits&digits stripped line of the log |
| PlayLog.ClassifyLine | src/scouter.py:405-432 | the branch chain of one pass equals the function `Classify` |
| PlayLog.RemovePlayByPlaySummary | src/scouter.py:320-340 | the push/pop loop equals the function `WithoutSummary` |
| PlayLog.NoSummaryUnchanged | src/scouter.py:320-340 | text without a marker line after the first line is returned unchanged |
| PlayLog.SummaryClean | src/scouter.py:326-338 | every kept line is a line of the input and, except possibly the first line, contains no marker |
| PlayLog.SummaryDropsNeighbours | src/scouter.py:331-335 | for any lines, a line that is not a marker (or is line 0) followed by a marker line is dropped together with the marker and the line after it: the result equals reading on three lines later with nothing kept from them |
| PlayLog.SummaryPopsEmpty | src/scouter.py:331-335 | for any text with markers on lines 1 and 3, the first marker pops line 0 and the second finds the kept list empty, so `pop()` raises IndexError |
| PlayLog.HeaderAndFooterLines | src/scouter.py:343-352 | exactly lines[8:-8] of the stripped drive remain, and nothing with sixteen lines or fewer |
| PlayLog.ParseDrives | src/scouter.py:444-449 | the current parse_drives equals `DrivePlays` and yields only plays |
| PlayLog.MergeListsItems | src/scouter.py:591-595 | merging has the length of the shorter list and item k is strip(a[k]) + " " + strip(b[k]) |
| PlayLog.MergedSplit | src/scouter.py:591-595 | a merged item splits back into its two stripped halves when the first has no space |
| PlayEvent.ValidatePossession | src/models/PlayEvent.py:13-17 | accepted iff two uppercase letters (with Python's tolerated trailing newline); the value is returned unchanged; otherwise a possession error |
| PlayEvent.ValidateDownAndDistance | src/models/PlayEvent.py:19-23 | accepted iff empty or digits&digits; returned unchanged; otherwise a down-and-distance error |
| PlayEvent.ValidateYardLine | src/models/PlayEvent.py:25-31 | accepted iff empty or "@ " then uppercase letters then digits; returned unchanged; otherwise a yard-line error |
| PlayEvent.ScanYardShape | src/models/PlayEvent.py:27 | the character scanner agrees with the yard-line pattern |
| PlayEvent.ScanDownShape | src/models/PlayEvent.py:21 | the character scanner agrees with the down-and-distance pattern |
| PlayEvent.AnchoredMatches | src/models/PlayEvent.py:13-31 | `$` in a match also accepts one trailing newline |
| PlayEvent.Errors | src/models/PlayEvent.py:7-31 | the collected errors are exactly those of the rejected fields |
| PlayEvent.Construct | src/models/PlayEvent.py:7-31 | a record is valid iff all three validators accept, with the given fields; otherwise each failing field's error is reported |
| PlayEvent.DumpModel | src/models/PlayEvent.py:33-39 | exactly the four keys Index, Down&Distance, YardLine, Details in order, mapped from possession, down, yard line and details |
| PlayEvent.PlayValidates | src/models/PlayEvent.py:7-39 | a tokenized play always passes the possession and down checks, is valid iff its yard line matches, and then dumps back to itself |
| PlayEvent.PlayOf | src/models/PlayEvent.py:7-39 | four fields with the tokenizer's guarantees form a play whose record is `Construct` of them |
| PlayEvent.UncheckedYardLine | src/models/PlayEvent.py:25-31 | the tokenized play NE / 1&10 / "@NE35" is rejected, with only a yard-line error |
| Pages.Unpack | scouter.py:264-268 | unpacking succeeds iff the split has exactly the expected count of pieces; the pieces then rejoin to the text and hold no marker, otherwise the error is UnpackError(expected, got) |
| Pages.DriveSummaryOk | scouter.py:325-344 | a drive summary table with its explicit 12 keys and offset 11 never fails, and its cells are the stripped section lines after the first ten |
| Pages.ApplyAppend | scouter.py:263-390 | writing two write lists in a row is writing the first and, if it raised nothing, then the second |
| Pages.Document.constructor | scouter.py:263 | a new document has no sections |
| Pages.Document.ParsePageOne | scouter.py:263-275 | the document's new sections and the error are `PageOne` of the old sections and the page |
| Pages.Document.WritePageOne | scouter.py:271-275 | the five page-one writes are applied in order, stopping at the first that raises |
| Pages.Document.WritePageOneTables | scouter.py:273-275 | the scoring-table writes are applied in order, stopping at the first that raises |
| Pages.Document.ParsePageTwo | scouter.py:278-281 | the new sections are `PageTwo` of the old sections and the page |
| Pages.Document.ParsePageThree | scouter.py:284-309 | the new sections and the error are `PageThree` of the old sections and the page |
| Pages.Document.ParsePageFour | scouter.py:312-318 | the new sections and the error are `PageFour` of the old sections and the page |
| Pages.Document.ParsePageFive | scouter.py:321-346 | the new sections and the error are `PageFive` of the old sections and the page |
| Pages.Document.ParseLastPages | scouter.py:349-390 | the new sections and the error are `LastPages` of the old sections and the pages |
| Pages.Document.WriteParticipation | scouter.py:350-381 | the participation writes for both sides are applied in order, stopping at the first that raises |
| Pages.ParseIndividualStats | scouter.py:289-309 | the six tables of page three equal `IndividualStats` of its pieces |
| Pages.ParseDriveSummary | scouter.py:337-344 | the drive summary table equals `DriveSummary` |
| Pages.ParseDriveLogs | scouter.py:383-388 | the numbering loop builds exactly `DriveLogs` of the "Drive Start" pieces |
| Pages.ParseTeamTable | scouter.py:272-273 | the scoring table method equals `TeamTable`, with IndexError when "Team" is missing |
| Pages.ParseRows | scouter.py:289-318 | the n-column table method equals `Rows` |
| Pages.ParseSquad | scouter.py:356-381 | the starter and bench tables of a report equal `SquadOf`, IndexError when fewer than three "#" pieces |
| Pages.ParseDrive | scouter.py:207-210 | the earlier parse_drives equals `DriveRows` |
| Pages.DriveNumber | scouter.py:388 | the zero-padded drive number is all digits and reads back as the number |
| Pages.DriveKeyInjective | scouter.py:388 | different drive numbers give different keys |
| Pages.DriveLogsKeys | scouter.py:387-388 | the drive keys are Drive 01 to Drive m for m pieces after the first |
| Pages.DriveKeyFresh | scouter.py:387-388 | the next drive's key is not among the earlier keys |
| Pages.DriveLogsSnoc | scouter.py:387-388 | storing drive k after drives 1..k-1 appends it as a new entry |
| PageLaws.ApplySpec | scouter.py:263-390 | applying writes stores every write before the first raising one and reports that write's error |
| PageLaws.FirstErrorNone | scouter.py:263-390 | no error is reported iff every write succeeds, and then all writes are stored |
| PageLaws.AppliedGet | scouter.py:263-390 | after error-free writes, a key written once holds its value |
| PageLaws.ApplyOther | scouter.py:263-390 | a key no write names is left unchanged |
| PageLaws.ApplyPut | scouter.py:263-390 | a single successful write stores its value and leaves every other key alone |
| PageLaws.PageOneLayout | scouter.py:263-268 | page one splits iff each marker yields two pieces; the page is then the five pieces joined by their markers with no marker inside, otherwise UnpackError(2, got) |
| PageLaws.PageOneWritesShape | scouter.py:270-275 | page one writes meta, score_board, officials, touchdowns, field_goals in this order, and officials never fails |
| PageLaws.PageOneSections | scouter.py:270-275 | without an error each of the five sections holds its parsed value |
| PageLaws.PageOneOther | scouter.py:263-275 | page one changes no other key |
| PageLaws.PageTwoTotal | scouter.py:278-281 | page two never raises, stores team_stats and changes no other key |
| PageLaws.PageThreeLayout | scouter.py:285-287 | page three splits iff Passing, Rushing and Receiving each yield three pieces; the page is then the pieces joined by their markers, otherwise UnpackError(3, got) |
| PageLaws.PageThreeResult | scouter.py:284-309 | page three fails iff the split fails, leaving the document unchanged; otherwise individual_stats is stored and nothing else changes |
| PageLaws.PageFourResult | scouter.py:312-318 | page four fails iff "Defense" does not give three pieces, leaving the document unchanged; otherwise defense_stats holds visitors from piece 1 and home from piece 2, 13 columns each |
| PageLaws.PageFiveResult | scouter.py:321-346 | page five fails iff "How Given" does not give three pieces; otherwise drives holds visitors from piece 2 and home from piece 1 |
| PageLaws.DriveSummaryCells | scouter.py:337-344 | the summary has one row per twelve lines after the first ten, and row j maps key c to line 10+12j+c |
| PageLaws.ParticipationResult | scouter.py:350-381 | home's "#" split failing raises IndexError with nothing stored for either side; visitors failing keeps home only; otherwise both sides are stored; no other key changes |
| PageLaws.LastPagesResult | scouter.py:349-390 | the last pages fail iff there are three parts and a report has fewer than three "#" pieces; participation is written only with three parts; on success drives holds the drive logs of the first part |
| PageLaws.DriveLogsUnique | scouter.py:383-388 | the drive keys are Drive 01.. in order, each once |
| PageLaws.DriveLogsGet | scouter.py:383-388 | Drive k holds the rows of the k-th piece after the first; the first piece is discarded |
| PageLaws.DriveKeyPadding | scouter.py:388 | drive keys are zero-padded to two digits ("Drive 01", "Drive 12") |
| PageLaws.DriveRowsColumns | scouter.py:207-210 | every row of a drive has exactly the keys Index, Down&Distance, YardLine, Details |
| PageLaws.SquadColumns | scouter.py:356-381 | the squad header gives the keys Index, Last Name, Position, and every row of a report's table has the four keys read from the header |

## Left out

- PDF text extraction, JSON persistence, `main`, logging, the `rich` debug
  printing and the Streamlit front end: I/O and library calls with no
  influence on the parsed document.
- The regex tokenizers (`parse_from_str_to_drive`, `extract_entries`,
  `parse_football_plays`, `remove_drive_start_info`, `remove_drive_summary`,
  `extract_pattern`, `extract_number`) and the regex-driven drive loop of
  the current `parse_last_pages` (src/scouter.py:658-685). A model of
  Python's backtracking regex engine is out of scope. The drive numbering
  modelled is the earlier revision's (scouter.py:383-388). The
  participation branch is the same in both revisions.
- The regular expressions of `process_game_log` and `GameEvent` are written
  as explicit character predicates over ASCII: team code, digits&digits,
  the yard-line shape and `$` accepting one trailing newline.
- Unicode: `isalpha`, `isdigit`, `lower`, `capitalize` and `strip` act on
  ASCII only. `int()` is an optional sign plus decimal digits, with no
  underscores or Unicode digits.
- Tables.ParseTableData: `no_columns > 0` is a precondition. Every caller
  passes a positive constant, and zero would raise ZeroDivisionError.
- Pages.Unpack: a wrong piece count is reported as `UnpackError(expected, got)`
  and not as Python's exact ValueError message.
- PlayEvent.Construct: pydantic's error aggregation is modelled as the list
  of failing fields, without message text or field order.
- Pages.Document.ParsePageThree, Pages.Document.ParsePageFour,
  Pages.Document.ParsePageFive: the source first stores an empty nested
  dict and then fills it table by table. The model stores the filled
  section in one write, which is equivalent because nothing can raise in
  between.
- Pages.Document.WriteParticipation: the starter and bench tables of a side
  are stored as one write per side. After the first `#` split that raises,
  the source leaves the same entries in place as the model.
- Pages.Document.ParseLastPages: the source stores an empty `"drives"` dict
  and fills it drive by drive. The model stores the finished dict once,
  which is equivalent because nothing raises in the loop.
- Aliasing of the document dictionary between callers is not modelled. Each
  page method updates one `Document` object.
