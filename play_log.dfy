/** The line-based play tokenizer of the drive pages. A drive's text is
    cleaned of its play-by-play summary marker and of its eight header and
    eight footer lines; the remaining lines are read by a state machine that
    collects a team code, a down-and-distance, a yard line and the play's
    details into one record per play. */
module PlayLog {
  import opened Results
  import opened Dicts
  import opened PyText

  /** A play as the tokenizer builds it: field name to text. */
  type Group = Dict<string, string>

  const IndexKey := "Index"
  const DownKey := "Down&Distance"
  const YardKey := "YardLine"
  const DetailsKey := "Details"
  /** The key the yard-line guard tests; no line ever writes it. */
  const YardGuardKey := "Yard Line"

  // ---------------------------------------------------------------------
  // The line patterns

  /** Two upper-case letters. */
  predicate TeamCode(s: string) {
    |s| == 2 && IsUpper(s[0]) && IsUpper(s[1])
  }

  /** `re.match(r"^\s*([A-Z]{2})$", s)`: optional leading whitespace, two
      upper-case letters, and the end of the text or a final newline. */
  predicate TeamMatch(s: string) {
    var t := LStrip(s);
    (|t| == 2 || (|t| == 3 && t[2] == '\n')) && IsUpper(t[0]) && IsUpper(t[1])
  }

  /** The matched group: the two letters. */
  function TeamCodeOf(s: string): (code: string)
    requires TeamMatch(s)
    ensures TeamCode(code)
  {
    LStrip(s)[..2]
  }

  /** Digits, `&`, digits. */
  predicate DownShape(s: string) {
    exists k :: 0 < k < |s| - 1 && s[k] == '&' && AllDigits(s[..k]) && AllDigits(s[k + 1..])
  }

  /** `re.match(r"^\d+&\d+$", s)`: `$` also matches before a final newline. */
  predicate DownMatch(s: string) {
    DownShape(s) || (|s| > 0 && s[|s| - 1] == '\n' && DownShape(s[..|s| - 1]))
  }

  /** Text ending in whitespace and a two-letter team code. */
  predicate TrailingCode(e: string) {
    |e| >= 3 && IsSpace(e[|e| - 3]) && IsUpper(e[|e| - 2]) && IsUpper(e[|e| - 1])
  }

  /** `re.sub(r"\s+[A-Z]{2}$", "", e)` on stripped text: a trailing team code
      goes, together with the whole run of whitespace before it. */
  function CleanEntry(e: string): string {
    if TrailingCode(e) then RStrip(e[..|e| - 2]) else e
  }

  /** The substitution removes exactly a trailing team code and the
      whitespace before it, and leaves other text alone. */
  lemma CleanEntrySpec(e: string)
    ensures var c := CleanEntry(e);
            |c| <= |e| && c == e[..|c|] &&
            (c == e <==> !TrailingCode(e)) &&
            (c != e ==> |c| <= |e| - 3 && AllSpace(e[|c|..|e| - 2]) && (c == [] || !IsSpace(c[|c| - 1])))
  {
    if TrailingCode(e) {
      var front := e[..|e| - 2];
      RStripSpec(front);
      var c := RStrip(front);
      assert front[|front| - 1] == e[|e| - 3];
      assert c != front by {
        assert IsSpace(front[|front| - 1]);
      }
      assert e[|c|..|e| - 2] == front[|c|..];
    }
  }

  // ---------------------------------------------------------------------
  // process_game_log

  /** The next raw line continues the details: it does not start with `@`
      and matches neither pattern. */
  predicate Continues(log: seq<string>, i: nat) {
    i + 1 < |log| && !StartsWith(log[i + 1], "@") && !DownMatch(log[i + 1]) && !TeamMatch(log[i + 1])
  }

  /** The three tests after the team-code check: a down-and-distance, a yard
      line, or details (joined with the next line when it continues them).
      Gives the index of the last line read and the new group. */
  function Classify(log: seq<string>, i: nat, entry: string, t: Group): (r: (nat, Group))
    requires i < |log|
    ensures i <= r.0 < |log|
  {
    if DownMatch(entry) && DownKey !in Keys(t) then (i, Put(t, DownKey, entry))
    else if StartsWith(entry, "@") && YardGuardKey !in Keys(t) then (i, Put(t, YardKey, entry))
    else if DetailsKey in Keys(t) || |t| >= 3 then
      var clean := CleanEntry(entry);
      var details := if DetailsKey in Keys(t) then Get(t, DetailsKey).value + " " + clean else clean;
      var t3 := Put(t, DetailsKey, details);
      // `temp_group["Details"] += ...` reads back `details`
      if Continues(log, i) then (i + 1, Put(t3, DetailsKey, details + " " + Strip(log[i + 1])))
      else (i, t3)
    else (i, t)
  }

  /** A line starting with `@` defaults a missing down-and-distance to "0&0". */
  function WithDefaultDown(t: Group, entry: string): Group {
    if DownKey !in Keys(t) && StartsWith(entry, "@") then Put(t, DownKey, "0&0") else t
  }

  /** One pass of the loop at line `i` with open group `t`: the next index,
      the new open group, and the record emitted, if any. */
  function Step(log: seq<string>, i: nat, t: Group): (r: (nat, Group, Option<Group>))
    requires i < |log|
    ensures i < r.0 <= |log|
  {
    var entry := Strip(log[i]);
    if t == [] && TeamMatch(entry) then (i + 1, Put([], IndexKey, TeamCodeOf(entry)), None)
    else
      var (j, t2) := Classify(log, i, entry, WithDefaultDown(t, entry));
      if |t2| >= 4 then (j + 1, [], Some(t2)) else (j + 1, t2, None)
  }

  /** The records `done` so far followed by those emitted from line `i` on,
      starting with open group `t`. */
  function Run(log: seq<string>, i: nat, t: Group, done: seq<Group>): seq<Group>
    decreases |log| - i
  {
    if i >= |log| then done
    else
      var (next, t', out) := Step(log, i, t);
      Run(log, next, t', if out.Some? then done + [out.value] else done)
  }

  /** `process_game_log(log)` */
  function GameLog(log: seq<string>): seq<Group> {
    Run(log, 0, [], [])
  }

  /** The field values the tokenizer guarantees: a team code, a
      down-and-distance of the form digits `&` digits, and a yard line
      starting with `@`. */
  predicate FieldsOk(t: Group) {
    (Get(t, IndexKey).Some? ==> TeamCode(Get(t, IndexKey).value)) &&
    (Get(t, DownKey).Some? ==> DownShape(Get(t, DownKey).value)) &&
    (Get(t, YardKey).Some? ==> StartsWith(Get(t, YardKey).value, "@"))
  }

  /** The groups that can be open between two passes of the loop. A group
      without a team code never reaches three keys. */
  predicate OpenGroup(t: Group) {
    var ks := Keys(t);
    (ks == [] || ks == [IndexKey] || ks == [IndexKey, DownKey] || ks == [IndexKey, DownKey, YardKey] ||
     ks == [DownKey] || ks == [DownKey, YardKey]) &&
    FieldsOk(t)
  }

  /** An emitted play: exactly the four keys, in this order, with their
      guaranteed values. */
  predicate Play(r: Group) {
    Keys(r) == [IndexKey, DownKey, YardKey, DetailsKey] && FieldsOk(r)
  }

  /** The details of a play whose details start with `entry`, read at line
      `i`: the cleaned entry, and the next line when it continues them. */
  function DetailsText(log: seq<string>, i: nat, entry: string): string {
    var clean := CleanEntry(entry);
    if Continues(log, i) then clean + " " + Strip(log[i + 1]) else clean
  }

  lemma DownZero()
    ensures DownShape("0&0")
  {
    assert "0&0"[1] == '&' && "0&0"[..1] == "0" && "0&0"[2..] == "0";
  }

  /** A stripped line never ends in a newline, so a match is the bare shape. */
  lemma StrippedDown(line: string)
    requires DownMatch(Strip(line))
    ensures DownShape(Strip(line))
  {
    StripShape(line);
  }

  /** Assigning a field with a guaranteed value keeps the guarantees. */
  lemma PutField(t: Group, k: string, v: string)
    requires FieldsOk(t)
    requires k == IndexKey ==> TeamCode(v)
    requires k == DownKey ==> DownShape(v)
    requires k == YardKey ==> StartsWith(v, "@")
    ensures FieldsOk(Put(t, k, v))
    ensures Keys(Put(t, k, v)) == if k in Keys(t) then Keys(t) else Keys(t) + [k]
    ensures k !in Keys(t) ==> Put(t, k, v) == t + [(k, v)]
  {
    PutSpec(t, k, v);
    if k != IndexKey { GetPutOther(t, k, v, IndexKey); }
    if k != DownKey { GetPutOther(t, k, v, DownKey); }
    if k != YardKey { GetPutOther(t, k, v, YardKey); }
  }

  /** Keys of a group of at most three fields never include "Details". */
  lemma OpenKeys(t: Group)
    requires OpenGroup(t)
    ensures DetailsKey !in Keys(t) && YardGuardKey !in Keys(t) && |t| <= 3
    ensures |t| == 3 <==> Keys(t) == [IndexKey, DownKey, YardKey]
  {
  }

  /** The `@` default keeps the open group in shape and gives a line
      starting with `@` a down-and-distance; it adds no team code, and it
      leaves a full group alone. */
  lemma DefaultDown(t: Group, entry: string)
    requires OpenGroup(t)
    ensures var t1 := WithDefaultDown(t, entry);
            OpenGroup(t1) &&
            (StartsWith(entry, "@") ==> DownKey in Keys(t1)) &&
            (DownKey !in Keys(t) && StartsWith(entry, "@") ==> Get(t1, DownKey) == Some("0&0")) &&
            (DownKey in Keys(t) ==> t1 == t) &&
            (Keys(t) == [IndexKey, DownKey, YardKey] ==> t1 == t) &&
            (Keys(t1) == [IndexKey, DownKey, YardKey] ==> t1 == t) &&
            (IndexKey in Keys(t1) <==> IndexKey in Keys(t)) &&
            (t != [] ==> t1 != [])
  {
    OpenKeys(t);
    if DownKey !in Keys(t) && StartsWith(entry, "@") {
      DownZero();
      PutField(t, DownKey, "0&0");
      PutSpec(t, DownKey, "0&0");
    }
  }

  /** The three tests keep the open group in shape; they complete a play
      exactly when a group holding a team code, a down-and-distance and a
      yard line meets a line that does not start with `@`, and the play is
      that group followed by the details. */
  lemma ClassifyKeeps(log: seq<string>, i: nat, entry: string, t: Group)
    requires i < |log| && OpenGroup(t) && (DownMatch(entry) ==> DownShape(entry))
    requires StartsWith(entry, "@") ==> DownKey in Keys(t)
    ensures var t2 := Classify(log, i, entry, t).1;
            (|t2| >= 4 <==> Keys(t) == [IndexKey, DownKey, YardKey] && !StartsWith(entry, "@")) &&
            (|t2| >= 4 ==> Play(t2) && t2 == t + [(DetailsKey, DetailsText(log, i, entry))]) &&
            (|t2| < 4 ==> OpenGroup(t2) && (IndexKey in Keys(t2) <==> IndexKey in Keys(t)) && (t != [] ==> t2 != []))
  {
    OpenKeys(t);
    if DownMatch(entry) && DownKey !in Keys(t) {
      PutOpen(t, DownKey, entry);
    } else if StartsWith(entry, "@") && YardGuardKey !in Keys(t) {
      PutOpen(t, YardKey, entry);
    } else if DetailsKey in Keys(t) || |t| >= 3 {
      DetailsPlay(log, i, entry, t);
    }
  }

  /** A down-and-distance joins a group without one; a yard line joins or
      replaces the one of a group with a down-and-distance. */
  lemma PutOpen(t: Group, k: string, v: string)
    requires OpenGroup(t)
    requires (k == DownKey && DownKey !in Keys(t) && DownShape(v)) ||
             (k == YardKey && DownKey in Keys(t) && StartsWith(v, "@"))
    ensures var t2 := Put(t, k, v);
            OpenGroup(t2) && |t2| < 4 && (IndexKey in Keys(t2) <==> IndexKey in Keys(t)) && t2 != []
  {
    PutField(t, k, v);
  }

  /** The details complete the play of a full open group. */
  lemma DetailsPlay(log: seq<string>, i: nat, entry: string, t: Group)
    requires i < |log| && Keys(t) == [IndexKey, DownKey, YardKey] && FieldsOk(t)
    ensures var clean := CleanEntry(entry);
            var t3 := Put(t, DetailsKey, clean);
            var t2 := if Continues(log, i) then Put(t3, DetailsKey, clean + " " + Strip(log[i + 1])) else t3;
            t2 == t + [(DetailsKey, DetailsText(log, i, entry))] && Play(t2)
  {
    var clean := CleanEntry(entry);
    PutField(t, DetailsKey, clean);
    if Continues(log, i) {
      var longer := clean + " " + Strip(log[i + 1]);
      PutReplaceLast(t, DetailsKey, clean, longer);
      PutField(t + [(DetailsKey, clean)], DetailsKey, longer);
    }
  }

  /** One pass keeps the open group in shape, and whatever it emits is a
      play: the open group of a team code, a down-and-distance and a yard
      line, followed by the details. It emits exactly when that group meets
      a line that does not start with `@`. */
  lemma StepKeeps(log: seq<string>, i: nat, t: Group)
    requires i < |log| && OpenGroup(t)
    ensures OpenGroup(Step(log, i, t).1)
    ensures Step(log, i, t).2.Some? <==>
            Keys(t) == [IndexKey, DownKey, YardKey] && !StartsWith(Strip(log[i]), "@")
    ensures Step(log, i, t).2.Some? ==>
            Play(Step(log, i, t).2.value) &&
            Step(log, i, t).2.value == t + [(DetailsKey, DetailsText(log, i, Strip(log[i])))]
    ensures t != [] && IndexKey !in Keys(t) ==>
            Step(log, i, t).2.None? && Step(log, i, t).1 != [] && IndexKey !in Keys(Step(log, i, t).1)
  {
    var entry := Strip(log[i]);
    if t == [] && TeamMatch(entry) {
      PutField([], IndexKey, TeamCodeOf(entry));
    } else {
      StepTests(log, i, t);
    }
  }

  /** A pass that does not open a group with a team code. */
  lemma StepTests(log: seq<string>, i: nat, t: Group)
    requires i < |log| && OpenGroup(t)
    ensures var entry := Strip(log[i]);
            var t2 := Classify(log, i, entry, WithDefaultDown(t, entry)).1;
            (|t2| >= 4 <==> Keys(t) == [IndexKey, DownKey, YardKey] && !StartsWith(entry, "@")) &&
            (|t2| >= 4 ==> Play(t2) && t2 == t + [(DetailsKey, DetailsText(log, i, entry))]) &&
            (|t2| < 4 ==> OpenGroup(t2) && (IndexKey in Keys(t2) <==> IndexKey in Keys(t)) && (t != [] ==> t2 != []))
  {
    var entry := Strip(log[i]);
    DefaultDown(t, entry);
    if DownMatch(entry) {
      StrippedDown(log[i]);
    }
    ClassifyKeeps(log, i, entry, WithDefaultDown(t, entry));
  }

  /** Every record emitted from an open group in shape is a play. */
  lemma {:induction false} RunPlays(log: seq<string>, i: nat, t: Group, done: seq<Group>)
    requires OpenGroup(t) && forall k :: 0 <= k < |done| ==> Play(done[k])
    ensures forall k :: 0 <= k < |Run(log, i, t, done)| ==> Play(Run(log, i, t, done)[k])
    decreases |log| - i
  {
    if i < |log| {
      var (next, t', out) := Step(log, i, t);
      StepKeeps(log, i, t);
      RunPlays(log, next, t', if out.Some? then done + [out.value] else done);
    }
  }

  /** Where a group's down-and-distance comes from: the "0&0" default, or a
      stripped line of the log of the form digits `&` digits. */
  predicate DownFromLog(log: seq<string>, t: Group) {
    Get(t, DownKey).Some? ==>
      Get(t, DownKey).value == "0&0" ||
      exists j :: 0 <= j < |log| && Strip(log[j]) == Get(t, DownKey).value && DownMatch(Strip(log[j]))
  }

  /** The three tests store the line read as the down-and-distance, or
      leave the down-and-distance alone. */
  lemma ClassifyDown(log: seq<string>, i: nat, t: Group)
    requires i < |log| && DownFromLog(log, t)
    ensures DownFromLog(log, Classify(log, i, Strip(log[i]), t).1)
  {
    var entry := Strip(log[i]);
    if DownMatch(entry) && DownKey !in Keys(t) {
      PutSpec(t, DownKey, entry);
    } else if StartsWith(entry, "@") && YardGuardKey !in Keys(t) {
      GetPutOther(t, YardKey, entry, DownKey);
    } else if DetailsKey in Keys(t) || |t| >= 3 {
      var clean := CleanEntry(entry);
      var details := if DetailsKey in Keys(t) then Get(t, DetailsKey).value + " " + clean else clean;
      var t3 := Put(t, DetailsKey, details);
      GetPutOther(t, DetailsKey, details, DownKey);
      if Continues(log, i) {
        GetPutOther(t3, DetailsKey, details + " " + Strip(log[i + 1]), DownKey);
      }
    }
  }

  /** One pass keeps the down-and-distance of the open group, and of the
      play it emits, either "0&0" or a digits `&` digits line of the log. */
  lemma StepDown(log: seq<string>, i: nat, t: Group)
    requires i < |log| && DownFromLog(log, t)
    ensures DownFromLog(log, Step(log, i, t).1)
    ensures Step(log, i, t).2.Some? ==> DownFromLog(log, Step(log, i, t).2.value)
  {
    var entry := Strip(log[i]);
    if t == [] && TeamMatch(entry) {
      GetPutOther([], IndexKey, TeamCodeOf(entry), DownKey);
    } else {
      if DownKey !in Keys(t) && StartsWith(entry, "@") {
        PutSpec(t, DownKey, "0&0");
      }
      ClassifyDown(log, i, WithDefaultDown(t, entry));
    }
  }

  /** Every play emitted has as its down-and-distance either "0&0" or a
      stripped line of the log of the form digits `&` digits. */
  lemma {:induction false} RunDowns(log: seq<string>, i: nat, t: Group, done: seq<Group>)
    requires DownFromLog(log, t) && forall k :: 0 <= k < |done| ==> DownFromLog(log, done[k])
    ensures forall k :: 0 <= k < |Run(log, i, t, done)| ==> DownFromLog(log, Run(log, i, t, done)[k])
    decreases |log| - i
  {
    if i < |log| {
      var (next, t', out) := Step(log, i, t);
      StepDown(log, i, t);
      RunDowns(log, next, t', if out.Some? then done + [out.value] else done);
    }
  }

  /** A group that began without a team code is stuck: only a yard line can
      still change it, and nothing more is emitted. */
  lemma {:induction false} StuckWithoutTeam(log: seq<string>, i: nat, t: Group, done: seq<Group>)
    requires OpenGroup(t) && t != [] && IndexKey !in Keys(t)
    ensures Run(log, i, t, done) == done
    decreases |log| - i
  {
    if i < |log| {
      StepKeeps(log, i, t);
      var (next, t', out) := Step(log, i, t);
      StuckWithoutTeam(log, next, t', done);
    }
  }

  /** A line that is neither a team code, a down-and-distance nor a yard line
      before any team code leaves the empty group empty. */
  lemma SkippedBeforeTeam(log: seq<string>, i: nat)
    requires i < |log|
    requires !TeamMatch(Strip(log[i])) && !DownMatch(Strip(log[i])) && !StartsWith(Strip(log[i]), "@")
    ensures Step(log, i, []) == (i + 1, [], None)
  {
  }

  /** The three tests of one pass; reading the next line as more details
      moves the index on by one. */
  method ClassifyLine(log: seq<string>, i: nat, entry: string, temp: Group) returns (j: nat, t: Group)
    requires i < |log|
    ensures (j, t) == Classify(log, i, entry, temp)
  {
    j, t := i, temp;
    if DownMatch(entry) && DownKey !in Keys(t) {
      t := Put(t, DownKey, entry);
    } else if StartsWith(entry, "@") && YardGuardKey !in Keys(t) {
      t := Put(t, YardKey, entry);
    } else if DetailsKey in Keys(t) || |t| >= 3 {
      var clean := CleanEntry(entry);
      var details := if DetailsKey in Keys(t) then Get(t, DetailsKey).value + " " + clean else clean;
      t := Put(t, DetailsKey, details);
      if j + 1 < |log| && !StartsWith(log[j + 1], "@") && !DownMatch(log[j + 1]) && !TeamMatch(log[j + 1]) {
        j := j + 1;
        t := Put(t, DetailsKey, details + " " + Strip(log[j]));
      }
    }
  }

  /** The `while` loop of `process_game_log`: the index moves on by one, or
      by two when the next line continues a play's details. */
  method ProcessGameLog(log: seq<string>) returns (processed: seq<Group>)
    ensures processed == GameLog(log)
    ensures forall k :: 0 <= k < |processed| ==> Play(processed[k])
    ensures forall k :: 0 <= k < |processed| ==> DownFromLog(log, processed[k])
  {
    processed := [];
    var temp: Group := [];
    var i := 0;
    while i < |log|
      invariant i <= |log|
      invariant Run(log, i, temp, processed) == GameLog(log)
      decreases |log| - i
    {
      ghost var (next, t', out) := Step(log, i, temp);
      ghost var done := if out.Some? then processed + [out.value] else processed;
      assert Run(log, i, temp, processed) == Run(log, next, t', done);
      var entry := Strip(log[i]);
      if temp == [] && TeamMatch(entry) {
        temp := Put(temp, IndexKey, TeamCodeOf(entry));
        i := i + 1;
      } else {
        if DownKey !in Keys(temp) && StartsWith(entry, "@") {
          temp := Put(temp, DownKey, "0&0");
        }
        var j;
        j, temp := ClassifyLine(log, i, entry, temp);
        if |temp| >= 4 {
          processed := processed + [temp];
          temp := [];
        }
        i := j + 1;
      }
      assert i == next && temp == t' && processed == done;
    }
    RunPlays(log, 0, [], []);
    RunDowns(log, 0, [], []);
  }

  // ---------------------------------------------------------------------
  // remove_play_by_play_summary, remove_drive_header_and_footer, parse_drives

  const SummaryMarker := "Play-by-Play Summary"

  /** The kept lines after reading from line `i` on, with `kept` kept so
      far: a marker line after the first line takes back the line kept last
      and is dropped together with the line after it; popping from no kept
      lines is an IndexError. */
  function Summary(lines: seq<string>, i: nat, kept: seq<string>): Result<seq<string>>
    decreases |lines| - i
  {
    if i >= |lines| then Ok(kept)
    else if i > 0 && Contains(lines[i], SummaryMarker) then
      if kept == [] then Err(IndexError) else Summary(lines, i + 2, kept[..|kept| - 1])
    else Summary(lines, i + 1, kept + [lines[i]])
  }

  /** `remove_play_by_play_summary(text)` */
  function WithoutSummary(text: string): Result<string> {
    match Summary(Split(text, "\n"), 0, [])
    case Err(e) => Err(e)
    case Ok(kept) => Ok(Join(kept, "\n"))
  }

  /** The loop of `remove_play_by_play_summary`. */
  method RemovePlayByPlaySummary(text: string) returns (r: Result<string>)
    ensures r == WithoutSummary(text)
  {
    var lines := Split(text, "\n");
    var filtered: seq<string> := [];
    var i := 0;
    while i < |lines|
      invariant Summary(lines, i, filtered) == Summary(lines, 0, [])
    {
      if i > 0 && Contains(lines[i], SummaryMarker) {
        if filtered == [] {
          return Err(IndexError);
        }
        filtered := filtered[..|filtered| - 1];
        i := i + 1;
      } else {
        filtered := filtered + [lines[i]];
      }
      i := i + 1;
    }
    return Ok(Join(filtered, "\n"));
  }

  /** Without a marker after the first line every line is kept. */
  lemma {:induction false} SummaryNoMarker(lines: seq<string>, i: nat, kept: seq<string>)
    requires i <= |lines|
    requires forall j :: i <= j < |lines| && j > 0 ==> !Contains(lines[j], SummaryMarker)
    ensures Summary(lines, i, kept) == Ok(kept + lines[i..])
    decreases |lines| - i
  {
    if i < |lines| {
      SummaryNoMarker(lines, i + 1, kept + [lines[i]]);
      assert kept + [lines[i]] + lines[i + 1..] == kept + lines[i..];
    } else {
      assert kept + lines[i..] == kept;
    }
  }

  /** Text without a marker after its first line comes back unchanged. */
  lemma NoSummaryUnchanged(text: string)
    requires forall j :: 0 < j < |Split(text, "\n")| ==> !Contains(Split(text, "\n")[j], SummaryMarker)
    ensures WithoutSummary(text) == Ok(text)
  {
    var lines := Split(text, "\n");
    SummaryNoMarker(lines, 0, []);
    assert [] + lines[0..] == lines;
    SplitJoin(text, "\n");
  }

  /** Every kept line is a line of the input, and only a line equal to the
      first line can still hold the marker. */
  predicate KeptClean(lines: seq<string>, kept: seq<string>)
    requires lines != []
  {
    forall k :: 0 <= k < |kept| ==> kept[k] in lines && (kept[k] == lines[0] || !Contains(kept[k], SummaryMarker))
  }

  lemma {:induction false} SummaryClean(lines: seq<string>, i: nat, kept: seq<string>)
    requires lines != [] && KeptClean(lines, kept)
    ensures Summary(lines, i, kept).Ok? ==> KeptClean(lines, Summary(lines, i, kept).value)
    decreases |lines| - i
  {
    if i < |lines| {
      if i > 0 && Contains(lines[i], SummaryMarker) {
        if kept != [] {
          SummaryClean(lines, i + 2, kept[..|kept| - 1]);
        }
      } else {
        SummaryClean(lines, i + 1, kept + [lines[i]]);
      }
    }
  }

  /** A marker line after the first line is dropped together with the line
      kept just before it and the line after it, which is never looked at:
      reading on from the line before the marker is reading on three lines
      later with nothing added. */
  lemma SummaryDropsNeighbours(lines: seq<string>, i: nat, kept: seq<string>)
    requires i + 1 < |lines|
    requires i == 0 || !Contains(lines[i], SummaryMarker)
    requires Contains(lines[i + 1], SummaryMarker)
    ensures Summary(lines, i, kept) == Summary(lines, i + 3, kept)
  {
    assert (kept + [lines[i]])[..|kept|] == kept;
  }

  /** `pop()` raises only when nothing is kept: with markers on lines 1 and
      3, the first takes back line 0 and the second finds nothing to pop. */
  lemma SummaryPopsEmpty(lines: seq<string>)
    requires |lines| >= 4
    requires Contains(lines[1], SummaryMarker) && Contains(lines[3], SummaryMarker)
    ensures Summary(lines, 0, []) == Err(IndexError)
  {
    assert ([] + [lines[0]]) == [lines[0]] && [lines[0]][..0] == [];
    assert Summary(lines, 0, []) == Summary(lines, 1, [lines[0]]);
    assert Summary(lines, 1, [lines[0]]) == Summary(lines, 3, []);
  }

  /** `remove_drive_header_and_footer(drive)`: the stripped lines without the
      first eight and the last eight, joined again. */
  function WithoutHeaderAndFooter(drive: string): string {
    Join(SliceToEnd(Split(Strip(drive), "\n"), 8, 8), "\n")
  }

  /** With more than sixteen lines exactly the middle lines remain; with
      sixteen or fewer nothing does. */
  lemma HeaderAndFooterLines(drive: string)
    ensures var lines := Split(Strip(drive), "\n");
            (|lines| <= 16 ==> WithoutHeaderAndFooter(drive) == "") &&
            (|lines| > 16 ==> Split(WithoutHeaderAndFooter(drive), "\n") == lines[8..|lines| - 8])
  {
    var lines := Split(Strip(drive), "\n");
    if |lines| > 16 {
      var middle := lines[8..|lines| - 8];
      SplitCharFree(Strip(drive), '\n');
      assert forall k :: 0 <= k < |middle| ==> middle[k] == lines[k + 8];
      JoinSplit(middle, '\n');
    }
  }

  /** `parse_drives(drive)` of the current revision: the summary marker and
      the header and footer go, and the remaining lines are tokenized. */
  function DrivePlays(drive: string): Result<seq<Group>> {
    match WithoutSummary(drive)
    case Err(e) => Err(e)
    case Ok(text) => Ok(GameLog(Split(WithoutHeaderAndFooter(text), "\n")))
  }

  method ParseDrives(drive: string) returns (r: Result<seq<Group>>)
    ensures r == DrivePlays(drive)
    ensures r.Ok? ==> forall k :: 0 <= k < |r.value| ==> Play(r.value[k])
  {
    var cleaned := RemovePlayByPlaySummary(drive);
    match cleaned {
      case Err(e) =>
        return Err(e);
      case Ok(text) =>
        var plays := ProcessGameLog(Split(WithoutHeaderAndFooter(text), "\n"));
        return Ok(plays);
    }
  }

  // ---------------------------------------------------------------------
  // merge_lists

  /** `merge_lists(a, b)`: the pairs of `zip(a, b)`, each stripped and joined
      by one space. */
  function MergeLists(a: seq<string>, b: seq<string>): (merged: seq<string>)
    decreases |a|
  {
    if a == [] || b == [] then [] else [Strip(a[0]) + " " + Strip(b[0])] + MergeLists(a[1..], b[1..])
  }

  /** As many items as the shorter list, item k joining the k-th items. */
  lemma {:induction false} MergeListsItems(a: seq<string>, b: seq<string>)
    ensures |MergeLists(a, b)| == if |a| <= |b| then |a| else |b|
    ensures forall k :: 0 <= k < |MergeLists(a, b)| ==> MergeLists(a, b)[k] == Strip(a[k]) + " " + Strip(b[k])
    decreases |a|
  {
    if a != [] && b != [] {
      MergeListsItems(a[1..], b[1..]);
    }
  }

  /** When the first item holds no space, splitting a merged item once at a
      space gives back the two stripped items. */
  lemma MergedSplit(x: string, y: string)
    requires ' ' !in Strip(x)
    ensures SplitOnce(Strip(x) + " " + Strip(y), " ") == [Strip(x), Strip(y)]
  {
    var s := Strip(x) + " " + Strip(y);
    var n := |Strip(x)|;
    assert OccursAt(s, " ", n);
    forall j: nat | j < n ensures !OccursAt(s, " ", j) {
      assert s[j..j + 1] == [Strip(x)[j]];
    }
    assert FindFrom(s, " ", 0) == Some(n);
    assert s[..n] == Strip(x) && s[n + 1..] == Strip(y);
  }
}
