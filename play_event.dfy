/** The play record `GameEvent`: shape checks on the team in possession, the
    down-and-distance and the yard line, and the record's dictionary form.
    Each check is a regular expression anchored with `^` and `$`; `$` also
    matches just before a final newline. */
module PlayEvent {
  import opened Results
  import opened Dicts
  import opened PyText
  import PlayLog

  datatype GameEvent = GameEvent(possession: string, downAndDistance: string, yardLine: string, details: string)

  /** A field whose check failed. */
  datatype FieldError = PossessionError | DownAndDistanceError | YardLineError

  /** The outcome of one field check: the value as given, or its error. */
  datatype Checked = Accepted(value: string) | Rejected(error: FieldError)

  /** Constructing the record: the record, or the errors of every field that
      failed its check, in field order. */
  datatype Validated = Valid(event: GameEvent) | Invalid(errors: seq<FieldError>)

  /** The text of the `ValueError` each check raises. */
  function Message(e: FieldError): string {
    match e
    case PossessionError => "Possession must be two uppercase letters"
    case DownAndDistanceError => "Down and distance must be in the format \"X&Y\""
    case YardLineError => "Yardline must start with \"@\" followed by a team and number"
  }

  // ---------------------------------------------------------------------
  // The patterns

  /** `^[A-Z]{2}$` */
  predicate PossessionMatch(v: string) {
    PlayLog.TeamCode(v) || (|v| == 3 && v[2] == '\n' && PlayLog.TeamCode(v[..2]))
  }

  /** `@`, one space, upper-case letters, then digits, all of them present. */
  predicate YardShape(s: string) {
    exists k :: 2 < k < |s| && s[..2] == "@ " && AllUpper(s[2..k]) && AllDigits(s[k..])
  }

  /** `^@ [A-Z]+\d+$` */
  predicate YardMatch(s: string) {
    YardShape(s) || (|s| > 0 && s[|s| - 1] == '\n' && YardShape(s[..|s| - 1]))
  }

  // ---------------------------------------------------------------------
  // A left-to-right reading of the patterns

  /** The number of upper-case letters at the front of `s`. */
  function UpperRun(s: string): (n: nat)
    ensures n <= |s| && AllUpper(s[..n]) && (n < |s| ==> !IsUpper(s[n]))
  {
    if s == [] || !IsUpper(s[0]) then 0 else 1 + UpperRun(s[1..])
  }

  /** The number of digits at the front of `s`. */
  function DigitRun(s: string): (n: nat)
    ensures n <= |s| && AllDigits(s[..n]) && (n < |s| ==> !IsDigit(s[n]))
  {
    if s == [] || !IsDigit(s[0]) then 0 else 1 + DigitRun(s[1..])
  }

  /** The text the pattern body must cover: without a final newline. */
  function Anchored(s: string): string {
    if |s| > 0 && s[|s| - 1] == '\n' then s[..|s| - 1] else s
  }

  /** Reading `@ `, a run of letters, then digits to the end. */
  predicate ScanYard(s: string) {
    |s| >= 2 && s[0] == '@' && s[1] == ' ' && 0 < UpperRun(s[2..]) < |s| - 2 && AllDigits(s[2..][UpperRun(s[2..])..])
  }

  /** Reading a run of digits, `&`, then digits to the end. */
  predicate ScanDown(s: string) {
    0 < DigitRun(s) < |s| - 1 && s[DigitRun(s)] == '&' && AllDigits(s[DigitRun(s) + 1..])
  }

  /** The scan accepts exactly the yard lines of the pattern. */
  lemma ScanYardShape(s: string)
    ensures ScanYard(s) <==> YardShape(s)
  {
    if ScanYard(s) {
      var n := UpperRun(s[2..]);
      assert s[..2] == "@ ";
      assert s[2..n + 2] == s[2..][..n] && s[n + 2..] == s[2..][n..];
    }
    if YardShape(s) {
      var k :| 2 < k < |s| && s[..2] == "@ " && AllUpper(s[2..k]) && AllDigits(s[k..]);
      assert s[0] == s[..2][0] && s[1] == s[..2][1];
      var rest := s[2..];
      assert IsDigit(rest[k - 2]) by {
        assert rest[k - 2] == s[k..][0];
      }
      forall j | 0 <= j < k - 2
        ensures IsUpper(rest[j])
      {
        assert rest[j] == s[2..k][j];
      }
      assert UpperRun(rest) == k - 2;
      assert rest[k - 2..] == s[k..];
    }
  }

  /** The scan accepts exactly the down-and-distance texts of the pattern. */
  lemma ScanDownShape(s: string)
    ensures ScanDown(s) <==> PlayLog.DownShape(s)
  {
    if ScanDown(s) {
      var n := DigitRun(s);
      assert 0 < n < |s| - 1 && s[n] == '&' && AllDigits(s[..n]) && AllDigits(s[n + 1..]);
    }
    if PlayLog.DownShape(s) {
      var k :| 0 < k < |s| - 1 && s[k] == '&' && AllDigits(s[..k]) && AllDigits(s[k + 1..]);
      forall j | 0 <= j < k
        ensures IsDigit(s[j])
      {
        assert s[j] == s[..k][j];
      }
      assert DigitRun(s) == k;
    }
  }

  /** Reading the text without its final newline is the anchored match. */
  lemma AnchoredMatches(s: string)
    ensures YardMatch(s) <==> YardShape(Anchored(s))
    ensures PlayLog.DownMatch(s) <==> PlayLog.DownShape(Anchored(s))
  {
    if |s| > 0 && s[|s| - 1] == '\n' {
      assert !YardShape(s);
      assert !PlayLog.DownShape(s);
    }
  }

  // ---------------------------------------------------------------------
  // The field checks

  /** `validate_possession`: a two-letter upper-case code passes unchanged. */
  function ValidatePossession(v: string): (r: Checked)
    ensures r.Accepted? <==> PossessionMatch(v)
    ensures r.Accepted? ==> r.value == v
    ensures r.Rejected? ==> r.error == PossessionError
  {
    var body := Anchored(v);
    if |body| == 2 && IsUpper(body[0]) && IsUpper(body[1]) then Accepted(v) else Rejected(PossessionError)
  }

  /** `validate_down_and_distance`: an empty text, or digits `&` digits,
      passes unchanged. */
  function ValidateDownAndDistance(v: string): (r: Checked)
    ensures r.Accepted? <==> v == "" || PlayLog.DownMatch(v)
    ensures r.Accepted? ==> r.value == v
    ensures r.Rejected? ==> r.error == DownAndDistanceError
  {
    AnchoredMatches(v);
    ScanDownShape(Anchored(v));
    if v == "" || ScanDown(Anchored(v)) then Accepted(v) else Rejected(DownAndDistanceError)
  }

  /** `validate_yardline`: an empty text, or `@ `, letters and digits,
      passes unchanged. */
  function ValidateYardLine(v: string): (r: Checked)
    ensures r.Accepted? <==> v == "" || YardMatch(v)
    ensures r.Accepted? ==> r.value == v
    ensures r.Rejected? ==> r.error == YardLineError
  {
    AnchoredMatches(v);
    ScanYardShape(Anchored(v));
    if v == "" || ScanYard(Anchored(v)) then Accepted(v) else Rejected(YardLineError)
  }

  /** The errors of the checks that failed, in field order. */
  function Errors(cs: seq<Checked>): (es: seq<FieldError>)
    ensures |es| <= |cs|
    ensures forall e :: e in es <==> Rejected(e) in cs
  {
    if cs == [] then []
    else (if cs[0].Rejected? then [cs[0].error] else []) + Errors(cs[1..])
  }

  /** `GameEvent(...)`: every field is checked; the record holds the values
      as given when all checks pass, and otherwise every failure is
      reported. The details are not checked. */
  function Construct(possession: string, downAndDistance: string, yardLine: string, details: string): (r: Validated)
    ensures r.Valid? <==>
            PossessionMatch(possession) && (downAndDistance == "" || PlayLog.DownMatch(downAndDistance)) &&
            (yardLine == "" || YardMatch(yardLine))
    ensures r.Valid? ==> r.event == GameEvent(possession, downAndDistance, yardLine, details)
    ensures r.Invalid? ==>
              r.errors != [] &&
              (PossessionError in r.errors <==> !PossessionMatch(possession)) &&
              (DownAndDistanceError in r.errors <==> !(downAndDistance == "" || PlayLog.DownMatch(downAndDistance))) &&
              (YardLineError in r.errors <==> !(yardLine == "" || YardMatch(yardLine)))
  {
    var p := ValidatePossession(possession);
    var d := ValidateDownAndDistance(downAndDistance);
    var y := ValidateYardLine(yardLine);
    if p.Accepted? && d.Accepted? && y.Accepted? then Valid(GameEvent(p.value, d.value, y.value, details))
    else Invalid(Errors([p, d, y]))
  }

  /** `dump_model()` */
  function DumpModel(e: GameEvent): (d: Dict<string, string>)
    ensures Keys(d) == [PlayLog.IndexKey, PlayLog.DownKey, PlayLog.YardKey, PlayLog.DetailsKey]
    ensures Get(d, PlayLog.IndexKey) == Some(e.possession)
    ensures Get(d, PlayLog.DownKey) == Some(e.downAndDistance)
    ensures Get(d, PlayLog.YardKey) == Some(e.yardLine)
    ensures Get(d, PlayLog.DetailsKey) == Some(e.details)
  {
    [(PlayLog.IndexKey, e.possession), (PlayLog.DownKey, e.downAndDistance),
     (PlayLog.YardKey, e.yardLine), (PlayLog.DetailsKey, e.details)]
  }

  // ---------------------------------------------------------------------
  // The tokenizer's plays and the record

  /** The record built from a play's four fields. */
  function EventOf(p: PlayLog.Group): Validated
    requires PlayLog.Play(p)
  {
    Construct(p[0].1, p[1].1, p[2].1, p[3].1)
  }

  /** A group with the four keys of a play is its four entries in order. */
  lemma PlayEntries(p: PlayLog.Group)
    requires Keys(p) == [PlayLog.IndexKey, PlayLog.DownKey, PlayLog.YardKey, PlayLog.DetailsKey]
    ensures p == [(PlayLog.IndexKey, p[0].1), (PlayLog.DownKey, p[1].1), (PlayLog.YardKey, p[2].1), (PlayLog.DetailsKey, p[3].1)]
    ensures Get(p, PlayLog.IndexKey) == Some(p[0].1)
    ensures Get(p, PlayLog.DownKey) == Some(p[1].1)
    ensures Get(p, PlayLog.YardKey) == Some(p[2].1)
  {
    var ks := Keys(p);
    assert ks[0] == p[0].0 && ks[1] == p[1].0 && ks[2] == p[2].0 && ks[3] == p[3].0;
    IndexOfFirst(p, PlayLog.IndexKey, 0);
    IndexOfFirst(p, PlayLog.DownKey, 1);
    IndexOfFirst(p, PlayLog.YardKey, 2);
  }

  /** The team code and the down-and-distance of every play the tokenizer
      emits pass their checks; the play becomes a record exactly when its
      yard line passes, and that record's dictionary is the play itself. */
  lemma PlayValidates(p: PlayLog.Group)
    requires PlayLog.Play(p)
    ensures ValidatePossession(p[0].1).Accepted? && ValidateDownAndDistance(p[1].1).Accepted?
    ensures EventOf(p).Valid? <==> YardMatch(p[2].1)
    ensures EventOf(p).Valid? ==> DumpModel(EventOf(p).event) == p
  {
    PlayEntries(p);
    assert p[2].1 != "" by {
      assert StartsWith(p[2].1, "@");
    }
  }

  /** Four fields with the values the tokenizer guarantees form a play. */
  lemma PlayOf(code: string, down: string, yard: string, details: string)
    requires PlayLog.TeamCode(code) && PlayLog.DownShape(down) && StartsWith(yard, "@")
    ensures var p := [(PlayLog.IndexKey, code), (PlayLog.DownKey, down), (PlayLog.YardKey, yard), (PlayLog.DetailsKey, details)];
            PlayLog.Play(p) && EventOf(p) == Construct(code, down, yard, details)
  {
    var p := [(PlayLog.IndexKey, code), (PlayLog.DownKey, down), (PlayLog.YardKey, yard), (PlayLog.DetailsKey, details)];
    assert Keys(p) == [PlayLog.IndexKey, PlayLog.DownKey, PlayLog.YardKey, PlayLog.DetailsKey];
    PlayEntries(p);
  }

  /** The fields of the play below: a valid team code and down-and-distance,
      and a yard line without the space after `@`. */
  lemma ConcretePlayFields()
    ensures PlayLog.TeamCode("NE") && PlayLog.DownShape("1&10") && StartsWith("@NE35", "@")
    ensures !(YardMatch("@NE35"))
  {
    assert "1&10"[..1] == "1" && "1&10"[2..] == "10";
    assert !YardShape("@NE35") by {
      assert "@NE35"[..2][1] == 'N';
    }
  }

  /** The tokenizer takes any line starting with `@` as a yard line, so a
      play it emits can fail the record's yard-line check. */
  lemma UncheckedYardLine()
    ensures var p := [(PlayLog.IndexKey, "NE"), (PlayLog.DownKey, "1&10"), (PlayLog.YardKey, "@NE35"), (PlayLog.DetailsKey, "Pass")];
            PlayLog.Play(p) && EventOf(p).Invalid? &&
            YardLineError in EventOf(p).errors && PossessionError !in EventOf(p).errors &&
            DownAndDistanceError !in EventOf(p).errors
  {
    ConcretePlayFields();
    PlayOf("NE", "1&10", "@NE35", "Pass");
  }
}
