/** The officials block of the first page: title lines ending in ':' followed
    by the names of the people holding that title. The result maps each title
    to the last name under it; "Head of Statistics" is present even without a
    name, and names before any title are filed under the missing title. */
module Officials {
  import opened Results
  import opened Dicts
  import opened PyText

  /** Keys are titles (`None` before the first title), values are names
      (`None` for an unnamed "Head of Statistics"). */
  type Officials = Dict<Option<string>, Option<string>>

  const HeadOfStatistics := "Head of Statistics"

  /** `line.endswith(":")` */
  predicate IsTitle(line: string) {
    |line| > 0 && line[|line| - 1] == ':'
  }

  /** `line[:-1].strip()` */
  function TitleOf(line: string): string
    requires IsTitle(line)
  {
    Strip(line[..|line| - 1])
  }

  function Lines(s: string): (lines: seq<string>)
    ensures |lines| >= 1
  {
    Split(Strip(s), "\n")
  }

  /** The title in force just before line `i`: that of the nearest title line
      above it. */
  function TitleBefore(lines: seq<string>, i: nat): Option<string>
    requires i <= |lines|
  {
    if i == 0 then None
    else if IsTitle(lines[i - 1]) then Some(TitleOf(lines[i - 1]))
    else TitleBefore(lines, i - 1)
  }

  /** The assignment line `i` makes, if any: a name is filed under the title
      in force; a title line assigns nothing, except "Head of Statistics",
      which is set to no name. */
  function AssignmentOf(lines: seq<string>, i: nat): Option<(Option<string>, Option<string>)>
    requires i < |lines|
  {
    if IsTitle(lines[i]) then
      if TitleOf(lines[i]) == HeadOfStatistics then Some((Some(HeadOfStatistics), None)) else None
    else Some((TitleBefore(lines, i), Some(Strip(lines[i]))))
  }

  /** The assignments of the first `n` lines, in order. */
  function Writes(lines: seq<string>, n: nat): seq<(Option<string>, Option<string>)>
    requires n <= |lines|
  {
    if n == 0 then []
    else match AssignmentOf(lines, n - 1)
      case None => Writes(lines, n - 1)
      case Some(e) => Writes(lines, n - 1) + [e]
  }

  /** The officials of a block: every line's assignment, line by line. */
  function OfficialsOf(s: string): Officials {
    var lines := Lines(s);
    PutAll([], Writes(lines, |lines|))
  }

  /** Reading line `i` moves the title in force and adds its assignment. */
  lemma WritesStep(lines: seq<string>, i: nat)
    requires i < |lines|
    ensures TitleBefore(lines, i + 1) == if IsTitle(lines[i]) then Some(TitleOf(lines[i])) else TitleBefore(lines, i)
    ensures IsTitle(lines[i]) && TitleOf(lines[i]) == HeadOfStatistics ==>
              Writes(lines, i + 1) == Writes(lines, i) + [(Some(HeadOfStatistics), None)]
    ensures IsTitle(lines[i]) && TitleOf(lines[i]) != HeadOfStatistics ==> Writes(lines, i + 1) == Writes(lines, i)
    ensures !IsTitle(lines[i]) ==> Writes(lines, i + 1) == Writes(lines, i) + [(TitleBefore(lines, i), Some(Strip(lines[i])))]
  {
  }

  /** Reading line `i` adds its assignment, if any, to the officials so far. */
  lemma OfficialsStep(lines: seq<string>, i: nat)
    requires i < |lines|
    ensures PutAll([], Writes(lines, i + 1)) ==
              if !IsTitle(lines[i]) then Put(PutAll([], Writes(lines, i)), TitleBefore(lines, i), Some(Strip(lines[i])))
              else if TitleOf(lines[i]) == HeadOfStatistics then Put(PutAll([], Writes(lines, i)), Some(HeadOfStatistics), None)
              else PutAll([], Writes(lines, i))
  {
    WritesStep(lines, i);
    if !IsTitle(lines[i]) {
      PutAllSnoc([], Writes(lines, i), (TitleBefore(lines, i), Some(Strip(lines[i]))));
    } else if TitleOf(lines[i]) == HeadOfStatistics {
      PutAllSnoc([], Writes(lines, i), (Some(HeadOfStatistics), None));
    }
  }

  /** `parse_officials(s)`: one pass that carries the current title. */
  method ParseOfficials(s: string) returns (d: Officials)
    ensures d == OfficialsOf(s)
  {
    var lines := Lines(s);
    d := [];
    var title: Option<string> := None;
    var i := 0;
    while i < |lines|
      invariant i <= |lines|
      invariant title == TitleBefore(lines, i)
      invariant d == PutAll([], Writes(lines, i))
    {
      var line := lines[i];
      WritesStep(lines, i);
      OfficialsStep(lines, i);
      if |line| > 0 && line[|line| - 1] == ':' {
        title := Some(Strip(line[..|line| - 1]));
        if title == Some(HeadOfStatistics) {
          d := Put(d, title, None);
        }
      } else {
        d := Put(d, title, Some(Strip(line)));
      }
      i := i + 1;
    }
  }

  // ---------------------------------------------------------------------
  // The title in force

  /** None of lines `lo` .. `hi - 1` is a title line. */
  predicate NoTitleIn(lines: seq<string>, lo: nat, hi: nat)
    requires hi <= |lines|
  {
    forall u :: lo <= u < hi ==> !IsTitle(lines[u])
  }

  /** There is no title before line `i` exactly when none of the lines above
      it is a title line; otherwise it is the title of the nearest one. */
  lemma {:induction false} TitleBeforeSpec(lines: seq<string>, i: nat)
    requires i <= |lines|
    ensures TitleBefore(lines, i).None? <==> NoTitleIn(lines, 0, i)
    ensures TitleBefore(lines, i).Some? ==>
              exists t :: 0 <= t < i && IsTitle(lines[t]) && TitleBefore(lines, i).value == TitleOf(lines[t]) &&
                NoTitleIn(lines, t + 1, i)
  {
    if i > 0 {
      TitleBeforeSpec(lines, i - 1);
      if IsTitle(lines[i - 1]) {
        assert NoTitleIn(lines, i, i);
      } else if TitleBefore(lines, i).Some? {
        var t :| 0 <= t < i - 1 && IsTitle(lines[t]) && TitleBefore(lines, i - 1).value == TitleOf(lines[t]) &&
                 NoTitleIn(lines, t + 1, i - 1);
        assert NoTitleIn(lines, t + 1, i);
      }
    }
  }

  /** A name is filed under the nearest title line above it. */
  lemma {:induction false} TitleBeforeLast(lines: seq<string>, t: nat, i: nat)
    requires t < i <= |lines| && IsTitle(lines[t])
    requires NoTitleIn(lines, t + 1, i)
    ensures TitleBefore(lines, i) == Some(TitleOf(lines[t]))
    decreases i
  {
    if i - 1 != t {
      TitleBeforeLast(lines, t, i - 1);
    }
  }

  /** The title in force below line `a`, a title line, comes from line `a` or
      a later one. */
  lemma TitleBeforeFrom(lines: seq<string>, a: nat, j: nat)
    requires a < j <= |lines| && IsTitle(lines[a])
    ensures TitleBefore(lines, j).Some?
    ensures exists t :: a <= t < j && IsTitle(lines[t]) && TitleBefore(lines, j).value == TitleOf(lines[t])
  {
    TitleBeforeSpec(lines, j);
    assert !NoTitleIn(lines, 0, j);
    var t :| 0 <= t < j && IsTitle(lines[t]) && TitleBefore(lines, j).value == TitleOf(lines[t]) &&
             NoTitleIn(lines, t + 1, j);
    assert a <= t;
  }

  // ---------------------------------------------------------------------
  // What the officials hold

  /** Line `j` assigns key `k`. */
  predicate Assigns(lines: seq<string>, j: nat, k: Option<string>)
    requires j < |lines|
  {
    AssignmentOf(lines, j).Some? && AssignmentOf(lines, j).value.0 == k
  }

  /** The keys of the first `n` assignments are those of the first `n - 1`
      and the key line `n - 1` assigns. */
  lemma KeysWrites(lines: seq<string>, n: nat, k: Option<string>)
    requires 0 < n <= |lines|
    ensures k in Keys(Writes(lines, n)) <==> k in Keys(Writes(lines, n - 1)) || Assigns(lines, n - 1, k)
  {
    match AssignmentOf(lines, n - 1)
    case None =>
    case Some(e) =>
      KeysAppend(Writes(lines, n - 1), [e]);
      assert Keys([e]) == [e.0];
  }

  /** Line `j` assigns the missing title exactly when it is a name with no
      title line above it. */
  lemma NoneAssigned(lines: seq<string>, j: nat)
    requires j < |lines|
    ensures Assigns(lines, j, None) <==> !IsTitle(lines[j]) && NoTitleIn(lines, 0, j)
  {
    TitleBeforeSpec(lines, j);
  }

  /** The assignments of the first `n` lines use the missing title exactly
      when the first line is a name. */
  lemma {:induction false} NoneInWrites(lines: seq<string>, n: nat)
    requires n <= |lines|
    ensures None in Keys(Writes(lines, n)) <==> n > 0 && !IsTitle(lines[0])
  {
    if n > 0 {
      NoneInWrites(lines, n - 1);
      KeysWrites(lines, n, None);
      NoneAssigned(lines, n - 1);
    }
  }

  /** The result has an entry for the missing title exactly when the block
      starts with a name rather than a title. */
  lemma NoneKey(s: string)
    ensures None in Keys(OfficialsOf(s)) <==> !IsTitle(Lines(s)[0])
  {
    var lines := Lines(s);
    KeysPutAll([], Writes(lines, |lines|), None);
    NoneInWrites(lines, |lines|);
  }

  /** A title that line `j` assigns is the title of a line above it. */
  lemma AssignedKeyIsTitle(lines: seq<string>, j: nat, k: Option<string>)
    requires j < |lines|
    requires Assigns(lines, j, k) && k.Some?
    ensures exists t :: 0 <= t <= j && IsTitle(lines[t]) && k.value == TitleOf(lines[t])
  {
    if !IsTitle(lines[j]) {
      TitleBeforeSpec(lines, j);
    }
  }

  /** Every key of the first `n` assignments is the missing title or the
      title of some title line. */
  lemma {:induction false} KeysOfWrites(lines: seq<string>, n: nat, k: Option<string>)
    requires n <= |lines|
    requires k in Keys(Writes(lines, n)) && k.Some?
    ensures exists t :: 0 <= t < n && IsTitle(lines[t]) && k.value == TitleOf(lines[t])
  {
    KeysWrites(lines, n, k);
    if k in Keys(Writes(lines, n - 1)) {
      KeysOfWrites(lines, n - 1, k);
    } else {
      AssignedKeyIsTitle(lines, n - 1, k);
    }
  }

  /** Every key of the result is the missing title or the title of one of the
      block's title lines. */
  lemma KeysAreTitles(s: string, k: Option<string>)
    requires k in Keys(OfficialsOf(s)) && k.Some?
    ensures exists t :: 0 <= t < |Lines(s)| && IsTitle(Lines(s)[t]) && k.value == TitleOf(Lines(s)[t])
  {
    var lines := Lines(s);
    KeysPutAll([], Writes(lines, |lines|), k);
    KeysOfWrites(lines, |lines|, k);
  }

  /** No title line from line `from` on is titled `name`. */
  predicate TitleAbsentFrom(lines: seq<string>, from: nat, name: string) {
    forall j :: from <= j < |lines| && IsTitle(lines[j]) ==> TitleOf(lines[j]) != name
  }

  /** A line after line `i`, where line `i` ends its block, assigns no title
      that no title line from line `i + 1` on carries. */
  lemma NotWrittenAfter(lines: seq<string>, i: nat, j: nat, name: string)
    requires i < j < |lines|
    requires IsTitle(lines[i + 1])
    requires TitleAbsentFrom(lines, i + 1, name)
    ensures !Assigns(lines, j, Some(name))
  {
    if !IsTitle(lines[j]) {
      TitleBeforeFrom(lines, i + 1, j);
    }
  }

  /** Line `n - 1` leaves the last value of a key it does not assign. */
  lemma LastValueStep(lines: seq<string>, n: nat, k: Option<string>)
    requires 0 < n <= |lines|
    requires !Assigns(lines, n - 1, k)
    ensures LastValue(Writes(lines, n), k) == LastValue(Writes(lines, n - 1), k)
  {
    match AssignmentOf(lines, n - 1)
    case None =>
    case Some(e) =>
      var w := Writes(lines, n - 1) + [e];
      assert w[..|w| - 1] == Writes(lines, n - 1);
  }

  /** No line from `a` up to `n` assigns key `k`. */
  predicate NoAssignIn(lines: seq<string>, a: nat, n: nat, k: Option<string>)
    requires n <= |lines|
  {
    forall j :: a <= j < n ==> !Assigns(lines, j, k)
  }

  /** Lines that do not assign a key leave its last value as it was. */
  lemma {:induction false} KeptThrough(lines: seq<string>, a: nat, n: nat, k: Option<string>)
    requires a <= n <= |lines| && NoAssignIn(lines, a, n, k)
    ensures LastValue(Writes(lines, n), k) == LastValue(Writes(lines, a), k)
  {
    if n > a {
      LastValueStep(lines, n, k);
      KeptThrough(lines, a, n - 1, k);
    }
  }

  /** A key in use by no line after line `i`, where line `i` ends its block,
      keeps the value it had after line `i`. */
  lemma NoLaterWrites(lines: seq<string>, i: nat, n: nat, name: string)
    requires i < n <= |lines|
    requires i + 1 == |lines| || IsTitle(lines[i + 1])
    requires TitleAbsentFrom(lines, i + 1, name)
    ensures LastValue(Writes(lines, n), Some(name)) == LastValue(Writes(lines, i + 1), Some(name))
  {
    forall j | i + 1 <= j < n
      ensures !Assigns(lines, j, Some(name))
    {
      NotWrittenAfter(lines, i, j, name);
    }
    KeptThrough(lines, i + 1, n, Some(name));
  }

  /** The last name of a block is the name recorded for its title, when the
      same title does not come back later in the officials. */
  lemma NameUnderTitle(s: string, t: nat, i: nat)
    requires t < i < |Lines(s)| && IsTitle(Lines(s)[t])
    requires NoTitleIn(Lines(s), t + 1, i + 1)
    requires i + 1 == |Lines(s)| || IsTitle(Lines(s)[i + 1])
    requires TitleAbsentFrom(Lines(s), i + 1, TitleOf(Lines(s)[t]))
    ensures Get(OfficialsOf(s), Some(TitleOf(Lines(s)[t]))) == Some(Some(Strip(Lines(s)[i])))
  {
    var lines := Lines(s);
    var k := Some(TitleOf(lines[t]));
    TitleBeforeLast(lines, t, i);
    NoLaterWrites(lines, i, |lines|, k.value);
    assert !IsTitle(lines[i]);
    assert Writes(lines, i + 1) == Writes(lines, i) + [(k, Some(Strip(lines[i])))];
    LastValueSome(Writes(lines, |lines|), k);
    GetPutAll([], Writes(lines, |lines|), k);
  }

  /** A "Head of Statistics" title with no name under it is recorded with no
      name, when no later title is "Head of Statistics" again. */
  lemma HeadOfStatisticsUnnamed(s: string, t: nat)
    requires t < |Lines(s)| && IsTitle(Lines(s)[t]) && TitleOf(Lines(s)[t]) == HeadOfStatistics
    requires t + 1 == |Lines(s)| || IsTitle(Lines(s)[t + 1])
    requires TitleAbsentFrom(Lines(s), t + 1, HeadOfStatistics)
    ensures Get(OfficialsOf(s), Some(HeadOfStatistics)) == Some(None)
  {
    var lines := Lines(s);
    NoLaterWrites(lines, t, |lines|, HeadOfStatistics);
    assert Writes(lines, t + 1) == Writes(lines, t) + [(Some(HeadOfStatistics), None)];
    LastValueSome(Writes(lines, |lines|), Some(HeadOfStatistics));
    GetPutAll([], Writes(lines, |lines|), Some(HeadOfStatistics));
  }

  /** No title line other than line `t` is titled `name`. */
  predicate OnlyTitleAt(lines: seq<string>, t: nat, name: string) {
    forall j :: 0 <= j < |lines| && j != t && IsTitle(lines[j]) ==> TitleOf(lines[j]) != name
  }

  /** Any other title with no name under it, and used by no other title line,
      is absent from the result. */
  lemma TitleWithoutName(s: string, t: nat)
    requires t < |Lines(s)| && IsTitle(Lines(s)[t]) && TitleOf(Lines(s)[t]) != HeadOfStatistics
    requires t + 1 == |Lines(s)| || IsTitle(Lines(s)[t + 1])
    requires OnlyTitleAt(Lines(s), t, TitleOf(Lines(s)[t]))
    ensures Some(TitleOf(Lines(s)[t])) !in Keys(OfficialsOf(s))
  {
    var lines := Lines(s);
    var k := Some(TitleOf(lines[t]));
    KeysPutAll([], Writes(lines, |lines|), k);
    UnusedTitle(lines, t, |lines|, k.value);
  }

  /** Line `j` does not assign the title of line `t` when that title is
      carried by no other title line and no name follows line `t`. */
  lemma NotWrittenElsewhere(lines: seq<string>, t: nat, j: nat, name: string)
    requires t < |lines| && j < |lines| && IsTitle(lines[t]) && name != HeadOfStatistics
    requires t + 1 == |lines| || IsTitle(lines[t + 1])
    requires OnlyTitleAt(lines, t, name)
    ensures !Assigns(lines, j, Some(name))
  {
    if !IsTitle(lines[j]) && TitleBefore(lines, j).Some? {
      if j > t + 1 {
        TitleBeforeFrom(lines, t + 1, j);
      } else {
        TitleBeforeSpec(lines, j);
      }
    }
  }

  lemma {:induction false} UnusedTitle(lines: seq<string>, t: nat, n: nat, name: string)
    requires t < |lines| && n <= |lines| && IsTitle(lines[t]) && name != HeadOfStatistics
    requires t + 1 == |lines| || IsTitle(lines[t + 1])
    requires OnlyTitleAt(lines, t, name)
    ensures Some(name) !in Keys(Writes(lines, n))
  {
    if n > 0 {
      UnusedTitle(lines, t, n - 1, name);
      NotWrittenElsewhere(lines, t, n - 1, name);
      KeysWrites(lines, n, Some(name));
    }
  }
}
