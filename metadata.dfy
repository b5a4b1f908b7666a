/** The game metadata of the first page: the league on the first line of the
    meta block, then `key: value` lines from the meta and weather blocks. The
    weather's `Temp` value carries the wind as well and is split in two. */
module Metadata {
  import opened Results
  import opened Dicts
  import opened PyText

  type Meta = Dict<string, string>

  /** `line.split(":", 1)` when it gives two pieces, both stripped. */
  function KeyValue(line: string): Option<(string, string)> {
    var pieces := SplitOnce(line, ":");
    if |pieces| == 2 then Some((Strip(pieces[0]), Strip(pieces[1]))) else None
  }

  /** The assignments made by the meta lines after the first, in order. */
  function MetaEntries(lines: seq<string>): seq<(string, string)>
    decreases |lines|
  {
    if lines == [] then []
    else
      var init := MetaEntries(lines[..|lines| - 1]);
      match KeyValue(lines[|lines| - 1])
      case None => init
      case Some(kv) => init + [kv]
  }

  /** The assignments made by one weather line: `Temp` is split at ", Wind:"
      into exactly two pieces, which become `Temp` and `Wind`. */
  function WeatherEntry(line: string): Result<seq<(string, string)>> {
    match KeyValue(line)
    case None => Ok([])
    case Some(kv) =>
      if kv.0 == "Temp" then
        var parts := Split(kv.1, ", Wind:");
        if |parts| != 2 then Err(UnpackError(2, |parts|))
        else Ok([("Temp", Strip(parts[0])), ("Wind", Strip(parts[1]))])
      else Ok([kv])
  }

  /** The assignments made by the weather lines, in order; the first line
      whose `Temp` value does not split in two is an error. */
  function WeatherEntries(lines: seq<string>): Result<seq<(string, string)>>
    decreases |lines|
  {
    if lines == [] then Ok([])
    else match WeatherEntries(lines[..|lines| - 1])
      case Err(e) => Err(e)
      case Ok(init) =>
        match WeatherEntry(lines[|lines| - 1])
        case Err(e) => Err(e)
        case Ok(es) => Ok(init + es)
  }

  function Lines(s: string): seq<string> {
    Split(Strip(s), "\n")
  }

  /** The dict before the weather block: "League" first, then the meta pairs. */
  function MetaPart(meta: string): Meta {
    var lines := Lines(meta);
    PutAll(Put([], "League", Strip(lines[0])), MetaEntries(lines[1..]))
  }

  /** `_parse_metadata(meta, weather)` */
  function MetadataOf(meta: string, weather: string): Result<Meta> {
    match WeatherEntries(Lines(weather))
    case Err(e) => Err(e)
    case Ok(ws) => Ok(PutAll(MetaPart(meta), ws))
  }

  /** An error among the first lines is the error of all the lines. */
  lemma {:induction false} WeatherPrefixErr(lines: seq<string>, i: nat)
    requires i <= |lines| && WeatherEntries(lines[..i]).Err?
    ensures WeatherEntries(lines) == WeatherEntries(lines[..i])
    decreases |lines| - i
  {
    if i < |lines| {
      assert lines[..i + 1][..i] == lines[..i];
      WeatherPrefixErr(lines, i + 1);
    } else {
      assert lines[..i] == lines;
    }
  }

  /** One more weather line adds its assignments, or its error. */
  lemma WeatherEntriesSnoc(lines: seq<string>, j: nat)
    requires j < |lines|
    ensures WeatherEntries(lines[..j + 1]) ==
            if WeatherEntries(lines[..j]).Err? then WeatherEntries(lines[..j])
            else if WeatherEntry(lines[j]).Err? then Err(WeatherEntry(lines[j]).error)
            else Ok(WeatherEntries(lines[..j]).value + WeatherEntry(lines[j]).value)
  {
    assert lines[..j + 1][..j] == lines[..j];
  }

  /** `_parse_metadata(meta, weather)`: the league, then the two loops. */
  method ParseMetadata(meta: string, weather: string) returns (r: Result<Meta>)
    ensures r == MetadataOf(meta, weather)
  {
    var lines := Lines(meta);
    var md: Meta := Put([], "League", Strip(lines[0]));
    md := ApplyMetaLines(md, lines[1..]);
    r := ApplyWeatherLines(md, Lines(weather));
  }

  /** The loop over the meta lines after the first. */
  method ApplyMetaLines(base: Meta, rest: seq<string>) returns (md: Meta)
    ensures md == PutAll(base, MetaEntries(rest))
  {
    md := base;
    var i := 0;
    while i < |rest|
      invariant i <= |rest|
      invariant md == PutAll(base, MetaEntries(rest[..i]))
    {
      var line := rest[i];
      assert rest[..i + 1][..i] == rest[..i];
      match KeyValue(line) {
        case None =>
        case Some(kv) =>
          PutAllSnoc(base, MetaEntries(rest[..i]), kv);
          md := Put(md, kv.0, kv.1);
      }
      i := i + 1;
    }
    assert rest[..i] == rest;
  }

  /** The loop over the weather lines; a `Temp` value that does not split in
      two stops it with an unpacking error. */
  method ApplyWeatherLines(base: Meta, wlines: seq<string>) returns (r: Result<Meta>)
    ensures r == if WeatherEntries(wlines).Err? then Err(WeatherEntries(wlines).error)
                 else Ok(PutAll(base, WeatherEntries(wlines).value))
  {
    var md := base;
    ghost var ws: seq<(string, string)> := [];
    var j := 0;
    while j < |wlines|
      invariant j <= |wlines|
      invariant WeatherEntries(wlines[..j]) == Ok(ws)
      invariant md == PutAll(base, ws)
    {
      var line := wlines[j];
      WeatherEntriesSnoc(wlines, j);
      match KeyValue(line) {
        case None =>
          assert ws + [] == ws;
        case Some(kv) =>
          if kv.0 == "Temp" {
            var parts := Split(kv.1, ", Wind:");
            if |parts| != 2 {
              WeatherPrefixErr(wlines, j + 1);
              return Err(UnpackError(2, |parts|));
            }
            var temp, wind := Strip(parts[0]), Strip(parts[1]);
            PutAllPair(base, ws, ("Temp", temp), ("Wind", wind));
            md := Put(md, "Temp", temp);
            md := Put(md, "Wind", wind);
            ws := ws + [("Temp", temp), ("Wind", wind)];
          } else {
            PutAllSnoc(base, ws, kv);
            md := Put(md, kv.0, kv.1);
            ws := ws + [kv];
          }
      }
      j := j + 1;
    }
    assert wlines[..j] == wlines;
    return Ok(md);
  }

  // ---------------------------------------------------------------------
  // What the metadata holds

  /** A weather line keyed `Temp` whose value does not split at ", Wind:"
      into exactly two pieces. */
  predicate TempUnsplit(line: string) {
    KeyValue(line).Some? && KeyValue(line).value.0 == "Temp" &&
    |Split(KeyValue(line).value.1, ", Wind:")| != 2
  }

  /** One weather line fails exactly when it is such a `Temp` line. */
  lemma WeatherEntryFails(line: string)
    ensures WeatherEntry(line).Err? <==> TempUnsplit(line)
  {
  }

  /** The weather block fails exactly when one of its lines is keyed `Temp`
      and its value does not split at ", Wind:" into exactly two pieces. */
  lemma {:induction false} WeatherFails(lines: seq<string>)
    decreases |lines|
    ensures WeatherEntries(lines).Err? <==> exists i :: 0 <= i < |lines| && TempUnsplit(lines[i])
  {
    if lines != [] {
      var init := lines[..|lines| - 1];
      var last := lines[|lines| - 1];
      WeatherFails(init);
      WeatherEntryFails(last);
      if WeatherEntries(init).Err? {
        var i :| 0 <= i < |init| && TempUnsplit(init[i]);
        assert lines[i] == init[i];
      } else if !TempUnsplit(last) {
        forall i | 0 <= i < |lines| ensures !TempUnsplit(lines[i]) {
          if i < |init| {
            assert lines[i] == init[i];
          }
        }
      }
    }
  }

  /** A key set by the weather block holds the value of its last assignment
      there; the meta block and the league cannot overwrite it. */
  lemma WeatherWins(meta: string, weather: string, k: string)
    requires WeatherEntries(Lines(weather)).Ok?
    requires k in Keys(WeatherEntries(Lines(weather)).value)
    ensures Get(MetadataOf(meta, weather).value, k) == LastValue(WeatherEntries(Lines(weather)).value, k)
  {
    GetPutAll(MetaPart(meta), WeatherEntries(Lines(weather)).value, k);
  }

  /** A key the weather block does not set holds its last value from the meta
      lines after the first. */
  lemma MetaKeys(meta: string, weather: string, k: string)
    requires WeatherEntries(Lines(weather)).Ok?
    requires k !in Keys(WeatherEntries(Lines(weather)).value)
    requires k in Keys(MetaEntries(Lines(meta)[1..]))
    ensures Get(MetadataOf(meta, weather).value, k) == LastValue(MetaEntries(Lines(meta)[1..]), k)
  {
    var lines := Lines(meta);
    GetPutAll(MetaPart(meta), WeatherEntries(Lines(weather)).value, k);
    GetPutAll(Put([], "League", Strip(lines[0])), MetaEntries(lines[1..]), k);
  }

  /** "League" is the stripped first meta line unless a later line is keyed
      "League" as well. */
  lemma League(meta: string, weather: string)
    requires WeatherEntries(Lines(weather)).Ok?
    requires "League" !in Keys(WeatherEntries(Lines(weather)).value)
    requires "League" !in Keys(MetaEntries(Lines(meta)[1..]))
    ensures Get(MetadataOf(meta, weather).value, "League") == Some(Strip(Lines(meta)[0]))
  {
    var lines := Lines(meta);
    GetPutAll(MetaPart(meta), WeatherEntries(Lines(weather)).value, "League");
    GetPutAll(Put([], "League", Strip(lines[0])), MetaEntries(lines[1..]), "League");
    PutSpec([], "League", Strip(lines[0]));
  }
}
