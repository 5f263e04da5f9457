/**
 * `listRunningZones` of lib/common.js: parse the output of `zoneadm list -p`
 * into a table from zone uuid to the zone's instance id and its instrumenter.
 * Spawning zoneadm is not modelled: its outcome (an error, or its stdout) is
 * an argument, and the asynchronous pipeline over the lines is a plain loop.
 */
module ZoneList {
  import opened Wrappers
  import opened JsText
  import opened VmCatalog

  /** One entry of the zone table: `{instance: zoneid, metrics: new VM(...)}`. */
  datatype Zone<R> = Zone(instance: int, metrics: Vm<R>)

  /** What reaches the caller instead of a table: the error zoneadm reported, or the
      error the instrumenter's constructor threw. */
  datatype ListError<E> = ExecFailed(cause: E) | VmThrew(thrown: VmError)

  /** The colon-separated fields of a line of `zoneadm list -p`. */
  function Fields(line: string): seq<string> {
    Split(line, ':')
  }

  /** What the loop reads from a line: `parseInt(vals[0], 10)` (NaN is `None`) and
      `vals[4]` (`undefined` is `None`, when the line has fewer than five fields). */
  datatype LineInfo = LineInfo(zoneid: Option<int>, uuid: Option<string>)

  function ParseLine(line: string): LineInfo {
    var vals := Fields(line);
    LineInfo(ParseInt(vals[0]), if |vals| > 4 then Some(vals[4]) else None)
  }

  function ParseLines(lines: seq<string>): seq<LineInfo> {
    seq(|lines|, i requires 0 <= i < |lines| => ParseLine(lines[i]))
  }

  /** `zoneid > 0`: false for the global zone (0), negative ids and NaN. */
  predicate Kept(l: LineInfo) {
    l.zoneid.Some? && l.zoneid.value > 0
  }

  /** The line is kept and names the zone `uuid`. */
  predicate Names(l: LineInfo, uuid: string) {
    Kept(l) && l.uuid == Some(uuid)
  }

  /** The effect of one line on the table: a skipped line leaves it alone, a kept line
      overwrites the entry of its uuid and no other, and a kept line without a uuid makes
      the constructor throw. */
  function AddLine<R>(zones: map<string, Zone<R>>, l: LineInfo, reader: R): (r: Result<map<string, Zone<R>>, VmError>)
    ensures !Kept(l) ==> r == Ok(zones)
    ensures Kept(l) && l.uuid.None? ==> r == Err(UuidRequired)
    ensures Kept(l) && l.uuid.Some? ==>
      && r.Ok?
      && r.value.Keys == zones.Keys + {l.uuid.value}
      && r.value[l.uuid.value].instance == l.zoneid.value
      && (forall k :: k in zones && k != l.uuid.value ==> r.value[k] == zones[k])
  {
    if !Kept(l) then Ok(zones)
    else
      var id := l.zoneid.value;
      match NewVm(l.uuid, Some(id), reader)
      case Err(e) => Err(e)
      case Ok(vm) => Ok(zones[vm.uuid := Zone(id, vm)])
  }

  /** The table after the given lines, in order; the first throwing constructor ends it. */
  function ZonesOf<R>(lines: seq<LineInfo>, reader: R): Result<map<string, Zone<R>>, VmError> {
    if lines == [] then Ok(map[])
    else
      match ZonesOf(lines[..|lines| - 1], reader)
      case Err(e) => Err(e)
      case Ok(zones) => AddLine(zones, lines[|lines| - 1], reader)
  }

  /** The lines of zoneadm's output: `stdout.trim().split('\n')`. */
  function ZoneLines(stdout: string): seq<string> {
    Split(Trim(stdout), '\n')
  }

  /** What the callback of `listRunningZones` receives. */
  function RunningZones<R, E>(reader: R, zoneadm: Result<string, E>): Result<map<string, Zone<R>>, ListError<E>> {
    match zoneadm
    case Err(e) => Err(ExecFailed(e))
    case Ok(stdout) =>
      match ZonesOf(ParseLines(ZoneLines(stdout)), reader)
      case Ok(zones) => Ok(zones)
      case Err(e) => Err(VmThrew(e))
  }

  /** `listRunningZones(reader, cb)` once zoneadm has finished: fills the table line by line. */
  method ListRunningZones<R, E>(reader: R, zoneadm: Result<string, E>) returns (r: Result<map<string, Zone<R>>, ListError<E>>)
    ensures r == RunningZones(reader, zoneadm)
  {
    if zoneadm.Err? {
      return Err(ExecFailed(zoneadm.error));
    }
    var lines := Split(Trim(zoneadm.value), '\n');
    ghost var infos := ParseLines(lines);
    var zones: map<string, Zone<R>> := map[];
    var i := 0;
    while i < |lines|
      invariant 0 <= i <= |lines|
      invariant ZonesOf(infos[..i], reader) == Ok(zones)
    {
      ZonesOfStep(infos, i, reader);
      ghost var next := AddLine(zones, infos[i], reader);
      var vals := Split(lines[i], ':');
      var zoneid := ParseInt(vals[0]);
      assert infos[i] == ParseLine(lines[i]);
      assert infos[i] == LineInfo(zoneid, if |vals| > 4 then Some(vals[4]) else None);
      if zoneid.Some? && zoneid.value > 0 {
        var uuid := if |vals| > 4 then Some(vals[4]) else None;
        var vm := NewVm(uuid, Some(zoneid.value), reader);
        if vm.Err? {
          assert next == Err(vm.error);
          ZonesOfStopsAtError(infos, i + 1, reader);
          return Err(VmThrew(vm.error));
        }
        zones := zones[uuid.value := Zone(zoneid.value, vm.value)];
      }
      assert next == Ok(zones);
      i := i + 1;
    }
    assert infos[..|lines|] == infos;
    r := Ok(zones);
  }

  /** One more line: the table of the longer prefix is the shorter one's plus that line. */
  lemma ZonesOfStep<R>(lines: seq<LineInfo>, i: nat, reader: R)
    requires i < |lines| && ZonesOf(lines[..i], reader).Ok?
    ensures ZonesOf(lines[..i + 1], reader) == AddLine(ZonesOf(lines[..i], reader).value, lines[i], reader)
  {
    assert lines[..i + 1][..i] == lines[..i];
  }

  /** Once a prefix of the lines ends in an error, so do all the lines, with that error. */
  lemma {:induction false} ZonesOfStopsAtError<R>(lines: seq<LineInfo>, n: nat, reader: R)
    requires n <= |lines| && ZonesOf(lines[..n], reader).Err?
    ensures ZonesOf(lines, reader) == ZonesOf(lines[..n], reader)
  {
    if n < |lines| {
      var prefix := lines[..|lines| - 1];
      assert prefix[..n] == lines[..n];
      ZonesOfStopsAtError(prefix, n, reader);
    } else {
      assert lines[..n] == lines;
    }
  }

  /** Line `i` is the last kept line that names `uuid`. */
  predicate LastNaming(lines: seq<LineInfo>, uuid: string, i: int) {
    && 0 <= i < |lines| && Names(lines[i], uuid)
    && forall j :: i < j < |lines| ==> !Names(lines[j], uuid)
  }

  /** The table holds exactly the uuids that kept lines name. */
  lemma {:induction false} ZonesOfKeys<R>(lines: seq<LineInfo>, reader: R)
    requires ZonesOf(lines, reader).Ok?
    ensures forall k :: k in ZonesOf(lines, reader).value <==> exists i :: 0 <= i < |lines| && Names(lines[i], k)
  {
    if lines != [] {
      var prefix := lines[..|lines| - 1];
      var last := lines[|lines| - 1];
      ZonesOfKeys(prefix, reader);
      var after := ZonesOf(lines, reader).value;
      forall k
        ensures k in after <==> exists i :: 0 <= i < |lines| && Names(lines[i], k)
      {
        if k in after && !Names(last, k) {
          var i :| 0 <= i < |prefix| && Names(prefix[i], k);
          assert lines[i] == prefix[i];
        }
        if i :| 0 <= i < |lines| && Names(lines[i], k) {
          if i < |prefix| {
            assert prefix[i] == lines[i];
          }
        }
      }
    }
  }

  /** Each entry comes from the last kept line that names its uuid: later lines
      overwrite earlier ones. */
  lemma {:induction false} ZonesOfLastWins<R>(lines: seq<LineInfo>, reader: R)
    requires ZonesOf(lines, reader).Ok?
    ensures forall k :: k in ZonesOf(lines, reader).value ==>
      exists i :: LastNaming(lines, k, i) && ZonesOf(lines, reader).value[k].instance == lines[i].zoneid.value
  {
    if lines != [] {
      var prefix := lines[..|lines| - 1];
      var last := lines[|lines| - 1];
      ZonesOfLastWins(prefix, reader);
      var before := ZonesOf(prefix, reader).value;
      var after := ZonesOf(lines, reader).value;
      forall k | k in after
        ensures exists i :: LastNaming(lines, k, i) && after[k].instance == lines[i].zoneid.value
      {
        if Names(last, k) {
          assert LastNaming(lines, k, |lines| - 1);
        } else {
          var i :| LastNaming(prefix, k, i) && before[k].instance == prefix[i].zoneid.value;
          assert lines[i] == prefix[i];
          forall j | i < j < |lines| ensures !Names(lines[j], k) {
            if j < |prefix| {
              assert lines[j] == prefix[j];
            }
          }
          assert LastNaming(lines, k, i);
        }
      }
    }
  }

  /** Every entry is keyed by its instrumenter's uuid, has a positive instance id, and
      holds the instrumenter built from that uuid and id. */
  lemma {:induction false} ZonesOfWellFormed<R>(lines: seq<LineInfo>, reader: R)
    requires ZonesOf(lines, reader).Ok?
    ensures forall k :: k in ZonesOf(lines, reader).value ==>
      var z := ZonesOf(lines, reader).value[k];
      && z.instance > 0
      && NewVm(Some(k), Some(z.instance), reader) == Ok(z.metrics)
  {
    if lines != [] {
      ZonesOfWellFormed(lines[..|lines| - 1], reader);
    }
  }

  /** The constructor throws, and the listing fails, exactly when some kept line has fewer
      than five fields; the error is then the missing uuid. */
  lemma {:induction false} ZonesOfThrows<R>(lines: seq<LineInfo>, reader: R)
    ensures ZonesOf(lines, reader).Err? <==>
      exists i :: 0 <= i < |lines| && Kept(lines[i]) && lines[i].uuid.None?
    ensures ZonesOf(lines, reader).Err? ==> ZonesOf(lines, reader).error == UuidRequired
  {
    if lines != [] {
      var prefix := lines[..|lines| - 1];
      var last := lines[|lines| - 1];
      ZonesOfThrows(prefix, reader);
      if exists i :: 0 <= i < |lines| && Kept(lines[i]) && lines[i].uuid.None? {
        var i :| 0 <= i < |lines| && Kept(lines[i]) && lines[i].uuid.None?;
        if i < |prefix| {
          assert prefix[i] == lines[i];
        }
      }
      if ZonesOf(prefix, reader).Err? {
        var i :| 0 <= i < |prefix| && Kept(prefix[i]) && prefix[i].uuid.None?;
        assert lines[i] == prefix[i];
      }
    }
  }

  /** A zoneadm failure reaches the callback unchanged, with no table. */
  lemma ExecFailurePropagates<R, E>(reader: R, e: E)
    ensures RunningZones(reader, Err(e)) == Err(ExecFailed(e))
  {
  }

  /** Output made of white space only (the empty output included) gives an empty table:
      it splits into one empty line, whose id is NaN. */
  lemma BlankOutputGivesNoZones<R, E>(reader: R, stdout: string)
    requires AllWhiteSpace(stdout)
    ensures RunningZones<R, E>(reader, Ok(stdout)) == Ok(map[])
  {
    TrimAllWhiteSpace(stdout);
    assert ZoneLines(stdout) == [""];
    assert Fields("") == [""];
    ParseIntNaN("");
    assert ParseLine("") == LineInfo(None, None);
    var infos := ParseLines([""]);
    assert infos == [LineInfo(None, None)];
    assert infos[..0] == [];
    assert ZonesOf<R>(infos, reader) == Ok(map[]);
  }

  /** A line made of colon-free fields is read as its first and fifth field. */
  lemma ParseLineOfFields(parts: seq<string>)
    requires |parts| >= 1 && forall i :: 0 <= i < |parts| ==> ':' !in parts[i]
    ensures ParseLine(Join(parts, ':')) == LineInfo(ParseInt(parts[0]), if |parts| > 4 then Some(parts[4]) else None)
  {
    SplitJoin(parts, ':');
  }

  /** The global zone's line, whose id is 0, is skipped. */
  lemma GlobalZoneSkipped(rest: string)
    ensures !Kept(ParseLine("0:" + rest))
  {
    SplitPrefix("0", rest, ':');
    assert "0" + [':'] + rest == "0:" + rest;
    assert Decimal(0) + "" == "0";
    ParseIntDecimal(0, "");
  }

  /** A line whose id is written with a minus sign is skipped. */
  lemma NegativeIdSkipped(id: string, rest: string)
    requires ':' !in id && id != [] && id[0] == '-'
    ensures !Kept(ParseLine(id + ":" + rest))
  {
    SplitPrefix(id, rest, ':');
    assert id + [':'] + rest == id + ":" + rest;
    TrimStartIdle(id);
    ParseIntMinus(id);
  }

  /** A line whose id field is not a number is skipped: NaN is not positive. */
  lemma NonNumericIdSkipped(id: string, rest: string)
    requires ':' !in id
    requires id == [] || (!IsDigit(id[0]) && !IsJsWhiteSpace(id[0]) && id[0] != '-' && id[0] != '+')
    ensures !Kept(ParseLine(id + ":" + rest))
  {
    SplitPrefix(id, rest, ':');
    assert id + [':'] + rest == id + ":" + rest;
    ParseIntNaN(id);
  }

  /** The fields zoneadm prints for a running tenant zone: id, name, state, path, uuid,
      brand and ip-type. */
  function TenantFields(zoneid: nat, uuid: string): seq<string> {
    [Decimal(zoneid), uuid, "running", "/zones/" + uuid, uuid, "joyent", "excl"]
  }

  /** The fields zoneadm prints for the global zone, whose uuid field is empty; its brand
      depends on the platform. */
  function GlobalFields(brand: string): seq<string> {
    ["0", "global", "running", "/", "", brand, "shared"]
  }

  lemma TenantFieldsColonFree(zoneid: nat, uuid: string)
    requires ':' !in uuid && '\n' !in uuid
    ensures forall i :: 0 <= i < 7 ==> ':' !in TenantFields(zoneid, uuid)[i] && '\n' !in TenantFields(zoneid, uuid)[i]
  {
    var d := Decimal(zoneid);
    assert ':' !in d && '\n' !in d by {
      forall k | 0 <= k < |d| ensures d[k] != ':' && d[k] != '\n' {
        assert IsDigit(d[k]);
      }
    }
  }

  /** The lines of a listing of the global zone and two tenants, ids 3 and 7. */
  function TwoTenantLines(brand: string, a: string, b: string): seq<string> {
    [Join(GlobalFields(brand), ':'), Join(TenantFields(3, a), ':'), Join(TenantFields(7, b), ':')]
  }

  /** A tenant's line reads as its id and uuid, holds no newline and ends in "excl". */
  lemma TenantLine(zoneid: nat, uuid: string)
    requires ':' !in uuid && '\n' !in uuid
    ensures var line := Join(TenantFields(zoneid, uuid), ':');
      && ParseLine(line) == LineInfo(Some(zoneid), Some(uuid))
      && '\n' !in line && line != [] && line[|line| - 1] == 'l'
  {
    var parts := TenantFields(zoneid, uuid);
    TenantFieldsColonFree(zoneid, uuid);
    ParseLineOfFields(parts);
    ParseIntDecimal(zoneid, "");
    assert Decimal(zoneid) + "" == Decimal(zoneid);
    JoinExcludes(parts, ':', '\n');
    JoinLastOnly(parts, ':');
  }

  /** The global zone's line reads as id 0, holds no newline and starts with '0'. */
  lemma GlobalLine(brand: string)
    requires ':' !in brand && '\n' !in brand
    ensures var line := Join(GlobalFields(brand), ':');
      && ParseLine(line) == LineInfo(Some(0), Some(""))
      && '\n' !in line && line != [] && line[0] == '0'
  {
    var parts := GlobalFields(brand);
    assert forall i :: 0 <= i < 7 ==> ':' !in parts[i] && '\n' !in parts[i];
    ParseLineOfFields(parts);
    assert Decimal(0) == "0" && "0" + "" == "0";
    ParseIntDecimal(0, "");
    JoinExcludes(parts, ':', '\n');
    JoinEnds(parts, ':');
  }

  /** Newline-free lines, the first starting and the last ending with a non-blank
      character, come back from zoneadm's output as they were printed. */
  lemma ZoneLinesOfOutput(lines: seq<string>)
    requires |lines| >= 1 && forall i :: 0 <= i < |lines| ==> '\n' !in lines[i]
    requires lines[0] != [] && !IsJsWhiteSpace(lines[0][0])
    requires lines[|lines| - 1] != [] && !IsJsWhiteSpace(lines[|lines| - 1][|lines[|lines| - 1]| - 1])
    ensures ZoneLines(Join(lines, '\n') + "\n") == lines
  {
    JoinEnds(lines, '\n');
    TrimFinalNewline(Join(lines, '\n'));
    SplitJoin(lines, '\n');
  }

  lemma TwoTenantTable<R>(reader: R, a: string, b: string)
    requires a != b
    ensures ZonesOf([LineInfo(Some(0), Some("")), LineInfo(Some(3), Some(a)), LineInfo(Some(7), Some(b))], reader)
      == Ok(map[a := Zone(3, NewVm(Some(a), Some(3), reader).value),
                b := Zone(7, NewVm(Some(b), Some(7), reader).value)])
  {
    var infos := [LineInfo(Some(0), Some("")), LineInfo(Some(3), Some(a)), LineInfo(Some(7), Some(b))];
    assert infos[..2][..1] == infos[..1] && infos[..1][..0] == [];
    assert ZonesOf(infos[..1], reader) == Ok(map[]);
    assert ZonesOf(infos[..2], reader) == Ok(map[a := Zone(3, NewVm(Some(a), Some(3), reader).value)]);
  }

  /** A host running the global zone and two tenant zones, with ids 3 and 7, lists exactly
      the two tenants, keyed by their uuids, each with its id and its instrumenter. */
  lemma TwoTenantListing<R, E>(reader: R, brand: string, a: string, b: string)
    requires a != b
    requires ':' !in brand && '\n' !in brand
    requires ':' !in a && '\n' !in a && ':' !in b && '\n' !in b
    ensures RunningZones<R, E>(reader, Ok(Join(TwoTenantLines(brand, a, b), '\n') + "\n"))
      == Ok(map[a := Zone(3, NewVm(Some(a), Some(3), reader).value),
                b := Zone(7, NewVm(Some(b), Some(7), reader).value)])
  {
    TwoTenantLineInfos(brand, a, b);
    TwoTenantTable(reader, a, b);
  }

  lemma TwoTenantLineInfos(brand: string, a: string, b: string)
    requires ':' !in brand && '\n' !in brand
    requires ':' !in a && '\n' !in a && ':' !in b && '\n' !in b
    ensures ParseLines(ZoneLines(Join(TwoTenantLines(brand, a, b), '\n') + "\n"))
      == [LineInfo(Some(0), Some("")), LineInfo(Some(3), Some(a)), LineInfo(Some(7), Some(b))]
  {
    GlobalLine(brand);
    TenantLine(3, a);
    TenantLine(7, b);
    ThreeLineOutput(Join(GlobalFields(brand), ':'), Join(TenantFields(3, a), ':'), Join(TenantFields(7, b), ':'));
  }

  /** Three printed lines come back from the output, each read by ParseLine. */
  lemma ThreeLineOutput(x: string, y: string, z: string)
    requires '\n' !in x && '\n' !in y && '\n' !in z
    requires x != [] && !IsJsWhiteSpace(x[0]) && z != [] && !IsJsWhiteSpace(z[|z| - 1])
    ensures ParseLines(ZoneLines(Join([x, y, z], '\n') + "\n")) == [ParseLine(x), ParseLine(y), ParseLine(z)]
  {
    ZoneLinesOfOutput([x, y, z]);
    assert ParseLines([x, y, z]) == [ParseLine(x), ParseLine(y), ParseLine(z)];
  }
}
