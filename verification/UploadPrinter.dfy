/** The bench tool's side of the upload (tools/write_bench.py:399-459): build_upload checks
and prints a payload and predicts the hash the firmware will report.

The tool's entry specs arrive as text and are read field by field; what reads an integer
is a parameter. Behind that, an entry is any list of integers, of any length, size and sign.
*/
module UploadPrinter {
  import opened Text
  import opened ScheduleCodec
  import opened Fnv
  import opened Numbers
  import opened LayerImages

  // ---------------------------------------------------------------------------
  // The hash mirror
  // ---------------------------------------------------------------------------

  function BuiltImages(es: seq<Entry>): Images
    requires AllStorable(es)
  {
    seq<Image>(5, layer requires 0 <= layer < 5 => BuiltImage(es, layer))
  }

  // Six bytes of one cell.
  function CellBytes(r: Option<Entry>): (s: seq<byte>)
    requires r.Some? ==> Storable(r.value)
    ensures |s| == 6 && forall k :: 0 <= k < 6 ==> s[k] == CellByte(r, k)
  {
    match r
    case None => [0, 0, 0, 0, 0, 0]
    case Some(e) => [0x01, 0x02, e.beginHour, e.beginMinute, e.endHour, e.endMinute]
  }

  // In a hash input made of built images, byte i belongs to this cell of this layer.
  lemma BuiltByte(es: seq<Entry>, enabled: bool, i: nat)
    requires AllStorable(es) && i < 210
    ensures HashedBytes(BuiltImages(es), enabled)[i] == CellByte(Lookup(es, i / 42, i % 42 / 6), i % 42 % 6)
  {
    var image := BuiltImage(es, i / 42);
    CanonicalIsStable(image, es, i / 42);
    assert Canonical(image)[i % 42] == image[i % 42];
  }

  lemma CellOfByte(layer: nat, day: nat, k: nat)
    requires layer < 5 && day < 7 && k < 6
    ensures var i := layer * 42 + day * 6 + k;
            i < 210 && i / 42 == layer && i % 42 / 6 == day && i % 42 % 6 == k
  {}

  lemma CellSlice(es: seq<Entry>, enabled: bool, layer: nat, day: nat)
    requires AllStorable(es) && layer < 5 && day < 7
    ensures var at := layer * 42 + day * 6;
            HashedBytes(BuiltImages(es), enabled)[at..at + 6] == CellBytes(Lookup(es, layer, day))
  {
    hide CellByte, BuiltImages, HashedByte;
    var at := layer * 42 + day * 6;
    forall k | 0 <= k < 6
      ensures HashedBytes(BuiltImages(es), enabled)[at..at + 6][k] == CellBytes(Lookup(es, layer, day))[k]
    {
      CellOfByte(layer, day, k);
      BuiltByte(es, enabled, at + k);
    }
  }

  method GridOf(es: seq<Entry>) returns (grid: map<Cell, Entry>)
    requires AllStorable(es)
    ensures forall l: nat, d: nat :: (l, d) in grid <==> Lookup(es, l, d).Some?
    ensures forall l: nat, d: nat :: (l, d) in grid ==> Lookup(es, l, d) == Some(grid[(l, d)])
  {
    grid := map[];
    for n := 0 to |es|
      invariant forall l: nat, d: nat :: (l, d) in grid <==> Lookup(es[..n], l, d).Some?
      invariant forall l: nat, d: nat :: (l, d) in grid ==> Lookup(es[..n], l, d) == Some(grid[(l, d)])
    {
      assert es[..n + 1][..n] == es[..n];
      grid := grid[CellOf(es[n]) := es[n]];
    }
    assert es[..|es|] == es;
  }

  /** _canonical_hash: what the firmware would hash had the upload been stored. */
  method CanonicalHash(es: seq<Entry>, enabled: bool) returns (text: string)
    requires AllStorable(es)
    ensures text == ScheduleHash(BuiltImages(es), enabled)
  {
    var grid := GridOf(es);
    ghost var target := HashedBytes(BuiltImages(es), enabled);
    var buf: seq<byte> := [];
    for layer := 0 to 5
      invariant |buf| == layer * 42 && buf == target[..|buf|]
    {
      for day := 0 to 7
        invariant |buf| == layer * 42 + day * 6 && buf == target[..|buf|]
      {
        var cell := if (layer, day) in grid then Some(grid[(layer, day)]) else None;
        assert cell == Lookup(es, layer, day);
        CellSlice(es, enabled, layer, day);
        ghost var before := |buf|;
        assert target[..before + 6] == target[..before] + target[before..before + 6];
        buf := buf + CellBytes(cell);
      }
    }
    buf := buf + [if enabled then 0x01 else 0x00];
    assert buf == target;
    var h := Fnv1a64(buf);
    text := HashText(h);
  }

  // ---------------------------------------------------------------------------
  // The printer
  // ---------------------------------------------------------------------------

  predicate ValidFields(f: seq<int>) {
    |f| == 6 &&
    0 <= f[0] <= 4 && 0 <= f[1] <= 6 &&
    0 <= f[2] <= 23 && 0 <= f[4] <= 23 && 0 <= f[3] <= 59 && 0 <= f[5] <= 59 &&
    f[2] * 60 + f[3] != f[4] * 60 + f[5]
  }

  function EntryFrom(f: seq<int>): (e: Entry)
    requires ValidFields(f)
    ensures IsEntry(e)
  {
    Entry(f[0], f[1], f[2], f[3], f[4], f[5])
  }

  predicate AllValid(args: seq<seq<int>>) {
    forall i :: 0 <= i < |args| ==> ValidFields(args[i])
  }

  function EntriesFrom(args: seq<seq<int>>): (es: seq<Entry>)
    requires AllValid(args)
    ensures |es| == |args| && forall i :: 0 <= i < |es| ==> es[i] == EntryFrom(args[i])
  {
    seq(|args|, i requires 0 <= i < |args| => EntryFrom(args[i]))
  }

  predicate Accepts(enabled: string, args: seq<seq<int>>) {
    ParseFlag(enabled).Some? && |args| <= MAX_ENTRIES && AllValid(args) && DistinctCells(EntriesFrom(args))
  }

  function Decimals(f: seq<int>): (s: seq<string>)
    ensures |s| == |f| && forall j :: 0 <= j < |f| ==> s[j] == Decimal(f[j])
  {
    seq(|f|, j requires 0 <= j < |f| => Decimal(f[j]))
  }

  function PrintEntry(f: seq<int>): string {
    Join(Decimals(f), ',')
  }

  function Pieces(enabled: string, args: seq<seq<int>>): (s: seq<string>)
    ensures |s| == |args| + 1 && s[0] == "v1," + enabled
    ensures forall i :: 0 <= i < |args| ==> s[i + 1] == PrintEntry(args[i])
  {
    ["v1," + enabled] + seq(|args|, i requires 0 <= i < |args| => PrintEntry(args[i]))
  }

  /** The payload text for a flag and entries, whatever they are. */
  function Print(enabled: string, args: seq<seq<int>>): string {
    Join(Pieces(enabled, args), ';')
  }

  datatype Upload = Upload(payload: string, expectedHash: string)

  function ExpectedHash(enabled: string, args: seq<seq<int>>): string
    requires AllValid(args)
  {
    var es := EntriesFrom(args);
    if enabled == "0" || enabled == "1" then ScheduleHash(BuiltImages(es), enabled == "1") else "(n/a)"
  }

  // The checks on one spec.
  method CheckFields(f: seq<int>) returns (r: Result<Entry>)
    ensures r.Ok? <==> ValidFields(f)
    ensures r.Ok? ==> r.value == EntryFrom(f)
  {
    if |f| != 6 {
      return Err("entry needs 6 comma-separated fields");
    }
    var layer, day, sh, sm, eh, em := f[0], f[1], f[2], f[3], f[4], f[5];
    if !(0 <= layer <= 4) {
      return Err("layer must be 0-4");
    }
    if !(0 <= day <= 6) {
      return Err("day must be 0-6");
    }
    if !(0 <= sh <= 23 && 0 <= eh <= 23) {
      return Err("hour must be 0-23");
    }
    if !(0 <= sm <= 59 && 0 <= em <= 59) {
      return Err("minute must be 0-59");
    }
    if sh * 60 + sm == eh * 60 + em {
      return Err("start and end are the same minute");
    }
    return Ok(Entry(layer, day, sh, sm, eh, em));
  }

  // Python's int(), which reads a field or raises: any function will do.
  type IntOf = string -> Option<int>

  // All the fields as integers, if every one of them reads as one.
  function Ints(parts: seq<string>, intOf: IntOf): Option<seq<int>> {
    if forall j :: 0 <= j < |parts| ==> intOf(parts[j]).Some?
    then Some(seq(|parts|, j requires 0 <= j < |parts| && intOf(parts[j]).Some? => intOf(parts[j]).value))
    else None
  }

  function FieldsOf(spec: string, intOf: IntOf): Option<seq<int>> {
    Ints(Split(spec, ','), intOf)
  }

  predicate AllRead(specs: seq<string>, intOf: IntOf) {
    forall i :: 0 <= i < |specs| ==> FieldsOf(specs[i], intOf).Some?
  }

  // The command line's entries, each as its list of integers.
  function ArgsOf(specs: seq<string>, intOf: IntOf): (args: seq<seq<int>>)
    requires AllRead(specs, intOf)
    ensures |args| == |specs| && forall i :: 0 <= i < |specs| ==> FieldsOf(specs[i], intOf) == Some(args[i])
  {
    seq(|specs|, i requires 0 <= i < |specs| && FieldsOf(specs[i], intOf).Some? => FieldsOf(specs[i], intOf).value)
  }

  predicate AcceptsSpecs(enabled: string, specs: seq<string>, intOf: IntOf) {
    AllRead(specs, intOf) && Accepts(enabled, ArgsOf(specs, intOf))
  }

  method ReadFields(spec: string, intOf: IntOf) returns (r: Option<seq<int>>)
    ensures r == FieldsOf(spec, intOf)
  {
    var parts := SplitText(spec, ',');
    var fields: seq<int> := [];
    for j := 0 to |parts|
      invariant |fields| == j && forall k :: 0 <= k < j ==> intOf(parts[k]) == Some(fields[k])
    {
      var x := intOf(parts[j]);
      if x.None? {
        return None;
      }
      fields := fields + [x.value];
    }
    assert Ints(parts, intOf).value == fields;
    return Some(fields);
  }

  // Entries 0 to i have been read and checked, and no two share a cell.
  ghost predicate ReadSoFar(specs: seq<string>, intOf: IntOf, i: nat, entries: seq<Entry>)
    requires i <= |specs|
  {
    AllRead(specs[..i], intOf) && AllValid(ArgsOf(specs[..i], intOf)) &&
    entries == EntriesFrom(ArgsOf(specs[..i], intOf)) && DistinctCells(entries)
  }

  /** build_upload: a list of entries and a set of seen cells grow side by side. */
  method BuildUpload(enabled: string, specs: seq<string>, intOf: IntOf) returns (r: Result<Upload>)
    ensures r.Ok? <==> AcceptsSpecs(enabled, specs, intOf)
    ensures r.Ok? ==> var args := ArgsOf(specs, intOf);
                      r.value == Upload(Print(enabled, args), ExpectedHash(enabled, args))
  {
    hide Cells, DistinctCells, FieldsOf, ValidFields;
    if enabled != "0" && enabled != "1" && enabled != "-" {
      return Err("enabled flag must be 0, 1 or -");
    }
    if |specs| > 35 {
      return Err("more than 35 entries");
    }
    var entries: seq<Entry> := [];
    var seen: set<Cell> := {};
    NothingReadYet(specs, intOf);
    for i := 0 to |specs|
      invariant ReadSoFar(specs, intOf, i, entries) && seen == Cells(entries)
    {
      var fields := ReadFields(specs[i], intOf);
      if fields.None? {
        return Err("non-numeric field in entry");
      }
      var checked := CheckFields(fields.value);
      if checked.Err? {
        return Err(checked.reason);
      }
      var entry := checked.value;
      if CellOf(entry) in seen {
        RepeatsSpec(specs, intOf, i, entries);
        return Err("duplicate (layer, day) cell");
      }
      CellsSnoc(entries, entry);
      OneMoreRead(specs, intOf, i, entries);
      seen := seen + {CellOf(entry)};
      entries := entries + [entry];
    }
    assert specs[..|specs|] == specs;
    var payload := Print(enabled, ArgsOf(specs, intOf));
    var expected := "(n/a)";
    if enabled == "0" || enabled == "1" {
      expected := CanonicalHash(entries, enabled == "1");
    }
    return Ok(Upload(payload, expected));
  }

  lemma NothingReadYet(specs: seq<string>, intOf: IntOf)
    ensures ReadSoFar(specs, intOf, 0, []) && Cells([]) == {}
  {}

  lemma ArgsOfPrefix(specs: seq<string>, intOf: IntOf, i: nat)
    requires i <= |specs| && AllRead(specs, intOf)
    ensures AllRead(specs[..i], intOf) && ArgsOf(specs, intOf)[..i] == ArgsOf(specs[..i], intOf)
  {
    assert forall k :: 0 <= k < i ==> specs[..i][k] == specs[k];
  }

  lemma OneMoreRead(specs: seq<string>, intOf: IntOf, i: nat, entries: seq<Entry>)
    requires i < |specs| && ReadSoFar(specs, intOf, i, entries)
    requires FieldsOf(specs[i], intOf).Some? && ValidFields(FieldsOf(specs[i], intOf).value)
    requires CellOf(EntryFrom(FieldsOf(specs[i], intOf).value)) !in Cells(entries)
    ensures ReadSoFar(specs, intOf, i + 1, entries + [EntryFrom(FieldsOf(specs[i], intOf).value)])
  {
    hide FieldsOf, ValidFields, Cells, DistinctCells;
    var fields := FieldsOf(specs[i], intOf).value;
    assert forall k :: 0 <= k < i ==> specs[..i + 1][k] == specs[..i][k];
    assert specs[..i + 1][i] == specs[i];
    assert ArgsOf(specs[..i + 1], intOf) == ArgsOf(specs[..i], intOf) + [fields];
    DistinctSnoc(entries, EntryFrom(fields));
  }

  lemma RepeatsSpec(specs: seq<string>, intOf: IntOf, i: nat, entries: seq<Entry>)
    requires i < |specs| && ReadSoFar(specs, intOf, i, entries)
    requires FieldsOf(specs[i], intOf).Some? && ValidFields(FieldsOf(specs[i], intOf).value)
    requires CellOf(EntryFrom(FieldsOf(specs[i], intOf).value)) in Cells(entries)
    ensures forall enabled :: !AcceptsSpecs(enabled, specs, intOf)
  {
    hide FieldsOf, ValidFields, Cells, DistinctCells;
    if AllRead(specs, intOf) {
      ArgsOfPrefix(specs, intOf, i);
      Repeats(ArgsOf(specs, intOf), i);
    }
  }

  lemma DistinctSnoc(es: seq<Entry>, e: Entry)
    requires DistinctCells(es)
    ensures DistinctCells(es + [e]) <==> CellOf(e) !in Cells(es)
  {
    if CellOf(e) in Cells(es) {
      var x :| x in es && CellOf(x) == CellOf(e);
      var i :| 0 <= i < |es| && es[i] == x;
      assert CellOf((es + [e])[i]) == CellOf((es + [e])[|es|]);
    } else {
      forall i | 0 <= i < |es|
        ensures CellOf(es[i]) != CellOf(e)
      {
        assert es[i] in es;
      }
    }
  }

  lemma Repeats(args: seq<seq<int>>, i: nat)
    requires i < |args| && AllValid(args[..i]) && ValidFields(args[i])
    requires CellOf(EntryFrom(args[i])) in Cells(EntriesFrom(args[..i]))
    ensures AllValid(args) ==> !DistinctCells(EntriesFrom(args))
  {
    var es := EntriesFrom(args[..i]);
    var x :| x in es && CellOf(x) == CellOf(EntryFrom(args[i]));
    var k :| 0 <= k < i && es[k] == x;
    if AllValid(args) {
      assert EntriesFrom(args)[k] == EntryFrom(args[k]) == x;
      assert CellOf(EntriesFrom(args)[k]) == CellOf(EntriesFrom(args)[i]);
    }
  }
}
