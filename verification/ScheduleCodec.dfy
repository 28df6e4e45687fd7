/** The parser of the bulk schedule upload (components/alpha_hwr/schedule_codec.cpp:41-124).

    data    := "v1," enabled ( ";" entry )*
    enabled := "0" | "1" | "-"
    entry   := layer "," day "," begin hour "," minute "," end hour "," minute
*/
module ScheduleCodec {
  import opened Text

  const LAYERS := 5
  const DAYS := 7
  const MAX_ENTRIES := 35

  datatype Entry = Entry(
    layer: nat, day: nat, beginHour: nat, beginMinute: nat, endHour: nat, endMinute: nat)

  // enabled is -1 for "leave as it is".
  datatype UploadRequest = UploadRequest(entries: seq<Entry>, enabled: int)

  type Cell = (nat, nat)

  function CellOf(e: Entry): Cell {
    (e.layer, e.day)
  }

  /** What one entry must satisfy. A window crossing midnight is allowed; an empty one is not. */
  predicate IsEntry(e: Entry) {
    e.layer < LAYERS && e.day < DAYS &&
    e.beginHour <= 23 && e.endHour <= 23 && e.beginMinute <= 59 && e.endMinute <= 59 &&
    e.beginHour * 60 + e.beginMinute != e.endHour * 60 + e.endMinute
  }

  predicate DistinctCells(es: seq<Entry>) {
    forall i, j :: 0 <= i < j < |es| ==> CellOf(es[i]) != CellOf(es[j])
  }

  predicate IsGrid(es: seq<Entry>) {
    (forall i :: 0 <= i < |es| ==> IsEntry(es[i])) && DistinctCells(es)
  }

  // ---------------------------------------------------------------------------
  // What a payload means
  // ---------------------------------------------------------------------------

  // All six fields, or nothing.
  function Fields(f: seq<string>): Option<seq<nat>> {
    if |f| == 6 && forall j :: 0 <= j < 6 ==> ParseUint(f[j]).Some? then
      Some([ParseUint(f[0]).value, ParseUint(f[1]).value, ParseUint(f[2]).value,
            ParseUint(f[3]).value, ParseUint(f[4]).value, ParseUint(f[5]).value])
    else None
  }

  function EntryOf(v: seq<nat>): Entry
    requires |v| == 6
  {
    Entry(v[0], v[1], v[2], v[3], v[4], v[5])
  }

  // The first complaint about an entry on its own.
  function ParseEntry(part: string): Result<Entry> {
    var f := Split(part, ',');
    if |f| != 6 then Err("entry needs 6 fields: " + part)
    else
      match Fields(f)
      case None => Err("non-numeric field in entry: " + part)
      case Some(v) =>
        if v[0] > 4 then Err("layer must be 0-4: " + part)
        else if v[1] > 6 then Err("day must be 0-6: " + part)
        else if v[2] > 23 || v[4] > 23 then Err("hour must be 0-23: " + part)
        else if v[3] > 59 || v[5] > 59 then Err("minute must be 0-59: " + part)
        else if v[2] * 60 + v[3] == v[4] * 60 + v[5] then Err("start and end are the same minute: " + part)
        else Ok(EntryOf(v))
  }

  function Cells(es: seq<Entry>): set<Cell> {
    set e | e in es :: CellOf(e)
  }

  // Entry after entry; the first complaint stands.
  function ParseEntries(parts: seq<string>): Result<seq<Entry>>
    decreases |parts|
  {
    if |parts| == 0 then Ok([])
    else
      var n := |parts| - 1;
      match ParseEntries(parts[..n])
      case Err(reason) => Err(reason)
      case Ok(es) =>
        match ParseEntry(parts[n])
        case Err(reason) => Err(reason)
        case Ok(e) =>
          if CellOf(e) in Cells(es) then Err("duplicate (layer, day) cell: " + parts[n])
          else Ok(es + [e])
  }

  function ParseFlag(text: string): Option<int> {
    if text == "0" then Some(0)
    else if text == "1" then Some(1)
    else if text == "-" then Some(-1)
    else None
  }

  // What the pieces between semicolons say: a header, then entries.
  function ParsePieces(parts: seq<string>): Result<UploadRequest>
    requires |parts| >= 1
  {
    var header := Split(parts[0], ',');
    if |header| != 2 || header[0] != "v1" then Err("unknown payload version: " + parts[0])
    else
      match ParseFlag(header[1])
      case None => Err("enabled flag must be 0, 1 or -: " + header[1])
      case Some(enabled) =>
        if |parts| - 1 > MAX_ENTRIES then Err("more than 35 entries")
        else
          match ParseEntries(parts[1..])
          case Err(reason) => Err(reason)
          case Ok(es) => Ok(UploadRequest(es, enabled))
  }

  function Parse(data: string): Result<UploadRequest> {
    ParsePieces(Split(data, ';'))
  }

  // ---------------------------------------------------------------------------
  // The parser
  // ---------------------------------------------------------------------------

  // The six-field loop of the source.
  method ParseFields(f: seq<string>) returns (r: Option<seq<nat>>)
    requires |f| == 6
    ensures r == Fields(f)
  {
    var v: seq<nat> := [];
    for j := 0 to 6
      invariant |v| == j
      invariant forall k :: 0 <= k < j ==> ParseUint(f[k]) == Some(v[k])
    {
      var p := ParseUintText(f[j]);
      if p.None? {
        return None;
      }
      v := v + [p.value];
    }
    assert v == [v[0], v[1], v[2], v[3], v[4], v[5]];
    return Some(v);
  }

  /** parse_upload_payload: the entries are collected in order while a grid of seen cells
  is filled; the result, complaint included, is what the grammar says. */
  method ParseUploadPayload(data: string) returns (r: Result<UploadRequest>)
    ensures r == Parse(data)
  {
    var parts := SplitText(data, ';');
    var header := SplitText(parts[0], ',');
    if |header| != 2 || header[0] != "v1" {
      return Err("unknown payload version: " + parts[0]);
    }
    var enabled := -1;
    if header[1] == "0" {
      enabled := 0;
    } else if header[1] == "1" {
      enabled := 1;
    } else if header[1] == "-" {
      enabled := -1;
    } else {
      return Err("enabled flag must be 0, 1 or -: " + header[1]);
    }
    if |parts| - 1 > MAX_ENTRIES {
      return Err("more than 35 entries");
    }
    var es := CollectEntries(parts[1..]);
    match es
    case Err(reason) => return Err(reason);
    case Ok(entries) => return Ok(UploadRequest(entries, enabled));
  }

  // The checks on one entry, in the source's order.
  method ParseEntryText(part: string) returns (r: Result<Entry>)
    ensures r == ParseEntry(part)
  {
    var f := SplitText(part, ',');
    if |f| != 6 {
      return Err("entry needs 6 fields: " + part);
    }
    var p := ParseFields(f);
    if p.None? {
      return Err("non-numeric field in entry: " + part);
    }
    var v := p.value;
    if v[0] > 4 {
      return Err("layer must be 0-4: " + part);
    }
    if v[1] > 6 {
      return Err("day must be 0-6: " + part);
    }
    if v[2] > 23 || v[4] > 23 {
      return Err("hour must be 0-23: " + part);
    }
    if v[3] > 59 || v[5] > 59 {
      return Err("minute must be 0-59: " + part);
    }
    var begin := v[2] * 60 + v[3];
    var end := v[4] * 60 + v[5];
    if begin == end {
      return Err("start and end are the same minute: " + part);
    }
    return Ok(EntryOf(v));
  }

  lemma ParsedEntryIsEntry(part: string)
    ensures ParseEntry(part).Ok? ==> IsEntry(ParseEntry(part).value)
  {}

  // The entry loop, with its grid of seen cells.
  method CollectEntries(parts: seq<string>) returns (r: Result<seq<Entry>>)
    ensures r == ParseEntries(parts)
  {
    hide ParseEntry, ParseEntries, Cells;
    var entries: seq<Entry> := [];
    var seen := new bool[5, 7]((i, j) => false);
    EntriesStep(parts, 0);
    for i := 0 to |parts|
      invariant ParseEntries(parts[..i]) == Ok(entries)
      invariant forall l, d :: 0 <= l < 5 && 0 <= d < 7 ==> (seen[l, d] <==> (l, d) in Cells(entries))
    {
      EntriesStep(parts, i);
      EarlierComplaint(parts, i + 1);
      ParsedEntryIsEntry(parts[i]);
      var p := ParseEntryText(parts[i]);
      match p
      case Err(reason) =>
        return Err(reason);
      case Ok(entry) =>
        if seen[entry.layer, entry.day] {
          return Err("duplicate (layer, day) cell: " + parts[i]);
        }
        seen[entry.layer, entry.day] := true;
        CellsSnoc(entries, entry);
        entries := entries + [entry];
    }
    assert parts[..|parts|] == parts;
    return Ok(entries);
  }

  // One more piece of text, as ParseEntries sees it.
  lemma EntriesStep(parts: seq<string>, i: nat)
    requires i <= |parts|
    ensures ParseEntries(parts[..0]) == Ok([]) && Cells([]) == {}
    ensures i < |parts| && ParseEntries(parts[..i]).Ok? ==>
              var es, p := ParseEntries(parts[..i]).value, ParseEntry(parts[i]);
              ParseEntries(parts[..i + 1]) ==
                if p.Err? then Err(p.reason)
                else if CellOf(p.value) in Cells(es) then Err("duplicate (layer, day) cell: " + parts[i])
                else Ok(es + [p.value])
  {
    hide ParseEntry;
    if i < |parts| {
      assert parts[..i + 1][..i] == parts[..i];
    }
  }

  lemma CellsSnoc(es: seq<Entry>, e: Entry)
    ensures Cells(es + [e]) == Cells(es) + {CellOf(e)}
  {
    forall c | c in Cells(es) + {CellOf(e)}
      ensures c in Cells(es + [e])
    {
      if c in Cells(es) {
        var x :| x in es && CellOf(x) == c;
        assert x in es + [e];
      } else {
        assert e in es + [e];
      }
    }
  }

  // Once an entry is refused, later ones do not matter.
  lemma {:induction false} EarlierComplaint(parts: seq<string>, n: nat)
    requires n <= |parts|
    ensures ParseEntries(parts[..n]).Err? ==> ParseEntries(parts) == ParseEntries(parts[..n])
    decreases |parts|
  {
    if n == |parts| {
      assert parts[..n] == parts;
    } else {
      var front := parts[..|parts| - 1];
      EarlierComplaint(front, n);
      assert front[..n] == parts[..n];
    }
  }

  // ---------------------------------------------------------------------------
  // What is accepted
  // ---------------------------------------------------------------------------

  /** Accepted entries are in range and name each cell once, and there is one of them for
  every piece of text. */
  lemma {:induction false} ParsedEntriesAreGrid(parts: seq<string>)
    ensures ParseEntries(parts).Ok? ==> IsGrid(ParseEntries(parts).value) && |ParseEntries(parts).value| == |parts|
    decreases |parts|
  {
    if |parts| == 0 {
    } else {
      var n := |parts| - 1;
      ParsedEntriesAreGrid(parts[..n]);
      if ParseEntries(parts).Ok? {
        var es, e := ParseEntries(parts[..n]).value, ParseEntry(parts[n]).value;
        forall i | 0 <= i < n
          ensures CellOf(es[i]) != CellOf(e)
        {
          assert CellOf(es[i]) in Cells(es);
        }
      }
    }
  }

  // The number of a cell in the 5 x 7 grid.
  function CellNumber(e: Entry): nat {
    e.layer * DAYS + e.day
  }

  function Numbers(es: seq<Entry>): (ns: set<nat>)
    ensures forall i :: 0 <= i < |es| ==> CellNumber(es[i]) in ns
    ensures forall k :: k in ns ==> exists i :: 0 <= i < |es| && CellNumber(es[i]) == k
  {
    if |es| == 0 then {} else
      var n := |es| - 1;
      assert forall i :: 0 <= i < n ==> es[i] == es[..n][i];
      Numbers(es[..n]) + {CellNumber(es[n])}
  }

  function UpTo(n: nat): (ks: set<nat>)
    ensures |ks| == n && forall k: nat :: k in ks <==> k < n
  {
    if n == 0 then {} else UpTo(n - 1) + {n - 1}
  }

  lemma {:induction false} DistinctNumbers(es: seq<Entry>)
    requires forall i :: 0 <= i < |es| ==> es[i].layer < LAYERS && es[i].day < DAYS
    requires DistinctCells(es)
    ensures |Numbers(es)| == |es|
    decreases |es|
  {
    if |es| == 0 {
    } else {
      var n := |es| - 1;
      var front := es[..n];
      DistinctNumbers(front);
      hide CellNumber, CellOf;
      forall i | 0 <= i < n
        ensures CellNumber(front[i]) != CellNumber(es[n])
      {
        assert CellOf(es[i]) != CellOf(es[n]);
        NumberTellsCell(es[i], es[n]);
      }
    }
  }

  lemma NumberTellsCell(a: Entry, b: Entry)
    requires a.day < DAYS && b.day < DAYS
    ensures CellNumber(a) == CellNumber(b) <==> CellOf(a) == CellOf(b)
  {}

  lemma SubsetIsSmaller<T>(a: set<T>, b: set<T>)
    requires a <= b
    ensures |a| <= |b|
  {
    assert b == a + (b - a);
  }

  /** Pigeonhole: entries whose cells are in range and distinct never number more than 35,
  so the length guard refuses nothing the other checks would accept. */
  lemma GridFits(es: seq<Entry>)
    requires forall i :: 0 <= i < |es| ==> es[i].layer < LAYERS && es[i].day < DAYS
    requires DistinctCells(es)
    ensures |es| <= MAX_ENTRIES
  {
    DistinctNumbers(es);
    forall k | k in Numbers(es)
      ensures k in UpTo(MAX_ENTRIES)
    {
      var i :| 0 <= i < |es| && CellNumber(es[i]) == k;
    }
    SubsetIsSmaller(Numbers(es), UpTo(MAX_ENTRIES));
  }
}
