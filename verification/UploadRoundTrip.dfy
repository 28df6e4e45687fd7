/** The firmware's parser against the bench tool's printer.
*/
module UploadRoundTrip {
  import opened Text
  import opened ScheduleCodec
  import opened LayerImages
  import opened UploadPrinter

  // A flag argument that is one token of the grammar, good or bad.
  predicate IsToken(s: string) {
    ',' !in s && ';' !in s
  }

  // ---------------------------------------------------------------------------
  // The pieces come apart as they were put together
  // ---------------------------------------------------------------------------

  lemma {:induction false} JoinKeepsOut(parts: seq<string>, c: char, other: char)
    requires c != other && forall p :: p in parts ==> other !in p
    ensures other !in Join(parts, c)
    decreases |parts|
  {
    if |parts| > 1 {
      JoinKeepsOut(parts[1..], c, other);
    }
  }

  lemma PrintedEntry(f: seq<int>)
    ensures ';' !in PrintEntry(f)
    ensures |f| >= 1 ==> Split(PrintEntry(f), ',') == Decimals(f)
    ensures |f| == 0 ==> Split(PrintEntry(f), ',') == [""]
  {
    var ds := Decimals(f);
    forall p | p in ds
      ensures ',' !in p && ';' !in p
    {
      var j :| 0 <= j < |ds| && ds[j] == p;
      DecimalHasNoSeparator(f[j]);
    }
    JoinKeepsOut(ds, ',', ';');
    if |f| >= 1 {
      SplitJoin(ds, ',');
    } else {
      SplitWhole("", ',');
    }
  }

  lemma PrintedPieces(enabled: string, args: seq<seq<int>>)
    requires IsToken(enabled)
    ensures Split(Print(enabled, args), ';') == Pieces(enabled, args)
    ensures Split("v1," + enabled, ',') == ["v1", enabled]
  {
    var parts := Pieces(enabled, args);
    forall p | p in parts
      ensures ';' !in p
    {
      var i :| 0 <= i < |parts| && parts[i] == p;
      if i > 0 {
        PrintedEntry(args[i - 1]);
      }
    }
    SplitJoin(parts, ';');
    SplitFirst("v1", ',', enabled);
    SplitWhole(enabled, ',');
    assert "v1," + enabled == "v1" + [','] + enabled;
  }

  // ---------------------------------------------------------------------------
  // Entry by entry
  // ---------------------------------------------------------------------------

  lemma FieldsOfDecimals(f: seq<int>)
    requires |f| == 6
    ensures Fields(Decimals(f)).Some? <==> forall j :: 0 <= j < 6 ==> 0 <= f[j] < 1000
    ensures Fields(Decimals(f)).Some? ==> Fields(Decimals(f)).value == [f[0], f[1], f[2], f[3], f[4], f[5]]
  {
    hide ParseUint;
    forall j | 0 <= j < 6
      ensures ParseUint(Decimals(f)[j]) == if 0 <= f[j] < 1000 then Some(f[j]) else None
    {
      ParseUintOfDecimal(f[j]);
    }
  }

  /** A printed entry is accepted exactly when the tool accepts it, and read as itself. */
  lemma EntryRoundTrip(f: seq<int>)
    ensures ParseEntry(PrintEntry(f)).Ok? <==> ValidFields(f)
    ensures ValidFields(f) ==> ParseEntry(PrintEntry(f)) == Ok(EntryFrom(f))
  {
    hide Fields, Decimals, PrintEntry;
    PrintedEntry(f);
    if |f| == 6 {
      FieldsOfDecimals(f);
    }
  }

  lemma NotDistinct(es: seq<Entry>, e: Entry)
    requires !DistinctCells(es)
    ensures !DistinctCells(es + [e])
  {
    var i, j :| 0 <= i < j < |es| && CellOf(es[i]) == CellOf(es[j]);
    assert CellOf((es + [e])[i]) == CellOf((es + [e])[j]);
  }

  // The tool's two conditions on a list, one entry at a time.
  lemma ConditionsSnoc(args: seq<seq<int>>, n: nat)
    requires |args| == n + 1
    ensures AllValid(args) <==> AllValid(args[..n]) && ValidFields(args[n])
    ensures AllValid(args) ==>
              var front, last := EntriesFrom(args[..n]), EntryFrom(args[n]);
              && EntriesFrom(args) == front + [last]
              && (DistinctCells(EntriesFrom(args)) <==> DistinctCells(front) && CellOf(last) !in Cells(front))
  {
    hide ValidFields, CellOf, Cells;
    assert AllValid(args) <==> AllValid(args[..n]) && ValidFields(args[n]) by {
      assert forall i :: 0 <= i < n ==> args[..n][i] == args[i];
    }
    if AllValid(args) {
      var front, last := EntriesFrom(args[..n]), EntryFrom(args[n]);
      assert EntriesFrom(args) == front + [last];
      if DistinctCells(front) {
        DistinctSnoc(front, last);
      } else {
        NotDistinct(front, last);
      }
    }
  }

  lemma {:induction false} EntriesRoundTrip(args: seq<seq<int>>, parts: seq<string>)
    requires |parts| == |args| && forall i :: 0 <= i < |args| ==> parts[i] == PrintEntry(args[i])
    ensures ParseEntries(parts).Ok? <==> AllValid(args) && DistinctCells(EntriesFrom(args))
    ensures ParseEntries(parts).Ok? ==> ParseEntries(parts).value == EntriesFrom(args)
    decreases |args|
  {
    hide PrintEntry, ParseEntry, AllValid, ValidFields, DistinctCells, EntriesFrom, Cells;
    if |args| == 0 {
      NoEntries();
      assert args == [];
    } else {
      var n := |args| - 1;
      EntriesRoundTrip(args[..n], parts[..n]);
      EntryRoundTrip(args[n]);
      ConditionsSnoc(args, n);
    }
  }

  lemma NoEntries()
    ensures AllValid([]) && EntriesFrom([]) == [] && DistinctCells(EntriesFrom([]))
  {}

  // ---------------------------------------------------------------------------
  // The theorems
  // ---------------------------------------------------------------------------

  /** For every flag token and every list of integers, printed: the firmware accepts the
  text exactly when the tool accepts the list, and then reads the same flag and the same
  entries in the same order. */
  lemma SameListsAccepted(enabled: string, args: seq<seq<int>>)
    requires IsToken(enabled)
    ensures Parse(Print(enabled, args)).Ok? <==> Accepts(enabled, args)
    ensures Accepts(enabled, args) ==>
              Parse(Print(enabled, args)) == Ok(UploadRequest(EntriesFrom(args), ParseFlag(enabled).value))
    ensures Accepts(enabled, args) ==>
              enabled in {"0", "1", "-"} &&
              ParseFlag(enabled) == Some(if enabled == "0" then 0 else if enabled == "1" then 1 else -1)
  {
    hide ParseEntries, Print, AllValid, DistinctCells, EntriesFrom;
    PrintedPieces(enabled, args);
    EntriesRoundTrip(args, Pieces(enabled, args)[1..]);
  }

  /** Of a list whose entries are in range and whose cells are distinct, the length guard
  of either side refuses nothing. */
  lemma LengthGuardIsIdle(enabled: string, args: seq<seq<int>>)
    requires ParseFlag(enabled).Some? && AllValid(args) && DistinctCells(EntriesFrom(args))
    ensures Accepts(enabled, args)
  {
    GridFits(EntriesFrom(args));
  }

  /** The hash the tool predicts is the hash the firmware computes over the five images it
  builds from what it parsed. */
  lemma PredictedHashIsReported(enabled: string, args: seq<seq<int>>, request: UploadRequest)
    requires Accepts(enabled, args) && enabled != "-"
    requires Parse(Print(enabled, args)) == Ok(request)
    ensures AllStorable(request.entries)
    ensures ExpectedHash(enabled, args) == ScheduleHash(BuiltImages(request.entries), request.enabled == 1)
  {
    hide Parse, Print;
    SameListsAccepted(enabled, args);
  }

  /** From the command line to the firmware: whatever reads the integers, an upload that is
  built is accepted, entry for entry, and reported under the hash that came with it. */
  lemma BuiltUploadIsAccepted(enabled: string, specs: seq<string>, intOf: IntOf)
    requires AcceptsSpecs(enabled, specs, intOf)
    ensures var args := ArgsOf(specs, intOf);
            var request := UploadRequest(EntriesFrom(args), ParseFlag(enabled).value);
            Parse(Print(enabled, args)) == Ok(request) &&
            (enabled != "-" ==>
               ExpectedHash(enabled, args) == ScheduleHash(BuiltImages(EntriesFrom(args)), request.enabled == 1))
  {
    hide Parse, Print;
    SameListsAccepted(enabled, ArgsOf(specs, intOf));
  }
}
