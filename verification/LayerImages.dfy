/** Layer images and the schedule hash (components/alpha_hwr/schedule_codec.cpp:126-139,
171-199). A layer image is 42 bytes: six for each day, all zero when the day is off.
*/
module LayerImages {
  import opened Text
  import opened ScheduleCodec
  import opened Fnv
  import opened Numbers

  const IMAGE_BYTES := 42
  const HASHED_BYTES := 211

  type Image = s: seq<byte> | |s| == 42 witness seq(42, _ => 0)

  const EMPTY_IMAGE: Image := seq(42, _ => 0)

  // ---------------------------------------------------------------------------
  // Building an image
  // ---------------------------------------------------------------------------

  // The entry standing for a cell: the last one written there.
  function Lookup(es: seq<Entry>, layer: nat, day: nat): (r: Option<Entry>)
    ensures r.Some? ==> r.value in es && CellOf(r.value) == (layer, day)
    decreases |es|
  {
    if |es| == 0 then None
    else if CellOf(es[|es| - 1]) == (layer, day) then Some(es[|es| - 1])
    else Lookup(es[..|es| - 1], layer, day)
  }

  // What an image has room for: a day of the week, and four bytes of any value.
  predicate Storable(e: Entry) {
    e.day < DAYS && e.beginHour < 0x100 && e.beginMinute < 0x100 && e.endHour < 0x100 && e.endMinute < 0x100
  }

  function CellByte(r: Option<Entry>, k: nat): byte
    requires r.Some? ==> Storable(r.value)
    requires k < 6
  {
    match r
    case None => 0
    case Some(e) =>
      if k == 0 then 1 else if k == 1 then 2
      else if k == 2 then e.beginHour else if k == 3 then e.beginMinute
      else if k == 4 then e.endHour else e.endMinute
  }

  predicate AllStorable(es: seq<Entry>) {
    forall e :: e in es ==> Storable(e)
  }

  function BuiltImage(es: seq<Entry>, layer: nat): (image: Image)
    requires AllStorable(es)
  {
    seq(42, i requires 0 <= i < 42 => CellByte(Lookup(es, layer, i / 6), i % 6))
  }

  // Six bytes in a row.
  method WriteCell(out: array<byte>, cell: nat, r: Option<Entry>)
    requires r.Some? ==> Storable(r.value)
    requires cell + 6 <= out.Length
    modifies out
    ensures forall k :: 0 <= k < 6 ==> out[cell + k] == CellByte(r, k)
    ensures forall i :: 0 <= i < out.Length && !(cell <= i < cell + 6) ==> out[i] == old(out[i])
  {
    for k := 0 to 6
      invariant forall j :: 0 <= j < k ==> out[cell + j] == CellByte(r, j)
      invariant forall i :: 0 <= i < out.Length && !(cell <= i < cell + 6) ==> out[i] == old(out[i])
    {
      out[cell + k] := CellByte(r, k);
    }
  }

  /** build_layer_image: cleared, then each entry of the layer written into its day. */
  method BuildLayerImage(es: seq<Entry>, layer: nat, out: array<byte>)
    requires AllStorable(es) && out.Length == IMAGE_BYTES
    modifies out
    ensures out[..] == BuiltImage(es, layer)
  {
    for i := 0 to IMAGE_BYTES
      invariant forall j :: 0 <= j < i ==> out[j] == 0
    {
      out[i] := 0;
    }
    for n := 0 to |es|
      invariant forall i :: 0 <= i < 42 ==> out[i] == CellByte(Lookup(es[..n], layer, i / 6), i % 6)
    {
      assert es[..n + 1][..n] == es[..n];
      var entry := es[n];
      assert entry in es;
      if entry.layer == layer {
        ghost var before := out[..];
        WriteCell(out, entry.day * 6, Some(entry));
        forall i | 0 <= i < 42
          ensures out[i] == CellByte(Lookup(es[..n + 1], layer, i / 6), i % 6)
        {
          DayOfByte(i, entry.day);
        }
      }
    }
    assert es[..|es|] == es;
  }

  lemma DayOfByte(i: nat, day: nat)
    ensures i / 6 == day <==> day * 6 <= i < day * 6 + 6
    ensures i / 6 == day ==> i == day * 6 + i % 6
  {}

  // ---------------------------------------------------------------------------
  // The order of the entries does not matter
  // ---------------------------------------------------------------------------

  lemma {:induction false} LookupFinds(es: seq<Entry>, e: Entry)
    requires DistinctCells(es) && e in es
    ensures Lookup(es, e.layer, e.day) == Some(e)
    decreases |es|
  {
    var n := |es| - 1;
    if es[n] != e {
      var i :| 0 <= i < |es| && es[i] == e;
      assert CellOf(es[i]) != CellOf(es[n]);
      assert es[..n][i] == e;
      LookupFinds(es[..n], e);
    }
  }

  lemma {:induction false} LookupMisses(es: seq<Entry>, layer: nat, day: nat)
    requires Lookup(es, layer, day).None?
    ensures forall e :: e in es ==> CellOf(e) != (layer, day)
    decreases |es|
  {
    if |es| == 0 {
    } else {
      LookupMisses(es[..|es| - 1], layer, day);
    }
  }

  lemma SameLookup(es: seq<Entry>, fs: seq<Entry>, layer: nat, day: nat)
    requires DistinctCells(es) && DistinctCells(fs)
    requires forall e :: e in es <==> e in fs
    ensures Lookup(es, layer, day) == Lookup(fs, layer, day)
  {
    if Lookup(es, layer, day).Some? {
      LookupFinds(fs, Lookup(es, layer, day).value);
    } else if Lookup(fs, layer, day).Some? {
      LookupMisses(es, layer, day);
    }
  }

  lemma SameMembers(es: seq<Entry>, fs: seq<Entry>)
    requires multiset(es) == multiset(fs)
    ensures forall e :: e in es <==> e in fs
  {
    assert forall e :: e in es <==> e in multiset(es);
    assert forall e :: e in fs <==> e in multiset(fs);
  }

  lemma GridIsStorable(es: seq<Entry>)
    requires IsGrid(es)
    ensures AllStorable(es)
  {}

  /** Uploads that list the same entries in any order build the same images. */
  lemma OrderIrrelevant(es: seq<Entry>, fs: seq<Entry>, layer: nat)
    requires IsGrid(es) && multiset(es) == multiset(fs)
    ensures DistinctCells(fs) && AllStorable(es) && AllStorable(fs)
    ensures BuiltImage(es, layer) == BuiltImage(fs, layer)
  {
    SameMembers(es, fs);
    GridIsStorable(es);
    DistinctInAnyOrder(es, fs);
    forall i | 0 <= i < 42
      ensures BuiltImage(es, layer)[i] == BuiltImage(fs, layer)[i]
    {
      SameLookup(es, fs, layer, i / 6);
    }
  }

  lemma DistinctInAnyOrder(es: seq<Entry>, fs: seq<Entry>)
    requires DistinctCells(es) && multiset(es) == multiset(fs)
    ensures DistinctCells(fs)
  {
    forall i, j | 0 <= i < j < |fs|
      ensures CellOf(fs[i]) != CellOf(fs[j])
    {
      if CellOf(fs[i]) == CellOf(fs[j]) {
        assert fs[i] in multiset(fs) && fs[j] in multiset(fs);
        assert fs[i] in es && fs[j] in es;
        LookupFinds(es, fs[i]);
        LookupFinds(es, fs[j]);
        assert fs[i] == fs[j];
        CountOfTwo(fs, i, j);
        CountInDistinct(es, fs[i]);
      }
    }
  }

  lemma CountOfTwo(fs: seq<Entry>, i: nat, j: nat)
    requires i < j < |fs| && fs[i] == fs[j]
    ensures multiset(fs)[fs[i]] >= 2
  {
    assert fs == fs[..j] + [fs[j]] + fs[j + 1..];
    assert fs[i] == fs[..j][i] && fs[..j][i] in fs[..j];
    assert multiset(fs) == multiset(fs[..j]) + multiset{fs[j]} + multiset(fs[j + 1..]);
  }

  lemma {:induction false} CountInDistinct(es: seq<Entry>, e: Entry)
    requires DistinctCells(es)
    ensures multiset(es)[e] <= 1
    decreases |es|
  {
    if |es| == 0 {
    } else {
      var n := |es| - 1;
      CountInDistinct(es[..n], e);
      assert es == es[..n] + [es[n]];
      if es[n] == e {
        forall i | 0 <= i < n
          ensures es[..n][i] != e
        {
          assert CellOf(es[i]) != CellOf(es[n]);
        }
        assert e !in multiset(es[..n]);
      }
    }
  }

  // ---------------------------------------------------------------------------
  // Canonical images
  // ---------------------------------------------------------------------------

  function CanonByte(image: Image, i: nat): byte
    requires i < 42
  {
    if image[i / 6 * 6] == 0 then 0
    else if i % 6 == 0 then 1
    else if i % 6 == 1 then 2
    else image[i]
  }

  function Canonical(image: Image): Image {
    seq(42, i requires 0 <= i < 42 => CanonByte(image, i))
  }

  // One day's six bytes.
  method CanonicalizeCell(buffer: array<byte>, cell: nat)
    requires cell + 6 <= buffer.Length
    modifies buffer
    ensures forall i :: 0 <= i < buffer.Length && !(cell <= i < cell + 6) ==> buffer[i] == old(buffer[i])
    ensures forall i :: cell <= i < cell + 6 ==>
              buffer[i] == if old(buffer[cell]) == 0 then 0
                           else if i == cell then 1 else if i == cell + 1 then 2 else old(buffer[i])
  {
    if buffer[cell] == 0x00 {
      for k := 0 to 6
        invariant forall i :: cell <= i < cell + k ==> buffer[i] == 0
        invariant forall i :: 0 <= i < buffer.Length && !(cell <= i < cell + 6) ==> buffer[i] == old(buffer[i])
      {
        buffer[cell + k] := 0x00;
      }
    } else {
      buffer[cell] := 0x01;
      buffer[cell + 1] := 0x02;
    }
  }

  /** canonicalize_layer_image, on the 42 bytes from at on. */
  method CanonicalizeLayerImage(buffer: array<byte>, at: nat)
    requires at + 42 <= buffer.Length
    modifies buffer
    ensures buffer[at..at + 42] == Canonical(old(buffer[at..at + 42]))
    ensures forall i :: 0 <= i < buffer.Length && !(at <= i < at + 42) ==> buffer[i] == old(buffer[i])
  {
    ghost var image: Image := buffer[at..at + 42];
    for day := 0 to DAYS
      invariant forall i :: 0 <= i < day * 6 ==> buffer[at + i] == CanonByte(image, i)
      invariant forall i :: day * 6 <= i < 42 ==> buffer[at + i] == image[i]
      invariant forall i :: 0 <= i < buffer.Length && !(at <= i < at + 42) ==> buffer[i] == old(buffer[i])
    {
      CanonicalizeCell(buffer, at + day * 6);
      forall i | day * 6 <= i < day * 6 + 6
        ensures buffer[at + i] == CanonByte(image, i)
      {
        DayOfByte(i, day);
      }
    }
  }

  /** Canonicalizing twice is canonicalizing once, and an image built from an upload is
  canonical already. */
  lemma CanonicalIsStable(image: Image, es: seq<Entry>, layer: nat)
    requires AllStorable(es)
    ensures Canonical(Canonical(image)) == Canonical(image)
    ensures Canonical(BuiltImage(es, layer)) == BuiltImage(es, layer)
  {
    forall i | 0 <= i < 42
      ensures Canonical(Canonical(image))[i] == Canonical(image)[i]
    {
      FirstOfCell(i);
    }
    forall i | 0 <= i < 42
      ensures Canonical(BuiltImage(es, layer))[i] == BuiltImage(es, layer)[i]
    {
      FirstOfCell(i);
    }
  }

  lemma FirstOfCell(i: nat)
    ensures (i / 6 * 6) / 6 == i / 6 && (i / 6 * 6) % 6 == 0
  {}

  // ---------------------------------------------------------------------------
  // The hash
  // ---------------------------------------------------------------------------

  type Images = s: seq<Image> | |s| == 5 witness seq<Image>(5, _ => EMPTY_IMAGE)

  // The five canonical images in a row, and the flag behind them.
  function HashedByte(images: Images, enabled: bool, i: nat): byte
    requires i < HASHED_BYTES
  {
    if i == 210 then (if enabled then 1 else 0) else CanonByte(images[i / 42], i % 42)
  }

  function HashedBytes(images: Images, enabled: bool): seq<byte> {
    seq(HASHED_BYTES, i requires 0 <= i < HASHED_BYTES => HashedByte(images, enabled, i))
  }

  function HashText(h: nat): string {
    "v1:" + Hex(h, 16)
  }

  function ScheduleHash(images: Images, enabled: bool): string {
    HashText(Fnv1a(HashedBytes(images, enabled)))
  }

  // The memcpy, and the canonicalization behind it.
  method AppendCanonical(buffer: array<byte>, layer: nat, image: Image)
    requires layer < LAYERS && buffer.Length == HASHED_BYTES
    modifies buffer
    ensures buffer[layer * 42..layer * 42 + 42] == Canonical(image)
    ensures forall i :: 0 <= i < layer * 42 ==> buffer[i] == old(buffer[i])
  {
    for i := 0 to 42
      invariant forall k :: 0 <= k < i ==> buffer[layer * 42 + k] == image[k]
      invariant forall k :: 0 <= k < layer * 42 ==> buffer[k] == old(buffer[k])
    {
      buffer[layer * 42 + i] := image[i];
    }
    assert buffer[layer * 42..layer * 42 + 42] == image;
    CanonicalizeLayerImage(buffer, layer * 42);
  }

  /** schedule_hash: five images copied and canonicalized in place, the flag appended. */
  method ComputeScheduleHash(images: Images, enabled: bool) returns (text: string)
    ensures text == ScheduleHash(images, enabled)
  {
    var canonical := new byte[HASHED_BYTES](_ => 0);
    ghost var target := HashedBytes(images, enabled);
    for layer := 0 to LAYERS
      invariant forall i :: 0 <= i < layer * 42 ==> canonical[i] == target[i]
    {
      AppendCanonical(canonical, layer, images[layer]);
      ghost var window := canonical[layer * 42..layer * 42 + 42];
      forall i | layer * 42 <= i < layer * 42 + 42
        ensures canonical[i] == target[i]
      {
        LayerOfByte(i, layer);
        assert canonical[i] == window[i - layer * 42] == Canonical(images[layer])[i % 42];
      }
    }
    canonical[210] := if enabled then 0x01 else 0x00;
    assert canonical[..] == target;
    var h := Fnv1a64(canonical[..]);
    text := HashText(h);
  }

  lemma LayerOfByte(i: nat, layer: nat)
    requires layer * 42 <= i < layer * 42 + 42
    ensures i / 42 == layer && i % 42 == i - layer * 42
  {}

  lemma HashesDiffer(x: seq<byte>, y: seq<byte>)
    ensures HashText(Fnv1a(x)) == HashText(Fnv1a(y)) <==> Fnv1a(x) == Fnv1a(y)
  {
    FoldBound(OFFSET_BASIS, x);
    FoldBound(OFFSET_BASIS, y);
    SixteenDigits();
    HexInjective(Fnv1a(x), Fnv1a(y), 16);
    if HashText(Fnv1a(x)) == HashText(Fnv1a(y)) {
      assert Hex(Fnv1a(x), 16) == HashText(Fnv1a(x))[3..];
      assert Hex(Fnv1a(y), 16) == HashText(Fnv1a(y))[3..];
    }
  }

  lemma SixteenDigits()
    ensures Pow16(16) == TWO_64
  {
    assert Pow16(2) == 0x100 && Pow16(4) == 0x1_0000 && Pow16(6) == 0x100_0000;
    assert Pow16(8) == 0x1_0000_0000 && Pow16(10) == 0x100_0000_0000 && Pow16(12) == 0x1_0000_0000_0000;
    assert Pow16(14) == 0x100_0000_0000_0000;
  }

  /** Flipping only the enabled flag always changes the hash. */
  lemma FlagChangesHash(images: Images)
    ensures ScheduleHash(images, true) != ScheduleHash(images, false)
  {
    var x, y := HashedBytes(images, true), HashedBytes(images, false);
    assert DifferOnlyAt(x, y, 210);
    OneByteTells(x, y, 210);
    HashesDiffer(x, y);
  }

  /** Changing one time byte of one enabled cell always changes the hash. */
  lemma TimeByteChangesHash(images: Images, layer: nat, i: nat, b: byte, enabled: bool)
    requires layer < LAYERS && i < 42 && i % 6 >= 2
    requires images[layer][i / 6 * 6] != 0 && images[layer][i] != b
    ensures ScheduleHash(images, enabled) != ScheduleHash(images[layer := images[layer][i := b]], enabled)
  {
    var changed: Images := images[layer := images[layer][i := b]];
    var x, y := HashedBytes(images, enabled), HashedBytes(changed, enabled);
    var k := layer * 42 + i;
    assert k / 42 == layer && k % 42 == i;
    forall j | 0 <= j < HASHED_BYTES && j != k
      ensures x[j] == y[j]
    {
      FirstOfCell(i);
      FirstOfCell(j % 42);
    }
    FirstOfCell(i);
    assert DifferOnlyAt(x, y, k);
    OneByteTells(x, y, k);
    HashesDiffer(x, y);
  }

  /** Whatever stands behind the enabled byte of a disabled cell never reaches the hash. */
  lemma StaleBytesIgnored(images: Images, layer: nat, i: nat, b: byte, enabled: bool)
    requires layer < LAYERS && i < 42 && i % 6 != 0
    requires images[layer][i / 6 * 6] == 0
    ensures ScheduleHash(images, enabled) == ScheduleHash(images[layer := images[layer][i := b]], enabled)
  {
    var changed: Images := images[layer := images[layer][i := b]];
    var x, y := HashedBytes(images, enabled), HashedBytes(changed, enabled);
    forall j | 0 <= j < HASHED_BYTES
      ensures x[j] == y[j]
    {
      FirstOfCell(i);
      FirstOfCell(j % 42);
    }
    assert x == y;
  }

  /** Nor does the action byte of any cell, nor which nonzero byte enables it. */
  lemma ActionIgnored(images: Images, layer: nat, i: nat, b: byte, enabled: bool)
    requires layer < LAYERS && i < 42
    requires i % 6 == 1 || (i % 6 == 0 && images[layer][i] != 0 && b != 0)
    ensures ScheduleHash(images, enabled) == ScheduleHash(images[layer := images[layer][i := b]], enabled)
  {
    var changed: Images := images[layer := images[layer][i := b]];
    var x, y := HashedBytes(images, enabled), HashedBytes(changed, enabled);
    forall j | 0 <= j < HASHED_BYTES
      ensures x[j] == y[j]
    {
      FirstOfCell(i);
      FirstOfCell(j % 42);
    }
    assert x == y;
  }
}
