/**
 Flattening nested structs into slots (cranelift-structbuf/src/lib.rs).

 Scalars are laid out byte by byte with no padding; a nested struct contributes
 the slots of its scalars.
 */
module StructBuf {
  import opened RawInst

  datatype Field = Scalar(bytes: nat) | Complex(fields: Fields)

  datatype Fields = NoFields | MoreFields(head: Field, tail: Fields)

  /** `bytes` */
  function Bytes(f: Field): nat {
    match f
    case Scalar(n) => n
    case Complex(fs) => BytesOf(fs)
  }

  function BytesOf(fs: Fields): nat {
    match fs
    case NoFields => 0
    case MoreFields(h, t) => Bytes(h) + BytesOf(t)
  }

  function Length(fs: Fields): nat {
    match fs
    case NoFields => 0
    case MoreFields(_, t) => 1 + Length(t)
  }

  function Nth(fs: Fields, n: nat): Field
    requires n < Length(fs)
  {
    if n == 0 then fs.head else Nth(fs.tail, n - 1)
  }

  /** The fields, one after the other. */
  function AsSeq(fs: Fields): (s: seq<Field>)
    ensures |s| == Length(fs)
  {
    match fs
    case NoFields => []
    case MoreFields(h, t) => [h] + AsSeq(t)
  }

  lemma {:induction false} NthIs(fs: Fields, n: nat)
    requires n < Length(fs)
    ensures Nth(fs, n) == AsSeq(fs)[n]
    decreases fs
  {
    if n > 0 { NthIs(fs.tail, n - 1); }
  }

  /** The bytes of the first `n` fields. */
  function BytesBefore(fs: Fields, n: nat): nat
    requires n <= Length(fs)
  {
    if n == 0 then 0 else Bytes(fs.head) + BytesBefore(fs.tail, n - 1)
  }

  /** The sizes of all scalars, in order. */
  function Scalars(fs: Fields): seq<nat> {
    match fs
    case NoFields => []
    case MoreFields(h, t) => FieldScalars(h) + Scalars(t)
  }

  function FieldScalars(f: Field): seq<nat> {
    match f
    case Scalar(n) => [n]
    case Complex(fs) => Scalars(fs)
  }

  function Sum(s: seq<nat>): nat {
    if |s| == 0 then 0 else Sum(s[..|s| - 1]) + s[|s| - 1]
  }

  /** How many structs each scalar is nested in, in order. */
  function Depths(fs: Fields): seq<nat> {
    match fs
    case NoFields => []
    case MoreFields(h, t) => FieldDepths(h) + Depths(t)
  }

  function FieldDepths(f: Field): seq<nat> {
    match f
    case Scalar(_) => [0]
    case Complex(fs) => seq(|Depths(fs)|, i requires 0 <= i < |Depths(fs)| => Depths(fs)[i] + 1)
  }

  /** No nested struct is empty. */
  predicate Solid(f: Field) {
    match f
    case Scalar(_) => true
    case Complex(fs) => fs.MoreFields? && AllSolid(fs)
  }

  predicate AllSolid(fs: Fields) {
    match fs
    case NoFields => true
    case MoreFields(h, t) => Solid(h) && AllSolid(t)
  }

  datatype Cell = Cell(group: nat, byteOffset: nat, bytes: nat)

  /** A half-open range of slots. */
  datatype Range = Range(start: nat, end: nat)

  // ---- what allocation produces ----

  /** The cells of some fields, the first of which starts at byte `at`. */
  function Cells(fs: Fields, at: nat, group: nat): seq<Cell> {
    match fs
    case NoFields => []
    case MoreFields(h, t) => FieldCells(h, at, group) + Cells(t, at + Bytes(h), group)
  }

  function FieldCells(f: Field, at: nat, group: nat): seq<Cell> {
    match f
    case Scalar(n) => [Cell(group, at, n)]
    case Complex(fs) => Cells(fs, at, group + 1)
  }

  /** The slot ranges of some fields, the first of which starts at slot `slot`. */
  function Ranges(fs: Fields, slot: nat): seq<Range> {
    match fs
    case NoFields => []
    case MoreFields(h, t) =>
      var end := slot + |FieldScalars(h)|;
      [Range(slot, end)] + Ranges(t, end)
  }

  lemma {:induction false} CellsAreScalars(fs: Fields, at: nat, group: nat)
    ensures |Cells(fs, at, group)| == |Scalars(fs)|
    ensures forall i :: 0 <= i < |Scalars(fs)| ==> Cells(fs, at, group)[i].bytes == Scalars(fs)[i]
    decreases fs
  {
    match fs
    case NoFields =>
    case MoreFields(h, t) =>
      FieldCellsAreScalars(h, at, group);
      CellsAreScalars(t, at + Bytes(h), group);
  }

  lemma {:induction false} FieldCellsAreScalars(f: Field, at: nat, group: nat)
    ensures |FieldCells(f, at, group)| == |FieldScalars(f)|
    ensures forall i :: 0 <= i < |FieldScalars(f)| ==> FieldCells(f, at, group)[i].bytes == FieldScalars(f)[i]
    decreases f
  {
    match f
    case Scalar(_) =>
    case Complex(fs) => CellsAreScalars(fs, at, group + 1);
  }

  /** The group of a cell is the number of structs it is nested in, counted from the outermost. */
  lemma {:induction false} GroupsAreDepths(fs: Fields, at: nat, group: nat)
    ensures |Cells(fs, at, group)| == |Depths(fs)|
    ensures forall i :: 0 <= i < |Depths(fs)| ==> Cells(fs, at, group)[i].group == group + Depths(fs)[i]
    decreases fs
  {
    match fs
    case NoFields =>
    case MoreFields(h, t) =>
      FieldGroupsAreDepths(h, at, group);
      GroupsAreDepths(t, at + Bytes(h), group);
  }

  lemma {:induction false} FieldGroupsAreDepths(f: Field, at: nat, group: nat)
    ensures |FieldCells(f, at, group)| == |FieldDepths(f)|
    ensures forall i :: 0 <= i < |FieldDepths(f)| ==> FieldCells(f, at, group)[i].group == group + FieldDepths(f)[i]
    decreases f
  {
    if f.Complex? { GroupsAreDepths(f.fields, at, group + 1); }
  }

  lemma {:induction false} SumJoin(a: seq<nat>, b: seq<nat>)
    ensures Sum(a + b) == Sum(a) + Sum(b)
    decreases |b|
  {
    if |b| == 0 {
      assert a + b == a;
    } else {
      SumJoin(a, b[..|b| - 1]);
      assert (a + b)[..|a + b| - 1] == a + b[..|b| - 1];
    }
  }

  lemma {:induction false} SumIsBytes(fs: Fields)
    ensures Sum(Scalars(fs)) == BytesOf(fs)
    decreases fs
  {
    match fs
    case NoFields =>
    case MoreFields(h, t) =>
      SumIsFieldBytes(h);
      SumIsBytes(t);
      SumJoin(FieldScalars(h), Scalars(t));
  }

  lemma {:induction false} SumIsFieldBytes(f: Field)
    ensures Sum(FieldScalars(f)) == Bytes(f)
    decreases f
  {
    match f
    case Scalar(n) => assert [n][..0] == [];
    case Complex(fs) => SumIsBytes(fs);
  }

  /** The offset of a slot is the sum of the sizes of all earlier scalars, however deep they are nested. */
  lemma {:induction false} OffsetIsSum(fs: Fields, at: nat, group: nat, i: nat)
    requires i < |Scalars(fs)|
    ensures |Cells(fs, at, group)| == |Scalars(fs)| && Cells(fs, at, group)[i].byteOffset == at + Sum(Scalars(fs)[..i])
    decreases fs
  {
    CellsAreScalars(fs, at, group);
    var h, t := fs.head, fs.tail;
    var n := |FieldScalars(h)|;
    FieldCellsAreScalars(h, at, group);
    if i < n {
      FieldOffsetIsSum(h, at, group, i);
      assert Scalars(fs)[..i] == FieldScalars(h)[..i];
    } else {
      OffsetIsSum(t, at + Bytes(h), group, i - n);
      assert Scalars(fs)[..i] == FieldScalars(h) + Scalars(t)[..i - n];
      SumJoin(FieldScalars(h), Scalars(t)[..i - n]);
      SumIsFieldBytes(h);
    }
  }

  lemma {:induction false} FieldOffsetIsSum(f: Field, at: nat, group: nat, i: nat)
    requires i < |FieldScalars(f)|
    ensures |FieldCells(f, at, group)| == |FieldScalars(f)| &&
      FieldCells(f, at, group)[i].byteOffset == at + Sum(FieldScalars(f)[..i])
    decreases f
  {
    match f
    case Scalar(n) =>
    case Complex(fs) => OffsetIsSum(fs, at, group + 1, i);
  }

  /** The ranges of the fields tile the slots, in order. */
  ghost predicate Tiles(ranges: seq<Range>, start: nat, end: nat) {
    && (|ranges| == 0 ==> start == end)
    && (|ranges| > 0 ==> ranges[0].start == start && ranges[|ranges| - 1].end == end)
    && (forall i :: 0 <= i < |ranges| ==> ranges[i].start < ranges[i].end)
    && (forall i :: 0 <= i < |ranges| - 1 ==> ranges[i].end == ranges[i + 1].start)
  }

  lemma {:induction false} SolidHasScalars(f: Field)
    requires Solid(f)
    ensures |FieldScalars(f)| > 0
    decreases f
  {
    match f
    case Scalar(_) =>
    case Complex(fs) => SolidHasScalars(fs.head);
  }

  lemma {:induction false} RangesTile(fs: Fields, slot: nat)
    requires AllSolid(fs)
    ensures |Ranges(fs, slot)| == Length(fs) && Tiles(Ranges(fs, slot), slot, slot + |Scalars(fs)|)
    decreases fs
  {
    match fs
    case NoFields =>
    case MoreFields(h, t) =>
      SolidHasScalars(h);
      RangesTile(t, slot + |FieldScalars(h)|);
  }

  /** The first slot of field `n` is at the bytes of all earlier fields. */
  lemma {:induction false} FieldStarts(fs: Fields, slot: nat, n: nat)
    requires n < Length(fs)
    ensures |Ranges(fs, slot)| == Length(fs) && slot <= Ranges(fs, slot)[n].start
    ensures var k := Ranges(fs, slot)[n].start - slot;
      k <= |Scalars(fs)| && Sum(Scalars(fs)[..k]) == BytesBefore(fs, n)
    decreases fs
  {
    var h, t := fs.head, fs.tail;
    var m := |FieldScalars(h)|;
    RangesLength(fs, slot);
    if n == 0 {
      assert Scalars(fs)[..0] == [];
    } else {
      FieldStarts(t, slot + m, n - 1);
      var k := Ranges(t, slot + m)[n - 1].start - (slot + m);
      assert Scalars(fs)[..m + k] == FieldScalars(h) + Scalars(t)[..k];
      SumJoin(FieldScalars(h), Scalars(t)[..k]);
      SumIsFieldBytes(h);
    }
  }

  lemma {:induction false} RangesLength(fs: Fields, slot: nat)
    ensures |Ranges(fs, slot)| == Length(fs)
    decreases fs
  {
    match fs
    case NoFields =>
    case MoreFields(h, t) => RangesLength(t, slot + |FieldScalars(h)|);
  }

  // ---- allocation ----

  datatype Allocated = Allocated(size: nat, slots: seq<Cell>, ranges: seq<Range>)

  /**
   `rec`: allocate some fields after what is there already.  A nested struct
   without fields has no first slot, and the allocation panics.
   */
  method AllocFields(fs: Fields, size: nat, slots: seq<Cell>, group: nat) returns (r: Option<Allocated>)
    ensures r.Some? <==> AllSolid(fs)
    ensures r.Some? ==> r.value == Allocated(size + BytesOf(fs), slots + Cells(fs, size, group), Ranges(fs, |slots|))
    decreases fs
  {
    var at: nat := size;
    var rest, out, ranges := fs, slots, [];
    RemainingStart(fs, size, slots, group);
    while rest.MoreFields?
      invariant rest == fs || rest < fs
      invariant Remaining(fs, size, slots, group, rest, at, out, ranges) == true
      decreases rest
    {
      RemainingStep(fs, size, slots, group, rest, at, out, ranges);
      var a := AllocField(rest.head, at, out, group);
      if a.None? { return None; }
      at, out, ranges := a.value.size, a.value.slots, ranges + a.value.ranges;
      rest := rest.tail;
    }
    RemainingDone(fs, size, slots, group, at, out, ranges);
    return Some(Allocated(at, out, ranges));
  }

  lemma {:induction false} RemainingStart(fs: Fields, size: nat, slots: seq<Cell>, group: nat)
    ensures Remaining(fs, size, slots, group, fs, size, slots, []) == true
  {
    assert [] + Ranges(fs, |slots|) == Ranges(fs, |slots|);
  }

  lemma {:induction false} RemainingDone(fs: Fields, size: nat, slots: seq<Cell>, group: nat, at: nat, out: seq<Cell>,
        ranges: seq<Range>)
    requires Remaining(fs, size, slots, group, NoFields, at, out, ranges) == true
    ensures AllSolid(fs) &&
      Allocated(at, out, ranges) == Allocated(size + BytesOf(fs), slots + Cells(fs, size, group), Ranges(fs, |slots|))
  {
  }

  /** Allocate one field and answer with its slot range. */
  method AllocField(f: Field, size: nat, slots: seq<Cell>, group: nat) returns (r: Option<Allocated>)
    ensures r.Some? <==> Solid(f)
    ensures r.Some? ==>
      r.value ==
      Allocated(size + Bytes(f), slots + FieldCells(f, size, group), [Range(|slots|, |slots| + |FieldScalars(f)|)])
    decreases f
  {
    match f
    case Scalar(n) =>
      var out := slots + [Cell(group, size, n)];
      r := Some(Allocated(size + n, out, [Range(|out| - 1, |out|)]));
    case Complex(inner) =>
      var a := AllocFields(inner, size, slots, group + 1);
      if a.None? { return None; }
      RangesLength(inner, |slots|);
      if |a.value.ranges| == 0 { return None; }
      RangesTile(inner, |slots|);
      r := Some(a.value.(ranges := [Range(a.value.ranges[0].start, a.value.ranges[|a.value.ranges| - 1].end)]));
  }

  /** What is left to do once the fields before `rest` are allocated. */
  ghost predicate Remaining(fs: Fields, size: nat, slots: seq<Cell>, group: nat, rest: Fields, at: nat, out: seq<Cell>,
        ranges: seq<Range>) {
    && (AllSolid(fs) <==> AllSolid(rest))
    && at + BytesOf(rest) == size + BytesOf(fs)
    && out + Cells(rest, at, group) == slots + Cells(fs, size, group)
    && ranges + Ranges(rest, |out|) == Ranges(fs, |slots|)
  }

  lemma {:induction false} RemainingStep(fs: Fields, size: nat, slots: seq<Cell>, group: nat, rest: Fields, at: nat,
        out: seq<Cell>, ranges: seq<Range>)
    requires rest.MoreFields? && Remaining(fs, size, slots, group, rest, at, out, ranges) == true
    ensures |FieldCells(rest.head, at, group)| == |FieldScalars(rest.head)|
    ensures !Solid(rest.head) ==> !AllSolid(fs)
    ensures Solid(rest.head) ==>
              Remaining(fs, size, slots, group, rest.tail, at + Bytes(rest.head),
                out + FieldCells(rest.head, at, group),
                ranges + [Range(|out|, |out| + |FieldScalars(rest.head)|)]) == true
  {
    var h, t := rest.head, rest.tail;
    FieldCellsAreScalars(h, at, group);
    var cells := FieldCells(h, at, group);
    assert out + (cells + Cells(t, at + Bytes(h), group)) == (out + cells) + Cells(t, at + Bytes(h), group);
    var r, end := [Range(|out|, |out| + |cells|)], |out| + |cells|;
    assert ranges + (r + Ranges(t, end)) == (ranges + r) + Ranges(t, end);
  }

  /** `alloc_layout_from_template`; all alignments are 1, so there is nothing to pad. */
  method AllocFromTemplate(fs: Fields) returns (r: Option<Allocated>)
    ensures r.Some? <==> AllSolid(fs)
    ensures r.Some? ==> r.value == Allocated(BytesOf(fs), Cells(fs, 0, 0), Ranges(fs, 0))
    ensures r.Some? ==> Tiles(r.value.ranges, 0, |r.value.slots|) && |r.value.ranges| == Length(fs)
    ensures r.Some? ==> |r.value.slots| == |Scalars(fs)| == |Depths(fs)|
    ensures r.Some? ==> forall i :: 0 <= i < |r.value.slots| ==> r.value.slots[i].group == Depths(fs)[i]
    ensures r.Some? ==> forall i :: 0 <= i < |r.value.slots| ==>
              r.value.slots[i].bytes == Scalars(fs)[i] && r.value.slots[i].byteOffset == Sum(Scalars(fs)[..i])
  {
    r := AllocFields(fs, 0, [], 0);
    if r.Some? {
      RangesTile(fs, 0);
      CellsAreScalars(fs, 0, 0);
      GroupsAreDepths(fs, 0, 0);
      forall i | 0 <= i < |Scalars(fs)| ensures Cells(fs, 0, 0)[i].byteOffset == Sum(Scalars(fs)[..i]) {
        OffsetIsSum(fs, 0, 0, i);
      }
    }
  }

  /** `field`: a field and its byte offset. */
  method FieldAt(fs: Fields, s: Allocated, n: nat) returns (r: Option<(Field, nat)>)
    requires AllSolid(fs) && s == Allocated(BytesOf(fs), Cells(fs, 0, 0), Ranges(fs, 0))
    ensures r.Some? <==> n < Length(fs)
    ensures r.Some? ==> r.value == (AsSeq(fs)[n], BytesBefore(fs, n))
  {
    RangesTile(fs, 0);
    CellsAreScalars(fs, 0, 0);
    if n >= Length(fs) { return None; }
    NthIs(fs, n);
    FieldStarts(fs, 0, n);
    TileInside(s.ranges, 0, |s.slots|, n);
    OffsetIsSum(fs, 0, 0, s.ranges[n].start);
    return Some((Nth(fs, n), s.slots[s.ranges[n].start].byteOffset));
  }

  lemma {:induction false} TileInside(ranges: seq<Range>, start: nat, end: nat, n: nat)
    requires Tiles(ranges, start, end) && n < |ranges|
    ensures ranges[n].start < ranges[n].end <= end
    decreases |ranges| - n
  {
    if n + 1 < |ranges| { TileInside(ranges, start, end, n + 1); }
  }
}
