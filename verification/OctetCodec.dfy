/** Arrays of small integers as comma-separated text: the printer into the
    output buffer and the parser into the binary buffer. */
module OctetCodec {
  import opened Bytes
  import opened Decimal
  import opened OctetBuffer

  const INVALID_DATA_TYPE := 1004
  const INDEX_EXCEEDED_SIZE := 1005
  const BUFFER_TO_EPICS_FULL := 1006
  /** The room that must be left behind every element. */
  const ROOM: nat := 20

  /** The integer types up to 32 bits, and the codes neither loop has a case for. */
  datatype DataType = Int8 | Int16 | Int32 | UInt8 | UInt16 | UInt32 | Bit | Unsupported

  function Width(t: DataType): (w: nat)
    ensures t.Unsupported? <==> w == 0
    ensures w == 0 || w == 1 || w == 2 || w == 4
  {
    match t
    case Int8 | UInt8 | Bit => 1
    case Int16 | UInt16 => 2
    case Int32 | UInt32 => 4
    case Unsupported => 0
  }

  /** What the format of the type shows of an element's bytes; an unsigned 32-bit
      element goes through "%d" and shows as signed. */
  function Shown(t: DataType, element: seq<byte>): int {
    match t
    case Int8 | Int16 | Int32 | UInt32 => Signed(element)
    case UInt8 | UInt16 => Unsigned(element)
    case Bit => if element == [1] then 1 else 0
    case Unsupported => 0
  }

  function ElementText(t: DataType, binary: seq<byte>, at: nat): (s: string)
    ensures s != ""
  {
    Render(Shown(t, SliceAt(binary, at, Width(t))))
  }

  // ----- the printer -----

  datatype Printed = Printed(contents: string, error: int)

  predicate Tight(bufferSize: nat, contents: string) {
    bufferSize < |contents| + ROOM
  }

  /** The loop of octetBinary2ascii from byte position `at` on. */
  function PrintFrom(t: DataType, binary: seq<byte>, size: nat, at: nat, bufferSize: nat, contents: string): Printed
    decreases if at < size then size - at else 0
  {
    if at >= size then Printed(contents, 0)
    else
      var started := if at != 0 then Append(bufferSize, contents, ",") else contents;
      if t.Unsupported? then
        Printed(started, if Tight(bufferSize, started) then BUFFER_TO_EPICS_FULL
                         else if |binary| < at then INDEX_EXCEEDED_SIZE else INVALID_DATA_TYPE)
      else
        var shown := Append(bufferSize, started, ElementText(t, binary, at));
        var next := at + Width(t);
        if Tight(bufferSize, shown) then Printed(shown, BUFFER_TO_EPICS_FULL)
        else if |binary| < next + Width(t) then Printed(shown, INDEX_EXCEEDED_SIZE)
        else PrintFrom(t, binary, size, next, bufferSize, shown)
  }

  /** The complete rendering from byte position `at` on. */
  function Rendering(t: DataType, binary: seq<byte>, size: nat, at: nat): string
    decreases if at < size then size - at else 0
  {
    if at >= size || t.Unsupported? then ""
    else (if at != 0 then "," else "") + ElementText(t, binary, at) + Rendering(t, binary, size, at + Width(t))
  }

  /** Where the last element that starts before `size` ends. */
  function EndAt(t: DataType, size: nat, at: nat): (end: nat)
    ensures at <= end && (at >= size ==> end == at)
    ensures at < size && !t.Unsupported? ==> size <= end < size + Width(t) && at + Width(t) <= end
    decreases if at < size then size - at else 0
  {
    if at >= size || t.Unsupported? then at else EndAt(t, size, at + Width(t))
  }

  /** Room for the rendering and what is wanted behind it, and a whole element
      more in the binary buffer than the array takes up. */
  predicate Roomy(t: DataType, binary: seq<byte>, size: nat, at: nat, bufferSize: nat, contents: string) {
    !t.Unsupported?
    && EndAt(t, size, at) + Width(t) <= |binary|
    && |contents| + |Rendering(t, binary, size, at)| + 20 <= bufferSize
  }

  lemma ElementShort(t: DataType, binary: seq<byte>, at: nat)
    ensures |ElementText(t, binary, at)| <= 11
  {
    var bs := SliceAt(binary, at, Width(t));
    assert Pow256(0) == 1 && Pow256(1) == 0x100 && Pow256(2) == 0x1_0000 && Pow256(4) == 0x1_0000_0000;
    RenderLength(Shown(t, bs));
  }

  /** One element further: it is dropped only where the loop stops for want of room. */
  lemma PrintStep(t: DataType, binary: seq<byte>, size: nat, at: nat, bufferSize: nat, contents: string)
    requires at < size && !t.Unsupported? && |contents| + 2 <= bufferSize
    requires at != 0 ==> !Tight(bufferSize, contents)
    ensures var text := (if at != 0 then "," else "") + ElementText(t, binary, at);
            var p := PrintFrom(t, binary, size, at, bufferSize, contents);
            if Tight(bufferSize, contents + text)
            then p.error == BUFFER_TO_EPICS_FULL && Tight(bufferSize, p.contents) && |p.contents| + 2 <= bufferSize
            else if |binary| < at + Width(t) + Width(t)
            then p == Printed(contents + text, INDEX_EXCEEDED_SIZE)
            else p == PrintFrom(t, binary, size, at + Width(t), bufferSize, contents + text)
  {
    ElementShort(t, binary, at);
    assert contents + "," + ElementText(t, binary, at) == contents + ("," + ElementText(t, binary, at));
    assert contents + ("" + ElementText(t, binary, at)) == contents + ElementText(t, binary, at);
  }

  lemma RenderingUnfold(t: DataType, binary: seq<byte>, size: nat, at: nat, next: nat)
    requires at < size && !t.Unsupported? && next == at + Width(t)
    ensures Rendering(t, binary, size, at)
            == (if at != 0 then "," else "") + ElementText(t, binary, at) + Rendering(t, binary, size, next)
    ensures EndAt(t, size, at) == EndAt(t, size, next)
  {
  }

  lemma Assoc(a: string, b: string, c: string)
    ensures a + (b + c) == a + b + c
  {
  }

  /** Success means nothing was dropped, and it comes exactly when there is room for everything. */
  ghost predicate WholeOrError(t: DataType, binary: seq<byte>, size: nat, at: nat, bufferSize: nat, contents: string) {
    var p := PrintFrom(t, binary, size, at, bufferSize, contents);
    && (p.error == 0 <==> at >= size || Roomy(t, binary, size, at, bufferSize, contents))
    && (p.error == 0 ==> p.contents == contents + Rendering(t, binary, size, at))
  }

  /** There is room from here exactly when there is room for this element and from the next one on. */
  lemma RoomyStep(t: DataType, binary: seq<byte>, size: nat, at: nat, next: nat, bufferSize: nat, contents: string,
                  text: string)
    requires at < size && !t.Unsupported? && next == at + Width(t)
    requires text == (if at != 0 then "," else "") + ElementText(t, binary, at)
    ensures Roomy(t, binary, size, at, bufferSize, contents)
            <==> !Tight(bufferSize, contents + text) && next + Width(t) <= |binary|
                 && (next < size ==> Roomy(t, binary, size, next, bufferSize, contents + text))
  {
    RenderingUnfold(t, binary, size, at, next);
  }

  lemma WholeStops(t: DataType, binary: seq<byte>, size: nat, at: nat, next: nat, bufferSize: nat, contents: string,
                   text: string)
    requires at < size && !t.Unsupported? && |contents| + 2 <= bufferSize && next == at + Width(t)
    requires at != 0 ==> !Tight(bufferSize, contents)
    requires text == (if at != 0 then "," else "") + ElementText(t, binary, at)
    requires Tight(bufferSize, contents + text) || |binary| < next + Width(t)
    ensures WholeOrError(t, binary, size, at, bufferSize, contents)
  {
    PrintStep(t, binary, size, at, bufferSize, contents);
    RoomyStep(t, binary, size, at, next, bufferSize, contents, text);
  }

  lemma PrintGoesOn(t: DataType, binary: seq<byte>, size: nat, at: nat, next: nat, bufferSize: nat, contents: string,
                    text: string)
    requires at < size && !t.Unsupported? && |contents| + 2 <= bufferSize && next == at + Width(t)
    requires at != 0 ==> !Tight(bufferSize, contents)
    requires text == (if at != 0 then "," else "") + ElementText(t, binary, at)
    requires !Tight(bufferSize, contents + text) && next + Width(t) <= |binary|
    ensures PrintFrom(t, binary, size, at, bufferSize, contents)
            == PrintFrom(t, binary, size, next, bufferSize, contents + text)
  {
    PrintStep(t, binary, size, at, bufferSize, contents);
  }

  lemma TextGoesOn(t: DataType, binary: seq<byte>, size: nat, at: nat, next: nat, contents: string, text: string)
    requires at < size && !t.Unsupported? && next == at + Width(t)
    requires text == (if at != 0 then "," else "") + ElementText(t, binary, at)
    ensures contents + Rendering(t, binary, size, at) == contents + text + Rendering(t, binary, size, next)
  {
    RenderingUnfold(t, binary, size, at, next);
    Assoc(contents, text, Rendering(t, binary, size, next));
  }

  lemma WholeGoesOn(t: DataType, binary: seq<byte>, size: nat, at: nat, next: nat, bufferSize: nat, contents: string,
                    text: string)
    requires at < size && !t.Unsupported? && |contents| + 2 <= bufferSize && next == at + Width(t)
    requires at != 0 ==> !Tight(bufferSize, contents)
    requires text == (if at != 0 then "," else "") + ElementText(t, binary, at)
    requires !Tight(bufferSize, contents + text) && next + Width(t) <= |binary|
    requires WholeOrError(t, binary, size, next, bufferSize, contents + text)
    ensures WholeOrError(t, binary, size, at, bufferSize, contents)
  {
    PrintGoesOn(t, binary, size, at, next, bufferSize, contents, text);
    RoomyStep(t, binary, size, at, next, bufferSize, contents, text);
    TextGoesOn(t, binary, size, at, next, contents, text);
  }

  /** From any fill of the buffer at the start, and on from any element the loop has reached. */
  lemma {:induction false} PrintSucceedsIff(
    t: DataType, binary: seq<byte>, size: nat, at: nat, bufferSize: nat, contents: string)
    requires |contents| + 2 <= bufferSize && (at != 0 ==> !Tight(bufferSize, contents))
    ensures WholeOrError(t, binary, size, at, bufferSize, contents)
    decreases if at < size then size - at else 0
  {
    if at < size && !t.Unsupported? {
      var text := (if at != 0 then "," else "") + ElementText(t, binary, at);
      var next := at + Width(t);
      if !Tight(bufferSize, contents + text) && next + Width(t) <= |binary| {
        PrintSucceedsIff(t, binary, size, next, bufferSize, contents + text);
        WholeGoesOn(t, binary, size, at, next, bufferSize, contents, text);
      } else {
        WholeStops(t, binary, size, at, next, bufferSize, contents, text);
      }
    }
  }

  /** Which failure is reported: want of room in the text buffer comes before
      everything, an element too many for the binary buffer next. */
  lemma {:induction false} PrintErrors(
    t: DataType, binary: seq<byte>, size: nat, at: nat, bufferSize: nat, contents: string)
    requires |contents| + 2 <= bufferSize && (at != 0 ==> !Tight(bufferSize, contents)) && at <= |binary|
    ensures ReportedInOrder(PrintFrom(t, binary, size, at, bufferSize, contents), t, binary, size, at, bufferSize)
    decreases if at < size then size - at else 0
  {
    if at < size && !t.Unsupported? {
      var text := (if at != 0 then "," else "") + ElementText(t, binary, at);
      var next := at + Width(t);
      RenderingUnfold(t, binary, size, at, next);
      if !Tight(bufferSize, contents + text) && next + Width(t) <= |binary| {
        PrintGoesOn(t, binary, size, at, next, bufferSize, contents, text);
        PrintErrors(t, binary, size, next, bufferSize, contents + text);
        PrintEnds(t, binary, size, next, bufferSize, contents + text);
        ReportedStep(PrintFrom(t, binary, size, next, bufferSize, contents + text), t, binary, size, at, next, bufferSize);
      } else {
        ErrorsStop(t, binary, size, at, next, bufferSize, contents, text);
      }
    }
  }

  lemma PrintEnds(t: DataType, binary: seq<byte>, size: nat, at: nat, bufferSize: nat, contents: string)
    ensures at >= size ==> PrintFrom(t, binary, size, at, bufferSize, contents) == Printed(contents, 0)
  {
  }

  lemma ErrorsStop(t: DataType, binary: seq<byte>, size: nat, at: nat, next: nat, bufferSize: nat, contents: string,
                   text: string)
    requires at < size && !t.Unsupported? && |contents| + 2 <= bufferSize && next == at + Width(t)
    requires at != 0 ==> !Tight(bufferSize, contents)
    requires text == (if at != 0 then "," else "") + ElementText(t, binary, at)
    requires Tight(bufferSize, contents + text) || |binary| < next + Width(t)
    ensures ReportedInOrder(PrintFrom(t, binary, size, at, bufferSize, contents), t, binary, size, at, bufferSize)
  {
    PrintStep(t, binary, size, at, bufferSize, contents);
    RenderingUnfold(t, binary, size, at, next);
  }

  ghost predicate ReportedInOrder(p: Printed, t: DataType, binary: seq<byte>, size: nat, at: nat, bufferSize: nat) {
    && p.error in {0, 1004, 1005, 1006}
    && (p.error == 1006 ==> at < size)
    && (at < size ==> (p.error == 1006 <==> bufferSize < |p.contents| + 20))
    && (p.error == 1004 ==> t.Unsupported?)
    && (p.error == 1005 ==> |binary| < EndAt(t, size, at) + Width(t))
    && |p.contents| + 2 <= bufferSize
  }

  lemma ReportedStep(p: Printed, t: DataType, binary: seq<byte>, size: nat, at: nat, next: nat, bufferSize: nat)
    requires at < size && EndAt(t, size, at) == EndAt(t, size, next)
    requires ReportedInOrder(p, t, binary, size, next, bufferSize)
    requires next >= size ==> !Tight(bufferSize, p.contents)
    ensures ReportedInOrder(p, t, binary, size, at, bufferSize)
  {
  }

  // ----- what the text says -----

  /** What element `k` of an array shows as: unsigned types of one and two bytes as
      they are, the other numbers in two's complement, a bit as whether its byte is 1. */
  ghost predicate ShowsAs(t: DataType, binary: seq<byte>, k: nat, v: int) {
    match t
    case UInt8 => k < |binary| && v == binary[k]
    case Int8 => k < |binary| && -0x80 <= v < 0x80 && (v == binary[k] as int || v == binary[k] as int - 0x100)
    case UInt16 => 2 * k + 1 < |binary| && v == TwoBytes(binary, 2 * k)
    case Int16 =>
      2 * k + 1 < |binary| && -0x8000 <= v < 0x8000
      && (v == TwoBytes(binary, 2 * k) || v == TwoBytes(binary, 2 * k) - 0x1_0000)
    case Int32 | UInt32 =>
      4 * k + 3 < |binary| && -0x8000_0000 <= v < 0x8000_0000
      && (v == FourBytes(binary, 4 * k) || v == FourBytes(binary, 4 * k) - 0x1_0000_0000)
    case Bit => k < |binary| && v == if binary[k] == 1 then 1 else 0
    case Unsupported => false
  }

  function TwoBytes(binary: seq<byte>, at: nat): int
    requires at + 1 < |binary|
  {
    binary[at] as int + 0x100 * binary[at + 1] as int
  }

  function FourBytes(binary: seq<byte>, at: nat): int
    requires at + 3 < |binary|
  {
    TwoBytes(binary, at) + 0x1_0000 * TwoBytes(binary, at + 2)
  }

  /** As many fields as elements that start inside the array, the fields being
      numbers without a comma that show the elements in order. */
  ghost predicate Lists(t: DataType, binary: seq<byte>, size: nat, fields: seq<string>) {
    && |fields| == (match t
                    case Int8 | UInt8 | Bit => size
                    case Int16 | UInt16 => (size + 1) / 2
                    case Int32 | UInt32 => (size + 3) / 4
                    case Unsupported => 0)
    && forall k :: 0 <= k < |fields| ==> FieldShows(t, binary, k, fields[k])
  }

  ghost predicate FieldShows(t: DataType, binary: seq<byte>, k: nat, field: string) {
    ',' !in field && ScanInt(field).Value? && ShowsAs(t, binary, k, ScanInt(field).v)
  }

  /** Fields with commas between them. */
  function Listed(fields: seq<string>): string {
    if fields == [] then ""
    else if |fields| == 1 then fields[0]
    else fields[0] + "," + Listed(fields[1..])
  }

  /** The text says what the array holds. */
  ghost predicate Says(t: DataType, binary: seq<byte>, size: nat, text: string) {
    exists fields :: Lists(t, binary, size, fields) && text == Listed(fields)
  }

  function Position(t: DataType, k: nat): nat {
    match t
    case Int8 | UInt8 | Bit | Unsupported => k
    case Int16 | UInt16 => 2 * k
    case Int32 | UInt32 => 4 * k
  }

  lemma UnsignedBytes(bs: seq<byte>)
    ensures |bs| == 1 ==> Unsigned(bs) == bs[0] as int
    ensures |bs| == 2 ==> Unsigned(bs) == TwoBytes(bs, 0)
    ensures |bs| == 4 ==> Unsigned(bs) == FourBytes(bs, 0)
    ensures Pow256(1) == 0x100 && Pow256(2) == 0x1_0000 && Pow256(4) == 0x1_0000_0000
  {
    if |bs| == 2 || |bs| == 4 {
      assert Unsigned(bs) == bs[0] + 256 * (bs[1] + 256 * Unsigned(bs[2..]));
    }
    if |bs| == 4 {
      assert Unsigned(bs[2..]) == bs[2] + 256 * (bs[3] + 256 * Unsigned(bs[4..]));
    }
  }

  /** What is printed of an element is a number that shows it. */
  lemma ElementShows(t: DataType, binary: seq<byte>, k: nat)
    requires !t.Unsupported? && Position(t, k) + Width(t) <= |binary|
    ensures FieldShows(t, binary, k, ElementText(t, binary, Position(t, k)))
  {
    var bs := SliceAt(binary, Position(t, k), Width(t));
    UnsignedBytes(bs);
    RenderHasNo(Shown(t, bs), ',');
    ScanInvertsRender(Shown(t, bs), "");
    assert Render(Shown(t, bs)) + "" == Render(Shown(t, bs));
    ShownShows(t, binary, k, bs);
  }

  /** An unsigned word is printed as the number it is exactly below 2^31, as its format is for signed ones. */
  lemma UnsignedWordShownIff(binary: seq<byte>, k: nat)
    requires 4 * k + 4 <= |binary|
    ensures ScanInt(ElementText(UInt32, binary, 4 * k)) == Value(FourBytes(binary, 4 * k))
            <==> FourBytes(binary, 4 * k) < 0x8000_0000
  {
    ElementShows(UInt32, binary, k);
  }

  lemma ShownShows(t: DataType, binary: seq<byte>, k: nat, bs: seq<byte>)
    requires !t.Unsupported? && Position(t, k) + Width(t) <= |binary|
    requires bs == binary[Position(t, k)..Position(t, k) + Width(t)]
    ensures ShowsAs(t, binary, k, Shown(t, bs))
  {
    UnsignedBytes(bs);
    assert t.Bit? ==> bs == [binary[k]];
  }

  /** The fields of the rendering from element `k` on. */
  function FieldsFrom(t: DataType, binary: seq<byte>, size: nat, k: nat): (r: seq<string>)
    ensures r == [] <==> Position(t, k) >= size || t.Unsupported?
    decreases if Position(t, k) < size then size - Position(t, k) else 0
  {
    if Position(t, k) >= size || t.Unsupported? then []
    else [ElementText(t, binary, Position(t, k))] + FieldsFrom(t, binary, size, k + 1)
  }

  lemma {:induction false} RenderingListed(t: DataType, binary: seq<byte>, size: nat, k: nat)
    ensures var fields := FieldsFrom(t, binary, size, k); var at := Position(t, k);
            Rendering(t, binary, size, at) == (if k > 0 && fields != [] then "," else "") + Listed(fields)
    decreases if Position(t, k) < size then size - Position(t, k) else 0
  {
    var at := Position(t, k);
    if at < size && !t.Unsupported? {
      var next := k + 1;
      var rest := FieldsFrom(t, binary, size, next);
      RenderingListed(t, binary, size, next);
      RenderingUnfold(t, binary, size, at, Position(t, next));
      FieldJoined(if at != 0 then "," else "", ElementText(t, binary, at), rest, Rendering(t, binary, size, Position(t, next)));
    }
  }

  lemma FieldJoined(front: string, field: string, rest: seq<string>, text: string)
    requires text == (if rest != [] then "," else "") + Listed(rest)
    ensures front + field + text == front + Listed([field] + rest)
  {
    ListedCons(field, rest);
  }

  lemma ListedCons(field: string, rest: seq<string>)
    ensures Listed([field] + rest) == field + (if rest == [] then "" else ",") + Listed(rest)
  {
    assert ([field] + rest)[1..] == rest;
  }

  /** Field `n` from element `k` on shows element `k + n`. */
  ghost predicate FieldsShow(t: DataType, binary: seq<byte>, size: nat, k: nat, fields: seq<string>) {
    && (forall n :: 0 <= n < |fields| ==> FieldShows(t, binary, k + n, fields[n]))
    && (fields != [] ==> Position(t, k + |fields| - 1) < size) && Position(t, k + |fields|) >= size
  }

  lemma FieldsShowCons(t: DataType, binary: seq<byte>, size: nat, k: nat, field: string, rest: seq<string>)
    requires Position(t, k) < size && FieldShows(t, binary, k, field) && FieldsShow(t, binary, size, k + 1, rest)
    ensures FieldsShow(t, binary, size, k, [field] + rest)
  {
    forall n | 0 <= n < |rest| + 1 ensures FieldShows(t, binary, k + n, ([field] + rest)[n]) {
      if n > 0 {
        assert FieldShows(t, binary, k + 1 + (n - 1), rest[n - 1]);
      }
    }
  }

  lemma {:induction false} EveryFieldShows(t: DataType, binary: seq<byte>, size: nat, k: nat)
    requires !t.Unsupported? && EndAt(t, size, Position(t, k)) <= |binary|
    ensures FieldsShow(t, binary, size, k, FieldsFrom(t, binary, size, k))
    decreases if Position(t, k) < size then size - Position(t, k) else 0
  {
    if Position(t, k) < size {
      ElementShows(t, binary, k);
      EveryFieldShows(t, binary, size, k + 1);
      FieldsShowCons(t, binary, size, k, ElementText(t, binary, Position(t, k)), FieldsFrom(t, binary, size, k + 1));
    }
  }

  lemma ShownLists(t: DataType, binary: seq<byte>, size: nat, k: nat, fields: seq<string>)
    requires k == 0 && !t.Unsupported? && FieldsShow(t, binary, size, k, fields)
    ensures Lists(t, binary, size, fields)
  {
    forall n | 0 <= n < |fields| ensures FieldShows(t, binary, n, fields[n]) {
      assert FieldShows(t, binary, k + n, fields[n]);
    }
  }

  /** A complete rendering says what the array holds. */
  lemma RenderingSays(t: DataType, binary: seq<byte>, size: nat)
    requires size == 0 || (!t.Unsupported? && EndAt(t, size, 0) <= |binary|)
    ensures Says(t, binary, size, Rendering(t, binary, size, 0))
  {
    var fields := FieldsFrom(t, binary, size, 0);
    RenderingListed(t, binary, size, 0);
    if size > 0 {
      EveryFieldShows(t, binary, size, 0);
      ShownLists(t, binary, size, 0, fields);
    }
    assert Lists(t, binary, size, fields);
  }

  /** What a print without error appended says what the array holds. */
  lemma PrintSays(t: DataType, binary: seq<byte>, size: nat, bufferSize: nat, contents: string)
    requires |contents| + 2 <= bufferSize && PrintFrom(t, binary, size, 0, bufferSize, contents).error == 0
    ensures var after := PrintFrom(t, binary, size, 0, bufferSize, contents).contents;
            contents <= after && Says(t, binary, size, after[|contents|..])
  {
    PrintSucceedsIff(t, binary, size, 0, bufferSize, contents);
    RenderingSays(t, binary, size);
    var text := Rendering(t, binary, size, 0);
    assert (contents + text)[|contents|..] == text;
  }

  /** octetBinary2ascii for these types, without variable names. */
  method Binary2Ascii(binary: seq<byte>, size: nat, t: DataType, out: OutputBuffer) returns (error: int)
    requires out.Valid() && |binary| >= 4
    modifies out, out.buffer
    ensures out.Valid()
    ensures Printed(out.Contents(), error) == PrintFrom(t, binary, size, 0, out.bufferSize, old(out.Contents()))
    ensures error == 0 ==>
              old(out.Contents()) <= out.Contents() && Says(t, binary, size, out.Contents()[|old(out.Contents())|..])
  {
    ghost var was := out.Contents();
    var bytesProcessed: nat := 0;
    error := 0;
    ghost var all := PrintFrom(t, binary, size, 0, out.bufferSize, out.Contents());
    while bytesProcessed < size && error == 0
      invariant out.Valid() && (error == 0 ==> bytesProcessed + Width(t) <= |binary|)
      invariant error == 0 ==> PrintFrom(t, binary, size, bytesProcessed, out.bufferSize, out.Contents()) == all
      invariant error != 0 ==> Printed(out.Contents(), error) == all
      decreases size - bytesProcessed, error == 0
    {
      bytesProcessed, error := PrintElement(binary, size, t, bytesProcessed, out);
    }
    if error == 0 {
      PrintSays(t, binary, size, out.bufferSize, was);
    }
  }

  /** One turn of the loop. */
  method PrintElement(binary: seq<byte>, ghost size: nat, t: DataType, at: nat, out: OutputBuffer)
    returns (bytesProcessed: nat, error: int)
    requires out.Valid() && at < size && at + Width(t) <= |binary|
    modifies out, out.buffer
    ensures out.Valid() && bytesProcessed == at + Width(t)
    ensures var all := PrintFrom(t, binary, size, at, out.bufferSize, old(out.Contents()));
            if error == 0 then PrintFrom(t, binary, size, bytesProcessed, out.bufferSize, out.Contents()) == all
            else Printed(out.Contents(), error) == all
    ensures error == 0 ==> !t.Unsupported? && bytesProcessed + Width(t) <= |binary|
  {
    error, bytesProcessed := 0, at;
    var bytesPerDataPoint := Width(t);
    if at != 0 {
      out.Printf(",");
    }
    if t.Unsupported? {
      error := INVALID_DATA_TYPE;
    } else {
      ElementShort(t, binary, at);
      out.Printf(ElementText(t, binary, at));
      bytesProcessed := at + bytesPerDataPoint;
    }
    if |binary| < bytesProcessed + bytesPerDataPoint {
      error := INDEX_EXCEEDED_SIZE;
    }
    if out.bufferSize - out.bytesUsed < ROOM {
      error := BUFFER_TO_EPICS_FULL;
    }
  }

  // ----- the parser -----

  datatype Parsed = Parsed(binary: seq<byte>, bytesProcessed: nat, error: int)

  /** Behind the first comma: strchr and one further. */
  function BehindComma(text: string): (r: Option<string>)
    ensures r.Some? ==> |r.value| < |text|
  {
    if text == "" then None else if text[0] == ',' then Some(text[1..]) else BehindComma(text[1..])
  }

  function Overwrite(binary: seq<byte>, at: nat, bs: seq<byte>): (r: seq<byte>)
    requires at + |bs| <= |binary|
    ensures |r| == |binary|
    ensures forall k :: 0 <= k < |r| ==> r[k] == if at <= k < at + |bs| then bs[k - at] else binary[k]
  {
    binary[..at] + bs + binary[at + |bs|..]
  }

  /** The loop of octetAscii2binary from byte position `at` on. */
  function ParseFrom(t: DataType, text: string, binary: seq<byte>, at: nat): Parsed
    requires at + Width(t) <= |binary|
    decreases |text|
  {
    if t.Unsupported? then Parsed(binary, at, INVALID_DATA_TYPE)
    else
      var scan := ScanInt(text);
      var stored := if scan.Value? then Overwrite(binary, at, Store(scan.v, Width(t))) else binary;
      var next := at + Width(t);
      if |binary| < next + Width(t) then Parsed(stored, next, INDEX_EXCEEDED_SIZE)
      else
        var rest := BehindComma(text);
        if rest.Some? && !scan.NoMatch? then ParseFrom(t, rest.value, stored, next) else Parsed(stored, next, 0)
  }

  /** What the parser reports: a type it does not know, or that another element
      would not fit behind the last one; the binary buffer keeps its size. */
  lemma {:induction false} ParseErrors(t: DataType, text: string, binary: seq<byte>, at: nat)
    requires at + Width(t) <= |binary|
    ensures var p := ParseFrom(t, text, binary, at);
            && p.error == (if t.Unsupported? then 1004 else if |binary| < p.bytesProcessed + Width(t) then 1005 else 0)
            && |p.binary| == |binary| && at <= p.bytesProcessed <= |binary|
            && (t.Unsupported? ==> p.binary == binary && p.bytesProcessed == at)
    decreases |text|
  {
    if !t.Unsupported? && at + Width(t) + Width(t) <= |binary| && BehindComma(text).Some? && !ScanInt(text).NoMatch? {
      var scan := ScanInt(text);
      var stored := if scan.Value? then Overwrite(binary, at, Store(scan.v, Width(t))) else binary;
      ParseErrors(t, BehindComma(text).value, stored, at + Width(t));
    }
  }

  /** The parser stops at the first field that is not a number: it is counted, and nothing is stored for it. */
  lemma ParseStops(t: DataType, text: string, binary: seq<byte>, at: nat)
    requires !t.Unsupported? && at + Width(t) <= |binary| && !ScanInt(text).Value?
    requires ScanInt(text).NoMatch? || ',' !in text
    ensures ParseFrom(t, text, binary, at)
            == Parsed(binary, at + Width(t), if |binary| < at + Width(t) + Width(t) then 1005 else 0)
  {
    if ',' !in text {
      CommaAfter(text, "");
      assert text + "" == text;
    }
  }

  /** octetAscii2binary for these types, from a byte count of zero. */
  method Ascii2Binary(asciiBuffer: string, t: DataType, binary: array<byte>) returns (error: int, bytesProcessed: nat)
    requires '\0' !in asciiBuffer && binary.Length >= 4
    modifies binary
    ensures Parsed(binary[..], bytesProcessed, error) == ParseFrom(t, asciiBuffer, old(binary[..]), 0)
  {
    ghost var all := ParseFrom(t, asciiBuffer, binary[..], 0);
    var text := asciiBuffer;
    bytesProcessed, error := 0, 0;
    while true
      invariant bytesProcessed + Width(t) <= binary.Length
      invariant ParseFrom(t, text, binary[..], bytesProcessed) == all
      decreases |text|
    {
      var more, rest;
      more, rest, bytesProcessed, error := ParseElement(text, t, binary, bytesProcessed);
      if !more {
        break;
      }
      text := rest;
    }
  }

  /** One turn of the loop. */
  method ParseElement(text: string, t: DataType, binary: array<byte>, at: nat)
    returns (more: bool, rest: string, bytesProcessed: nat, error: int)
    requires at + Width(t) <= binary.Length
    modifies binary
    ensures var all := ParseFrom(t, text, old(binary[..]), at);
            if more then |rest| < |text| && bytesProcessed + Width(t) <= binary.Length
                         && ParseFrom(t, rest, binary[..], bytesProcessed) == all
            else Parsed(binary[..], bytesProcessed, error) == all
  {
    error, bytesProcessed, rest := 0, at, "";
    var converted := 0;
    if t.Unsupported? {
      error := INVALID_DATA_TYPE;
    } else {
      var scan := ScanInt(text);
      converted := if scan.Value? then 1 else if scan.NoMatch? then 0 else -1;
      if scan.Value? {
        StoreAt(binary, at, Store(scan.v, Width(t)));
      }
      bytesProcessed := at + Width(t);
    }
    if binary.Length < bytesProcessed + Width(t) {
      error := INDEX_EXCEEDED_SIZE;
    }
    var behind := BehindComma(text);
    more := behind.Some? && converted != 0 && error == 0;
    if more {
      rest := behind.value;
    }
  }

  method StoreAt(binary: array<byte>, at: nat, bs: seq<byte>)
    requires at + |bs| <= binary.Length
    modifies binary
    ensures binary[..] == Overwrite(old(binary[..]), at, bs)
  {
    forall k | 0 <= k < |bs| {
      binary[at + k] := bs[k];
    }
  }

  /** Numbers, none of them with a comma. */
  ghost predicate Numbers(fields: seq<string>) {
    fields != [] && forall n :: 0 <= n < |fields| ==> ',' !in fields[n] && ScanInt(fields[n]).Value?
  }

  /** From element `k` on the fields' values are stored, reduced to the width, and no other byte has changed. */
  ghost predicate StoredFrom(t: DataType, fields: seq<string>, k: nat, before: seq<byte>, after: seq<byte>)
    requires Numbers(fields)
  {
    && |after| == |before| && Position(t, k + |fields|) <= |before|
    && (forall m, n :: 0 <= n < |fields| && m == k + n ==> HoldsAt(t, after, m, ScanInt(fields[n]).v))
    && (forall m :: 0 <= m < |before| && !(Position(t, k) <= m < Position(t, k + |fields|)) ==> after[m] == before[m])
  }

  ghost predicate HoldsAt(t: DataType, binary: seq<byte>, k: nat, v: int) {
    && Position(t, k) + Width(t) <= |binary|
    && binary[Position(t, k)..Position(t, k) + Width(t)] == Store(v, Width(t))
  }

  lemma TailNumbers(fields: seq<string>)
    requires Numbers(fields) && |fields| > 1
    ensures Numbers(fields[1..])
  {
    forall n | 0 <= n < |fields| - 1 ensures ',' !in fields[1..][n] && ScanInt(fields[1..][n]).Value? {
      assert fields[1..][n] == fields[n + 1];
    }
  }

  lemma HoldsPut(t: DataType, binary: seq<byte>, k: nat, v: int)
    requires Position(t, k) + Width(t) <= |binary|
    ensures HoldsAt(t, Overwrite(binary, Position(t, k), Store(v, Width(t))), k, v)
  {
    SliceIs(Overwrite(binary, Position(t, k), Store(v, Width(t))), Position(t, k), Store(v, Width(t)));
  }

  /** The parser takes a list in, and stores its numbers. */
  ghost predicate TakesIn(t: DataType, fields: seq<string>, binary: seq<byte>, k: nat)
    requires Numbers(fields) && Position(t, k) + Width(t) <= |binary|
  {
    var p := ParseFrom(t, Listed(fields), binary, Position(t, k));
    p.error == 0 && p.bytesProcessed == Position(t, k + |fields|) && StoredFrom(t, fields, k, binary, p.binary)
  }

  lemma OneTakenIn(t: DataType, fields: seq<string>, binary: seq<byte>, k: nat)
    requires !t.Unsupported? && Numbers(fields) && |fields| == 1 && Position(t, k + 1) + Width(t) <= |binary|
    ensures TakesIn(t, fields, binary, k)
  {
    FirstField(t, fields, binary, k);
    HoldsPut(t, binary, k, ScanInt(fields[0]).v);
  }

  lemma MoreTakenIn(t: DataType, fields: seq<string>, binary: seq<byte>, k: nat, next: nat, stored: seq<byte>)
    requires !t.Unsupported? && Numbers(fields) && |fields| > 1 && next == k + 1 && Numbers(fields[1..])
    requires Position(t, k + |fields|) + Width(t) <= |binary|
    requires stored == Overwrite(binary, Position(t, k), Store(ScanInt(fields[0]).v, Width(t)))
    requires TakesIn(t, fields[1..], stored, next)
    ensures TakesIn(t, fields, binary, k)
  {
    FirstField(t, fields, binary, k);
    StoredJoins(t, fields, k, binary, ParseFrom(t, Listed(fields[1..]), stored, Position(t, next)).binary);
  }

  /** The parser stores every number of a list, in order, each at its element. */
  lemma {:induction false} ParseList(t: DataType, fields: seq<string>, binary: seq<byte>, k: nat)
    requires !t.Unsupported? && Numbers(fields) && Position(t, k + |fields|) + Width(t) <= |binary|
    ensures TakesIn(t, fields, binary, k)
    decreases |fields|
  {
    if |fields| > 1 {
      var next := k + 1;
      var stored := Overwrite(binary, Position(t, k), Store(ScanInt(fields[0]).v, Width(t)));
      TailNumbers(fields);
      ParseList(t, fields[1..], stored, next);
      MoreTakenIn(t, fields, binary, k, next, stored);
    } else {
      OneTakenIn(t, fields, binary, k);
    }
  }

  lemma StoredJoins(t: DataType, fields: seq<string>, k: nat, binary: seq<byte>, r: seq<byte>)
    requires |fields| > 1 && Numbers(fields) && Numbers(fields[1..]) && Position(t, k + |fields|) <= |binary|
    requires !t.Unsupported?
    requires var stored := Overwrite(binary, Position(t, k), Store(ScanInt(fields[0]).v, Width(t)));
             StoredFrom(t, fields[1..], k + 1, stored, r)
    ensures StoredFrom(t, fields, k, binary, r)
  {
    var next, rest, v := k + 1, fields[1..], ScanInt(fields[0]).v;
    var stored := Overwrite(binary, Position(t, k), Store(v, Width(t)));
    OutsideStays(t, k, next, k + |fields|, rest, stored, r);
    FirstStays(t, binary, r, k, v);
    forall m: nat, n: nat | n < |fields| && m == k + n ensures HoldsAt(t, r, m, ScanInt(fields[n]).v) {
      if n > 0 {
        var before: nat := n - 1;
        HoldsLater(t, rest, next, stored, r, before, m);
      }
    }
  }

  /** What was stored first is still there. */
  lemma FirstStays(t: DataType, binary: seq<byte>, r: seq<byte>, k: nat, v: int)
    requires Position(t, k + 1) <= |binary| == |r| && !t.Unsupported?
    requires var stored := Overwrite(binary, Position(t, k), Store(v, Width(t)));
             forall m :: Position(t, k) <= m < Position(t, k + 1) ==> r[m] == stored[m]
    ensures HoldsAt(t, r, k, v)
  {
    SliceIs(r, Position(t, k), Store(v, Width(t)));
  }

  lemma HoldsLater(t: DataType, rest: seq<string>, next: nat, stored: seq<byte>, r: seq<byte>, n: nat, m: nat)
    requires Numbers(rest) && StoredFrom(t, rest, next, stored, r) && n < |rest| && m == next + n
    ensures HoldsAt(t, r, m, ScanInt(rest[n]).v)
  {
  }

  lemma OutsideStays(t: DataType, k: nat, next: nat, end: nat, rest: seq<string>, stored: seq<byte>, r: seq<byte>)
    requires next == k + 1 && end == next + |rest| && Numbers(rest) && StoredFrom(t, rest, next, stored, r)
    ensures |r| == |stored|
    ensures forall m :: 0 <= m < |stored| && !(Position(t, next) <= m < Position(t, end)) ==> r[m] == stored[m]
  {
  }

  /** One turn of the parser on a text that begins with a number. */
  lemma ParseOne(t: DataType, text: string, binary: seq<byte>, at: nat, next: nat, v: int, behind: Option<string>)
    requires !t.Unsupported? && next == at + Width(t) && next + Width(t) <= |binary|
    requires ScanInt(text) == Value(v) && BehindComma(text) == behind
    ensures var stored := Overwrite(binary, at, Store(v, Width(t)));
            ParseFrom(t, text, binary, at)
            == if behind.Some? then ParseFrom(t, behind.value, stored, next) else Parsed(stored, next, 0)
  {
  }

  /** A list begins with its first field, and the others stand behind the first comma. */
  lemma ListOpened(fields: seq<string>)
    requires Numbers(fields)
    ensures ScanInt(Listed(fields)) == ScanInt(fields[0])
    ensures BehindComma(Listed(fields)) == if |fields| > 1 then Some(Listed(fields[1..])) else None
  {
    var field := fields[0];
    if |fields| > 1 {
      var rest := "," + Listed(fields[1..]);
      assert Listed(fields) == field + rest;
      ScanEnds(field, rest);
      CommaAfter(field, rest);
      assert rest[1..] == Listed(fields[1..]);
    } else {
      CommaAfter(field, "");
      assert field + "" == field;
    }
  }

  lemma FirstField(t: DataType, fields: seq<string>, binary: seq<byte>, k: nat)
    requires !t.Unsupported? && Numbers(fields) && Position(t, k + |fields|) + Width(t) <= |binary|
    ensures var at, next := Position(t, k), Position(t, k + 1);
            && at + Width(t) == next && next + Width(t) <= |binary|
            && var stored := Overwrite(binary, at, Store(ScanInt(fields[0]).v, Width(t)));
               ParseFrom(t, Listed(fields), binary, at)
               == if |fields| > 1 then ParseFrom(t, Listed(fields[1..]), stored, next) else Parsed(stored, next, 0)
  {
    ListOpened(fields);
    ParseOne(t, Listed(fields), binary, Position(t, k), Position(t, k + 1), ScanInt(fields[0]).v,
             if |fields| > 1 then Some(Listed(fields[1..])) else None);
  }

  // ----- there and back -----

  /** What comes back of a byte: itself, except that a bit's byte other than 1 shows as 0. */
  function Canonical(t: DataType, b: byte): byte {
    if t.Bit? && b != 1 then 0 else b
  }

  /** The text of one element is stored as the bytes it was made from. */
  lemma ElementReturns(t: DataType, binary: seq<byte>, at: nat)
    requires !t.Unsupported? && at + Width(t) <= |binary|
    ensures var bs := Store(Shown(t, SliceAt(binary, at, Width(t))), Width(t));
            forall k :: 0 <= k < Width(t) ==> bs[k] == Canonical(t, binary[at + k])
  {
    var element := SliceAt(binary, at, Width(t));
    StoreInverts(element);
    if t.Bit? {
      assert Store(0, 1) == [0] + Store(0, 0) && Store(1, 1) == [1] + Store(0, 0);
      assert element == [binary[at]];
    }
  }

  lemma CommaAfter(front: string, rest: string)
    requires ',' !in front
    ensures BehindComma(front + rest) == BehindComma(rest)
    decreases |front|
  {
    if front == "" {
      assert front + rest == rest;
    } else {
      CommaAfter(front[1..], rest);
      assert (front + rest)[1..] == front[1..] + rest;
      assert front[0] in front;
    }
  }

  /** What is left of the rendering behind an element: nothing, or a comma and
      the elements that follow. */
  lemma RestOfRendering(t: DataType, binary: seq<byte>, size: nat, next: nat)
    requires !t.Unsupported? && next > 0
    ensures var rest := Rendering(t, binary, size, next);
            && Stops(rest)
            && (next >= size ==> rest == "" && BehindComma(rest) == None)
            && (next < size ==> BehindComma(rest) == Some(Element(t, binary, size, next)))
  {
    var rest := Rendering(t, binary, size, next);
    if next < size {
      assert rest[0] == ',' && rest[1..] == Element(t, binary, size, next);
    }
  }

  /** The rendering from `at` on without a comma before it. */
  function Element(t: DataType, binary: seq<byte>, size: nat, at: nat): string {
    ElementText(t, binary, at) + Rendering(t, binary, size, at + Width(t))
  }

  /** One turn of the parser on one element of the printer. */
  lemma ParseStep(t: DataType, source: seq<byte>, size: nat, at: nat, target: seq<byte>)
    requires at < size && !t.Unsupported? && at + Width(t) + Width(t) <= |target|
    ensures var stored := Overwrite(target, at, Store(Shown(t, SliceAt(source, at, Width(t))), Width(t)));
            var next := at + Width(t);
            ParseFrom(t, Element(t, source, size, at), target, at)
            == if next < size then ParseFrom(t, Element(t, source, size, next), stored, next) else Parsed(stored, next, 0)
  {
    var text, rest := ElementText(t, source, at), Rendering(t, source, size, at + Width(t));
    RestOfRendering(t, source, size, at + Width(t));
    ScanInvertsRender(Shown(t, SliceAt(source, at, Width(t))), rest);
    RenderHasNo(Shown(t, SliceAt(source, at, Width(t))), ',');
    CommaAfter(text, rest);
    ParseOne(t, Element(t, source, size, at), target, at, at + Width(t), Shown(t, SliceAt(source, at, Width(t))),
             BehindComma(rest));
  }

  /** `r` holds the source's elements from `at` to `end`, and elsewhere what the target held. */
  ghost predicate Restored(t: DataType, source: seq<byte>, target: seq<byte>, r: seq<byte>, at: nat, end: nat) {
    && end <= |source| && end <= |target| == |r|
    && (forall k :: at <= k < end ==> r[k] == Canonical(t, source[k]))
    && (forall k :: 0 <= k < |r| && !(at <= k < end) ==> r[k] == target[k])
  }

  lemma RestoreStep(t: DataType, source: seq<byte>, target: seq<byte>, r: seq<byte>, at: nat, next: nat, end: nat,
                    bs: seq<byte>)
    requires at + |bs| == next <= end && next <= |target|
    requires forall k :: 0 <= k < |bs| ==> at + k < |source| && bs[k] == Canonical(t, source[at + k])
    requires Restored(t, source, Overwrite(target, at, bs), r, next, end)
    ensures Restored(t, source, target, r, at, end)
  {
    forall k | at <= k < end ensures r[k] == Canonical(t, source[k]) {
      if k < next {
        assert bs[k - at] == Canonical(t, source[at + (k - at)]);
      }
    }
  }

  /** The parser finds all elements from `at` on and puts them back. */
  ghost predicate Returns(t: DataType, source: seq<byte>, size: nat, at: nat, target: seq<byte>)
    requires at + Width(t) <= |target|
  {
    var p := ParseFrom(t, Element(t, source, size, at), target, at);
    && p.error == 0 && p.bytesProcessed == EndAt(t, size, at)
    && Restored(t, source, target, p.binary, at, EndAt(t, size, at))
  }

  lemma LastReturns(t: DataType, source: seq<byte>, size: nat, at: nat, next: nat, target: seq<byte>, bs: seq<byte>)
    requires at < size <= next && next == at + Width(t) && !t.Unsupported?
    requires next + Width(t) <= |target| && next <= |source|
    requires bs == Store(Shown(t, SliceAt(source, at, Width(t))), Width(t))
    ensures Returns(t, source, size, at, target)
  {
    ParseStep(t, source, size, at, target);
    ElementReturns(t, source, at);
    RestoreStep(t, source, target, Overwrite(target, at, bs), at, next, next, bs);
  }

  lemma MoreReturns(t: DataType, source: seq<byte>, size: nat, at: nat, next: nat, target: seq<byte>, bs: seq<byte>)
    requires next < size && next == at + Width(t) && !t.Unsupported?
    requires next + Width(t) <= |target| && EndAt(t, size, at) <= |source|
    requires bs == Store(Shown(t, SliceAt(source, at, Width(t))), Width(t))
    requires Returns(t, source, size, next, Overwrite(target, at, bs))
    ensures Returns(t, source, size, at, target)
  {
    var stored := Overwrite(target, at, bs);
    ParseStep(t, source, size, at, target);
    ElementReturns(t, source, at);
    RenderingUnfold(t, source, size, at, next);
    RestoreStep(t, source, target, ParseFrom(t, Element(t, source, size, next), stored, next).binary,
                at, next, EndAt(t, size, at), bs);
  }

  lemma {:induction false} ParseRestores(t: DataType, source: seq<byte>, size: nat, at: nat, target: seq<byte>)
    requires at < size && !t.Unsupported?
    requires EndAt(t, size, at) + Width(t) <= |target| && EndAt(t, size, at) <= |source|
    ensures Returns(t, source, size, at, target)
    decreases size - at
  {
    var next := at + Width(t);
    var bs := Store(Shown(t, SliceAt(source, at, Width(t))), Width(t));
    RenderingUnfold(t, source, size, at, next);
    if next < size {
      ParseRestores(t, source, size, next, Overwrite(target, at, bs));
      MoreReturns(t, source, size, at, next, target, bs);
    } else {
      LastReturns(t, source, size, at, next, target, bs);
    }
  }

  /** Printed on an empty buffer, and the text parsed into `target`. */
  function ThereAndBack(t: DataType, source: seq<byte>, size: nat, bufferSize: nat, target: seq<byte>): Parsed
    requires Width(t) <= |target|
  {
    ParseFrom(t, PrintFrom(t, source, size, 0, bufferSize, "").contents, target, 0)
  }

  lemma AcceptedText(t: DataType, source: seq<byte>, size: nat, bufferSize: nat)
    requires 0 < size && bufferSize >= 2 && PrintFrom(t, source, size, 0, bufferSize, "").error == 0
    ensures !t.Unsupported? && EndAt(t, size, 0) + Width(t) <= |source|
    ensures PrintFrom(t, source, size, 0, bufferSize, "").contents == Element(t, source, size, 0)
  {
    PrintSucceedsIff(t, source, size, 0, bufferSize, "");
    FirstElement(t, source, size);
    assert "" + Rendering(t, source, size, 0) == Rendering(t, source, size, 0);
  }

  lemma FirstElement(t: DataType, source: seq<byte>, size: nat)
    requires 0 < size && !t.Unsupported?
    ensures Rendering(t, source, size, 0) == Element(t, source, size, 0)
  {
    RenderingUnfold(t, source, size, 0, Width(t));
    assert "" + ElementText(t, source, 0) == ElementText(t, source, 0);
  }

  /** Whatever the printer accepted on an empty buffer the parser turns back
      into the bytes it came from, in a binary buffer of the same size. */
  lemma RoundTrip(t: DataType, source: seq<byte>, size: nat, bufferSize: nat, target: seq<byte>)
    requires 0 < size && bufferSize >= 2 && |target| == |source| && Width(t) <= |target|
    requires PrintFrom(t, source, size, 0, bufferSize, "").error == 0
    ensures var p := ThereAndBack(t, source, size, bufferSize, target); var end := EndAt(t, size, 0);
            && p.error == 0 && p.bytesProcessed == end
            && Restored(t, source, target, p.binary, 0, end)
            && (p.binary[..end] == source[..end]
                <==> (t.Bit? ==> forall k :: 0 <= k < size ==> source[k] == 0 || source[k] == 1))
  {
    AcceptedText(t, source, size, bufferSize);
    ParseRestores(t, source, size, 0, target);
    RestoredExactly(t, source, target, ThereAndBack(t, source, size, bufferSize, target).binary, size, EndAt(t, size, 0));
  }

  lemma RestoredExactly(t: DataType, source: seq<byte>, target: seq<byte>, r: seq<byte>, size: nat, end: nat)
    requires Restored(t, source, target, r, 0, end) && size <= end && (t.Bit? ==> end == size)
    ensures r[..end] == source[..end] <==> (t.Bit? ==> forall k :: 0 <= k < size ==> source[k] == 0 || source[k] == 1)
  {
    if r[..end] == source[..end] {
      forall k | 0 <= k < size && t.Bit? ensures source[k] == 0 || source[k] == 1 {
        assert r[..end][k] == source[..end][k];
      }
    }
  }

  /** A whole number of elements. */
  predicate Whole(t: DataType, size: nat) {
    match Width(t)
    case 1 => true
    case 2 => size % 2 == 0
    case 4 => size % 4 == 0
    case _ => false
  }

  lemma OneMoreWhole(t: DataType, at: nat, next: nat)
    requires !t.Unsupported? && Whole(t, at) && next == at + Width(t)
    ensures Whole(t, next)
  {
  }

  lemma {:induction false} EndIsWhole(t: DataType, size: nat, at: nat)
    requires !t.Unsupported? && Whole(t, at)
    ensures Whole(t, EndAt(t, size, at))
    decreases if at < size then size - at else 0
  {
    if at < size {
      var next := at + Width(t);
      OneMoreWhole(t, at, next);
      EndIsWhole(t, size, next);
    }
  }

  lemma EmptyTextCounts(t: DataType, target: seq<byte>)
    requires !t.Unsupported? && |target| >= 4
    ensures ParseFrom(t, "", target, 0).bytesProcessed == Width(t)
  {
  }

  lemma EndIsSizeIff(t: DataType, size: nat)
    requires !t.Unsupported? && size > 0
    ensures EndAt(t, size, 0) == size <==> Whole(t, size)
  {
    EndIsWhole(t, size, 0);
  }

  /** The byte count comes back as the size exactly when the array is not empty
      and its size is a whole number of elements. */
  lemma CountReturnsIff(t: DataType, source: seq<byte>, size: nat, bufferSize: nat, target: seq<byte>)
    requires bufferSize >= 2 && |target| == |source| && |source| >= 4
    requires PrintFrom(t, source, size, 0, bufferSize, "").error == 0 && !t.Unsupported?
    ensures ThereAndBack(t, source, size, bufferSize, target).bytesProcessed == size <==> size > 0 && Whole(t, size)
  {
    if size > 0 {
      RoundTrip(t, source, size, bufferSize, target);
      EndIsSizeIff(t, size);
    } else {
      EmptyTextCounts(t, target);
    }
  }
}
