/** The recursive TLV printer: it writes a NUL behind each value, reads it back as a number, and restores the byte. */
module TlvPrinter {
  import opened HexDump

  datatype Option<T> = None | Some(value: T)

  datatype Kind = ObjectInstance | MultipleResource | Resource | Other(code: int)

  /** One decoded record: its whole size, and where its value stands in it. */
  datatype Record = Record(size: nat, kind: Kind, id: nat, dataIndex: nat, dataLen: nat)

  /** What the printer calls: the TLV decoder, and sscanf with an integer and with a floating-point format. */
  datatype Library = Library(
    decode: seq<Byte> -> Option<Record>,
    integer: seq<Byte> -> Option<int>,
    float: seq<Byte> -> Option<string>)
  {
    /** The decoder's records have a header, make progress and stay in the bytes given. */
    ghost predicate InBounds() {
      forall bytes :: decode(bytes).Some? ==>
        var r := decode(bytes).value;
        0 < r.dataIndex && r.dataIndex + r.dataLen <= r.size <= |bytes|
    }
  }

  predicate Nested(k: Kind) {
    k.ObjectInstance? || k.MultipleResource?
  }

  /** What is printed, line group by line group. */
  datatype Item =
    | Open(indent: nat, id: nat, kind: Kind)
    | Data(indent: nat, size: nat, dump: string)
    | AsInteger(indent: nat, number: int)
    | AsFloat(indent: nat, text: string)
    | Close(indent: nat)

  /** The characters a C string function sees. */
  function UpToZero(bytes: seq<Byte>): (r: seq<Byte>)
    ensures r <= bytes && 0 !in r && (|r| < |bytes| ==> bytes[|r|] == 0)
  {
    if bytes == [] || bytes[0] == 0 then [] else [bytes[0]] + UpToZero(bytes[1..])
  }

  /** A value: its dump, and the numbers that its own bytes, up to a zero among them, can be read as. */
  function Value(lib: Library, data: seq<Byte>, indent: nat): seq<Item> {
    [Data(indent + 2, |data|, Dump(data, indent + 2))] + Numbers(lib, UpToZero(data), indent + 2)
  }

  function Numbers(lib: Library, text: seq<Byte>, indent: nat): seq<Item> {
    (if lib.integer(text).Some? then [AsInteger(indent, lib.integer(text).value)] else [])
    + (if lib.float(text).Some? then [AsFloat(indent, lib.float(text).value)] else [])
  }

  /** The printout of a sequence of records: a function of these bytes alone. */
  ghost function Printout(lib: Library, bytes: seq<Byte>, indent: nat): seq<Item>
    requires lib.InBounds()
    decreases |bytes|
  {
    match lib.decode(bytes)
    case None => []
    case Some(r) =>
      var data := bytes[r.dataIndex..r.dataIndex + r.dataLen];
      Braced(r, indent, if Nested(r.kind) then Printout(lib, data, indent + 1) else Value(lib, data, indent))
      + Printout(lib, bytes[r.size..], indent)
  }

  function Braced(r: Record, indent: nat, inner: seq<Item>): seq<Item> {
    [Open(indent, r.id, r.kind)] + inner + [Close(indent)]
  }

  // ---------------------------------------------------------------------------
  // Values
  // ---------------------------------------------------------------------------

  /**
   A value is printed as its dump, then as the integer that the bytes before the first zero are read as,
   if they are one, then as the floating-point number, if they are one, all two levels further in.
   */
  lemma ValueItems(lib: Library, data: seq<Byte>, indent: nat)
    ensures
      var items, text := Value(lib, data, indent), UpToZero(data);
      && items != [] && items[0] == Data(indent + 2, |data|, Dump(data, indent + 2))
      && (lib.integer(text).Some? ==> |items| > 1 && items[1] == AsInteger(indent + 2, lib.integer(text).value))
      && (lib.float(text).Some? ==> |items| > 1 && items[|items| - 1] == AsFloat(indent + 2, lib.float(text).value))
      && (lib.integer(text).None? ==> forall item :: item in items ==> !item.AsInteger?)
      && (lib.float(text).None? ==> forall item :: item in items ==> !item.AsFloat?)
      && |items| <= 3
  {
    hide UpToZero, Dump;
  }

  /** A record and, right behind it, the value of one that holds no others. */
  datatype Entry = Head(depth: nat, id: nat, kind: Kind) | Leaf(value: seq<Byte>)

  /** The tree of records from outside in. */
  ghost function Tree(lib: Library, bytes: seq<Byte>, depth: nat): seq<Entry>
    requires lib.InBounds()
    decreases |bytes|
  {
    match lib.decode(bytes)
    case None => []
    case Some(r) =>
      var data := bytes[r.dataIndex..r.dataIndex + r.dataLen];
      var holds := r.kind == ObjectInstance || r.kind == MultipleResource;
      [Head(depth, r.id, r.kind)] + (if holds then Tree(lib, data, depth + 1) else [Leaf(data)])
      + Tree(lib, bytes[r.size..], depth)
  }

  /** What can be read back from a printout: its headlines and dumps. */
  function ReadItems(items: seq<Item>): seq<Entry> {
    if items == [] then [] else
    (match items[0]
     case Open(indent, id, kind) => [Head(indent, id, kind)]
     case Data(indent, _, dump) => [Leaf(ReadDump(dump, indent))]
     case _ => [])
    + ReadItems(items[1..])
  }

  lemma {:induction false} ReadThen(a: seq<Item>, b: seq<Item>)
    ensures ReadItems(a + b) == ReadItems(a) + ReadItems(b)
  {
    hide ReadDump;
    if a == [] {
      assert a + b == b;
    } else {
      assert (a + b)[1..] == a[1..] + b;
      ReadThen(a[1..], b);
    }
  }

  lemma ValueRead(lib: Library, data: seq<Byte>, indent: nat)
    ensures ReadItems(Value(lib, data, indent)) == [Leaf(data)]
  {
    hide UpToZero, Dump, ReadDump;
    DumpReadsBack(data, indent + 2);
    NothingRead(Value(lib, data, indent)[1..]);
  }

  lemma {:induction false} NothingRead(items: seq<Item>)
    requires forall i :: 0 <= i < |items| ==> !items[i].Data? && !items[i].Open?
    ensures ReadItems(items) == []
  {
    if items != [] {
      NothingRead(items[1..]);
    }
  }

  lemma BracedRead(r: Record, indent: nat, inner: seq<Item>)
    ensures ReadItems(Braced(r, indent, inner)) == [Head(indent, r.id, r.kind)] + ReadItems(inner)
  {
    var open := Open(indent, r.id, r.kind);
    assert [open][1..] == [];
    assert ReadItems([open]) == [Head(indent, r.id, r.kind)] + ReadItems([]);
    hide ReadItems;
    NothingRead([]);
    NothingRead([Close(indent)]);
    ReadThen([open], inner);
    ReadThen([open] + inner, [Close(indent)]);
  }

  /** A printout holds the whole tree of records, each at its depth, and every value, in order. */
  lemma {:induction false} PrintoutReadsBack(lib: Library, bytes: seq<Byte>, indent: nat)
    requires lib.InBounds()
    ensures ReadItems(Printout(lib, bytes, indent)) == Tree(lib, bytes, indent)
    decreases |bytes|
  {
    hide Value, ReadItems, Braced, Printout, Tree;
    if lib.decode(bytes).None? {
      NoRecord(lib, bytes, indent);
    } else {
      var r := lib.decode(bytes).value;
      StepOut(lib, bytes, indent);
      TreeStep(lib, bytes, indent);
      var data := bytes[r.dataIndex..r.dataIndex + r.dataLen];
      if Nested(r.kind) {
        PrintoutReadsBack(lib, data, indent + 1);
        BracedRead(r, indent, Printout(lib, data, indent + 1));
      } else {
        ValueRead(lib, data, indent);
        BracedRead(r, indent, Value(lib, data, indent));
      }
      PrintoutReadsBack(lib, bytes[r.size..], indent);
      ReadThen(Inner(lib, r, bytes, indent), Printout(lib, bytes[r.size..], indent));
    }
  }

  lemma NoRecord(lib: Library, bytes: seq<Byte>, indent: nat)
    requires lib.InBounds() && lib.decode(bytes).None?
    ensures ReadItems(Printout(lib, bytes, indent)) == Tree(lib, bytes, indent)
  {
  }

  lemma TreeStep(lib: Library, bytes: seq<Byte>, depth: nat)
    requires lib.InBounds() && lib.decode(bytes).Some?
    ensures
      var r := lib.decode(bytes).value;
      && 0 < r.dataIndex && r.dataIndex + r.dataLen <= r.size <= |bytes|
      && var data := bytes[r.dataIndex..r.dataIndex + r.dataLen];
      Tree(lib, bytes, depth) ==
        [Head(depth, r.id, r.kind)] + (if Nested(r.kind) then Tree(lib, data, depth + 1) else [Leaf(data)])
        + Tree(lib, bytes[r.size..], depth)
  {
  }

  // ---------------------------------------------------------------------------
  // Braces
  // ---------------------------------------------------------------------------

  /** The depth of braces after some items, none if one was closed that was not open. */
  function Depth(items: seq<Item>, start: nat): Option<nat> {
    if items == [] then Some(start) else
    var d := Depth(items[..|items| - 1], start);
    match items[|items| - 1]
    case Open(_, _, _) => if d.Some? then Some(d.value + 1) else None
    case Close(_) => if d.Some? && d.value > 0 then Some(d.value - 1) else None
    case _ => d
  }

  lemma {:induction false} DepthThen(a: seq<Item>, b: seq<Item>, start: nat)
    requires Depth(a, start).Some?
    ensures Depth(a + b, start) == Depth(b, Depth(a, start).value)
    decreases |b|
  {
    if b == [] {
      assert a + b == a;
    } else {
      DepthThen(a, b[..|b| - 1], start);
      assert (a + b)[..|a + b| - 1] == a + b[..|b| - 1];
    }
  }

  /** Every brace of a printout is closed, in order. */
  lemma {:induction false} BracesMatch(lib: Library, bytes: seq<Byte>, indent: nat, start: nat)
    requires lib.InBounds()
    ensures Depth(Printout(lib, bytes, indent), start) == Some(start)
    decreases |bytes|
  {
    hide Value, Depth, Braced;
    if lib.decode(bytes).Some? {
      var r := lib.decode(bytes).value;
      var data := bytes[r.dataIndex..r.dataIndex + r.dataLen];
      var inner := if Nested(r.kind) then Printout(lib, data, indent + 1) else Value(lib, data, indent);
      if Nested(r.kind) {
        BracesMatch(lib, data, indent + 1, start + 1);
      } else {
        ValueHasNoBraces(lib, data, indent, start + 1);
      }
      BracesMatch(lib, bytes[r.size..], indent, start);
      Around(r, indent, inner, start);
      DepthThen(Braced(r, indent, inner), Printout(lib, bytes[r.size..], indent), start);
    } else {
      Nothing(start);
    }
  }

  lemma Nothing(start: nat)
    ensures Depth([], start) == Some(start)
  {
  }

  lemma Around(r: Record, indent: nat, inner: seq<Item>, start: nat)
    requires Depth(inner, start + 1) == Some(start + 1)
    ensures Depth(Braced(r, indent, inner), start) == Some(start)
  {
    hide Depth;
    var open, close := [Open(indent, r.id, r.kind)], [Close(indent)];
    OneItem(open[0], start);
    OneItem(close[0], start + 1);
    DepthThen(open, inner, start);
    DepthThen(open + inner, close, start);
  }

  lemma OneItem(item: Item, start: nat)
    ensures item.Open? ==> Depth([item], start) == Some(start + 1)
    ensures item.Close? && start > 0 ==> Depth([item], start) == Some(start - 1)
    ensures !item.Open? && !item.Close? ==> Depth([item], start) == Some(start)
  {
    assert [item][..0] == [];
    assert Depth([], start) == Some(start);
  }

  lemma ValueHasNoBraces(lib: Library, data: seq<Byte>, indent: nat, start: nat)
    ensures Depth(Value(lib, data, indent), start) == Some(start)
  {
    var items := Value(lib, data, indent);
    assert forall i :: 0 <= i < |items| ==> !items[i].Open? && !items[i].Close?;
    NoBraces(items, start);
  }

  lemma {:induction false} NoBraces(items: seq<Item>, start: nat)
    requires forall i :: 0 <= i < |items| ==> !items[i].Open? && !items[i].Close?
    ensures Depth(items, start) == Some(start)
    decreases |items|
  {
    if items != [] {
      NoBraces(items[..|items| - 1], start);
    }
  }

  // ---------------------------------------------------------------------------
  // The printer
  // ---------------------------------------------------------------------------

  /** sscanf stops at the first zero byte, and there is one in the buffer. */
  method Scan(buffer: array<Byte>, start: nat) returns (text: seq<Byte>)
    requires start <= buffer.Length && 0 in buffer[start..]
    ensures text == UpToZero(buffer[start..])
  {
    ghost var seen := UpToZero(buffer[start..]);
    assert forall i :: 0 <= i < |seen| ==> seen[i] == buffer[start + i] && seen[i] in seen;
    var n := start;
    while buffer[n] != 0
      invariant start <= n <= start + |seen| && n < buffer.Length
      decreases buffer.Length - n
    {
      n := n + 1;
    }
    return buffer[start..n];
  }

  method OutputNumbers(lib: Library, buffer: array<Byte>, start: nat, indent: nat, stream: seq<Item>)
    returns (out: seq<Item>)
    requires start <= buffer.Length && 0 in buffer[start..]
    ensures out == stream + Numbers(lib, UpToZero(buffer[start..]), indent)
  {
    hide UpToZero;
    out := stream;
    var text := Scan(buffer, start);
    var integer := lib.integer(text);
    if integer.Some? {
      out := out + [AsInteger(indent, integer.value)];
    }
    text := Scan(buffer, start);
    var float := lib.float(text);
    if float.Some? {
      out := out + [AsFloat(indent, float.value)];
    }
  }

  /**
   A value of `size` bytes at `start`. The byte behind it is overwritten for the scan and put
   back, so it must exist, even behind the last value.
   */
  method OutputValue(lib: Library, buffer: array<Byte>, start: nat, size: nat, indent: nat, stream: seq<Item>)
    returns (out: seq<Item>)
    requires start + size < buffer.Length
    modifies buffer
    ensures buffer[..] == old(buffer[..])
    ensures out == stream + Value(lib, buffer[start..start + size], indent)
  {
    hide UpToZero, Numbers, Dump;
    ghost var before := buffer[..];
    ghost var data := buffer[start..start + size];
    assert data == before[start..start + size];
    var dump := OutputBuffer("", buffer, start, size, indent + 2);
    assert dump == Dump(data, indent + 2);
    out := stream + [Data(indent + 2, size, dump)];
    var tmp := buffer[start + size];
    buffer[start + size] := 0;
    assert buffer[start..start + size] == data;
    SeenIsData(buffer[start..], data);
    out := OutputNumbers(lib, buffer, start, indent + 2, out);
    buffer[start + size] := tmp;
    assert buffer[..] == before;
    assert buffer[start..start + size] == before[start..start + size];
  }

  /** With a zero right behind it, a scan sees the value and nothing else. */
  lemma SeenIsData(seen: seq<Byte>, data: seq<Byte>)
    requires data + [0] <= seen
    ensures 0 in seen && UpToZero(seen) == UpToZero(data)
  {
    var a, b := UpToZero(seen), UpToZero(data);
    assert seen[|data|] == 0;
    assert forall i :: 0 <= i < |a| ==> a[i] == seen[i] && a[i] in a;
    assert forall i :: 0 <= i < |b| ==> b[i] == seen[i] && b[i] in b;
    assert |b| < |data| ==> seen[|b|] == 0;
  }

  /** One writable byte behind the records is all the printer needs besides them. */
  method OutputTlv(lib: Library, buffer: array<Byte>, base: nat, size: nat, indent: nat, stream: seq<Item>)
    returns (out: seq<Item>)
    requires lib.InBounds() && base + size < buffer.Length
    modifies buffer
    ensures buffer[..] == old(buffer[..])
    ensures out == stream + Printout(lib, buffer[base..base + size], indent)
    decreases size
  {
    hide Value, Library.InBounds, Printout, Braced;
    ghost var before := buffer[..];
    out := stream;
    var length := 0;
    var record := lib.decode(buffer[base..base + size]);
    while record.Some?
      invariant length <= size && buffer[..] == before
      invariant record == lib.decode(buffer[base + length..base + size])
      invariant stream + Printout(lib, before[base..base + size], indent)
        == out + Printout(lib, before[base + length..base + size], indent)
      decreases size - length
    {
      var r := record.value;
      ghost var left := before[base + length..base + size];
      assert left == buffer[base + length..base + size];
      StepOut(lib, left, indent);
      out := OutputRecord(lib, buffer, base + length, size - length, r, indent, out);
      length := length + r.size;
      assert left[r.size..] == before[base + length..base + size] == buffer[base + length..base + size];
      record := lib.decode(buffer[base + length..base + size]);
    }
    AllOut(lib, before[base + length..base + size], indent);
    assert before[base..base + size] == buffer[base..base + size];
  }

  /** The body of the loop: one record between its braces. */
  method OutputRecord(lib: Library, buffer: array<Byte>, base: nat, size: nat, r: Record, indent: nat, stream: seq<Item>)
    returns (out: seq<Item>)
    requires lib.InBounds() && base + size < buffer.Length
    requires 0 < r.dataIndex && r.dataIndex + r.dataLen <= r.size <= size
    modifies buffer
    ensures buffer[..] == old(buffer[..])
    ensures out == stream + Inner(lib, r, buffer[base..base + size], indent)
    decreases size, 0
  {
    hide *;
    ghost var before := buffer[..];
    var start := base + r.dataIndex;
    ghost var data := before[start..start + r.dataLen];
    out := stream + [Open(indent, r.id, r.kind)];
    ghost var inner;
    if r.kind.ObjectInstance? || r.kind.MultipleResource? {
      out := OutputTlv(lib, buffer, start, r.dataLen, indent + 1, out);
      inner := Printout(lib, data, indent + 1);
    } else {
      out := OutputValue(lib, buffer, start, r.dataLen, indent, out);
      inner := Value(lib, data, indent);
    }
    SameSlices(buffer, before, start, start + r.dataLen);
    SameSlices(buffer, before, base, base + size);
    assert out == stream + [Open(indent, r.id, r.kind)] + inner;
    out := out + [Close(indent)];
    RecordOut(lib, r, before, base, size, indent);
    Regroup(stream, [Open(indent, r.id, r.kind)], inner, [Close(indent)]);
  }

  lemma SameSlices(buffer: array<Byte>, before: seq<Byte>, start: nat, stop: nat)
    requires buffer[..] == before && start <= stop <= |before|
    ensures buffer[start..stop] == before[start..stop]
  {
  }

  lemma Regroup(a: seq<Item>, b: seq<Item>, c: seq<Item>, d: seq<Item>)
    ensures a + b + c + d == a + (b + c + d)
  {
  }

  lemma RecordOut(lib: Library, r: Record, bytes: seq<Byte>, base: nat, size: nat, indent: nat)
    requires lib.InBounds() && base + size <= |bytes| && r.dataIndex + r.dataLen <= size
    ensures
      var data := bytes[base + r.dataIndex..base + r.dataIndex + r.dataLen];
      Inner(lib, r, bytes[base..base + size], indent) ==
        [Open(indent, r.id, r.kind)]
        + (if r.kind.ObjectInstance? || r.kind.MultipleResource? then Printout(lib, data, indent + 1) else Value(lib, data, indent))
        + [Close(indent)]
  {
    hide Value, Printout;
    SliceOfSlice(bytes, base, size, r.dataIndex, r.dataIndex + r.dataLen);
  }

  lemma SliceOfSlice(bytes: seq<Byte>, base: nat, size: nat, i: nat, j: nat)
    requires base + size <= |bytes| && i <= j <= size
    ensures bytes[base..base + size][i..j] == bytes[base + i..base + j]
  {
    var inner, outer := bytes[base..base + size][i..j], bytes[base + i..base + j];
    assert |inner| == |outer| && forall k :: 0 <= k < |inner| ==> inner[k] == outer[k];
  }

  /** One record of a printout. */
  ghost function Inner(lib: Library, r: Record, left: seq<Byte>, indent: nat): seq<Item>
    requires lib.InBounds() && r.dataIndex + r.dataLen <= |left|
  {
    var data := left[r.dataIndex..r.dataIndex + r.dataLen];
    Braced(r, indent, if Nested(r.kind) then Printout(lib, data, indent + 1) else Value(lib, data, indent))
  }

  lemma StepOut(lib: Library, left: seq<Byte>, indent: nat)
    requires lib.InBounds() && lib.decode(left).Some?
    ensures
      var r := lib.decode(left).value;
      && 0 < r.dataIndex && r.dataIndex + r.dataLen <= r.size <= |left|
      && Printout(lib, left, indent) == Inner(lib, r, left, indent) + Printout(lib, left[r.size..], indent)
  {
    hide Value, Braced;
  }

  lemma AllOut(lib: Library, left: seq<Byte>, indent: nat)
    requires lib.InBounds() && lib.decode(left).None?
    ensures Printout(lib, left, indent) == []
  {
  }
}
