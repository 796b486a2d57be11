/** The hex dump of output_buffer, and that it can be read back. */
module HexDump {
  type Byte = b: int | 0 <= b < 256 witness 0

  const DIGITS := "0123456789ABCDEF"

  function Spaces(n: nat): (s: string)
    ensures |s| == n && forall i :: 0 <= i < n ==> s[i] == ' '
  {
    seq(n, _ => ' ')
  }

  /** The cell of byte `j` of a row: two digits and a space, and one more space after every fourth. */
  function Cell(b: Byte, j: nat): (s: string)
    ensures |s| == Width(j) && s[0] == DIGITS[b / 16] && s[1] == DIGITS[b % 16]
    ensures '\n' !in s
  {
    [DIGITS[b / 16], DIGITS[b % 16], ' '] + Spaces(Width(j) - 3)
  }

  function Width(j: nat): (w: nat)
    ensures 3 <= w <= 4
  {
    if j % 4 == 3 then 4 else 3
  }

  function Cells(bytes: seq<Byte>): string {
    if bytes == [] then "" else Cells(bytes[..|bytes| - 1]) + Cell(bytes[|bytes| - 1], |bytes| - 1)
  }

  /** The width of `n` cells. */
  function Columns(n: nat): (w: nat)
    ensures w == 3 * n + n / 4
  {
    if n == 0 then 0 else Columns(n - 1) + Width(n - 1)
  }

  /** isprint in the C locale. */
  function Shown(b: Byte): (c: char)
    ensures c != '\n'
  {
    if 32 <= b < 127 then b as char else '.'
  }

  function Text(bytes: seq<Byte>): (s: string)
    ensures |s| == |bytes| && '\n' !in s
  {
    seq(|bytes|, i requires 0 <= i < |bytes| => Shown(bytes[i]))
  }

  /** The blank cells that fill a row up to sixteen. */
  function Padding(n: nat, padded: bool): (w: nat)
    requires n <= 16
    ensures padded ==> Columns(n) + w == Columns(16) == 52
  {
    if padded then Columns(16) - Columns(n) else 0
  }

  /** One row: indent, cells, blank cells up to sixteen if the dump is longer than a row, a space, the text. */
  function Row(bytes: seq<Byte>, padded: bool, indent: nat): (s: string)
    requires |bytes| <= 16
  {
    Spaces(4 * indent) + (Cells(bytes) + (Spaces(Padding(|bytes|, padded)) + " " + Text(bytes)))
  }

  /** The rows from byte `i` on, each with its newline. */
  function Rows(bytes: seq<Byte>, i: nat, indent: nat): string
    requires i <= |bytes|
    decreases |bytes| - i
  {
    if i == |bytes| then "" else
    var next := if i + 16 <= |bytes| then i + 16 else |bytes|;
    Row(bytes[i..next], |bytes| > 16, indent) + "\n" + Rows(bytes, next, indent)
  }

  function Dump(bytes: seq<Byte>, indent: nat): string {
    if bytes == [] then "\n" else Rows(bytes, 0, indent)
  }

  // ---------------------------------------------------------------------------
  // Reading a dump back
  // ---------------------------------------------------------------------------

  function Digit(c: char): (r: int)
    ensures -1 <= r < 16
  {
    if '0' <= c <= '9' then c as int - '0' as int
    else if 'A' <= c <= 'F' then c as int - 'A' as int + 10
    else -1
  }

  /** The cells at the front of a row, from cell `j` on: up to the first that has no digits. */
  function ReadCells(s: string, j: nat): (bytes: seq<Byte>)
    decreases |s|
  {
    if j >= 16 || |s| < Width(j) || Digit(s[0]) < 0 || Digit(s[1]) < 0 then []
    else [16 * Digit(s[0]) + Digit(s[1])] + ReadCells(s[Width(j)..], j + 1)
  }

  function Newline(s: string): (n: nat)
    ensures n <= |s| && '\n' !in s[..n] && (n < |s| ==> s[n] == '\n')
  {
    if s == [] || s[0] == '\n' then 0 else 1 + Newline(s[1..])
  }

  /** A dump line by line: what stands behind the indent is read cell by cell, the text column is ignored. */
  function ReadDump(s: string, indent: nat): (bytes: seq<Byte>)
    decreases |s|
  {
    if s == "" then [] else
    var n := Newline(s);
    var row := if n < 4 * indent then "" else s[4 * indent..n];
    ReadCells(row, 0) + (if n == |s| then [] else ReadDump(s[n + 1..], indent))
  }

  lemma DigitsReadBack(b: Byte)
    ensures Digit(DIGITS[b / 16]) == b / 16 && Digit(DIGITS[b % 16]) == b % 16
    ensures Digit(' ') == -1
    ensures DIGITS[b / 16] != '\n' && DIGITS[b % 16] != '\n'
  {
  }

  lemma {:induction false} CellsLength(bytes: seq<Byte>)
    ensures |Cells(bytes)| == Columns(|bytes|) && '\n' !in Cells(bytes)
    decreases |bytes|
  {
    hide Cell, Width;
    if bytes != [] {
      CellsLength(bytes[..|bytes| - 1]);
    }
  }

  /** Cells from `j` on, for reading from the front. */
  function CellsFrom(bytes: seq<Byte>, j: nat): string
    requires j <= |bytes|
    decreases |bytes| - j
  {
    if j == |bytes| then "" else Cell(bytes[j], j) + CellsFrom(bytes, j + 1)
  }

  lemma {:induction false} CellsSplit(bytes: seq<Byte>, j: nat)
    requires j <= |bytes|
    ensures Cells(bytes) == Cells(bytes[..j]) + CellsFrom(bytes, j)
    decreases |bytes| - j
  {
    hide Cell, Width;
    if j == |bytes| {
      assert bytes[..j] == bytes;
    } else {
      CellsSplit(bytes, j + 1);
      var front := bytes[..j + 1];
      assert front[..j] == bytes[..j] && front[j] == bytes[j];
      Associative(Cells(bytes[..j]), Cell(bytes[j], j), CellsFrom(bytes, j + 1));
    }
  }

  lemma Associative(a: string, b: string, c: string)
    ensures (a + b) + c == a + (b + c)
  {
  }

  lemma {:induction false} CellsReadBack(bytes: seq<Byte>, j: nat, rest: string)
    requires j <= |bytes| <= 16 && (rest == "" || rest[0] == ' ')
    ensures ReadCells(CellsFrom(bytes, j) + rest, j) == bytes[j..]
    decreases |bytes| - j
  {
    hide Cell, Digit;
    if j == |bytes| {
      DigitsReadBack(0);
      assert CellsFrom(bytes, j) + rest == rest;
    } else {
      DigitsReadBack(bytes[j]);
      CellsReadBack(bytes, j + 1, rest);
      var cell, tail := Cell(bytes[j], j), CellsFrom(bytes, j + 1) + rest;
      Associative(cell, CellsFrom(bytes, j + 1), rest);
      assert CellsFrom(bytes, j) + rest == cell + tail;
      assert (cell + tail)[Width(j)..] == tail;
    }
  }

  lemma RowReadBack(bytes: seq<Byte>, padded: bool, indent: nat)
    requires |bytes| <= 16
    ensures '\n' !in Row(bytes, padded, indent) && |Row(bytes, padded, indent)| >= 4 * indent
    ensures ReadCells(Row(bytes, padded, indent)[4 * indent..], 0) == bytes
  {
    hide Columns, Padding, Cells, ReadCells, CellsFrom, Shown;
    CellsLength(bytes);
    CellsSplit(bytes, 0);
    assert bytes[..0] == [];
    NoCells();
    var rest := Spaces(Padding(|bytes|, padded)) + " " + Text(bytes);
    assert rest[0] == ' ' && '\n' !in rest;
    CellsReadBack(bytes, 0, rest);
    var behind := Cells(bytes) + rest;
    assert behind == CellsFrom(bytes, 0) + rest;
    assert (Spaces(4 * indent) + behind)[4 * indent..] == behind;
  }

  lemma NoCells()
    ensures Cells([]) == ""
  {
  }

  lemma {:induction false} NewlineBehind(row: string, rest: string)
    requires '\n' !in row
    ensures Newline(row + "\n" + rest) == |row|
  {
    var s := row + "\n" + rest;
    var n := Newline(s);
    assert s[|row|] == '\n';
    assert forall i :: 0 <= i < |row| ==> s[i] == row[i] && s[i] in row;
    assert forall i :: 0 <= i < n ==> s[i] == s[..n][i] && s[..n][i] in s[..n];
  }

  lemma LineReadBack(row: string, rest: string, indent: nat)
    requires '\n' !in row && |row| >= 4 * indent
    ensures ReadDump(row + "\n" + rest, indent) == ReadCells(row[4 * indent..], 0) + ReadDump(rest, indent)
  {
    hide ReadCells, Newline;
    NewlineBehind(row, rest);
    var s := row + "\n" + rest;
    assert s[4 * indent..|row|] == row[4 * indent..];
    assert s[|row| + 1..] == rest;
  }

  lemma {:induction false} RowsReadBack(bytes: seq<Byte>, i: nat, indent: nat)
    requires i <= |bytes|
    ensures ReadDump(Rows(bytes, i, indent), indent) == bytes[i..]
    decreases |bytes| - i
  {
    hide Row, ReadCells, Newline;
    if i < |bytes| {
      hide ReadDump;
      var next := if i + 16 <= |bytes| then i + 16 else |bytes|;
      var row := Row(bytes[i..next], |bytes| > 16, indent);
      RowReadBack(bytes[i..next], |bytes| > 16, indent);
      RowsReadBack(bytes, next, indent);
      LineReadBack(row, Rows(bytes, next, indent), indent);
      CutAt(bytes, i, next);
    }
  }

  lemma CutAt(bytes: seq<Byte>, i: nat, k: nat)
    requires i <= k <= |bytes|
    ensures bytes[i..] == bytes[i..k] + bytes[k..]
  {
  }

  /** The hex columns hold the dumped bytes, for every length and indent. */
  lemma DumpReadsBack(bytes: seq<Byte>, indent: nat)
    ensures ReadDump(Dump(bytes, indent), indent) == bytes
  {
    if bytes == [] {
      NewlineBehind("", "");
    } else {
      RowsReadBack(bytes, 0, indent);
    }
  }

  // ---------------------------------------------------------------------------
  // The text column
  // ---------------------------------------------------------------------------

  /** Where row `k` of a dump stands, newlines not counted in the row. */
  function RowAt(bytes: seq<Byte>, k: nat, indent: nat): string
    requires 16 * k < |bytes|
  {
    var next := if 16 * k + 16 <= |bytes| then 16 * k + 16 else |bytes|;
    Row(bytes[16 * k..next], |bytes| > 16, indent)
  }

  /** In a dump longer than a row, the text of every row, the short last one too, starts at one offset. */
  lemma TextColumnAligned(bytes: seq<Byte>, k: nat, indent: nat)
    requires |bytes| > 16 && 16 * k < |bytes|
    ensures
      var row := RowAt(bytes, k, indent);
      var next := if 16 * k + 16 <= |bytes| then 16 * k + 16 else |bytes|;
      && |row| == 4 * indent + 53 + (next - 16 * k)
      && forall i :: 16 * k <= i < next ==> row[4 * indent + 53 + (i - 16 * k)] == Printable(bytes[i])
  {
    hide Columns, Padding, Cells;
    var next := if 16 * k + 16 <= |bytes| then 16 * k + 16 else |bytes|;
    var chunk := bytes[16 * k..next];
    CellsLength(chunk);
    var left := Spaces(4 * indent) + (Cells(chunk) + (Spaces(Padding(|chunk|, true)) + " "));
    assert RowAt(bytes, k, indent) == left + Text(chunk);
    assert |left| == 4 * indent + 53;
    forall i | 16 * k <= i < next ensures (left + Text(chunk))[4 * indent + 53 + (i - 16 * k)] == Printable(bytes[i]) {
      assert chunk[i - 16 * k] == bytes[i];
    }
  }

  /** The printable codes of the C locale stand for themselves, all others for a point. */
  function Printable(b: Byte): char {
    if b < 32 || b > 126 then '.' else b as char
  }

  /** A dump of a single row has no blank cells; a dump of nothing is an empty line. */
  lemma ShortDump(bytes: seq<Byte>, indent: nat)
    requires |bytes| <= 16
    ensures
      var n, dump := |bytes|, Dump(bytes, indent);
      if n == 0 then dump == "\n"
      else
        && |dump| == 4 * indent + 3 * n + n / 4 + 1 + n + 1 && dump[|dump| - 1] == '\n'
        && forall i :: 0 <= i < n ==> dump[|dump| - 1 - n + i] == Printable(bytes[i])
  {
    hide Columns, Cells;
    if bytes != [] {
      CellsLength(bytes);
      assert bytes[0..|bytes|] == bytes;
      var left := Spaces(4 * indent) + (Cells(bytes) + (Spaces(0) + " "));
      assert Row(bytes, false, indent) == left + Text(bytes);
      assert Dump(bytes, indent) == Row(bytes, false, indent) + "\n" + Rows(bytes, |bytes|, indent);
    }
  }

  /** The first `k` rows, each with its newline. */
  function Lines(bytes: seq<Byte>, k: nat, indent: nat): string
    requires k > 0 ==> 16 * (k - 1) < |bytes|
  {
    if k == 0 then "" else Lines(bytes, k - 1, indent) + RowAt(bytes, k - 1, indent) + "\n"
  }

  /** A dump is its rows, one per sixteen bytes. */
  lemma {:induction false} DumpIsRows(bytes: seq<Byte>, k: nat, indent: nat)
    requires 0 < k && 16 * (k - 1) < |bytes|
    ensures Dump(bytes, indent) == Lines(bytes, k, indent) + Rows(bytes, if 16 * k <= |bytes| then 16 * k else |bytes|, indent)
  {
    hide Row;
    if k > 1 {
      DumpIsRows(bytes, k - 1, indent);
    }
  }

  // ---------------------------------------------------------------------------
  // The printing loops
  // ---------------------------------------------------------------------------

  method Indent(stream: string, n: nat) returns (out: string)
    ensures out == stream + Spaces(4 * n)
  {
    out := stream;
    for i := 0 to n
      invariant out == stream + Spaces(4 * i)
    {
      out := out + "    ";
    }
  }

  method OutputCells(stream: string, row: array<Byte>, n: nat) returns (out: string)
    requires n <= 16 == row.Length
    ensures out == stream + Cells(row[..n])
  {
    out := stream;
    var j := 0;
    while j < n
      invariant 0 <= j <= n && out == stream + Cells(row[..j])
    {
      assert row[..j + 1][..j] == row[..j];
      out := out + [DIGITS[row[j] / 16], DIGITS[row[j] % 16], ' '];
      if j % 4 == 3 {
        out := out + " ";
      }
      j := j + 1;
    }
  }

  method OutputText(stream: string, row: array<Byte>, n: nat) returns (out: string)
    requires n <= 16 == row.Length
    ensures out == stream + Text(row[..n])
  {
    out := stream;
    var j := 0;
    while j < n
      invariant 0 <= j <= n && out == stream + Text(row[..j])
    {
      assert Text(row[..j + 1]) == Text(row[..j]) + [Shown(row[j])];
      if 32 <= row[j] < 127 {
        out := out + [row[j] as char];
      } else {
        out := out + ".";
      }
      j := j + 1;
    }
  }

  /** A row from the sixteen-byte array it is copied to; `n` of its bytes are those of the row. */
  method OutputRow(stream: string, row: array<Byte>, n: nat, padded: bool, indent: nat) returns (out: string)
    requires n <= 16 == row.Length
    ensures out == stream + Row(row[..n], padded, indent) + "\n"
  {
    hide Cells, Text, Columns, Padding, Spaces;
    out := Indent(stream, indent);
    out := OutputCells(out, row, n);
    out := PadRow(out, n, padded);
    out := OutputText(out + " ", row, n);
    assert out == stream + Row(row[..n], padded, indent);
    out := out + "\n";
  }

  method PadRow(stream: string, n: nat, padded: bool) returns (out: string)
    requires n <= 16
    ensures out == stream + Spaces(Padding(n, padded))
  {
    hide Columns;
    out := stream;
    if padded {
      var j := n;
      while j < 16
        invariant n <= j <= 16 && Columns(j) >= Columns(n)
        invariant out == stream + Spaces(Columns(j) - Columns(n))
      {
        out := out + "   ";
        if j % 4 == 3 {
          out := out + " ";
        }
        j := j + 1;
      }
    }
  }

  method OutputBuffer(stream: string, buffer: array<Byte>, start: nat, length: nat, indent: nat) returns (out: string)
    requires start + length <= buffer.Length
    ensures out == stream + Dump(buffer[start..start + length], indent)
  {
    hide Row;
    ghost var bytes := buffer[start..start + length];
    out := stream;
    if length == 0 {
      out := out + "\n";
    }
    var row := new Byte[16];
    var i := 0;
    while i < length
      invariant i >= 0 && bytes == buffer[start..start + length]
      invariant stream + Dump(bytes, indent) == out + Rows(bytes, if i <= length then i else length, indent)
    {
      var n := if length - i < 16 then length - i else 16;
      for j := 0 to n
        invariant forall k :: 0 <= k < j ==> row[k] == buffer[start + i + k]
        invariant bytes == buffer[start..start + length]
      {
        row[j] := buffer[start + i + j];
      }
      assert forall k :: 0 <= k < n ==> row[k] == bytes[i + k];
      assert row[..n] == bytes[i..i + n];
      out := OutputRow(out, row, n, length > 16, indent);
      i := i + 16;
    }
  }
}
