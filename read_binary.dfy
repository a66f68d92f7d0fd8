/** The binary log reader: a byte stream of packed 32-byte little-endian
    log records, decoded record by record, and laid out as CSV rows under a
    fixed header with an optional `t_s` column. */
module ReadBinary {
  import opened Exceptions
  import opened LittleEndian
  import opened Decimal

  const RECORD_SIZE: nat := 32

  /** The parts of the format string `"<II" + "hhh" + "hhh" + "hhh" + "H" + "i"`:
      t_ms and seq, then lis1[3], lis2[3] and mmc_mG[3], then angle, then temp
      (deci-degrees C). */
  const FMT_II: seq<Code> := [UInt32, UInt32]
  const FMT_HHH: seq<Code> := [Int16, Int16, Int16]
  const FMT_H: seq<Code> := [UInt16]
  const FMT_I: seq<Code> := [Int32]

  const STRUCT_FMT: seq<Code> := FMT_II + FMT_HHH + FMT_HHH + FMT_HHH + FMT_H + FMT_I

  /** The sizes of the parts: "<II" is 8 bytes, "hhh" 6, "H" 2 and "i" 4. */
  lemma FormatPartSizes()
    ensures Size(FMT_II) == 8 && Size(FMT_HHH) == 6 && Size(FMT_H) == 2 && Size(FMT_I) == 4
  {
    SizeCons(UInt32, [UInt32]); SizeCons(UInt32, []); assert [UInt32] + [] == [UInt32];
    SizeCons(Int16, [Int16, Int16]); SizeCons(Int16, [Int16]); SizeCons(Int16, []); assert [Int16] + [] == [Int16];
    SizeCons(UInt16, []); assert [UInt16] + [] == FMT_H;
    SizeCons(Int32, []); assert [Int32] + [] == FMT_I;
  }

  /** The packed size of the layout is the record size, summed over the
      format string's parts. */
  lemma RecordSizeIsLayoutSize()
    ensures Size(STRUCT_FMT) == RECORD_SIZE
  {
    FormatPartSizes();
    SizeConcat(FMT_II, FMT_HHH);
    SizeConcat(FMT_II + FMT_HHH, FMT_HHH);
    SizeConcat(FMT_II + FMT_HHH + FMT_HHH, FMT_HHH);
    SizeConcat(FMT_II + FMT_HHH + FMT_HHH + FMT_HHH, FMT_H);
    SizeConcat(FMT_II + FMT_HHH + FMT_HHH + FMT_HHH + FMT_H, FMT_I);
  }

  /** A decoded record: the 13-tuple `struct.unpack` returns. */
  predicate IsRecord(r: seq<int>)
  {
    Fits(STRUCT_FMT, r)
  }

  function DecodeRecord(chunk: seq<Byte>): (r: seq<int>)
    requires |chunk| == RECORD_SIZE
    ensures IsRecord(r)
  {
    RecordSizeIsLayoutSize();
    UnpackFits(STRUCT_FMT, chunk);
    Unpack(STRUCT_FMT, chunk)
  }

  function EncodeRecord(r: seq<int>): (chunk: seq<Byte>)
    requires IsRecord(r)
    ensures |chunk| == RECORD_SIZE
  {
    RecordSizeIsLayoutSize();
    Pack(STRUCT_FMT, r)
  }

  lemma DecodeEncodeRecord(r: seq<int>)
    requires IsRecord(r)
    ensures DecodeRecord(EncodeRecord(r)) == r
  {
    RecordSizeIsLayoutSize();
    UnpackPack(STRUCT_FMT, r);
  }

  lemma EncodeDecodeRecord(chunk: seq<Byte>)
    requires |chunk| == RECORD_SIZE
    ensures EncodeRecord(DecodeRecord(chunk)) == chunk
  {
    RecordSizeIsLayoutSize();
    PackUnpack(STRUCT_FMT, chunk);
  }

  /** What the record generator produces before it stops: the complete records
      in file order, then either a clean end or the error it raised. */
  datatype Records = Records(records: seq<seq<int>>, failure: Option<Exception>)

  /** The bytes of record j. */
  function RecordBytes(data: seq<Byte>, j: nat): seq<Byte>
    requires RECORD_SIZE * j + RECORD_SIZE <= |data|
  {
    data[RECORD_SIZE * j..RECORD_SIZE * j + RECORD_SIZE]
  }

  /** `iter_records` over the file's bytes: reads 32 bytes at a time, stops at
      an empty read and raises on a short one. */
  method IterRecords(data: seq<Byte>) returns (out: Records)
    ensures |out.records| == |data| / RECORD_SIZE
    ensures forall j :: 0 <= j < |out.records| ==> out.records[j] == DecodeRecord(RecordBytes(data, j))
    ensures out.failure
         == if |data| % RECORD_SIZE == 0 then None
            else Some(PartialRecord(|data| % RECORD_SIZE, |data| / RECORD_SIZE))
  {
    var pos, idx := 0, 0;
    var records: seq<seq<int>> := [];
    while true
      invariant pos == RECORD_SIZE * idx && pos <= |data|
      invariant |records| == idx
      invariant forall j :: 0 <= j < idx ==> records[j] == DecodeRecord(RecordBytes(data, j))
      decreases |data| - pos
    {
      var chunk := data[pos..if pos + RECORD_SIZE <= |data| then pos + RECORD_SIZE else |data|];
      if |chunk| == 0 {
        return Records(records, None);
      }
      if |chunk| != RECORD_SIZE {
        return Records(records, Some(PartialRecord(|chunk|, idx)));
      }
      idx := idx + 1;
      records := records + [DecodeRecord(chunk)];
      pos := pos + RECORD_SIZE;
    }
  }

  /** The bytes a logger writes for a sequence of records. */
  function EncodeLog(rs: seq<seq<int>>): (data: seq<Byte>)
    requires forall j :: 0 <= j < |rs| ==> IsRecord(rs[j])
    ensures |data| == RECORD_SIZE * |rs|
  {
    if |rs| == 0 then [] else EncodeLog(rs[..|rs| - 1]) + EncodeRecord(rs[|rs| - 1])
  }

  /** Appending bytes does not move the records already there. */
  lemma RecordBytesAppend(prefix: seq<Byte>, last: seq<Byte>, n: nat, j: nat)
    requires |last| == RECORD_SIZE && |prefix| == RECORD_SIZE * n && j <= n
    ensures RECORD_SIZE * j + RECORD_SIZE <= |prefix + last|
    ensures RecordBytes(prefix + last, j) == if j == n then last else RecordBytes(prefix, j)
  {
  }

  /** Every record of an encoded log is decoded back from its own 32 bytes, so
      reading an encoded log returns exactly the records and no error. */
  lemma {:induction false} EncodeLogRecords(rs: seq<seq<int>>, j: nat)
    requires forall j :: 0 <= j < |rs| ==> IsRecord(rs[j])
    requires j < |rs|
    ensures RECORD_SIZE * j + RECORD_SIZE <= |EncodeLog(rs)|
    ensures DecodeRecord(RecordBytes(EncodeLog(rs), j)) == rs[j]
  {
    var n := |rs| - 1;
    var prefix, last := EncodeLog(rs[..n]), EncodeRecord(rs[n]);
    assert EncodeLog(rs) == prefix + last;
    RecordBytesAppend(prefix, last, n, j);
    if j == n {
      DecodeEncodeRecord(rs[n]);
    } else {
      EncodeLogRecords(rs[..n], j);
    }
  }

  /** The CSV header: one name per unpacked field, then the formatted temperature. */
  const HEADER: seq<string> := [
    "t_ms",
    "seq",
    "lis1_x", "lis1_y", "lis1_z",
    "lis2_x", "lis2_y", "lis2_z",
    "mmc_mG_x", "mmc_mG_y", "mmc_mG_z",
    "angle_raw",
    "temp_deciC",
    "temp_C"
  ]

  /** `list.insert(i, x)`. */
  function InsertAt<T>(s: seq<T>, i: nat, x: T): (r: seq<T>)
    requires i <= |s|
    ensures |r| == |s| + 1 && r[i] == x
    ensures forall k :: 0 <= k < i ==> r[k] == s[k]
    ensures forall k :: i < k < |r| ==> r[k] == s[k - 1]
  {
    s[..i] + [x] + s[i..]
  }

  function OutHeader(addSeconds: bool): seq<string>
  {
    if addSeconds then InsertAt(HEADER, 1, "t_s") else HEADER
  }

  /** One CSV row: `str` of the 13 fields, then temp_deciC / 10 with one
      decimal, and with `add_seconds` the t_ms / 1000 text with three decimals
      inserted after t_ms. */
  function Row(rec: seq<int>, addSeconds: bool): seq<string>
    requires |rec| == 13
  {
    var row := BaseRow(rec);
    if addSeconds then InsertAt(row, 1, FixedPoint(rec[0], 3)) else row
  }

  /** The row before the `t_s` insertion. */
  function BaseRow(rec: seq<int>): (row: seq<string>)
    requires |rec| == 13
    ensures |row| == 14
  {
    seq(13, j requires 0 <= j < 13 => IntToString(rec[j])) + [FixedPoint(rec[12], 1)]
  }

  /** The cell the column named `name` should hold for a record: an
      independent, name-based statement of the layout. */
  function CellFor(name: string, rec: seq<int>): string
    requires |rec| == 13
  {
    if name == "t_s" then FixedPoint(rec[0], 3)
    else if name == "temp_C" then FixedPoint(rec[12], 1)
    else if name in HEADER[..13] then IntToString(rec[IndexOf(HEADER, name)])
    else ""
  }

  function IndexOf(s: seq<string>, x: string): (i: nat)
    requires x in s
    ensures i < |s| && s[i] == x
    ensures forall k :: 0 <= k < i ==> s[k] != x
  {
    if s[0] == x then 0 else 1 + IndexOf(s[1..], x)
  }

  /** Header names are 14 (15 with `t_s`) and pairwise distinct. */
  lemma HeaderShape(addSeconds: bool)
    ensures |OutHeader(addSeconds)| == if addSeconds then 15 else 14
    ensures addSeconds ==> OutHeader(addSeconds)[1] == "t_s"
    ensures forall i, k :: 0 <= i < k < |OutHeader(addSeconds)| ==> OutHeader(addSeconds)[i] != OutHeader(addSeconds)[k]
  {
    HeaderDistinct();
    if addSeconds {
      TsNotInHeader();
      var h := OutHeader(true);
      forall i, k | 0 <= i < k < |h|
        ensures h[i] != h[k]
      {
        if i != 1 && k != 1 {
          assert h[i] == HEADER[if i < 1 then i else i - 1] && h[k] == HEADER[k - 1];
        } else {
          assert HEADER[if i == 1 then k - 1 else i] in HEADER;
        }
      }
    }
  }

  /** The fixed header's names are pairwise distinct. */
  lemma HeaderDistinct()
    ensures forall i, k :: 0 <= i < k < |HEADER| ==> HEADER[i] != HEADER[k]
  {
  }

  lemma TsNotInHeader()
    ensures "t_s" !in HEADER
  {
    forall k | 0 <= k < |HEADER|
      ensures HEADER[k] != "t_s"
    {
      assert |HEADER[k]| != 3 || HEADER[k] == "seq";
    }
  }

  /** Column m of the fixed header holds the cell its name calls for. */
  lemma CellForHeader(rec: seq<int>, m: nat)
    requires |rec| == 13 && m < 14
    ensures CellFor(HEADER[m], rec) == BaseRow(rec)[m]
  {
    HeaderShape(false);
    TsNotInHeader();
    assert HEADER[13] == "temp_C";
    if m < 13 {
      assert HEADER[m] != HEADER[13];
      assert HEADER[..13][m] == HEADER[m];
      var i := IndexOf(HEADER, HEADER[m]);
      assert i == m;
    }
  }

  /** Every row has the header's length, and each cell is the one its column
      name calls for. */
  lemma RowMatchesHeader(rec: seq<int>, addSeconds: bool)
    requires |rec| == 13
    ensures |Row(rec, addSeconds)| == |OutHeader(addSeconds)|
    ensures forall j :: 0 <= j < |Row(rec, addSeconds)| ==>
              Row(rec, addSeconds)[j] == CellFor(OutHeader(addSeconds)[j], rec)
  {
    var row, header := Row(rec, addSeconds), OutHeader(addSeconds);
    forall j | 0 <= j < |row|
      ensures row[j] == CellFor(header[j], rec)
    {
      if !addSeconds {
        CellForHeader(rec, j);
      } else if j == 0 {
        CellForHeader(rec, 0);
      } else if j > 1 {
        CellForHeader(rec, j - 1);
      }
    }
  }

  /** Reads a CSV row back into the record it was written from. */
  function ParseRow(row: seq<string>, addSeconds: bool): Option<seq<int>>
  {
    var cells := if addSeconds && |row| > 1 then row[..1] + row[2..] else row;
    if |cells| != 14 then None
    else if forall j :: 0 <= j < 13 ==> ParseInt(cells[j]).Some? then
      Some(seq(13, j requires 0 <= j < 13 => ParseInt(cells[j]).value))
    else None
  }

  /** A row loses nothing: parsing it gives back the record, and its t_s and
      temp_C cells read back as t_ms / 1000 and temp_deciC / 10. */
  lemma RowRoundTrip(rec: seq<int>, addSeconds: bool)
    requires |rec| == 13
    ensures ParseRow(Row(rec, addSeconds), addSeconds) == Some(rec)
    ensures ParseFixed(Row(rec, addSeconds)[|Row(rec, addSeconds)| - 1], 1) == Some(rec[12])
    ensures addSeconds ==> ParseFixed(Row(rec, addSeconds)[1], 3) == Some(rec[0])
  {
    var row := Row(rec, addSeconds);
    var cells := if addSeconds then row[..1] + row[2..] else row;
    forall j | 0 <= j < 13
      ensures ParseInt(cells[j]) == Some(rec[j])
    {
      IntToStringRoundTrip(rec[j]);
    }
    assert seq(13, j requires 0 <= j < 13 => ParseInt(cells[j]).value) == rec;
    FixedPointRoundTrip(rec[12], 1);
    FixedPointRoundTrip(rec[0], 3);
  }

  /** `convert`: writes the header row, then one row per complete record in
      file order; a trailing partial record ends the output with the
      generator's error after the rows already written. */
  method Convert(data: seq<Byte>, addSeconds: bool) returns (written: seq<seq<string>>, failure: Option<Exception>)
    ensures |written| == 1 + |data| / RECORD_SIZE
    ensures written[0] == OutHeader(addSeconds)
    ensures forall j :: 0 <= j < |data| / RECORD_SIZE ==>
              written[j + 1] == Row(DecodeRecord(RecordBytes(data, j)), addSeconds)
    ensures failure
         == if |data| % RECORD_SIZE == 0 then None
            else Some(PartialRecord(|data| % RECORD_SIZE, |data| / RECORD_SIZE))
  {
    var outHeader := HEADER;
    if addSeconds {
      outHeader := InsertAt(outHeader, 1, "t_s");
    }
    var stream := IterRecords(data);
    var rows := WriteRows(stream.records, (rec: seq<int>) requires |rec| == 13 => Row(rec, addSeconds));
    // The header row is written before the first record row.
    written := [outHeader] + rows;
    failure := stream.failure;
  }

  /** The `writer.writerow` loop: one row per record, in record order. */
  method WriteRows<R>(records: seq<R>, row: R --> seq<string>) returns (rows: seq<seq<string>>)
    requires forall j :: 0 <= j < |records| ==> row.requires(records[j])
    ensures |rows| == |records|
    ensures forall j :: 0 <= j < |records| ==> rows[j] == row(records[j])
  {
    rows := [];
    for k := 0 to |records|
      invariant |rows| == k
      invariant forall j :: 0 <= j < k ==> rows[j] == row(records[j])
    {
      rows := rows + [row(records[k])];
    }
  }
}
