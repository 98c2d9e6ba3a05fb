/** The register-file trace converter: each Logisim table line of the register
    file test harness becomes a sixteen-column row in hexadecimal. */
module RegfileTrace {
  import opened Strings
  import opened BinaryToHex

  const HEADER := "Op#\trd\trs1\trs2\tRegWEn\tWriteData\tra (x1)\t\tsp (x2)\t\tt0 (x5)\t\tt1 (x6)\t\tt2 (x7)\t\ts0 (x8)\t\ts1 (x9)\t\ta0 (x10)\tReadData1\tReadData2"

  /** The token range of each printed column: op, rd, rs1, rs2, RegWEn,
      WriteData, then ra, sp, t0, t1, t2, s0, s1, a0, ReadData1 and ReadData2. */
  const RANGES: seq<(nat, nat)> := [
    (0, 2), (86, 88), (82, 84), (84, 86), (88, 89), (89, 97),
    (2, 10), (10, 18), (18, 26), (26, 34), (34, 42), (42, 50), (50, 58), (58, 66), (66, 74), (74, 82)]

  /** The row of one line: each column joins the hex digits of its token range. */
  function RegfileRow(line: string): (row: seq<string>)
    ensures |row| == 16
    ensures forall i :: 0 <= i < 16 ==> row[i] == Field(HexTokens(line), RANGES[i].0, RANGES[i].1)
  {
    Fields(HexTokens(line), RANGES)
  }

  /** A printed row splits on tabs into exactly its sixteen fields. */
  lemma RegfileRowSplits(line: string)
    ensures SplitOn(Join(RegfileRow(line), "\t"), '\t') == RegfileRow(line)
    ensures |SplitOn(Join(RegfileRow(line), "\t"), '\t')| == 16
  {
    FieldsHaveNoTabs(SplitWhitespace(line), RANGES);
    RowRoundTrip(RegfileRow(line));
  }

  /** The columns cover the first 97 tokens once each: taken in token order
      (op, the ten registers and read ports, rs1, rs2, rd, RegWEn, WriteData)
      they join into the field of tokens 0 to 97. */
  lemma RegfileRowTiles(line: string)
    requires |SplitWhitespace(line)| >= 97
    ensures var r, h := RegfileRow(line), HexTokens(line);
      r[0] + r[6] + r[7] + r[8] + r[9] + r[10] + r[11] + r[12] + r[13] + r[14] + r[15]
        + r[2] + r[3] + r[1] + r[4] + r[5] == Field(h, 0, 97)
  {
    RangesTile(HexTokens(line));
  }

  /** The ranges, in token order, are adjacent from token 0 to token 97. */
  lemma RangesTile(h: seq<string>)
    requires |h| >= 97
    ensures var r := Fields(h, RANGES);
      r[0] + r[6] + r[7] + r[8] + r[9] + r[10] + r[11] + r[12] + r[13] + r[14] + r[15]
        + r[2] + r[3] + r[1] + r[4] + r[5] == Field(h, 0, 97)
  {
    var r := Fields(h, RANGES);
    var acc := r[0];
    FieldsAdjoin(h, 0, 2, 10);
    acc := acc + r[6];
    assert acc == Field(h, 0, 10);
    FieldsAdjoin(h, 0, 10, 18);
    acc := acc + r[7];
    assert acc == Field(h, 0, 18);
    FieldsAdjoin(h, 0, 18, 26);
    acc := acc + r[8];
    assert acc == Field(h, 0, 26);
    FieldsAdjoin(h, 0, 26, 34);
    acc := acc + r[9];
    assert acc == Field(h, 0, 34);
    FieldsAdjoin(h, 0, 34, 42);
    acc := acc + r[10];
    assert acc == Field(h, 0, 42);
    FieldsAdjoin(h, 0, 42, 50);
    acc := acc + r[11];
    assert acc == Field(h, 0, 50);
    FieldsAdjoin(h, 0, 50, 58);
    acc := acc + r[12];
    assert acc == Field(h, 0, 58);
    FieldsAdjoin(h, 0, 58, 66);
    acc := acc + r[13];
    assert acc == Field(h, 0, 66);
    FieldsAdjoin(h, 0, 66, 74);
    acc := acc + r[14];
    assert acc == Field(h, 0, 74);
    FieldsAdjoin(h, 0, 74, 82);
    acc := acc + r[15];
    assert acc == Field(h, 0, 82);
    FieldsAdjoin(h, 0, 82, 84);
    acc := acc + r[2];
    assert acc == Field(h, 0, 84);
    FieldsAdjoin(h, 0, 84, 86);
    acc := acc + r[3];
    assert acc == Field(h, 0, 86);
    FieldsAdjoin(h, 0, 86, 88);
    acc := acc + r[1];
    assert acc == Field(h, 0, 88);
    FieldsAdjoin(h, 0, 88, 89);
    acc := acc + r[4];
    assert acc == Field(h, 0, 89);
    FieldsAdjoin(h, 0, 89, 97);
    acc := acc + r[5];
    assert acc == Field(h, 0, 97);
  }

  /** Tokens after the 97th do not change the row. */
  lemma RegfileRowIgnoresRest(l1: string, l2: string)
    requires PySlice(HexTokens(l1), 0, 97) == PySlice(HexTokens(l2), 0, 97)
    ensures RegfileRow(l1) == RegfileRow(l2)
  {
    FieldsIgnoreRest(HexTokens(l1), HexTokens(l2), RANGES, 97);
  }

  /** The script's output lines for the lines of the table file. */
  method ConvertTrace(lines: seq<string>) returns (printed: seq<string>)
    ensures |printed| == |lines| + 1 && printed[0] == HEADER
    ensures forall i :: 0 <= i < |lines| ==> SplitOn(printed[i + 1], '\t') == RegfileRow(lines[i])
  {
    printed := Convert(lines, HEADER, RegfileRow);
    forall i | 0 <= i < |lines|
      ensures SplitOn(printed[i + 1], '\t') == RegfileRow(lines[i])
    {
      RegfileRowSplits(lines[i]);
    }
  }
}
