/** The ALU trace converter: each Logisim table line of the ALU test harness
    becomes the row `Op#, ALUSel, InputA, InputB, ALU_Output` in hexadecimal. */
module AluTrace {
  import opened Strings
  import opened BinaryToHex

  const HEADER := "Op#\tALUSel\tInputA\t\tInputB\t\tALU_Output"

  /** The token range of each printed column: the operation number, the
      selector, the two inputs and the output. */
  const RANGES: seq<(nat, nat)> := [(0, 2), (10, 11), (11, 19), (19, 27), (2, 10)]

  /** The row of one line: each column joins the hex digits of its token range. */
  function AluRow(line: string): (row: seq<string>)
    ensures |row| == 5
    ensures forall i :: 0 <= i < 5 ==> row[i] == Field(HexTokens(line), RANGES[i].0, RANGES[i].1)
  {
    Fields(HexTokens(line), RANGES)
  }

  /** A printed row splits on tabs into exactly its five fields. */
  lemma AluRowSplits(line: string)
    ensures SplitOn(Join(AluRow(line), "\t"), '\t') == AluRow(line)
    ensures |SplitOn(Join(AluRow(line), "\t"), '\t')| == 5
  {
    FieldsHaveNoTabs(SplitWhitespace(line), RANGES);
    RowRoundTrip(AluRow(line));
  }

  /** The fields cover the first 27 tokens once each: the operation number, the
      output, the selector and the two inputs, in token order. */
  lemma AluRowTiles(line: string)
    requires |SplitWhitespace(line)| >= 27
    ensures var row, h := AluRow(line), HexTokens(line);
      row[0] + row[4] + row[1] + row[2] + row[3] == Field(h, 0, 27)
  {
    var h := HexTokens(line);
    FieldsAdjoin(h, 0, 2, 10);
    FieldsAdjoin(h, 0, 10, 11);
    FieldsAdjoin(h, 0, 11, 19);
    FieldsAdjoin(h, 0, 19, 27);
  }

  /** Tokens after the 27th do not change the row. */
  lemma AluRowIgnoresRest(l1: string, l2: string)
    requires PySlice(HexTokens(l1), 0, 27) == PySlice(HexTokens(l2), 0, 27)
    ensures AluRow(l1) == AluRow(l2)
  {
    FieldsIgnoreRest(HexTokens(l1), HexTokens(l2), RANGES, 27);
  }

  /** The script's output lines for the lines of the table file. */
  method ConvertTrace(lines: seq<string>) returns (printed: seq<string>)
    ensures |printed| == |lines| + 1 && printed[0] == HEADER
    ensures forall i :: 0 <= i < |lines| ==> SplitOn(printed[i + 1], '\t') == AluRow(lines[i])
  {
    printed := Convert(lines, HEADER, AluRow);
    forall i | 0 <= i < |lines|
      ensures SplitOn(printed[i + 1], '\t') == AluRow(lines[i])
    {
      AluRowSplits(lines[i]);
    }
  }
}
