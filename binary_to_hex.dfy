/** The token converter shared by the ALU and register-file trace scripts: each
    white-space separated token of a Logisim table row is read as a binary
    number and shown in hexadecimal, or as `x` when it does not parse. */
module BinaryToHex {
  import opened Strings
  import opened Numerals

  /** The digits part of `int(s, 2)`: bits, with single underscores between them. */
  predicate ValidDigits(d: string) {
    && |d| >= 1 && IsBit(d[0]) && IsBit(d[|d| - 1])
    && (forall i :: 0 <= i < |d| ==> IsBit(d[i]) || d[i] == '_')
    && (forall i :: 0 <= i < |d| - 1 ==> !(d[i] == '_' && d[i + 1] == '_'))
  }

  function RemoveUnderscores(d: string): (r: string)
    ensures |r| <= |d|
    ensures (forall i :: 0 <= i < |d| ==> IsBit(d[i]) || d[i] == '_') ==> forall i :: 0 <= i < |r| ==> IsBit(r[i])
    ensures '_' !in d ==> r == d
  {
    if d == [] then [] else (if d[0] == '_' then [] else [d[0]]) + RemoveUnderscores(d[1..])
  }

  /** Python's `int(s, 2)` on a token without white space: an optional sign, an
      optional `0b`/`0B` prefix (which may be followed by one underscore), then
      the digits. */
  function ParseBinary(s: string): (r: Option<int>)
    ensures r.Some? ==> |s| >= 1 && IsBit(s[|s| - 1])
    ensures r.Some? && r.value < 0 ==> s[0] == '-'
  {
    var u := Unsigned(s);
    var digits := BinaryDigits(u);
    if ValidDigits(digits) then
      assert digits[|digits| - 1] == u[|u| - 1];
      assert u[|u| - 1] == s[|s| - 1];
      var v: int := BinValue(RemoveUnderscores(digits));
      Some(if |s| > 0 && s[0] == '-' then -v else v)
    else None
  }

  /** The token without its sign. */
  function Unsigned(s: string): (u: string)
    ensures |s| > 0 && (s[0] == '-' || s[0] == '+') ==> u == s[1..]
    ensures !(|s| > 0 && (s[0] == '-' || s[0] == '+')) ==> u == s
  {
    if |s| > 0 && (s[0] == '-' || s[0] == '+') then s[1..] else s
  }

  /** The digits after an optional `0b`/`0B` prefix and the one underscore it allows. */
  function BinaryDigits(u: string): (d: string)
    ensures !(|u| >= 2 && u[0] == '0' && (u[1] == 'b' || u[1] == 'B')) ==> d == u
  {
    if !(|u| >= 2 && u[0] == '0' && (u[1] == 'b' || u[1] == 'B')) then u
    else if |u| >= 3 && u[2] == '_' then u[3..]
    else u[2..]
  }

  predicate IsBits(s: string) {
    forall i :: 0 <= i < |s| ==> IsBit(s[i])
  }

  /** A plain run of bits parses to its binary value. */
  lemma ParseBits(s: string)
    requires |s| >= 1 && IsBits(s)
    ensures ParseBinary(s) == Some(BinValue(s))
  {
    assert Unsigned(s) == s && BinaryDigits(s) == s by {
      assert IsBit(s[0]);
      if |s| >= 2 {
        assert IsBit(s[1]);
      }
    }
    assert '_' !in s by {
      forall i | 0 <= i < |s| ensures s[i] != '_' {
        assert IsBit(s[i]);
      }
    }
  }

  /** `int` accepts a `0b` prefix. */
  lemma ParsePrefixedExample()
    ensures ParseBinary("0b101") == Some(5)
  {
    assert Unsigned("0b101") == "0b101";
    assert BinaryDigits("0b101") == "101" by {
      assert "0b101"[2..] == "101";
    }
    assert ValidDigits("101");
    assert '_' !in "101";
    assert BinValue("1") == 1 by {
      assert "1"[..0] == "";
    }
    assert BinValue("10") == 2 by {
      assert "10"[..1] == "1";
    }
    assert BinValue("101") == 5 by {
      assert "101"[..2] == "10";
    }
  }

  /** `int` accepts a sign before the prefix. */
  lemma ParseSignedExample()
    ensures ParseBinary("-0b10") == Some(-2)
  {
    assert BinaryDigits(Unsigned("-0b10")) == "10" by {
      assert "-0b10"[1..] == "0b10";
      assert "0b10"[2..] == "10";
    }
    assert RemoveUnderscores("10") == "10";
    assert BinValue("10") == 2 by {
      assert "10"[..1] == "1";
    }
  }

  /** `int` accepts one underscore between digits. */
  lemma ParseUnderscoreExample()
    ensures ParseBinary("1_1") == Some(3)
  {
    assert BinaryDigits(Unsigned("1_1")) == "1_1";
    assert RemoveUnderscores("1_1") == "11" by {
      assert "1_1"[1..] == "_1";
      assert "_1"[1..] == "1";
    }
    assert BinValue("11") == 3 by {
      assert "11"[..1] == "1";
    }
  }

  /** A bare prefix, a doubled underscore and a non-bit are rejected. */
  lemma ParseRejectExamples()
    ensures ParseBinary("0b") == None
    ensures ParseBinary("1__0") == None
    ensures ParseBinary("2") == None
  {
    assert BinaryDigits(Unsigned("0b")) == "";
    assert BinaryDigits(Unsigned("1__0")) == "1__0";
    assert !ValidDigits("1__0") by {
      assert "1__0"[1] == '_' && "1__0"[2] == '_';
    }
    assert BinaryDigits(Unsigned("2")) == "2";
  }

  /** `mapper`: `hex(int(s, 2))[2:]`, or `x` when `int` raises. */
  function Mapper(s: string): (r: string)
    ensures r != [] && '\t' !in r
    ensures r == "x" <==> ParseBinary(s).None?
  {
    match ParseBinary(s)
    case None => "x"
    case Some(v) => HexText(v)
  }

  /** `hex(v)[2:]`: the hex digits, and for a negative value the `x` left over
      from `-0x` before them. */
  function HexText(v: int): (r: string)
    ensures r != [] && '\t' !in r && r != "x"
    ensures v >= 0 ==> r == HexDigits(v)
    ensures v < 0 ==> r == "x" + HexDigits(-v)
  {
    PyHexTail(v);
    if v < 0 then
      HexDigitsNoTab(-v);
      PyHex(v)[2..]
    else
      HexDigitsNoTab(v);
      assert HexDigits(v)[0] in HEX_DIGITS;
      PyHex(v)[2..]
  }

  /** What is left of `hex(v)` once its first two characters are cut. */
  lemma PyHexTail(v: int)
    ensures v >= 0 ==> PyHex(v)[2..] == HexDigits(v)
    ensures v < 0 ==> PyHex(v)[2..] == "x" + HexDigits(-v)
  {
    if v < 0 {
      assert PyHex(v) == "-0" + ("x" + HexDigits(-v));
    } else {
      assert PyHex(v) == "0x" + HexDigits(v);
    }
  }

  lemma HexDigitsNoTab(n: nat)
    ensures '\t' !in HexDigits(n)
  {
    var d := HexDigits(n);
    forall i | 0 <= i < |d|
      ensures d[i] != '\t'
    {
      assert d[i] in HEX_DIGITS;
    }
  }

  /** A run of bits shows as the hexadecimal digits of its value, and reading
      those digits back gives the value. */
  lemma MapperOfBits(s: string)
    requires |s| >= 1 && IsBits(s)
    ensures Mapper(s) == HexDigits(BinValue(s))
    ensures HexValue(Mapper(s)) == BinValue(s)
  {
    ParseBits(s);
    HexRoundTrip(BinValue(s));
  }

  /** A four-bit token shows as exactly one hexadecimal digit. */
  lemma NibbleIsOneDigit(s: string)
    requires |s| == 4 && IsBits(s)
    ensures |Mapper(s)| == 1 && Mapper(s)[0] in HEX_DIGITS
  {
    MapperOfBits(s);
    BinValueBound(s);
    assert Pow2(4) == 16;
  }

  /** `list(map(mapper, l.split()))`. */
  function HexTokens(line: string): (h: seq<string>)
    ensures |h| == |SplitWhitespace(line)|
    ensures forall i :: 0 <= i < |h| ==> h[i] == Mapper(SplitWhitespace(line)[i])
  {
    MapAll(SplitWhitespace(line))
  }

  function MapAll(ts: seq<string>): (h: seq<string>)
    ensures |h| == |ts|
    ensures forall i :: 0 <= i < |ts| ==> h[i] == Mapper(ts[i])
  {
    seq(|ts|, i requires 0 <= i < |ts| => Mapper(ts[i]))
  }

  /** `''.join(hexes[lo:hi])`. */
  function Field(h: seq<string>, lo: nat, hi: nat): string {
    Concat(PySlice(h, lo, hi))
  }

  lemma {:induction false} ConcatNoTab(xs: seq<string>)
    requires forall i :: 0 <= i < |xs| ==> '\t' !in xs[i]
    ensures '\t' !in Concat(xs)
  {
    if xs != [] {
      ConcatNoTab(xs[1..]);
    }
  }

  /** No field of mapped tokens holds a tab. */
  lemma FieldsNoTab(ts: seq<string>)
    ensures forall lo: nat, hi: nat :: '\t' !in Field(MapAll(ts), lo, hi)
  {
    forall lo: nat, hi: nat
      ensures '\t' !in Field(MapAll(ts), lo, hi)
    {
      ConcatNoTab(PySlice(MapAll(ts), lo, hi));
    }
  }

  /** The fields of `h` over each range in `ranges`, `(lo, hi)` standing for `h[lo:hi]`. */
  function Fields(h: seq<string>, ranges: seq<(nat, nat)>): (row: seq<string>)
    ensures |row| == |ranges|
    ensures forall i :: 0 <= i < |ranges| ==> row[i] == Field(h, ranges[i].0, ranges[i].1)
  {
    seq(|ranges|, i requires 0 <= i < |ranges| => Field(h, ranges[i].0, ranges[i].1))
  }

  /** A row of fields of mapped tokens holds no tab, so tabs can separate them. */
  lemma FieldsHaveNoTabs(ts: seq<string>, ranges: seq<(nat, nat)>)
    ensures forall i :: 0 <= i < |ranges| ==> '\t' !in Fields(MapAll(ts), ranges)[i]
  {
    FieldsNoTab(ts);
  }

  /** Fields whose ranges end by token `n` depend only on the first `n` tokens. */
  lemma FieldsIgnoreRest(h1: seq<string>, h2: seq<string>, ranges: seq<(nat, nat)>, n: nat)
    requires forall i :: 0 <= i < |ranges| ==> ranges[i].1 <= n
    requires PySlice(h1, 0, n) == PySlice(h2, 0, n)
    ensures Fields(h1, ranges) == Fields(h2, ranges)
  {
    forall i | 0 <= i < |ranges|
      ensures Fields(h1, ranges)[i] == Fields(h2, ranges)[i]
    {
      FieldOfPrefix(h1, ranges[i].0, ranges[i].1, n);
      FieldOfPrefix(h2, ranges[i].0, ranges[i].1, n);
    }
  }

  lemma {:induction false} ConcatAppend(a: seq<string>, b: seq<string>)
    ensures Concat(a + b) == Concat(a) + Concat(b)
  {
    if a == [] {
      assert a + b == b;
    } else {
      assert (a + b)[1..] == a[1..] + b;
      ConcatAppend(a[1..], b);
    }
  }

  /** Adjacent fields concatenate to the field over their union. */
  lemma FieldsAdjoin(h: seq<string>, i: nat, j: nat, k: nat)
    requires i <= j <= k <= |h|
    ensures Field(h, i, j) + Field(h, j, k) == Field(h, i, k)
  {
    assert h[i..k] == h[i..j] + h[j..k];
    ConcatAppend(h[i..j], h[j..k]);
  }

  /** A field only looks at the tokens below its upper bound. */
  lemma FieldOfPrefix(h: seq<string>, lo: nat, hi: nat, n: nat)
    requires hi <= n
    ensures Field(h, lo, hi) == Field(PySlice(h, 0, n), lo, hi)
  {
    assert PySlice(PySlice(h, 0, n), lo, hi) == PySlice(h, lo, hi);
  }

  /** Printing the rows: the tab-joined row splits back into its fields. */
  lemma RowRoundTrip(row: seq<string>)
    requires |row| >= 1 && forall i :: 0 <= i < |row| ==> '\t' !in row[i]
    ensures SplitOn(Join(row, "\t"), '\t') == row
  {
    SplitJoin(row, '\t');
  }

  /** Both scripts' `main` after reading the file: one row per input line, then
      the header and each row printed tab-joined, in order. */
  method Convert(lines: seq<string>, header: string, rowOf: string -> seq<string>) returns (printed: seq<string>)
    ensures |printed| == |lines| + 1 && printed[0] == header
    ensures forall i :: 0 <= i < |lines| ==> printed[i + 1] == Join(rowOf(lines[i]), "\t")
  {
    var results: seq<seq<string>> := [];
    for i := 0 to |lines|
      invariant |results| == i
      invariant forall k :: 0 <= k < i ==> results[k] == rowOf(lines[k])
    {
      results := results + [rowOf(lines[i])];
    }
    printed := [header];
    for i := 0 to |results|
      invariant |printed| == i + 1 && printed[0] == header
      invariant forall k :: 0 <= k < i ==> printed[k + 1] == Join(results[k], "\t")
    {
      printed := printed + [Join(results[i], "\t")];
    }
  }
}
