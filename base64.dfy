/**
 * Base64 encoding and decoding of byte vectors (mrpt::system::encodeBase64 and
 * decodeBase64). The encoder emits four alphabet characters per three input
 * bytes, breaks lines after every 72 characters, pads a final partial group
 * with '=' and ends a non-empty last line with a newline. The decoder skips
 * every character outside its table, stops at the first '=', and reports an
 * incomplete final group as an error.
 *
 * Characters are taken one byte each, as the source's `unsigned char` is.
 */
module Base64 {

  type byte = x: int | 0 <= x < 256

  /**
   * The 64 symbols of the alphabet, in table order: 'A'..'Z', 'a'..'z',
   * '0'..'9', '+', '/'.
   */
  function SextetChar(n: nat): (c: char)
    requires n < 64
  {
    if n < 26 then (('A' as int) + n) as char
    else if n < 52 then (('a' as int) + (n - 26)) as char
    else if n < 62 then (('0' as int) + (n - 52)) as char
    else if n == 62 then '+'
    else '/'
  }

  /**
   * The decoder's table: the symbol's value, or nothing for a character the
   * decoder skips. The source's alphabet string carries a 65th entry, its
   * terminating NUL, and the loop that builds the table admits it too, so
   * NUL decodes to 64.
   */
  function Decoded(c: char): (r: seq<nat>)
    ensures |r| <= 1
  {
    if 'A' <= c <= 'Z' then [(c as int) - ('A' as int)]
    else if 'a' <= c <= 'z' then [(c as int) - ('a' as int) + 26]
    else if '0' <= c <= '9' then [(c as int) - ('0' as int) + 52]
    else if c == '+' then [62]
    else if c == '/' then [63]
    else if c == '\0' then [64]
    else []
  }

  /** The decoder's table inverts the alphabet, and no alphabet character is '=' or a newline. */
  lemma DecodedSextetChar(n: nat)
    requires n < 64
    ensures Decoded(SextetChar(n)) == [n]
    ensures SextetChar(n) != '=' && SextetChar(n) != '\n'
  {
  }

  // ---------------------------------------------------------------------
  // Encoding
  // ---------------------------------------------------------------------

  /** The 24-bit group of three bytes. */
  function Group3(b0: byte, b1: byte, b2: byte): (bits: nat)
    ensures bits < 0x100_0000
  {
    (b0 as int) * 0x1_0000 + (b1 as int) * 0x100 + b2
  }

  /**
   * The sextets of a 24-bit group, most significant first: the encoder's
   * shifts by 18, 12, 6 and 0 bits, each masked to six bits.
   */
  function Sextet0(bits: nat): (r: nat)
    requires bits < 0x100_0000
    ensures r < 64
  {
    bits / 0x4_0000
  }

  function Sextet1(bits: nat): (r: nat)
    ensures r < 64
  {
    (bits / 0x1000) % 64
  }

  function Sextet2(bits: nat): (r: nat)
    ensures r < 64
  {
    (bits / 64) % 64
  }

  function Sextet3(bits: nat): (r: nat)
    ensures r < 64
  {
    bits % 64
  }

  /** The four characters of a 24-bit group, as the encoder pushes them. */
  function QuadChars(bits: nat): (r: string)
    requires bits < 0x100_0000
  {
    [SextetChar(Sextet0(bits)), SextetChar(Sextet1(bits)), SextetChar(Sextet2(bits)), SextetChar(Sextet3(bits))]
  }

  /** The padded last group of one or two bytes: two or three characters, then '=' up to four. */
  function PadChars(bits: nat, count: nat): (r: string)
    requires bits < 0x100_0000 && 1 <= count <= 2
  {
    if count == 1 then [SextetChar(Sextet0(bits)), SextetChar(Sextet1(bits)), '=', '=']
    else [SextetChar(Sextet0(bits)), SextetChar(Sextet1(bits)), SextetChar(Sextet2(bits)), '=']
  }

  /** The 24-bit value of the `j`-th (from zero) full group of `d`. */
  function GroupBits(d: seq<byte>, j: nat): (bits: nat)
    requires 3 * j + 3 <= |d|
    ensures bits < 0x100_0000
  {
    Group3(d[3 * j], d[3 * j + 1], d[3 * j + 2])
  }

  /** The line break the encoder writes after its `j`-th group: one after every 18th, where a line reaches 72 characters. */
  function LineBreak(j: nat): (r: string)
  {
    if j % 18 == 0 then "\n" else ""
  }

  /** The text the encoder emits for the first `j` full groups of `d`. */
  function EncodeGroups(d: seq<byte>, j: nat): (r: string)
    requires 3 * j <= |d|
  {
    if j == 0 then ""
    else EncodeGroups(d, j - 1) + QuadChars(GroupBits(d, j - 1)) + LineBreak(j)
  }

  /** The 24-bit value of the last one or two bytes of `d`, shifted up as the encoder does. */
  function TailBits(d: seq<byte>): (bits: nat)
    requires |d| % 3 != 0
    ensures bits < 0x100_0000
  {
    var k := |d| / 3 * 3;
    if |d| % 3 == 1 then Group3(d[k], 0, 0) else Group3(d[k], d[k + 1], 0)
  }

  /** The padded final group, and a newline when its line holds full groups too. */
  function EncodeTail(d: seq<byte>): (r: string)
  {
    if |d| % 3 == 0 then ""
    else PadChars(TailBits(d), |d| % 3) + (if (|d| / 3) % 18 != 0 then "\n" else "")
  }

  function Encode(d: seq<byte>): string
  {
    EncodeGroups(d, |d| / 3) + EncodeTail(d)
  }

  /** The value the encoder's `bits` holds after taking the `count` bytes of `d` before index `i`. */
  function Pending(d: seq<byte>, i: nat, count: nat): nat
    requires count <= i <= |d| && count < 3
  {
    if count == 0 then 0
    else if count == 1 then (d[i - 1] as int) * 0x100
    else ((d[i - 2] as int) * 0x100 + d[i - 1]) * 0x100
  }

  /** One byte taken into the encoder's accumulator `bits`, `j` groups being complete. */
  lemma PendingStep(d: seq<byte>, i: nat, count: nat, j: nat, bits: nat)
    requires i == 3 * j + count && i < |d| && count < 3 && bits == Pending(d, i, count)
    ensures count + 1 == 3 ==> bits + d[i] == GroupBits(d, j) && Pending(d, i + 1, 0) == 0
    ensures count + 1 < 3 ==> (bits + d[i]) * 0x100 == Pending(d, i + 1, count + 1)
  {
  }

  /** The accumulator at the end of the input, shifted as the encoder does, is the padded group. */
  lemma PendingTail(d: seq<byte>, count: nat)
    requires count == |d| % 3 && count != 0
    ensures Pending(d, |d|, count) * (if count == 1 then 0x100 else 1) == TailBits(d)
  {
    var k := |d| / 3 * 3;
    assert |d| == k + count;
  }

  /** The column counter after `j` groups. */
  lemma ColumnStep(j: nat, cols: nat)
    requires cols == 4 * (j % 18)
    ensures cols + 4 == 72 <==> (j + 1) % 18 == 0
    ensures 4 * ((j + 1) % 18) == if cols + 4 == 72 then 0 else cols + 4
  {
  }

  /** One more group of output, with the line break spelled out as the encoder pushes it. */
  lemma EncodeGroupsSnoc(d: seq<byte>, j: nat)
    requires 3 * j + 3 <= |d|
    ensures var quad := EncodeGroups(d, j) + QuadChars(GroupBits(d, j));
      EncodeGroups(d, j + 1) == if (j + 1) % 18 == 0 then quad + "\n" else quad
  {
    var quad := EncodeGroups(d, j) + QuadChars(GroupBits(d, j));
    assert quad + "" == quad;
  }

  /** The encoder's whole output, with the optional pieces spelled out. */
  lemma EncodeShape(d: seq<byte>)
    ensures var j, groups := |d| / 3, EncodeGroups(d, |d| / 3);
      Encode(d) ==
        if |d| % 3 == 0 then groups
        else if j % 18 != 0 then groups + PadChars(TailBits(d), |d| % 3) + "\n"
        else groups + PadChars(TailBits(d), |d| % 3)
  {
    var groups := EncodeGroups(d, |d| / 3);
    assert groups + "" == groups;
    if |d| % 3 != 0 {
      var pad := PadChars(TailBits(d), |d| % 3);
      assert pad + "" == pad;
      assert groups + (pad + "\n") == groups + pad + "\n";
    }
  }

  /** The encoder's output and column counter after it emits group `j`. */
  lemma EmitGroup(d: seq<byte>, j: nat, out: string, bits: nat, cols: nat)
    requires 3 * j + 3 <= |d| && out == EncodeGroups(d, j) && bits == GroupBits(d, j)
    requires cols == 4 * (j % 18)
    ensures cols + 4 == 72 ==> out + QuadChars(bits) + "\n" == EncodeGroups(d, j + 1) && 4 * ((j + 1) % 18) == 0
    ensures cols + 4 != 72 ==> out + QuadChars(bits) == EncodeGroups(d, j + 1) && 4 * ((j + 1) % 18) == cols + 4
  {
    ColumnStep(j, cols);
    EncodeGroupsSnoc(d, j);
  }

  /** The encoder's output after its final padded group, if any. */
  lemma EmitTail(d: seq<byte>, out: string, bits: nat, cols: nat, count: nat)
    requires count == |d| % 3 && out == EncodeGroups(d, |d| / 3) && cols == 4 * ((|d| / 3) % 18)
    requires count < 3 && bits == Pending(d, |d|, count)
    ensures count == 0 ==> out == Encode(d)
    ensures count != 0 ==>
      var b := bits * (if count == 1 then 0x100 else 1);
      b < 0x100_0000
      && (cols > 0 ==> out + PadChars(b, count) + "\n" == Encode(d))
      && (cols == 0 ==> out + PadChars(b, count) == Encode(d))
  {
    EncodeShape(d);
    if count != 0 {
      PendingTail(d, count);
    }
  }

  method EncodeBase64(data: seq<byte>) returns (out: string)
    ensures out == Encode(data)
  {
    out := "";
    var charCount := 0;
    var bits: nat := 0;
    var cols := 0;
    ghost var groups := 0;
    var i := 0;
    while i < |data|
      invariant 0 <= charCount < 3 && i == 3 * groups + charCount <= |data|
      invariant bits == Pending(data, i, charCount)
      invariant cols == 4 * (groups % 18)
      invariant out == EncodeGroups(data, groups)
    {
      var c := data[i];
      PendingStep(data, i, charCount, groups, bits);
      bits := bits + c;
      charCount := charCount + 1;
      if charCount == 3 {
        EmitGroup(data, groups, out, bits, cols);
        out := out + QuadChars(bits);
        cols := cols + 4;
        if cols == 72 {
          out := out + "\n";
          cols := 0;
        }
        groups := groups + 1;
        bits := 0;
        charCount := 0;
      } else {
        bits := bits * 0x100;
      }
      i := i + 1;
    }
    assert groups == |data| / 3 && charCount == |data| % 3;
    EmitTail(data, out, bits, cols, charCount);
    if charCount != 0 {
      bits := bits * (if charCount == 1 then 0x100 else 1);
      out := out + PadChars(bits, charCount);
      if cols > 0 {
        out := out + "\n";
      }
    }
  }

  // ---------------------------------------------------------------------
  // Decoding
  // ---------------------------------------------------------------------

  /** The three bytes of a 24-bit value, most significant first, each truncated to eight bits as `push_back` into a byte vector does. */
  function Unpack(v: nat): (r: seq<byte>)
    ensures |r| == 3
  {
    [(v / 0x1_0000) % 256, (v / 0x100) % 256, v % 256]
  }

  /** The decoder's variables: the bytes so far, the accumulator, the symbols in the open group, and whether a '=' was met. */
  datatype Decoder = Decoder(out: seq<byte>, bits: nat, count: nat, padded: bool)

  const Start := Decoder([], 0, 0, false)

  /** One character taken by the decoder's loop. */
  function Step(st: Decoder, c: char): (r: Decoder)
  {
    if st.padded then st
    else if c == '=' then st.(padded := true)
    else if Decoded(c) == [] then st
    else
      var bits := st.bits + Decoded(c)[0];
      if st.count + 1 == 4 then Decoder(st.out + Unpack(bits), 0, 0, false)
      else Decoder(st.out, bits * 64, st.count + 1, false)
  }

  /** The decoder's state after the characters of `s`, starting from `st`. */
  function Run(st: Decoder, s: string): (r: Decoder)
  {
    if s == [] then st else Step(Run(st, s[..|s| - 1]), s[|s| - 1])
  }

  /** What the decoder returns from its final state: success, and the bytes. */
  function Finish(st: Decoder): (r: (bool, seq<byte>))
  {
    if !st.padded then (st.count == 0, st.out)
    else if st.count == 1 then (false, st.out)
    else if st.count == 2 then (true, st.out + [(st.bits / 0x400) % 256])
    else if st.count == 3 then (true, st.out + [(st.bits / 0x1_0000) % 256, (st.bits / 0x100) % 256])
    else (true, st.out)
  }

  function Decode(s: string): (bool, seq<byte>)
  {
    Finish(Run(Start, s))
  }

  /** Once a '=' has been met, the decoder ignores the rest of its input. */
  lemma RunPadded(st: Decoder, s: string)
    requires st.padded
    ensures Run(st, s) == st
  {
    if s != [] {
      RunPadded(st, s[..|s| - 1]);
    }
  }

  /** Running the decoder over two pieces of text is running it over their concatenation. */
  lemma RunAppend(st: Decoder, a: string, b: string)
    ensures Run(st, a + b) == Run(Run(st, a), b)
  {
    if b == [] {
      assert a + b == a;
    } else {
      var b' := b[..|b| - 1];
      assert (a + b)[..|a + b| - 1] == a + b';
      assert (a + b)[|a + b| - 1] == b[|b| - 1];
      RunAppend(st, a, b');
    }
  }

  lemma RunSnoc(st: Decoder, a: string, c: char)
    ensures Run(st, a + [c]) == Step(Run(st, a), c)
  {
    assert (a + [c])[..|a + [c]| - 1] == a;
  }

  /** One character other than '=' taken by the decoder's loop, spelled out as the loop's branches. */
  lemma StepSymbol(out: seq<byte>, bits: nat, count: nat, c: char)
    requires c != '='
    ensures var st := Decoder(out, bits, count, false);
      Step(st, c) ==
        if Decoded(c) == [] then st
        else if count + 1 == 4 then Decoder(out + Unpack(bits + Decoded(c)[0]), 0, 0, false)
        else Decoder(out, (bits + Decoded(c)[0]) * 64, count + 1, false)
  {
  }

  /** The decoder over one more character of `s`. */
  lemma RunPrefixStep(s: string, i: nat)
    requires i < |s|
    ensures Run(Start, s[..i + 1]) == Step(Run(Start, s[..i]), s[i])
  {
    assert s[..i + 1] == s[..i] + [s[i]];
    RunSnoc(Start, s[..i], s[i]);
  }

  lemma SplitAt(s: string, k: nat)
    requires k <= |s|
    ensures s[..k] + s[k..] == s
  {
  }

  /** The decoder's state at the first '=' of `s` is its final state. */
  lemma RunStopsAtPad(s: string, i: nat, st: Decoder)
    requires i < |s| && s[i] == '=' && Run(Start, s[..i]) == st && !st.padded
    ensures Run(Start, s) == st.(padded := true)
  {
    var head, tail := s[..i + 1], s[i + 1..];
    SplitAt(s, i + 1);
    RunPrefixStep(s, i);
    RunAppend(Start, head, tail);
    RunPadded(st.(padded := true), tail);
  }

  method DecodeBase64(s: string) returns (ok: bool, out: seq<byte>)
    ensures (ok, out) == Decode(s)
  {
    out := [];
    var charCount := 0;
    var bits: nat := 0;
    var finished := false;
    var i := 0;
    while i < |s|
      invariant 0 <= i <= |s|
      invariant Run(Start, s[..i]) == Decoder(out, bits, charCount, false)
    {
      var c := s[i];
      if c == '=' {
        RunStopsAtPad(s, i, Decoder(out, bits, charCount, false));
        finished := true;
        break;
      }
      RunPrefixStep(s, i);
      StepSymbol(out, bits, charCount, c);
      ghost var next := Step(Decoder(out, bits, charCount, false), c);
      var d := Decoded(c);
      if d != [] {
        bits := bits + d[0];
        charCount := charCount + 1;
        if charCount == 4 {
          out := out + Unpack(bits);
          bits := 0;
          charCount := 0;
          assert next == Decoder(out, 0, 0, false);
        } else {
          bits := bits * 64;
          assert next == Decoder(out, bits, charCount, false);
        }
      } else {
        assert next == Decoder(out, bits, charCount, false);
      }
      i := i + 1;
    }
    if !finished {
      assert s[..i] == s;
    }
    ghost var final := Decoder(out, bits, charCount, finished);
    assert Run(Start, s) == final;
    ok := true;
    if !finished {
      if charCount != 0 {
        ok := false;
      }
    } else if charCount == 1 {
      ok := false;
    } else if charCount == 2 {
      out := out + [(bits / 0x400) % 256];
    } else if charCount == 3 {
      out := out + [(bits / 0x1_0000) % 256, (bits / 0x100) % 256];
    }
  }

  // ---------------------------------------------------------------------
  // Round trip
  // ---------------------------------------------------------------------

  /** Splitting a 24-bit group into sextets and joining them again gives the group back. */
  lemma SextetsJoin(bits: nat)
    requires bits < 0x100_0000
    ensures ((Sextet0(bits) * 64 + Sextet1(bits)) * 64 + Sextet2(bits)) * 64 + Sextet3(bits) == bits
  {
    var q1 := bits / 64;
    var q2 := q1 / 64;
    assert bits == q1 * 64 + bits % 64;
    assert q1 == q2 * 64 + q1 % 64;
    assert q2 == q2 / 64 * 64 + q2 % 64;
    assert bits / 0x1000 == q2;
    assert bits / 0x4_0000 == q2 / 64;
  }

  /** The decoder's byte extraction undoes the encoder's grouping. */
  lemma Group3Bytes(b0: byte, b1: byte, b2: byte)
    ensures Unpack(Group3(b0, b1, b2)) == [b0, b1, b2]
  {
    var v := Group3(b0, b1, b2);
    var hi := (b0 as int) * 0x100 + b1;
    assert v == hi * 0x100 + b2;
    assert v / 0x100 == hi && v % 256 == b2;
    assert hi % 256 == b1;
    assert v == (b0 as int) * 0x1_0000 + ((b1 as int) * 0x100 + b2);
    assert v / 0x1_0000 == b0;
  }

  /** The decoder takes four alphabet characters of a group into three bytes. */
  /** The decoder over four characters, one step each. */
  lemma RunFour(st: Decoder, q: string)
    requires |q| == 4
    ensures Run(st, q) == Step(Step(Step(Step(st, q[0]), q[1]), q[2]), q[3])
  {
    assert q == [q[0]] + [q[1]] + [q[2]] + [q[3]];
    RunSnoc(st, [], q[0]);
    RunSnoc(st, [q[0]], q[1]);
    RunSnoc(st, [q[0]] + [q[1]], q[2]);
    RunSnoc(st, [q[0]] + [q[1]] + [q[2]], q[3]);
  }

  /** The decoder takes an alphabet character into its accumulator. */
  lemma StepSextet(out: seq<byte>, bits: nat, count: nat, n: nat)
    requires n < 64 && count < 4
    ensures Step(Decoder(out, bits, count, false), SextetChar(n)) ==
      if count == 3 then Decoder(out + Unpack(bits + n), 0, 0, false)
      else Decoder(out, (bits + n) * 64, count + 1, false)
  {
    DecodedSextetChar(n);
  }

  /** The decoder takes three alphabet characters into its accumulator. */
  lemma StepThreeSextets(out: seq<byte>, s0: nat, s1: nat, s2: nat)
    requires s0 < 64 && s1 < 64 && s2 < 64
    ensures Step(Step(Step(Decoder(out, 0, 0, false), SextetChar(s0)), SextetChar(s1)), SextetChar(s2)) ==
      Decoder(out, ((s0 * 64 + s1) * 64 + s2) * 64, 3, false)
  {
    StepSextet(out, 0, 0, s0);
    StepSextet(out, s0 * 64, 1, s1);
    StepSextet(out, (s0 * 64 + s1) * 64, 2, s2);
  }

  lemma RunQuad(out: seq<byte>, bits: nat)
    requires bits < 0x100_0000
    ensures Run(Decoder(out, 0, 0, false), QuadChars(bits)) == Decoder(out + Unpack(bits), 0, 0, false)
  {
    var s0, s1, s2, s3 := Sextet0(bits), Sextet1(bits), Sextet2(bits), Sextet3(bits);
    RunFour(Decoder(out, 0, 0, false), QuadChars(bits));
    StepThreeSextets(out, s0, s1, s2);
    var acc := ((s0 * 64 + s1) * 64 + s2) * 64;
    StepSextet(out, acc, 3, s3);
    SextetsJoin(bits);
    assert acc + s3 == bits;
  }

  /** Neither line breaks nor an empty string move the decoder. */
  lemma RunLineBreak(st: Decoder, j: nat)
    ensures Run(st, LineBreak(j)) == st
  {
    if j % 18 == 0 {
      assert LineBreak(j)[..0] == [];
    }
  }

  /**
   * A character outside the alphabet, other than '=', is skipped: removing
   * it from anywhere in the input does not change the decoder's final state.
   */
  lemma {:induction false} RunSkipsForeign(st: Decoder, a: string, c: char, b: string)
    requires Decoded(c) == [] && c != '='
    ensures Run(st, a + [c] + b) == Run(st, a + b)
  {
    if b == [] {
      assert a + [c] + b == a + [c];
      assert a + b == a;
      RunSnoc(st, a, c);
    } else {
      var b', d := b[..|b| - 1], b[|b| - 1];
      assert b == b' + [d];
      RunSkipsForeign(st, a, c, b');
      assert a + [c] + b == (a + [c] + b') + [d];
      assert a + b == (a + b') + [d];
      RunSnoc(st, a + [c] + b', d);
      RunSnoc(st, a + b', d);
    }
  }

  /** The bytes of the `j`-th group extend the bytes of the groups before it. */
  lemma GroupBytesPrefix(d: seq<byte>, j: nat)
    requires 0 < j && 3 * j <= |d|
    ensures d[..3 * (j - 1)] + Unpack(GroupBits(d, j - 1)) == d[..3 * j]
  {
    var k := 3 * (j - 1);
    Group3Bytes(d[k], d[k + 1], d[k + 2]);
    assert d[..k + 3] == d[..k] + [d[k], d[k + 1], d[k + 2]];
  }

  /** Decoding one more group of the output. */
  lemma RunEncodeGroupsStep(d: seq<byte>, j: nat)
    requires 0 < j && 3 * j <= |d|
    requires Run(Start, EncodeGroups(d, j - 1)) == Decoder(d[..3 * (j - 1)], 0, 0, false)
    ensures Run(Start, EncodeGroups(d, j)) == Decoder(d[..3 * j], 0, 0, false)
  {
    var prev := EncodeGroups(d, j - 1);
    var bits := GroupBits(d, j - 1);
    var quad := QuadChars(bits);
    assert EncodeGroups(d, j) == prev + quad + LineBreak(j);
    RunAppend(Start, prev + quad, LineBreak(j));
    RunAppend(Start, prev, quad);
    RunQuad(d[..3 * (j - 1)], bits);
    GroupBytesPrefix(d, j);
    RunLineBreak(Decoder(d[..3 * j], 0, 0, false), j);
  }

  /** The full groups of the output decode to the bytes they were made from. */
  lemma RunEncodeGroups(d: seq<byte>, j: nat)
    requires 3 * j <= |d|
    ensures Run(Start, EncodeGroups(d, j)) == Decoder(d[..3 * j], 0, 0, false)
  {
    if j > 0 {
      RunEncodeGroups(d, j - 1);
      RunEncodeGroupsStep(d, j);
    } else {
      assert d[..0] == [];
    }
  }

  /** The first two sextets of a group, joined, are its top twelve bits. */
  lemma HighSextets(bits: nat)
    requires bits < 0x100_0000
    ensures Sextet0(bits) * 64 + Sextet1(bits) == bits / 0x1000
  {
    var q := bits / 0x1000;
    assert bits == (q / 64) * 0x4_0000 + (q % 64) * 0x1000 + bits % 0x1000;
  }

  /** The first three sextets of a group, joined, are its top eighteen bits. */
  lemma ThreeSextets(bits: nat)
    requires bits < 0x100_0000
    ensures (Sextet0(bits) * 64 + Sextet1(bits)) * 64 + Sextet2(bits) == bits / 64
  {
    HighSextets(bits);
    var p := bits / 64;
    assert bits == (p / 64) * 0x1000 + (p % 64) * 64 + bits % 64;
  }

  /** The decoder over a padded group of two symbols: it holds them and stops. */
  lemma RunPadChars1(out: seq<byte>, bits: nat)
    requires bits < 0x100_0000
    ensures Run(Decoder(out, 0, 0, false), PadChars(bits, 1)) == Decoder(out, (bits / 0x1000) * 64, 2, true)
  {
    var st := Decoder(out, 0, 0, false);
    var s0, s1 := Sextet0(bits), Sextet1(bits);
    RunFour(st, PadChars(bits, 1));
    StepSextet(out, 0, 0, s0);
    StepSextet(out, s0 * 64, 1, s1);
    HighSextets(bits);
  }

  /** The decoder over a padded group of three symbols: it holds them and stops. */
  lemma RunPadChars2(out: seq<byte>, bits: nat)
    requires bits < 0x100_0000
    ensures Run(Decoder(out, 0, 0, false), PadChars(bits, 2)) == Decoder(out, (bits / 64) * 64, 3, true)
  {
    var st := Decoder(out, 0, 0, false);
    var s0, s1, s2 := Sextet0(bits), Sextet1(bits), Sextet2(bits);
    RunFour(st, PadChars(bits, 2));
    StepThreeSextets(out, s0, s1, s2);
    ThreeSextets(bits);
  }

  /** The decoder's one-byte tail undoes the encoder's two-character group. */
  lemma TailOneByte(b: byte)
    ensures ((Group3(b, 0, 0) / 0x1000) * 64 / 0x400) % 256 == b
  {
    assert Group3(b, 0, 0) / 0x1000 == (b as int) * 16;
  }

  /** The decoder's two-byte tail undoes the encoder's three-character group. */
  lemma TailTwoBytes(b0: byte, b1: byte)
    ensures var v := (Group3(b0, b1, 0) / 64) * 64;
      (v / 0x1_0000) % 256 == b0 && (v / 0x100) % 256 == b1
  {
    var bits := Group3(b0, b1, 0);
    assert bits == ((b0 as int) * 0x400 + (b1 as int) * 4) * 64;
    assert (bits / 64) * 64 == bits;
    Group3Bytes(b0, b1, 0);
  }

  /** A padded group of one byte decodes to that byte, whatever follows it. */
  lemma RunPadOne(out: seq<byte>, b: byte, rest: string)
    ensures Finish(Run(Decoder(out, 0, 0, false), PadChars(Group3(b, 0, 0), 1) + rest)) == (true, out + [b])
  {
    var bits := Group3(b, 0, 0);
    var st := Decoder(out, 0, 0, false);
    RunAppend(st, PadChars(bits, 1), rest);
    RunPadChars1(out, bits);
    RunPadded(Run(st, PadChars(bits, 1)), rest);
    TailOneByte(b);
  }

  /** A padded group of two bytes decodes to those bytes, whatever follows it. */
  lemma RunPadTwo(out: seq<byte>, b0: byte, b1: byte, rest: string)
    ensures Finish(Run(Decoder(out, 0, 0, false), PadChars(Group3(b0, b1, 0), 2) + rest)) == (true, out + [b0, b1])
  {
    var bits := Group3(b0, b1, 0);
    var st := Decoder(out, 0, 0, false);
    RunAppend(st, PadChars(bits, 2), rest);
    RunPadChars2(out, bits);
    RunPadded(Run(st, PadChars(bits, 2)), rest);
    TailTwoBytes(b0, b1);
  }

  lemma SnocOne(d: seq<byte>, k: nat)
    requires k + 1 == |d|
    ensures d == d[..k] + [d[k]]
  {
  }

  lemma SnocTwo(d: seq<byte>, k: nat)
    requires k + 2 == |d|
    ensures d == d[..k] + [d[k], d[k + 1]]
  {
  }

  /** A last group of one byte decodes to that byte. */
  lemma FinishTailOne(d: seq<byte>, j: nat)
    requires |d| == 3 * j + 1
    ensures Finish(Run(Decoder(d[..3 * j], 0, 0, false), EncodeTail(d))) == (true, d)
  {
    assert |d| / 3 == j;
    var nl := if j % 18 != 0 then "\n" else "";
    assert EncodeTail(d) == PadChars(Group3(d[3 * j], 0, 0), 1) + nl;
    RunPadOne(d[..3 * j], d[3 * j], nl);
    SnocOne(d, 3 * j);
  }

  /** A last group of two bytes decodes to those bytes. */
  lemma FinishTailTwo(d: seq<byte>, j: nat)
    requires |d| == 3 * j + 2
    ensures Finish(Run(Decoder(d[..3 * j], 0, 0, false), EncodeTail(d))) == (true, d)
  {
    assert |d| / 3 == j;
    var nl := if j % 18 != 0 then "\n" else "";
    assert EncodeTail(d) == PadChars(Group3(d[3 * j], d[3 * j + 1], 0), 2) + nl;
    RunPadTwo(d[..3 * j], d[3 * j], d[3 * j + 1], nl);
    SnocTwo(d, 3 * j);
  }

  /** Decoding the encoder's output gives the input back and reports success. */
  lemma RoundTrip(d: seq<byte>)
    ensures Decode(Encode(d)) == (true, d)
  {
    var j := |d| / 3;
    var st := Decoder(d[..3 * j], 0, 0, false);
    assert Encode(d) == EncodeGroups(d, j) + EncodeTail(d);
    RunEncodeGroups(d, j);
    RunAppend(Start, EncodeGroups(d, j), EncodeTail(d));
    assert Run(Start, Encode(d)) == Run(st, EncodeTail(d));
    if |d| % 3 == 0 {
      assert EncodeTail(d) == [];
      assert d[..3 * j] == d;
    } else if |d| % 3 == 1 {
      FinishTailOne(d, j);
    } else {
      FinishTailTwo(d, j);
    }
  }

  // ---------------------------------------------------------------------
  // Layout of the encoder's output and the decoder's error cases
  // ---------------------------------------------------------------------

  lemma EncodeGroupsLength(d: seq<byte>, j: nat)
    requires 3 * j <= |d|
    ensures |EncodeGroups(d, j)| == 4 * j + j / 18
  {
    if j > 0 {
      EncodeGroupsLength(d, j - 1);
    }
  }

  /**
   * The encoder's output is four characters per started group of three
   * bytes, one newline per 18 full groups, and one more after a padded group
   * whose line holds full groups too.
   */
  lemma EncodeLength(d: seq<byte>)
    ensures var j := |d| / 3;
      |Encode(d)| == 4 * ((|d| + 2) / 3) + j / 18 + (if |d| % 3 != 0 && j % 18 != 0 then 1 else 0)
  {
    var j, n := |d| / 3, |d| % 3;
    EncodeGroupsLength(d, j);
    assert |d| == 3 * j + n;
    assert (|d| + 2) / 3 == j + (if n == 0 then 0 else 1);
    assert |EncodeTail(d)| == if n == 0 then 0 else 4 + (if j % 18 != 0 then 1 else 0);
  }

  /** Input that ends inside a group with no '=' after it is reported as an error. */
  lemma UnpaddedIncomplete(s: string)
    requires !Run(Start, s).padded && Run(Start, s).count != 0
    ensures !Decode(s).0
  {
  }

  /** A single alphabet character before '=' is too few for a byte and is reported as an error. */
  lemma OneSymbolBeforePad(c: char)
    requires Decoded(c) != []
    ensures Decode([c, '=']) == (false, [])
  {
    assert [c, '='] == [c] + ['='];
    assert [c] == [] + [c];
    RunSnoc(Start, [c], '=');
    RunSnoc(Start, [], c);
  }

  /**
   * Four NUL characters decode as a full group of the out-of-alphabet value
   * 64 each: the 26-bit accumulator is truncated to the bytes 4, 16 and 64.
   */
  lemma NulGroup()
    ensures Decode(['\0', '\0', '\0', '\0']) == (true, [4, 16, 64])
  {
    var q := ['\0', '\0', '\0', '\0'];
    RunFour(Start, q);
    assert q[0] == '\0' && q[1] == '\0' && q[2] == '\0' && q[3] == '\0';
    StepNul([], 0, 0);
    var s1 := Step(Start, '\0');
    assert s1 == Decoder([], 4096, 1, false);
    StepNul([], 4096, 1);
    var s2 := Step(s1, '\0');
    assert s2 == Decoder([], 266240, 2, false);
    StepNul([], 266240, 2);
    var s3 := Step(s2, '\0');
    assert s3 == Decoder([], 17043456, 3, false);
    StepNul([], 17043456, 3);
    var s4 := Step(s3, '\0');
    assert s4 == Decoder([] + Unpack(17043520), 0, 0, false);
    assert Unpack(17043520) == [4, 16, 64];
    assert s4.out == [4, 16, 64];
    assert Finish(s4) == (true, [4, 16, 64]);
    assert Decode(q) == Finish(s4);
  }

  /** The decoder takes NUL into its accumulator as the value 64. */
  lemma StepNul(out: seq<byte>, bits: nat, count: nat)
    requires count < 4
    ensures Step(Decoder(out, bits, count, false), '\0') ==
      if count == 3 then Decoder(out + Unpack(bits + 64), 0, 0, false)
      else Decoder(out, (bits + 64) * 64, count + 1, false)
  {
    assert Decoded('\0') == [64];
  }
}
