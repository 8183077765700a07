/**
 * The hand-written base64 encoder of the messaging hook (both copies are the
 * same function), which builds the HTTP Basic `Authorization` header of
 * section 2 of RFC 7617, beside the base64 encoding of section 4 of RFC 4648
 * that it was written to implement.
 *
 * The encoder reads a string as UTF-16 code units and forms the 32-bit value
 * `(a << 16) | (b << 8) | c`; that value is modelled exactly as a `bv32`, so
 * the encoder itself needs no restriction on its input.
 */
module Base64 {
  import Js

  type CodeUnit = Js.CodeUnit
  type Byte = bv8

  /** Entry `k` of the encoder's table, computed from its position. */
  function Digit(k: int): char
    requires 0 <= k < 65
  {
    if k < 26 then ('A' as int + k) as char
    else if k < 52 then ('a' as int + (k - 26)) as char
    else if k < 62 then ('0' as int + (k - 52)) as char
    else if k == 62 then '+'
    else if k == 63 then '/'
    else '='
  }

  const Upper: string := "ABCDEFGHIJKLMNOPQRSTUVWXYZ"
  const Lower: string := "abcdefghijklmnopqrstuvwxyz"
  const Digits: string := "0123456789"

  /** The encoder's table: the 64 digits of base64, then the pad character at index 64. */
  const Alphabet: string := Upper + Lower + Digits + "+/="

  lemma AlphabetAt(k: nat)
    requires k < 65
    ensures |Alphabet| == 65 && Alphabet[k] == Digit(k)
    ensures k < 64 ==> Alphabet[k] != '='
  {
    if k < 26 {
      assert Alphabet[k] == Upper[k];
    } else if k < 52 {
      assert Alphabet[k] == Lower[k - 26];
    } else if k < 62 {
      assert Alphabet[k] == Digits[k - 52];
    }
  }

  /* ---------------------------------------------------------------------- */
  /* The encoder as written                                                  */
  /* ---------------------------------------------------------------------- */

  /** `(a << 16) | (b << 8) | c` on JavaScript's 32-bit integers. */
  function Bitmap(a: CodeUnit, b: CodeUnit, c: CodeUnit): bv32 {
    (a as bv32 << 16) | (b as bv32 << 8) | c as bv32
  }

  /** `(bitmap >> shift) & 63`: an index into the first 64 entries of the table. */
  function Sextet(bitmap: bv32, shift: bv32): (k: nat)
    requires shift <= 18
    ensures k < 64
  {
    ((bitmap >> shift) & 63) as int
  }

  /**
   * The four characters one pass of the loop appends once both padding tests
   * have come out true: the two `'='` alternatives are never chosen.
   */
  function Quad(a: CodeUnit, b: CodeUnit, c: CodeUnit): (q: string)
    ensures |q| == 4
  {
    var bitmap := Bitmap(a, b, c);
    [Alphabet[Sextet(bitmap, 18)], Alphabet[Sextet(bitmap, 12)],
     Alphabet[Sextet(bitmap, 6)], Alphabet[Sextet(bitmap, 0)]]
  }

  /**
   * What the encoder computes, group by group: up to three code units per
   * group, a missing second or third unit read as 0.
   */
  function Encoded(s: seq<CodeUnit>): string
    decreases |s|
  {
    if |s| == 0 then ""
    else if |s| == 1 then Quad(s[0], 0, 0)
    else if |s| == 2 then Quad(s[0], s[1], 0)
    else Quad(s[0], s[1], s[2]) + Encoded(s[3..])
  }

  /** `base64Encode(str)`, step by step as the hook writes it. */
  method Encode(str: seq<CodeUnit>) returns (output: string)
    ensures output == Encoded(str)
    ensures |output| == 4 * ((|str| + 2) / 3)
    ensures '=' !in output
  {
    output := "";
    var i := 0;
    while i < |str|
      invariant 0 <= i <= |str|
      invariant output + Encoded(str[i..]) == Encoded(str)
    {
      ghost var start := i;
      var a := str[i];
      i := i + 1;
      var b: CodeUnit := 0;
      if i < |str| {
        b := str[i];
        i := i + 1;
      }
      var c: CodeUnit := 0;
      if i < |str| {
        c := str[i];
        i := i + 1;
      }
      var bitmap := Bitmap(a, b, c);
      var third := if i - 2 < |str| then [Alphabet[Sextet(bitmap, 6)]] else "=";
      var fourth := if i - 1 < |str| then [Alphabet[Sextet(bitmap, 0)]] else "=";
      EncodedStep(str, start, i);
      AppendQuad(output, a, b, c, third, fourth, Encoded(str[i..]));
      output := output + [Alphabet[Sextet(bitmap, 18)], Alphabet[Sextet(bitmap, 12)]] + third + fourth;
    }
    assert str[i..] == [];
    EncodedLength(str);
    EncodedHasNoPad(str);
  }

  /** The four characters one pass appends, with both padding tests true, are the group's quadruple. */
  lemma AppendQuad(before: string, a: CodeUnit, b: CodeUnit, c: CodeUnit, third: string, fourth: string, rest: string)
    requires third == [Alphabet[Sextet(Bitmap(a, b, c), 6)]]
    requires fourth == [Alphabet[Sextet(Bitmap(a, b, c), 0)]]
    ensures (before + [Alphabet[Sextet(Bitmap(a, b, c), 18)], Alphabet[Sextet(Bitmap(a, b, c), 12)]] + third + fourth) + rest
            == before + (Quad(a, b, c) + rest)
  {
  }

  /** One pass of the loop consumes the group that `Encoded` turns into its first quadruple. */
  lemma EncodedStep(str: seq<CodeUnit>, start: nat, i: nat)
    requires start < |str| && i == if start + 3 <= |str| then start + 3 else |str|
    ensures Encoded(str[start..]) == Quad(str[start], if start + 1 < |str| then str[start + 1] else 0,
                                          if start + 2 < |str| then str[start + 2] else 0) + Encoded(str[i..])
  {
    var rest := str[start..];
    if |rest| > 3 {
      assert rest[3..] == str[i..];
    }
  }

  /** The output has four characters per started group of three code units. */
  lemma {:induction false} EncodedLength(s: seq<CodeUnit>)
    ensures |Encoded(s)| == 4 * ((|s| + 2) / 3)
    decreases |s|
  {
    if |s| > 3 {
      EncodedLength(s[3..]);
      assert (|s| + 2) / 3 == (|s[3..]| + 2) / 3 + 1;
    }
  }

  lemma QuadHasNoPad(a: CodeUnit, b: CodeUnit, c: CodeUnit)
    ensures '=' !in Quad(a, b, c)
  {
    var bitmap := Bitmap(a, b, c);
    AlphabetAt(Sextet(bitmap, 18));
    AlphabetAt(Sextet(bitmap, 12));
    AlphabetAt(Sextet(bitmap, 6));
    AlphabetAt(Sextet(bitmap, 0));
  }

  /** The pad character of the table is never emitted, whatever the input length. */
  lemma {:induction false} EncodedHasNoPad(s: seq<CodeUnit>)
    ensures '=' !in Encoded(s)
    decreases |s|
  {
    if |s| == 1 {
      QuadHasNoPad(s[0], 0, 0);
    } else if |s| == 2 {
      QuadHasNoPad(s[0], s[1], 0);
    } else if |s| > 2 {
      QuadHasNoPad(s[0], s[1], s[2]);
      EncodedHasNoPad(s[3..]);
    }
  }

  /* ---------------------------------------------------------------------- */
  /* Section 4 of RFC 4648                                                   */
  /* ---------------------------------------------------------------------- */

  /** The base64 digit of a 6-bit value: its entry in the table. */
  function StdDigit(v: Byte): char
    requires v < 64
  {
    Alphabet[v as int]
  }

  /** The position of a base64 digit in the table (0 for any other character). */
  function DigitIndex(c: char): (k: nat)
    ensures k < 64
  {
    if 'A' <= c <= 'Z' then c as int - 'A' as int
    else if 'a' <= c <= 'z' then c as int - 'a' as int + 26
    else if '0' <= c <= '9' then c as int - '0' as int + 52
    else if c == '+' then 62
    else if c == '/' then 63
    else 0
  }

  /** The 6-bit value of a base64 digit. */
  function DigitValue(c: char): Byte {
    DigitIndex(c) as bv8
  }

  lemma DigitValueOfStdDigit(v: Byte)
    requires v < 64
    ensures DigitValue(StdDigit(v)) == v && StdDigit(v) != '='
  {
    var k := v as int;
    AlphabetAt(k);
    assert DigitIndex(Digit(k)) == k;
    assert k as bv8 == v;
  }

  /**
   * The 6-bit groups of one to three octets, the bits missing from the last
   * group taken as zero: two, three or four values below 64.
   */
  function Sextets(g: seq<Byte>): (v: seq<Byte>)
    requires 1 <= |g| <= 3
    ensures |v| == |g| + 1 && forall k | 0 <= k < |v| :: v[k] < 64
  {
    var x := g[0];
    if |g| == 1 then [x >> 2, (x & 3) << 4]
    else
      var y := g[1];
      if |g| == 2 then [x >> 2, ((x & 3) << 4) | (y >> 4), (y & 15) << 2]
      else
        var z := g[2];
        [x >> 2, ((x & 3) << 4) | (y >> 4), ((y & 15) << 2) | (z >> 6), z & 63]
  }

  /** The octets whose bits a run of two to four 6-bit values carries. */
  function Join(v: seq<Byte>): (g: seq<Byte>)
    requires 2 <= |v| <= 4
    ensures |g| == |v| - 1
  {
    var x := (v[0] << 2) | (v[1] >> 4);
    if |v| == 2 then [x]
    else
      var y := (v[1] << 4) | (v[2] >> 2);
      if |v| == 3 then [x, y]
      else [x, y, (v[2] << 6) | v[3]]
  }

  /** Joining the 6-bit groups of octets gives back the octets. */
  lemma JoinSextets(g: seq<Byte>)
    requires 1 <= |g| <= 3
    ensures Join(Sextets(g)) == g
  {
    if |g| == 1 {
      assert g == [g[0]];
    } else if |g| == 2 {
      assert g == [g[0], g[1]];
    } else {
      assert g == [g[0], g[1], g[2]];
    }
  }

  /** The digits of a run of 6-bit values. */
  function DigitsOf(v: seq<Byte>): (r: string)
    requires forall k | 0 <= k < |v| :: v[k] < 64
    ensures |r| == |v|
  {
    if v == [] then [] else [StdDigit(v[0])] + DigitsOf(v[1..])
  }

  /** The 6-bit values of a run of digits. */
  function ValuesOf(s: string): (v: seq<Byte>)
    ensures |v| == |s|
  {
    if s == [] then [] else [DigitValue(s[0])] + ValuesOf(s[1..])
  }

  /** Digits never include the pad character, and reading them gives back their values. */
  lemma {:induction false} DigitsOfValues(v: seq<Byte>)
    requires forall k | 0 <= k < |v| :: v[k] < 64
    ensures ValuesOf(DigitsOf(v)) == v && '=' !in DigitsOf(v)
    decreases |v|
  {
    if v != [] {
      DigitValueOfStdDigit(v[0]);
      DigitsOfValues(v[1..]);
      var r := DigitsOf(v);
      assert r[1..] == DigitsOf(v[1..]);
    }
  }

  /** `n` pad characters. */
  function Pad(n: nat): (p: string)
    ensures |p| == n
  {
    seq(n, _ => '=')
  }

  /**
   * The four characters of one group of one to three octets: a group of 8
   * bits becomes two digits and "==", one of 16 bits three digits and "=",
   * one of 24 bits four digits.
   */
  function StdGroup(g: seq<Byte>): (q: string)
    requires 1 <= |g| <= 3
    ensures |q| == 4
  {
    DigitsOf(Sextets(g)) + Pad(3 - |g|)
  }

  /** The base64 encoding of an octet sequence, three octets at a time. */
  function StdEncode(b: seq<Byte>): string
    decreases |b|
  {
    if |b| == 0 then ""
    else if |b| <= 3 then StdGroup(b)
    else StdGroup(b[..3]) + StdEncode(b[3..])
  }

  /** How many leading characters of a quadruple are digits: up to the first pad character. */
  function DigitCount(q: string): (n: nat)
    requires |q| == 4
    ensures 2 <= n <= 4
  {
    if q[2] == '=' then 2 else if q[3] == '=' then 3 else 4
  }

  /** The octets of one quadruple: one before "==", two before "=", three otherwise. */
  function DecodeGroup(q: string): (g: seq<Byte>)
    requires |q| == 4
    ensures 1 <= |g| <= 3
  {
    Join(ValuesOf(q[..DigitCount(q)]))
  }

  /** Base64 decoding of well-formed input, quadruple by quadruple, stopping after a padded one. */
  function StdDecode(s: string): seq<Byte>
    decreases |s|
  {
    if |s| < 4 then []
    else if DigitCount(s[..4]) < 4 then DecodeGroup(s[..4])
    else DecodeGroup(s[..4]) + StdDecode(s[4..])
  }

  /** Decoding one quadruple gives back its group; only a short group is padded. */
  lemma DecodeStdGroup(g: seq<Byte>)
    requires 1 <= |g| <= 3
    ensures DecodeGroup(StdGroup(g)) == g
    ensures DigitCount(StdGroup(g)) == |g| + 1
    ensures '=' in StdGroup(g) <==> |g| < 3
  {
    var v := Sextets(g);
    var d := DigitsOf(v);
    var q := StdGroup(g);
    DigitsOfValues(v);
    assert q[..|v|] == d;
    assert forall k | 0 <= k < |v| :: q[k] == d[k];
    assert |g| < 3 ==> q[|v|] == '=';
    JoinSextets(g);
  }

  /** A quadruple without padding followed by more text decodes to its group, then the rest. */
  lemma DecodeFullGroup(g: seq<Byte>, rest: string)
    requires |g| == 3
    ensures StdDecode(StdGroup(g) + rest) == g + StdDecode(rest)
  {
    var q := StdGroup(g);
    DecodeStdGroup(g);
    assert (q + rest)[..4] == q && (q + rest)[4..] == rest;
  }

  /** A single quadruple decodes to its group. */
  lemma DecodeLastGroup(g: seq<Byte>)
    requires 1 <= |g| <= 3
    ensures StdDecode(StdGroup(g)) == g
  {
    var q := StdGroup(g);
    DecodeStdGroup(g);
    assert q[..4] == q && q[4..] == "";
  }

  /** Decoding inverts the encoding of section 4 of RFC 4648. */
  lemma {:induction false} StdRoundTrip(b: seq<Byte>)
    ensures StdDecode(StdEncode(b)) == b
    decreases |b|
  {
    if |b| == 0 {
    } else if |b| <= 3 {
      DecodeLastGroup(b);
    } else {
      DecodeFullGroup(b[..3], StdEncode(b[3..]));
      StdRoundTrip(b[3..]);
      assert b == b[..3] + b[3..];
    }
  }

  /** The encoding has four characters per started group of three octets. */
  lemma {:induction false} StdLength(b: seq<Byte>)
    ensures |StdEncode(b)| == 4 * ((|b| + 2) / 3)
    decreases |b|
  {
    if |b| > 3 {
      StdLength(b[3..]);
      assert (|b| + 2) / 3 == (|b[3..]| + 2) / 3 + 1;
    }
  }

  lemma PadInConcat(q: string, r: string)
    ensures '=' in q + r <==> '=' in q || '=' in r
  {
    if '=' in q + r {
      var k :| 0 <= k < |q + r| && (q + r)[k] == '=';
      if k >= |q| {
        assert r[k - |q|] == '=';
      }
    } else {
      assert forall k | 0 <= k < |q| :: (q + r)[k] == q[k];
      assert forall k | 0 <= k < |r| :: (q + r)[|q| + k] == r[k];
    }
  }

  lemma ModThree(n: int)
    requires n >= 3
    ensures n % 3 == (n - 3) % 3
  {
  }

  /** A quadruple carries a pad character exactly when its group is short. */
  lemma GroupPadded(g: seq<Byte>)
    requires 1 <= |g| <= 3
    ensures '=' in StdGroup(g) <==> |g| < 3
  {
    DecodeStdGroup(g);
  }

  /** A full first group adds no pad character. */
  lemma PaddingStep(b: seq<Byte>)
    requires |b| > 3
    ensures '=' in StdEncode(b) <==> '=' in StdEncode(b[3..])
  {
    GroupPadded(b[..3]);
    PadInConcat(StdGroup(b[..3]), StdEncode(b[3..]));
  }

  /** The pad character occurs in the encoding exactly when the length is not a multiple of 3. */
  lemma {:induction false} StdPadding(b: seq<Byte>)
    ensures '=' in StdEncode(b) <==> |b| % 3 != 0
    decreases |b|
  {
    if |b| == 0 {
    } else if |b| <= 3 {
      GroupPadded(b);
    } else {
      PaddingStep(b);
      StdPadding(b[3..]);
      ModThree(|b|);
    }
  }

  /* ---------------------------------------------------------------------- */
  /* How the encoder relates to RFC 4648                                     */
  /* ---------------------------------------------------------------------- */

  /** Octets read as code units below 256, which is what `charCodeAt` yields for them. */
  function Widen(b: seq<Byte>): (u: seq<CodeUnit>)
    ensures |u| == |b|
  {
    if b == [] then [] else [b[0] as bv16] + Widen(b[1..])
  }

  /** Each octet becomes the code unit of the same value. */
  lemma {:induction false} WidenAt(b: seq<Byte>, k: nat)
    requires k < |b|
    ensures Widen(b)[k] == b[k] as bv16 && Widen(b)[k] < 256
    decreases k
  {
    if k > 0 {
      WidenAt(b[1..], k - 1);
    }
  }

  /** Widening commutes with dropping a prefix. */
  lemma {:induction false} WidenDrop(b: seq<Byte>, n: nat)
    requires n <= |b|
    ensures Widen(b)[n..] == Widen(b[n..])
    decreases n
  {
    if n > 0 {
      WidenDrop(b[1..], n - 1);
      assert b[1..][n - 1..] == b[n..];
    }
  }

  /** Code units below 256 read back as octets. */
  function Narrow(u: seq<CodeUnit>): (b: seq<Byte>)
    requires forall k | 0 <= k < |u| :: u[k] < 256
    ensures Widen(b) == u
  {
    if u == [] then []
    else
      var b := [u[0] as bv8] + Narrow(u[1..]);
      assert b[1..] == Narrow(u[1..]);
      b
  }

  /** Every pad character replaced by the digit 'A'. */
  function PadAsA(r: string): (p: string)
    ensures |p| == |r|
  {
    seq(|r|, k requires 0 <= k < |r| => if r[k] == '=' then 'A' else r[k])
  }

  lemma PadAsAConcat(r: string, t: string)
    ensures PadAsA(r + t) == PadAsA(r) + PadAsA(t)
  {
  }

  /** `n` zero octets. */
  function Nuls(n: nat): (z: seq<Byte>)
    ensures |z| == n
  {
    seq(n, _ => 0)
  }

  /** A short final group completed with zero octets. */
  function Filled(g: seq<Byte>): (f: seq<Byte>)
    requires |g| <= 3
    ensures |f| == 3
  {
    g + Nuls(3 - |g|)
  }

  /** The 6-bit groups of a group completed with zeros: those of the group, then zeros. */
  lemma SextetsOfFilled(g: seq<Byte>)
    requires 1 <= |g| <= 3
    ensures Sextets(Filled(g)) == Sextets(g) + Nuls(3 - |g|)
  {
    var f := Filled(g);
    if |g| == 1 {
      assert f == [g[0], 0, 0] && g == [g[0]] && Nuls(2) == [0, 0];
      SextetsOfOne(g[0]);
    } else if |g| == 2 {
      assert f == [g[0], g[1], 0] && g == [g[0], g[1]] && Nuls(1) == [0];
      SextetsOfTwo(g[0], g[1]);
    } else {
      assert f == g && Nuls(0) == [];
    }
  }

  lemma SextetsOfOne(x: Byte)
    ensures Sextets([x, 0, 0]) == Sextets([x]) + [0, 0]
  {
  }

  lemma SextetsOfTwo(x: Byte, y: Byte)
    ensures Sextets([x, y, 0]) == Sextets([x, y]) + [0]
  {
  }

  lemma {:induction false} DigitsOfConcat(v: seq<Byte>, w: seq<Byte>)
    requires forall k | 0 <= k < |v| :: v[k] < 64
    requires forall k | 0 <= k < |w| :: w[k] < 64
    ensures DigitsOf(v + w) == DigitsOf(v) + DigitsOf(w)
    decreases |v|
  {
    if v != [] {
      assert (v + w)[1..] == v[1..] + w;
      DigitsOfConcat(v[1..], w);
    } else {
      assert v + w == w;
    }
  }

  /** The digits of zero values are 'A's, which is what the pad characters become. */
  lemma {:induction false} DigitsOfNuls(n: nat)
    ensures DigitsOf(Nuls(n)) == PadAsA(Pad(n))
    decreases n
  {
    if n > 0 {
      assert Nuls(n)[1..] == Nuls(n - 1);
      DigitsOfNuls(n - 1);
      assert StdDigit(0) == 'A';
    }
  }

  /** Replacing the pad characters of a quadruple by 'A' encodes the group completed with zeros. */
  lemma PadAsAGroup(g: seq<Byte>)
    requires 1 <= |g| <= 3
    ensures PadAsA(StdGroup(g)) == StdGroup(Filled(g))
  {
    var v, n := Sextets(g), 3 - |g|;
    SextetsOfFilled(g);
    DigitsOfConcat(v, Nuls(n));
    DigitsOfNuls(n);
    DigitsOfValues(v);
    PadAsAConcat(DigitsOf(v), Pad(n));
    assert PadAsA(DigitsOf(v)) == DigitsOf(v);
    assert Pad(3 - |Filled(g)|) == "";
  }

  /** The 6-bit groups of the 32-bit value of three octets are the octets' bit groups. */
  lemma SextetsOfBytes(x: Byte, y: Byte, z: Byte)
    ensures Sextet(Bitmap(x as bv16, y as bv16, z as bv16), 18) == (x >> 2) as int
    ensures Sextet(Bitmap(x as bv16, y as bv16, z as bv16), 12) == (((x & 3) << 4) | (y >> 4)) as int
    ensures Sextet(Bitmap(x as bv16, y as bv16, z as bv16), 6) == (((y & 15) << 2) | (z >> 6)) as int
    ensures Sextet(Bitmap(x as bv16, y as bv16, z as bv16), 0) == (z & 63) as int
  {
  }

  lemma {:induction false} DigitsOfAt(v: seq<Byte>, k: nat)
    requires forall j | 0 <= j < |v| :: v[j] < 64
    requires k < |v|
    ensures DigitsOf(v)[k] == StdDigit(v[k])
    decreases k
  {
    if k > 0 {
      DigitsOfAt(v[1..], k - 1);
    }
  }

  lemma DigitsOfFour(v: seq<Byte>)
    requires |v| == 4 && forall k | 0 <= k < 4 :: v[k] < 64
    ensures DigitsOf(v) == [StdDigit(v[0]), StdDigit(v[1]), StdDigit(v[2]), StdDigit(v[3])]
  {
    DigitsOfAt(v, 0);
    DigitsOfAt(v, 1);
    DigitsOfAt(v, 2);
    DigitsOfAt(v, 3);
  }

  /** One quadruple of the encoder on three octets is the RFC 4648 quadruple. */
  lemma QuadOfBytes(x: Byte, y: Byte, z: Byte)
    ensures Quad(x as bv16, y as bv16, z as bv16) == StdGroup([x, y, z])
  {
    SextetsOfBytes(x, y, z);
    DigitsOfFour(Sextets([x, y, z]));
    assert StdGroup([x, y, z]) == DigitsOf(Sextets([x, y, z]));
  }

  /** The code units the encoder reads for a group, a missing one as 0, are the completed group's octets. */
  lemma UnitsOfGroup(u: seq<CodeUnit>, g: seq<Byte>)
    requires 1 <= |g| <= 3 && u == Widen(g)
    ensures u[0] == Filled(g)[0] as bv16
    ensures (if 1 < |u| then u[1] else 0) == Filled(g)[1] as bv16
    ensures (if 2 < |u| then u[2] else 0) == Filled(g)[2] as bv16
  {
    WidenAt(g, 0);
    if 1 < |g| {
      WidenAt(g, 1);
    }
    if 2 < |g| {
      WidenAt(g, 2);
    }
  }

  /** The encoder's quadruple of a group completed with zeros is the RFC 4648 one with 'A' for '='. */
  lemma QuadOfFilled(g: seq<Byte>)
    requires 1 <= |g| <= 3
    ensures Quad(Filled(g)[0] as bv16, Filled(g)[1] as bv16, Filled(g)[2] as bv16) == PadAsA(StdGroup(g))
  {
    var f := Filled(g);
    QuadOfBytes(f[0], f[1], f[2]);
    assert [f[0], f[1], f[2]] == f;
    PadAsAGroup(g);
  }

  /** On code units below 256 the encoder's quadruple is the RFC 4648 one of the completed group. */
  lemma QuadOfGroup(u: seq<CodeUnit>, g: seq<Byte>)
    requires 1 <= |g| <= 3 && u == Widen(g)
    ensures Quad(u[0], if 1 < |u| then u[1] else 0, if 2 < |u| then u[2] else 0) == PadAsA(StdGroup(g))
  {
    UnitsOfGroup(u, g);
    QuadOfFilled(g);
  }

  /**
   * On code units below 256 the encoder produces the RFC 4648 encoding with
   * each pad character '=' replaced by 'A'.
   */
  lemma {:induction false} AgreesUpToPadding(b: seq<Byte>)
    ensures Encoded(Widen(b)) == PadAsA(StdEncode(b))
    decreases |b|
  {
    if |b| == 0 {
    } else if |b| <= 3 {
      QuadOfGroup(Widen(b), b);
    } else {
      EncodedFirstGroup(b);
      PadAsAOfEncode(b);
      AgreesUpToPadding(b[3..]);
    }
  }

  lemma WidenFacts(b: seq<Byte>)
    requires |b| > 3
    ensures Encoded(Widen(b)) == Quad(b[0] as bv16, b[1] as bv16, b[2] as bv16) + Encoded(Widen(b[3..]))
    ensures [b[0], b[1], b[2]] == b[..3]
  {
    var u := Widen(b);
    EncodedUnfold(u);
    WidenAt(b, 0);
    WidenAt(b, 1);
    WidenAt(b, 2);
    WidenDrop(b, 3);
  }

  lemma EncodedUnfold(u: seq<CodeUnit>)
    requires |u| > 3
    ensures Encoded(u) == Quad(u[0], u[1], u[2]) + Encoded(u[3..])
  {
  }

  /** On octets, the encoder's output begins with the RFC 4648 quadruple of the first full group. */
  lemma EncodedFirstGroup(b: seq<Byte>)
    requires |b| > 3
    ensures Encoded(Widen(b)) == StdGroup(b[..3]) + Encoded(Widen(b[3..]))
  {
    WidenFacts(b);
    QuadOfBytes(b[0], b[1], b[2]);
  }

  /**
   * The encoder agrees with RFC 4648 exactly when the input length is a
   * multiple of 3; otherwise the padding differs.
   */
  lemma AgreesExactlyWhenMultipleOfThree(b: seq<Byte>)
    ensures Encoded(Widen(b)) == StdEncode(b) <==> |b| % 3 == 0
  {
    AgreesUpToPadding(b);
    StdPadding(b);
    PadAsAFixes(StdEncode(b));
  }

  /** Replacing the pad characters changes exactly the texts that contain one. */
  lemma PadAsAFixes(r: string)
    ensures PadAsA(r) == r <==> '=' !in r
  {
    if '=' in r {
      var k :| 0 <= k < |r| && r[k] == '=';
      assert PadAsA(r)[k] == 'A';
    } else {
      assert forall k | 0 <= k < |r| :: r[k] != '=';
    }
  }

  /** With its pad characters read as 'A', the encoding still begins with the first full quadruple. */
  lemma PadAsAOfEncode(b: seq<Byte>)
    requires |b| > 3
    ensures PadAsA(StdEncode(b)) == StdGroup(b[..3]) + PadAsA(StdEncode(b[3..]))
  {
    var g := b[..3];
    PadAsAGroup(g);
    assert Filled(g) == g;
    PadAsAConcat(StdGroup(g), StdEncode(b[3..]));
  }

  /** A last quadruple with its pad characters read as 'A' decodes to its group completed with zeros. */
  lemma DecodesLastPadAsA(g: seq<Byte>)
    requires 1 <= |g| <= 3
    ensures StdDecode(PadAsA(StdGroup(g))) == g + Nuls(3 - |g|)
  {
    PadAsAGroup(g);
    DecodeLastGroup(Filled(g));
  }

  /** How many zero octets complete the last group of `n` octets. */
  function ZeroCount(n: nat): (z: nat)
    ensures z < 3
  {
    (3 - n % 3) % 3
  }

  lemma ZeroCountStep(n: nat)
    requires n >= 3
    ensures ZeroCount(n) == ZeroCount(n - 3)
  {
    ModThree(n);
  }

  lemma SplitThree(b: seq<Byte>, tail: seq<Byte>)
    requires |b| >= 3
    ensures b + tail == b[..3] + (b[3..] + tail)
  {
    assert b == b[..3] + b[3..];
  }

  /** The equations that carry decoding past a full first group. */
  lemma FirstGroupFacts(b: seq<Byte>)
    requires |b| > 3
    ensures PadAsA(StdEncode(b)) == StdGroup(b[..3]) + PadAsA(StdEncode(b[3..]))
    ensures StdDecode(StdGroup(b[..3]) + PadAsA(StdEncode(b[3..]))) == b[..3] + StdDecode(PadAsA(StdEncode(b[3..])))
    ensures ZeroCount(|b|) == ZeroCount(|b| - 3)
    ensures b + Nuls(ZeroCount(|b|)) == b[..3] + (b[3..] + Nuls(ZeroCount(|b|)))
  {
    PadAsAOfEncode(b);
    DecodeFullGroup(b[..3], PadAsA(StdEncode(b[3..])));
    ZeroCountStep(|b|);
    SplitThree(b, Nuls(ZeroCount(|b|)));
  }

  /** A full first group passes through decoding ahead of the rest. */
  lemma DecodesPadAsAStep(b: seq<Byte>)
    requires |b| > 3
    requires StdDecode(PadAsA(StdEncode(b[3..]))) == b[3..] + Nuls(ZeroCount(|b| - 3))
    ensures StdDecode(PadAsA(StdEncode(b))) == b + Nuls(ZeroCount(|b|))
  {
    FirstGroupFacts(b);
  }

  /** Decoding the RFC 4648 encoding with its pad characters read as 'A' appends zero octets. */
  lemma {:induction false} DecodesPadAsA(b: seq<Byte>)
    ensures StdDecode(PadAsA(StdEncode(b))) == b + Nuls(ZeroCount(|b|))
    decreases |b|
  {
    if |b| <= 3 {
      DecodesShortPadAsA(b);
    } else {
      DecodesPadAsA(b[3..]);
      DecodesPadAsAStep(b);
    }
  }

  lemma DecodesShortPadAsA(b: seq<Byte>)
    requires |b| <= 3
    ensures StdDecode(PadAsA(StdEncode(b))) == b + Nuls(ZeroCount(|b|))
  {
    ZeroCountShort(|b|);
    if |b| == 0 {
      assert PadAsA(StdEncode(b)) == "" && StdDecode("") == [];
    } else {
      assert StdEncode(b) == StdGroup(b);
      DecodesLastPadAsA(b);
    }
  }

  lemma ZeroCountShort(n: nat)
    requires n <= 3
    ensures ZeroCount(n) == if n == 0 then 0 else 3 - n
  {
  }

  /**
   * A standard decoder reads the encoder's output as the input followed by
   * one or two zero octets when the length is not a multiple of 3.
   */
  lemma AsWrittenDecodesWithNuls(b: seq<Byte>)
    ensures StdDecode(Encoded(Widen(b))) == b + Nuls(ZeroCount(|b|))
  {
    AgreesUpToPadding(b);
    DecodesPadAsA(b);
  }

  /** The one-octet input "a": the encoder gives "YQAA" where RFC 4648 gives "YQ==". */
  lemma SingleOctetExample()
    ensures Encoded(Widen([0x61])) == "YQAA"
    ensures StdEncode([0x61]) == "YQ=="
  {
    AgreesUpToPadding([0x61]);
    DigitsOfFour(Sextets([0x61, 0, 0]));
    assert StdGroup([0x61]) == DigitsOf(Sextets([0x61])) + "==";
    assert Sextets([0x61]) == [24, 16];
  }
}
