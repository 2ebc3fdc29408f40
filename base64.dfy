/** Base64 with the standard alphabet and `=` padding of section 4 of
    RFC 4648, decoded the way Go's `base64.StdEncoding.DecodeString` does it:
    carriage returns and line feeds anywhere in the input are skipped, the
    rest must be whole four-character quanta, padding may only close the last
    quantum, and the unused low bits of a padded quantum are ignored rather
    than rejected. `Encode` is the matching padded encoder; the tool itself
    only decodes, and the encoder is here to state the round trip. */
module Base64 {
  import opened Common

  /** The value of one base64 character. */
  type Sextet = v: int | 0 <= v < 64

  const Pad: char := '='

  predicate IsAlphabetChar(c: char)
  {
    'A' <= c <= 'Z' || 'a' <= c <= 'z' || '0' <= c <= '9' || c == '+' || c == '/'
  }

  predicate IsNewline(c: char)
  {
    c == '\r' || c == '\n'
  }

  /** The character that encodes `v`, by the table of the standard alphabet:
      `A`-`Z` are 0-25, `a`-`z` 26-51, `0`-`9` 52-61, `+` is 62 and `/` 63. */
  function CharOf(v: Sextet): (c: char)
    ensures IsAlphabetChar(c)
  {
    if v < 26 then ('A' as int + v) as char
    else if v < 52 then ('a' as int + (v - 26)) as char
    else if v < 62 then ('0' as int + (v - 52)) as char
    else if v == 62 then '+'
    else '/'
  }

  /** The value of an alphabet character (Go's decode map). */
  function SextetOf(c: char): (v: Sextet)
    requires IsAlphabetChar(c)
    ensures CharOf(v) == c
  {
    if 'A' <= c <= 'Z' then c as int - 'A' as int
    else if 'a' <= c <= 'z' then c as int - 'a' as int + 26
    else if '0' <= c <= '9' then c as int - '0' as int + 52
    else if c == '+' then 62
    else 63
  }

  lemma SextetOfCharOf(v: Sextet)
    ensures SextetOf(CharOf(v)) == v
  {
  }

  /** The three bytes of a quantum whose four characters have values a, b, c, d:
      the 24 bits a:b:c:d cut into three octets. */
  function QuantumBytes(a: Sextet, b: Sextet, c: Sextet, d: Sextet): (r: Bytes)
    ensures |r| == 3
  {
    [a * 4 + b / 16, (b % 16) * 16 + c / 4, (c % 4) * 64 + d]
  }

  /** The input with every carriage return and line feed removed. */
  function StripNewlines(s: string): (r: string)
    ensures forall c <- r :: !IsNewline(c)
    ensures |r| <= |s|
  {
    if |s| == 0 then ""
    else if IsNewline(s[0]) then StripNewlines(s[1..])
    else [s[0]] + StripNewlines(s[1..])
  }

  /** The last quantum: four alphabet characters, three and one `=`, or two
      and `==`. Bits of a padded quantum that no output byte uses are dropped. */
  function DecodeLastQuantum(q: string): (r: Option<Bytes>)
    requires |q| == 4
    ensures r.Some? ==> 1 <= |r.value| <= 3
    ensures r.Some? ==> IsAlphabetChar(q[0]) && IsAlphabetChar(q[1])
  {
    if !IsAlphabetChar(q[0]) || !IsAlphabetChar(q[1]) then None
    else
      var a, b := SextetOf(q[0]), SextetOf(q[1]);
      if IsAlphabetChar(q[2]) && IsAlphabetChar(q[3]) then
        Some(QuantumBytes(a, b, SextetOf(q[2]), SextetOf(q[3])))
      else if IsAlphabetChar(q[2]) && q[3] == Pad then
        Some(QuantumBytes(a, b, SextetOf(q[2]), 0)[..2])
      else if q[2] == Pad && q[3] == Pad then
        Some(QuantumBytes(a, b, 0, 0)[..1])
      else None
  }

  /** Decoding of input already free of line breaks, quantum by quantum. A
      quantum that is not the last one must hold four alphabet characters; a
      trailing partial quantum is an error. */
  function DecodeQuanta(s: string): (r: Option<Bytes>)
    ensures r.Some? ==> |s| % 4 == 0 && |s| / 4 * 3 - 2 <= |r.value| <= |s| / 4 * 3
    decreases |s|
  {
    if |s| == 0 then Some([])
    else if |s| < 4 then None
    else if |s| == 4 then DecodeLastQuantum(s)
    else if IsAlphabetChar(s[0]) && IsAlphabetChar(s[1]) && IsAlphabetChar(s[2]) && IsAlphabetChar(s[3]) then
      match DecodeQuanta(s[4..])
      case None => None
      case Some(rest) =>
        Some(QuantumBytes(SextetOf(s[0]), SextetOf(s[1]), SextetOf(s[2]), SextetOf(s[3])) + rest)
    else None
  }

  /** `base64.StdEncoding.DecodeString`: `None` stands for a `CorruptInputError`. */
  function Decode(s: string): (r: Option<Bytes>)
    ensures r.Some? ==>
      var t := StripNewlines(s);
      |t| % 4 == 0 && |t| / 4 * 3 - 2 <= |r.value| <= |t| / 4 * 3
    ensures StripNewlines(s) == "" ==> r == Some([])
  {
    DecodeQuanta(StripNewlines(s))
  }

  /** The standard padded encoding of `b`. */
  function Encode(b: Bytes): (s: string)
    ensures |s| % 4 == 0
    ensures forall c <- s :: IsAlphabetChar(c) || c == Pad
    decreases |b|
  {
    if |b| == 0 then ""
    else if |b| == 1 then
      [CharOf(b[0] / 4), CharOf((b[0] % 4) * 16), Pad, Pad]
    else if |b| == 2 then
      [CharOf(b[0] / 4), CharOf((b[0] % 4) * 16 + b[1] / 16), CharOf((b[1] % 16) * 4), Pad]
    else EncodeTriple(b[0], b[1], b[2]) + Encode(b[3..])
  }

  /** Cutting the 24 bits of three bytes into four sextets and back again
      gives the three bytes. */
  lemma QuantumOfTriple(x: byte, y: byte, z: byte)
    ensures QuantumBytes(x / 4, (x % 4) * 16 + y / 16, (y % 16) * 4 + z / 64, z % 64) == [x, y, z]
  {
  }

  lemma {:induction false} StripNewlinesKeeps(s: string)
    requires forall c <- s :: !IsNewline(c)
    ensures StripNewlines(s) == s
  {
    if |s| > 0 {
      assert s == [s[0]] + s[1..];
      StripNewlinesKeeps(s[1..]);
    }
  }

  lemma LastQuantumOfOne(x: byte)
    ensures DecodeLastQuantum(Encode([x])) == Some([x])
  {
    var a, b := x / 4, (x % 4) * 16;
    SextetOfCharOf(a);
    SextetOfCharOf(b);
    QuantumOfTriple(x, 0, 0);
    assert Encode([x]) == [CharOf(a), CharOf(b), Pad, Pad];
    assert QuantumBytes(a, b, 0, 0)[..1] == [x];
  }

  lemma LastQuantumOfTwo(x: byte, y: byte)
    ensures DecodeLastQuantum(Encode([x, y])) == Some([x, y])
  {
    var a, b, c := x / 4, (x % 4) * 16 + y / 16, (y % 16) * 4;
    SextetOfCharOf(a);
    SextetOfCharOf(b);
    SextetOfCharOf(c);
    QuantumOfTriple(x, y, 0);
    assert Encode([x, y]) == [CharOf(a), CharOf(b), CharOf(c), Pad];
    assert QuantumBytes(a, b, c, 0)[..2] == [x, y];
  }

  /** The four characters that encode three bytes. */
  function EncodeTriple(x: byte, y: byte, z: byte): (q: string)
    ensures |q| == 4 && forall c <- q :: IsAlphabetChar(c)
  {
    [CharOf(x / 4), CharOf((x % 4) * 16 + y / 16), CharOf((y % 16) * 4 + z / 64), CharOf(z % 64)]
  }

  lemma DecodeTriple(x: byte, y: byte, z: byte)
    ensures var q := EncodeTriple(x, y, z);
      QuantumBytes(SextetOf(q[0]), SextetOf(q[1]), SextetOf(q[2]), SextetOf(q[3])) == [x, y, z]
  {
    SextetOfCharOf(x / 4);
    SextetOfCharOf((x % 4) * 16 + y / 16);
    SextetOfCharOf((y % 16) * 4 + z / 64);
    SextetOfCharOf(z % 64);
    QuantumOfTriple(x, y, z);
  }

  /** A full quantum followed by more input decodes to its three bytes
      followed by the decoding of the rest. */
  lemma DecodeQuantaCons(q: string, rest: string)
    requires |q| == 4 && forall c <- q :: IsAlphabetChar(c)
    requires |rest| > 0
    ensures DecodeQuanta(q + rest)
         == match DecodeQuanta(rest)
            case None => None
            case Some(r) => Some(QuantumBytes(SextetOf(q[0]), SextetOf(q[1]), SextetOf(q[2]), SextetOf(q[3])) + r)
  {
    var s := q + rest;
    assert s[4..] == rest;
    assert s[0] == q[0] && s[1] == q[1] && s[2] == q[2] && s[3] == q[3];
  }

  /** The encoding of three bytes in front of more bytes is the quantum of
      the three followed by the encoding of the rest. */
  lemma EncodeCons(x: byte, y: byte, z: byte, rest: Bytes)
    ensures Encode([x, y, z] + rest) == EncodeTriple(x, y, z) + Encode(rest)
  {
    var b := [x, y, z] + rest;
    assert b[0] == x && b[1] == y && b[2] == z && b[3..] == rest;
  }

  /** The inductive step of the round trip: three bytes in front of a byte
      string whose encoding decodes back. */
  lemma DecodeQuantaEncodeStep(x: byte, y: byte, z: byte, rest: Bytes)
    requires DecodeQuanta(Encode(rest)) == Some(rest)
    ensures DecodeQuanta(Encode([x, y, z] + rest)) == Some([x, y, z] + rest)
  {
    var q := EncodeTriple(x, y, z);
    DecodeTriple(x, y, z);
    EncodeCons(x, y, z, rest);
    if |rest| == 0 {
      assert [x, y, z] + rest == [x, y, z];
      assert q + Encode(rest) == q;
    } else {
      assert |Encode(rest)| > 0;
      DecodeQuantaCons(q, Encode(rest));
    }
  }

  lemma {:induction false} DecodeQuantaEncode(b: Bytes)
    ensures DecodeQuanta(Encode(b)) == Some(b)
    decreases |b|
  {
    if |b| == 1 {
      assert b == [b[0]];
      LastQuantumOfOne(b[0]);
    } else if |b| == 2 {
      assert b == [b[0], b[1]];
      LastQuantumOfTwo(b[0], b[1]);
    } else if |b| >= 3 {
      assert b == [b[0], b[1], b[2]] + b[3..];
      DecodeQuantaEncode(b[3..]);
      DecodeQuantaEncodeStep(b[0], b[1], b[2], b[3..]);
    }
  }

  /** Decoding undoes encoding. */
  lemma DecodeEncode(b: Bytes)
    ensures Decode(Encode(b)) == Some(b)
  {
    StripNewlinesKeeps(Encode(b));
    DecodeQuantaEncode(b);
  }

  /** Line breaks anywhere are skipped: decoding a string is decoding it with
      its carriage returns and line feeds removed. */
  lemma DecodeSkipsNewlines(s: string)
    ensures Decode(s) == Decode(StripNewlines(s))
  {
    StripNewlinesKeeps(StripNewlines(s));
  }

  lemma {:induction false} DecodeQuantaLength(s: string)
    requires |s| % 4 != 0
    ensures DecodeQuanta(s) == None
    decreases |s|
  {
    if |s| > 4 {
      DecodeQuantaLength(s[4..]);
    }
  }

  /** Once line breaks are removed, a length that is not a multiple of four is
      rejected. */
  lemma DecodeRejectsPartialQuantum(s: string)
    requires |StripNewlines(s)| % 4 != 0
    ensures Decode(s) == None
  {
    DecodeQuantaLength(StripNewlines(s));
  }

  lemma {:induction false} DecodeQuantaForeign(s: string, i: nat)
    requires i < |s| && !IsAlphabetChar(s[i]) && s[i] != Pad
    ensures DecodeQuanta(s) == None
    decreases |s|
  {
    if |s| > 4 && i >= 4 {
      DecodeQuantaForeign(s[4..], i - 4);
    }
  }

  lemma {:induction false} StripNewlinesKeepsForeign(s: string, i: nat) returns (j: nat)
    requires i < |s| && !IsNewline(s[i])
    ensures j < |StripNewlines(s)| && StripNewlines(s)[j] == s[i]
  {
    if i == 0 {
      j := 0;
    } else {
      var k := StripNewlinesKeepsForeign(s[1..], i - 1);
      j := if IsNewline(s[0]) then k else k + 1;
    }
  }

  /** A character that is neither in the alphabet, nor padding, nor a line
      break makes the whole input invalid. */
  lemma DecodeRejectsForeignChar(s: string, i: nat)
    requires i < |s| && !IsAlphabetChar(s[i]) && s[i] != Pad && !IsNewline(s[i])
    ensures Decode(s) == None
  {
    var j := StripNewlinesKeepsForeign(s, i);
    DecodeQuantaForeign(StripNewlines(s), j);
  }

  /** Trailing bits are not checked: a quantum `c0 c1 = =` decodes to one
      byte made of the six bits of `c0` and the top two bits of `c1`, so for
      example "AB==" and "AA==" both decode to the byte 0 and decoding is not
      injective. */
  lemma DecodeIgnoresTrailingBits(c0: char, c1: char)
    requires IsAlphabetChar(c0) && IsAlphabetChar(c1)
    ensures Decode([c0, c1, Pad, Pad]) == Some([SextetOf(c0) as int * 4 + SextetOf(c1) as int / 16])
  {
    var q := [c0, c1, Pad, Pad];
    StripNewlinesKeeps(q);
    assert !IsAlphabetChar(Pad);
    var a, b := SextetOf(c0), SextetOf(c1);
    assert DecodeQuanta(q) == DecodeLastQuantum(q) == Some(QuantumBytes(a, b, 0, 0)[..1]);
    var r: byte := a as int * 4 + b as int / 16;
    assert QuantumBytes(a, b, 0, 0)[..1] == [r];
  }
}
