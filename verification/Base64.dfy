/** The base64 alphabet and padding of section 4 of RFC 4648, on bytes. */
module Base64 {
  import opened Json

  type Byte = n: int | 0 <= n < 256

  type Sextet = n: int | 0 <= n < 64

  function CharOf(n: Sextet): char {
    if n < 26 then ('A' as int + n) as char
    else if n < 52 then ('a' as int + n - 26) as char
    else if n < 62 then ('0' as int + n - 52) as char
    else if n == 62 then '+'
    else '/'
  }

  function SextetOf(c: char): Option<Sextet> {
    if 'A' <= c <= 'Z' then Some(c as int - 'A' as int)
    else if 'a' <= c <= 'z' then Some(c as int - 'a' as int + 26)
    else if '0' <= c <= '9' then Some(c as int - '0' as int + 52)
    else if c == '+' then Some(62)
    else if c == '/' then Some(63)
    else None
  }

  lemma CharRoundTrip(n: Sextet)
    ensures SextetOf(CharOf(n)) == Some(n) && CharOf(n) != '='
  {
  }

  function Encode(b: seq<Byte>): string {
    if b == [] then ""
    else if |b| == 1 then [CharOf(b[0] / 4), CharOf(b[0] % 4 * 16), '=', '=']
    else if |b| == 2 then [CharOf(b[0] / 4), CharOf(b[0] % 4 * 16 + b[1] / 16), CharOf(b[1] % 16 * 4), '=']
    else Quad(b[0], b[1], b[2]) + Encode(b[3..])
  }

  function Quad(a: Byte, b: Byte, c: Byte): string {
    [CharOf(a / 4), CharOf(a % 4 * 16 + b / 16), CharOf(b % 16 * 4 + c / 64), CharOf(c % 64)]
  }

  /** None when `s` is not in the form `Encode` writes, up to unused bits. */
  function Decode(s: string): Option<seq<Byte>> {
    if s == "" then Some([])
    else if |s| < 4 || SextetOf(s[0]).None? || SextetOf(s[1]).None? then None
    else
      var x, y := SextetOf(s[0]).value, SextetOf(s[1]).value;
      if s[2] == '=' then
        if |s| == 4 && s[3] == '=' then Some([x * 4 + y / 16]) else None
      else if SextetOf(s[2]).None? then None
      else
        var z := SextetOf(s[2]).value;
        if s[3] == '=' then
          if |s| == 4 then Some([x * 4 + y / 16, y % 16 * 16 + z / 4]) else None
        else
          match (SextetOf(s[3]), Decode(s[4..]))
          case (Some(w), Some(rest)) => Some([x * 4 + y / 16, y % 16 * 16 + z / 4, z % 4 * 64 + w] + rest)
          case _ => None
  }

  /** Three bytes are four sextets. */
  lemma Regroup(a: Byte, b: Byte, c: Byte)
    ensures var x, y, z, w := a / 4, a % 4 * 16 + b / 16, b % 16 * 4 + c / 64, c % 64;
            && 0 <= x < 64 && 0 <= y < 64 && 0 <= z < 64 && 0 <= w < 64
            && x * 4 + y / 16 == a && y % 16 * 16 + z / 4 == b && z % 4 * 64 + w == c
  {
  }

  lemma DecodeQuad(x: Sextet, y: Sextet, z: Sextet, w: Sextet, rest: string)
    ensures Decode([CharOf(x), CharOf(y), CharOf(z), CharOf(w)] + rest) ==
            match Decode(rest)
            case Some(bytes) => Some([x * 4 + y / 16, y % 16 * 16 + z / 4, z % 4 * 64 + w] + bytes)
            case None => None
  {
    CharRoundTrip(x);
    CharRoundTrip(y);
    CharRoundTrip(z);
    CharRoundTrip(w);
    assert ([CharOf(x), CharOf(y), CharOf(z), CharOf(w)] + rest)[4..] == rest;
  }

  lemma DecodeThree(a: Byte, b: Byte, c: Byte, rest: string)
    requires Decode(rest).Some?
    ensures Decode(Quad(a, b, c) + rest) == Some([a, b, c] + Decode(rest).value)
  {
    Regroup(a, b, c);
    var x, y, z, w := a / 4, a % 4 * 16 + b / 16, b % 16 * 4 + c / 64, c % 64;
    assert Quad(a, b, c) == [CharOf(x), CharOf(y), CharOf(z), CharOf(w)];
    DecodeQuad(x, y, z, w, rest);
  }

  lemma OneByte(b: Byte)
    ensures Decode(Encode([b])) == Some([b])
  {
    CharRoundTrip(b / 4);
    CharRoundTrip(b % 4 * 16);
  }

  lemma TwoBytes(a: Byte, b: Byte)
    ensures Decode(Encode([a, b])) == Some([a, b])
  {
    CharRoundTrip(a / 4);
    CharRoundTrip(a % 4 * 16 + b / 16);
    CharRoundTrip(b % 16 * 4);
  }

  lemma {:induction false} RoundTrip(b: seq<Byte>)
    ensures Decode(Encode(b)) == Some(b)
  {
    if |b| == 0 {
    } else if |b| == 1 {
      assert b == [b[0]];
      OneByte(b[0]);
    } else if |b| == 2 {
      assert b == [b[0], b[1]];
      TwoBytes(b[0], b[1]);
    } else {
      RoundTrip(b[3..]);
      DecodeThree(b[0], b[1], b[2], Encode(b[3..]));
      assert b == [b[0], b[1], b[2]] + b[3..];
    }
  }

  /** Only padded text of the right length is decoded here, four characters for every three bytes begun. */
  lemma {:induction false} DecodeLength(s: string)
    ensures Decode(s).Some? ==> |s| == (|Decode(s).value| + 2) / 3 * 4
  {
    if |s| < 4 {
    } else {
      DecodeLength(s[4..]);
    }
  }

  /** The alphabet of table 1 of RFC 4648: capitals, small letters and digits in their order, then plus and slash. */
  lemma Alphabet(n: Sextet)
    ensures CharOf(0) == 'A' && CharOf(25) == 'Z' && CharOf(26) == 'a' && CharOf(51) == 'z'
    ensures CharOf(52) == '0' && CharOf(61) == '9' && CharOf(62) == '+' && CharOf(63) == '/'
    ensures n < 61 && n != 25 && n != 51 ==> CharOf(n + 1) as int == CharOf(n) as int + 1
  {
  }

  /** Vectors of section 10 of RFC 4648: "f", "fo" and "foo". */
  lemma Vectors()
    ensures Encode([102]) == "Zg==" && Encode([102, 111]) == "Zm8=" && Encode([102, 111, 111]) == "Zm9v"
  {
    assert [102, 111, 111][3..] == [];
  }
}
