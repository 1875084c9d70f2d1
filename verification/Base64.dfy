/** Base64 text (section 4 of RFC 4648) in canonical form only: padded, with zero bits where the
    padding leaves bits over (section 3.5 of RFC 4648).
 */
module Base64 {
  import opened CJson
  import opened Numerals
  import opened Slices

  // ---------- The alphabet ----------

  function EncodeSextet(v: nat): char
    requires v < 64
  {
    if v < 26 then ('A' as int + v) as char
    else if v < 52 then ('a' as int + v - 26) as char
    else if v < 62 then ('0' as int + v - 52) as char
    else if v == 62 then '+' else '/'
  }

  predicate IsBase64Char(c: char) {
    'A' <= c <= 'Z' || 'a' <= c <= 'z' || '0' <= c <= '9' || c == '+' || c == '/'
  }

  /** The value of an alphabet character, -1 for any other. */
  function DecodeSextet(c: char): (v: int)
    ensures -1 <= v < 64
    ensures v >= 0 <==> IsBase64Char(c)
    ensures v >= 0 ==> EncodeSextet(v) == c
  {
    if 'A' <= c <= 'Z' then c as int - 'A' as int
    else if 'a' <= c <= 'z' then c as int - 'a' as int + 26
    else if '0' <= c <= '9' then c as int - '0' as int + 52
    else if c == '+' then 62
    else if c == '/' then 63
    else -1
  }

  /** Table 1 of RFC 4648. */
  function Alphabet(v: nat): char {
    match v
    case 0 => 'A' case 1 => 'B' case 2 => 'C' case 3 => 'D'
    case 4 => 'E' case 5 => 'F' case 6 => 'G' case 7 => 'H'
    case 8 => 'I' case 9 => 'J' case 10 => 'K' case 11 => 'L'
    case 12 => 'M' case 13 => 'N' case 14 => 'O' case 15 => 'P'
    case 16 => 'Q' case 17 => 'R' case 18 => 'S' case 19 => 'T'
    case 20 => 'U' case 21 => 'V' case 22 => 'W' case 23 => 'X'
    case 24 => 'Y' case 25 => 'Z' case 26 => 'a' case 27 => 'b'
    case 28 => 'c' case 29 => 'd' case 30 => 'e' case 31 => 'f'
    case 32 => 'g' case 33 => 'h' case 34 => 'i' case 35 => 'j'
    case 36 => 'k' case 37 => 'l' case 38 => 'm' case 39 => 'n'
    case 40 => 'o' case 41 => 'p' case 42 => 'q' case 43 => 'r'
    case 44 => 's' case 45 => 't' case 46 => 'u' case 47 => 'v'
    case 48 => 'w' case 49 => 'x' case 50 => 'y' case 51 => 'z'
    case 52 => '0' case 53 => '1' case 54 => '2' case 55 => '3'
    case 56 => '4' case 57 => '5' case 58 => '6' case 59 => '7'
    case 60 => '8' case 61 => '9' case 62 => '+' case _ => '/'
  }

  lemma AlphabetIsStandard(v: nat)
    requires v < 64
    ensures EncodeSextet(v) == Alphabet(v)
  {
  }

  lemma SextetRoundTrip(v: nat)
    requires v < 64
    ensures DecodeSextet(EncodeSextet(v)) == v && Sextet(EncodeSextet(v)) == v
    ensures IsBase64Char(EncodeSextet(v)) && EncodeSextet(v) != '='
  {
  }

  /** The sextet a character adds to its group; '=' and foreign characters add nothing. */
  function Sextet(c: char): (v: nat)
    ensures v < 64
    ensures IsBase64Char(c) ==> EncodeSextet(v) == c
  {
    if DecodeSextet(c) >= 0 then DecodeSextet(c) else 0
  }

  // ---------- One group: 24 bits as three octets or four sextets ----------

  /** The sextets of three octets. */
  function Sextets(x: byte, y: byte, z: byte): (q: (nat, nat, nat, nat))
    ensures q.0 < 64 && q.1 < 64 && q.2 < 64 && q.3 < 64
  {
    (x / 4, x % 4 * 16 + y / 16, y % 16 * 4 + z / 64, z % 64)
  }

  /** The octets of four sextets. */
  function Octets(a: nat, b: nat, c: nat, d: nat): (byte, byte, byte)
    requires a < 64 && b < 64 && c < 64 && d < 64
  {
    (a * 4 + b / 16, b % 16 * 16 + c / 4, c % 4 * 64 + d)
  }

  lemma OctetsOfSextets(x: byte, y: byte, z: byte)
    ensures var q := Sextets(x, y, z); Octets(q.0, q.1, q.2, q.3) == (x, y, z)
  {
    var b, c := x % 4 * 16 + y / 16, y % 16 * 4 + z / 64;
    assert b / 16 == x % 4 && b % 16 == y / 16;
    assert c / 4 == y % 16 && c % 4 == z / 64;
  }

  lemma SextetsOfOctets(a: nat, b: nat, c: nat, d: nat)
    requires a < 64 && b < 64 && c < 64 && d < 64
    ensures var o := Octets(a, b, c, d); Sextets(o.0, o.1, o.2) == (a, b, c, d)
  {
    var x, y, z := a * 4 + b / 16, b % 16 * 16 + c / 4, c % 4 * 64 + d;
    assert x / 4 == a && x % 4 == b / 16;
    assert y / 16 == b % 16 && y % 16 == c / 4;
    assert z / 64 == c % 4 && z % 64 == d;
  }

  /** The octets and the sextets write the same number of 24 bits. */
  lemma GroupIsNumber(x: byte, y: byte, z: byte)
    ensures var q := Sextets(x, y, z); 65536 * x + 256 * y + z == 262144 * q.0 + 4096 * q.1 + 64 * q.2 + q.3
  {
    assert x == x / 4 * 4 + x % 4 && y == y / 16 * 16 + y % 16 && z == z / 64 * 64 + z % 64;
  }

  /** The four characters of a group of which `n` octets are in use. */
  function EncodeGroup(x: byte, y: byte, z: byte, n: nat): (s: string)
    ensures |s| == 4
  {
    var q := Sextets(x, y, z);
    [EncodeSextet(q.0), EncodeSextet(q.1),
     if n > 1 then EncodeSextet(q.2) else '=', if n > 2 then EncodeSextet(q.3) else '=']
  }

  function DecodeGroup(s: string): (b: seq<byte>)
    requires |s| == 4
    ensures |b| == 3
  {
    var o := Octets(Sextet(s[0]), Sextet(s[1]), Sextet(s[2]), Sextet(s[3]));
    [o.0, o.1, o.2]
  }

  /** A group of a valid text: the last `padding` characters are '=', and no bit is lost to them. */
  predicate ValidGroup(s: string, padding: nat)
    requires |s| == 4
  {
    && padding <= 2
    && IsBase64Char(s[0]) && IsBase64Char(s[1])
    && (if padding < 2 then IsBase64Char(s[2]) else s[2] == '=')
    && (if padding < 1 then IsBase64Char(s[3]) else s[3] == '=')
    && (padding == 1 ==> Sextet(s[2]) % 4 == 0)
    && (padding == 2 ==> Sextet(s[1]) % 16 == 0)
  }

  lemma EncodedGroup(x: byte, y: byte, z: byte, n: nat)
    requires 1 <= n <= 3 && (n < 3 ==> z == 0) && (n < 2 ==> y == 0)
    ensures var s := EncodeGroup(x, y, z, n); ValidGroup(s, 3 - n) && DecodeGroup(s) == [x, y, z]
  {
    var q := Sextets(x, y, z);
    UnusedSextets(x, y, z);
    SextetRoundTrip(q.0);
    SextetRoundTrip(q.1);
    SextetRoundTrip(q.2);
    SextetRoundTrip(q.3);
    GroupOfSextets(EncodeGroup(x, y, z, n), x, y, z, n);
  }

  /** Any group whose characters carry the sextets of three octets. */
  lemma GroupOfSextets(s: string, x: byte, y: byte, z: byte, n: nat)
    requires |s| == 4 && 1 <= n <= 3 && (n < 3 ==> z == 0) && (n < 2 ==> y == 0)
    requires (Sextet(s[0]), Sextet(s[1]), Sextet(s[2]), Sextet(s[3])) == Sextets(x, y, z)
    requires IsBase64Char(s[0]) && IsBase64Char(s[1])
    requires if n > 1 then IsBase64Char(s[2]) else s[2] == '='
    requires if n > 2 then IsBase64Char(s[3]) else s[3] == '='
    ensures ValidGroup(s, 3 - n) && DecodeGroup(s) == [x, y, z]
  {
    OctetsOfSextets(x, y, z);
    UnusedSextets(x, y, z);
  }

  lemma UnusedSextets(x: byte, y: byte, z: byte)
    ensures var q := Sextets(x, y, z); (z == 0 ==> q.3 == 0 && q.2 % 4 == 0) && (y == z == 0 ==> q.2 == 0 && q.1 % 16 == 0)
  {
    assert (y % 16 * 4) % 4 == 0 && (x % 4 * 16) % 16 == 0;
  }

  lemma DecodedGroup(s: string, padding: nat)
    requires |s| == 4 && ValidGroup(s, padding)
    ensures var b := DecodeGroup(s);
            && (padding > 0 ==> b[2] == 0) && (padding > 1 ==> b[1] == 0)
            && EncodeGroup(b[0], b[1], b[2], 3 - padding) == s
  {
    var a, b, c, d := Sextet(s[0]), Sextet(s[1]), Sextet(s[2]), Sextet(s[3]);
    var o := Octets(a, b, c, d);
    UnusedOctets(a, b, c, d);
    SextetsOfOctets(a, b, c, d);
    GroupOfChars(s, o.0, o.1, o.2, padding);
  }

  lemma GroupOfChars(s: string, x: byte, y: byte, z: byte, padding: nat)
    requires |s| == 4 && ValidGroup(s, padding)
    requires Sextets(x, y, z) == (Sextet(s[0]), Sextet(s[1]), Sextet(s[2]), Sextet(s[3]))
    ensures EncodeGroup(x, y, z, 3 - padding) == s
  {
    var e := EncodeGroup(x, y, z, 3 - padding);
    assert e[0] == s[0] && e[1] == s[1] && e[2] == s[2] && e[3] == s[3];
  }

  lemma UnusedOctets(a: nat, b: nat, c: nat, d: nat)
    requires a < 64 && b < 64 && c < 64 && d < 64
    ensures var o := Octets(a, b, c, d); (d == 0 && c % 4 == 0 ==> o.2 == 0) && (c == 0 && b % 16 == 0 ==> o.1 == 0)
  {
  }

  // ---------- Whole texts ----------

  function EncodedLen(n: nat): nat {
    (n + 2) / 3 * 4
  }

  lemma EncodedLenStep(n: nat)
    requires n >= 3
    ensures EncodedLen(n) == 4 + EncodedLen(n - 3) && EncodedLen(n) % 4 == 0
  {
  }

  function Encode(b: seq<byte>): (s: string)
    ensures |s| == EncodedLen(|b|) && |s| % 4 == 0
  {
    match |b|
    case 0 => ""
    case 1 => EncodeGroup(b[0], 0, 0, 1)
    case 2 => EncodeGroup(b[0], b[1], 0, 2)
    case _ =>
      EncodedLenStep(|b|);
      EncodeGroup(b[0], b[1], b[2], 3) + Encode(b[3..])
  }

  /** The number of '=' among the last two characters. */
  function Padding(s: string): (p: nat)
    requires |s| >= 2
    ensures p <= 2
  {
    (if s[|s| - 1] == '=' then 1 else 0) + (if s[|s| - 2] == '=' then 1 else 0)
  }

  function DecodedLen(s: string): nat
    requires |s| % 4 == 0
  {
    if s == "" then 0 else |s| / 4 * 3 - Padding(s)
  }

  function Decode(s: string): (b: seq<byte>)
    requires |s| % 4 == 0
    ensures |b| == DecodedLen(s)
  {
    if s == "" then []
    else if |s| == 4 then DecodeGroup(s)[..3 - Padding(s)]
    else
      assert Padding(s[4..]) == Padding(s);
      DecodeGroup(s[..4]) + Decode(s[4..])
  }

  /** The first two characters of every group are in the alphabet: all that the decoder checks. */
  predicate Decodable(s: string)
    requires |s| % 4 == 0
  {
    s == "" || (IsBase64Char(s[0]) && IsBase64Char(s[1]) && Decodable(s[4..]))
  }

  /** The test that every reader applies before decoding. */
  predicate IsValidBase64(s: string) {
    && |s| % 4 == 0
    && (s == [] ||
        (var padding := Padding(s);
         && (forall i :: 0 <= i < |s| - padding ==> IsBase64Char(s[i]))
         && (padding == 1 ==> Sextet(s[|s| - 2]) % 4 == 0)
         && (padding == 2 ==> Sextet(s[|s| - 3]) % 16 == 0)))
  }

  /** A valid text is a run of unpadded groups and one last group. */
  lemma ValidSplit(s: string)
    requires |s| >= 4 && |s| % 4 == 0
    ensures |s| > 4 ==> (IsValidBase64(s) <==> ValidGroup(s[..4], 0) && IsValidBase64(s[4..]))
    ensures |s| == 4 ==> (IsValidBase64(s) <==> ValidGroup(s, Padding(s)))
  {
    if |s| > 4 {
      var tail := s[4..];
      assert Padding(tail) == Padding(s);
      assert forall i :: 0 <= i < |tail| ==> tail[i] == s[i + 4];
      assert forall i :: 4 <= i < |s| ==> s[i] == tail[i - 4];
    }
  }

  /** An unpadded group in front of a valid text. */
  lemma {:induction false} GroupInFront(group: string, tail: string)
    requires |group| == 4 && ValidGroup(group, 0) && IsValidBase64(tail)
    ensures IsValidBase64(group + tail)
    ensures Decodable(tail) ==> Decodable(group + tail)
    ensures Decode(group + tail) == DecodeGroup(group) + Decode(tail)
  {
    var s := group + tail;
    assert s[..4] == group && s[4..] == tail;
    ValidSplit(s);
    if tail == "" {
      assert s == group;
      assert IsBase64Char(s[2]) && IsBase64Char(s[3]);
    }
  }

  /** A last group of `n` octets. */
  lemma {:induction false} LastGroup(group: string, n: nat)
    requires |group| == 4 && 1 <= n <= 3 && ValidGroup(group, 3 - n)
    ensures IsValidBase64(group) && Decodable(group)
    ensures Decode(group) == DecodeGroup(group)[..n]
  {
    assert IsBase64Char(group[0]) && IsBase64Char(group[1]);
    assert n > 1 ==> IsBase64Char(group[2]);
    assert n > 2 ==> IsBase64Char(group[3]);
    assert Padding(group) == 3 - n;
    ValidSplit(group);
    assert group[4..] == "";
  }

  lemma TakeOctets(b: seq<byte>, y: byte, z: byte)
    requires b != []
    requires |b| > 1 ==> y == b[1]
    requires |b| > 2 ==> z == b[2]
    ensures |b| <= 3 ==> [b[0], y, z][..|b|] == b
    ensures |b| >= 3 ==> [b[0], y, z] + b[3..] == b
  {
  }

  lemma {:induction false} DecodeEncodeShort(b: seq<byte>)
    requires 1 <= |b| <= 2
    ensures IsValidBase64(Encode(b)) && Decodable(Encode(b))
    ensures Decode(Encode(b)) == b
  {
    var y := if |b| > 1 then b[1] else 0;
    TakeOctets(b, y, 0);
    EncodedGroup(b[0], y, 0, |b|);
    LastGroup(Encode(b), |b|);
  }

  lemma {:induction false} DecodeEncodeLong(b: seq<byte>)
    requires 3 <= |b|
    requires IsValidBase64(Encode(b[3..])) && Decodable(Encode(b[3..])) && Decode(Encode(b[3..])) == b[3..]
    ensures IsValidBase64(Encode(b)) && Decodable(Encode(b))
    ensures Decode(Encode(b)) == b
  {
    TakeOctets(b, b[1], b[2]);
    EncodedGroup(b[0], b[1], b[2], 3);
    GroupInFront(EncodeGroup(b[0], b[1], b[2], 3), Encode(b[3..]));
  }

  /** decode(encode(b)) == b, for all octet strings, and every encoding is a valid text. */
  lemma {:induction false} DecodeEncode(b: seq<byte>)
    ensures IsValidBase64(Encode(b)) && Decodable(Encode(b))
    ensures Decode(Encode(b)) == b
  {
    if |b| >= 3 {
      DecodeEncode(b[3..]);
      DecodeEncodeLong(b);
    } else if b != [] {
      DecodeEncodeShort(b);
    }
  }

  /** encode(decode(s)) == s, for every text that passes the test. */
  lemma {:induction false} EncodeDecode(s: string)
    requires IsValidBase64(s)
    ensures Decodable(s) && Encode(Decode(s)) == s
  {
    if |s| >= 4 {
      ValidSplit(s);
      if |s| == 4 {
        DecodedGroup(s, Padding(s));
      } else {
        DecodedGroup(s[..4], 0);
        EncodeDecode(s[4..]);
        var b := Decode(s);
        assert b[3..] == Decode(s[4..]);
        assert s == s[..4] + s[4..];
      }
    }
  }

  /** The test accepts exactly the texts that encoding produces. */
  lemma {:induction false} ValidIffEncoded(s: string)
    ensures IsValidBase64(s) <==> exists b: seq<byte> :: s == Encode(b)
  {
    if IsValidBase64(s) {
      EncodeDecode(s);
    }
    forall b: seq<byte> | s == Encode(b)
      ensures IsValidBase64(s)
    {
      DecodeEncode(b);
    }
  }

  // ---------- The buffer-filling loops ----------

  /** The loops shift through a 24-bit word; this is the same regrouping of bits. */
  lemma OctetWord(x: byte, y: byte, z: byte)
    ensures var t := x * 0x1_0000 + y * 0x100 + z;
            Sextets(x, y, z) == (t / 0x4_0000 % 64, t / 0x1000 % 64, t / 64 % 64, t % 64)
  {
    var t := x * 0x1_0000 + y * 0x100 + z;
    var (a, b, c, d) := Sextets(x, y, z);
    WordOf(a, b, c, d);
    assert t == a * 0x4_0000 + b * 0x1000 + c * 64 + d;
  }

  /** The four sextets of a 24-bit word. */
  lemma WordOf(a: nat, b: nat, c: nat, d: nat)
    requires a < 64 && b < 64 && c < 64 && d < 64
    ensures var t := a * 0x4_0000 + b * 0x1000 + c * 64 + d;
            t / 0x4_0000 % 64 == a && t / 0x1000 % 64 == b && t / 64 % 64 == c && t % 64 == d
  {
    var t := a * 0x4_0000 + b * 0x1000 + c * 64 + d;
    assert t / 0x4_0000 == a;
    assert t / 0x1000 == a * 64 + b;
    assert t / 64 == a * 0x1000 + b * 64 + c;
  }

  lemma SextetWord(a: nat, b: nat, c: nat, d: nat)
    requires a < 64 && b < 64 && c < 64 && d < 64
    ensures var t := a * 0x4_0000 + b * 0x1000 + c * 64 + d;
            Octets(a, b, c, d) == (t / 0x1_0000 % 0x100, t / 0x100 % 0x100, t % 0x100)
  {
    var t := a * 0x4_0000 + b * 0x1000 + c * 64 + d;
    var (x, y, z) := Octets(a, b, c, d);
    assert t == x * 0x1_0000 + y * 0x100 + z;
    WordOfOctets(x, y, z);
  }

  /** The three octets of a 24-bit word. */
  lemma WordOfOctets(x: byte, y: byte, z: byte)
    ensures var t := x * 0x1_0000 + y * 0x100 + z;
            t / 0x1_0000 % 0x100 == x && t / 0x100 % 0x100 == y && t % 0x100 == z
  {
    var t := x * 0x1_0000 + y * 0x100 + z;
    assert t / 0x1_0000 == x;
    assert t / 0x100 == x * 0x100 + y;
  }

  /** One round of the encoder: `used` octets are left, the missing ones are zero. */
  method PutGroup(output: array<char>, j: nat, x: byte, y: byte, z: byte, used: nat)
    requires j + 4 <= output.Length
    modifies output
    ensures output[..j + 4] == old(output[..j]) + EncodeGroup(x, y, z, used)
  {
    var triple := x * 0x1_0000 + y * 0x100 + z;
    OctetWord(x, y, z);
    output[j] := EncodeSextet(triple / 0x4_0000 % 64);
    output[j + 1] := EncodeSextet(triple / 0x1000 % 64);
    output[j + 2] := if used > 1 then EncodeSextet(triple / 64 % 64) else '=';
    output[j + 3] := if used > 2 then EncodeSextet(triple % 64) else '=';
  }

  /** Fills `output` with the encoding and a terminator; returns 0 if they do not fit. */
  method Base64Encode(input: seq<byte>, output: array<char>) returns (n: nat)
    modifies output
    ensures n == if output.Length < EncodedLen(|input|) + 1 then 0 else EncodedLen(|input|)
    ensures output.Length >= EncodedLen(|input|) + 1 ==> output[..n] == Encode(input) && output[n] == '\0'
  {
    var needed := EncodedLen(|input|);
    if output.Length < needed + 1 {
      return 0;
    }
    var i, j := 0, 0;
    ghost var rest, done := input, "";
    Whole(Encode(input));
    while i < |input|
      invariant 0 <= i && j == |done| <= needed
      invariant rest == (if i <= |input| then input[i..] else []) && done == output[..j]
      invariant Encoding(input, rest, done)
    {
      var x := input[i];
      var y := if i + 1 < |input| then input[i + 1] else 0;
      var z := if i + 2 < |input| then input[i + 2] else 0;
      EncodingStep(input, rest, done);
      done, rest := done + EncodeGroup(x, y, z, |input| - i), AfterGroup(rest);
      PutGroup(output, j, x, y, z, |input| - i);
      i, j := i + 3, j + 4;
    }
    Whole(done);
    output[j] := '\0';
    return j;
  }

  function AfterGroup(rest: seq<byte>): seq<byte> {
    if |rest| > 3 then rest[3..] else []
  }

  /** What is done and what is left to do. */
  predicate Encoding(input: seq<byte>, rest: seq<byte>, done: string) {
    |done| + EncodedLen(|rest|) == EncodedLen(|input|) && done + Encode(rest) == Encode(input)
  }

  lemma EncodingStep(input: seq<byte>, rest: seq<byte>, done: string)
    requires Encoding(input, rest, done) && rest != []
    ensures var y, z := if |rest| > 1 then rest[1] else 0, if |rest| > 2 then rest[2] else 0;
            Encoding(input, AfterGroup(rest), done + EncodeGroup(rest[0], y, z, |rest|))
    ensures |done| + 4 <= EncodedLen(|input|)
  {
    var y, z := if |rest| > 1 then rest[1] else 0, if |rest| > 2 then rest[2] else 0;
    EncodeStep(rest);
    Associative(done, EncodeGroup(rest[0], y, z, |rest|), Encode(AfterGroup(rest)));
  }

  lemma {:induction false} EncodeStep(rest: seq<byte>)
    requires rest != []
    ensures var y, z := if |rest| > 1 then rest[1] else 0, if |rest| > 2 then rest[2] else 0;
            Encode(rest) == EncodeGroup(rest[0], y, z, |rest|) + Encode(AfterGroup(rest))
  {
  }

  /** One round of the decoder: up to three octets, as long as the output is not full. */
  method TakeGroup(output: array<byte>, start: nat, length: nat, a: nat, b: nat, c: nat, d: nat) returns (j: nat)
    requires a < 64 && b < 64 && c < 64 && d < 64
    requires start <= length <= output.Length
    modifies output
    ensures j == if length - start < 3 then length else start + 3
    ensures var o := Octets(a, b, c, d); output[..j] == old(output[..start]) + [o.0, o.1, o.2][..j - start]
  {
    var triple := a * 0x4_0000 + b * 0x1000 + c * 64 + d;
    SextetWord(a, b, c, d);
    j := start;
    if j < length {
      output[j] := triple / 0x1_0000 % 0x100;
      j := j + 1;
    }
    if j < length {
      output[j] := triple / 0x100 % 0x100;
      j := j + 1;
    }
    if j < length {
      output[j] := triple % 0x100;
      j := j + 1;
    }
  }

  /** Fills `output` with the decoded octets and returns their number, 0 on failure. */
  method Base64Decode(input: string, output: array<byte>) returns (n: nat)
    requires input != []
    modifies output
    ensures n > 0 <==> |input| % 4 == 0 && Decodable(input) && DecodedLen(input) <= output.Length
    ensures n > 0 ==> n == DecodedLen(input) && output[..n] == Decode(input)
  {
    if |input| % 4 != 0 {
      return 0;
    }
    var length := DecodedLen(input);
    if output.Length < length {
      return 0;
    }
    var i, j := 0, 0;
    Whole(input);
    Whole(Decode(input));
    while i < |input|
      invariant 0 <= i <= |input| && 0 <= j <= length <= output.Length
      invariant Decoding(input, input[i..], output[..j])
    {
      var ok;
      ok, i, j := DecodeNext(input, i, output, j, length);
      if !ok {
        return 0;
      }
    }
    Whole(output[..j]);
    return length;
  }

  /** One round of the decoder. */
  method DecodeNext(input: string, i: nat, output: array<byte>, start: nat, length: nat) returns (ok: bool, next: nat, j: nat)
    requires |input| % 4 == 0 && i < |input| && start <= length == DecodedLen(input) <= output.Length
    requires Decoding(input, input[i..], output[..start])
    modifies output
    ensures !ok ==> !Decodable(input)
    ensures ok ==> next == i + 4 <= |input| && j <= length && Decoding(input, input[next..], output[..j])
  {
    DecodingStep(input, input[i..], output[..start]);
    ok, j := DecodeOne(input, i, output, start, length);
    next := i + 4;
    SliceOfSuffix(input, i, 4, 4);
  }

  /** Decodes the group at `i`, unless one of its first two characters is foreign. */
  method DecodeOne(input: string, i: nat, output: array<byte>, start: nat, length: nat) returns (ok: bool, j: nat)
    requires i + 4 <= |input| && start <= length <= output.Length
    modifies output
    ensures ok <==> IsBase64Char(input[i..][0]) && IsBase64Char(input[i..][1])
    ensures ok ==> j == start + |Group(input[i..], length - start)| <= length
    ensures ok ==> output[..j] == old(output[..start]) + Group(input[i..], length - start)
  {
    var a, b := DecodeSextet(input[i]), DecodeSextet(input[i + 1]);
    var c, d := DecodeSextet(input[i + 2]), DecodeSextet(input[i + 3]);
    if a < 0 || b < 0 {
      return false, start;
    }
    SliceOfSuffix(input, i, 4, 4);
    ghost var group := input[i..][..4];
    assert group == [input[i], input[i + 1], input[i + 2], input[i + 3]];
    ok := true;
    j := TakeGroup(output, start, length, a, b, if c >= 0 then c else 0, if d >= 0 then d else 0);
  }

  /** The octets of the first group, as far as there is room. */
  function Group(rest: string, room: nat): seq<byte>
    requires |rest| >= 4
  {
    DecodeGroup(rest[..4])[..if room < 3 then room else 3]
  }

  /** What is done and what is left to do. */
  predicate Decoding(input: string, rest: string, done: seq<byte>)
    requires |input| % 4 == 0
  {
    && |rest| % 4 == 0
    && Decodable(input) == Decodable(rest)
    && |done| + DecodedLen(rest) == DecodedLen(input)
    && done + Decode(rest) == Decode(input)
  }

  lemma {:induction false} DecodingStep(input: string, rest: string, done: seq<byte>)
    requires |input| % 4 == 0 && Decoding(input, rest, done) && rest != ""
    ensures |rest| >= 4 && |done| <= DecodedLen(input)
    ensures IsBase64Char(rest[0]) && IsBase64Char(rest[1]) ==>
              Decoding(input, rest[4..], done + Group(rest, DecodedLen(input) - |done|))
    ensures !(IsBase64Char(rest[0]) && IsBase64Char(rest[1])) ==> !Decodable(input)
  {
    WholeGroups(|rest|, 0);
    DecodeStep(rest);
    Associative(done, Group(rest, DecodedLen(input) - |done|), Decode(rest[4..]));
  }

  lemma WholeGroups(n: nat, i: nat)
    requires n % 4 == 0 && i % 4 == 0 && i < n
    ensures i + 4 <= n && (n - i) % 4 == 0 && (i + 4) % 4 == 0
  {
  }

  lemma {:induction false} DecodeStep(rest: string)
    requires |rest| >= 4 && |rest| % 4 == 0
    ensures var taken := if |rest| == 4 then 3 - Padding(rest) else 3;
            && DecodedLen(rest) == taken + DecodedLen(rest[4..])
            && (|rest| > 4 ==> DecodedLen(rest) >= 3)
            && Decode(rest) == DecodeGroup(rest[..4])[..taken] + Decode(rest[4..])
  {
    assert |rest| == 4 ==> rest[..4] == rest;
    assert |rest| > 4 ==> Padding(rest[4..]) == Padding(rest);
  }

  // ---------- Reading a JSON item ----------

  /** Reads a base64 string into `bytes`. It succeeds exactly on the encodings of the octet strings
      that fit, and stores the octet string that the text encodes. */
  method ItemToBase64Bytes(item: Json, bytes: array<byte>) returns (r: Result<nat>)
    modifies bytes
    ensures r.Ok? ==> r.value <= bytes.Length && item == JString(Encode(bytes[..r.value]))
    ensures r.Err? ==> forall b: seq<byte> :: item == JString(Encode(b)) ==> bytes.Length < |b|
  {
    if !item.JString? {
      return Err(JsonParse);
    }
    var maxChars := (bytes.Length + 2) / 3 * 4;
    var text := item.text;
    if |text| > maxChars {
      return Err(JsonParse);
    }
    if |text| == 0 {
      return Ok(0);
    }
    ValidIffEncoded(text);
    if !IsValidBase64(text) {
      return Err(JsonParse);
    }
    EncodeDecode(text);
    var decoded := Base64Decode(text, bytes);
    if decoded == 0 {
      forall b: seq<byte> | text == Encode(b)
        ensures bytes.Length < |b|
      {
        DecodeEncode(b);
      }
      return Err(JsonParse);
    }
    return Ok(decoded);
  }
}
