/** A cursor is a position in a list, written as JSON and then in base64 with the URL-safe
    alphabet and without padding (RFC 4648, sections 3.2 and 5; `encode_cursor` and
    `decode_cursor` in app/infrastructure/db/repositories.py). */
module Cursors {
  import opened Wrappers

  type Byte = n: nat | n < 256

  // --- the alphabet -----------------------------------------------------------------

  predicate UrlSafe(c: char) {
    'A' <= c <= 'Z' || 'a' <= c <= 'z' || '0' <= c <= '9' || c == '-' || c == '_'
  }

  function Digit(v: nat): (c: char)
    requires v < 64
    ensures UrlSafe(c)
  {
    if v < 26 then ('A' as int + v) as char
    else if v < 52 then ('a' as int + v - 26) as char
    else if v < 62 then ('0' as int + v - 52) as char
    else if v == 62 then '-'
    else '_'
  }

  function Value(c: char): (v: Option<nat>)
    ensures v.Some? <==> UrlSafe(c)
    ensures v.Some? ==> v.value < 64
  {
    if 'A' <= c <= 'Z' then Some(c as int - 'A' as int)
    else if 'a' <= c <= 'z' then Some(c as int - 'a' as int + 26)
    else if '0' <= c <= '9' then Some(c as int - '0' as int + 52)
    else if c == '-' then Some(62)
    else if c == '_' then Some(63)
    else None
  }

  lemma ValueOfDigit(v: nat)
    requires v < 64
    ensures Value(Digit(v)) == Some(v)
  {}

  // --- base64 with padding ----------------------------------------------------------

  const PAD := '='

  function Four(x: Byte, y: Byte, z: Byte): (s: string)
    ensures |s| == 4
  {
    [Digit(x / 4), Digit(x % 4 * 16 + y / 16), Digit(y % 16 * 4 + z / 64), Digit(z % 64)]
  }

  /** A short last group: its missing bytes count as zero and their digits are pads. */
  function Encode(b: seq<Byte>): string {
    if b == [] then
      []
    else if |b| == 1 then
      Four(b[0], 0, 0)[..2] + [PAD, PAD]
    else if |b| == 2 then
      Four(b[0], b[1], 0)[..3] + [PAD]
    else
      Four(b[0], b[1], b[2]) + Encode(b[3..])
  }

  /** Three bytes from four digits; fewer when the last ones are padding. */
  function Quantum(s: string): Option<seq<Byte>>
    requires |s| == 4
  {
    var x, y, z, t := Value(s[0]), Value(s[1]), Value(s[2]), Value(s[3]);
    if x.None? || y.None? then None
    else if z.None? then if s[2..] == [PAD, PAD] then Some([x.value * 4 + y.value / 16]) else None
    else
      var two := [x.value * 4 + y.value / 16, y.value % 16 * 16 + z.value / 4];
      if t.None? then if s[3] == PAD then Some(two) else None
      else Some(two + [z.value % 4 * 64 + t.value])
  }

  function Decode(s: string): Option<seq<Byte>> {
    if s == [] then Some([])
    else if |s| < 4 then None
    else
      var first, rest := Quantum(s[..4]), Decode(s[4..]);
      if first.None? || rest.None? then None else Some(first.value + rest.value)
  }

  // --- without padding --------------------------------------------------------------

  /** `rstrip("=")`. */
  function Unpadded(s: string): string {
    if s != [] && s[|s| - 1] == PAD then Unpadded(s[..|s| - 1]) else s
  }

  function Pads(n: nat): (s: string)
    ensures |s| == n
  {
    seq(n, i requires 0 <= i < n => PAD)
  }

  /** As many pads as the length is short of a multiple of four. */
  function Repadded(s: string): string {
    s + Pads(-|s| % 4)
  }

  function Pack(b: seq<Byte>): string {
    Unpadded(Encode(b))
  }

  function Unpack(s: string): Option<seq<Byte>> {
    Decode(Repadded(s))
  }

  // --- round trips ------------------------------------------------------------------

  lemma Regrouped(x: Byte, y: Byte, z: Byte)
    ensures x / 4 * 4 + (x % 4 * 16 + y / 16) / 16 == x
    ensures (x % 4 * 16 + y / 16) % 16 * 16 + (y % 16 * 4 + z / 64) / 4 == y
    ensures (y % 16 * 4 + z / 64) % 4 * 64 + z % 64 == z
  {}

  lemma ValuesOfFour(x: Byte, y: Byte, z: Byte)
    ensures var s := Four(x, y, z);
            && Value(s[0]) == Some(x / 4)
            && Value(s[1]) == Some(x % 4 * 16 + y / 16)
            && Value(s[2]) == Some(y % 16 * 4 + z / 64)
            && Value(s[3]) == Some(z % 64)
  {
    ValueOfDigit(x / 4);
    ValueOfDigit(x % 4 * 16 + y / 16);
    ValueOfDigit(y % 16 * 4 + z / 64);
    ValueOfDigit(z % 64);
  }

  lemma QuantumOfFour(x: Byte, y: Byte, z: Byte)
    ensures Quantum(Four(x, y, z)) == Some([x, y, z])
  {
    ValuesOfFour(x, y, z);
    Regrouped(x, y, z);
    assert [x, y] + [z] == [x, y, z];
  }

  lemma QuantumOfThree(x: Byte, y: Byte)
    ensures Quantum(Four(x, y, 0)[..3] + [PAD]) == Some([x, y])
  {
    ValuesOfFour(x, y, 0);
    Regrouped(x, y, 0);
  }

  lemma QuantumOfTwo(x: Byte)
    ensures Quantum(Four(x, 0, 0)[..2] + [PAD, PAD]) == Some([x])
  {
    ValuesOfFour(x, 0, 0);
    Regrouped(x, 0, 0);
    assert (Four(x, 0, 0)[..2] + [PAD, PAD])[2..] == [PAD, PAD];
  }

  lemma DecodeOnwards(first: string, b: seq<Byte>, rest: string, c: seq<Byte>)
    requires |first| == 4 && Quantum(first) == Some(b) && Decode(rest) == Some(c)
    ensures Decode(first + rest) == Some(b + c)
  {
    assert (first + rest)[..4] == first && (first + rest)[4..] == rest;
  }

  lemma DecodeOnly(last: string, b: seq<Byte>)
    requires |last| == 4 && Quantum(last) == Some(b)
    ensures Decode(last) == Some(b)
  {
    DecodeOnwards(last, b, [], []);
    assert last + [] == last && b + [] == b;
  }

  lemma EncodingOfOne(x: Byte)
    ensures |Encode([x])| == 4 && Quantum(Encode([x])) == Some([x])
  {
    QuantumOfTwo(x);
  }

  lemma EncodingOfTwo(x: Byte, y: Byte)
    ensures |Encode([x, y])| == 4 && Quantum(Encode([x, y])) == Some([x, y])
  {
    QuantumOfThree(x, y);
  }

  lemma ShortEncoding(b: seq<Byte>)
    requires 1 <= |b| <= 2
    ensures |Encode(b)| == 4 && Quantum(Encode(b)) == Some(b)
  {
    if |b| == 1 {
      EncodingOfOne(b[0]);
      assert b == [b[0]];
    } else {
      EncodingOfTwo(b[0], b[1]);
      assert b == [b[0], b[1]];
    }
  }

  lemma FourMore(n: int)
    requires n % 4 == 0
    ensures (4 + n) % 4 == 0
  {}

  lemma {:induction false} WholeQuanta(b: seq<Byte>)
    ensures |Encode(b)| % 4 == 0
  {
    if |b| > 2 {
      WholeQuanta(b[3..]);
      FourMore(|Encode(b[3..])|);
    }
  }

  lemma {:induction false} DecodeUndoesEncode(b: seq<Byte>)
    ensures Decode(Encode(b)) == Some(b)
  {
    if 1 <= |b| <= 2 {
      ShortEncoding(b);
      DecodeOnly(Encode(b), b);
    } else if |b| > 2 {
      QuantumOfFour(b[0], b[1], b[2]);
      DecodeUndoesEncode(b[3..]);
      DecodeOnwards(Four(b[0], b[1], b[2]), [b[0], b[1], b[2]], Encode(b[3..]), b[3..]);
      assert b == [b[0], b[1], b[2]] + b[3..];
    }
  }

  /** Only pads are stripped, and at most two: the digits all stay. */
  lemma {:induction false} EncodedIsDigitsThenPads(b: seq<Byte>)
    returns (digits: string, n: nat)
    ensures Encode(b) == digits + Pads(n) && n <= 2
    ensures forall i | 0 <= i < |digits| :: UrlSafe(digits[i])
    ensures b != [] ==> digits != []
  {
    if b == [] {
      digits, n := [], 0;
    } else if |b| == 1 {
      digits, n := Four(b[0], 0, 0)[..2], 2;
    } else if |b| == 2 {
      digits, n := Four(b[0], b[1], 0)[..3], 1;
    } else {
      var first := Four(b[0], b[1], b[2]);
      digits, n := EncodedIsDigitsThenPads(b[3..]);
      assert first + (digits + Pads(n)) == (first + digits) + Pads(n);
      digits := first + digits;
    }
  }

  lemma {:induction false} StrippingPads(digits: string, n: nat)
    requires digits == [] || digits[|digits| - 1] != PAD
    ensures Unpadded(digits + Pads(n)) == digits
  {
    if n == 0 {
      assert digits + Pads(0) == digits;
    } else {
      StrippingPads(digits, n - 1);
      assert (digits + Pads(n))[..|digits| + n - 1] == digits + Pads(n - 1);
    }
  }

  lemma ShortOfFour(digits: int, n: int)
    requires 0 <= n <= 2 && (digits + n) % 4 == 0
    ensures -digits % 4 == n
  {}

  lemma PadsComeBack(digits: string, n: nat)
    requires n <= 2 && |digits + Pads(n)| % 4 == 0
    ensures Repadded(digits) == digits + Pads(n)
  {
    ShortOfFour(|digits|, n);
  }

  /** Packed bytes fit a URL as they are, and unpack to themselves. */
  lemma UnpackUndoesPack(b: seq<Byte>)
    ensures forall i | 0 <= i < |Pack(b)| :: UrlSafe(Pack(b)[i])
    ensures b != [] ==> Pack(b) != []
    ensures Unpack(Pack(b)) == Some(b)
  {
    DecodeUndoesEncode(b);
    WholeQuanta(b);
    var digits, n := EncodedIsDigitsThenPads(b);
    StrippingPads(digits, n);
    PadsComeBack(digits, n);
  }

  // --- cursors ----------------------------------------------------------------------

  /** The JSON framing and the text of the sort field, with the parser that reads them back. */
  datatype Framing<!T> = Framing(write: T -> seq<Byte>, read: seq<Byte> -> Option<T>)

  ghost predicate Inverts<T(!new)>(f: Framing<T>) {
    forall t :: f.read(f.write(t)) == Some(t) && f.write(t) != []
  }

  function EncodeCursor<T>(f: Framing<T>, position: T): string {
    Pack(f.write(position))
  }

  function DecodeCursor<T>(f: Framing<T>, cursor: string): Option<T> {
    var raw := Unpack(cursor);
    if raw.None? then None else f.read(raw.value)
  }

  /** A cursor decodes to the position it was made from; it is never empty, and two positions
      never share one. */
  lemma CursorRoundTrips<T(!new)>(f: Framing<T>, position: T)
    requires Inverts(f)
    ensures EncodeCursor(f, position) != [] && DecodeCursor(f, EncodeCursor(f, position)) == Some(position)
  {
    UnpackUndoesPack(f.write(position));
  }
}
