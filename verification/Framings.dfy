/** A framing of list positions that reads back what it writes. The listing theorems hold of any
    such framing; that there is one keeps them from being empty. */
module Framings {
  import opened Wrappers
  import opened Cursors
  import opened Listing

  /** `n` ones and a zero. */
  function Tally(n: nat): seq<Byte> {
    if n == 0 then [0] else [1] + Tally(n - 1)
  }

  /** The number tallied first, and the bytes after it. */
  function ReadTally(b: seq<Byte>): Option<(nat, seq<Byte>)> {
    if b == [] then None
    else if b[0] == 0 then Some((0, b[1..]))
    else
      var rest := ReadTally(b[1..]);
      if rest.None? then None else Some((rest.value.0 + 1, rest.value.1))
  }

  lemma {:induction false} TallyReadsBack(n: nat, rest: seq<Byte>)
    ensures ReadTally(Tally(n) + rest) == Some((n, rest))
  {
    var b := Tally(n) + rest;
    if n == 0 {
      assert b[1..] == rest;
    } else {
      TallyReadsBack(n - 1, rest);
      assert b[1..] == Tally(n - 1) + rest;
    }
  }

  predicate CodePoint(n: nat) {
    n < 0xD800 || 0xE000 <= n < 0x11_0000
  }

  /** Each character of the text tallied after a one; a zero ends it. */
  function Spell(s: string): seq<Byte> {
    if s == [] then [0] else [1] + Tally(s[0] as int) + Spell(s[1..])
  }

  function ReadText(b: seq<Byte>): Option<(string, seq<Byte>)>
    decreases |b|
  {
    if b == [] then None
    else if b[0] == 0 then Some(([], b[1..]))
    else
      var first := ReadTally(b[1..]);
      if first.None? || !CodePoint(first.value.0) || |first.value.1| >= |b| then None
      else
        var rest := ReadText(first.value.1);
        if rest.None? then None else Some(([first.value.0 as char] + rest.value.0, rest.value.1))
  }

  lemma LetterReadsBack(c: char, s: string, more: seq<Byte>, rest: seq<Byte>)
    requires ReadText(more) == Some((s, rest))
    ensures ReadText([1] + Tally(c as int) + more) == Some(([c] + s, rest))
  {
    var b := [1] + Tally(c as int) + more;
    TallyReadsBack(c as int, more);
    assert b[1..] == Tally(c as int) + more;
  }

  lemma {:induction false} TextReadsBack(s: string, rest: seq<Byte>)
    ensures ReadText(Spell(s) + rest) == Some((s, rest))
  {
    var b := Spell(s) + rest;
    if s == [] {
      assert b[1..] == rest;
    } else {
      TextReadsBack(s[1..], rest);
      LetterReadsBack(s[0], s[1..], Spell(s[1..]) + rest, rest);
      assert b == [1] + Tally(s[0] as int) + (Spell(s[1..]) + rest);
      assert s == [s[0]] + s[1..];
    }
  }

  function WritePosition(p: Position): seq<Byte> {
    match p.value
    case Number(n) => if n >= 0 then [0] + Tally(n) + Tally(p.id) else [1] + Tally(-n) + Tally(p.id)
    case Words(s) => [2] + Spell(s) + Tally(p.id)
  }

  function ReadId(value: SortValue, b: seq<Byte>): Option<Position> {
    var id := ReadTally(b);
    if id.None? then None else Some(Position(value, id.value.0))
  }

  function ReadPosition(b: seq<Byte>): Option<Position> {
    if b == [] then None
    else if b[0] == 2 then
      var text := ReadText(b[1..]);
      if text.None? then None else ReadId(Words(text.value.0), text.value.1)
    else
      var n := ReadTally(b[1..]);
      if n.None? then None else ReadId(Number(if b[0] == 0 then n.value.0 else 0 - n.value.0), n.value.1)
  }

  lemma PositionReadsBack(p: Position)
    ensures ReadPosition(WritePosition(p)) == Some(p)
  {
    var b := WritePosition(p);
    TallyReadsBack(p.id, []);
    assert Tally(p.id) + [] == Tally(p.id);
    match p.value {
      case Number(n) =>
        TallyReadsBack(if n >= 0 then n else -n, Tally(p.id));
        assert b[1..] == Tally(if n >= 0 then n else -n) + Tally(p.id);
      case Words(s) =>
        TextReadsBack(s, Tally(p.id));
        assert b[1..] == Spell(s) + Tally(p.id);
    }
  }

  /** Some framing satisfies what the listing theorems ask of it. */
  lemma SomeFramingInverts() returns (f: Framing<Position>)
    ensures Inverts(f)
  {
    f := Framing(WritePosition, ReadPosition);
    forall p: Position ensures f.read(f.write(p)) == Some(p) && f.write(p) != [] {
      PositionReadsBack(p);
    }
  }
}
