/** What the canonical printer's strings and words say: every string can be read back by the rules
    of section 7 of RFC 8259, and no byte is escaped that need not be, or longer than it need be. */
module JsonText {
  import opened Wrappers
  import opened JsonPreflight

  function HexValue(b: byte): Option<nat> {
    if 48 <= b <= 57 then Some(b - 48) else if 97 <= b <= 102 then Some(b - 87) else None
  }

  /** The byte that a two-byte escape stands for. */
  function ShortEscape(b: byte): Option<byte> {
    match b
    case 34 => Some(34)
    case 92 => Some(92)
    case 98 => Some(8)
    case 102 => Some(12)
    case 110 => Some(10)
    case 114 => Some(13)
    case 116 => Some(9)
    case _ => None
  }

  /** Reads the inside of a string: plain bytes, short escapes, and \u00XX. */
  function Unescaped(s: seq<byte>): Option<seq<byte>>
    decreases |s|
  {
    if s == [] then Some([])
    else if s[0] != 92 then if s[0] < 32 || s[0] == 34 then None else Prefixed(s[0], Unescaped(s[1..]))
    else if |s| >= 2 && ShortEscape(s[1]).Some? then Prefixed(ShortEscape(s[1]).value, Unescaped(s[2..]))
    else if |s| >= 6 && s[1..4] == [117, 48, 48] && HexValue(s[4]).Some? && HexValue(s[5]).Some? then
      Prefixed(16 * HexValue(s[4]).value + HexValue(s[5]).value, Unescaped(s[6..]))
    else None
  }

  function Prefixed(b: byte, o: Option<seq<byte>>): Option<seq<byte>> { if o.None? then None else Some([b] + o.value) }

  lemma EscapeReads(b: byte, rest: seq<byte>)
    ensures Unescaped(Escape(b) + rest) == Prefixed(b, Unescaped(rest))
  {
    var e, s := Escape(b), Escape(b) + rest;
    assert s[|e|..] == rest && forall i :: 0 <= i < |e| ==> s[i] == e[i];
    if |e| == 6 { assert s[1..4] == e[1..4] == [117, 48, 48]; }
  }

  /** Reading a printed string gives the string back. */
  lemma {:induction false} EscapedReads(bytes: seq<byte>)
    ensures Unescaped(Escaped(bytes)) == Some(bytes)
  {
    if bytes != [] {
      EscapeReads(bytes[0], Escaped(bytes[1..]));
      EscapedReads(bytes[1..]);
      assert bytes == [bytes[0]] + bytes[1..];
    }
  }

  /** Two bytes for quote, backslash and the five controls with a letter, six for the other controls,
      one for everything else. */
  lemma EscapesAreShortest(b: byte)
    ensures |Escape(b)| == if b in {8, 9, 10, 12, 13, 34, 92} then 2 else if b < 32 then 6 else 1
  {
  }

  predicate Spells(text: seq<byte>, word: string) {
    |text| == |word| && forall i :: 0 <= i < |text| ==> text[i] == word[i] as int
  }

  lemma WordsAreSpelled()
    ensures Spells(WordText(True), "true") && Spells(WordText(False), "false") && Spells(WordText(Null), "null")
    ensures Spells(WordText(NaN), "NaN") && Spells(WordText(Infinity), "Infinity")
  {
  }
}
