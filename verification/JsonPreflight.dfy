/** The structural pre-scan of JSON text, and the values, the canonical printer (compact separators,
    escapes as in section 7 of RFC 8259) and the recursive sizes it is to be compared with. */
module JsonPreflight {
  import opened Wrappers

  type byte = x: int | 0 <= x < 256

  datatype Limits = Limits(bytes: nat, depth: nat, nodes: nat, text: nat, key: nat, number: nat)

  const QUOTE: byte := 34
  const BACKSLASH: byte := 92
  const COMMA: byte := 44
  const COLON: byte := 58
  const LBRACKET: byte := 91
  const RBRACKET: byte := 93
  const LBRACE: byte := 123
  const RBRACE: byte := 125
  const NEWLINE: byte := 10

  predicate Space(b: byte) { b == 32 || b == 9 || b == 13 || b == 10 }
  predicate Opens(b: byte) { b == LBRACE || b == LBRACKET }
  predicate Closes(b: byte) { b == RBRACE || b == RBRACKET }
  predicate Delimiter(b: byte) { Opens(b) || Closes(b) || b == COMMA || b == COLON || Space(b) }
  predicate Numeric(b: byte) { b == 45 || 48 <= b <= 57 }

  // ---------- The scan, as a function of the text that remains ----------

  /** The bytes before the closing quote. */
  function TextLength(s: seq<byte>, escaped: bool): (r: Option<nat>)
    ensures r.Some? ==> r.value < |s|
    decreases |s|
  {
    if s == [] then None
    else if !escaped && s[0] == QUOTE then Some(0)
    else Longer(TextLength(s[1..], !escaped && s[0] == BACKSLASH), 1)
  }

  function Longer(o: Option<nat>, k: nat): Option<nat> { if o.None? then None else Some(o.value + k) }

  /** The bytes before the next delimiter. */
  function WordLength(s: seq<byte>): (r: nat)
    ensures r <= |s|
    decreases |s|
  {
    if s == [] || Delimiter(s[0]) then 0 else 1 + WordLength(s[1..])
  }

  /** A colon is the next thing after white space, so the string just read was a key. */
  predicate KeyAhead(s: seq<byte>)
    decreases |s|
  {
    s != [] && if Space(s[0]) then KeyAhead(s[1..]) else s[0] == COLON
  }

  /** The scan accepts the remaining text, at this depth and with this many nodes so far. */
  predicate Accepts(s: seq<byte>, depth: nat, nodes: nat, lim: Limits)
    decreases |s|
  {
    if s == [] then depth == 0
    else
      var b, rest := s[0], s[1..];
      if Space(b) then Accepts(rest, depth, nodes, lim)
      else if Opens(b) then depth + 1 <= lim.depth && nodes + 1 <= lim.nodes && Accepts(rest, depth + 1, nodes + 1, lim)
      else if Closes(b) then depth >= 1 && Accepts(rest, depth - 1, nodes, lim)
      else if b == QUOTE then
        var n := TextLength(rest, false);
        n.Some? &&
        var after := rest[n.value + 1..];
        n.value <= (if KeyAhead(after) then lim.key else lim.text) && nodes + 1 <= lim.nodes && Accepts(after, depth, nodes + 1, lim)
      else if b == COLON || b == COMMA then Accepts(rest, depth, nodes, lim)
      else
        var n := 1 + WordLength(rest);
        nodes + 1 <= lim.nodes && (Numeric(b) ==> n <= lim.number) && Accepts(s[n..], depth, nodes + 1, lim)
  }

  // ---------- The scan, as the loop it is ----------

  method SkipText(content: seq<byte>, start: nat) returns (index: nat)
    requires start <= |content|
    ensures start <= index <= |content|
    ensures TextLength(content[start..], false) == if index < |content| then Some(index - start) else None
  {
    index := start;
    var escaped := false;
    while index < |content|
      invariant start <= index <= |content|
      invariant TextLength(content[start..], false) == Longer(TextLength(content[index..], escaped), index - start)
    {
      assert content[index..][1..] == content[index + 1..];
      var current := content[index];
      if escaped {
        escaped := false;
      } else if current == BACKSLASH {
        escaped := true;
      } else if current == QUOTE {
        break;
      }
      index := index + 1;
    }
    assert content[|content|..] == [];
  }

  method ColonAhead(content: seq<byte>, start: nat) returns (key: bool)
    requires start <= |content|
    ensures key == KeyAhead(content[start..])
  {
    var ahead := start;
    while ahead < |content| && Space(content[ahead])
      invariant start <= ahead <= |content| && KeyAhead(content[start..]) == KeyAhead(content[ahead..])
    {
      assert content[ahead..][1..] == content[ahead + 1..];
      ahead := ahead + 1;
    }
    key := ahead < |content| && content[ahead] == COLON;
  }

  method SkipWord(content: seq<byte>, start: nat) returns (index: nat)
    requires start <= |content|
    ensures start <= index <= |content| && index - start == WordLength(content[start..])
  {
    index := start;
    while index < |content| && !Delimiter(content[index])
      invariant start <= index <= |content|
      invariant WordLength(content[start..]) == index - start + WordLength(content[index..])
    {
      assert content[index..][1..] == content[index + 1..];
      index := index + 1;
    }
  }

  lemma Suffixes(content: seq<byte>, index: nat, n: nat)
    requires index + n <= |content|
    ensures content[index..][n..] == content[index + n..]
  {
  }

  /** One turn of the scan on a single byte that is neither text nor word. */
  lemma MarkStep(content: seq<byte>, index: nat, depth: nat, nodes: nat, lim: Limits)
    requires index < |content|
    ensures var b, rest := content[index], content[index + 1..];
            && (Space(b) ==> Accepts(content[index..], depth, nodes, lim) == Accepts(rest, depth, nodes, lim))
            && (Opens(b) ==> Accepts(content[index..], depth, nodes, lim) ==
                               (depth + 1 <= lim.depth && nodes + 1 <= lim.nodes && Accepts(rest, depth + 1, nodes + 1, lim)))
            && (Closes(b) ==> Accepts(content[index..], depth, nodes, lim) == (depth >= 1 && Accepts(rest, depth - 1, nodes, lim)))
            && (b == COLON || b == COMMA ==> Accepts(content[index..], depth, nodes, lim) == Accepts(rest, depth, nodes, lim))
  {
    Suffixes(content, index, 1);
    assert content[index..][0] == content[index];
  }

  lemma TextStep(content: seq<byte>, index: nat, close: nat, depth: nat, nodes: nat, lim: Limits)
    requires index < |content| && content[index] == QUOTE && index < close <= |content|
    requires TextLength(content[index + 1..], false) == if close < |content| then Some(close - (index + 1)) else None
    ensures Accepts(content[index..], depth, nodes, lim) ==
            (close < |content| && nodes + 1 <= lim.nodes && Accepts(content[close + 1..], depth, nodes + 1, lim) &&
             close - index - 1 <= if KeyAhead(content[close + 1..]) then lim.key else lim.text)
  {
    hide KeyAhead, TextLength;
    Suffixes(content, index, 1);
    assert content[index..][0] == content[index];
    if close < |content| { Suffixes(content, index + 1, close - index); }
  }

  lemma WordStep(content: seq<byte>, index: nat, end: nat, depth: nat, nodes: nat, lim: Limits)
    requires index < |content| && index + 1 <= end <= |content| && end - (index + 1) == WordLength(content[index + 1..])
    requires !Delimiter(content[index]) && content[index] != QUOTE
    ensures Accepts(content[index..], depth, nodes, lim) ==
            (nodes + 1 <= lim.nodes && (Numeric(content[index]) ==> end - index <= lim.number)
             && Accepts(content[end..], depth, nodes + 1, lim))
  {
    hide WordLength;
    Suffixes(content, index, 1);
    Suffixes(content, index, end - index);
    assert content[index..][0] == content[index];
  }

  /** The index grows with every turn of the loop, so the scan ends. */
  method Preflight(content: seq<byte>, lim: Limits) returns (ok: bool)
    ensures ok <==> |content| <= lim.bytes && Accepts(content, 0, 0, lim)
  {
    hide Accepts, KeyAhead, TextLength, WordLength;
    if |content| > lim.bytes {
      return false;
    }
    var depth, nodes, index := 0, 0, 0;
    assert content[0..] == content;
    while index < |content|
      invariant index <= |content| && Accepts(content, 0, 0, lim) == Accepts(content[index..], depth, nodes, lim)
      decreases |content| - index
    {
      var value := content[index];
      MarkStep(content, index, depth, nodes, lim);
      if Space(value) {
        index := index + 1;
      } else if Opens(value) {
        depth, nodes := depth + 1, nodes + 1;
        if depth > lim.depth || nodes > lim.nodes {
          return false;
        }
        index := index + 1;
      } else if Closes(value) {
        if depth == 0 {
          return false;
        }
        depth := depth - 1;
        index := index + 1;
      } else if value == QUOTE {
        var close := SkipText(content, index + 1);
        TextStep(content, index, close, depth, nodes, lim);
        if close >= |content| {
          return false;
        }
        var size := close - index - 1;
        var key := ColonAhead(content, close + 1);
        nodes := nodes + 1;
        if size > (if key then lim.key else lim.text) || nodes > lim.nodes {
          return false;
        }
        index := close + 1;
      } else if value == COLON || value == COMMA {
        index := index + 1;
      } else {
        nodes := nodes + 1;
        var end := SkipWord(content, index + 1);
        WordStep(content, index, end, depth, nodes - 1, lim);
        if nodes > lim.nodes || (Numeric(value) && end - index > lim.number) {
          return false;
        }
        index := end;
      }
    }
    NothingRemains(content, depth, nodes, lim);
    ok := depth == 0;
  }

  lemma NothingRemains(content: seq<byte>, depth: nat, nodes: nat, lim: Limits)
    ensures Accepts(content[|content|..], depth, nodes, lim) <==> depth == 0
  {
    assert content[|content|..] == [];
  }

  // ---------- Values and the canonical printer ----------

  datatype Word = True | False | Null | NaN | Infinity

  /** Strings are their UTF-8 bytes; a number is its literal; members come in the printed order. */
  datatype Json =
    | Literal(word: Word)
    | Number(text: seq<byte>)
    | Text(bytes: seq<byte>)
    | Array(items: seq<Json>)
    | Object(members: seq<Member>)

  datatype Member = Member(key: seq<byte>, value: Json)

  function WordText(w: Word): seq<byte> {
    match w
    case True => [116, 114, 117, 101]
    case False => [102, 97, 108, 115, 101]
    case Null => [110, 117, 108, 108]
    case NaN => [78, 97, 78]
    case Infinity => [73, 110, 102, 105, 110, 105, 116, 121]
  }

  /** The bytes of a number literal: digits, letters, plus, minus and point. */
  predicate InNumeral(b: byte) { b in {43, 45, 46} || 48 <= b <= 57 || 65 <= b <= 90 || 97 <= b <= 122 }

  /** A number literal starts with a minus sign or a digit. */
  predicate IsNumeral(text: seq<byte>) {
    text != [] && (text[0] == 45 || 48 <= text[0] <= 57) && forall i :: 0 <= i < |text| ==> InNumeral(text[i])
  }

  predicate WellFormed(v: Json) {
    match v
    case Literal(_) => true
    case Text(_) => true
    case Number(text) => IsNumeral(text)
    case Array(items) => forall i :: 0 <= i < |items| ==> WellFormed(items[i])
    case Object(members) => forall i :: 0 <= i < |members| ==> WellFormed(members[i].value)
  }

  function Hex(n: nat): byte
    requires n < 16
  {
    if n < 10 then 48 + n else 87 + n
  }

  /** The printed form of one byte of a string. The printer names its bytes by number, so that the
      marks of the scan above are checked against them. */
  function Escape(b: byte): seq<byte> {
    if b == 34 then [92, 34]
    else if b == 92 then [92, 92]
    else if b == 10 then [92, 110]
    else if b == 13 then [92, 114]
    else if b == 9 then [92, 116]
    else if b == 12 then [92, 102]
    else if b == 8 then [92, 98]
    else if b < 32 then [92, 117, 48, 48, Hex(b / 16), Hex(b % 16)]
    else [b]
  }

  function Escaped(bytes: seq<byte>): seq<byte> {
    if bytes == [] then [] else Escape(bytes[0]) + Escaped(bytes[1..])
  }

  function Quoted(bytes: seq<byte>): seq<byte> { [34] + Escaped(bytes) + [34] }

  function Print(v: Json): seq<byte> {
    match v
    case Literal(word) => WordText(word)
    case Number(text) => text
    case Text(bytes) => Quoted(bytes)
    case Array(items) => [91] + PrintItems(items) + [93]
    case Object(members) => [123] + PrintMembers(members) + [125]
  }

  function PrintItems(items: seq<Json>): seq<byte> {
    if items == [] then []
    else Print(items[0]) + (if |items| == 1 then [] else [44] + PrintItems(items[1..]))
  }

  function PrintMembers(members: seq<Member>): seq<byte> {
    if members == [] then []
    else
      Quoted(members[0].key) + [58] + Print(members[0].value)
      + (if |members| == 1 then [] else [44] + PrintMembers(members[1..]))
  }

  function Canonical(v: Json): seq<byte> { Print(v) + [10] }

  // ---------- Sizes computed on the value ----------

  function Max(a: nat, b: nat): nat { if a >= b then a else b }

  function Depth(v: Json): nat {
    match v
    case Array(items) => 1 + DepthOfItems(items)
    case Object(members) => 1 + DepthOfMembers(members)
    case _ => 0
  }

  function DepthOfItems(items: seq<Json>): nat {
    if items == [] then 0 else Max(Depth(items[0]), DepthOfItems(items[1..]))
  }

  function DepthOfMembers(members: seq<Member>): nat {
    if members == [] then 0 else Max(Depth(members[0].value), DepthOfMembers(members[1..]))
  }

  function Nodes(v: Json): nat {
    match v
    case Array(items) => 1 + NodesOfItems(items)
    case Object(members) => 1 + NodesOfMembers(members)
    case _ => 1
  }

  function NodesOfItems(items: seq<Json>): nat {
    if items == [] then 0 else Nodes(items[0]) + NodesOfItems(items[1..])
  }

  function NodesOfMembers(members: seq<Member>): nat {
    if members == [] then 0 else 1 + Nodes(members[0].value) + NodesOfMembers(members[1..])
  }

  /** Escaped texts and keys, and number literals, are short enough. */
  predicate Short(v: Json, lim: Limits) {
    match v
    case Literal(_) => true
    case Number(text) => |text| <= lim.number
    case Text(bytes) => |Escaped(bytes)| <= lim.text
    case Array(items) => ShortItems(items, lim)
    case Object(members) => ShortMembers(members, lim)
  }

  predicate ShortItems(items: seq<Json>, lim: Limits) {
    items == [] || (Short(items[0], lim) && ShortItems(items[1..], lim))
  }

  predicate ShortMembers(members: seq<Member>, lim: Limits) {
    members == [] || (|Escaped(members[0].key)| <= lim.key && Short(members[0].value, lim) && ShortMembers(members[1..], lim))
  }

  predicate WithinLimits(v: Json, lim: Limits) {
    |Canonical(v)| <= lim.bytes && Depth(v) <= lim.depth && Nodes(v) <= lim.nodes && Short(v, lim)
  }
}
