/** The pre-scan agrees with the canonical printer: on what the printer writes, it accepts exactly
    the values whose recursively computed sizes are within the limits. */
module JsonAgreement {
  import opened Wrappers
  import opened JsonPreflight

  /** What may follow a printed value: the end, or a delimiter that does not turn it into a key. */
  predicate Follows(post: seq<byte>) { (post == [] || Delimiter(post[0])) && !KeyAhead(post) }

  /** One printed byte of a string never ends the string. */
  lemma EscapeIsInside(b: byte, post: seq<byte>)
    ensures TextLength(Escape(b) + post, false) == Longer(TextLength(post, false), |Escape(b)|)
  {
    var e := Escape(b);
    if |e| == 1 {
      assert (e + post)[1..] == post;
    } else if |e| == 2 {
      assert (e + post)[1..] == [e[1]] + post;
      assert ([e[1]] + post)[1..] == post;
    } else {
      assert (e + post)[1..] == e[1..] + post;
      assert (e[1..] + post)[1..] == e[2..] + post;
      PlainBytes(e[2..], post);
    }
  }

  lemma {:induction false} PlainBytes(plain: seq<byte>, post: seq<byte>)
    requires forall i :: 0 <= i < |plain| ==> plain[i] != QUOTE && plain[i] != BACKSLASH
    ensures TextLength(plain + post, false) == Longer(TextLength(post, false), |plain|)
  {
    if plain == [] {
      assert plain + post == post;
    } else {
      assert (plain + post)[1..] == plain[1..] + post;
      PlainBytes(plain[1..], post);
    }
  }

  /** The scan finds the end of an escaped string exactly where the printer put it. */
  lemma {:induction false} EscapedEnds(bytes: seq<byte>, post: seq<byte>)
    ensures TextLength(Escaped(bytes) + [QUOTE] + post, false) == Some(|Escaped(bytes)|)
  {
    if bytes == [] {
      assert Escaped(bytes) + [QUOTE] + post == [QUOTE] + post;
    } else {
      EscapedEnds(bytes[1..], post);
      EscapeIsInside(bytes[0], Escaped(bytes[1..]) + [QUOTE] + post);
      assert Escaped(bytes) + [QUOTE] + post == Escape(bytes[0]) + (Escaped(bytes[1..]) + [QUOTE] + post);
    }
  }

  lemma QuotedScan(bytes: seq<byte>, post: seq<byte>, depth: nat, nodes: nat, lim: Limits)
    ensures Accepts(Quoted(bytes) + post, depth, nodes, lim) ==
            (|Escaped(bytes)| <= (if KeyAhead(post) then lim.key else lim.text) && nodes + 1 <= lim.nodes
             && Accepts(post, depth, nodes + 1, lim))
  {
    hide KeyAhead, TextLength;
    var s, rest := Quoted(bytes) + post, Escaped(bytes) + [QUOTE] + post;
    assert s[0] == QUOTE && s[1..] == rest;
    EscapedEnds(bytes, post);
    assert rest[|Escaped(bytes)| + 1..] == post;
  }

  lemma {:induction false} WordEnds(word: seq<byte>, post: seq<byte>)
    requires (forall i :: 0 <= i < |word| ==> !Delimiter(word[i])) && (post == [] || Delimiter(post[0]))
    ensures WordLength(word + post) == |word|
  {
    if word == [] {
      assert word + post == post;
    } else {
      assert (word + post)[1..] == word[1..] + post;
      WordEnds(word[1..], post);
    }
  }

  lemma WordScan(word: seq<byte>, post: seq<byte>, depth: nat, nodes: nat, lim: Limits)
    requires word != [] && word[0] != QUOTE && forall i :: 0 <= i < |word| ==> !Delimiter(word[i])
    requires post == [] || Delimiter(post[0])
    ensures Accepts(word + post, depth, nodes, lim) ==
            (nodes + 1 <= lim.nodes && (Numeric(word[0]) ==> |word| <= lim.number) && Accepts(post, depth, nodes + 1, lim))
  {
    hide WordLength, Delimiter;
    var s := word + post;
    NotAMark(word[0]);
    assert s[0] == word[0] && s[1..] == word[1..] + post;
    WordEnds(word[1..], post);
    assert s[|word|..] == post;
  }

  lemma NumeralBytes(text: seq<byte>)
    requires IsNumeral(text)
    ensures Numeric(text[0]) && text[0] != QUOTE && forall i :: 0 <= i < |text| ==> !Delimiter(text[i])
  {
    assert forall i :: 0 <= i < |text| ==> InNumeral(text[i]);
  }

  lemma NotAMark(b: byte)
    requires !Delimiter(b)
    ensures !Space(b) && !Opens(b) && !Closes(b) && b != COLON && b != COMMA
  {
  }

  // ---------- Values ----------

  lemma MarkScan(mark: byte, post: seq<byte>, depth: nat, nodes: nat, lim: Limits)
    ensures Opens(mark) ==> Accepts([mark] + post, depth, nodes, lim) ==
                              (depth + 1 <= lim.depth && nodes + 1 <= lim.nodes && Accepts(post, depth + 1, nodes + 1, lim))
    ensures Closes(mark) && depth >= 1 ==> Accepts([mark] + post, depth, nodes, lim) == Accepts(post, depth - 1, nodes, lim)
    ensures mark == COMMA || mark == COLON ==> Accepts([mark] + post, depth, nodes, lim) == Accepts(post, depth, nodes, lim)
    ensures Closes(mark) || mark == COMMA ==> Follows([mark] + post)
    ensures mark == COLON ==> KeyAhead([mark] + post)
  {
  }

  /** Brackets around a body that is scanned as told. */
  lemma FrameScan(open: byte, body: seq<byte>, close: byte, post: seq<byte>, depth: nat, nodes: nat, lim: Limits, fits: bool, k: nat)
    requires Opens(open) && Closes(close)
    requires depth + 1 <= lim.depth && nodes + 1 <= lim.nodes ==>
               Accepts(body + ([close] + post), depth + 1, nodes + 1, lim) ==
               (fits && Accepts([close] + post, depth + 1, nodes + 1 + k, lim))
    ensures Accepts([open] + body + [close] + post, depth, nodes, lim) ==
            (depth + 1 <= lim.depth && nodes + 1 <= lim.nodes && fits && Accepts(post, depth, nodes + 1 + k, lim))
  {
    hide Accepts, KeyAhead, Follows;
    assert [open] + body + [close] + post == [open] + (body + ([close] + post));
    MarkScan(open, body + ([close] + post), depth, nodes, lim);
    MarkScan(close, post, depth + 1, nodes + 1 + k, lim);
  }

  /** A key, a colon and a value that is scanned as told. */
  lemma MemberScan(key: seq<byte>, value: seq<byte>, rest: seq<byte>, depth: nat, nodes: nat, lim: Limits, fits: bool, k: nat)
    requires nodes + 1 <= lim.nodes ==>
               Accepts(value + rest, depth, nodes + 1, lim) == (fits && Accepts(rest, depth, nodes + 1 + k, lim))
    ensures Accepts(Quoted(key) + [COLON] + value + rest, depth, nodes, lim) ==
            (|Escaped(key)| <= lim.key && nodes + 1 <= lim.nodes && fits && Accepts(rest, depth, nodes + 1 + k, lim))
  {
    hide Accepts, KeyAhead, Follows, Quoted, Escaped;
    assert Quoted(key) + [COLON] + value + rest == Quoted(key) + ([COLON] + (value + rest));
    QuotedScan(key, [COLON] + (value + rest), depth, nodes, lim);
    MarkScan(COLON, value + rest, depth, nodes + 1, lim);
  }

  /** A printed value is scanned as its sizes say, in any context it can stand in. */
  lemma {:induction false} ValueScan(v: Json, post: seq<byte>, depth: nat, nodes: nat, lim: Limits)
    requires WellFormed(v) && Follows(post) && depth <= lim.depth && nodes <= lim.nodes
    ensures Accepts(Print(v) + post, depth, nodes, lim) ==
            (depth + Depth(v) <= lim.depth && nodes + Nodes(v) <= lim.nodes && Short(v, lim)
             && Accepts(post, depth, nodes + Nodes(v), lim))
    decreases v, 1
  {
    hide Accepts, KeyAhead, Quoted, PrintItems, PrintMembers;
    match v
    case Literal(word) => WordScan(WordText(word), post, depth, nodes, lim);
    case Number(text) => NumeralBytes(text); WordScan(text, post, depth, nodes, lim);
    case Text(bytes) => QuotedScan(bytes, post, depth, nodes, lim);
    case Array(items) =>
      var fits := depth + 1 + DepthOfItems(items) <= lim.depth && nodes + 1 + NodesOfItems(items) <= lim.nodes
                  && ShortItems(items, lim);
      MarkScan(RBRACKET, post, depth + 1, nodes, lim);
      if depth + 1 <= lim.depth && nodes + 1 <= lim.nodes { ItemsScan(items, [RBRACKET] + post, depth + 1, nodes + 1, lim); }
      FrameScan(LBRACKET, PrintItems(items), RBRACKET, post, depth, nodes, lim, fits, NodesOfItems(items));
    case Object(members) =>
      var fits := depth + 1 + DepthOfMembers(members) <= lim.depth && nodes + 1 + NodesOfMembers(members) <= lim.nodes
                  && ShortMembers(members, lim);
      MarkScan(RBRACE, post, depth + 1, nodes, lim);
      if depth + 1 <= lim.depth && nodes + 1 <= lim.nodes { MembersScan(members, [RBRACE] + post, depth + 1, nodes + 1, lim); }
      FrameScan(LBRACE, PrintMembers(members), RBRACE, post, depth, nodes, lim, fits, NodesOfMembers(members));
  }

  lemma {:induction false} ItemsScan(items: seq<Json>, post: seq<byte>, depth: nat, nodes: nat, lim: Limits)
    requires (forall i :: 0 <= i < |items| ==> WellFormed(items[i])) && Follows(post) && depth <= lim.depth && nodes <= lim.nodes
    ensures Accepts(PrintItems(items) + post, depth, nodes, lim) ==
            (depth + DepthOfItems(items) <= lim.depth && nodes + NodesOfItems(items) <= lim.nodes && ShortItems(items, lim)
             && Accepts(post, depth, nodes + NodesOfItems(items), lim))
    decreases items, 0
  {
    hide Accepts, KeyAhead, Follows;
    if items == [] {
      assert PrintItems(items) + post == post;
    } else if |items| == 1 {
      assert items[1..] == [];
      assert PrintItems(items) + post == Print(items[0]) + post;
      ValueScan(items[0], post, depth, nodes, lim);
    } else {
      var rest := PrintItems(items[1..]) + post;
      var n := nodes + Nodes(items[0]);
      assert PrintItems(items) + post == Print(items[0]) + ([COMMA] + rest);
      MarkScan(COMMA, rest, depth, n, lim);
      ValueScan(items[0], [COMMA] + rest, depth, nodes, lim);
      if n <= lim.nodes { ItemsScan(items[1..], post, depth, n, lim); }
    }
  }

  lemma {:induction false} MembersScan(members: seq<Member>, post: seq<byte>, depth: nat, nodes: nat, lim: Limits)
    requires forall i :: 0 <= i < |members| ==> WellFormed(members[i].value)
    requires Follows(post) && depth <= lim.depth && nodes <= lim.nodes
    ensures Accepts(PrintMembers(members) + post, depth, nodes, lim) ==
            (depth + DepthOfMembers(members) <= lim.depth && nodes + NodesOfMembers(members) <= lim.nodes
             && ShortMembers(members, lim) && Accepts(post, depth, nodes + NodesOfMembers(members), lim))
    decreases members, 0
  {
    hide Accepts, KeyAhead, Follows, Quoted, Escaped, Print, Depth, Nodes, Short;
    if members == [] {
      assert PrintMembers(members) + post == post;
    } else {
      var m, tail := members[0], PrintMembers(members[1..]);
      var rest := if |members| == 1 then post else [COMMA] + (tail + post);
      var n := nodes + 1 + Nodes(m.value);
      assert PrintMembers(members) + post == Quoted(m.key) + [COLON] + Print(m.value) + rest;
      if |members| > 1 {
        MarkScan(COMMA, tail + post, depth, n, lim);
        if n <= lim.nodes { MembersScan(members[1..], post, depth, n, lim); }
      }
      if nodes + 1 <= lim.nodes { ValueScan(m.value, rest, depth, nodes + 1, lim); }
      var fits := depth + Depth(m.value) <= lim.depth && n <= lim.nodes && Short(m.value, lim);
      MemberScan(m.key, Print(m.value), rest, depth, nodes, lim, fits, Nodes(m.value));
    }
  }

  /** For every value: the pre-scan accepts the canonical text if and only if byte length, nesting
      depth, node count, escaped key and text lengths and number lengths are within the limits. */
  lemma ScannerAgreesWithPrinter(v: Json, lim: Limits)
    requires WellFormed(v)
    ensures |Canonical(v)| <= lim.bytes && Accepts(Canonical(v), 0, 0, lim) <==> WithinLimits(v, lim)
  {
    var post := [NEWLINE];
    assert post[1..] == [] && !KeyAhead(post[1..]);
    ValueScan(v, post, 0, 0, lim);
  }

  /** The four white-space bytes of section 2 of RFC 8259 are skipped, before any token and between
      a key and its colon; they end a word. */
  lemma SpacesAreSkipped(b: byte, s: seq<byte>, depth: nat, nodes: nat, lim: Limits)
    requires b in {9, 10, 13, 32}
    ensures Accepts([b] + s, depth, nodes, lim) == Accepts(s, depth, nodes, lim)
    ensures KeyAhead([b] + s) == KeyAhead(s) && WordLength([b] + s) == 0
  {
    assert ([b] + s)[1..] == s;
  }
}
