/**
 Canonical JSON, the bytes a row hash covers: member names sorted, no white space, strings
 escaped so that no control byte remains.
 */
module Canonical {
  import opened Common
  import opened Bytes
  import opened Sorting
  import opened Lex

  type Text = seq<byte>

  function Ascii(s: string): (t: Text)
    ensures |t| == |s| && forall i :: 0 <= i < |s| ==> t[i] == s[i] as int % 256
  {
    seq(|s|, i requires 0 <= i < |s| => s[i] as int % 256)
  }

  /** A decoded document. A number is the text that its float64 encodes to. */
  datatype Json =
    | Null
    | Bool(value: bool)
    | Num(text: Text)
    | Str(chars: Text)
    | Arr(items: seq<Json>)
    | Obj(members: map<Text, Json>)

  // ---- Strings ----

  const QUOTE: byte := 34
  const BACKSLASH: byte := 92
  const LOWER_U: byte := 117

  /** U+2028 and U+2029 in UTF-8. */
  const LINE_SEPARATOR: Text := [0xE2, 0x80, 0xA8]
  const PARAGRAPH_SEPARATOR: Text := [0xE2, 0x80, 0xA9]

  function HexDigit(n: nat): byte
    requires n < 16
  {
    if n < 10 then 48 + n else 87 + n
  }

  function HexValue(c: byte): Option<nat> {
    if 48 <= c <= 57 then Some(c - 48) else if 97 <= c <= 102 then Some(c - 87) else None
  }

  /** The letter of a two-byte escape, when the byte has one: \" \\ \b \f \n \r \t. */
  function ShortEscape(c: byte): Option<byte> {
    if c == 34 || c == 92 then Some(c)
    else if c == 8 then Some(98) else if c == 12 then Some(102) else if c == 10 then Some(110)
    else if c == 13 then Some(114) else if c == 9 then Some(116)
    else None
  }

  function UnescapeShort(letter: byte): Option<byte> {
    if letter == 34 || letter == 92 then Some(letter)
    else if letter == 98 then Some(8) else if letter == 102 then Some(12) else if letter == 110 then Some(10)
    else if letter == 114 then Some(13) else if letter == 116 then Some(9)
    else None
  }

  function EscapeByte(c: byte): Text {
    if ShortEscape(c).Some? then [BACKSLASH, ShortEscape(c).value]
    else if c < 0x20 || c == 60 || c == 62 || c == 38 then
      [BACKSLASH, LOWER_U, 48, 48, HexDigit(c / 16), HexDigit(c % 16)]
    else [c]
  }

  /** How many bytes of a non-empty string are escaped together. */
  function HeadLength(s: Text): (n: nat)
    requires s != []
    ensures 1 <= n <= |s|
  {
    if |s| >= 3 && (s[..3] == LINE_SEPARATOR || s[..3] == PARAGRAPH_SEPARATOR) then 3 else 1
  }

  function EscapeHead(s: Text): Text
    requires s != []
  {
    if HeadLength(s) == 3 then [BACKSLASH, LOWER_U, 50, 48, 50, if s[2] == 0xA8 then 56 else 57] else EscapeByte(s[0])
  }

  function Escape(s: Text): Text {
    if s == [] then [] else EscapeHead(s) + Escape(s[HeadLength(s)..])
  }

  function Quoted(s: Text): Text {
    [QUOTE] + Escape(s) + [QUOTE]
  }

  /** The character of one escape, without its backslash, and the escape's length. */
  function ReadEscape(b: Text): Option<(Text, nat)> {
    if b == [] then None
    else if UnescapeShort(b[0]).Some? then Some(([UnescapeShort(b[0]).value], 1))
    else if b[0] != LOWER_U || |b| < 5 then None
    else if b[1..5] == [50, 48, 50, 56] then Some((LINE_SEPARATOR, 5))
    else if b[1..5] == [50, 48, 50, 57] then Some((PARAGRAPH_SEPARATOR, 5))
    else match (HexValue(b[3]), HexValue(b[4]))
      case (Some(h), Some(l)) => Some(([16 * h + l], 5))
      case _ => None
  }

  /** Reads string contents up to the closing quote; the rest follows it. */
  function ReadString(b: Text): Option<(Text, Text)> {
    if b == [] then None
    else if b[0] == QUOTE then Some(([], b[1..]))
    else if b[0] != BACKSLASH then
      match ReadString(b[1..])
      case Some((s, rest)) => Some(([b[0]] + s, rest))
      case None => None
    else
      match ReadEscape(b[1..])
      case None => None
      case Some((c, n)) =>
        if n + 1 > |b| then None
        else match ReadString(b[n + 1..])
          case Some((s, rest)) => Some((c + s, rest))
          case None => None
  }

  lemma EscapeByteReads(c: byte, rest: Text)
    ensures var b := EscapeByte(c) + rest;
            if |EscapeByte(c)| == 1 then b[0] == c && c != QUOTE && c != BACKSLASH && b[1..] == rest
            else
              && b[0] == BACKSLASH && ReadEscape(b[1..]) == Some(([c], |EscapeByte(c)| - 1))
              && b[|EscapeByte(c)|..] == rest
  {
    var e := EscapeByte(c);
    var b := e + rest;
    assert b[|e|..] == rest;
    if ShortEscape(c).Some? {
      assert b[1..][0] == ShortEscape(c).value;
    } else if |e| == 6 {
      var t := b[1..];
      assert t[..5] == e[1..];
      assert t[1..5] == [48, 48, HexDigit(c / 16), HexDigit(c % 16)];
      assert t[3] == HexDigit(c / 16) && t[4] == HexDigit(c % 16);
      assert HexValue(t[3]) == Some(c / 16) && HexValue(t[4]) == Some(c % 16);
    }
  }

  lemma SeparatorReads(last: byte, rest: Text)
    requires last == 56 || last == 57
    ensures var b := [BACKSLASH, LOWER_U, 50, 48, 50, last] + rest;
            && b[0] == BACKSLASH
            && ReadEscape(b[1..]) == Some((if last == 56 then LINE_SEPARATOR else PARAGRAPH_SEPARATOR, 5))
            && b[6..] == rest
  {
    var b := [BACKSLASH, LOWER_U, 50, 48, 50, last] + rest;
    assert b[1..][1..5] == [50, 48, 50, last];
    assert b[1..][0] == LOWER_U;
  }

  lemma ReadEscapedStep(b: Text, c: Text, n: nat, s: Text, rest: Text)
    requires n + 1 <= |b| && b[0] == BACKSLASH && ReadEscape(b[1..]) == Some((c, n))
    requires ReadString(b[n + 1..]) == Some((s, rest))
    ensures ReadString(b) == Some((c + s, rest))
  {
  }

  lemma ReadPlainStep(b: Text, s: Text, rest: Text)
    requires |b| > 0 && b[0] != BACKSLASH && b[0] != QUOTE && ReadString(b[1..]) == Some((s, rest))
    ensures ReadString(b) == Some(([b[0]] + s, rest))
  {
  }

  lemma ReadByteStep(c: byte, tail: Text, s: Text, rest: Text)
    requires ReadString(tail) == Some((s, rest))
    ensures ReadString(EscapeByte(c) + tail) == Some(([c] + s, rest))
  {
    EscapeByteReads(c, tail);
    var b := EscapeByte(c) + tail;
    if |EscapeByte(c)| == 1 {
      ReadPlainStep(b, s, rest);
    } else {
      ReadEscapedStep(b, [c], |EscapeByte(c)| - 1, s, rest);
    }
  }

  lemma ReadHeadStep(s: Text, tail: Text, s': Text, rest: Text)
    requires s != [] && ReadString(tail) == Some((s', rest))
    ensures ReadString(EscapeHead(s) + tail) == Some((s[..HeadLength(s)] + s', rest))
  {
    if HeadLength(s) == 3 {
      var last := if s[2] == 0xA8 then 56 else 57;
      SeparatorReads(last, tail);
      ReadEscapedStep(EscapeHead(s) + tail, s[..3], 5, s', rest);
    } else {
      assert s[..1] == [s[0]];
      ReadByteStep(s[0], tail, s', rest);
    }
  }

  lemma EscapeUnfolds(s: Text, end: Text)
    requires s != []
    ensures Escape(s) + end == EscapeHead(s) + (Escape(s[HeadLength(s)..]) + end)
  {
  }

  /** Reading a quoted string gives the string back and stops at its closing quote. */
  lemma {:induction false} QuotedReads(s: Text, rest: Text)
    ensures ReadString(Escape(s) + ([QUOTE] + rest)) == Some((s, rest))
    decreases |s|
  {
    var end := [QUOTE] + rest;
    if s == [] {
      assert Escape(s) + end == end && end[1..] == rest;
    } else {
      var n := HeadLength(s);
      QuotedReads(s[n..], rest);
      ReadHeadStep(s, Escape(s[n..]) + end, s[n..], rest);
      EscapeUnfolds(s, end);
      assert s == s[..n] + s[n..];
    }
  }

  lemma AfterQuote(e: Text, rest: Text)
    ensures ([QUOTE] + e + [QUOTE] + rest)[1..] == e + ([QUOTE] + rest)
  {
  }

  lemma QuotedPrefixFree(s: Text, t: Text, r: Text, q: Text)
    requires Quoted(s) + r == Quoted(t) + q
    ensures s == t && r == q
  {
    AfterQuote(Escape(s), r);
    AfterQuote(Escape(t), q);
    QuotedReads(s, r);
    QuotedReads(t, q);
  }

  // ---- Values ----

  predicate ByteLe(x: byte, y: byte) { x <= y }

  predicate TextLe(a: Text, b: Text) { LexLe(ByteLe, a, b) }

  lemma TextOrder()
    ensures TotalOrder(TextLe)
  {
    forall a, b ensures (TextLe(a, b) || TextLe(b, a)) && (TextLe(a, b) && TextLe(b, a) ==> a == b) {
      LexTotal(ByteLe, a, b);
    }
    forall a, b, c | TextLe(a, b) && TextLe(b, c) ensures TextLe(a, c) {
      LexTransitive(ByteLe, a, b, c);
    }
  }

  /** Member names in byte order. */
  ghost function SortedKeys(keys: set<Text>): (r: seq<Text>)
    ensures forall k :: k in r <==> k in keys
  {
    var r := Sort(TextLe, Enumerate(keys));
    assert multiset(r) == multiset(keys) by {
      SortContents(TextLe, Enumerate(keys));
      EnumerateContents(keys);
    }
    assert forall k :: k in r <==> k in multiset(r);
    r
  }

  const NULL_TEXT: Text := [110, 117, 108, 108]
  const TRUE_TEXT: Text := [116, 114, 117, 101]
  const FALSE_TEXT: Text := [102, 97, 108, 115, 101]
  const COMMA: byte := 44
  const COLON: byte := 58
  const OPEN_ARRAY: byte := 91
  const CLOSE_ARRAY: byte := 93
  const OPEN_OBJECT: byte := 123
  const CLOSE_OBJECT: byte := 125

  ghost function Write(v: Json): Text
    decreases v
  {
    match v
    case Null => NULL_TEXT
    case Bool(b) => if b then TRUE_TEXT else FALSE_TEXT
    case Num(text) => text
    case Str(chars) => Quoted(chars)
    case Arr(items) =>
      [OPEN_ARRAY] + (if items == [] then [CLOSE_ARRAY] else Write(items[0]) + WriteItems(items[1..]))
    case Obj(members) =>
      var keys := SortedKeys(members.Keys);
      [OPEN_OBJECT] + (if keys == [] then [CLOSE_OBJECT] else WriteMember(v, keys[0]) + WriteMembers(v, keys[1..]))
  }

  /** The items after the first, each behind a comma, and the closing bracket. */
  ghost function WriteItems(items: seq<Json>): Text
    decreases items
  {
    if items == [] then [CLOSE_ARRAY] else [COMMA] + (Write(items[0]) + WriteItems(items[1..]))
  }

  ghost function WriteMember(v: Json, k: Text): Text
    requires v.Obj? && k in v.members
    decreases v, 0
  {
    Quoted(k) + ([COLON] + Write(v.members[k]))
  }

  ghost function WriteMembers(v: Json, keys: seq<Text>): Text
    requires v.Obj? && forall k :: k in keys ==> k in v.members
    decreases v, 1, |keys|
  {
    if keys == [] then [CLOSE_OBJECT] else [COMMA] + (WriteMember(v, keys[0]) + WriteMembers(v, keys[1..]))
  }

  predicate NumberByte(c: byte) {
    48 <= c <= 57 || c == 43 || c == 45 || c == 46 || c == 69 || c == 101
  }

  /** Number texts start with a digit or a minus sign. */
  predicate NumberText(t: Text) {
    t != [] && (48 <= t[0] <= 57 || t[0] == 45) && forall i :: 0 <= i < |t| ==> NumberByte(t[i])
  }

  ghost predicate Valid(v: Json)
    decreases v
  {
    match v
    case Num(text) => NumberText(text)
    case Arr(items) => forall i :: 0 <= i < |items| ==> Valid(items[i])
    case Obj(members) => forall k :: k in members ==> Valid(members[k])
    case _ => true
  }

  /** The first byte tells the kind of value. */
  lemma FirstByte(v: Json)
    requires Valid(v)
    ensures |Write(v)| > 0
    ensures match v
            case Null => Write(v)[0] == 110
            case Bool(b) => Write(v)[0] == if b then 116 else 102
            case Num(_) => 48 <= Write(v)[0] <= 57 || Write(v)[0] == 45
            case Str(_) => Write(v)[0] == QUOTE
            case Arr(_) => Write(v)[0] == OPEN_ARRAY
            case Obj(_) => Write(v)[0] == OPEN_OBJECT
  {
  }

  // ---- The text determines the value ----

  /** What follows a value inside a document cannot continue a number. */
  predicate Stops(rest: Text) {
    rest == [] || !NumberByte(rest[0])
  }

  lemma Assoc(a: Text, b: Text, c: Text)
    ensures a + b + c == a + (b + c)
  {
  }

  lemma LongerFrontShowsBack(t: Text, u: Text, r: Text, q: Text)
    requires t + r == u + q && |t| < |u|
    ensures r != [] && r[0] == u[|t|]
  {
    assert (t + r)[|t|] == (u + q)[|t|];
  }

  lemma NumberPrefixFree(t: Text, u: Text, r: Text, q: Text)
    requires NumberText(t) && NumberText(u) && Stops(r) && Stops(q) && t + r == u + q
    ensures t == u && r == q
  {
    if |t| < |u| {
      LongerFrontShowsBack(t, u, r, q);
      assert false;
    }
    if |u| < |t| {
      LongerFrontShowsBack(u, t, q, r);
      assert false;
    }
    SplitEqual(t, r, u, q);
  }

  lemma {:induction false} WritePrefixFree(v: Json, w: Json, r: Text, q: Text)
    requires Valid(v) && Valid(w) && Stops(r) && Stops(q) && Write(v) + r == Write(w) + q
    ensures v == w && r == q
    decreases v
  {
    FirstByte(v);
    FirstByte(w);
    assert Write(v)[0] == (Write(v) + r)[0] == (Write(w) + q)[0] == Write(w)[0];
    match v
    case Null => SplitEqual(Write(v), r, Write(w), q);
    case Bool(b) => SplitEqual(Write(v), r, Write(w), q);
    case Num(text) => NumberPrefixFree(text, w.text, r, q);
    case Str(chars) => QuotedPrefixFree(chars, w.chars, r, q);
    case Arr(items) => ArrayPrefixFree(v, w, r, q);
    case Obj(members) => ObjectPrefixFree(v, w, r, q);
  }

  lemma {:induction false} ArrayPrefixFree(v: Json, w: Json, r: Text, q: Text)
    requires v.Arr? && w.Arr? && Valid(v) && Valid(w) && Write(v) + r == Write(w) + q
    ensures v == w && r == q
    decreases v, 0
  {
    var a, b := v.items, w.items;
    var x := if a == [] then [CLOSE_ARRAY] else Write(a[0]) + WriteItems(a[1..]);
    var y := if b == [] then [CLOSE_ARRAY] else Write(b[0]) + WriteItems(b[1..]);
    Assoc([OPEN_ARRAY], x, r);
    Assoc([OPEN_ARRAY], y, q);
    SplitEqual([OPEN_ARRAY], x + r, [OPEN_ARRAY], y + q);
    assert a == [] <==> b == [] by {
      if a != [] {
        FirstByte(a[0]);
        assert (x + r)[0] == Write(a[0])[0];
      }
      if b != [] {
        FirstByte(b[0]);
        assert (y + q)[0] == Write(b[0])[0];
      }
    }
    if a == [] {
      SplitEqual(x, r, y, q);
    } else {
      Assoc(Write(a[0]), WriteItems(a[1..]), r);
      Assoc(Write(b[0]), WriteItems(b[1..]), q);
      WritePrefixFree(a[0], b[0], WriteItems(a[1..]) + r, WriteItems(b[1..]) + q);
      ItemsPrefixFree(a[1..], b[1..], r, q);
      assert a == [a[0]] + a[1..] && b == [b[0]] + b[1..];
    }
  }

  lemma {:induction false} ItemsPrefixFree(a: seq<Json>, b: seq<Json>, r: Text, q: Text)
    requires (forall i :: 0 <= i < |a| ==> Valid(a[i])) && (forall i :: 0 <= i < |b| ==> Valid(b[i]))
    requires WriteItems(a) + r == WriteItems(b) + q
    ensures a == b && r == q
    decreases a
  {
    assert (WriteItems(a) + r)[0] == WriteItems(a)[0] && (WriteItems(b) + q)[0] == WriteItems(b)[0];
    if a == [] {
      SplitEqual([CLOSE_ARRAY], r, [CLOSE_ARRAY], q);
    } else {
      var x, y := Write(a[0]) + (WriteItems(a[1..]) + r), Write(b[0]) + (WriteItems(b[1..]) + q);
      Assoc([COMMA], Write(a[0]) + WriteItems(a[1..]), r);
      Assoc(Write(a[0]), WriteItems(a[1..]), r);
      Assoc([COMMA], Write(b[0]) + WriteItems(b[1..]), q);
      Assoc(Write(b[0]), WriteItems(b[1..]), q);
      SplitEqual([COMMA], x, [COMMA], y);
      WritePrefixFree(a[0], b[0], WriteItems(a[1..]) + r, WriteItems(b[1..]) + q);
      ItemsPrefixFree(a[1..], b[1..], r, q);
      assert a == [a[0]] + a[1..] && b == [b[0]] + b[1..];
    }
  }

  /** The same member text is the same name and the same value. */
  lemma {:induction false} MemberPrefixFree(v: Json, w: Json, j: Text, k: Text, r: Text, q: Text)
    requires v.Obj? && w.Obj? && Valid(v) && Valid(w) && j in v.members && k in w.members && Stops(r) && Stops(q)
    requires WriteMember(v, j) + r == WriteMember(w, k) + q
    ensures j == k && v.members[j] == w.members[k] && r == q
    decreases v, 0
  {
    var x, y := Write(v.members[j]) + r, Write(w.members[k]) + q;
    Assoc(Quoted(j), [COLON] + Write(v.members[j]), r);
    Assoc([COLON], Write(v.members[j]), r);
    Assoc(Quoted(k), [COLON] + Write(w.members[k]), q);
    Assoc([COLON], Write(w.members[k]), q);
    QuotedPrefixFree(j, k, [COLON] + x, [COLON] + y);
    SplitEqual([COLON], x, [COLON], y);
    WritePrefixFree(v.members[j], w.members[k], r, q);
  }

  lemma {:induction false} MembersPrefixFree(v: Json, w: Json, a: seq<Text>, b: seq<Text>, r: Text, q: Text)
    requires v.Obj? && w.Obj? && Valid(v) && Valid(w)
    requires (forall k :: k in a ==> k in v.members) && (forall k :: k in b ==> k in w.members)
    requires WriteMembers(v, a) + r == WriteMembers(w, b) + q
    ensures a == b && r == q && forall k :: k in a ==> v.members[k] == w.members[k]
    decreases v, 1, |a|
  {
    assert (WriteMembers(v, a) + r)[0] == WriteMembers(v, a)[0] && (WriteMembers(w, b) + q)[0] == WriteMembers(w, b)[0];
    if a == [] {
      SplitEqual([CLOSE_OBJECT], r, [CLOSE_OBJECT], q);
    } else {
      var r', q' := WriteMembers(v, a[1..]) + r, WriteMembers(w, b[1..]) + q;
      Assoc([COMMA], WriteMember(v, a[0]) + WriteMembers(v, a[1..]), r);
      Assoc(WriteMember(v, a[0]), WriteMembers(v, a[1..]), r);
      Assoc([COMMA], WriteMember(w, b[0]) + WriteMembers(w, b[1..]), q);
      Assoc(WriteMember(w, b[0]), WriteMembers(w, b[1..]), q);
      SplitEqual([COMMA], WriteMember(v, a[0]) + r', [COMMA], WriteMember(w, b[0]) + q');
      MemberPrefixFree(v, w, a[0], b[0], r', q');
      MembersPrefixFree(v, w, a[1..], b[1..], r, q);
      assert a == [a[0]] + a[1..] && b == [b[0]] + b[1..];
    }
  }

  lemma {:induction false} ObjectPrefixFree(v: Json, w: Json, r: Text, q: Text)
    requires v.Obj? && w.Obj? && Valid(v) && Valid(w) && Write(v) + r == Write(w) + q
    ensures v == w && r == q
    decreases v, 2
  {
    var a, b := SortedKeys(v.members.Keys), SortedKeys(w.members.Keys);
    var x := if a == [] then [CLOSE_OBJECT] else WriteMember(v, a[0]) + WriteMembers(v, a[1..]);
    var y := if b == [] then [CLOSE_OBJECT] else WriteMember(w, b[0]) + WriteMembers(w, b[1..]);
    Assoc([OPEN_OBJECT], x, r);
    Assoc([OPEN_OBJECT], y, q);
    SplitEqual([OPEN_OBJECT], x + r, [OPEN_OBJECT], y + q);
    assert x[0] == (x + r)[0] == (y + q)[0] == y[0];
    if a == [] {
      SplitEqual(x, r, y, q);
    } else {
      var r', q' := WriteMembers(v, a[1..]) + r, WriteMembers(w, b[1..]) + q;
      Assoc(WriteMember(v, a[0]), WriteMembers(v, a[1..]), r);
      Assoc(WriteMember(w, b[0]), WriteMembers(w, b[1..]), q);
      MemberPrefixFree(v, w, a[0], b[0], r', q');
      MembersPrefixFree(v, w, a[1..], b[1..], r, q);
      assert a == [a[0]] + a[1..] && b == [b[0]] + b[1..];
    }
    SameMembers(v.members, w.members, a, b);
  }

  lemma SameMembers(m: map<Text, Json>, n: map<Text, Json>, a: seq<Text>, b: seq<Text>)
    requires (forall k :: k in a <==> k in m) && (forall k :: k in b <==> k in n)
    requires a == b && forall k :: k in a ==> m[k] == n[k]
    ensures m == n
  {
    assert m.Keys == n.Keys by {
      forall k ensures k in m <==> k in n {
        assert k in a <==> k in b;
      }
    }
  }

  /** Two documents have the same canonical bytes exactly when they are the same value. */
  lemma CanonicalInjective(v: Json, w: Json)
    requires Valid(v) && Valid(w)
    ensures Write(v) == Write(w) <==> v == w
  {
    if Write(v) == Write(w) {
      assert Write(v) + [] == Write(v) && Write(w) + [] == Write(w);
      WritePrefixFree(v, w, [], []);
    }
  }

  // ---- No control byte remains ----

  ghost predicate Printable(b: Text) {
    forall i :: 0 <= i < |b| ==> b[i] >= 0x20
  }

  lemma {:induction false} EscapePrintable(s: Text)
    ensures Printable(Escape(s))
    decreases |s|
  {
    if s != [] {
      EscapePrintable(s[HeadLength(s)..]);
      assert Printable(EscapeHead(s));
    }
  }

  lemma {:induction false} CanonicalPrintable(v: Json)
    requires Valid(v)
    ensures Printable(Write(v))
    decreases v
  {
    match v
    case Str(chars) => EscapePrintable(chars);
    case Arr(items) =>
      if items != [] {
        CanonicalPrintable(items[0]);
        ItemsPrintable(items[1..]);
      }
    case Obj(members) =>
      var keys := SortedKeys(members.Keys);
      if keys != [] {
        MemberPrintable(v, keys[0]);
        MembersPrintable(v, keys[1..]);
      }
    case _ =>
  }

  lemma {:induction false} ItemsPrintable(items: seq<Json>)
    requires forall i :: 0 <= i < |items| ==> Valid(items[i])
    ensures Printable(WriteItems(items))
    decreases items
  {
    if items != [] {
      CanonicalPrintable(items[0]);
      ItemsPrintable(items[1..]);
    }
  }

  lemma {:induction false} MemberPrintable(v: Json, k: Text)
    requires v.Obj? && Valid(v) && k in v.members
    ensures Printable(WriteMember(v, k))
    decreases v, 0
  {
    EscapePrintable(k);
    CanonicalPrintable(v.members[k]);
  }

  lemma {:induction false} MembersPrintable(v: Json, keys: seq<Text>)
    requires v.Obj? && Valid(v) && forall k :: k in keys ==> k in v.members
    ensures Printable(WriteMembers(v, keys))
    decreases v, 1, |keys|
  {
    if keys != [] {
      MemberPrintable(v, keys[0]);
      MembersPrintable(v, keys[1..]);
    }
  }

  // ---- Documents as written ----

  /** A document before decoding: members in the order they appear, names possibly repeated. */
  datatype Raw = Scalar(value: Json) | List(items: seq<Raw>) | Object(members: seq<Member>)

  datatype Member = Member(name: Text, value: Raw)

  /** Decoding keeps the last of repeated names. */
  function Decode(r: Raw): Json
    decreases r
  {
    match r
    case Scalar(v) => v
    case List(items) => Arr(DecodeItems(items))
    case Object(members) => Obj(DecodeMembers(members))
  }

  function DecodeItems(items: seq<Raw>): seq<Json>
    decreases items
  {
    if items == [] then [] else [Decode(items[0])] + DecodeItems(items[1..])
  }

  function DecodeMembers(members: seq<Member>): map<Text, Json>
    decreases members
  {
    if members == [] then map[] else map[members[0].name := Decode(members[0].value)] + DecodeMembers(members[1..])
  }

  predicate HasName(members: seq<Member>, k: Text) {
    exists i :: 0 <= i < |members| && members[i].name == k
  }

  function LastIndex(members: seq<Member>, k: Text): (i: nat)
    requires HasName(members, k)
    ensures i < |members| && members[i].name == k && forall j :: i < j < |members| ==> members[j].name != k
  {
    if members[|members| - 1].name == k then |members| - 1 else LastIndex(members[..|members| - 1], k)
  }

  /**
   One document up to member order, at every depth: the same scalars, arrays item by item, and
   objects name by name, where a repeated name stands for its last value.
   */
  predicate SameDocument(r: Raw, q: Raw)
    decreases r
  {
    match r
    case Scalar(_) => q == r
    case List(items) => q.List? && |q.items| == |items| && forall i :: 0 <= i < |items| ==>
        SameDocument(items[i], q.items[i])
    case Object(members) => q.Object? && SameNames(members, q.members) && SameValues(r, q)
  }

  predicate SameNames(a: seq<Member>, b: seq<Member>) {
    (forall i :: 0 <= i < |a| ==> HasName(b, a[i].name)) && (forall i :: 0 <= i < |b| ==> HasName(a, b[i].name))
  }

  predicate SameValues(r: Raw, q: Raw)
    requires r.Object? && q.Object? && SameNames(r.members, q.members)
    decreases r, 0
  {
    forall i :: 0 <= i < |r.members| && i == LastIndex(r.members, r.members[i].name) ==>
      SameDocument(r.members[i].value, q.members[LastIndex(q.members, r.members[i].name)].value)
  }

  /** The decoded object has the last value of every name. */
  lemma {:induction false} DecodedLast(members: seq<Member>, k: Text)
    ensures k in DecodeMembers(members) <==> HasName(members, k)
    ensures HasName(members, k) ==> DecodeMembers(members)[k] == Decode(members[LastIndex(members, k)].value)
  {
    if members != [] {
      var rest := members[1..];
      DecodedLast(rest, k);
      if HasName(rest, k) {
        var i := LastIndex(rest, k);
        assert members[i + 1].name == k;
        assert LastIndex(members, k) == i + 1;
      } else if members[0].name == k {
        assert LastIndex(members, k) == 0;
      } else {
        assert !HasName(members, k);
      }
    }
  }

  lemma {:induction false} DecodedItems(items: seq<Raw>)
    ensures |DecodeItems(items)| == |items| && forall i :: 0 <= i < |items| ==>
            DecodeItems(items)[i] == Decode(items[i])
  {
    if items != [] {
      DecodedItems(items[1..]);
    }
  }

  /** Documents that are the same up to member order decode to the same value. */
  lemma {:induction false} SameDocumentDecodes(r: Raw, q: Raw)
    requires SameDocument(r, q)
    ensures Decode(r) == Decode(q)
    decreases r
  {
    match r
    case Scalar(_) =>
    case List(items) =>
      DecodedItems(items);
      DecodedItems(q.items);
      forall i | 0 <= i < |items| ensures Decode(items[i]) == Decode(q.items[i]) {
        SameDocumentDecodes(items[i], q.items[i]);
      }
      assert DecodeItems(items) == DecodeItems(q.items);
    case Object(members) =>
      forall k ensures k in DecodeMembers(members) <==> k in DecodeMembers(q.members)
        ensures k in DecodeMembers(members) ==> DecodeMembers(members)[k] == DecodeMembers(q.members)[k]
      {
        DecodedLast(members, k);
        DecodedLast(q.members, k);
        if HasName(members, k) {
          var i := LastIndex(members, k);
          assert members[i].name == k;
          SameDocumentDecodes(members[i].value, q.members[LastIndex(q.members, k)].value);
        }
      }
      assert DecodeMembers(members) == DecodeMembers(q.members);
  }

  /** Scalars are scalars: arrays and objects are spelled out. */
  predicate Spelled(r: Raw)
    decreases r
  {
    match r
    case Scalar(v) => !v.Arr? && !v.Obj?
    case List(items) => forall i :: 0 <= i < |items| ==> Spelled(items[i])
    case Object(members) => forall i :: 0 <= i < |members| ==> Spelled(members[i].value)
  }

  lemma {:induction false} DecodedAlikeIsSame(r: Raw, q: Raw)
    requires Spelled(r) && Spelled(q) && Decode(r) == Decode(q)
    ensures SameDocument(r, q)
    decreases r
  {
    match r
    case Scalar(_) =>
    case List(items) =>
      DecodedItems(items);
      DecodedItems(q.items);
      forall i | 0 <= i < |items| ensures SameDocument(items[i], q.items[i]) {
        DecodedAlikeIsSame(items[i], q.items[i]);
      }
    case Object(members) =>
      DecodedNames(members, q.members);
      forall i | 0 <= i < |members| && i == LastIndex(members, members[i].name)
        ensures SameDocument(members[i].value, q.members[LastIndex(q.members, members[i].name)].value)
      {
        DecodedLast(members, members[i].name);
        DecodedLast(q.members, members[i].name);
        DecodedAlikeIsSame(members[i].value, q.members[LastIndex(q.members, members[i].name)].value);
      }
  }

  lemma DecodedNames(a: seq<Member>, b: seq<Member>)
    requires DecodeMembers(a) == DecodeMembers(b)
    ensures SameNames(a, b)
  {
    forall i | 0 <= i < |a| ensures HasName(b, a[i].name) {
      DecodedLast(a, a[i].name);
      DecodedLast(b, a[i].name);
    }
    forall i | 0 <= i < |b| ensures HasName(a, b[i].name) {
      DecodedLast(a, b[i].name);
      DecodedLast(b, b[i].name);
    }
  }

  /** Two documents have the same canonical bytes exactly when they are the same up to member order. */
  lemma MemberOrderIsIrrelevant(r: Raw, q: Raw)
    requires Spelled(r) && Spelled(q) && Valid(Decode(r)) && Valid(Decode(q))
    ensures Write(Decode(r)) == Write(Decode(q)) <==> SameDocument(r, q)
  {
    if SameDocument(r, q) {
      SameDocumentDecodes(r, q);
    }
    if Write(Decode(r)) == Write(Decode(q)) {
      CanonicalInjective(Decode(r), Decode(q));
      DecodedAlikeIsSame(r, q);
    }
  }

  ghost predicate DistinctNames(members: seq<Member>) {
    forall i, j :: 0 <= i < j < |members| ==> members[i].name != members[j].name
  }

  /** Every member of `a` has one of the same name in `b` whose value is the same document. */
  ghost predicate Within(a: seq<Member>, b: seq<Member>) {
    forall m :: m in a ==> exists n :: n in b && n.name == m.name && SameDocument(m.value, n.value)
  }

  /** Reordering an object's members, and documents inside them, gives the same document. */
  lemma ReorderedObjectIsSame(a: seq<Member>, b: seq<Member>)
    requires DistinctNames(a) && DistinctNames(b) && Within(a, b)
             && (forall m :: m in b ==> exists n :: n in a && n.name == m.name)
    ensures SameDocument(Object(a), Object(b))
  {
    assert SameNames(a, b) by {
      forall i | 0 <= i < |b| ensures HasName(a, b[i].name) {
        assert b[i] in b;
      }
      forall i | 0 <= i < |a| ensures HasName(b, a[i].name) {
        assert a[i] in a;
      }
    }
    forall i | 0 <= i < |a| && i == LastIndex(a, a[i].name)
      ensures SameDocument(a[i].value, b[LastIndex(b, a[i].name)].value)
    {
      assert a[i] in a;
      var n :| n in b && n.name == a[i].name && SameDocument(a[i].value, n.value);
      assert b[LastIndex(b, a[i].name)] == n;
    }
    assert SameValues(Object(a), Object(b));
  }

  // ---- What the text spells ----

  /** The first differing byte is smaller in `a`, or `a` is a proper prefix of `b`. */
  ghost predicate BeforeAt(a: Text, b: Text, i: nat) {
    i <= |a| && i < |b| && a[..i] == b[..i] && (i == |a| || a[i] < b[i])
  }

  ghost predicate Before(a: Text, b: Text) { exists i: nat :: BeforeAt(a, b, i) }

  ghost predicate Ascending(keys: seq<Text>) {
    forall i, j :: 0 <= i < j < |keys| ==> Before(keys[i], keys[j])
  }

  lemma NotAfterIsBefore(a: Text, b: Text)
    ensures !TextLe(b, a) <==> Before(a, b)
  {
    FirstDifferenceDecides(ByteLe, b, a);
    if i: nat :| GreaterAt(ByteLe, b, a, i) {
      assert BeforeAt(a, b, i);
    }
    if i: nat :| BeforeAt(a, b, i) {
      assert GreaterAt(ByteLe, b, a, i);
    }
  }

  lemma KeysAscend(keys: set<Text>)
    ensures Ascending(SortedKeys(keys))
  {
    var s := SortedKeys(keys);
    TextOrder();
    EnumerateContents(keys);
    SortContents(TextLe, Enumerate(keys));
    SortSorts(TextLe, Enumerate(keys));
    forall i, j | 0 <= i < j < |s| ensures Before(s[i], s[j]) {
      CountsTwice(s, i, j);
      NotAfterIsBefore(s[i], s[j]);
    }
  }

  function Joined(parts: seq<Text>): Text {
    if parts == [] then []
    else if |parts| == 1 then parts[0]
    else parts[0] + (Ascii(",") + Joined(parts[1..]))
  }

  /** What a string's first character is escaped to, and how many bytes the character takes. */
  ghost predicate EscapedHead(s: Text, n: nat, e: Text)
    requires s != []
  {
    var c := s[0];
    if s[..if |s| < 3 then |s| else 3] == [0xE2, 0x80, 0xA8] then n == 3 && e == Ascii("\\u2028")
    else if s[..if |s| < 3 then |s| else 3] == [0xE2, 0x80, 0xA9] then n == 3 && e == Ascii("\\u2029")
    else
      && n == 1
      && (c == 34 ==> e == [92, 34]) && (c == 92 ==> e == [92, 92])
      && (c == 8 ==> e == Ascii("\\b")) && (c == 12 ==> e == Ascii("\\f")) && (c == 10 ==> e == Ascii("\\n"))
      && (c == 13 ==> e == Ascii("\\r")) && (c == 9 ==> e == Ascii("\\t"))
      && (c == 60 ==> e == Ascii("\\u003c")) && (c == 62 ==> e == Ascii("\\u003e"))
          && (c == 38 ==> e == Ascii("\\u0026"))
      && (c < 32 && c !in {8, 9, 10, 12, 13} ==>
            e == Ascii("\\u00" + ["0123456789abcdef"[c / 16], "0123456789abcdef"[c % 16]]))
      && (c >= 32 && c !in {34, 38, 60, 62, 92} ==> e == [c])
  }

  /** `e` is `s` character by character, each as it is escaped. */
  ghost predicate EscapesTo(s: Text, e: Text)
    decreases |s|
  {
    if s == [] then e == []
    else exists n, head, rest ::
      0 < n <= |s| && EscapedHead(s, n, head) && e == head + rest && EscapesTo(s[n..], rest)
  }

  ghost predicate SpellsString(s: Text, t: Text) {
    exists e :: EscapesTo(s, e) && t == [34] + e + [34]
  }

  /**
   `t` is a canonical text of `v`: for an object an opening brace, the quoted names with a colon and a text
   of the value each, joined by commas in ascending byte order of the names, and a closing brace.
   */
  ghost predicate Spells(v: Json, t: Text)
    decreases v, 1
  {
    match v
    case Null => t == Ascii("null")
    case Bool(b) => t == if b then Ascii("true") else Ascii("false")
    case Num(text) => t == text
    case Str(chars) => SpellsString(chars, t)
    case Arr(_) => exists parts :: SpellsItems(v, parts) && t == Ascii("[") + Joined(parts) + Ascii("]")
    case Obj(_) => exists keys, parts :: SpellsMembers(v, keys, parts) && t == Ascii("{") + Joined(parts) + Ascii("}")
  }

  ghost predicate SpellsItems(v: Json, parts: seq<Text>)
    requires v.Arr?
    decreases v, 0
  {
    |parts| == |v.items| && forall i :: 0 <= i < |parts| ==> Spells(v.items[i], parts[i])
  }

  ghost predicate SpellsMembers(v: Json, keys: seq<Text>, parts: seq<Text>)
    requires v.Obj?
    decreases v, 0, 1
  {
    && (forall k :: k in keys <==> k in v.members) && Ascending(keys) && |parts| == |keys|
    && forall i :: 0 <= i < |keys| ==> SpellsMember(v, keys[i], parts[i])
  }

  ghost predicate SpellsMember(v: Json, k: Text, part: Text)
    requires v.Obj?
    decreases v, 0, 0
  {
    k in v.members && exists name, value ::
      SpellsString(k, name) && Spells(v.members[k], value) && part == name + Ascii(":") + value
  }

  lemma HexDigits(n: nat)
    requires n < 16
    ensures HexDigit(n) == "0123456789abcdef"[n] as int
  {
  }

  lemma ControlEscape(c: byte)
    requires c < 32 && c !in {8, 9, 10, 12, 13}
    ensures EscapeByte(c) == Ascii("\\u00" + ["0123456789abcdef"[c / 16], "0123456789abcdef"[c % 16]])
  {
    HexDigits(c / 16);
    HexDigits(c % 16);
  }

  lemma MarkupEscapes()
    ensures EscapeByte(60) == Ascii("\\u003c") && EscapeByte(62) == Ascii("\\u003e")
            && EscapeByte(38) == Ascii("\\u0026")
  {
  }

  lemma EscapeHeadIs(s: Text)
    requires s != []
    ensures EscapedHead(s, HeadLength(s), EscapeHead(s))
  {
    if HeadLength(s) == 3 {
      assert s[..3][2] == s[2];
      assert Ascii("\\u2028") == [92, 117, 50, 48, 50, 56] && Ascii("\\u2029") == [92, 117, 50, 48, 50, 57];
    } else if s[0] < 32 && s[0] !in {8, 9, 10, 12, 13} {
      ControlEscape(s[0]);
    } else {
      MarkupEscapes();
    }
  }

  lemma {:induction false} EscapeEscapes(s: Text)
    ensures EscapesTo(s, Escape(s))
    decreases |s|
  {
    if s != [] {
      EscapeHeadIs(s);
      EscapeEscapes(s[HeadLength(s)..]);
    }
  }

  lemma QuotedSpells(s: Text)
    ensures SpellsString(s, Quoted(s))
  {
    EscapeEscapes(s);
  }

  lemma JoinedStep(parts: seq<Text>, end: Text)
    requires |parts| > 1
    ensures Joined(parts) + end == parts[0] + (Ascii(",") + (Joined(parts[1..]) + end))
  {
    Assoc(Ascii(","), Joined(parts[1..]), end);
    Assoc(parts[0], Ascii(",") + Joined(parts[1..]), end);
  }

  lemma {:induction false} ItemsJoin(items: seq<Json>, parts: seq<Text>)
    requires |parts| == |items| > 0 && forall i :: 0 <= i < |items| ==> parts[i] == Write(items[i])
    ensures Write(items[0]) + WriteItems(items[1..]) == Joined(parts) + Ascii("]")
    decreases items
  {
    if |items| > 1 {
      ItemsJoin(items[1..], parts[1..]);
      JoinedStep(parts, Ascii("]"));
    }
  }

  lemma {:induction false} MembersJoin(v: Json, keys: seq<Text>, parts: seq<Text>)
    requires v.Obj? && |parts| == |keys| > 0 && forall k :: k in keys ==> k in v.members
    requires forall i :: 0 <= i < |keys| ==> parts[i] == WriteMember(v, keys[i])
    ensures WriteMember(v, keys[0]) + WriteMembers(v, keys[1..]) == Joined(parts) + Ascii("}")
    decreases keys
  {
    if |keys| > 1 {
      MembersJoin(v, keys[1..], parts[1..]);
      JoinedStep(parts, Ascii("}"));
    }
  }

  /** The canonical bytes of every value are a text of it. */
  lemma {:induction false} WriteSpells(v: Json)
    ensures Spells(v, Write(v))
    decreases v, 1
  {
    match v
    case Null => assert Ascii("null") == NULL_TEXT;
    case Bool(b) => assert Ascii("true") == TRUE_TEXT && Ascii("false") == FALSE_TEXT;
    case Num(_) =>
    case Str(chars) => QuotedSpells(chars);
    case Arr(_) => ArraySpells(v);
    case Obj(_) => ObjectSpells(v);
  }

  lemma ArrayJoins(v: Json, parts: seq<Text>)
    requires v.Arr? && |parts| == |v.items| && forall i :: 0 <= i < |parts| ==> parts[i] == Write(v.items[i])
    ensures Write(v) == Ascii("[") + Joined(parts) + Ascii("]")
  {
    var items := v.items;
    var rest := if items == [] then [CLOSE_ARRAY] else Write(items[0]) + WriteItems(items[1..]);
    assert rest == Joined(parts) + Ascii("]") by {
      if items != [] {
        ItemsJoin(items, parts);
      }
    }
    assert Write(v) == Ascii("[") + rest;
    Assoc(Ascii("["), Joined(parts), Ascii("]"));
  }

  lemma {:induction false} ArraySpells(v: Json)
    requires v.Arr?
    ensures Spells(v, Write(v))
    decreases v, 0
  {
    var items := v.items;
    var parts := seq(|items|, i requires 0 <= i < |items| => Write(items[i]));
    forall i | 0 <= i < |items| ensures Spells(items[i], parts[i]) {
      WriteSpells(items[i]);
    }
    ArrayJoins(v, parts);
    assert SpellsItems(v, parts);
  }

  lemma NamedText(v: Json, k: Text)
    requires v.Obj? && k in v.members
    ensures WriteMember(v, k) == Quoted(k) + Ascii(":") + Write(v.members[k])
  {
    Assoc(Quoted(k), Ascii(":"), Write(v.members[k]));
  }

  lemma {:induction false} MemberSpells(v: Json, k: Text)
    requires v.Obj? && k in v.members
    ensures SpellsMember(v, k, WriteMember(v, k))
    decreases v, 0, 0
  {
    WriteSpells(v.members[k]);
    QuotedSpells(k);
    NamedText(v, k);
  }

  ghost function MemberTexts(v: Json, keys: seq<Text>): (parts: seq<Text>)
    requires v.Obj? && forall k :: k in keys ==> k in v.members
    ensures |parts| == |keys| && forall i :: 0 <= i < |keys| ==> parts[i] == WriteMember(v, keys[i])
  {
    seq(|keys|, i requires 0 <= i < |keys| => WriteMember(v, keys[i]))
  }

  /** The members between the braces, from any list of names. */
  ghost function Members(v: Json, keys: seq<Text>): Text
    requires v.Obj? && forall k :: k in keys ==> k in v.members
  {
    if keys == [] then [CLOSE_OBJECT] else WriteMember(v, keys[0]) + WriteMembers(v, keys[1..])
  }

  lemma ObjectJoins(v: Json, keys: seq<Text>, parts: seq<Text>)
    requires v.Obj? && (forall k :: k in keys ==> k in v.members) && parts == MemberTexts(v, keys)
    ensures [OPEN_OBJECT] + Members(v, keys) == Ascii("{") + Joined(parts) + Ascii("}")
  {
    if keys != [] {
      MembersJoin(v, keys, parts);
    }
    assert Members(v, keys) == Joined(parts) + Ascii("}");
    Assoc(Ascii("{"), Joined(parts), Ascii("}"));
  }

  lemma {:induction false} ObjectSpells(v: Json)
    requires v.Obj?
    ensures Spells(v, Write(v))
    decreases v, 0, 1
  {
    var keys := SortedKeys(v.members.Keys);
    var parts := MemberTexts(v, keys);
    KeysAscend(v.members.Keys);
    forall i | 0 <= i < |keys| ensures SpellsMember(v, keys[i], parts[i]) {
      MemberSpells(v, keys[i]);
    }
    ObjectJoins(v, keys, parts);
    assert Write(v) == [OPEN_OBJECT] + Members(v, keys);
    assert SpellsMembers(v, keys, parts);
  }

  // ---- One text for each value ----

  lemma BeforeIsStrict(a: Text, b: Text)
    ensures !(Before(a, b) && Before(b, a))
  {
    NotAfterIsBefore(a, b);
    NotAfterIsBefore(b, a);
    LexTotal(ByteLe, a, b);
  }

  lemma AscendingFirst(a: seq<Text>, b: seq<Text>)
    requires Ascending(a) && Ascending(b) && a != [] && b != [] && forall k :: k in a <==> k in b
    ensures a[0] == b[0]
  {
    assert a[0] in b && b[0] in a;
    var j :| 0 <= j < |b| && b[j] == a[0];
    var i :| 0 <= i < |a| && a[i] == b[0];
    BeforeIsStrict(a[0], b[0]);
  }

  /** Ascending lists of the same names are the same list. */
  lemma {:induction false} AscendingUnique(a: seq<Text>, b: seq<Text>)
    requires Ascending(a) && Ascending(b) && forall k :: k in a <==> k in b
    ensures a == b
  {
    if b != [] {
      assert b[0] in a;
    }
    if a != [] {
      assert a[0] in b;
      AscendingFirst(a, b);
      BeforeIsStrict(a[0], a[0]);
      assert a == [a[0]] + a[1..] && b == [b[0]] + b[1..];
      assert Ascending(a[1..]) && Ascending(b[1..]);
      forall k ensures k in a[1..] <==> k in b[1..] {
        assert a[0] !in a[1..] && b[0] !in b[1..];
        assert k in a <==> k == a[0] || k in a[1..];
        assert k in b <==> k == b[0] || k in b[1..];
      }
      AscendingUnique(a[1..], b[1..]);
    }
  }

  lemma EscapedHeadUnique(s: Text, n: nat, e: Text)
    requires s != [] && EscapedHead(s, n, e)
    ensures n == HeadLength(s) && e == EscapeHead(s)
  {
    EscapeHeadIs(s);
  }

  lemma {:induction false} EscapesToUnique(s: Text, e: Text)
    requires EscapesTo(s, e)
    ensures e == Escape(s)
    decreases |s|
  {
    if s != [] {
      var n, head, rest :| 0 < n <= |s| && EscapedHead(s, n, head) && e == head + rest && EscapesTo(s[n..], rest);
      EscapedHeadUnique(s, n, head);
      EscapesToUnique(s[n..], rest);
    }
  }

  lemma StringUnique(s: Text, t: Text)
    requires SpellsString(s, t)
    ensures t == Quoted(s)
  {
    var e :| EscapesTo(s, e) && t == [34] + e + [34];
    EscapesToUnique(s, e);
  }

  /** A value has one canonical text: the bytes that are written for it. */
  lemma {:induction false} OneSpelling(v: Json, t: Text)
    ensures Spells(v, t) <==> t == Write(v)
    decreases v, 1
  {
    WriteSpells(v);
    if Spells(v, t) {
      match v
      case Null => assert Ascii("null") == NULL_TEXT;
      case Bool(b) => assert Ascii("true") == TRUE_TEXT && Ascii("false") == FALSE_TEXT;
      case Num(_) =>
      case Str(chars) => StringUnique(chars, t);
      case Arr(_) => ArrayUnique(v, t);
      case Obj(_) => ObjectUnique(v, t);
    }
  }

  lemma {:induction false} ArrayUnique(v: Json, t: Text)
    requires v.Arr? && Spells(v, t)
    ensures t == Write(v)
    decreases v, 0
  {
    var parts :| SpellsItems(v, parts) && t == Ascii("[") + Joined(parts) + Ascii("]");
    forall i | 0 <= i < |parts| ensures parts[i] == Write(v.items[i]) {
      OneSpelling(v.items[i], parts[i]);
    }
    ArrayJoins(v, parts);
  }

  lemma {:induction false} MemberUnique(v: Json, k: Text, part: Text)
    requires v.Obj? && SpellsMember(v, k, part)
    ensures part == WriteMember(v, k)
    decreases v, 0, 0
  {
    var name, value :|
      SpellsString(k, name) && Spells(v.members[k], value) && part == name + Ascii(":") + value;
    StringUnique(k, name);
    OneSpelling(v.members[k], value);
    NamedText(v, k);
  }

  lemma {:induction false} ObjectUnique(v: Json, t: Text)
    requires v.Obj? && Spells(v, t)
    ensures t == Write(v)
    decreases v, 0, 1
  {
    var keys, parts :| SpellsMembers(v, keys, parts) && t == Ascii("{") + Joined(parts) + Ascii("}");
    KeysAscend(v.members.Keys);
    AscendingUnique(keys, SortedKeys(v.members.Keys));
    forall i | 0 <= i < |keys| ensures parts[i] == MemberTexts(v, keys)[i] {
      MemberUnique(v, keys[i], parts[i]);
    }
    ObjectJoins(v, keys, parts);
    assert Write(v) == [OPEN_OBJECT] + Members(v, keys);
  }

  // ---- writeCanonical ----

  method KeysOf(members: map<Text, Json>) returns (keys: seq<Text>)
    ensures keys == SortedKeys(members.Keys)
  {
    keys := [];
    var left := members.Keys;
    while left != {}
      invariant left <= members.Keys && multiset(keys) == multiset(members.Keys - left)
      decreases |left|
    {
      var k :| k in left;
      keys := keys + [k];
      assert multiset(members.Keys - (left - {k})) == multiset(members.Keys - left) + multiset{k};
      left := left - {k};
    }
    assert members.Keys - {} == members.Keys;
    TextOrder();
    EnumerateContents(members.Keys);
    SortOfSameContents(TextLe, Enumerate(members.Keys), keys);
    keys := Sort(TextLe, keys);
  }

  /** Appends the canonical bytes of `v` to the buffer. */
  method WriteCanonical(buf: Text, v: Json) returns (out: Text)
    ensures out == buf + Write(v)
    ensures buf <= out && Spells(v, out[|buf|..])
    decreases v
  {
    WriteSpells(v);
    assert (buf + Write(v))[|buf|..] == Write(v);
    match v
    case Null => out := buf + NULL_TEXT;
    case Bool(b) => out := buf + if b then TRUE_TEXT else FALSE_TEXT;
    case Num(text) => out := buf + text;
    case Str(chars) => out := buf + Quoted(chars);
    case Arr(items) => out := WriteArray(buf, v);
    case Obj(members) => out := WriteObject(buf, v);
  }

  /** The array text that is still to come at item `i`. */
  ghost function RestOfArray(items: seq<Json>, i: nat): Text
    requires i <= |items|
  {
    if i == 0 && items != [] then Write(items[0]) + WriteItems(items[1..]) else WriteItems(items[i..])
  }

  lemma ArrayItem(items: seq<Json>, i: nat)
    requires i < |items|
    ensures RestOfArray(items, i) == (if i > 0 then [COMMA] else []) + (Write(items[i]) + RestOfArray(items, i + 1))
  {
    assert items[i..][1..] == items[i + 1..];
  }

  lemma Appended(buf: Text, a: Text, b: Text, rest: Text)
    ensures buf + a + b + rest == buf + (a + (b + rest))
  {
  }

  method WriteArray(buf: Text, v: Json) returns (out: Text)
    requires v.Arr?
    ensures out == buf + Write(v)
    decreases v, 0
  {
    var items := v.items;
    out := buf + [OPEN_ARRAY];
    Assoc(buf, [OPEN_ARRAY], RestOfArray(items, 0));
    for i := 0 to |items|
      invariant out + RestOfArray(items, i) == buf + Write(v)
    {
      ArrayItem(items, i);
      var comma := if i > 0 then [COMMA] else [];
      Appended(out, comma, Write(items[i]), RestOfArray(items, i + 1));
      out := WriteCanonical(out + comma, items[i]);
    }
    out := out + [CLOSE_ARRAY];
  }

  ghost function RestOfObject(v: Json, keys: seq<Text>, i: nat): Text
    requires v.Obj? && i <= |keys| && forall k :: k in keys ==> k in v.members
  {
    if i == 0 && keys != [] then WriteMember(v, keys[0]) + WriteMembers(v, keys[1..]) else WriteMembers(v, keys[i..])
  }

  lemma ObjectMember(v: Json, keys: seq<Text>, i: nat)
    requires v.Obj? && i < |keys| && forall k :: k in keys ==> k in v.members
    ensures keys[i] in v.members
    ensures RestOfObject(v, keys, i) == (if i > 0 then [COMMA] else [])
            + (WriteMember(v, keys[i]) + RestOfObject(v, keys, i + 1))
  {
    assert keys[i..][1..] == keys[i + 1..];
    assert keys[i] in keys;
  }

  method WriteObject(buf: Text, v: Json) returns (out: Text)
    requires v.Obj?
    ensures out == buf + Write(v)
    ensures exists keys, parts ::
              SpellsMembers(v, keys, parts) && out == buf + (Ascii("{") + Joined(parts) + Ascii("}"))
    decreases v, 0
  {
    ObjectSpells(v);
    var keys := KeysOf(v.members);
    out := buf + [OPEN_OBJECT];
    Assoc(buf, [OPEN_OBJECT], RestOfObject(v, keys, 0));
    for i := 0 to |keys|
      invariant out + RestOfObject(v, keys, i) == buf + Write(v)
    {
      ObjectMember(v, keys, i);
      var comma := if i > 0 then [COMMA] else [];
      Appended(out, comma, WriteMember(v, keys[i]), RestOfObject(v, keys, i + 1));
      var name := Quoted(keys[i]) + [COLON];
      Assoc(out + comma, name, Write(v.members[keys[i]]));
      Assoc(Quoted(keys[i]), [COLON], Write(v.members[keys[i]]));
      out := WriteCanonical(out + comma + name, v.members[keys[i]]);
    }
    out := out + [CLOSE_OBJECT];
  }
}
