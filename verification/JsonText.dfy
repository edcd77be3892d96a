/**
 JSON text (RFC 8259) as `JSON.stringify` writes it, and a reader that undoes it.
 Numbers are abstract: `NumberFormat` gives the text of a finite number.
 */
module JsonText {
  import opened Outcomes
  import opened Utf16

  datatype Number<N> = Finite(value: N) | NegativeZero | NotFinite

  /**
   A JavaScript value handed to the serializer. An object lists its own members
   in the order it enumerates them; `Foreign` is whatever JSON has no form for
   (undefined, functions, class instances, ...).
   */
  datatype Json<N> =
    | Null
    | Bool(flag: bool)
    | Num(number: Number<N>)
    | Str(text: Text)
    | Arr(items: seq<Json<N>>)
    | Obj(members: seq<Member<N>>)
    | Foreign

  datatype Member<N> = Member(key: Text, value: Json<N>)

  datatype NumberFormat<!N> = NumberFormat(show: N -> Text, read: Text -> Option<N>)

  predicate IsNumberUnit(u: Unit) {
    0x30 <= u <= 0x39 || u == 0x2B || u == 0x2D || u == 0x2E || u == 0x65
  }

  predicate IsNumberText(t: Text) {
    t != [] && forall i | 0 <= i < |t| :: IsNumberUnit(t[i])
  }

  /** What number printing must be: text of digits, signs, point and `e` from which the number can be read back. */
  ghost predicate Faithful<N(!new)>(format: NumberFormat<N>) {
    forall n :: IsNumberText(format.show(n)) && format.read(format.show(n)) == Some(n)
  }

  const QUOTE: Unit := 0x22
  const BACKSLASH: Unit := 0x5C
  const COMMA: Unit := 0x2C
  const COLON: Unit := 0x3A
  const OPEN_LIST: Unit := 0x5B
  const CLOSE_LIST: Unit := 0x5D
  const OPEN_OBJECT: Unit := 0x7B
  const CLOSE_OBJECT: Unit := 0x7D
  const NULL: Text := [0x6E, 0x75, 0x6C, 0x6C]
  const TRUE: Text := [0x74, 0x72, 0x75, 0x65]
  const FALSE: Text := [0x66, 0x61, 0x6C, 0x73, 0x65]

  // ---- Strings ----------------------------------------------------------------

  type Nibble = n: int | 0 <= n < 16

  function HexDigit(n: Nibble): Unit {
    if n < 10 then 0x30 + n else 0x61 + n - 10
  }

  function HexValue(u: Unit): Option<Nibble> {
    if 0x30 <= u <= 0x39 then Some(u - 0x30)
    else if 0x61 <= u <= 0x66 then Some(u - 0x61 + 10)
    else None
  }

  /** The letter of a two-character escape, 0 if the unit has none. */
  function ShortEscape(u: Unit): Unit {
    if u == QUOTE then QUOTE
    else if u == BACKSLASH then BACKSLASH
    else if u == 8 then 0x62
    else if u == 12 then 0x66
    else if u == 10 then 0x6E
    else if u == 13 then 0x72
    else if u == 9 then 0x74
    else 0
  }

  function ShortUnescape(letter: Unit): Option<Unit> {
    if letter == QUOTE then Some(QUOTE)
    else if letter == BACKSLASH then Some(BACKSLASH)
    else if letter == 0x62 then Some(8)
    else if letter == 0x66 then Some(12)
    else if letter == 0x6E then Some(10)
    else if letter == 0x72 then Some(13)
    else if letter == 0x74 then Some(9)
    else None
  }

  /** One unit on its own: lone surrogates and control characters are escaped. */
  function EscapeUnit(u: Unit): (t: Text)
    ensures 1 <= |t| <= 6
  {
    if ShortEscape(u) != 0 then [BACKSLASH, ShortEscape(u)]
    else if u < 0x20 || IsSurrogate(u) then
      [BACKSLASH, 0x75, HexDigit(u / 4096), HexDigit(u / 256 % 16), HexDigit(u / 16 % 16), HexDigit(u % 16)]
    else [u]
  }

  /** The string after its opening quote. */
  function StringRest(s: Text): Text {
    if s == [] then [QUOTE]
    else if StartsWithPair(s) then [s[0], s[1]] + StringRest(s[2..])
    else EscapeUnit(s[0]) + StringRest(s[1..])
  }

  function Quoted(s: Text): Text {
    [QUOTE] + StringRest(s)
  }

  function Unhex(t: Text): Option<Unit>
    requires |t| >= 4
  {
    match (HexValue(t[0]), HexValue(t[1]), HexValue(t[2]), HexValue(t[3]))
    case (Some(a), Some(b), Some(c), Some(d)) => Some(a as int * 4096 + b as int * 256 + c as int * 16 + d)
    case _ => None
  }

  /** One possibly escaped unit and its width. */
  function ReadUnit(t: Text): (r: Option<(Unit, nat)>)
    requires t != []
    ensures r.Some? ==> 1 <= r.value.1 <= |t|
  {
    if t[0] != BACKSLASH then Some((t[0], 1))
    else if |t| >= 6 && t[1] == 0x75 then
      match Unhex(t[2..6])
      case Some(u) => Some((u, 6))
      case None => None
    else if |t| >= 2 then
      match ShortUnescape(t[1])
      case Some(u) => Some((u, 2))
      case None => None
    else None
  }

  /** Reads a string after its opening quote. */
  function ReadString(t: Text): (r: Option<(Text, Text)>)
    ensures r.Some? ==> |r.value.1| < |t|
  {
    if t == [] then None
    else if t[0] == QUOTE then Some(([], t[1..]))
    else
      match ReadUnit(t)
      case None => None
      case Some((u, n)) =>
        match ReadString(t[n..])
        case None => None
        case Some((s, rest)) => Some(([u] + s, rest))
  }

  // ---- Values -----------------------------------------------------------------

  function Print<N>(format: NumberFormat<N>, v: Json<N>): Text {
    match v
    case Null => NULL
    case Bool(flag) => if flag then TRUE else FALSE
    case Num(Finite(n)) => format.show(n)
    case Num(_) => NULL
    case Str(s) => Quoted(s)
    case Arr(items) => [OPEN_LIST] + (if items == [] then [CLOSE_LIST] else PrintItems(format, items))
    case Obj(members) => [OPEN_OBJECT] + (if members == [] then [CLOSE_OBJECT] else PrintMembers(format, members))
    case Foreign => NULL
  }

  /** The items of a list and its closing bracket. */
  function PrintItems<N>(format: NumberFormat<N>, items: seq<Json<N>>): Text
    requires items != []
  {
    Print(format, items[0])
    + (if |items| == 1 then [CLOSE_LIST] else [COMMA] + PrintItems(format, items[1..]))
  }

  function PrintMembers<N>(format: NumberFormat<N>, members: seq<Member<N>>): Text
    requires members != []
  {
    Quoted(members[0].key) + [COLON] + Print(format, members[0].value)
    + (if |members| == 1 then [CLOSE_OBJECT] else [COMMA] + PrintMembers(format, members[1..]))
  }

  // ---- What is printed, by the characters of RFC 8259 --------------------------------------------

  /** Texts with a comma between each two. */
  function WithCommas(texts: seq<Text>): Text {
    if |texts| == 0 then []
    else if |texts| == 1 then texts[0]
    else texts[0] + Ascii(",") + WithCommas(texts[1..])
  }

  lemma LiteralsAsWritten<N>(format: NumberFormat<N>)
    ensures Print(format, Null) == Ascii("null")
    ensures Print(format, Bool(true)) == Ascii("true") && Print(format, Bool(false)) == Ascii("false")
    ensures Print(format, Arr([])) == Ascii("[]") && Print(format, Obj([])) == Ascii("{}")
    ensures Print(format, Num(NotFinite)) == Ascii("null") && Quoted([]) == Ascii("\"\"")
  {}

  function Printed<N>(format: NumberFormat<N>, items: seq<Json<N>>): (r: seq<Text>)
    ensures |r| == |items|
  {
    if items == [] then [] else [Print(format, items[0])] + Printed(format, items[1..])
  }

  function PrintedMembers<N>(format: NumberFormat<N>, members: seq<Member<N>>): (r: seq<Text>)
    ensures |r| == |members|
  {
    if members == [] then []
    else [Quoted(members[0].key) + Ascii(":") + Print(format, members[0].value)] + PrintedMembers(format, members[1..])
  }

  lemma {:induction false} ItemsAsWritten<N>(format: NumberFormat<N>, items: seq<Json<N>>)
    requires items != []
    ensures PrintItems(format, items) == WithCommas(Printed(format, items)) + Ascii("]")
  {
    if |items| > 1 {
      ItemsAsWritten(format, items[1..]);
      assert Printed(format, items)[1..] == Printed(format, items[1..]);
    }
  }

  /** A list is its items between brackets, with commas; an object its quoted keys, colons and values between braces. */
  lemma ListAsWritten<N>(format: NumberFormat<N>, items: seq<Json<N>>)
    ensures Print(format, Arr(items)) == Ascii("[") + WithCommas(Printed(format, items)) + Ascii("]")
  {
    if items != [] { ItemsAsWritten(format, items); }
  }

  lemma {:induction false} MembersAsWritten<N>(format: NumberFormat<N>, members: seq<Member<N>>)
    requires members != []
    ensures PrintMembers(format, members) == WithCommas(PrintedMembers(format, members)) + Ascii("}")
  {
    if |members| > 1 {
      MembersAsWritten(format, members[1..]);
      assert PrintedMembers(format, members)[1..] == PrintedMembers(format, members[1..]);
    }
  }

  lemma ObjectAsWritten<N>(format: NumberFormat<N>, members: seq<Member<N>>)
    ensures Print(format, Obj(members)) == Ascii("{") + WithCommas(PrintedMembers(format, members)) + Ascii("}")
  {
    if members != [] { MembersAsWritten(format, members); }
  }

  /** The escapes: seven letters, four hex digits for other control characters and lone surrogates, nothing else. */
  lemma UnitAsWritten(u: Unit)
    ensures u == 0x22 ==> EscapeUnit(u) == Ascii("\\\"")
    ensures u == 0x5C ==> EscapeUnit(u) == Ascii("\\\\")
    ensures u == 8 ==> EscapeUnit(u) == Ascii("\\b")
    ensures u == 9 ==> EscapeUnit(u) == Ascii("\\t")
    ensures u == 10 ==> EscapeUnit(u) == Ascii("\\n")
    ensures u == 12 ==> EscapeUnit(u) == Ascii("\\f")
    ensures u == 13 ==> EscapeUnit(u) == Ascii("\\r")
    ensures u >= 0x20 && u != 0x22 && u != 0x5C && !(0xD800 <= u < 0xE000) ==> EscapeUnit(u) == [u]
  {}

  /** The other control characters and the surrogates on their own, as four hex digits. */
  lemma ControlAsWritten(u: Unit)
    requires (u < 0x20 && u != 8 && u != 9 && u != 10 && u != 12 && u != 13) || 0xD800 <= u < 0xE000
    ensures var t := EscapeUnit(u); |t| == 6 && t[..2] == Ascii("\\u") && Unhex(t[2..]) == Some(u)
  {
    var t := EscapeUnit(u);
    HexRoundTrip(u);
    assert t[2..] == [HexDigit(u / 4096), HexDigit(u / 256 % 16), HexDigit(u / 16 % 16), HexDigit(u % 16)];
  }

  /** The hex digits are 0 to 9 and the lower-case letters. */
  lemma HexDigitsAsWritten(n: Nibble)
    ensures HexDigit(0) == '0' as int && HexDigit(9) == '9' as int && HexDigit(10) == 'a' as int && HexDigit(15) == 'f' as int
    ensures n != 0 && n != 10 ==> HexDigit(n) == HexDigit(n - 1) + 1
  {}

  function NumberWidth(t: Text): (n: nat)
    ensures n <= |t|
  {
    if t != [] && IsNumberUnit(t[0]) then 1 + NumberWidth(t[1..]) else 0
  }

  function ReadNumber<N>(format: NumberFormat<N>, t: Text): (r: Option<(Json<N>, Text)>)
    ensures r.Some? ==> |r.value.1| < |t|
  {
    var n := NumberWidth(t);
    if n == 0 then None
    else
      match format.read(t[..n])
      case None => None
      case Some(value) => Some((Num(Finite(value)), t[n..]))
  }

  /** Reads one value off the front of a text without white space. */
  function Read<N>(format: NumberFormat<N>, t: Text): (r: Option<(Json<N>, Text)>)
    ensures r.Some? ==> |r.value.1| < |t|
    decreases |t|, 0
  {
    if t == [] then None
    else if t[0] == OPEN_LIST then
      if |t| >= 2 && t[1] == CLOSE_LIST then Some((Arr([]), t[2..]))
      else
        match ReadItems(format, t[1..])
        case None => None
        case Some((items, rest)) => Some((Arr(items), rest))
    else if t[0] == OPEN_OBJECT then
      if |t| >= 2 && t[1] == CLOSE_OBJECT then Some((Obj([]), t[2..]))
      else
        match ReadMembers(format, t[1..])
        case None => None
        case Some((members, rest)) => Some((Obj(members), rest))
    else if t[0] == QUOTE then
      match ReadString(t[1..])
      case None => None
      case Some((s, rest)) => Some((Str(s), rest))
    else if NULL <= t then Some((Null, t[|NULL|..]))
    else if TRUE <= t then Some((Bool(true), t[|TRUE|..]))
    else if FALSE <= t then Some((Bool(false), t[|FALSE|..]))
    else ReadNumber(format, t)
  }

  function ReadItems<N>(format: NumberFormat<N>, t: Text): (r: Option<(seq<Json<N>>, Text)>)
    ensures r.Some? ==> |r.value.1| < |t|
    decreases |t|, 1
  {
    match Read(format, t)
    case None => None
    case Some((item, rest)) =>
      if rest == [] then None
      else if rest[0] == CLOSE_LIST then Some(([item], rest[1..]))
      else if rest[0] != COMMA then None
      else
        match ReadItems(format, rest[1..])
        case None => None
        case Some((items, end)) => Some(([item] + items, end))
  }

  function ReadMembers<N>(format: NumberFormat<N>, t: Text): (r: Option<(seq<Member<N>>, Text)>)
    ensures r.Some? ==> |r.value.1| < |t|
    decreases |t|, 1
  {
    match ReadMember(format, t)
    case None => None
    case Some((member, rest)) =>
      if rest == [] then None
      else if rest[0] == CLOSE_OBJECT then Some(([member], rest[1..]))
      else if rest[0] != COMMA then None
      else
        match ReadMembers(format, rest[1..])
        case None => None
        case Some((members, end)) => Some(([member] + members, end))
  }

  function ReadMember<N>(format: NumberFormat<N>, t: Text): (r: Option<(Member<N>, Text)>)
    ensures r.Some? ==> |r.value.1| < |t|
    decreases |t|, 0
  {
    if t == [] || t[0] != QUOTE then None
    else
      match ReadString(t[1..])
      case None => None
      case Some((key, rest)) =>
        if rest == [] || rest[0] != COLON then None
        else
          match Read(format, rest[1..])
          case None => None
          case Some((value, end)) => Some((Member(key, value), end))
  }

  // ---- Reading undoes printing --------------------------------------------------

  lemma ReadEscapedUnit(u: Unit, rest: Text)
    ensures var t := EscapeUnit(u) + rest; t[0] != QUOTE && ReadUnit(t) == Some((u, |EscapeUnit(u)|))
  {
    var t := EscapeUnit(u) + rest;
    if ShortEscape(u) != 0 {
      assert t[0] == BACKSLASH && t[1] == ShortEscape(u);
    } else if u < 0x20 || IsSurrogate(u) {
      assert t[..6] == EscapeUnit(u);
      assert t[1] == 0x75 && t[2..6] == EscapeUnit(u)[2..6];
      HexRoundTrip(u);
    }
  }

  lemma HexDigitValue(n: Nibble)
    ensures HexValue(HexDigit(n)) == Some(n)
  {}

  lemma HexRoundTrip(u: Unit)
    ensures Unhex([HexDigit(u / 4096), HexDigit(u / 256 % 16), HexDigit(u / 16 % 16), HexDigit(u % 16)]) == Some(u)
  {
    var a: Nibble, b: Nibble, c: Nibble, d: Nibble := u / 4096, u / 256 % 16, u / 16 % 16, u % 16;
    HexDigitValue(a);
    HexDigitValue(b);
    HexDigitValue(c);
    HexDigitValue(d);
    Nibbles(u);
  }

  lemma Nibbles(u: Unit)
    ensures u / 4096 * 4096 + u / 256 % 16 * 256 + u / 16 % 16 * 16 + u % 16 == u
  {
    var q, q2, q3 := u / 16, u / 16 / 16, u / 16 / 16 / 16;
    assert u == 16 * q + u % 16 && q == 16 * q2 + q % 16 && q2 == 16 * q3 + q2 % 16;
    assert u / 256 == q2 && u / 4096 == q3;
  }

  lemma ReadStep(t: Text, u: Unit, n: nat, s: Text, rest: Text)
    requires t != [] && t[0] != QUOTE && ReadUnit(t) == Some((u, n))
    requires ReadString(t[n..]) == Some((s, rest))
    ensures ReadString(t) == Some(([u] + s, rest))
  {}

  lemma ReadEscapedStep(u: Unit, tail: Text, s: Text, rest: Text)
    requires ReadString(tail) == Some((s, rest))
    ensures ReadString(EscapeUnit(u) + tail) == Some(([u] + s, rest))
  {
    var head := EscapeUnit(u);
    ReadEscapedUnit(u, tail);
    assert (head + tail)[|head|..] == tail;
    ReadStep(head + tail, u, |head|, s, rest);
  }

  lemma ReadRawStep(u: Unit, tail: Text, s: Text, rest: Text)
    requires u != QUOTE && u != BACKSLASH && ReadString(tail) == Some((s, rest))
    ensures ReadString([u] + tail) == Some(([u] + s, rest))
  {
    assert ([u] + tail)[1..] == tail;
    ReadStep([u] + tail, u, 1, s, rest);
  }

  lemma ReadPairStep(high: Unit, low: Unit, body: Text, s: Text, rest: Text)
    requires IsSurrogate(high) && IsSurrogate(low) && ReadString(body + rest) == Some((s, rest))
    ensures ReadString([high, low] + body + rest) == Some(([high, low] + s, rest))
  {
    ReadRawStep(low, body + rest, s, rest);
    ReadRawStep(high, [low] + (body + rest), [low] + s, rest);
    assert [high, low] + body + rest == [high] + ([low] + (body + rest));
    assert [high, low] + s == [high] + ([low] + s);
  }

  lemma ReadUnitStep(u: Unit, body: Text, s: Text, rest: Text)
    requires ReadString(body + rest) == Some((s, rest))
    ensures ReadString(EscapeUnit(u) + body + rest) == Some(([u] + s, rest))
  {
    ReadEscapedStep(u, body + rest, s, rest);
    assert EscapeUnit(u) + body + rest == EscapeUnit(u) + (body + rest);
  }

  lemma {:induction false} ReadQuoted(s: Text, rest: Text)
    ensures ReadString(StringRest(s) + rest) == Some((s, rest))
    decreases |s|
  {
    if s == [] {
      assert ([QUOTE] + rest)[1..] == rest;
    } else if StartsWithPair(s) {
      ReadQuoted(s[2..], rest);
      ReadPairStep(s[0], s[1], StringRest(s[2..]), s[2..], rest);
      assert s == [s[0], s[1]] + s[2..];
    } else {
      ReadQuoted(s[1..], rest);
      ReadUnitStep(s[0], StringRest(s[1..]), s[1..], rest);
      assert s == [s[0]] + s[1..];
    }
  }

  /** A value the serializer prints as JSON of its own kind. */
  predicate Printable<N>(v: Json<N>) {
    match v
    case Num(n) => n.Finite?
    case Arr(items) => forall i | 0 <= i < |items| :: Printable(items[i])
    case Obj(members) => forall i | 0 <= i < |members| :: Printable(members[i].value)
    case Foreign => false
    case _ => true
  }

  predicate EndsNumber(rest: Text) {
    rest == [] || !IsNumberUnit(rest[0])
  }

  lemma {:induction false} NumberWidthOf(t: Text, rest: Text)
    requires forall i | 0 <= i < |t| :: IsNumberUnit(t[i])
    requires EndsNumber(rest)
    ensures NumberWidth(t + rest) == |t|
  {
    if t == [] {
      assert t + rest == rest;
    } else {
      assert (t + rest)[1..] == t[1..] + rest;
      NumberWidthOf(t[1..], rest);
    }
  }

  lemma ReadPrintedNumber<N(!new)>(format: NumberFormat<N>, n: N, rest: Text)
    requires Faithful(format) && EndsNumber(rest)
    ensures Read(format, format.show(n) + rest) == Some((Num(Finite(n)), rest))
  {
    var t := format.show(n);
    assert IsNumberText(t) && format.read(t) == Some(n);
    NumberWidthOf(t, rest);
    assert (t + rest)[..|t|] == t && (t + rest)[|t|..] == rest;
    assert IsNumberUnit((t + rest)[0]);
  }

  lemma ReadLiteral<N>(format: NumberFormat<N>, v: Json<N>, rest: Text)
    requires v.Null? || v.Bool?
    ensures Read(format, Print(format, v) + rest) == Some((v, rest))
  {
    var t := Print(format, v) + rest;
    assert t[|Print(format, v)|..] == rest;
    assert t[0] == Print(format, v)[0];
  }

  /** Reading undoes printing, whatever follows the value. */
  lemma {:induction false} ReadInvertsPrint<N(!new)>(format: NumberFormat<N>, v: Json<N>, rest: Text)
    requires Faithful(format) && Printable(v) && EndsNumber(rest)
    ensures Read(format, Print(format, v) + rest) == Some((v, rest))
    decreases v, 3
  {
    match v
    case Null => ReadLiteral(format, v, rest);
    case Bool(_) => ReadLiteral(format, v, rest);
    case Num(n) => ReadPrintedNumber(format, n.value, rest);
    case Str(s) =>
      assert (Quoted(s) + rest)[1..] == StringRest(s) + rest;
      ReadQuoted(s, rest);
    case Arr(items) => ReadInvertsPrintList(format, v, rest);
    case Obj(members) => ReadInvertsPrintObject(format, v, rest);
  }

  lemma ReadList<N(!new)>(format: NumberFormat<N>, t: Text, items: seq<Json<N>>, rest: Text)
    requires |t| >= 2 && t[0] == OPEN_LIST && t[1] != CLOSE_LIST && ReadItems(format, t[1..]) == Some((items, rest))
    ensures Read(format, t) == Some((Arr(items), rest))
  {}

  /** The text of a list or an object after its opening bracket. */
  lemma OpenedText(open: Unit, inner: Text, rest: Text)
    requires inner != []
    ensures var t := [open] + inner + rest;
            |t| >= 2 && t[0] == open && t[1] == inner[0] && t[1..] == inner + rest && t[2..] == inner[1..] + rest
  {}

  lemma {:induction false} ReadInvertsPrintList<N(!new)>(format: NumberFormat<N>, v: Json<N>, rest: Text)
    requires Faithful(format) && v.Arr? && Printable(v)
    ensures Read(format, Print(format, v) + rest) == Some((v, rest))
    decreases v, 2
  {
    if v.items == [] {
      OpenedText(OPEN_LIST, [CLOSE_LIST], rest);
      assert [CLOSE_LIST][1..] + rest == rest;
    } else {
      ReadInvertsPrintItems(format, v.items, rest);
      ItemsStart(format, v.items);
      OpenedText(OPEN_LIST, PrintItems(format, v.items), rest);
      ReadList(format, Print(format, v) + rest, v.items, rest);
    }
  }

  lemma ItemsStart<N(!new)>(format: NumberFormat<N>, items: seq<Json<N>>)
    requires Faithful(format) && items != [] && Printable(items[0])
    ensures PrintItems(format, items) != [] && PrintItems(format, items)[0] != CLOSE_LIST
  {
    FirstUnit(format, items[0]);
  }

  lemma ReadObject<N(!new)>(format: NumberFormat<N>, t: Text, members: seq<Member<N>>, rest: Text)
    requires |t| >= 2 && t[0] == OPEN_OBJECT && t[1] != CLOSE_OBJECT && ReadMembers(format, t[1..]) == Some((members, rest))
    ensures Read(format, t) == Some((Obj(members), rest))
  {}

  lemma {:induction false} ReadInvertsPrintObject<N(!new)>(format: NumberFormat<N>, v: Json<N>, rest: Text)
    requires Faithful(format) && v.Obj? && Printable(v)
    ensures Read(format, Print(format, v) + rest) == Some((v, rest))
    decreases v, 2
  {
    if v.members == [] {
      OpenedText(OPEN_OBJECT, [CLOSE_OBJECT], rest);
      assert [CLOSE_OBJECT][1..] + rest == rest;
    } else {
      ReadInvertsPrintMembers(format, v.members, rest);
      OpenedText(OPEN_OBJECT, PrintMembers(format, v.members), rest);
      ReadObject(format, Print(format, v) + rest, v.members, rest);
    }
  }

  lemma FirstUnit<N(!new)>(format: NumberFormat<N>, v: Json<N>)
    requires Faithful(format) && Printable(v)
    ensures Print(format, v) != [] && Print(format, v)[0] != CLOSE_LIST
  {
    if v.Num? {
      assert IsNumberText(format.show(v.number.value));
    }
  }

  lemma {:induction false} ReadInvertsPrintItems<N(!new)>(format: NumberFormat<N>, items: seq<Json<N>>, rest: Text)
    requires Faithful(format) && items != [] && (forall i | 0 <= i < |items| :: Printable(items[i]))
    ensures ReadItems(format, PrintItems(format, items) + rest) == Some((items, rest))
    decreases items, 1
  {
    var first := Print(format, items[0]);
    if |items| == 1 {
      assert PrintItems(format, items) + rest == first + ([CLOSE_LIST] + rest);
      ReadInvertsPrint(format, items[0], [CLOSE_LIST] + rest);
      assert ([CLOSE_LIST] + rest)[1..] == rest && items == [items[0]];
    } else {
      var tail := PrintItems(format, items[1..]) + rest;
      assert PrintItems(format, items) + rest == first + ([COMMA] + tail);
      ReadInvertsPrint(format, items[0], [COMMA] + tail);
      assert ([COMMA] + tail)[1..] == tail;
      ReadInvertsPrintItems(format, items[1..], rest);
      assert items == [items[0]] + items[1..];
    }
  }

  lemma {:induction false} ReadInvertsPrintMember<N(!new)>(format: NumberFormat<N>, m: Member<N>, rest: Text)
    requires Faithful(format) && Printable(m.value) && EndsNumber(rest)
    ensures ReadMember(format, Quoted(m.key) + [COLON] + Print(format, m.value) + rest) == Some((m, rest))
    decreases m, 1
  {
    var t := Quoted(m.key) + [COLON] + Print(format, m.value) + rest;
    var tail := Print(format, m.value) + rest;
    assert t[1..] == StringRest(m.key) + ([COLON] + tail);
    ReadQuoted(m.key, [COLON] + tail);
    assert ([COLON] + tail)[1..] == tail;
    ReadInvertsPrint(format, m.value, rest);
  }

  lemma {:induction false} ReadInvertsPrintMembers<N(!new)>(format: NumberFormat<N>, members: seq<Member<N>>, rest: Text)
    requires Faithful(format) && members != [] && (forall i | 0 <= i < |members| :: Printable(members[i].value))
    ensures ReadMembers(format, PrintMembers(format, members) + rest) == Some((members, rest))
    ensures PrintMembers(format, members)[0] == QUOTE
    decreases members, 2
  {
    var first := Quoted(members[0].key) + [COLON] + Print(format, members[0].value);
    if |members| == 1 {
      assert PrintMembers(format, members) + rest == first + ([CLOSE_OBJECT] + rest);
      ReadInvertsPrintMember(format, members[0], [CLOSE_OBJECT] + rest);
      assert ([CLOSE_OBJECT] + rest)[1..] == rest && members == [members[0]];
    } else {
      var tail := PrintMembers(format, members[1..]) + rest;
      assert PrintMembers(format, members) + rest == first + ([COMMA] + tail);
      ReadInvertsPrintMember(format, members[0], [COMMA] + tail);
      assert ([COMMA] + tail)[1..] == tail;
      ReadInvertsPrintMembers(format, members[1..], rest);
      assert members == [members[0]] + members[1..];
    }
  }

  /** Different printable values never print the same text. */
  lemma PrintInjective<N(!new)>(format: NumberFormat<N>, a: Json<N>, b: Json<N>)
    requires Faithful(format) && Printable(a) && Printable(b)
    requires Print(format, a) == Print(format, b)
    ensures a == b
  {
    ReadInvertsPrint(format, a, []);
    ReadInvertsPrint(format, b, []);
  }

  // ---- The cost of a quoted string ------------------------------------------------

  /** Quoting a string costs at most six bytes a code unit and the two quotes. */
  lemma {:induction false} QuotedWeight(s: Text)
    ensures Weight(Quoted(s)) <= 6 * |s| + 2
  {
    StringRestWeight(s);
    assert Quoted(s)[1..] == StringRest(s);
  }

  lemma {:induction false} StringRestWeight(s: Text)
    ensures Weight(StringRest(s)) <= 6 * |s| + 1
    decreases |s|
  {
    if s == [] {
      assert [QUOTE][1..] == [];
    } else if StartsWithPair(s) {
      StringRestWeight(s[2..]);
      WeightConcat([s[0], s[1]], StringRest(s[2..]));
      ByteLengthWithinWeight([s[0], s[1]]);
    } else {
      StringRestWeight(s[1..]);
      WeightConcat(EscapeUnit(s[0]), StringRest(s[1..]));
      EscapeWeight(s[0]);
    }
  }

  lemma EscapeWeight(u: Unit)
    ensures Weight(EscapeUnit(u)) <= 6
  {
    if EscapeUnit(u) == [u] {
      assert [u][1..] == [];
    } else {
      AsciiWeight(EscapeUnit(u));
    }
  }
}
