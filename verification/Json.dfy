/** JSON values, the text the bridge writes for them, and an independent reader
    of JSON texts in the grammar of sections 2 to 7 of RFC 8259. */
module Json {
  import opened Common

  type Byte = x: int | 0 <= x < 256

  /** A JSON value. Strings are UTF-8 bytes, and a number written with a point or
      an exponent keeps its text. */
  datatype Json =
    | Null
    | Bool(b: bool)
    | Text(utf8: seq<Byte>)
    | Int(n: int)
    | Float(text: seq<Byte>)
    | Arr(items: seq<Json>)
    | Obj(fields: seq<Field>)

  datatype Field = Field(key: seq<Byte>, value: Json)

  const QUOTE: Byte := 34
  const COMMA: Byte := 44
  const MINUS: Byte := 45
  const POINT: Byte := 46
  const COLON: Byte := 58
  const OPEN_BRACKET: Byte := 91
  const BACKSLASH: Byte := 92
  const CLOSE_BRACKET: Byte := 93
  const OPEN_BRACE: Byte := 123
  const CLOSE_BRACE: Byte := 125
  const NULL_TEXT: seq<Byte> := [110, 117, 108, 108]
  const TRUE_TEXT: seq<Byte> := [116, 114, 117, 101]
  const FALSE_TEXT: seq<Byte> := [102, 97, 108, 115, 101]

  // -------------------------------------------------------------- writing

  function Hex(d: int): Byte
    requires 0 <= d < 16
  {
    if d < 10 then 48 + d else 87 + d
  }

  /** One byte inside a string literal. */
  function Escape(b: Byte): (r: seq<Byte>)
    ensures 1 <= |r| <= 6
  {
    if b == QUOTE || b == BACKSLASH then [BACKSLASH, b]
    else if b < 32 then [BACKSLASH, 117, 48, 48, Hex(b / 16), Hex(b % 16)]
    else [b]
  }

  function EscapeAll(s: seq<Byte>): seq<Byte> {
    if s == [] then [] else Escape(s[0]) + EscapeAll(s[1..])
  }

  function Quoted(s: seq<Byte>): seq<Byte> {
    [QUOTE] + EscapeAll(s) + [QUOTE]
  }

  function Digits(n: nat): seq<Byte> {
    if n < 10 then [48 + n] else Digits(n / 10) + [48 + n % 10]
  }

  function Decimal(n: int): seq<Byte> {
    if n < 0 then [MINUS] + Digits(-n) else Digits(n)
  }

  function Render(v: Json): seq<Byte>
    decreases v, 1
  {
    match v
    case Null => NULL_TEXT
    case Bool(b) => if b then TRUE_TEXT else FALSE_TEXT
    case Text(s) => Quoted(s)
    case Int(n) => Decimal(n)
    case Float(text) => text
    case Arr(items) => [OPEN_BRACKET] + RenderItems(items, true) + [CLOSE_BRACKET]
    case Obj(fields) => [OPEN_BRACE] + RenderFields(fields, true) + [CLOSE_BRACE]
  }

  function Separator(first: bool): seq<Byte> {
    if first then [] else [COMMA]
  }

  function RenderItems(items: seq<Json>, first: bool): seq<Byte>
    decreases items, 0
  {
    if items == [] then []
    else Separator(first) + Render(items[0]) + RenderItems(items[1..], false)
  }

  function RenderFields(fields: seq<Field>, first: bool): seq<Byte>
    decreases fields, 0
  {
    if fields == [] then []
    else
      Separator(first) + Quoted(fields[0].key) + [COLON] + Render(fields[0].value)
      + RenderFields(fields[1..], false)
  }

  // -------------------------------------------------------------- reading

  predicate IsSpace(b: Byte) {
    b == 32 || b == 9 || b == 10 || b == 13
  }

  function SkipSpace(s: seq<Byte>): (r: seq<Byte>)
    ensures |r| <= |s|
    ensures r == [] || !IsSpace(r[0])
  {
    if s != [] && IsSpace(s[0]) then SkipSpace(s[1..]) else s
  }

  predicate IsDigit(b: Byte) {
    48 <= b <= 57
  }

  predicate IsNumberByte(b: Byte) {
    IsDigit(b) || b == MINUS || b == 43 || b == POINT || b == 101 || b == 69
  }

  function HexValue(b: Byte): Option<nat> {
    if IsDigit(b) then Some(b - 48)
    else if 97 <= b <= 102 then Some(b - 87)
    else if 65 <= b <= 70 then Some(b - 55)
    else None
  }

  /** The letter escapes of section 7. */
  function Unescape(b: Byte): Option<Byte> {
    if b == QUOTE || b == BACKSLASH || b == 47 then Some(b)
    else if b == 98 then Some(8)
    else if b == 102 then Some(12)
    else if b == 110 then Some(10)
    else if b == 114 then Some(13)
    else if b == 116 then Some(9)
    else None
  }

  /** The byte named by four hex digits, for codes below 128. */
  function UnicodeEscape(a: Byte, b: Byte, c: Byte, d: Byte): Option<Byte> {
    if a == 48 && b == 48 && HexValue(c).Some? && HexValue(d).Some? && HexValue(c).value < 8
    then Some(16 * HexValue(c).value + HexValue(d).value)
    else None
  }

  datatype Parsed<T> = Stuck | Read(value: T, rest: seq<Byte>)

  /** The characters of a string literal after its opening quote. */
  function ReadChars(s: seq<Byte>): (r: Parsed<seq<Byte>>)
    ensures r.Read? ==> |r.rest| < |s|
  {
    if s == [] || s[0] < 32 then Stuck
    else if s[0] == QUOTE then Read([], s[1..])
    else if s[0] != BACKSLASH then Prepend(s[0], ReadChars(s[1..]))
    else if |s| >= 2 && Unescape(s[1]).Some? then Prepend(Unescape(s[1]).value, ReadChars(s[2..]))
    else if |s| >= 6 && s[1] == 117 && UnicodeEscape(s[2], s[3], s[4], s[5]).Some?
    then Prepend(UnicodeEscape(s[2], s[3], s[4], s[5]).value, ReadChars(s[6..]))
    else Stuck
  }

  function Prepend(b: Byte, r: Parsed<seq<Byte>>): Parsed<seq<Byte>> {
    if r.Read? then Read([b] + r.value, r.rest) else Stuck
  }

  /** The longest leading run of bytes a number can contain. */
  function NumberToken(s: seq<Byte>): (r: seq<Byte>)
    ensures r <= s
    ensures |r| < |s| ==> !IsNumberByte(s[|r|])
  {
    if s != [] && IsNumberByte(s[0]) then [s[0]] + NumberToken(s[1..]) else []
  }

  function DigitRun(s: seq<Byte>): (r: nat)
    ensures r <= |s|
    ensures forall k :: 0 <= k < r ==> IsDigit(s[k])
    ensures r < |s| ==> !IsDigit(s[r])
  {
    if s != [] && IsDigit(s[0]) then 1 + DigitRun(s[1..]) else 0
  }

  /** `int` of section 6: zero, or digits that do not start with zero. */
  predicate IsPlainInt(s: seq<Byte>) {
    s != [] && DigitRun(s) == |s| && (s[0] == 48 ==> |s| == 1)
  }

  function DropMinus(s: seq<Byte>): seq<Byte> {
    if s != [] && s[0] == MINUS then s[1..] else s
  }

  /** `[ exp ]` of section 6, the whole of `s`. */
  predicate IsExponent(s: seq<Byte>) {
    s == []
    || (s[0] in {101, 69}
        && var digits := if |s| >= 2 && s[1] in {43, 45} then s[2..] else s[1..];
           digits != [] && DigitRun(digits) == |digits|)
  }

  /** `[ frac ] [ exp ]` of section 6, the whole of `s`. */
  predicate IsFraction(s: seq<Byte>) {
    if s != [] && s[0] == POINT
    then DigitRun(s[1..]) > 0 && IsExponent(s[1 + DigitRun(s[1..])..])
    else IsExponent(s)
  }

  /** `number` of section 6. */
  predicate IsNumber(s: seq<Byte>) {
    var body := DropMinus(s);
    var run := DigitRun(body);
    IsPlainInt(body[..run]) && IsFraction(body[run..])
  }

  /** A number with a fraction or an exponent, written in number bytes only. */
  predicate IsFloatText(s: seq<Byte>) {
    IsNumber(s) && DigitRun(DropMinus(s)) < |DropMinus(s)| && forall k :: 0 <= k < |s| ==> IsNumberByte(s[k])
  }

  function DigitsValue(s: seq<Byte>): nat
    requires forall k :: 0 <= k < |s| ==> IsDigit(s[k])
  {
    if s == [] then 0 else
      assert IsDigit(s[|s| - 1]);
      var last: int := s[|s| - 1];
      10 * DigitsValue(s[..|s| - 1]) + last - 48
  }

  function ReadNumber(s: seq<Byte>): (r: Parsed<Json>)
    ensures r.Read? ==> |r.rest| < |s|
  {
    var token := NumberToken(s);
    var body := DropMinus(token);
    if !IsNumber(token) then Stuck
    else if DigitRun(body) < |body| then Read(Float(token), s[|token|..])
    else
      var magnitude: int := DigitsValue(body);
      Read(Int(if token[0] == MINUS then -magnitude else magnitude), s[|token|..])
  }

  function ReadValue(text: seq<Byte>): (r: Parsed<Json>)
    ensures r.Read? ==> |r.rest| < |text|
    decreases |text|, 1
  {
    var s := SkipSpace(text);
    if s == [] then Stuck
    else if NULL_TEXT <= s then Read(Null, s[4..])
    else if TRUE_TEXT <= s then Read(Bool(true), s[4..])
    else if FALSE_TEXT <= s then Read(Bool(false), s[5..])
    else if s[0] == QUOTE then
      var chars := ReadChars(s[1..]);
      if chars.Read? then Read(Text(chars.value), chars.rest) else Stuck
    else if s[0] == OPEN_BRACKET then
      var items := ReadItems(s[1..], true);
      if items.Read? then Read(Arr(items.value), items.rest) else Stuck
    else if s[0] == OPEN_BRACE then
      var fields := ReadFields(s[1..], true);
      if fields.Read? then Read(Obj(fields.value), fields.rest) else Stuck
    else ReadNumber(s)
  }

  /** The rest of an array, up to its closing bracket. */
  function ReadItems(text: seq<Byte>, first: bool): (r: Parsed<seq<Json>>)
    ensures r.Read? ==> |r.rest| < |text|
    decreases |text|, 2
  {
    var s := SkipSpace(text);
    if s == [] then Stuck
    else if s[0] == CLOSE_BRACKET then Read([], s[1..])
    else if !first && s[0] != COMMA then Stuck
    else
      var head := ReadValue(if first then s else s[1..]);
      if head.Stuck? then Stuck
      else
        var tail := ReadItems(head.rest, false);
        if tail.Read? then Read([head.value] + tail.value, tail.rest) else Stuck
  }

  /** The rest of an object, up to its closing brace. */
  function ReadFields(text: seq<Byte>, first: bool): (r: Parsed<seq<Field>>)
    ensures r.Read? ==> |r.rest| < |text|
    decreases |text|, 2
  {
    var s := SkipSpace(text);
    if s == [] then Stuck
    else if s[0] == CLOSE_BRACE then Read([], s[1..])
    else if !first && s[0] != COMMA then Stuck
    else
      var name := SkipSpace(if first then s else s[1..]);
      if name == [] || name[0] != QUOTE then Stuck
      else
        var key := ReadChars(name[1..]);
        if key.Stuck? then Stuck
        else
          var colon := SkipSpace(key.rest);
          if colon == [] || colon[0] != COLON then Stuck
          else
            var head := ReadValue(colon[1..]);
            if head.Stuck? then Stuck
            else
              var tail := ReadFields(head.rest, false);
              if tail.Read? then Read([Field(key.value, head.value)] + tail.value, tail.rest) else Stuck
  }

  /** A whole JSON text: one value between optional space. */
  function Decode(text: seq<Byte>): Option<Json> {
    var r := ReadValue(text);
    if r.Read? && SkipSpace(r.rest) == [] then Some(r.value) else None
  }

  // ----------------------------------------------------------- round trip

  /** Every float in the value carries the text of a JSON number. */
  predicate Good(v: Json)
    decreases v
  {
    match v
    case Float(text) => IsFloatText(text)
    case Arr(items) => forall k :: 0 <= k < |items| ==> Good(items[k])
    case Obj(fields) => forall k :: 0 <= k < |fields| ==> Good(fields[k].value)
    case _ => true
  }

  /** What may follow a value without extending it. */
  predicate Stops(rest: seq<Byte>) {
    rest == [] || !IsNumberByte(rest[0])
  }

  lemma HexRoundTrip(b: Byte)
    requires b < 32
    ensures UnicodeEscape(48, 48, Hex(b / 16), Hex(b % 16)) == Some(b)
  {
    assert HexValue(Hex(b / 16)) == Some(b / 16) && HexValue(Hex(b % 16)) == Some(b % 16);
  }

  lemma ReadEscape(b: Byte, after: seq<Byte>)
    ensures ReadChars(Escape(b) + after) == Prepend(b, ReadChars(after))
  {
    var text := Escape(b) + after;
    assert text[|Escape(b)|..] == after;
    if b < 32 {
      hide UnicodeEscape, HexValue, Hex;
      HexRoundTrip(b);
    }
  }

  lemma {:induction false} ReadQuoted(s: seq<Byte>, after: seq<Byte>)
    requires after != [] && after[0] == QUOTE
    ensures ReadChars(EscapeAll(s) + after) == Read(s, after[1..])
  {
    if s == [] {
      assert EscapeAll(s) + after == after;
    } else {
      ReadQuoted(s[1..], after);
      assert EscapeAll(s) + after == Escape(s[0]) + (EscapeAll(s[1..]) + after);
      ReadEscape(s[0], EscapeAll(s[1..]) + after);
      assert [s[0]] + s[1..] == s;
    }
  }

  lemma {:induction false} DigitRunAll(s: seq<Byte>)
    requires forall k :: 0 <= k < |s| ==> IsDigit(s[k])
    ensures DigitRun(s) == |s|
  {
    if s != [] { DigitRunAll(s[1..]); }
  }

  lemma {:induction false} DigitsRoundTrip(n: nat)
    ensures Digits(n) != [] && (forall k :: 0 <= k < |Digits(n)| ==> IsDigit(Digits(n)[k]))
    ensures n > 0 ==> Digits(n)[0] != 48
    ensures n < 10 ==> |Digits(n)| == 1
    ensures DigitsValue(Digits(n)) == n
  {
    if n >= 10 {
      DigitsRoundTrip(n / 10);
      assert Digits(n)[..|Digits(n)| - 1] == Digits(n / 10);
    } else {
      assert Digits(n)[..0] == [];
    }
  }

  lemma {:induction false} TokenOf(text: seq<Byte>, rest: seq<Byte>)
    requires forall k :: 0 <= k < |text| ==> IsNumberByte(text[k])
    requires Stops(rest)
    ensures NumberToken(text + rest) == text
  {
    if text == [] {
      assert text + rest == rest;
    } else {
      assert (text + rest)[1..] == text[1..] + rest;
      TokenOf(text[1..], rest);
    }
  }

  lemma ReadFloat(text: seq<Byte>, rest: seq<Byte>)
    requires IsFloatText(text) && Stops(rest)
    ensures text != [] && (text[0] == MINUS || IsDigit(text[0]))
    ensures ReadNumber(text + rest) == Read(Float(text), rest)
  {
    TokenOf(text, rest);
    assert (text + rest)[|text|..] == rest;
  }

  lemma DecimalShape(n: int)
    ensures var text := Decimal(n);
      text != [] && (text[0] == MINUS || IsDigit(text[0])) && (text[0] == MINUS <==> n < 0)
      && (forall k :: 0 <= k < |text| ==> IsNumberByte(text[k]))
      && IsNumber(text)
      && var body := DropMinus(text);
         DigitRun(body) == |body| && (forall k :: 0 <= k < |body| ==> IsDigit(body[k]))
         && DigitsValue(body) == if n < 0 then -n else n
  {
    var body := Digits(if n < 0 then -n else n);
    DigitsRoundTrip(if n < 0 then -n else n);
    DigitRunAll(body);
    hide Digits, DigitsValue, DigitRun;
    assert DropMinus(Decimal(n)) == body;
    assert body[..|body|] == body && body[|body|..] == [];
  }

  lemma ReadInt(n: int, rest: seq<Byte>)
    requires Stops(rest)
    ensures Decimal(n) != [] && (Decimal(n)[0] == MINUS || IsDigit(Decimal(n)[0]))
    ensures ReadNumber(Decimal(n) + rest) == Read(Int(n), rest)
  {
    DecimalShape(n);
    hide Decimal, IsNumber, DigitsValue, DropMinus, DigitRun, NumberToken;
    TokenOf(Decimal(n), rest);
    assert (Decimal(n) + rest)[|Decimal(n)|..] == rest;
  }

  /** A rendered value starts with a byte that opens a value. */
  lemma RenderStarts(v: Json)
    requires Good(v)
    ensures Render(v) != []
    ensures var b := Render(v)[0]; !IsSpace(b) && b != CLOSE_BRACKET && b != CLOSE_BRACE && b != COMMA
  {
    match v
    case Int(n) => ReadInt(n, []);
    case Float(text) => ReadFloat(text, []);
    case _ =>
  }

  // How the first byte of a text selects the reader.

  lemma ReadsKeyword(rest: seq<Byte>)
    ensures ReadValue(NULL_TEXT + rest) == Read(Null, rest)
    ensures ReadValue(TRUE_TEXT + rest) == Read(Bool(true), rest)
    ensures ReadValue(FALSE_TEXT + rest) == Read(Bool(false), rest)
  {
    assert (NULL_TEXT + rest)[4..] == rest;
    assert (TRUE_TEXT + rest)[4..] == rest;
    assert (FALSE_TEXT + rest)[5..] == rest;
  }

  lemma ReadsText(s: seq<Byte>, rest: seq<Byte>)
    ensures ReadValue(Quoted(s) + rest) == Read(Text(s), rest)
  {
    hide ReadNumber, ReadItems, ReadFields, ReadChars, EscapeAll;
    var after := [QUOTE] + rest;
    ReadQuoted(s, after);
    assert Quoted(s) + rest == [QUOTE] + (EscapeAll(s) + after);
    assert ([QUOTE] + (EscapeAll(s) + after))[1..] == EscapeAll(s) + after;
  }

  lemma ReadsNumber(s: seq<Byte>)
    requires s != [] && (s[0] == MINUS || IsDigit(s[0]))
    ensures ReadValue(s) == ReadNumber(s)
  {
    hide ReadNumber, ReadItems, ReadFields, ReadChars;
  }

  lemma ReadsArray(s: seq<Byte>)
    requires ReadItems(s, true).Read?
    ensures ReadValue([OPEN_BRACKET] + s) == Read(Arr(ReadItems(s, true).value), ReadItems(s, true).rest)
  {
    assert ([OPEN_BRACKET] + s)[1..] == s;
  }

  lemma ReadsObject(s: seq<Byte>)
    requires ReadFields(s, true).Read?
    ensures ReadValue([OPEN_BRACE] + s) == Read(Obj(ReadFields(s, true).value), ReadFields(s, true).rest)
  {
    assert ([OPEN_BRACE] + s)[1..] == s;
  }

  lemma ReadsItem(first: bool, s: seq<Byte>)
    requires s != [] && !IsSpace(s[0]) && s[0] != CLOSE_BRACKET
    requires ReadValue(s).Read? && ReadItems(ReadValue(s).rest, false).Read?
    ensures var tail := ReadItems(ReadValue(s).rest, false);
      ReadItems(Separator(first) + s, first) == Read([ReadValue(s).value] + tail.value, tail.rest)
  {
    assert (Separator(first) + s)[|Separator(first)|..] == s;
    assert first ==> Separator(first) + s == s;
  }

  lemma ReadsField(first: bool, key: seq<Byte>, s: seq<Byte>)
    requires ReadValue(s).Read? && ReadFields(ReadValue(s).rest, false).Read?
    ensures var tail := ReadFields(ReadValue(s).rest, false);
      ReadFields(Separator(first) + (Quoted(key) + ([COLON] + s)), first)
        == Read([Field(key, ReadValue(s).value)] + tail.value, tail.rest)
  {
    hide ReadNumber, ReadItems, ReadValue, ReadChars, EscapeAll;
    var colon := [COLON] + s;
    var name := Quoted(key) + colon;
    ReadQuoted(key, [QUOTE] + colon);
    assert ([QUOTE] + colon)[1..] == colon && colon[1..] == s;
    assert name == [QUOTE] + (EscapeAll(key) + ([QUOTE] + colon));
    assert name[1..] == EscapeAll(key) + ([QUOTE] + colon);
    assert (Separator(first) + name)[|Separator(first)|..] == name;
    assert first ==> Separator(first) + name == name;
  }

  lemma ArrayText(items: seq<Json>, rest: seq<Byte>)
    ensures Render(Arr(items)) + rest == [OPEN_BRACKET] + (RenderItems(items, true) + ([CLOSE_BRACKET] + rest))
  {
    hide RenderItems;
  }

  lemma ObjectText(fields: seq<Field>, rest: seq<Byte>)
    ensures Render(Obj(fields)) + rest == [OPEN_BRACE] + (RenderFields(fields, true) + ([CLOSE_BRACE] + rest))
  {
    hide RenderFields;
  }

  /** Reading back what was written gives the value and leaves the rest. */
  lemma {:induction false} ReadRender(v: Json, rest: seq<Byte>)
    requires Good(v) && Stops(rest)
    ensures ReadValue(Render(v) + rest) == Read(v, rest)
    decreases v, 1
  {
    hide ReadValue, ReadItems, ReadFields;
    match v
    case Null => ReadsKeyword(rest);
    case Bool(b) => ReadsKeyword(rest);
    case Text(s) => ReadsText(s, rest);
    case Int(n) => ReadInt(n, rest); ReadsNumber(Decimal(n) + rest);
    case Float(text) => ReadFloat(text, rest); ReadsNumber(text + rest);
    case Arr(items) =>
      var inner := RenderItems(items, true) + ([CLOSE_BRACKET] + rest);
      ReadRenderItems(items, true, rest);
      ReadsArray(inner);
      ArrayText(items, rest);
    case Obj(fields) =>
      var inner := RenderFields(fields, true) + ([CLOSE_BRACE] + rest);
      ReadRenderFields(fields, true, rest);
      ReadsObject(inner);
      ObjectText(fields, rest);
  }

  lemma ItemsEnd(first: bool, rest: seq<Byte>)
    ensures ReadItems(RenderItems([], first) + ([CLOSE_BRACKET] + rest), first) == Read([], rest)
  {
    assert RenderItems([], first) + ([CLOSE_BRACKET] + rest) == [CLOSE_BRACKET] + rest;
  }

  lemma FieldsEnd(first: bool, rest: seq<Byte>)
    ensures ReadFields(RenderFields([], first) + ([CLOSE_BRACE] + rest), first) == Read([], rest)
  {
    assert RenderFields([], first) + ([CLOSE_BRACE] + rest) == [CLOSE_BRACE] + rest;
  }

  lemma ItemsSplit(items: seq<Json>, first: bool, end: seq<Byte>)
    requires items != []
    ensures RenderItems(items, first) + end
         == Separator(first) + (Render(items[0]) + (RenderItems(items[1..], false) + end))
  {
  }

  /** After an element comes a comma or the closing bracket. */
  lemma ItemsStop(items: seq<Json>, end: seq<Byte>)
    requires end != [] && end[0] == CLOSE_BRACKET
    ensures Stops(RenderItems(items, false) + end)
  {
    if items != [] {
      assert RenderItems(items, false)[0] == COMMA;
    }
  }

  lemma FieldsSplit(fields: seq<Field>, first: bool, end: seq<Byte>)
    requires fields != []
    ensures RenderFields(fields, first) + end
         == Separator(first) + (Quoted(fields[0].key)
            + ([COLON] + (Render(fields[0].value) + (RenderFields(fields[1..], false) + end))))
  {
    hide Separator, Quoted, Render;
    Nest(Separator(first), Quoted(fields[0].key), [COLON], Render(fields[0].value), RenderFields(fields[1..], false),
      end);
  }

  lemma Nest(a: seq<Byte>, b: seq<Byte>, c: seq<Byte>, d: seq<Byte>, e: seq<Byte>, f: seq<Byte>)
    ensures a + b + c + d + e + f == a + (b + (c + (d + (e + f))))
  {
  }

  lemma FieldsStop(fields: seq<Field>, end: seq<Byte>)
    requires end != [] && end[0] == CLOSE_BRACE
    ensures Stops(RenderFields(fields, false) + end)
  {
    if fields != [] {
      assert RenderFields(fields, false)[0] == COMMA;
    }
  }

  lemma {:induction false} ReadRenderItems(items: seq<Json>, first: bool, rest: seq<Byte>)
    requires forall k :: 0 <= k < |items| ==> Good(items[k])
    ensures ReadItems(RenderItems(items, first) + ([CLOSE_BRACKET] + rest), first) == Read(items, rest)
    decreases items, 0
  {
    hide ReadValue, ReadItems, RenderItems, Render, Good, Stops;
    if items == [] {
      ItemsEnd(first, rest);
    } else {
      var end := [CLOSE_BRACKET] + rest;
      var tail := RenderItems(items[1..], false) + end;
      ItemsSplit(items, first, end);
      ItemsStop(items[1..], end);
      RenderStarts(items[0]);
      ReadRender(items[0], tail);
      ReadRenderItems(items[1..], false, rest);
      ReadsItem(first, Render(items[0]) + tail);
      assert [items[0]] + items[1..] == items;
    }
  }

  lemma {:induction false} ReadRenderFields(fields: seq<Field>, first: bool, rest: seq<Byte>)
    requires forall k :: 0 <= k < |fields| ==> Good(fields[k].value)
    ensures ReadFields(RenderFields(fields, first) + ([CLOSE_BRACE] + rest), first) == Read(fields, rest)
    decreases fields, 0
  {
    hide ReadValue, ReadFields, RenderFields, Render, Good, Stops;
    if fields == [] {
      FieldsEnd(first, rest);
    } else {
      var end := [CLOSE_BRACE] + rest;
      var tail := RenderFields(fields[1..], false) + end;
      FieldsSplit(fields, first, end);
      FieldsStop(fields[1..], end);
      ReadRender(fields[0].value, tail);
      ReadRenderFields(fields[1..], false, rest);
      ReadsField(first, fields[0].key, Render(fields[0].value) + tail);
      assert [fields[0]] + fields[1..] == fields;
    }
  }

  /** The text of a value decodes to that value. */
  lemma DecodeRender(v: Json)
    requires Good(v)
    ensures Decode(Render(v)) == Some(v)
  {
    ReadRender(v, []);
    assert Render(v) + [] == Render(v);
  }

  /** So the text determines the value. */
  lemma RenderInjective(v: Json, w: Json)
    requires Good(v) && Good(w) && Render(v) == Render(w)
    ensures v == w
  {
    DecodeRender(v);
    DecodeRender(w);
  }
}
