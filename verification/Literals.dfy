/** Whole Rust texts under the blanking lexer: code stays, comments and literals become
    spaces, wherever they stand; and two kinds of literal for which that can fail, the
    escaped character and the raw C string. */
module Literals {
  import opened Common
  import opened Blank

  // ------------------------------------------------------- character literals

  lemma LexQuote(s: string, i: nat, alnum: Alnum)
    requires i + 2 < |s| && s[i] == '\''
    ensures s[i + 1] == '\\' ==> Lex(s, i, alnum) == Skip(FindEnd(s, "'", i + 2))
    ensures s[i + 1] != '\\' && s[i + 2] == '\'' ==> Lex(s, i, alnum) == Skip(i + 3)
    ensures s[i + 1] != '\\' && s[i + 2] != '\'' ==> Lex(s, i, alnum) == Keep
  {
    AtTwo(s, i, '/', '/');
    AtTwo(s, i, '/', '*');
    AtTwo(s, i, 'b', '"');
    AtOne(s, i + 1, '\\');
  }

  lemma {:induction false} FindQuote(s: string, i: nat, j: nat)
    requires i <= j < |s| && s[j] == '\'' && forall k :: i <= k < j ==> s[k] != '\''
    ensures FindEnd(s, "'", i) == j + 1
  {
    forall k | i <= k < j ensures !At(s, k, "'") { AtOne(s, k, '\''); }
    AtOne(s, j, '\'');
    assert Find(s, "'", i) == Some(j);
  }

  /** A plain character literal is one token. */
  lemma CharWhole(before: string, c: char, rest: string, alnum: Alnum)
    requires c != '\\'
    ensures Lex(before + ['\'', c, '\''] + rest, |before|, alnum) == Skip(|before| + 3)
  {
    var s := before + ['\'', c, '\''] + rest;
    assert s[|before|] == '\'' && s[|before| + 1] == c && s[|before| + 2] == '\'';
    LexQuote(s, |before|, alnum);
  }

  /** An escaped one is a token exactly when the escaped text holds no single quote. */
  lemma EscapeWholeIff(before: string, escaped: string, rest: string, alnum: Alnum)
    ensures Lex(before + ['\'', '\\'] + escaped + ['\''] + rest, |before|, alnum) == Skip(|before| + 3 + |escaped|)
       <==> '\'' !in escaped
  {
    hide Lex;
    var s := before + ['\'', '\\'] + escaped + ['\''] + rest;
    var i := |before|;
    assert s[i] == '\'' && s[i + 1] == '\\' && s[i + 2 + |escaped|] == '\'';
    assert s[i + 2..i + 2 + |escaped|] == escaped;
    EscapeAt(s, i, |escaped|, alnum);
  }

  lemma EscapeAt(s: string, i: nat, n: nat, alnum: Alnum)
    requires i + 2 + n < |s| && s[i] == '\'' && s[i + 1] == '\\' && s[i + 2 + n] == '\''
    ensures Lex(s, i, alnum) == Skip(i + 3 + n) <==> '\'' !in s[i + 2..i + 2 + n]
  {
    hide Lex, FindEnd;
    LexQuote(s, i, alnum);
    var escaped := s[i + 2..i + 2 + n];
    var j := FirstQuote(escaped);
    forall k | i + 2 <= k < i + 2 + j ensures s[k] != '\'' { assert s[k] == escaped[k - i - 2]; }
    assert j < n ==> s[i + 2 + j] == escaped[j];
    FindQuote(s, i + 2, i + 2 + j);
  }

  function FirstQuote(s: string): (j: nat)
    ensures j <= |s| && (j < |s| ==> s[j] == '\'') && forall k :: 0 <= k < j ==> s[k] != '\''
    ensures j == |s| <==> '\'' !in s
  {
    if s == [] || s[0] == '\'' then 0
    else
      assert s == [s[0]] + s[1..];
      1 + FirstQuote(s[1..])
  }

  /** So the literal of a single quote ends early, and followed by the literal of a double
      quote it takes all code up to the next double quote or backslash with it. */
  lemma QuoteLiteralBlanksCode(code: string, alnum: Alnum)
    requires '"' !in code && '\\' !in code
    ensures var s := ['\'', '\\', '\'', '\'', ',', '\'', '"', '\''] + code;
      Blanked(s, alnum) == Spaces(s)
  {
    var s := ['\'', '\\', '\'', '\'', ',', '\'', '"', '\''] + code;
    LexQuote(s, 0, alnum);
    FindQuote(s, 2, 2);
    LexQuote(s, 3, alnum);
    assert s[7] == '\'' && forall k :: 8 <= k < |s| ==> s[k] == code[k - 8];
    StringNeverEnds(s, 7);
    LexString(s, 6, alnum);
    ThreeSkips(s, 3, 6, alnum);
  }

  lemma ThreeSkips(s: string, i: nat, j: nat, alnum: Alnum)
    requires 0 < i < j < |s|
    requires Lex(s, 0, alnum) == Skip(i) && Lex(s, i, alnum) == Skip(j) && Lex(s, j, alnum) == Skip(|s|)
    ensures Blanked(s, alnum) == Spaces(s)
  {
    hide Lex, BlankFrom;
    forall k | 0 <= k < |s| ensures Blanked(s, alnum)[k] == Spaces(s)[k] {
      BlankFromAt(s, 0, k, alnum);
      if k >= i { BlankFromAt(s, i, k, alnum); }
      if k >= j { BlankFromAt(s, j, k, alnum); }
    }
  }

  lemma {:induction false} StringNeverEnds(s: string, j: nat)
    requires j <= |s| && forall k :: j <= k < |s| ==> s[k] != '"' && s[k] != '\\'
    ensures StringEnd(s, j) == |s|
    decreases |s| - j
  {
    if j < |s| { StringNeverEnds(s, j + 1); }
  }

  lemma LexString(s: string, i: nat, alnum: Alnum)
    requires i < |s| && s[i] == '"'
    ensures Lex(s, i, alnum) == Skip(StringEnd(s, i + 1))
  {
    AtTwo(s, i, '/', '/');
    AtTwo(s, i, '/', '*');
  }

  // -------------------------------------------------------- texts made of chunks

  datatype Chunk =
    | Code(text: string)
    | Line(comment: string)
    | Block(pieces: seq<Piece>)
    | Str(chars: seq<StringChar>)
    | ByteStr(chars: seq<StringChar>)
    | Raw(hashes: nat, body: string)
    | RawBytes(hashes: nat, body: string)
    | CStr(chars: seq<StringChar>)
    | RawC(hashes: nat, body: string)
    | Char(c: char)
    | Escape(escaped: string)

  function Text(c: Chunk): string {
    match c
    case Code(text) => text
    case Line(comment) => "//" + comment
    case Block(pieces) => "/*" + Pieces(pieces) + "*/"
    case Str(chars) => ['"'] + StringBody(chars) + ['"']
    case ByteStr(chars) => ['b', '"'] + StringBody(chars) + ['"']
    case Raw(h, body) => ['r'] + seq(h, _ => '#') + ['"'] + (body + Guard(h))
    case RawBytes(h, body) => ['b', 'r'] + seq(h, _ => '#') + ['"'] + (body + Guard(h))
    case CStr(chars) => Cat("c", InQuotes(StringBody(chars)))
    case RawC(h, body) => Cat(Cat(RawCOpening(h), InQuotes(body)), HashRun(h))
    case Char(x) => ['\'', x, '\'']
    case Escape(escaped) => ['\'', '\\'] + escaped + ['\'']
  }

  function Cat(a: string, b: string): string { a + b }

  function HashRun(h: nat): string { seq(h, _ => '#') }

  function RawCOpening(h: nat): string { ['c', 'r'] + HashRun(h) }

  function InQuotes(body: string): string { ['"'] + body + ['"'] }

  function Texts(cs: seq<Chunk>): string {
    if cs == [] then [] else Text(cs[0]) + Texts(cs[1..])
  }

  /** Code as it stands and everything else as spaces, but for the prefix of a C string and
      the hashes of a raw one, which stay. */
  function ShownOne(c: Chunk): string {
    match c
    case Code(text) => text
    case CStr(chars) => Cat("c", Spaces(InQuotes(StringBody(chars))))
    case RawC(h, body) => Cat(Cat(RawCOpening(h), Spaces(InQuotes(body))), HashRun(h))
    case _ => Spaces(Text(c))
  }

  function Shown(cs: seq<Chunk>): string {
    if cs == [] then [] else ShownOne(cs[0]) + Shown(cs[1..])
  }

  /** At `i` a comment or a literal opens. A raw or byte string does not open inside a word,
      and a single quote opens a character unless it starts a lifetime. */
  ghost predicate Opens(s: string, i: nat, alnum: Alnum)
    requires i < |s|
  {
    (i + 1 < |s| && s[i] == '/' && s[i + 1] in {'/', '*'})
    || s[i] == '"'
    || (!WordBefore(s, i, alnum)
      && ((i + 1 < |s| && s[i] == 'b' && s[i + 1] == '"') || exists h :: RawOpening(s, i, h)))
    || (s[i] == '\'' && ((i + 1 < |s| && s[i + 1] == '\\') || (i + 2 < |s| && s[i + 2] == '\'')))
  }

  predicate RawOpening(s: string, i: nat, h: nat) {
    At(s, i, ['r'] + HashRun(h) + ['"']) || At(s, i, ['b'] + (['r'] + HashRun(h) + ['"']))
  }

  /** Nothing opens in the code, seen together with what stands around it. */
  ghost predicate CodeFits(before: string, text: string, rest: string, alnum: Alnum) {
    forall i :: |before| <= i < |before| + |text| ==> !Opens(before + text + rest, i, alnum)
  }

  /** A string body: no plain quote, and every backslash escapes a character of it. */
  predicate IsBody(s: string)
    decreases |s|
  {
    if s == [] then true
    else if s[0] == '\\' then |s| >= 2 && IsBody(s[2..])
    else s[0] != '"' && IsBody(s[1..])
  }

  /** A string body but for a last backslash, which escapes what follows. */
  predicate IsOpenBody(s: string)
    decreases |s|
  {
    s != []
    && if s[0] == '\\' then |s| == 1 || IsOpenBody(s[2..]) else s[0] != '"' && IsOpenBody(s[1..])
  }

  /** A string opened before `body` ends at the quote after it; at the end of the text every
      string ends. */
  predicate EndsAsString(body: string, atEnd: bool) { IsBody(body) || (atEnd && IsOpenBody(body)) }

  predicate StringFits(chars: seq<StringChar>) {
    forall k :: 0 <= k < |chars| && chars[k].Plain? ==> chars[k].c != '"' && chars[k].c != '\\'
  }

  predicate RawFits(h: nat, body: string) {
    forall k :: 0 <= k < |body| ==> !At(body + Guard(h), k, Guard(h))
  }

  /** The chunk is well formed where it stands. */
  ghost predicate Fits(before: string, c: Chunk, rest: string, alnum: Alnum) {
    match c
    case Code(text) => CodeFits(before, text, rest, alnum)
    case Line(comment) => '\n' !in comment && (rest != [] ==> rest[0] == '\n')
    case Block(pieces) => Quiet(pieces, "*/")
    case Str(chars) => StringFits(chars)
    case ByteStr(chars) => StringFits(chars) && !WordBefore(before, |before|, alnum)
    case Raw(h, body) => RawFits(h, body) && !WordBefore(before, |before|, alnum)
    case RawBytes(h, body) => RawFits(h, body) && !WordBefore(before, |before|, alnum)
    case CStr(chars) => StringFits(chars)
    case RawC(h, body) => RawFits(h, body) && EndsAsString(body, h == 0 && rest == []) && alnum('c')
    case Char(x) => x != '\\'
    case Escape(escaped) => '\'' !in escaped
  }

  ghost predicate AllFit(before: string, cs: seq<Chunk>, alnum: Alnum)
    decreases |cs|
  {
    cs != [] ==> Fits(before, cs[0], Texts(cs[1..]), alnum) && AllFit(before + Text(cs[0]), cs[1..], alnum)
  }

  // --------------------------------------------------------------------- code

  lemma RawOpeningAt(s: string, i: nat, h: nat)
    ensures At(s, i, ['r'] + HashRun(h) + ['"']) <==>
      i + 1 + h < |s| && s[i] == 'r' && s[i + 1 + h] == '"' && forall k :: i < k <= i + h ==> s[k] == '#'
  {
    var open := ['r'] + HashRun(h) + ['"'];
    assert |open| == h + 2;
    if i + 1 + h < |s| {
      var there := s[i..i + |open|];
      assert forall k :: 0 <= k < |open| ==> there[k] == s[i + k];
      assert open[0] == 'r' && open[h + 1] == '"' && forall k :: 0 < k <= h ==> open[k] == '#';
      if there == open {
        forall k | i < k <= i + h ensures s[k] == '#' { assert s[k] == there[k - i]; }
        assert s[i + 1 + h] == there[h + 1];
      }
    }
  }

  lemma ByteOpeningAt(s: string, i: nat, open: string)
    ensures At(s, i, ['b'] + open) <==> i < |s| && s[i] == 'b' && At(s, i + 1, open)
  {
    var all := ['b'] + open;
    if i + |all| <= |s| {
      assert s[i..i + |all|] == [s[i]] + s[i + 1..i + |all|];
      assert all[0] == 'b' && all[1..] == open;
      assert s[i..i + |all|][1..] == s[i + 1..i + |all|];
    }
  }

  /** The lexer's test for a raw string finds exactly the openings of one. */
  lemma RawStartsIff(s: string, i: nat)
    requires i < |s|
    ensures RawStarts(s, i) <==> exists h :: RawOpening(s, i, h)
  {
    var m := RawMark(s, i);
    if RawStarts(s, i) {
      var h := Hashes(s, m + 1);
      RawOpeningAt(s, m, h);
      ByteOpeningAt(s, i, ['r'] + HashRun(h) + ['"']);
      assert RawOpening(s, i, h);
    }
    forall h | RawOpening(s, i, h) ensures RawStarts(s, i) { OpeningStarts(s, i, h); }
  }

  lemma OpeningStarts(s: string, i: nat, h: nat)
    requires i < |s| && RawOpening(s, i, h)
    ensures RawStarts(s, i)
  {
    var m := if At(s, i, ['r'] + HashRun(h) + ['"']) then i else i + 1;
    ByteOpeningAt(s, i, ['r'] + HashRun(h) + ['"']);
    RawOpeningAt(s, m, h);
    CountHashes(s, m + 1, h);
  }

  /** The lexer keeps exactly the characters at which nothing opens. */
  lemma KeepIff(s: string, i: nat, alnum: Alnum)
    requires i < |s|
    ensures Lex(s, i, alnum) == Keep <==> !Opens(s, i, alnum)
  {
    RawStartsIff(s, i);
    AtTwo(s, i, '/', '/');
    AtTwo(s, i, '/', '*');
    AtTwo(s, i, 'b', '"');
    AtOne(s, i + 1, '\\');
    hide RawStarts, RawOpening;
  }

  lemma CodeKept(before: string, text: string, rest: string, k: nat, alnum: Alnum)
    requires CodeFits(before, text, rest, alnum) && k < |text|
    ensures Lex(before + text + rest, |before| + k, alnum) == Keep
  {
    hide Opens, Lex;
    KeepIff(before + text + rest, |before| + k, alnum);
  }

  lemma {:induction false} KeepRun(s: string, i: nat, j: nat, alnum: Alnum)
    requires i <= j <= |s| && forall k :: i <= k < j ==> Lex(s, k, alnum).Keep?
    ensures BlankFrom(s, i, alnum) == s[i..j] + BlankFrom(s, j, alnum)
    decreases j - i
  {
    hide Lex, BlankFrom;
    if i < j {
      BlankKeep(s, i, alnum);
      KeepRun(s, i + 1, j, alnum);
      Prepend(s, i, j, BlankFrom(s, j, alnum));
    } else {
      assert s[i..j] == [];
    }
  }

  lemma Prepend(s: string, i: nat, j: nat, out: string)
    requires i < j <= |s|
    ensures [s[i]] + (s[i + 1..j] + out) == s[i..j] + out
  {
  }

  // ----------------------------------------------------------------- literals

  lemma LineWhole(before: string, comment: string, rest: string, alnum: Alnum)
    requires '\n' !in comment && (rest != [] ==> rest[0] == '\n')
    ensures Lex(before + ("//" + comment) + rest, |before|, alnum) == Skip(|before| + 2 + |comment|)
  {
    var s := before + ("//" + comment) + rest;
    var i, e := |before|, |before| + 2 + |comment|;
    AtTwo(s, i, '/', '/');
    assert s[i] == '/' && s[i + 1] == '/' && forall k :: 0 <= k < |comment| ==> s[i + 2 + k] == comment[k];
    forall k | i <= k < e ensures !At(s, k, "\n") { AtOne(s, k, '\n'); }
    AtOne(s, e, '\n');
  }

  lemma ByteStringWhole(before: string, cs: seq<StringChar>, rest: string, alnum: Alnum)
    requires StringFits(cs) && !WordBefore(before, |before|, alnum)
    ensures Lex(before + (['b', '"'] + StringBody(cs) + ['"']) + rest, |before|, alnum)
      == Skip(|before| + |StringBody(cs)| + 3)
  {
    var s := before + (['b', '"'] + StringBody(cs) + ['"']) + rest;
    var i := |before|;
    assert s[i] == 'b' && s[i + 1] == '"';
    AtTwo(s, i, '/', '/');
    AtTwo(s, i, '/', '*');
    AtTwo(s, i, 'b', '"');
    BeforeKept(before, s, alnum);
    assert s[i + 2..] == StringBody(cs) + ['"'] + rest;
    ScanString(s, i + 2, cs, rest);
  }

  lemma FindRawEnd(opening: string, body: string, rest: string, h: nat)
    requires RawFits(h, body)
    ensures FindEnd(opening + (body + Guard(h) + rest), Guard(h), |opening|) == |opening| + |body| + 1 + h
  {
    hide Guard, FindEnd;
    FindGuard(opening, body, rest, h);
    Reassociate(opening, body + Guard(h), rest);
  }

  lemma RawBytesOpen(s: string, i: nat)
    requires i + 1 < |s| && s[i] == 'b' && RawStarts(s, i + 1) && RawMark(s, i + 1) == i + 1
    ensures RawStarts(s, i)
  {
  }

  lemma RawBytesWhole(before: string, h: nat, body: string, rest: string, alnum: Alnum)
    requires !WordBefore(before, |before|, alnum) && RawFits(h, body)
    ensures Lex(before + ['b'] + ['r'] + seq(h, _ => '#') + ['"'] + (body + Guard(h) + rest), |before|, alnum)
         == Skip(|before| + 3 + h + |body| + 1 + h)
  {
    var opening := before + ['b'] + ['r'] + seq(h, _ => '#') + ['"'];
    var s := opening + (body + Guard(h) + rest);
    hide Lex, Guard, FindEnd, RawStarts, RawMark, Hashes, WordBefore, RawFits;
    assert s[|before|] == 'b' && before <= s;
    RawOpens(before + ['b'], h, body + Guard(h) + rest);
    RawBytesOpen(s, |before|);
    assert RawFits(h, body);
    FindRawEnd(opening, body, rest, h);
    BeforeKept(before, s, alnum);
    LexRawBytes(s, |before|, h, alnum);
  }

  lemma LexRawBytes(s: string, i: nat, h: nat, alnum: Alnum)
    requires i < |s| && s[i] == 'b' && RawStarts(s, i) && Hashes(s, i + 2) == h && !WordBefore(s, i, alnum)
    ensures Lex(s, i, alnum) == Skip(FindEnd(s, Guard(h), i + 3 + h))
  {
    AtTwo(s, i, '/', '/');
    AtTwo(s, i, '/', '*');
    assert Guard(h) == "\"" + seq(h, _ => '#');
  }

  predicate IsToken(c: Chunk) { !c.Code? && !c.CStr? && !c.RawC? }

  /** Every well-formed comment or literal but a C string is one token where it stands. */
  lemma LiteralWhole(before: string, c: Chunk, rest: string, alnum: Alnum)
    requires Fits(before, c, rest, alnum) && IsToken(c)
    ensures Text(c) != []
    ensures Lex(before + Text(c) + rest, |before|, alnum) == Skip(|before| + |Text(c)|)
  {
    hide Lex, Pieces, StringBody, Guard, Quiet, StringFits, RawFits, WordBefore;
    match c
    case Line(comment) => LineWhole(before, comment, rest, alnum);
    case Block(pieces) => BlockTextWhole(before, pieces, rest, alnum);
    case Str(chars) => StringTextWhole(before, chars, rest, alnum);
    case ByteStr(chars) => ByteStringWhole(before, chars, rest, alnum);
    case Raw(h, body) => RawTextWhole(before, h, body, rest, alnum);
    case RawBytes(h, body) => RawBytesTextWhole(before, h, body, rest, alnum);
    case Char(x) => CharWhole(before, x, rest, alnum);
    case Escape(escaped) => EscapeTextWhole(before, escaped, rest, alnum);
  }

  lemma BlockTextWhole(before: string, pieces: seq<Piece>, rest: string, alnum: Alnum)
    requires Quiet(pieces, "*/")
    ensures Lex(before + ("/*" + Pieces(pieces) + "*/") + rest, |before|, alnum)
      == Skip(|before| + |Pieces(pieces)| + 4)
  {
    hide Lex, Pieces, Quiet;
    BlockCommentWhole(before, pieces, rest, alnum);
    assert before + ("/*" + Pieces(pieces) + "*/") + rest == before + "/*" + Pieces(pieces) + "*/" + rest;
  }

  lemma StringTextWhole(before: string, chars: seq<StringChar>, rest: string, alnum: Alnum)
    requires StringFits(chars)
    ensures Lex(before + (['"'] + StringBody(chars) + ['"']) + rest, |before|, alnum)
      == Skip(|before| + |StringBody(chars)| + 2)
  {
    hide Lex, StringBody;
    StringWhole(before, chars, rest, alnum);
    assert before + (['"'] + StringBody(chars) + ['"']) + rest == before + ['"'] + StringBody(chars) + ['"'] + rest;
  }

  lemma EscapeTextWhole(before: string, escaped: string, rest: string, alnum: Alnum)
    requires '\'' !in escaped
    ensures Lex(before + (['\'', '\\'] + escaped + ['\'']) + rest, |before|, alnum) == Skip(|before| + 3 + |escaped|)
  {
    hide Lex;
    EscapeWholeIff(before, escaped, rest, alnum);
    assert before + (['\'', '\\'] + escaped + ['\'']) + rest == before + ['\'', '\\'] + escaped + ['\''] + rest;
  }

  lemma GuardLength(h: nat)
    ensures |Guard(h)| == h + 1
  {
  }

  lemma Spread(a: string, b: string, c: string, d: string, e: string, f: string, g: string)
    ensures a + (b + c + d + e + f) + g == a + b + c + d + e + (f + g)
  {
  }

  lemma RawTextWhole(before: string, h: nat, body: string, rest: string, alnum: Alnum)
    requires RawFits(h, body) && !WordBefore(before, |before|, alnum)
    ensures Text(Raw(h, body)) != []
    ensures Lex(before + Text(Raw(h, body)) + rest, |before|, alnum) == Skip(|before| + |Text(Raw(h, body))|)
  {
    hide Lex, Guard;
    GuardLength(h);
    RawStringWhole(before, h, body, rest, alnum);
    assert before + Text(Raw(h, body)) + rest == before + ['r'] + seq(h, _ => '#') + ['"'] + (body + Guard(h) + rest);
  }

  lemma RawBytesTextWhole(before: string, h: nat, body: string, rest: string, alnum: Alnum)
    requires RawFits(h, body) && !WordBefore(before, |before|, alnum)
    ensures Text(RawBytes(h, body)) != []
    ensures Lex(before + Text(RawBytes(h, body)) + rest, |before|, alnum) == Skip(|before| + |Text(RawBytes(h, body))|)
  {
    hide Lex, Guard;
    GuardLength(h);
    RawBytesWhole(before, h, body, rest, alnum);
    assert ['b', 'r'] == ['b'] + ['r'];
    Spread(before, ['b'], ['r'], seq(h, _ => '#'), ['"'], body + Guard(h), rest);
  }

  // -------------------------------------------------------------- whole texts

  /** `text` as it stands between `before` and `rest`. */
  function Within(before: string, text: string, rest: string): string { before + text + rest }

  /** From `i` the lexer puts out `out` and is then at `j`. */
  predicate Advances(s: string, i: nat, out: string, j: nat, alnum: Alnum) {
    i <= |s| && j <= |s| && BlankFrom(s, i, alnum) == out + BlankFrom(s, j, alnum)
  }

  lemma CodeAdvances(before: string, text: string, rest: string, alnum: Alnum)
    requires CodeFits(before, text, rest, alnum)
    ensures Advances(Within(before, text, rest), |before|, text, |before| + |text|, alnum)
  {
    hide Lex, CodeFits, BlankFrom;
    var s := before + text + rest;
    forall k | |before| <= k < |before| + |text| ensures Lex(s, k, alnum).Keep? {
      CodeKept(before, text, rest, k - |before|, alnum);
    }
    KeepRun(s, |before|, |before| + |text|, alnum);
    Middle(before, text, rest);
  }

  lemma LiteralAdvances(before: string, c: Chunk, rest: string, alnum: Alnum)
    requires Fits(before, c, rest, alnum) && IsToken(c)
    ensures Advances(Within(before, Text(c), rest), |before|, Spaces(Text(c)), |before| + |Text(c)|, alnum)
  {
    hide Lex, Fits, Text;
    LiteralWhole(before, c, rest, alnum);
    SkipAdvances(before, Text(c), rest, alnum);
  }

  lemma SkipAdvances(before: string, text: string, rest: string, alnum: Alnum)
    requires text != [] && Lex(before + text + rest, |before|, alnum) == Skip(|before| + |text|)
    ensures Advances(Within(before, text, rest), |before|, Spaces(text), |before| + |text|, alnum)
  {
    hide Lex, BlankFrom, Spaces;
    BlankSkip(before + text + rest, |before|, alnum);
    Middle(before, text, rest);
  }

  lemma Middle(a: string, b: string, c: string)
    ensures (a + b + c)[|a|..|a| + |b|] == b
  {
  }

  lemma ChunkAdvances(before: string, c: Chunk, rest: string, alnum: Alnum)
    requires Fits(before, c, rest, alnum)
    ensures Advances(Within(before, Text(c), rest), |before|, ShownOne(c), |before| + |Text(c)|, alnum)
  {
    hide Within, Advances, Lex, CodeFits, Spaces, StringFits, RawFits, EndsAsString;
    if c.Code? { CodeAdvances(before, c.text, rest, alnum); }
    else if c.CStr? { CStringAdvances(before, c.chars, rest, alnum); }
    else if c.RawC? { RawCAdvances(before, c.hashes, c.body, rest, alnum); }
    else { LiteralAdvances(before, c, rest, alnum); }
  }

  // ------------------------------------------------------------------ C strings

  lemma LexPlain(s: string, i: nat, alnum: Alnum)
    requires i < |s| && s[i] !in {'/', '"', 'b', 'r', '\''}
    ensures !Opens(s, i, alnum)
  {
    forall h ensures !RawOpening(s, i, h) {
      RawOpeningAt(s, i, h);
      ByteOpeningAt(s, i, ['r'] + HashRun(h) + ['"']);
    }
    hide RawOpening;
  }

  /** The `r` of a raw C string stands in a word, so it opens nothing. */
  lemma PrefixFits(before: string, h: nat, rest: string, alnum: Alnum)
    requires alnum('c')
    ensures CodeFits(before, RawCOpening(h), rest, alnum)
  {
    var text := RawCOpening(h);
    var s := before + text + rest;
    forall i | |before| <= i < |before| + |text| ensures !Opens(s, i, alnum) {
      assert s[i] == text[i - |before|];
      if i == |before| + 1 { assert s[|before|] == 'c'; } else { LexPlain(s, i, alnum); }
    }
  }

  lemma PlainFits(before: string, text: string, rest: string, alnum: Alnum)
    requires forall k :: 0 <= k < |text| ==> text[k] !in {'/', '"', 'b', 'r', '\''}
    ensures CodeFits(before, text, rest, alnum)
  {
    var s := before + text + rest;
    forall i | |before| <= i < |before| + |text| ensures !Opens(s, i, alnum) {
      assert s[i] == text[i - |before|];
      LexPlain(s, i, alnum);
    }
  }

  lemma CatFacts(a: string, b: string, c: string)
    ensures |Cat(a, b)| == |a| + |b| && Cat(Cat(a, b), c) == Cat(a, Cat(b, c))
  {
  }

  lemma WithinTwo(before: string, a: string, b: string, rest: string)
    ensures Within(before, Cat(a, b), rest) == Within(before, a, Cat(b, rest))
    ensures Within(before, Cat(a, b), rest) == Within(Cat(before, a), b, rest)
  {
  }

  lemma AdvancesJoin(s: string, i: nat, a: string, j: nat, b: string, k: nat, alnum: Alnum)
    requires Advances(s, i, a, j, alnum) && Advances(s, j, b, k, alnum)
    ensures Advances(s, i, Cat(a, b), k, alnum)
  {
    hide BlankFrom;
    Reassociate(a, b, BlankFrom(s, k, alnum));
  }

  /** Two neighbours one after the other. */
  lemma TwoAdvance(before: string, a: string, x: string, b: string, y: string, rest: string, alnum: Alnum)
    requires Advances(Within(before, a, Cat(b, rest)), |before|, x, |before| + |a|, alnum)
    requires Advances(Within(Cat(before, a), b, rest), |Cat(before, a)|, y, |Cat(before, a)| + |b|, alnum)
    ensures Advances(Within(before, Cat(a, b), rest), |before|, Cat(x, y), |before| + |Cat(a, b)|, alnum)
  {
    hide Advances, Within, Cat;
    WithinTwo(before, a, b, rest);
    CatFacts(before, a, b);
    CatFacts(a, b, rest);
    AdvancesJoin(Within(before, Cat(a, b), rest), |before|, x, |before| + |a|, y, |before| + |a| + |b|, alnum);
  }

  lemma CStringAdvances(before: string, chars: seq<StringChar>, rest: string, alnum: Alnum)
    requires StringFits(chars)
    ensures var quoted := InQuotes(StringBody(chars));
      Advances(Within(before, Cat("c", quoted), rest), |before|, Cat("c", Spaces(quoted)),
        |before| + |Cat("c", quoted)|, alnum)
  {
    hide Lex, Advances, Spaces, StringBody, Within, Cat, CodeFits, InQuotes;
    var quoted := InQuotes(StringBody(chars));
    PlainFits(before, "c", Cat(quoted, rest), alnum);
    CodeAdvances(before, "c", Cat(quoted, rest), alnum);
    StringAdvances(Cat(before, "c"), chars, rest, alnum);
    TwoAdvance(before, "c", "c", quoted, Spaces(quoted), rest, alnum);
  }

  lemma StringAdvances(before: string, chars: seq<StringChar>, rest: string, alnum: Alnum)
    requires StringFits(chars)
    ensures var quoted := InQuotes(StringBody(chars));
      Advances(Within(before, quoted, rest), |before|, Spaces(quoted), |before| + |quoted|, alnum)
  {
    hide Lex, Advances, Spaces, StringBody, Within, StringFits;
    StringTextWhole(before, chars, rest, alnum);
    SkipAdvances(before, InQuotes(StringBody(chars)), rest, alnum);
  }

  lemma {:induction false} StringEndIff(s: string, j: nat, n: nat)
    requires j + n < |s| && s[j + n] == '"'
    ensures StringEnd(s, j) == j + n + 1 <==> EndsAsString(s[j..j + n], j + n + 1 == |s|)
    decreases n
  {
    var body := s[j..j + n];
    if n > 0 {
      assert body[0] == s[j];
      if s[j] == '\\' && n >= 2 {
        assert body[2..] == s[j + 2..j + n];
        StringEndIff(s, j + 2, n - 2);
      } else if s[j] != '\\' && s[j] != '"' {
        assert body[1..] == s[j + 1..j + n];
        StringEndIff(s, j + 1, n - 1);
      }
    }
  }

  lemma QuotedEndsIff(before: string, body: string, rest: string, alnum: Alnum)
    ensures var s := Within(before, InQuotes(body), rest);
      |before| < |s| && (Lex(s, |before|, alnum) == Skip(|before| + 2 + |body|) <==> EndsAsString(body, rest == []))
  {
    hide Lex, EndsAsString;
    var s, q := before + InQuotes(body) + rest, |before|;
    assert s[q] == '"' && s[q + 1 + |body|] == '"' && s[q + 1..q + 1 + |body|] == body;
    LexString(s, q, alnum);
    StringEndIff(s, q + 1, |body|);
  }

  lemma RawCText(h: nat, body: string)
    ensures Text(RawC(h, body)) == Cat(Cat(RawCOpening(h), InQuotes(body)), HashRun(h)) && |RawCOpening(h)| == 2 + h
  {
    hide Cat, InQuotes;
  }

  /** The string that opens at the quote of a raw C string ends at the literal's own closing
      quote exactly when its body is also the body of an ordinary string, or the text is
      over there. */
  lemma RawCEndsIff(before: string, h: nat, body: string, rest: string, alnum: Alnum)
    ensures var s, q := Within(before, Text(RawC(h, body)), rest), |before| + 2 + h;
      q < |s| && (Lex(s, q, alnum) == Skip(q + 2 + |body|) <==> EndsAsString(body, h == 0 && rest == []))
  {
    var opening, quoted, closing := RawCOpening(h), InQuotes(body), HashRun(h);
    RawCText(h, body);
    ClosingEmpty(h, rest);
    hide *;
    QuotedEndsIff(Cat(before, opening), body, Cat(closing, rest), alnum);
    CatFacts(before, opening, quoted);
    WithinTwo(before, Cat(opening, quoted), closing, rest);
    WithinTwo(before, opening, quoted, Cat(closing, rest));
  }

  lemma QuotedAdvances(before: string, body: string, rest: string, alnum: Alnum)
    requires EndsAsString(body, rest == [])
    ensures Advances(Within(before, InQuotes(body), rest), |before|, Spaces(InQuotes(body)),
      |before| + |InQuotes(body)|, alnum)
  {
    hide Lex, Advances, Spaces, EndsAsString;
    QuotedEndsIff(before, body, rest, alnum);
    SkipAdvances(before, InQuotes(body), rest, alnum);
  }

  lemma ClosingEmpty(h: nat, rest: string)
    ensures Cat(HashRun(h), rest) == [] <==> h == 0 && rest == []
  {
  }

  lemma HashesFit(before: string, h: nat, rest: string, alnum: Alnum)
    ensures CodeFits(before, HashRun(h), rest, alnum)
  {
    hide CodeFits;
    PlainFits(before, HashRun(h), rest, alnum);
  }

  lemma RawCAdvances(before: string, h: nat, body: string, rest: string, alnum: Alnum)
    requires EndsAsString(body, h == 0 && rest == []) && alnum('c')
    ensures var text := Cat(Cat(RawCOpening(h), InQuotes(body)), HashRun(h));
      Advances(Within(before, text, rest), |before|, Cat(Cat(RawCOpening(h), Spaces(InQuotes(body))), HashRun(h)),
               |before| + |text|, alnum)
  {
    hide *;
    var opening, quoted, closing := RawCOpening(h), InQuotes(body), HashRun(h);
    ClosingEmpty(h, rest);
    PrefixFits(before, h, Cat(quoted, Cat(closing, rest)), alnum);
    CodeAdvances(before, opening, Cat(quoted, Cat(closing, rest)), alnum);
    QuotedAdvances(Cat(before, opening), body, Cat(closing, rest), alnum);
    TwoAdvance(before, opening, opening, quoted, Spaces(quoted), Cat(closing, rest), alnum);
    HashesFit(Cat(before, Cat(opening, quoted)), h, rest, alnum);
    CodeAdvances(Cat(before, Cat(opening, quoted)), closing, rest, alnum);
    TwoAdvance(before, Cat(opening, quoted), Cat(opening, Spaces(quoted)), closing, closing, rest, alnum);
  }

  /** An ordinary body is what the string literals of the chunks have. */
  lemma {:induction false} BodyIff(body: string)
    ensures IsBody(body) <==> exists cs :: StringFits(cs) && StringBody(cs) == body
    decreases |body|
  {
    if IsBody(body) {
      var cs := CharsOf(body);
      assert StringFits(cs) && StringBody(cs) == body;
    }
    forall cs | StringFits(cs) && StringBody(cs) == body ensures IsBody(body) { BodyOf(cs); }
  }

  function CharsOf(body: string): (cs: seq<StringChar>)
    requires IsBody(body)
    ensures StringFits(cs) && StringBody(cs) == body
    decreases |body|
  {
    if body == [] then []
    else if body[0] == '\\' then
      var cs := [Escaped(body[1])] + CharsOf(body[2..]);
      assert cs[1..] == CharsOf(body[2..]) && body == ['\\', body[1]] + body[2..];
      cs
    else
      var cs := [Plain(body[0])] + CharsOf(body[1..]);
      assert cs[1..] == CharsOf(body[1..]) && body == [body[0]] + body[1..];
      cs
  }

  lemma {:induction false} BodyOf(cs: seq<StringChar>)
    requires StringFits(cs)
    ensures IsBody(StringBody(cs))
  {
    if cs != [] {
      BodyOf(cs[1..]);
      var body, rest := StringBody(cs), StringBody(cs[1..]);
      if cs[0].Plain? { assert body[1..] == rest; } else { assert body[2..] == rest; }
    }
  }

  /** So a raw C string with a quote in its body can end early, and from its last quote on
      code is blanked. */
  lemma RawCBlanksCode(code: string, alnum: Alnum)
    requires '"' !in code && '\\' !in code && alnum('c')
    ensures var s := ['c', 'r', '#', '"', 'a', '"', 'x', '"', '#'] + code;
      Blanked(s, alnum) == s[..3] + Spaces(s[3..6]) + s[6..7] + Spaces(s[7..])
  {
    var s := ['c', 'r', '#', '"', 'a', '"', 'x', '"', '#'] + code;
    hide Lex, BlankFrom, Opens;
    PrefixKept(s, alnum);
    KeepIff(s, 6, alnum);
    LexPlain(s, 6, alnum);
    LexString(s, 3, alnum);
    ShortString(s);
    LexString(s, 7, alnum);
    assert s[8] == '#' && forall k :: 9 <= k < |s| ==> s[k] == code[k - 9];
    StringNeverEnds(s, 8);
    KeepRun(s, 0, 3, alnum);
    BlankSkip(s, 3, alnum);
    BlankKeep(s, 6, alnum);
    BlankSkip(s, 7, alnum);
    BlankEnd(s, alnum);
    FourParts(s, BlankFrom(s, 3, alnum), BlankFrom(s, 6, alnum), BlankFrom(s, 7, alnum), Blanked(s, alnum));
  }

  lemma PrefixKept(s: string, alnum: Alnum)
    requires |s| > 3 && s[0] == 'c' && s[1] == 'r' && s[2] == '#' && alnum('c')
    ensures forall k :: 0 <= k < 3 ==> Lex(s, k, alnum).Keep?
  {
    hide Lex;
    PrefixFits("", 1, s[3..], alnum);
    assert "" + RawCOpening(1) + s[3..] == s;
    forall k | 0 <= k < 3 ensures Lex(s, k, alnum).Keep? {
      CodeKept("", RawCOpening(1), s[3..], k, alnum);
    }
  }

  lemma ShortString(s: string)
    requires |s| > 6 && s[4] == 'a' && s[5] == '"'
    ensures StringEnd(s, 4) == 6
  {
  }

  lemma FourParts(s: string, b: string, c: string, d: string, all: string)
    requires |s| > 7 && all == s[0..3] + b && b == Spaces(s[3..6]) + c && c == [s[6]] + d && d == Spaces(s[7..|s|]) + []
    ensures all == s[..3] + Spaces(s[3..6]) + s[6..7] + Spaces(s[7..])
  {
    hide Spaces;
    assert s[7..|s|] == s[7..] && s[6..7] == [s[6]] && s[0..3] == s[..3];
  }

  lemma AdvancesTo(before: string, c: Chunk, cs: seq<Chunk>, alnum: Alnum)
    requires var s := Within(before, Text(c), Texts(cs));
      Advances(s, |before|, ShownOne(c), |before| + |Text(c)|, alnum)
    requires BlankFrom(before + Text(c) + Texts(cs), |before + Text(c)|, alnum) == Shown(cs)
    ensures BlankFrom(before + (Text(c) + Texts(cs)), |before|, alnum) == ShownOne(c) + Shown(cs)
  {
    hide BlankFrom, Text, Texts, Shown, ShownOne;
    Reassociate(before, Text(c), Texts(cs));
  }

  predicate ChunksBlank(before: string, cs: seq<Chunk>, alnum: Alnum) {
    BlankFrom(before + Texts(cs), |before|, alnum) == Shown(cs)
  }

  lemma NoChunks(before: string, alnum: Alnum)
    ensures ChunksBlank(before, [], alnum)
  {
    hide Lex;
    assert before + Texts([]) == before;
  }

  lemma ChunksStep(before: string, cs: seq<Chunk>, alnum: Alnum)
    requires AllFit(before, cs, alnum) && cs != []
    ensures Fits(before, cs[0], Texts(cs[1..]), alnum) && AllFit(before + Text(cs[0]), cs[1..], alnum)
  {
    hide Fits, Text;
  }

  lemma ChunksGlue(before: string, cs: seq<Chunk>, alnum: Alnum)
    requires cs != [] && ChunksBlank(before + Text(cs[0]), cs[1..], alnum)
    requires Advances(Within(before, Text(cs[0]), Texts(cs[1..])), |before|, ShownOne(cs[0]),
      |before| + |Text(cs[0])|, alnum)
    ensures ChunksBlank(before, cs, alnum)
  {
    hide BlankFrom, Text, ShownOne;
    AdvancesTo(before, cs[0], cs[1..], alnum);
  }

  lemma {:induction false} BlankChunks(before: string, cs: seq<Chunk>, alnum: Alnum)
    requires AllFit(before, cs, alnum)
    ensures ChunksBlank(before, cs, alnum)
    decreases |cs|
  {
    hide Lex, BlankFrom, Fits, Text, ShownOne, Within, Advances, AllFit, Texts, Shown, ChunksBlank;
    if cs == [] {
      NoChunks(before, alnum);
    } else {
      ChunksStep(before, cs, alnum);
      ChunkAdvances(before, cs[0], Texts(cs[1..]), alnum);
      BlankChunks(before + Text(cs[0]), cs[1..], alnum);
      ChunksGlue(before, cs, alnum);
    }
  }

  /** In a text made of well-formed chunks the lexer keeps the code and blanks the comments
      and literals, all of them and nothing else. */
  lemma BlankedWhole(cs: seq<Chunk>, alnum: Alnum)
    requires AllFit("", cs, alnum)
    ensures Blanked(Texts(cs), alnum) == Shown(cs)
  {
    hide BlankFrom, AllFit, Shown, Texts;
    BlankChunks("", cs, alnum);
    assert "" + Texts(cs) == Texts(cs);
  }
}
