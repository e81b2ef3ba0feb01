/** The blanking lexer for Rust sources: comments and string and character literals
    become spaces, newlines and code stay where they are. */
module Blank {
  import opened Common

  /** Which characters continue a word; the host language decides. */
  type Alnum = char -> bool

  predicate At(s: string, i: nat, pattern: string) {
    i + |pattern| <= |s| && s[i..i + |pattern|] == pattern
  }

  /** The first occurrence of `pattern` at or after `from`. */
  function Find(s: string, pattern: string, from: nat): (r: Option<nat>)
    ensures r.Some? ==>
      from <= r.value && At(s, r.value, pattern) && forall k :: from <= k < r.value ==> !At(s, k, pattern)
    ensures r.None? ==> forall k :: from <= k ==> !At(s, k, pattern)
    decreases |s| - from
  {
    if At(s, from, pattern) then Some(from)
    else if from >= |s| then None
    else Find(s, pattern, from + 1)
  }

  /** The end of a found pattern, or of the text. */
  function FindEnd(s: string, pattern: string, from: nat): (j: nat)
    ensures j <= |s|
    ensures from <= |s| ==> from <= j
  {
    var r := Find(s, pattern, from);
    if r.Some? then r.value + |pattern| else |s|
  }

  /** Past the end of a block comment open to `depth`; comments nest. */
  function CommentEnd(s: string, j: nat, depth: nat): (r: nat)
    requires j <= |s|
    ensures j <= r <= |s|
    decreases |s| - j
  {
    if j == |s| || depth == 0 then j
    else if At(s, j, "/*") then CommentEnd(s, j + 2, depth + 1)
    else if At(s, j, "*/") then CommentEnd(s, j + 2, depth - 1)
    else CommentEnd(s, j + 1, depth)
  }

  /** Past the closing quote of a string literal; a backslash hides one character. */
  function StringEnd(s: string, j: nat): (r: nat)
    ensures r <= |s| && (j < |s| ==> j < r)
    decreases |s| - j
  {
    if j >= |s| then |s|
    else if s[j] == '"' then j + 1
    else StringEnd(s, j + (if s[j] == '\\' then 2 else 1))
  }

  function Hashes(s: string, j: nat): (h: nat)
    ensures j <= |s| ==> j + h <= |s|
    ensures forall k :: j <= k < j + h && k < |s| ==> s[k] == '#'
    ensures j + h < |s| ==> s[j + h] != '#'
    decreases |s| - j
  {
    if j < |s| && s[j] == '#' then 1 + Hashes(s, j + 1) else 0
  }

  predicate WordBefore(s: string, i: nat, alnum: Alnum)
    requires i <= |s|
  {
    i > 0 && (alnum(s[i - 1]) || s[i - 1] == '_')
  }

  /** Where the `r` of a raw string that starts at `i` would be. */
  function RawMark(s: string, i: nat): nat {
    if i < |s| && s[i] == 'b' then i + 1 else i
  }

  predicate RawStarts(s: string, i: nat) {
    var k := RawMark(s, i);
    k < |s| && s[k] == 'r' && k + 1 + Hashes(s, k + 1) < |s| && s[k + 1 + Hashes(s, k + 1)] == '"'
  }

  function RawEnd(s: string, i: nat): (j: nat)
    requires RawStarts(s, i)
    ensures i < j <= |s|
  {
    var k := RawMark(s, i);
    var h := Hashes(s, k + 1);
    FindEnd(s, "\"" + seq(h, _ => '#'), k + 1 + h + 1)
  }

  predicate StringStarts(s: string, i: nat, alnum: Alnum)
    requires i < |s|
  {
    s[i] == '"' || (At(s, i, "b\"") && !WordBefore(s, i, alnum))
  }

  /** A character is kept, or the text up to `end` is blanked. */
  datatype Token = Keep | Skip(end: nat)

  function Lex(s: string, i: nat, alnum: Alnum): (t: Token)
    requires i < |s|
    ensures t.Skip? ==> i < t.end <= |s|
    ensures t.Skip? ==> s[i] != ' '
  {
    if At(s, i, "//") then
      var r := Find(s, "\n", i);
      assert s[i..i + 2] == "//";
      assert s[i] == '/';
      if r.Some? then
        assert At(s, r.value, "\n");
        assert s[r.value..r.value + 1][0] == '\n';
        Skip(r.value)
      else Skip(|s|)
    else if At(s, i, "/*") then
      assert s[i..i + 2] == "/*" && s[i..i + 2][0] == s[i];
      Skip(CommentEnd(s, i + 2, 1))
    else if RawStarts(s, i) && !WordBefore(s, i, alnum) then Skip(RawEnd(s, i))
    else if StringStarts(s, i, alnum) then
      assert At(s, i, "b\"") ==> s[i..i + 2] == "b\"" && s[i..i + 2][0] == s[i];
      Skip(StringEnd(s, if s[i] == 'b' then i + 2 else i + 1))
    else if s[i] == '\'' then
      if At(s, i + 1, "\\") then Skip(FindEnd(s, "'", i + 2))
      else if i + 2 < |s| && s[i + 2] == '\'' then Skip(i + 3)
      else Keep
    else Keep
  }

  function Spaces(s: string): string {
    seq(|s|, k requires 0 <= k < |s| => if s[k] == '\n' then '\n' else ' ')
  }

  function BlankFrom(s: string, i: nat, alnum: Alnum): (out: string)
    requires i <= |s|
    ensures |out| == |s| - i
    decreases |s| - i
  {
    if i == |s| then []
    else
      var t := Lex(s, i, alnum);
      if t.Keep? then [s[i]] + BlankFrom(s, i + 1, alnum) else Spaces(s[i..t.end]) + BlankFrom(s, t.end, alnum)
  }

  function Blanked(s: string, alnum: Alnum): string {
    BlankFrom(s, 0, alnum)
  }

  // ------------------------------------------------- what the output looks like

  function SpaceFor(c: char): char {
    if c == '\n' then '\n' else ' '
  }

  lemma BlankKeep(s: string, i: nat, alnum: Alnum)
    requires i < |s| && Lex(s, i, alnum).Keep?
    ensures BlankFrom(s, i, alnum) == [s[i]] + BlankFrom(s, i + 1, alnum)
  {
    hide Lex;
  }

  lemma BlankSkip(s: string, i: nat, alnum: Alnum)
    requires i < |s| && Lex(s, i, alnum).Skip?
    ensures BlankFrom(s, i, alnum) == Spaces(s[i..Lex(s, i, alnum).end]) + BlankFrom(s, Lex(s, i, alnum).end, alnum)
  {
    hide Lex;
  }

  lemma BlankEnd(s: string, alnum: Alnum)
    ensures BlankFrom(s, |s|, alnum) == []
  {
  }

  lemma Reassociate(a: string, b: string, c: string)
    ensures a + (b + c) == a + b + c
  {
  }

  lemma BlankFromAt(s: string, i: nat, k: nat, alnum: Alnum)
    requires i <= k < |s|
    ensures var t := Lex(s, i, alnum);
      BlankFrom(s, i, alnum)[k - i]
      == if t.Keep? then (if k == i then s[i] else BlankFrom(s, i + 1, alnum)[k - i - 1])
         else if k < t.end then SpaceFor(s[k]) else BlankFrom(s, t.end, alnum)[k - t.end]
  {
    hide Lex;
    var t := Lex(s, i, alnum);
    if t.Skip? { assert BlankFrom(s, i, alnum) == Spaces(s[i..t.end]) + BlankFrom(s, t.end, alnum); }
  }

  /** Each output character is the original one, at a place the lexer keeps, or the
      blank for it. */
  lemma {:induction false} BlankAt(s: string, i: nat, k: nat, alnum: Alnum)
    requires i <= k < |s|
    ensures var c := BlankFrom(s, i, alnum)[k - i]; c == SpaceFor(s[k]) || (c == s[k] && Lex(s, k, alnum).Keep?)
    decreases |s| - i
  {
    hide Lex, BlankFrom;
    var t := Lex(s, i, alnum);
    BlankFromAt(s, i, k, alnum);
    if t.Keep? {
      if k > i { BlankAt(s, i + 1, k, alnum); }
    } else if k >= t.end {
      BlankAt(s, t.end, k, alnum);
    }
  }

  /** Same length, newlines in the same places, every other character original or a
      space. */
  lemma BlankShape(s: string, alnum: Alnum)
    ensures |Blanked(s, alnum)| == |s|
    ensures forall k :: 0 <= k < |s| ==> Blanked(s, alnum)[k] == s[k] || Blanked(s, alnum)[k] == ' '
    ensures forall k :: 0 <= k < |s| ==> (Blanked(s, alnum)[k] == '\n' <==> s[k] == '\n')
  {
    hide Lex, BlankFrom;
    forall k | 0 <= k < |s|
      ensures Blanked(s, alnum)[k] == s[k] || (Blanked(s, alnum)[k] == ' ' && s[k] != '\n')
    {
      BlankAt(s, 0, k, alnum);
    }
  }

  lemma AtTwo(s: string, i: nat, a: char, b: char)
    ensures At(s, i, [a, b]) <==> i + 1 < |s| && s[i] == a && s[i + 1] == b
  {
    if i + 2 <= |s| { assert s[i..i + 2] == [s[i], s[i + 1]]; }
  }

  lemma AtOne(s: string, i: nat, a: char)
    ensures At(s, i, [a]) <==> i < |s| && s[i] == a
  {
    if i < |s| { assert s[i..i + 1] == [s[i]]; }
  }

  /** A kept character is not a double quote and does not open a comment; a kept
      single quote is a lifetime. */
  lemma KeptChar(s: string, k: nat, alnum: Alnum)
    requires k < |s| && Lex(s, k, alnum).Keep?
    ensures s[k] != '"'
    ensures s[k] == '/' && k + 1 < |s| ==> s[k + 1] != '/' && s[k + 1] != '*'
    ensures s[k] == '\'' ==> (k + 1 < |s| ==> s[k + 1] != '\\') && (k + 2 < |s| ==> s[k + 2] != '\'')
  {
    AtTwo(s, k, '/', '/');
    AtTwo(s, k, '/', '*');
    AtOne(s, k + 1, '\\');
  }

  /** No double quote and no comment opener is left. */
  lemma BlankHasNoOpeners(s: string, alnum: Alnum)
    ensures forall k :: 0 <= k < |s| ==> Blanked(s, alnum)[k] != '"'
    ensures forall k :: 0 <= k < |s| - 1 ==> !(Blanked(s, alnum)[k] == '/' && Blanked(s, alnum)[k + 1] in {'/', '*'})
  {
    hide Lex, BlankFrom;
    forall k | 0 <= k < |s| ensures Blanked(s, alnum)[k] != '"' {
      BlankAt(s, 0, k, alnum);
      if Lex(s, k, alnum).Keep? { KeptChar(s, k, alnum); }
    }
    forall k | 0 <= k < |s| - 1 ensures !(Blanked(s, alnum)[k] == '/' && Blanked(s, alnum)[k + 1] in {'/', '*'}) {
      BlankAt(s, 0, k, alnum);
      BlankAt(s, 0, k + 1, alnum);
      if Lex(s, k, alnum).Keep? { KeptChar(s, k, alnum); }
    }
  }

  /** A text in which the lexer keeps every character. */
  ghost predicate AllKept(s: string, alnum: Alnum) {
    forall k :: 0 <= k < |s| ==> Lex(s, k, alnum).Keep?
  }

  lemma {:induction false} KeptStays(s: string, i: nat, alnum: Alnum)
    requires i <= |s| && AllKept(s, alnum)
    ensures BlankFrom(s, i, alnum) == s[i..]
    decreases |s| - i
  {
    if i < |s| {
      KeptStays(s, i + 1, alnum);
      assert Lex(s, i, alnum).Keep?;
    }
  }

  lemma {:induction false} StaysKept(s: string, i: nat, k: nat, alnum: Alnum)
    requires i <= k < |s| && BlankFrom(s, i, alnum) == s[i..]
    ensures Lex(s, k, alnum).Keep?
    decreases |s| - i
  {
    var t := Lex(s, i, alnum);
    if t.Keep? {
      if k > i {
        assert BlankFrom(s, i, alnum)[1..] == BlankFrom(s, i + 1, alnum);
        StaysKept(s, i + 1, k, alnum);
      }
    } else {
      assert BlankFrom(s, i, alnum)[0] == Spaces(s[i..t.end])[0] == SpaceFor(s[i]);
      SkipStartsNonBlank(s, i, alnum);
    }
  }

  lemma SkipStartsNonBlank(s: string, i: nat, alnum: Alnum)
    requires i < |s| && Lex(s, i, alnum).Skip?
    ensures s[i] != SpaceFor(s[i])
  {
    AtTwo(s, i, '/', '/');
    AtTwo(s, i, '/', '*');
    AtTwo(s, i, 'b', '"');
  }

  /** Blanking leaves a text alone exactly when there is nothing to blank in it. */
  lemma BlankIsIdentityIff(s: string, alnum: Alnum)
    ensures Blanked(s, alnum) == s <==> AllKept(s, alnum)
  {
    if AllKept(s, alnum) { KeptStays(s, 0, alnum); }
    if Blanked(s, alnum) == s {
      forall k | 0 <= k < |s| ensures Lex(s, k, alnum).Keep? { StaysKept(s, 0, k, alnum); }
    }
  }

  /** A text without quotes or comment openers, whose single quotes are lifetimes, is
      kept. */
  lemma PlainIsKept(t: string, k: nat, alnum: Alnum)
    requires k < |t| && forall j :: 0 <= j < |t| ==> t[j] != '"'
    requires t[k] == '/' && k + 1 < |t| ==> t[k + 1] != '/' && t[k + 1] != '*'
    requires t[k] == '\'' ==> (k + 1 < |t| ==> t[k + 1] != '\\') && (k + 2 < |t| ==> t[k + 2] != '\'')
    ensures Lex(t, k, alnum).Keep?
  {
    AtTwo(t, k, '/', '/');
    AtTwo(t, k, '/', '*');
    AtTwo(t, k, 'b', '"');
    AtOne(t, k + 1, '\\');
  }

  /** Blanking twice is blanking once, for every text, terminated or not. */
  lemma BlankIdempotent(s: string, alnum: Alnum)
    ensures Blanked(Blanked(s, alnum), alnum) == Blanked(s, alnum)
  {
    var t := Blanked(s, alnum);
    BlankHasNoOpeners(s, alnum);
    hide BlankFrom, Lex;
    forall k | 0 <= k < |t| ensures Lex(t, k, alnum).Keep? {
      BlankAt(s, 0, k, alnum);
      if k + 1 < |s| { BlankAt(s, 0, k + 1, alnum); }
      if k + 2 < |s| { BlankAt(s, 0, k + 2, alnum); }
      if Lex(s, k, alnum).Keep? { KeptChar(s, k, alnum); }
      PlainIsKept(t, k, alnum);
    }
    BlankIsIdentityIff(t, alnum);
  }

  // --------------------------------------- well-formed literals are blanked whole

  /** The inside of a block comment: characters and nested comments. */
  datatype Piece = Ch(c: char) | Nest(body: seq<Piece>)

  function Pieces(ps: seq<Piece>): string
    decreases ps
  {
    if ps == [] then []
    else (if ps[0].Ch? then [ps[0].c] else "/*" + Pieces(ps[0].body) + "*/") + Pieces(ps[1..])
  }

  function Width(ps: seq<Piece>): nat {
    |Pieces(ps)|
  }

  predicate Delimits(c: char, after: string) {
    after != [] && ((c == '/' && after[0] == '*') || (c == '*' && after[0] == '/'))
  }

  /** No character forms a comment delimiter with what follows it. */
  predicate Quiet(ps: seq<Piece>, after: string)
    decreases ps
  {
    ps == []
    || ((if ps[0].Ch? then !Delimits(ps[0].c, Pieces(ps[1..]) + after) else Quiet(ps[0].body, "*/"))
        && Quiet(ps[1..], after))
  }

  /** `x` is what is left of `s` at `j`. */
  ghost predicate Remains(s: string, j: nat, x: string) {
    j <= |s| && s[j..] == x
  }

  lemma ScanChar(s: string, j: nat, depth: nat, c: char, rest: string)
    requires Remains(s, j, [c] + rest) && !Delimits(c, rest) && depth > 0
    ensures j < |s| && Remains(s, j + 1, rest) && CommentEnd(s, j, depth) == CommentEnd(s, j + 1, depth)
  {
    AtTwo(s, j, '/', '*');
    AtTwo(s, j, '*', '/');
    assert s[j] == s[j..][0] && s[j + 1..] == s[j..][1..];
    assert rest != [] ==> s[j + 1] == s[j + 1..][0];
  }

  lemma ScanOpen(s: string, j: nat, depth: nat, rest: string)
    requires Remains(s, j, "/*" + rest) && depth > 0
    ensures j + 2 <= |s| && Remains(s, j + 2, rest) && CommentEnd(s, j, depth) == CommentEnd(s, j + 2, depth + 1)
  {
    AtTwo(s, j, '/', '*');
    assert s[j] == s[j..][0] && s[j + 1] == s[j..][1] && s[j + 2..] == s[j..][2..];
  }

  lemma ScanClose(s: string, j: nat, depth: nat, rest: string)
    requires Remains(s, j, "*/" + rest) && depth > 0
    ensures j + 2 <= |s| && Remains(s, j + 2, rest) && CommentEnd(s, j, depth) == CommentEnd(s, j + 2, depth - 1)
  {
    AtTwo(s, j, '/', '*');
    AtTwo(s, j, '*', '/');
    assert s[j] == s[j..][0] && s[j + 1] == s[j..][1] && s[j + 2..] == s[j..][2..];
  }

  lemma Regroup(a: string, b: string, c: string, d: string, e: string)
    ensures a + b + c + d + e == a + (b + (c + (d + e)))
  {
  }

  lemma SplitChar(ps: seq<Piece>, after: string)
    requires ps != [] && ps[0].Ch?
    ensures Pieces(ps) + after == [ps[0].c] + (Pieces(ps[1..]) + after)
    ensures Width(ps) == 1 + Width(ps[1..])
    ensures Quiet(ps, after) ==> !Delimits(ps[0].c, Pieces(ps[1..]) + after) && Quiet(ps[1..], after)
  {
  }

  lemma SplitNest(ps: seq<Piece>, after: string)
    requires ps != [] && ps[0].Nest?
    ensures Pieces(ps) + after == "/*" + (Pieces(ps[0].body) + ("*/" + (Pieces(ps[1..]) + after)))
    ensures Width(ps) == 4 + Width(ps[0].body) + Width(ps[1..])
    ensures Quiet(ps, after) ==> Quiet(ps[0].body, "*/") && Quiet(ps[1..], after)
  {
    var body, rest := Pieces(ps[0].body), Pieces(ps[1..]);
    assert Pieces(ps) == "/*" + body + "*/" + rest;
    Regroup("/*", body, "*/", rest, after);
  }

  function Size(ps: seq<Piece>): nat
    decreases ps
  {
    if ps == [] then 0 else 1 + (if ps[0].Nest? then Size(ps[0].body) else 0) + Size(ps[1..])
  }

  lemma SizeStep(ps: seq<Piece>)
    requires ps != []
    ensures Size(ps[1..]) < Size(ps) && (ps[0].Nest? ==> Size(ps[0].body) < Size(ps))
  {
  }

  ghost function TextOf(ps: seq<Piece>, after: string): string { Pieces(ps) + after }

  ghost function Closing(rest: string): string { "*/" + rest }

  lemma NoPieces(after: string)
    ensures TextOf([], after) == after && Width([]) == 0
  {
    assert Pieces([]) + after == after;
  }

  lemma PassChar(s: string, j: nat, depth: nat, ps: seq<Piece>, after: string)
    requires Remains(s, j, TextOf(ps, after)) && Quiet(ps, after) && depth > 0 && ps != [] && ps[0].Ch?
    ensures j + 1 <= |s| && Remains(s, j + 1, TextOf(ps[1..], after)) && Quiet(ps[1..], after)
    ensures CommentEnd(s, j, depth) == CommentEnd(s, j + 1, depth) && Width(ps) == 1 + Width(ps[1..])
  {
    hide CommentEnd, Pieces, Width, Quiet, Remains;
    SplitChar(ps, after);
    ScanChar(s, j, depth, ps[0].c, TextOf(ps[1..], after));
  }

  lemma PassOpen(s: string, j: nat, depth: nat, ps: seq<Piece>, after: string)
    requires Remains(s, j, TextOf(ps, after)) && Quiet(ps, after) && depth > 0 && ps != [] && ps[0].Nest?
    ensures var inner := Closing(TextOf(ps[1..], after));
      j + 2 <= |s| && Remains(s, j + 2, TextOf(ps[0].body, inner)) && Quiet(ps[0].body, inner) && Quiet(ps[1..], after)
    ensures CommentEnd(s, j, depth) == CommentEnd(s, j + 2, depth + 1)
    ensures Width(ps) == 4 + Width(ps[0].body) + Width(ps[1..])
  {
    hide CommentEnd, Pieces, Width, Quiet, Remains;
    SplitNest(ps, after);
    ScanOpen(s, j, depth, TextOf(ps[0].body, Closing(TextOf(ps[1..], after))));
    QuietBefore(ps[0].body, TextOf(ps[1..], after));
  }

  lemma PassClose(s: string, j: nat, depth: nat, rest: string)
    requires Remains(s, j, Closing(rest)) && depth > 0
    ensures j + 2 <= |s| && Remains(s, j + 2, rest) && CommentEnd(s, j, depth) == CommentEnd(s, j + 2, depth - 1)
  {
    ScanClose(s, j, depth, rest);
  }

  function HeadWidth(p: Piece): nat { if p.Ch? then 1 else 4 + Width(p.body) }

  /** The comment scan passes over well-nested text and comes out at the same depth. */
  lemma {:induction false} ScanPieces(s: string, j: nat, depth: nat, ps: seq<Piece>, after: string)
    requires Remains(s, j, TextOf(ps, after)) && Quiet(ps, after) && depth > 0
    ensures Passes(s, j, depth, j + Width(ps), after)
    decreases Size(ps), 2
  {
    hide CommentEnd, Pieces, Width, Quiet, Remains, TextOf, Closing, Size, HeadWidth, Passes;
    if ps == [] {
      NoPieces(after);
      PassesNothing(s, j, depth, after);
    } else {
      SizeStep(ps);
      var k := j + HeadWidth(ps[0]);
      ScanHead(s, j, depth, ps, after);
      PassesRemains(s, j, depth, k, TextOf(ps[1..], after));
      ScanPieces(s, k, depth, ps[1..], after);
      PassesJoin(s, j, depth, k, TextOf(ps[1..], after), j + Width(ps), after);
    }
  }

  /** Scanning from `j` at this depth leads to `k`, where `rest` is left. */
  ghost predicate Passes(s: string, j: nat, depth: nat, k: nat, rest: string) {
    j <= |s| && Remains(s, k, rest) && CommentEnd(s, j, depth) == CommentEnd(s, k, depth)
  }

  lemma PassesNothing(s: string, j: nat, depth: nat, rest: string)
    requires Remains(s, j, rest)
    ensures Passes(s, j, depth, j, rest)
  {
    hide CommentEnd;
  }

  lemma PassesRemains(s: string, j: nat, depth: nat, k: nat, rest: string)
    requires Passes(s, j, depth, k, rest)
    ensures Remains(s, k, rest)
  {
    hide CommentEnd;
  }

  lemma PassesJoin(s: string, j: nat, depth: nat, k: nat, middle: string, l: nat, rest: string)
    requires Passes(s, j, depth, k, middle) && Passes(s, k, depth, l, rest)
    ensures Passes(s, j, depth, l, rest)
  {
    hide CommentEnd;
  }

  lemma {:induction false} ScanHead(s: string, j: nat, depth: nat, ps: seq<Piece>, after: string)
    requires Remains(s, j, TextOf(ps, after)) && Quiet(ps, after) && depth > 0 && ps != []
    ensures Passes(s, j, depth, j + HeadWidth(ps[0]), TextOf(ps[1..], after)) && Quiet(ps[1..], after)
    ensures Width(ps) == HeadWidth(ps[0]) + Width(ps[1..])
    decreases Size(ps), 1
  {
    hide CommentEnd, Pieces, Width, Quiet, TextOf, Closing, Size;
    if ps[0].Ch? { PassChar(s, j, depth, ps, after); } else { ScanNest(s, j, depth, ps, after); }
  }

  lemma {:induction false} ScanNest(s: string, j: nat, depth: nat, ps: seq<Piece>, after: string)
    requires Remains(s, j, TextOf(ps, after)) && Quiet(ps, after) && depth > 0 && ps != [] && ps[0].Nest?
    ensures Passes(s, j, depth, j + 4 + Width(ps[0].body), TextOf(ps[1..], after)) && Quiet(ps[1..], after)
    ensures Width(ps) == 4 + Width(ps[0].body) + Width(ps[1..])
    decreases Size(ps), 0
  {
    hide CommentEnd, Pieces, Width, Quiet, TextOf, Closing, Size;
    SizeStep(ps);
    var rest := TextOf(ps[1..], after);
    PassOpen(s, j, depth, ps, after);
    ScanPieces(s, j + 2, depth + 1, ps[0].body, Closing(rest));
    PassClose(s, j + 2 + Width(ps[0].body), depth + 1, rest);
  }

  lemma {:induction false} QuietBefore(ps: seq<Piece>, rest: string)
    requires Quiet(ps, "*/")
    ensures Quiet(ps, "*/" + rest)
  {
    if ps != [] {
      QuietBefore(ps[1..], rest);
      assert (Pieces(ps[1..]) + "*/")[0] == (Pieces(ps[1..]) + ("*/" + rest))[0];
    }
  }

  /** A well-nested block comment is one token, however deep, and ends where it ends. */
  lemma BlockCommentWhole(before: string, ps: seq<Piece>, rest: string, alnum: Alnum)
    requires Quiet(ps, "*/")
    ensures Lex(before + "/*" + Pieces(ps) + "*/" + rest, |before|, alnum) == Skip(|before| + |Pieces(ps)| + 4)
  {
    var s := before + "/*" + Pieces(ps) + "*/" + rest;
    var i := |before|;
    hide CommentEnd, Pieces, Quiet, Lex;
    LexComment(s, i, alnum);
    assert s[i + 2..] == Pieces(ps) + ("*/" + rest);
    QuietBefore(ps, rest);
    ScanPieces(s, i + 2, 1, ps, "*/" + rest);
    var k := i + 2 + |Pieces(ps)|;
    ScanClose(s, k, 1, rest);
    assert CommentEnd(s, k + 2, 0) == k + 2 by { CommentOver(s, k + 2); }
  }

  lemma LexComment(s: string, i: nat, alnum: Alnum)
    requires i + 1 < |s| && s[i] == '/' && s[i + 1] == '*'
    ensures Lex(s, i, alnum) == Skip(CommentEnd(s, i + 2, 1))
  {
    AtTwo(s, i, '/', '/');
    AtTwo(s, i, '/', '*');
  }

  lemma CommentOver(s: string, j: nat)
    requires j <= |s|
    ensures CommentEnd(s, j, 0) == j
  {
  }

  /** A character of a string literal, plain or escaped. */
  datatype StringChar = Plain(c: char) | Escaped(c: char)

  function StringBody(cs: seq<StringChar>): string {
    if cs == [] then [] else (if cs[0].Plain? then [cs[0].c] else ['\\', cs[0].c]) + StringBody(cs[1..])
  }

  lemma {:induction false} ScanString(s: string, j: nat, cs: seq<StringChar>, rest: string)
    requires j <= |s| && s[j..] == StringBody(cs) + ['"'] + rest
    requires forall k :: 0 <= k < |cs| && cs[k].Plain? ==> cs[k].c != '"' && cs[k].c != '\\'
    ensures StringEnd(s, j) == j + |StringBody(cs)| + 1
    decreases |cs|
  {
    if cs == [] {
      assert s[j] == s[j..][0];
    } else {
      var first := if cs[0].Plain? then [cs[0].c] else ['\\', cs[0].c];
      assert s[j..] == first + (StringBody(cs[1..]) + ['"'] + rest);
      assert s[j] == s[j..][0];
      assert s[j + |first|..] == s[j..][|first|..] == StringBody(cs[1..]) + ['"'] + rest;
      ScanString(s, j + |first|, cs[1..], rest);
    }
  }

  /** A string literal is one token: escaped quotes do not end it. */
  lemma StringWhole(before: string, cs: seq<StringChar>, rest: string, alnum: Alnum)
    requires forall k :: 0 <= k < |cs| && cs[k].Plain? ==> cs[k].c != '"' && cs[k].c != '\\'
    ensures Lex(before + ['"'] + StringBody(cs) + ['"'] + rest, |before|, alnum)
      == Skip(|before| + |StringBody(cs)| + 2)
  {
    var s := before + ['"'] + StringBody(cs) + ['"'] + rest;
    var i := |before|;
    assert s[i] == '"';
    AtTwo(s, i, '/', '/');
    AtTwo(s, i, '/', '*');
    assert s[i + 1..] == StringBody(cs) + ['"'] + rest;
    ScanString(s, i + 1, cs, rest);
  }

  function Guard(h: nat): string {
    ['"'] + seq(h, _ => '#')
  }

  lemma {:induction false} CountHashes(s: string, j: nat, h: nat)
    requires j + h < |s| && s[j + h] != '#' && forall k :: j <= k < j + h ==> s[k] == '#'
    ensures Hashes(s, j) == h
    decreases h
  {
    if h > 0 { CountHashes(s, j + 1, h - 1); }
  }

  lemma AtShift(before: string, x: string, after: string, k: nat, pattern: string)
    requires k + |pattern| <= |x|
    ensures At(before + x + after, |before| + k, pattern) <==> At(x, k, pattern)
  {
    var s := before + x + after;
    assert s[|before| + k..|before| + k + |pattern|] == x[k..k + |pattern|];
  }

  /** The search for the end of a raw string stops at the first full guard. */
  lemma FindGuard(opening: string, body: string, rest: string, h: nat)
    requires forall k :: 0 <= k < |body| ==> !At(body + Guard(h), k, Guard(h))
    ensures FindEnd(opening + (body + Guard(h)) + rest, Guard(h), |opening|) == |opening| + |body| + 1 + h
  {
    var x := body + Guard(h);
    var s := opening + x + rest;
    forall k | |opening| <= k < |opening| + |body| ensures !At(s, k, Guard(h)) {
      AtShift(opening, x, rest, k - |opening|, Guard(h));
    }
    assert x[|body|..|body| + |Guard(h)|] == Guard(h);
    AtShift(opening, x, rest, |body|, Guard(h));
    var r := Find(s, Guard(h), |opening|);
    assert At(s, |opening| + |body|, Guard(h));
  }

  lemma RawOpens(before: string, h: nat, rest: string)
    ensures var s := before + ['r'] + seq(h, _ => '#') + ['"'] + rest;
      RawStarts(s, |before|) && RawMark(s, |before|) == |before| && Hashes(s, |before| + 1) == h
  {
    var s := before + ['r'] + seq(h, _ => '#') + ['"'] + rest;
    assert s[|before|] == 'r' && s[|before| + 1 + h] == '"';
    CountHashes(s, |before| + 1, h);
  }

  lemma BeforeKept(before: string, s: string, alnum: Alnum)
    requires before <= s
    ensures WordBefore(s, |before|, alnum) == WordBefore(before, |before|, alnum)
  {
    assert |before| > 0 ==> s[|before| - 1] == before[|before| - 1];
  }

  /** A raw string is one token: only a quote with as many hashes ends it. */
  lemma RawStringWhole(before: string, h: nat, body: string, rest: string, alnum: Alnum)
    requires !WordBefore(before, |before|, alnum)
    requires forall k :: 0 <= k < |body| ==> !At(body + Guard(h), k, Guard(h))
    ensures Lex(before + ['r'] + seq(h, _ => '#') + ['"'] + (body + Guard(h) + rest), |before|, alnum)
         == Skip(|before| + 2 + h + |body| + 1 + h)
  {
    var opening := before + ['r'] + seq(h, _ => '#') + ['"'];
    var s := opening + (body + Guard(h) + rest);
    hide Lex, Guard, FindEnd, RawStarts, RawMark, Hashes, WordBefore;
    assert before <= s;
    RawOpens(before, h, body + Guard(h) + rest);
    FindGuard(opening, body, rest, h);
    Reassociate(opening, body + Guard(h), rest);
    BeforeKept(before, s, alnum);
    LexRaw(s, |before|, h, alnum);
  }

  lemma LexRaw(s: string, i: nat, h: nat, alnum: Alnum)
    requires i < |s| && RawStarts(s, i) && RawMark(s, i) == i && Hashes(s, i + 1) == h && !WordBefore(s, i, alnum)
    ensures Lex(s, i, alnum) == Skip(FindEnd(s, Guard(h), i + 2 + h))
  {
    AtTwo(s, i, '/', '/');
    AtTwo(s, i, '/', '*');
    assert Guard(h) == "\"" + seq(h, _ => '#');
  }

  // ------------------------------------------------------ the lexer as it runs

  /** The loop over the source: each token is appended to the output as it stands or
      as spaces. */
  method BlankText(source: string, alnum: Alnum) returns (out: string)
    ensures out == Blanked(source, alnum)
  {
    hide Lex, BlankFrom, Spaces;
    out := [];
    var i := 0;
    assert [] + BlankFrom(source, 0, alnum) == BlankFrom(source, 0, alnum);
    while i < |source|
      invariant 0 <= i <= |source|
      invariant out + BlankFrom(source, i, alnum) == Blanked(source, alnum)
      decreases |source| - i
    {
      var j := TokenEnd(source, i, alnum);
      if j == i {
        BlankKeep(source, i, alnum);
        Reassociate(out, [source[i]], BlankFrom(source, i + 1, alnum));
        out := out + [source[i]];
        i := i + 1;
      } else {
        BlankSkip(source, i, alnum);
        Reassociate(out, Spaces(source[i..j]), BlankFrom(source, j, alnum));
        out := out + Spaces(source[i..j]);
        i := j;
      }
    }
    BlankEnd(source, alnum);
    assert out + [] == out;
  }

  /** Where the token at `i` ends; a kept character does not advance `j`. */
  method TokenEnd(source: string, i: nat, alnum: Alnum) returns (j: nat)
    requires i < |source|
    ensures Lex(source, i, alnum) == if j == i then Keep else Skip(j)
  {
    var c := source[i];
    j := i;
    if At(source, i, "//") {
      var r := Find(source, "\n", i);
      j := if r.Some? then r.value else |source|;
    } else if At(source, i, "/*") {
      j := SkipComment(source, i + 2);
    } else if RawStarts(source, i) && !WordBefore(source, i, alnum) {
      j := RawEnd(source, i);
    } else if StringStarts(source, i, alnum) {
      j := SkipString(source, if c == 'b' then i + 2 else i + 1);
    } else if c == '\'' {
      if At(source, i + 1, "\\") {
        j := FindEnd(source, "'", i + 2);
      } else if i + 2 < |source| && source[i + 2] == '\'' {
        j := i + 3;
      }
    }
  }

  method SkipComment(source: string, start: nat) returns (j: nat)
    requires start <= |source|
    ensures j == CommentEnd(source, start, 1)
  {
    var depth := 1;
    j := start;
    while j < |source| && depth != 0
      invariant start <= j <= |source| && depth >= 0
      invariant CommentEnd(source, start, 1) == CommentEnd(source, j, depth)
      decreases |source| - j
    {
      if At(source, j, "/*") {
        depth, j := depth + 1, j + 2;
      } else if At(source, j, "*/") {
        depth, j := depth - 1, j + 2;
      } else {
        j := j + 1;
      }
    }
  }

  method SkipString(source: string, start: nat) returns (j: nat)
    requires start <= |source|
    ensures j == StringEnd(source, start)
  {
    j := start;
    while j < |source| && source[j] != '"'
      invariant StringEnd(source, start) == StringEnd(source, j)
      decreases |source| - j
    {
      j := j + if source[j] == '\\' then 2 else 1;
    }
    j := if j + 1 < |source| then j + 1 else |source|;
  }
}
