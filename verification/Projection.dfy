/** The identity projection of an IR snapshot: source offsets at the end of a line are
    erased before hashing, and nothing else is. */
module Projection {

  const MARKERS: seq<string> := ["span=", "defined-at ", "applied-at "]

  // ---------------------------------------------------------------- the code

  predicate OccursAt(s: string, m: string, i: int) {
    0 <= i && i + |m| <= |s| && s[i..i + |m|] == m
  }

  /** The last occurrence of `m` that starts before `n`, or -1. */
  function LastBefore(s: string, m: string, n: nat): (r: int)
    ensures -1 <= r < n
    ensures r >= 0 ==> OccursAt(s, m, r)
    ensures forall i :: r < i < n ==> !OccursAt(s, m, i)
  {
    if n == 0 then -1 else if OccursAt(s, m, n - 1) then n - 1 else LastBefore(s, m, n - 1)
  }

  function RFind(s: string, m: string): int { LastBefore(s, m, |s| + 1) }

  /** The first ".." at or after `i`, or -1. */
  function DotsFrom(s: string, i: nat): (r: int)
    requires i <= |s|
    ensures r == -1 || (i <= r && OccursAt(s, "..", r))
    ensures forall k :: i <= k && (r < 0 || k < r) ==> !OccursAt(s, "..", k)
    decreases |s| - i
  {
    if OccursAt(s, "..", i) then i else if i == |s| then -1 else DotsFrom(s, i + 1)
  }

  predicate IsDigits(s: string) {
    s != [] && forall i :: 0 <= i < |s| ==> '0' <= s[i] <= '9'
  }

  /** The text splits at its first ".." into two numbers. */
  predicate PartsAreNumbers(t: string) {
    var k := DotsFrom(t, 0);
    k >= 0 && IsDigits(t[..k]) && IsDigits(t[k + 2..])
  }

  predicate Hit(line: string, m: string) {
    RFind(line, m) >= 0 && PartsAreNumbers(line[RFind(line, m) + |m|..])
  }

  function EraseWith(markers: seq<string>, line: string): string {
    if markers == [] then line
    else if Hit(line, markers[0]) then line[..RFind(line, markers[0]) + |markers[0]|] + "-"
    else EraseWith(markers[1..], line)
  }

  function Erase(line: string): string { EraseWith(MARKERS, line) }

  function Split(s: string): (r: seq<string>)
    ensures r != []
  {
    if s == [] then [""]
    else
      var rest := Split(s[1..]);
      if s[0] == '\n' then [""] + rest else [[s[0]] + rest[0]] + rest[1..]
  }

  function Join(lines: seq<string>): string
    requires lines != []
  {
    if |lines| == 1 then lines[0] else lines[0] + "\n" + Join(lines[1..])
  }

  function EraseLines(lines: seq<string>): (r: seq<string>)
    ensures |r| == |lines|
  {
    seq(|lines|, i requires 0 <= i < |lines| => Erase(lines[i]))
  }

  function Project(snapshot: string): string { Join(EraseLines(Split(snapshot))) }

  // ------------------------------------------------- one line, declaratively

  /** digits, "..", digits. */
  ghost predicate IsOffsets(t: string) {
    exists k :: 0 < k <= |t| - 2 && IsDigits(t[..k]) && OccursAt(t, "..", k) && IsDigits(t[k + 2..])
  }

  ghost predicate IsMarker(m: string) { m in MARKERS }

  lemma MarkerShape(m: string)
    requires IsMarker(m)
    ensures m == "span=" || m == "defined-at " || m == "applied-at "
    ensures |m| > 0 && m[|m| - 1] in {'=', ' '} && m[0] in {'s', 'd', 'a'}
  {
  }

  lemma OffsetChars(t: string)
    requires IsOffsets(t)
    ensures t != [] && forall i :: 0 <= i < |t| ==> '0' <= t[i] <= '9' || t[i] == '.'
  {
    var k :| 0 < k <= |t| - 2 && IsDigits(t[..k]) && OccursAt(t, "..", k) && IsDigits(t[k + 2..]);
    forall i | 0 <= i < |t| ensures '0' <= t[i] <= '9' || t[i] == '.' {
      if i < k { assert t[i] == t[..k][i]; }
      else if i < k + 2 { assert t[i] == t[k..k + 2][i - k]; }
      else { assert t[i] == t[k + 2..][i - k - 2]; }
    }
  }

  lemma OccursChars(s: string, m: string, i: int)
    requires |m| >= 2
    ensures OccursAt(s, m, i) ==> s[i] == m[0] && s[i + 1] == m[1]
  {
    if OccursAt(s, m, i) {
      assert s[i] == s[i..i + |m|][0];
      assert s[i + 1] == s[i..i + |m|][1];
    }
  }

  /** Splitting at the first ".." finds exactly the texts made of two numbers. */
  lemma PartsIff(t: string)
    ensures PartsAreNumbers(t) <==> IsOffsets(t)
  {
    if IsOffsets(t) {
      var k :| 0 < k <= |t| - 2 && IsDigits(t[..k]) && OccursAt(t, "..", k) && IsDigits(t[k + 2..]);
      forall i | 0 <= i < k ensures !OccursAt(t, "..", i) {
        assert t[i] == t[..k][i];
        OccursChars(t, "..", i);
      }
      assert DotsFrom(t, 0) == k;
    }
  }

  /** A marker followed by offsets is the last occurrence of that marker. */
  lemma LastMarker(p: string, m: string, t: string)
    requires IsMarker(m) && IsOffsets(t)
    ensures RFind(p + m + t, m) == |p|
  {
    MarkerShape(m);
    OffsetChars(t);
    hide IsMarker, IsOffsets, IsDigits;
    var line := p + m + t;
    assert OccursAt(line, m, |p|);
    forall i | |p| < i <= |line| ensures !OccursAt(line, m, i) {
      OccursChars(line, m, i);
      if i >= |p| + |m| {
        assert i < |line| ==> line[i] == t[i - |p| - |m|];
      } else {
        assert line[i] == m[i - |p|];
        assert i + 1 < |p| + |m| ==> line[i + 1] == m[i - |p| + 1];
      }
    }
  }

  /** Where a line ends in offsets, marker and prefix are determined. */
  lemma SlotUnique(p: string, m: string, t: string, q: string, n: string, u: string)
    requires IsMarker(m) && IsMarker(n) && IsOffsets(t) && IsOffsets(u)
    requires p + m + t == q + n + u
    ensures p == q && m == n && t == u
  {
    var line := p + m + t;
    TailNoLonger(p, m, t, q, n, u);
    TailNoLonger(q, n, u, p, m, t);
    assert p + m == line[..|line| - |t|] == q + n;
    SuffixMarker(p, m, q, n);
    assert t == line[|line| - |t|..];
  }

  lemma TailNoLonger(p: string, m: string, t: string, q: string, n: string, u: string)
    requires IsMarker(m) && IsMarker(n) && IsOffsets(t) && IsOffsets(u)
    requires p + m + t == q + n + u
    ensures |t| <= |u|
  {
    MarkerShape(n);
    OffsetChars(t);
    var line := p + m + t;
    forall i | |p| + |m| <= i < |line| ensures line[i] !in {'=', ' '} {
      assert line[i] == t[i - |p| - |m|];
    }
    assert (q + n + u)[|q| + |n| - 1] == n[|n| - 1];
  }

  /** No marker ends another one. */
  lemma SuffixMarker(p: string, m: string, q: string, n: string)
    requires IsMarker(m) && IsMarker(n) && p + m == q + n
    ensures p == q && m == n
  {
    MarkerShape(m);
    MarkerShape(n);
    var s := p + m;
    assert s[|s| - 1] == m[|m| - 1] == n[|n| - 1];
    assert |m| == |n|;
    assert m == s[|s| - |m|..] && n == s[|s| - |m|..];
    assert p == s[..|s| - |m|] && q == s[..|s| - |m|];
  }

  lemma SlotHits(p: string, m: string, t: string)
    requires IsMarker(m) && IsOffsets(t)
    ensures Hit(p + m + t, m)
  {
    LastMarker(p, m, t);
    PartsIff(t);
    hide RFind, PartsAreNumbers, IsOffsets, IsMarker;
    assert (p + m + t)[|p| + |m|..] == t;
  }

  lemma RFindOccurs(line: string, m: string)
    ensures RFind(line, m) >= 0 ==> OccursAt(line, m, RFind(line, m))
  {
  }

  lemma HitSplits(line: string, m: string)
    requires Hit(line, m)
    ensures exists p, t :: IsOffsets(t) && line == p + m + t
  {
    hide RFind, PartsAreNumbers, IsOffsets;
    var i := RFind(line, m);
    RFindOccurs(line, m);
    var t := line[i + |m|..];
    PartsIff(t);
    assert line == line[..i] + m + t;
  }

  lemma HitIff(line: string, m: string)
    requires IsMarker(m)
    ensures Hit(line, m) <==> exists p, t :: IsOffsets(t) && line == p + m + t
  {
    if Hit(line, m) { HitSplits(line, m); }
    forall p, t | IsOffsets(t) && line == p + m + t ensures Hit(line, m) { SlotHits(p, m, t); }
  }

  ghost predicate SameMarkers(markers: seq<string>) {
    forall m :: m in markers <==> m in MARKERS
  }

  lemma {:induction false} EraseWithSlot(markers: seq<string>, p: string, m: string, t: string)
    requires IsMarker(m) && IsOffsets(t) && (forall n :: n in markers ==> IsMarker(n)) && m in markers
    ensures EraseWith(markers, p + m + t) == p + m + "-"
  {
    var line := p + m + t;
    var n := markers[0];
    HitIff(line, n);
    if Hit(line, n) {
      var q, u :| IsOffsets(u) && line == q + n + u;
      SlotUnique(p, m, t, q, n, u);
      LastMarker(p, m, t);
      assert line[..|p| + |m|] == p + m;
    } else {
      EraseWithSlot(markers[1..], p, m, t);
    }
  }

  lemma {:induction false} EraseWithNone(markers: seq<string>, line: string)
    requires forall n :: n in markers ==> !Hit(line, n)
    ensures EraseWith(markers, line) == line
  {
    if markers != [] { EraseWithNone(markers[1..], line); }
  }

  /** The line ends in offsets after some marker. */
  ghost predicate Located(line: string, p: string, m: string) {
    IsMarker(m) && exists t :: IsOffsets(t) && line == p + m + t
  }

  /** Erasing, said declaratively: offsets after a marker become "-" and every other
      line is left alone, in whatever order the markers are tried. */
  lemma EraseMeaning(markers: seq<string>, line: string)
    requires SameMarkers(markers)
    ensures forall p, m :: Located(line, p, m) ==> EraseWith(markers, line) == p + m + "-"
    ensures (forall p, m :: !Located(line, p, m)) ==> EraseWith(markers, line) == line
    ensures EraseWith(markers, line) == Erase(line)
  {
    forall p, m | Located(line, p, m)
      ensures EraseWith(markers, line) == p + m + "-" == Erase(line)
    {
      var t :| IsOffsets(t) && line == p + m + t;
      EraseWithSlot(markers, p, m, t);
      EraseWithSlot(MARKERS, p, m, t);
    }
    if forall p, m :: !Located(line, p, m) {
      forall n | IsMarker(n) ensures !Hit(line, n) {
        HitIff(line, n);
        forall p, t ensures !(IsOffsets(t) && line == p + n + t) { assert !Located(line, p, n); }
      }
      EraseWithNone(markers, line);
      EraseWithNone(MARKERS, line);
    }
  }

  // --------------------------------------------------- lines projecting equally

  /** `line` is `p`, the marker `m` and then offsets or an erased field. */
  ghost predicate Slot(line: string, p: string, m: string) {
    Located(line, p, m) || (IsMarker(m) && line == p + m + "-")
  }

  ghost predicate SameButOffsets(a: string, b: string) {
    a == b || exists p, m :: Slot(a, p, m) && Slot(b, p, m)
  }

  lemma LocatedEnd(line: string, p: string, m: string)
    ensures Located(line, p, m) ==> line != [] && line[|line| - 1] != '-'
  {
    if Located(line, p, m) {
      var t :| IsOffsets(t) && line == p + m + t;
      OffsetChars(t);
      assert line[|line| - 1] == t[|t| - 1];
    }
  }

  lemma ErasedStays(line: string)
    requires line != [] && line[|line| - 1] == '-'
    ensures Erase(line) == line
  {
    forall p, m ensures !Located(line, p, m) { LocatedEnd(line, p, m); }
    EraseMeaning(MARKERS, line);
  }

  lemma SlotErases(line: string, p: string, m: string)
    requires Slot(line, p, m)
    ensures Erase(line) == p + m + "-"
  {
    if Located(line, p, m) { EraseMeaning(MARKERS, line); } else { ErasedStays(line); }
  }

  lemma ErasesToSlot(line: string) returns (p: string, m: string)
    requires Erase(line) != line
    ensures Slot(line, p, m) && Erase(line) == p + m + "-"
  {
    EraseMeaning(MARKERS, line);
    p, m :| Located(line, p, m);
  }

  /** Two lines project to the same text exactly when they are equal or differ only in
      the offsets, or the erased field, after the same prefix and marker. */
  lemma EraseEqualIff(a: string, b: string)
    ensures Erase(a) == Erase(b) <==> SameButOffsets(a, b)
  {
    if p, m :| Slot(a, p, m) && Slot(b, p, m) {
      SlotErases(a, p, m);
      SlotErases(b, p, m);
    }
    if Erase(a) == Erase(b) && a != b {
      if Erase(a) != a {
        var p, m := ErasesToSlot(a);
        SameSlot(a, b, p, m);
      } else {
        var p, m := ErasesToSlot(b);
        SameSlot(b, a, p, m);
      }
    }
  }

  lemma SameSlot(a: string, b: string, p: string, m: string)
    requires Slot(a, p, m) && Erase(b) == p + m + "-"
    ensures Slot(b, p, m)
  {
    if Erase(b) != b {
      var q, n := ErasesToSlot(b);
      assert (p + m + "-")[..|p + m|] == p + m && (q + n + "-")[..|q + n|] == q + n;
      SuffixMarker(p, m, q, n);
    }
  }

  lemma EraseIdempotent(line: string)
    ensures Erase(Erase(line)) == Erase(line)
  {
    if Erase(line) != line {
      var p, m := ErasesToSlot(line);
      ErasedStays(Erase(line));
    }
  }

  // -------------------------------------------------------- whole snapshots

  ghost predicate OneLine(s: string) { '\n' !in s }

  lemma {:induction false} SplitLines(s: string)
    ensures forall i :: 0 <= i < |Split(s)| ==> OneLine(Split(s)[i])
    ensures Join(Split(s)) == s
  {
    if s != [] {
      SplitLines(s[1..]);
      var rest := Split(s[1..]);
      assert s == [s[0]] + s[1..];
      if s[0] == '\n' {
        assert ([""] + rest)[1..] == rest;
        assert Join([""] + rest) == "" + "\n" + s[1..];
      } else {
        JoinCons(s[0], rest);
      }
    }
  }

  lemma JoinCons(c: char, lines: seq<string>)
    requires lines != []
    ensures Join([[c] + lines[0]] + lines[1..]) == [c] + Join(lines)
  {
    var more := [[c] + lines[0]] + lines[1..];
    assert more[1..] == lines[1..];
    if |lines| > 1 {
      assert ([c] + lines[0]) + "\n" + Join(lines[1..]) == [c] + (lines[0] + "\n" + Join(lines[1..]));
    } else {
      assert Join(more) == more[0];
    }
  }

  lemma {:induction false} SplitPrefix(line: string, s: string)
    requires OneLine(line)
    ensures Split(line + "\n" + s) == [line] + Split(s)
    ensures Split(line) == [line]
  {
    var all := line + "\n" + s;
    if line == [] {
      assert all[1..] == s;
    } else {
      SplitPrefix(line[1..], s);
      assert all[1..] == line[1..] + "\n" + s;
      assert [line[0]] + line[1..] == line;
    }
  }

  lemma {:induction false} SplitJoin(lines: seq<string>)
    requires lines != [] && forall i :: 0 <= i < |lines| ==> OneLine(lines[i])
    ensures Split(Join(lines)) == lines
  {
    if |lines| == 1 {
      SplitPrefix(lines[0], "");
    } else {
      SplitJoin(lines[1..]);
      SplitPrefix(lines[0], Join(lines[1..]));
      assert lines == [lines[0]] + lines[1..];
    }
  }

  lemma EraseOneLine(line: string)
    requires OneLine(line)
    ensures OneLine(Erase(line))
  {
    if Erase(line) != line {
      var p, m := ErasesToSlot(line);
      assert forall c :: c in p + m ==> c in line;
    }
  }

  /** The projection works line by line and keeps the number of lines. */
  lemma ProjectLines(s: string)
    ensures Split(Project(s)) == EraseLines(Split(s))
    ensures |Split(Project(s))| == |Split(s)|
  {
    SplitLines(s);
    var lines := Split(s);
    forall i | 0 <= i < |lines| ensures OneLine(EraseLines(lines)[i]) { EraseOneLine(lines[i]); }
    SplitJoin(EraseLines(lines));
  }

  lemma ProjectIdempotent(s: string)
    ensures Project(Project(s)) == Project(s)
  {
    ProjectLines(s);
    var lines := Split(s);
    forall i | 0 <= i < |lines| ensures EraseLines(EraseLines(lines))[i] == EraseLines(lines)[i] {
      EraseIdempotent(lines[i]);
    }
    assert EraseLines(EraseLines(lines)) == EraseLines(lines);
  }

  /** Two snapshots have the same identity text exactly when they have as many lines
      and each pair of lines is equal or differs only in offsets after one marker. */
  lemma ProjectEqualIff(a: string, b: string)
    ensures Project(a) == Project(b) <==>
      |Split(a)| == |Split(b)| && forall i :: 0 <= i < |Split(a)| ==> SameButOffsets(Split(a)[i], Split(b)[i])
  {
    ProjectLines(a);
    ProjectLines(b);
    var x, y := Split(a), Split(b);
    if |x| == |y| {
      forall i | 0 <= i < |x|
        ensures EraseLines(x)[i] == EraseLines(y)[i] <==> SameButOffsets(x[i], y[i])
      {
        EraseEqualIff(x[i], y[i]);
      }
      if forall i :: 0 <= i < |x| ==> SameButOffsets(x[i], y[i]) {
        assert EraseLines(x) == EraseLines(y);
      }
    }
  }
}
