/** Combining calibration edits: every edit is computed against the same lines, the
    accepted ones are applied back to front in one copy. */
module Edits {
  import opened Common

  type Lines = seq<string>

  /** Replace the lines from `first` up to `last` by `text`. */
  datatype Edit = Edit(first: nat, last: nat, text: Lines)

  datatype Failure = NoMutation | RealSource | Overlapping

  datatype Gathered = Refused(why: Failure) | Accepted(edits: seq<Edit>)

  datatype Combined = Rejected(why: Failure) | Patched(lines: Lines)

  /** What the differ reports for one site: nothing applied, or its changed ranges. */
  type Site = Option<seq<Edit>>

  /** Inclusive endpoints: two insertions at one offset also collide. */
  predicate Collides(a: Edit, b: Edit) {
    a.first <= b.last && b.first <= a.last
  }

  // ------------------------------------------------------- accepting edits

  function GatherSite(changes: seq<Edit>, start: nat, acc: seq<Edit>): Gathered
    decreases |changes|
  {
    if changes == [] then Accepted(acc)
    else if changes[0].first < start then Refused(RealSource)
    else if exists k :: 0 <= k < |acc| && Collides(changes[0], acc[k]) then Refused(Overlapping)
    else GatherSite(changes[1..], start, acc + [changes[0]])
  }

  function Gather(sites: seq<Site>, start: nat, acc: seq<Edit>): Gathered
    decreases |sites|
  {
    if sites == [] then Accepted(acc)
    else if sites[0].None? || sites[0].value == [] then Refused(NoMutation)
    else
      var g := GatherSite(sites[0].value, start, acc);
      if g.Refused? then g else Gather(sites[1..], start, g.edits)
  }

  /** All edits, site by site. */
  function Flatten(sites: seq<Site>): seq<Edit> {
    if sites == [] then [] else (if sites[0].Some? then sites[0].value else []) + Flatten(sites[1..])
  }

  ghost predicate Apart(es: seq<Edit>) {
    forall i, j :: 0 <= i < j < |es| ==> !Collides(es[i], es[j])
  }

  ghost predicate From(es: seq<Edit>, start: nat) {
    forall i :: 0 <= i < |es| ==> es[i].first >= start
  }

  lemma {:induction false} GatherSiteIff(changes: seq<Edit>, start: nat, acc: seq<Edit>)
    requires Apart(acc) && From(acc, start)
    ensures if Apart(acc + changes) && From(changes, start)
      then GatherSite(changes, start, acc) == Accepted(acc + changes) else GatherSite(changes, start, acc).Refused?
    decreases |changes|
  {
    if changes == [] {
      assert acc + changes == acc;
    } else {
      var e, next := changes[0], acc + [changes[0]];
      assert next + changes[1..] == acc + changes;
      assert (acc + changes)[|acc|] == e;
      if e.first >= start && !exists k :: 0 <= k < |acc| && Collides(e, acc[k]) {
        GatherSiteIff(changes[1..], start, next);
        assert From(changes, start) <==> From(changes[1..], start) by {
          assert changes == [e] + changes[1..];
        }
      } else if e.first >= start {
        var k :| 0 <= k < |acc| && Collides(e, acc[k]);
        assert (acc + changes)[k] == acc[k];
      }
    }
  }

  /** Every site must change something. */
  ghost predicate Productive(sites: seq<Site>) {
    forall i :: 0 <= i < |sites| ==> sites[i].Some? && sites[i].value != []
  }

  /** The batch is accepted exactly when every site changes something, no edit touches
      the real source, and no two edits touch or share an endpoint. */
  lemma {:induction false} GatherIff(sites: seq<Site>, start: nat, acc: seq<Edit>)
    requires Apart(acc) && From(acc, start)
    ensures var all := acc + Flatten(sites);
      if Productive(sites) && Apart(all) && From(all, start)
      then Gather(sites, start, acc) == Accepted(all) else Gather(sites, start, acc).Refused?
    decreases |sites|
  {
    if sites == [] {
      assert acc + Flatten(sites) == acc;
    } else if sites[0].Some? && sites[0].value != [] {
      var changes, rest := sites[0].value, Flatten(sites[1..]);
      var all := acc + Flatten(sites);
      assert all == acc + changes + rest;
      GatherSiteIff(changes, start, acc);
      ApartParts(acc + changes, rest, start);
      if Apart(acc + changes) && From(changes, start) {
        GatherIff(sites[1..], start, acc + changes);
        assert Productive(sites) <==> Productive(sites[1..]) by {
          assert sites == [sites[0]] + sites[1..];
        }
      } else {
        FromParts(acc, changes, start);
      }
    }
  }

  lemma ApartParts(a: seq<Edit>, b: seq<Edit>, start: nat)
    ensures Apart(a + b) ==> Apart(a)
    ensures From(a + b, start) <==> From(a, start) && From(b, start)
  {
    assert forall i :: 0 <= i < |a| ==> (a + b)[i] == a[i];
    assert forall i :: 0 <= i < |b| ==> (a + b)[|a| + i] == b[i];
  }

  lemma FromParts(a: seq<Edit>, b: seq<Edit>, start: nat)
    ensures From(a + b, start) <==> From(a, start) && From(b, start)
  {
    ApartParts(a, b, start);
  }

  // ------------------------------------------------------- applying edits

  function Splice(lines: Lines, e: Edit): Lines
    requires e.first <= e.last <= |lines|
  {
    lines[..e.first] + e.text + lines[e.last..]
  }

  /** Ranges within `n` lines, listed from the back, a line left between any two. */
  ghost predicate Descending(es: seq<Edit>, n: nat) {
    (forall k :: 0 <= k < |es| ==> es[k].first <= es[k].last <= n)
    && forall i, j :: 0 <= i < j < |es| ==> es[j].last < es[i].first
  }

  /** The same from the front, starting at line `from`. */
  ghost predicate Ascending(es: seq<Edit>, from: nat, n: nat) {
    (forall k :: 0 <= k < |es| ==> from <= es[k].first <= es[k].last <= n)
    && forall i, j :: 0 <= i < j < |es| ==> es[i].last < es[j].first
  }

  /** Reference: walk the lines once, front to back, copying what no edit covers. */
  ghost function Piecewise(lines: Lines, asc: seq<Edit>, from: nat): Lines
    requires from <= |lines| && Ascending(asc, from, |lines|)
  {
    if asc == [] then lines[from..]
    else lines[from..asc[0].first] + asc[0].text + Piecewise(lines, asc[1..], asc[0].last)
  }

  /** Back to front: an edit never moves the lines that later ones refer to. */
  function ApplyDown(lines: Lines, es: seq<Edit>): Lines
    requires Descending(es, |lines|)
    decreases |es|
  {
    if es == [] then lines else ApplyDown(Splice(lines, es[0]), es[1..])
  }

  function Reverse(es: seq<Edit>): seq<Edit> {
    if es == [] then [] else Reverse(es[1..]) + [es[0]]
  }

  lemma {:induction false} ApplyDownLocal(lines: Lines, es: seq<Edit>, tail: Lines)
    requires Descending(es, |lines|)
    ensures Descending(es, |lines + tail|) && ApplyDown(lines + tail, es) == ApplyDown(lines, es) + tail
    decreases |es|
  {
    if es != [] {
      assert Splice(lines + tail, es[0]) == Splice(lines, es[0]) + tail;
      ApplyDownLocal(Splice(lines, es[0]), es[1..], tail);
    }
  }

  lemma Regroup(whole: Lines, front: Lines, tail: Lines, a: Lines, b: Lines, c: Lines, d: Lines, e: Lines)
    requires whole == a + b + tail && tail == c + d + e && front == a + b + c
    ensures whole == front + d + e
  {
  }

  lemma PiecewiseCons(lines: Lines, asc: seq<Edit>, from: nat)
    requires from <= |lines| && Ascending(asc, from, |lines|) && asc != []
    ensures from <= asc[0].first <= asc[0].last <= |lines| && Ascending(asc[1..], asc[0].last, |lines|)
    ensures Piecewise(lines, asc, from)
         == lines[from..asc[0].first] + asc[0].text + Piecewise(lines, asc[1..], asc[0].last)
  {
  }

  lemma PiecewiseSnoc(lines: Lines, asc: seq<Edit>, e: Edit, from: nat)
    requires from <= e.first <= e.last <= |lines| && Ascending(asc, from, e.first)
    requires Ascending(asc + [e], from, |lines|)
    ensures Piecewise(lines, asc + [e], from) == Piecewise(lines[..e.first], asc, from) + e.text + lines[e.last..]
  {
    hide Ascending, Piecewise;
    var all := asc + [e];
    EditLands(lines, all, from, |asc|);
    assert all[..|asc|] == asc && all[|asc|] == e && all[|asc| + 1..] == [];
    PiecewiseNone(lines, e.last);
  }

  lemma {:induction false} ReverseFacts(es: seq<Edit>)
    ensures |Reverse(es)| == |es|
    ensures forall k :: 0 <= k < |es| ==> Reverse(es)[k] == es[|es| - 1 - k]
  {
    if es != [] {
      ReverseFacts(es[1..]);
    }
  }

  lemma {:induction false} ReverseMultiset(es: seq<Edit>)
    ensures multiset(Reverse(es)) == multiset(es)
  {
    if es != [] {
      ReverseMultiset(es[1..]);
      assert es == [es[0]] + es[1..];
    }
  }

  lemma ReverseAscends(es: seq<Edit>, n: nat)
    requires Descending(es, n)
    ensures Ascending(Reverse(es), 0, n)
  {
    ReverseFacts(es);
  }

  /** Applying the edits back to front gives the front-to-back replacement. */
  lemma {:induction false} DownIsPiecewise(lines: Lines, es: seq<Edit>)
    requires Descending(es, |lines|)
    ensures Ascending(Reverse(es), 0, |lines|)
    ensures ApplyDown(lines, es) == Piecewise(lines, Reverse(es), 0)
    decreases |es|
  {
    ReverseAscends(es, |lines|);
    if es != [] {
      var e, kept, tail := es[0], lines[..es[0].first], es[0].text + lines[es[0].last..];
      assert Splice(lines, e) == kept + tail;
      ApplyDownLocal(kept, es[1..], tail);
      DownIsPiecewise(kept, es[1..]);
      PiecewiseSnoc(lines, Reverse(es[1..]), e, 0);
      assert ApplyDown(lines, es) == Piecewise(kept, Reverse(es[1..]), 0) + (e.text + lines[e.last..]);
    }
  }

  // ---------------------------------------------------------------- sorting

  function InsertDown(e: Edit, es: seq<Edit>): seq<Edit> {
    if es == [] || es[0].first <= e.first then [e] + es else [es[0]] + InsertDown(e, es[1..])
  }

  function SortDown(es: seq<Edit>): seq<Edit> {
    if es == [] then [] else InsertDown(es[0], SortDown(es[1..]))
  }

  lemma DescendingCons(e: Edit, es: seq<Edit>, n: nat)
    requires Descending(es, n) && e.first <= e.last <= n
    requires forall k :: 0 <= k < |es| ==> es[k].last < e.first
    ensures Descending([e] + es, n)
  {
  }

  lemma {:induction false} InsertDownMember(e: Edit, es: seq<Edit>, x: Edit)
    requires x in InsertDown(e, es)
    ensures x == e || x in es
  {
    if !(es == [] || es[0].first <= e.first) && x != es[0] { InsertDownMember(e, es[1..], x); }
  }

  lemma {:induction false} InsertDownSorted(e: Edit, es: seq<Edit>, n: nat)
    requires Descending(es, n) && e.first <= e.last <= n
    requires forall k :: 0 <= k < |es| ==> !Collides(e, es[k])
    ensures Descending(InsertDown(e, es), n) && multiset(InsertDown(e, es)) == multiset{e} + multiset(es)
  {
    if es == [] || es[0].first <= e.first {
      DescendingCons(e, es, n);
    } else {
      var tail := InsertDown(e, es[1..]);
      InsertDownSorted(e, es[1..], n);
      assert es == [es[0]] + es[1..];
      forall j | 0 <= j < |tail| ensures tail[j].last < es[0].first {
        InsertDownMember(e, es[1..], tail[j]);
      }
      hide Descending;
      DescendingCons(es[0], tail, n);
    }
  }

  lemma {:induction false} SortDownSorted(es: seq<Edit>, n: nat)
    requires Apart(es) && forall k :: 0 <= k < |es| ==> es[k].first <= es[k].last <= n
    ensures Descending(SortDown(es), n) && multiset(SortDown(es)) == multiset(es)
  {
    if es != [] {
      assert es == [es[0]] + es[1..];
      SortDownSorted(es[1..], n);
      forall k | 0 <= k < |SortDown(es[1..])| ensures !Collides(es[0], SortDown(es[1..])[k]) {
        assert SortDown(es[1..])[k] in multiset(es[1..]);
        var j :| 0 <= j < |es[1..]| && es[1..][j] == SortDown(es[1..])[k];
        assert es[j + 1] == es[1..][j];
      }
      InsertDownSorted(es[0], SortDown(es[1..]), n);
    }
  }

  lemma HeadIsLast(a: seq<Edit>, x: Edit, n: nat)
    requires Descending(a, n) && x in a
    ensures x == a[0] || x.last < a[0].first
  {
  }

  lemma {:induction false} TailMultiset(a: seq<Edit>)
    requires a != []
    ensures multiset(a[1..]) == multiset(a) - multiset{a[0]}
  {
    assert a == [a[0]] + a[1..];
  }

  lemma HeadsAgree(a: seq<Edit>, b: seq<Edit>, n: nat)
    requires Descending(a, n) && Descending(b, n) && multiset(a) == multiset(b) && a != []
    ensures b != [] && a[0] == b[0]
  {
    assert a[0] in multiset(b);
    assert b != [] && b[0] in multiset(a);
    HeadIsLast(b, a[0], n);
    HeadIsLast(a, b[0], n);
  }

  lemma DescendingTail(a: seq<Edit>, n: nat)
    requires Descending(a, n) && a != []
    ensures Descending(a[1..], n)
  {
  }

  /** A descending list is determined by its elements, so the order in which the
      sites were visited does not matter. */
  lemma {:induction false} DescendingUnique(a: seq<Edit>, b: seq<Edit>, n: nat)
    requires Descending(a, n) && Descending(b, n) && multiset(a) == multiset(b)
    ensures a == b
    decreases |a|
  {
    hide Descending;
    if a == [] {
      assert |b| == |multiset(b)| == |multiset(a)| == 0;
    } else {
      HeadsAgree(a, b, n);
      TailMultiset(a);
      TailMultiset(b);
      DescendingTail(a, n);
      DescendingTail(b, n);
      DescendingUnique(a[1..], b[1..], n);
      assert a == [a[0]] + a[1..] && b == [b[0]] + b[1..];
    }
  }

  // ---------------------------------------------------------------- results

  ghost predicate InRange(es: seq<Edit>, n: nat) {
    forall k :: 0 <= k < |es| ==> es[k].first <= es[k].last <= n
  }

  ghost predicate SitesInRange(sites: seq<Site>, n: nat) {
    forall i :: 0 <= i < |sites| && sites[i].Some? ==> InRange(sites[i].value, n)
  }

  lemma {:induction false} FlattenInRange(sites: seq<Site>, n: nat)
    requires SitesInRange(sites, n)
    ensures InRange(Flatten(sites), n)
  {
    if sites != [] {
      assert forall i :: 0 <= i < |sites[1..]| ==> sites[1..][i] == sites[i + 1];
      FlattenInRange(sites[1..], n);
      if sites[0].Some? { assert InRange(sites[0].value, n); }
    }
  }

  /** The acceptance loops: every change of every site, in order, or the first refusal. */
  method GatherEdits(sites: seq<Site>, start: nat) returns (g: Gathered)
    ensures g == Gather(sites, start, [])
  {
    var edits: seq<Edit> := [];
    for i := 0 to |sites|
      invariant Gather(sites, start, []) == Gather(sites[i..], start, edits)
    {
      assert sites[i..][1..] == sites[i + 1..];
      if sites[i].None? || sites[i].value == [] {
        return Refused(NoMutation);
      }
      var changes := sites[i].value;
      ghost var before := edits;
      for c := 0 to |changes|
        invariant GatherSite(changes, start, before) == GatherSite(changes[c..], start, edits)
      {
        assert changes[c..][1..] == changes[c + 1..];
        var e := changes[c];
        if e.first < start {
          return Refused(RealSource);
        }
        if exists k :: 0 <= k < |edits| && Collides(e, edits[k]) {
          return Refused(Overlapping);
        }
        edits := edits + [e];
      }
    }
    return Accepted(edits);
  }

  /** The splicing loop. */
  method SpliceAll(lines: Lines, down: seq<Edit>) returns (result: Lines)
    requires Descending(down, |lines|)
    ensures result == ApplyDown(lines, down)
  {
    result := lines;
    assert down[0..] == down;
    for k := 0 to |down|
      invariant Descending(down[k..], |result|)
      invariant ApplyDown(result, down[k..]) == ApplyDown(lines, down)
    {
      assert down[k..][0] == down[k] && down[k..][1..] == down[k + 1..];
      SpliceKeepsRest(result, down[k..]);
      result := result[..down[k].first] + down[k].text + result[down[k].last..];
    }
  }

  lemma SpliceKeepsRest(lines: Lines, es: seq<Edit>)
    requires Descending(es, |lines|) && es != []
    ensures Descending(es[1..], |Splice(lines, es[0])|)
    ensures ApplyDown(lines, es) == ApplyDown(Splice(lines, es[0]), es[1..])
  {
  }

  /** Gather, refuse, then splice in descending order. `start` is where the synthetic
      code begins; each range comes from the differ. */
  method BatchMutations(lines: Lines, sites: seq<Site>, start: nat) returns (r: Combined)
    requires SitesInRange(sites, |lines|)
    ensures var all := Flatten(sites);
      if Productive(sites) && Apart(all) && From(all, start)
      then Descending(SortDown(all), |lines|) && r == Patched(ApplyDown(lines, SortDown(all)))
      else r.Rejected? && Gather(sites, start, []) == Refused(r.why)
    ensures r.Patched? ==> Real(lines, start) <= r.lines
  {
    GatherIff(sites, start, []);
    assert [] + Flatten(sites) == Flatten(sites);
    var g := GatherEdits(sites, start);
    if g.Refused? {
      return Rejected(g.why);
    }
    FlattenInRange(sites, |lines|);
    SortDownSorted(g.edits, |lines|);
    RealSourceUntouched(lines, sites, start);
    var result := SpliceAll(lines, SortDown(g.edits));
    return Patched(result);
  }

  /** An accepted batch is the front-to-back replacement of its edits, whatever the
      order of the sites. */
  lemma BatchIsPiecewise(lines: Lines, sites: seq<Site>, asc: seq<Edit>)
    requires SitesInRange(sites, |lines|) && Apart(Flatten(sites))
    requires Ascending(asc, 0, |lines|) && multiset(asc) == multiset(Flatten(sites))
    ensures Descending(SortDown(Flatten(sites)), |lines|)
    ensures ApplyDown(lines, SortDown(Flatten(sites))) == Piecewise(lines, asc, 0)
  {
    var down := SortDown(Flatten(sites));
    FlattenInRange(sites, |lines|);
    SortDownSorted(Flatten(sites), |lines|);
    DownIsPiecewise(lines, down);
    ReverseTwice(asc, |lines|);
    DescendingUnique(down, Reverse(asc), |lines|);
  }

  lemma ReverseTwice(asc: seq<Edit>, n: nat)
    requires Ascending(asc, 0, n)
    ensures Descending(Reverse(asc), n) && Reverse(Reverse(asc)) == asc && multiset(Reverse(asc)) == multiset(asc)
  {
    ReverseFacts(asc);
    ReverseMultiset(asc);
    ReverseFacts(Reverse(asc));
    hide Reverse;
    var down := Reverse(asc);
    forall i, j | 0 <= i < j < |down| ensures down[j].last < down[i].first {
      assert down[i] == asc[|asc| - 1 - i] && down[j] == asc[|asc| - 1 - j];
    }
    forall k | 0 <= k < |asc| ensures Reverse(down)[k] == asc[k] { assert Reverse(down)[k] == down[|asc| - 1 - k]; }
  }

  lemma AcceptedAscends(lines: Lines, sites: seq<Site>, start: nat)
    requires SitesInRange(sites, |lines|) && Apart(Flatten(sites)) && From(Flatten(sites), start)
    ensures var asc := Reverse(SortDown(Flatten(sites)));
      Ascending(asc, 0, |lines|) && From(asc, start) && multiset(asc) == multiset(Flatten(sites))
  {
    var all := Flatten(sites);
    FlattenInRange(sites, |lines|);
    SortDownSorted(all, |lines|);
    DownIsPiecewise(lines, SortDown(all));
    ReverseMultiset(SortDown(all));
    var asc := Reverse(SortDown(all));
    hide Ascending, Apart, Reverse, SortDown;
    forall k | 0 <= k < |asc| ensures asc[k].first >= start {
      assert asc[k] in multiset(all);
      var j :| 0 <= j < |all| && all[j] == asc[k];
    }
  }

  /** The lines an edit from `start` on cannot reach. */
  function Real(lines: Lines, start: nat): Lines { if start <= |lines| then lines[..start] else lines }

  lemma PiecewiseKeepsFront(lines: Lines, asc: seq<Edit>, start: nat)
    requires Ascending(asc, 0, |lines|) && From(asc, start)
    ensures Real(lines, start) <= Piecewise(lines, asc, 0)
  {
    if asc != [] {
      PiecewiseCons(lines, asc, 0);
      assert lines[0..asc[0].first][..start] == lines[..start];
    }
  }

  /** An accepted batch leaves the lines before `start` alone. */
  lemma RealSourceUntouched(lines: Lines, sites: seq<Site>, start: nat)
    requires SitesInRange(sites, |lines|) && Apart(Flatten(sites)) && From(Flatten(sites), start)
    ensures Descending(SortDown(Flatten(sites)), |lines|)
    ensures Real(lines, start) <= ApplyDown(lines, SortDown(Flatten(sites)))
  {
    AcceptedAscends(lines, sites, start);
    var asc := Reverse(SortDown(Flatten(sites)));
    BatchIsPiecewise(lines, sites, asc);
    PiecewiseKeepsFront(lines, asc, start);
  }

  lemma PiecewiseNone(lines: Lines, from: nat)
    requires from <= |lines|
    ensures Ascending([], from, |lines|) && Piecewise(lines, [], from) == lines[from..]
  {
  }

  lemma SliceFacts(s: seq<Edit>, k: nat)
    requires 0 < k < |s|
    ensures s[1..][..k - 1] == s[..k][1..] && s[1..][k - 1] == s[k] && s[1..][k..] == s[k + 1..] && s[..k][0] == s[0]
  {
  }

  lemma AscendingParts(asc: seq<Edit>, from: nat, n: nat, k: nat)
    requires Ascending(asc, from, n) && k < |asc|
    ensures from <= asc[k].first <= asc[k].last <= n
    ensures Ascending(asc[..k], from, asc[k].first) && Ascending(asc[k + 1..], asc[k].last, n)
  {
  }

  /** Where an edit lands: between the result of the edits before it on the lines before
      it and the result of the edits after it on the lines after it. */
  lemma {:induction false} EditLands(lines: Lines, asc: seq<Edit>, from: nat, k: nat)
    requires from <= |lines| && Ascending(asc, from, |lines|) && k < |asc|
    ensures from <= asc[k].first <= asc[k].last <= |lines|
    ensures Ascending(asc[..k], from, asc[k].first) && Ascending(asc[k + 1..], asc[k].last, |lines|)
    ensures Piecewise(lines, asc, from)
         == Piecewise(lines[..asc[k].first], asc[..k], from) + asc[k].text + Piecewise(lines, asc[k + 1..], asc[k].last)
    decreases |asc|
  {
    hide Piecewise, Ascending;
    var a, e := asc[0], asc[k];
    AscendingParts(asc, from, |lines|, k);
    PiecewiseCons(lines, asc, from);
    if k == 0 {
      assert asc[..0] == [] && lines[..e.first][from..] == lines[from..e.first];
      PiecewiseNone(lines[..e.first], from);
    } else {
      var rest := asc[1..];
      EditLands(lines, rest, a.last, k - 1);
      SliceFacts(asc, k);
      PiecewiseCons(lines[..e.first], asc[..k], from);
      assert lines[..e.first][from..a.first] == lines[from..a.first];
      Regroup(Piecewise(lines, asc, from), Piecewise(lines[..e.first], asc[..k], from), Piecewise(lines, rest, a.last),
              lines[from..a.first], a.text, Piecewise(lines[..e.first], rest[..k - 1], a.last), e.text,
              Piecewise(lines, asc[k + 1..], e.last));
    }
  }

  /** Untouched base lines stand on both sides of an edit that has a neighbour there. */
  lemma EditIsSeparated(lines: Lines, asc: seq<Edit>, from: nat, k: nat)
    requires from <= |lines| && Ascending(asc, from, |lines|) && k < |asc|
    ensures from <= asc[k].first <= asc[k].last <= |lines|
    ensures Ascending(asc[..k], from, asc[k].first) && Ascending(asc[k + 1..], asc[k].last, |lines|)
    ensures from < asc[k].first ==>
      var before := Piecewise(lines[..asc[k].first], asc[..k], from);
      before != [] && before[|before| - 1] == lines[asc[k].first - 1]
    ensures k + 1 < |asc| ==>
      var after := Piecewise(lines, asc[k + 1..], asc[k].last);
      after != [] && after[0] == lines[asc[k].last]
  {
    EditLands(lines, asc, from, k);
    LastLineKept(lines[..asc[k].first], asc[..k], from);
    if k + 1 < |asc| {
      PiecewiseCons(lines, asc[k + 1..], asc[k].last);
      assert asc[k].last < asc[k + 1].first;
    }
  }

  lemma {:induction false} LastLineKept(lines: Lines, asc: seq<Edit>, from: nat)
    requires from <= |lines| && Ascending(asc, from, |lines|)
    requires forall k :: 0 <= k < |asc| ==> asc[k].last < |lines|
    ensures from < |lines| ==>
      var result := Piecewise(lines, asc, from);
      result != [] && result[|result| - 1] == lines[|lines| - 1]
    decreases |asc|
  {
    if asc != [] {
      PiecewiseCons(lines, asc, from);
      LastLineKept(lines, asc[1..], asc[0].last);
    }
  }
}
