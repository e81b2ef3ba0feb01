/** Conservative reverse-dependency discovery: who must be told when a dependency
    changes, given known edges, unresolved edge classes and two graph cuts. */
module Discovery {
  import opened Common

  datatype Edge = Edge(consumer: string, provider: string, kind: string)

  /** An owner whose edges of one kind are not fully known. */
  type Class = (string, string)

  /** `p` leads from provider to consumer along `edges`, through roster members only. */
  ghost predicate IsChain(edges: set<Edge>, roster: set<string>, p: seq<string>) {
    p != [] && forall k :: 0 <= k < |p| - 1 ==> LinkedAt(edges, roster, p, k)
  }

  ghost predicate LinkedAt(edges: set<Edge>, roster: set<string>, p: seq<string>, k: nat)
    requires k + 1 < |p|
  {
    p[k + 1] in roster && DependsOn(edges, p[k + 1], p[k])
  }

  ghost predicate DependsOn(edges: set<Edge>, consumer: string, provider: string) {
    exists e :: e in edges && e.consumer == consumer && e.provider == provider
  }

  ghost predicate Reaches(edges: set<Edge>, roster: set<string>, root: string, x: string) {
    exists p :: IsChain(edges, roster, p) && p[0] == root && p[|p| - 1] == x
  }

  /** The roster members, other than the root, that a change of the root can reach. */
  ghost function Affected(edges: set<Edge>, roster: set<string>, root: string): set<string> {
    set x | x in roster && x != root && Reaches(edges, roster, root, x)
  }

  lemma RootReaches(edges: set<Edge>, roster: set<string>, root: string)
    ensures Reaches(edges, roster, root, root)
  {
    assert IsChain(edges, roster, [root]);
  }

  lemma ReachesStep(edges: set<Edge>, roster: set<string>, root: string, x: string, e: Edge)
    requires Reaches(edges, roster, root, x) && e in edges && e.provider == x && e.consumer in roster
    ensures Reaches(edges, roster, root, e.consumer)
  {
    var p :| IsChain(edges, roster, p) && p[0] == root && p[|p| - 1] == x;
    var q := p + [e.consumer];
    forall k | 0 <= k < |q| - 1 ensures LinkedAt(edges, roster, q, k) {
      if k < |p| - 1 { assert LinkedAt(edges, roster, p, k); }
    }
    assert IsChain(edges, roster, q);
  }

  /** Closed under every edge into the roster. */
  ghost predicate Closed(edges: set<Edge>, roster: set<string>, reached: set<string>) {
    forall e :: e in edges && e.provider in reached && e.consumer in roster ==> e.consumer in reached
  }

  lemma {:induction false} ClosedContains(edges: set<Edge>, roster: set<string>, reached: set<string>, p: seq<string>)
    requires Closed(edges, roster, reached) && IsChain(edges, roster, p) && p[0] in reached
    ensures p[|p| - 1] in reached
    decreases |p|
  {
    if |p| > 1 {
      var q := p[..|p| - 1];
      forall k | 0 <= k < |q| - 1 ensures LinkedAt(edges, roster, q, k) {
        assert LinkedAt(edges, roster, p, k);
      }
      ClosedContains(edges, roster, reached, q);
      assert LinkedAt(edges, roster, p, |p| - 2);
    }
  }

  /** The worklist visits every reachable roster member exactly once, so it terminates
      on cyclic graphs too, and returns exactly the affected members. */
  method ReverseClosure(edges: set<Edge>, root: string, roster: set<string>) returns (result: set<string>)
    ensures result == Affected(edges, roster, root)
  {
    var reached: set<string> := {root};
    var pending: seq<string> := [root];
    RootReaches(edges, roster, root);
    while pending != []
      invariant root in reached && reached <= roster + {root}
      invariant forall k :: 0 <= k < |pending| ==> pending[k] in reached
      invariant forall x :: x in reached ==> Reaches(edges, roster, root, x)
      invariant forall e :: e in edges && e.provider in reached && e.provider !in pending && e.consumer in roster
                  ==> e.consumer in reached
      decreases roster + {root} - reached, |pending|
    {
      var provider := pending[|pending| - 1];
      reached, pending := Expand(edges, roster, root, reached, pending[..|pending| - 1], provider);
    }
    forall x | x in roster && Reaches(edges, roster, root, x) ensures x in reached {
      var p :| IsChain(edges, roster, p) && p[0] == root && p[|p| - 1] == x;
      ClosedContains(edges, roster, reached, p);
    }
    result := reached - {root};
  }

  /** The inner loop: every consumer of `provider`, in any order, that is new. */
  method Expand(edges: set<Edge>, roster: set<string>, ghost root: string,
                before: set<string>, rest: seq<string>, provider: string)
    returns (reached: set<string>, pending: seq<string>)
    requires provider in before && root in before && before <= roster + {root}
    requires forall k :: 0 <= k < |rest| ==> rest[k] in before
    requires forall x :: x in before ==> Reaches(edges, roster, root, x)
    requires forall e :: e in edges && e.provider in before - {provider} && e.provider !in rest && e.consumer in roster
               ==> e.consumer in before
    ensures before <= reached <= roster + {root}
    ensures reached == before ==> pending == rest
    ensures forall k :: 0 <= k < |pending| ==> pending[k] in reached
    ensures forall x :: x in reached ==> Reaches(edges, roster, root, x)
    ensures forall e :: e in edges && e.provider in reached && e.provider !in pending && e.consumer in roster
              ==> e.consumer in reached
  {
    reached, pending := before, rest;
    var todo := edges;
    while todo != {}
      invariant todo <= edges && before <= reached <= roster + {root}
      invariant reached == before ==> pending == rest
      invariant forall k :: 0 <= k < |pending| ==> pending[k] in reached
      invariant forall x :: x in rest ==> x in pending
      invariant forall x :: x in reached ==> x in before || x in pending
      invariant forall x :: x in reached ==> Reaches(edges, roster, root, x)
      invariant forall e :: e in edges - todo && e.provider == provider && e.consumer in roster ==>
        e.consumer in reached
      decreases |todo|
    {
      var edge :| edge in todo;
      todo := todo - {edge};
      if edge.provider == provider && edge.consumer in roster && edge.consumer !in reached {
        ReachesStep(edges, roster, root, provider, edge);
        reached := reached + {edge.consumer};
        pending := pending + [edge.consumer];
      }
    }
  }

  /** Unknown owner and kind coverage widens to all its possible edges. */
  ghost function Envelope(known: set<Edge>, incomplete: set<Class>, universe: set<Edge>): set<Edge> {
    known + set e | e in universe && (e.consumer, e.kind) in incomplete
  }

  method ComputeEnvelope(known: set<Edge>, incomplete: set<Class>, universe: seq<Edge>) returns (possible: set<Edge>)
    ensures possible == Envelope(known, incomplete, (set e | e in universe))
  {
    possible := known;
    for i := 0 to |universe|
      invariant possible == known + set e | e in universe[..i] && (e.consumer, e.kind) in incomplete
    {
      assert universe[..i + 1] == universe[..i] + [universe[i]];
      if (universe[i].consumer, universe[i].kind) in incomplete {
        possible := possible + {universe[i]};
      }
    }
    assert universe[..|universe|] == universe;
  }

  method Route(currentKnown: set<Edge>, proposedKnown: set<Edge>, currentIncomplete: set<Class>,
               proposedIncomplete: set<Class>, universe: seq<Edge>, root: string, roster: set<string>)
    returns (routed: set<string>)
    ensures routed == RouteSpec(currentKnown, proposedKnown, currentIncomplete, proposedIncomplete,
                                (set e | e in universe), root, roster)
  {
    var current := ComputeEnvelope(currentKnown, currentIncomplete, universe);
    var proposed := ComputeEnvelope(proposedKnown, proposedIncomplete, universe);
    routed := ReverseClosure(current + proposed, root, roster);
  }

  ghost function RouteSpec(currentKnown: set<Edge>, proposedKnown: set<Edge>, currentIncomplete: set<Class>,
                           proposedIncomplete: set<Class>, universe: set<Edge>, root: string,
                           roster: set<string>): set<string> {
    var current := Envelope(currentKnown, currentIncomplete, universe);
    var proposed := Envelope(proposedKnown, proposedIncomplete, universe);
    Affected(current + proposed, roster, root)
  }

  /** A failed query yields no answer, in particular not the empty one. */
  method RouteAfterCapture(querySucceeded: bool, currentKnown: set<Edge>, proposedKnown: set<Edge>,
                           currentIncomplete: set<Class>, proposedIncomplete: set<Class>,
                           universe: seq<Edge>, root: string, roster: set<string>)
    returns (routed: Option<set<string>>)
    ensures routed.Some? <==> querySucceeded
    ensures querySucceeded ==>
      routed.value == RouteSpec(currentKnown, proposedKnown, currentIncomplete, proposedIncomplete,
                                (set e | e in universe), root, roster)
  {
    if !querySucceeded { return None; }
    var r := Route(currentKnown, proposedKnown, currentIncomplete, proposedIncomplete, universe, root, roster);
    return Some(r);
  }

  // -------------------------------------------------------------- results

  lemma AffectedMonotone(fewer: set<Edge>, more: set<Edge>, roster: set<string>, root: string)
    requires fewer <= more
    ensures Affected(fewer, roster, root) <= Affected(more, roster, root)
  {
    forall x | x in Affected(fewer, roster, root) ensures Reaches(more, roster, root, x) {
      var p :| IsChain(fewer, roster, p) && p[0] == root && p[|p| - 1] == x;
      forall k | 0 <= k < |p| - 1 ensures LinkedAt(more, roster, p, k) {
        assert LinkedAt(fewer, roster, p, k);
      }
      assert IsChain(more, roster, p);
    }
  }

  /** The coverage assumption: an edge that exists is known, or lies in an unresolved
      class of the universe. */
  ghost predicate Covers(known: set<Edge>, incomplete: set<Class>, universe: set<Edge>, actual: set<Edge>) {
    forall e :: e in actual ==> e in known || (e in universe && (e.consumer, e.kind) in incomplete)
  }

  /** Routing misses no affected owner of either cut when the captures cover them. */
  lemma RouteCoversAffected(currentKnown: set<Edge>, proposedKnown: set<Edge>, currentIncomplete: set<Class>,
                            proposedIncomplete: set<Class>, universe: set<Edge>, root: string, roster: set<string>,
                            current: set<Edge>, proposed: set<Edge>)
    requires Covers(currentKnown, currentIncomplete, universe, current)
    requires Covers(proposedKnown, proposedIncomplete, universe, proposed)
    ensures Affected(current + proposed, roster, root)
         <= RouteSpec(currentKnown, proposedKnown, currentIncomplete, proposedIncomplete, universe, root, roster)
  {
    AffectedMonotone(
      current + proposed,
      Envelope(currentKnown, currentIncomplete, universe) + Envelope(proposedKnown, proposedIncomplete, universe),
      roster, root);
  }

  /** And it adds nobody when the captures are complete and exact. */
  lemma RouteExactWhenComplete(current: set<Edge>, proposed: set<Edge>, universe: set<Edge>, root: string,
      roster: set<string>)
    ensures RouteSpec(current, proposed, {}, {}, universe, root, roster) == Affected(current + proposed, roster, root)
  {
    assert Envelope(current, {}, universe) == current && Envelope(proposed, {}, universe) == proposed;
  }
}
