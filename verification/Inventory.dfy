/** The lowering inventory: a report is accepted exactly when its lowerings match the
    construct graph one to one and its produced references are, as a multiset, the core
    objects under the owners they declare. */
module Inventory {
  import opened Common
  import opened Entrypoint

  datatype Report = Report(nodes: seq<Entry>, edges: seq<Entry>, dependencies: seq<Entry>, objects: seq<Entry>)

  datatype Kind = Node | Edge | Dependency

  datatype Owner = Owner(kind: Kind, ref: string)

  // ------------------------------------------------------------ reading entries

  function EdgeRef(required: string, provided: string): string { required + "->" + provided }

  /** How the graph names an entry. */
  function GraphRef(kind: Kind, e: Entry): Option<string> {
    match kind
    case Node => Field(e, "node_id")
    case Edge =>
      var a, b := Field(e, "required_port_id"), Field(e, "provided_port_id");
      if a.Some? && b.Some? then Some(EdgeRef(a.value, b.value)) else None
    case Dependency => Field(e, "dependency_ref")
  }

  /** How a lowering names one: here an empty name is refused as well. */
  function LoweringRef(kind: Kind, e: Entry): Option<string> {
    if !kind.Edge? && GraphRef(kind, e) == Some("") then None else GraphRef(kind, e)
  }

  function GraphRefs(kind: Kind, entries: seq<Entry>): set<string> {
    set e | e in entries && GraphRef(kind, e).Some? :: GraphRef(kind, e).value
  }

  function NonEmpty(items: seq<Option<string>>): seq<string> {
    if items == [] then []
    else (if items[0].Some? && items[0].value != "" then [items[0].value] else []) + NonEmpty(items[1..])
  }

  function StringArray(e: Entry): seq<string> {
    if e.Entry? && e.produced.Some? then NonEmpty(e.produced.value) else []
  }

  function Token(o: Owner): string {
    (match o.kind case Node => "node:" case Edge => "edge:" case Dependency => "dependency:") + o.ref
  }

  function OwnerKind(name: string): Option<Kind> {
    if name == "node" then Some(Node)
    else if name == "edge" then Some(Edge)
    else if name == "dependency" then Some(Dependency)
    else None
  }

  /** The owner an object declares, if kind and reference are usable. */
  function DeclaredOwner(e: Entry): Option<Owner> {
    var name, ref := Field(e, "owner_kind"), Field(e, "owner_ref");
    if name.Some? && ref.Some? && ref.value != "" && OwnerKind(name.value).Some?
    then Some(Owner(OwnerKind(name.value).value, ref.value)) else None
  }

  function Select(kind: Kind, nodes: seq<Entry>, edges: seq<Entry>, dependencies: seq<Entry>): seq<Entry> {
    match kind case Node => nodes case Edge => edges case Dependency => dependencies
  }

  function Entries(kind: Kind, graph: Graph): seq<Entry> {
    Select(kind, graph.nodes, graph.edges, graph.dependencies)
  }

  function Known(kind: Kind, graph: Graph): set<string> { GraphRefs(kind, Entries(kind, graph)) }

  function Lowerings(kind: Kind, report: Report): seq<Entry> {
    Select(kind, report.nodes, report.edges, report.dependencies)
  }

  lemma TokenInjective(a: Owner, b: Owner)
    ensures Token(a) == Token(b) ==> a == b
  {
    var s, t := Token(a), Token(b);
    assert s[0] == (match a.kind case Node => 'n' case Edge => 'e' case Dependency => 'd');
    assert t[0] == (match b.kind case Node => 'n' case Edge => 'e' case Dependency => 'd');
    var n := |s| - |a.ref|;
    assert s[n..] == a.ref;
    assert t[|t| - |b.ref|..] == b.ref;
  }

  // -------------------------------------------------------- what is acceptable

  ghost predicate Readable(kind: Kind, entries: seq<Entry>, known: set<string>) {
    forall i :: 0 <= i < |entries| ==>
      LoweringRef(kind, entries[i]).Some? && LoweringRef(kind, entries[i]).value in known
  }

  ghost function LoweringRefs(kind: Kind, entries: seq<Entry>): (r: seq<string>)
    requires forall i :: 0 <= i < |entries| ==> LoweringRef(kind, entries[i]).Some?
    ensures |r| == |entries|
  {
    seq(|entries|, i requires 0 <= i < |entries| => LoweringRef(kind, entries[i]).value)
  }

  ghost function Elements(s: seq<string>): set<string> { set x | x in s }

  /** The entries are readable and name each known reference exactly once. */
  ghost predicate RefsMatch(kind: Kind, entries: seq<Entry>, known: set<string>) {
    Readable(kind, entries, known)
    && NoDup(LoweringRefs(kind, entries))
    && Elements(LoweringRefs(kind, entries)) == known
  }

  /** The lowerings of one kind correspond one to one with the names of the graph's
      entries. */
  ghost predicate OneToOne(kind: Kind, graph: Graph, report: Report) {
    RefsMatch(kind, Lowerings(kind, report), Known(kind, graph))
  }

  /** Object references with the owner they are listed under. */
  ghost function Under(ids: seq<string>, owner: Owner): seq<(string, Owner)> {
    seq(|ids|, i requires 0 <= i < |ids| => (ids[i], owner))
  }

  ghost function ProducedBy(kind: Kind, e: Entry): seq<(string, Owner)> {
    if LoweringRef(kind, e).None? then [] else Under(StringArray(e), Owner(kind, LoweringRef(kind, e).value))
  }

  ghost function Produced(kind: Kind, entries: seq<Entry>): seq<(string, Owner)> {
    if entries == [] then []
    else Produced(kind, entries[..|entries| - 1]) + ProducedBy(kind, entries[|entries| - 1])
  }

  ghost function AllProduced(report: Report): seq<(string, Owner)> {
    Produced(Node, report.nodes) + Produced(Edge, report.edges) + Produced(Dependency, report.dependencies)
  }

  function Objects(entries: seq<Entry>): (r: seq<Entry>)
    ensures forall e :: e in r <==> e in entries && e.Entry?
  {
    if entries == [] then []
    else (if entries[0].Entry? then [entries[0]] else []) + Objects(entries[1..])
  }

  /** Everything asked of one core object but its place in the inventory. */
  ghost predicate ObjectOk(graph: Graph, e: Entry) {
    Field(e, "object_id").Some? && Field(e, "object_id") != Some("") && KindOk(graph, e)
    && DeclaredOwner(e).Some? && DeclaredOwner(e).value.ref in Known(DeclaredOwner(e).value.kind, graph)
  }

  ghost predicate AllOk(graph: Graph, objects: seq<Entry>) {
    forall i :: 0 <= i < |objects| ==> ObjectOk(graph, objects[i])
  }

  ghost predicate AllDeclare(objects: seq<Entry>) {
    forall i :: 0 <= i < |objects| ==> Field(objects[i], "object_id").Some? && DeclaredOwner(objects[i]).Some?
  }

  ghost function Declared(objects: seq<Entry>): (r: seq<(string, Owner)>)
    requires AllDeclare(objects)
    ensures |r| == |objects|
  {
    seq(|objects|, i requires 0 <= i < |objects| =>
      (Field(objects[i], "object_id").value, DeclaredOwner(objects[i]).value))
  }

  ghost predicate DistinctIds(pairs: seq<(string, Owner)>) {
    forall i, j :: 0 <= i < j < |pairs| ==> pairs[i].0 != pairs[j].0
  }

  /** The produced references are exactly the declared ones, each once. */
  ghost predicate ObjectsMatch(graph: Graph, objects: seq<Entry>, produced: seq<(string, Owner)>) {
    AllOk(graph, objects)
    && DistinctIds(Declared(objects))
    && multiset(produced) == multiset(Declared(objects))
  }

  /** The declarative reading of acceptance. */
  ghost predicate Conforms(graph: Graph, report: Report) {
    (forall kind :: OneToOne(kind, graph, report))
    && ObjectsMatch(graph, Objects(report.objects), AllProduced(report))
  }

  // ----------------------------------------------------------- the owner table

  ghost function OwnersOf(pairs: seq<(string, Owner)>, id: string): seq<Owner> {
    if pairs == [] then []
    else
      var n := |pairs| - 1;
      OwnersOf(pairs[..n], id) + if pairs[n].0 == id then [pairs[n].1] else []
  }

  ghost function Tokens(owners: seq<Owner>): (r: seq<string>)
    ensures |r| == |owners|
  {
    seq(|owners|, i requires 0 <= i < |owners| => Token(owners[i]))
  }

  function Recorded(owners: map<string, seq<string>>, id: string): seq<string> {
    if id in owners then owners[id] else []
  }

  /** The table holds, for each object, its owners' tokens in order. */
  ghost predicate Records(owners: map<string, seq<string>>, pairs: seq<(string, Owner)>) {
    (forall id :: Recorded(owners, id) == Tokens(OwnersOf(pairs, id)))
    && (forall id :: id in owners ==> owners[id] != [])
  }

  lemma OwnersSnoc(pairs: seq<(string, Owner)>, x: (string, Owner), id: string)
    ensures OwnersOf(pairs + [x], id) == OwnersOf(pairs, id) + if x.0 == id then [x.1] else []
    ensures Tokens(OwnersOf(pairs + [x], id)) == Tokens(OwnersOf(pairs, id)) + if x.0 == id then [Token(x.1)] else []
  {
    assert (pairs + [x])[..|pairs|] == pairs;
  }

  /** `record_owner`. */
  method RecordOwner(owners: map<string, seq<string>>, id: string, owner: Owner, ghost pairs: seq<(string, Owner)>)
    returns (out: map<string, seq<string>>)
    requires Records(owners, pairs)
    ensures if id == "" then out == owners else Records(out, pairs + [(id, owner)])
  {
    out := owners;
    if id != "" {
      out := owners[id := Recorded(owners, id) + [Token(owner)]];
      forall x ensures Recorded(out, x) == Tokens(OwnersOf(pairs + [(id, owner)], x)) {
        OwnersSnoc(pairs, (id, owner), x);
      }
    }
  }

  lemma StringArrayNonEmpty(e: Entry)
    ensures "" !in StringArray(e)
  {
    if e.Entry? && e.produced.Some? { NonEmptyHolds(e.produced.value); }
  }

  lemma {:induction false} NonEmptyHolds(items: seq<Option<string>>)
    ensures "" !in NonEmpty(items)
  {
    if items != [] { NonEmptyHolds(items[1..]); }
  }

  ghost predicate Collected(kind: Kind, entries: seq<Entry>, known: set<string>, refs: seq<string>) {
    Readable(kind, entries, known) && refs == LoweringRefs(kind, entries)
  }

  /** One of the three lowering loops: it stops at the first unreadable or unknown entry. */
  method CollectLowerings(kind: Kind, entries: seq<Entry>, known: set<string>, owners: map<string, seq<string>>,
                          ghost before: seq<(string, Owner)>)
    returns (ok: bool, refs: seq<string>, out: map<string, seq<string>>)
    requires Records(owners, before)
    ensures !ok ==> !Readable(kind, entries, known) && !RefsMatch(kind, entries, known)
    ensures ok ==> Collected(kind, entries, known, refs) && Records(out, before + Produced(kind, entries))
  {
    hide OwnersOf, Records, GraphRef, LoweringRef, StringArray, Produced, ProducedBy, Under;
    refs, out, ok := [], owners, true;
    assert before + Produced(kind, []) == before by { ProducedNone(kind); }
    assert entries[..0] == [];
    for i := 0 to |entries|
      invariant Collected(kind, entries[..i], known, refs)
      invariant Records(out, before + Produced(kind, entries[..i]))
    {
      var ref := LoweringRef(kind, entries[i]);
      if ref.None? || ref.value !in known {
        return false, refs, out;
      }
      refs := refs + [ref.value];
      assert entries[..i + 1] == entries[..i] + [entries[i]];
      StringArrayNonEmpty(entries[i]);
      out := RecordAll(out, StringArray(entries[i]), Owner(kind, ref.value), before + Produced(kind, entries[..i]));
      ProducedSnoc(kind, entries[..i], entries[i], before);
    }
    assert entries[..|entries|] == entries;
  }

  lemma ProducedNone(kind: Kind)
    ensures Produced(kind, []) == []
  {
  }

  lemma ProducedSnoc(kind: Kind, entries: seq<Entry>, e: Entry, before: seq<(string, Owner)>)
    requires LoweringRef(kind, e).Some?
    ensures before + Produced(kind, entries + [e])
         == before + Produced(kind, entries) + Under(StringArray(e), Owner(kind, LoweringRef(kind, e).value))
  {
    assert (entries + [e])[..|entries|] == entries;
  }

  method RecordAll(owners: map<string, seq<string>>, ids: seq<string>, owner: Owner, ghost pairs: seq<(string, Owner)>)
    returns (out: map<string, seq<string>>)
    requires Records(owners, pairs) && "" !in ids
    ensures Records(out, pairs + Under(ids, owner))
  {
    hide Records;
    out := owners;
    assert pairs + Under([], owner) == pairs;
    for i := 0 to |ids|
      invariant Records(out, pairs + Under(ids[..i], owner))
    {
      out := RecordOwner(out, ids[i], owner, pairs + Under(ids[..i], owner));
      assert pairs + Under(ids[..i], owner) + [(ids[i], owner)] == pairs + Under(ids[..i + 1], owner);
    }
    assert ids[..|ids|] == ids;
  }

  // ------------------------------------------------------------------- checks

  /** The references that occur more than once, each listed once. */
  method DuplicateRefs(refs: seq<string>) returns (duplicate: seq<string>)
    ensures forall x :: x in duplicate <==> multiset(refs)[x] > 1
    ensures NoDup(duplicate)
    ensures duplicate == [] <==> NoDup(refs)
  {
    var seen: set<string> := {};
    duplicate := [];
    for i := 0 to |refs|
      invariant forall x :: x in seen <==> multiset(refs[..i])[x] > 0
      invariant forall x :: x in duplicate <==> multiset(refs[..i])[x] > 1
      invariant NoDup(duplicate)
    {
      assert refs[..i + 1] == refs[..i] + [refs[i]];
      if refs[i] in seen && refs[i] !in duplicate {
        duplicate := duplicate + [refs[i]];
      }
      seen := seen + {refs[i]};
    }
    assert refs[..|refs|] == refs;
    NoDupCount(refs);
    assert duplicate != [] ==> duplicate[0] in duplicate;
  }

  lemma NoDupCount(s: seq<string>)
    ensures NoDup(s) <==> forall x :: multiset(s)[x] <= 1
  {
    if NoDup(s) {
      forall x ensures multiset(s)[x] <= 1 { AtMostOnce(s, x); }
    }
    forall i, j | 0 <= i < j < |s| && s[i] == s[j] ensures multiset(s)[s[i]] > 1 {
      assert s == s[..j] + s[j..];
      assert s[..j][i] in multiset(s[..j]) && s[j..][0] in multiset(s[j..]);
    }
  }

  lemma {:induction false} AtMostOnce(s: seq<string>, x: string)
    requires NoDup(s)
    ensures multiset(s)[x] <= 1
  {
    if s != [] {
      var n := |s| - 1;
      assert s == s[..n] + [s[n]];
      AtMostOnce(s[..n], x);
      assert s[n] !in s[..n];
    }
  }

  /** Every produced object exists and has a single owner. */
  ghost predicate SingleOwners(owners: map<string, seq<string>>, ids: set<string>) {
    forall id :: id in owners ==> id in ids && |owners[id]| == 1
  }

  method CheckOwners(owners: map<string, seq<string>>, ids: set<string>) returns (ok: bool)
    ensures ok <==> SingleOwners(owners, ids)
  {
    var todo := owners.Keys;
    while todo != {}
      invariant todo <= owners.Keys
      invariant forall id :: id in owners && id !in todo ==> id in ids && |owners[id]| == 1
    {
      var id :| id in todo;
      if id !in ids || |owners[id]| != 1 {
        return false;
      }
      todo := todo - {id};
    }
    return true;
  }

  /** Every object passes its own checks and is produced exactly by its declared owner. */
  ghost predicate OwnedAsDeclared(graph: Graph, objects: seq<Entry>, owners: map<string, seq<string>>) {
    forall i :: 0 <= i < |objects| ==>
      ObjectOk(graph, objects[i])
      && Recorded(owners, Field(objects[i], "object_id").value) == [Token(DeclaredOwner(objects[i]).value)]
  }

  method CheckObjects(graph: Graph, objects: seq<Entry>, owners: map<string, seq<string>>)
    returns (ok: bool)
    ensures ok <==> OwnedAsDeclared(graph, objects, owners)
  {
    hide ValuesAgree, RefsPresent, Expected, OwnerKind, Known;
    for i := 0 to |objects|
      invariant OwnedAsDeclared(graph, objects[..i], owners)
    {
      assert objects[..i + 1] == objects[..i] + [objects[i]];
      var handed := CheckKind(objects[i]);
      if !handed {
        return false;
      }
      var id := Field(objects[i], "object_id");
      var owner := DeclaredOwner(objects[i]);
      if owner.None? || owner.value.ref !in Known(owner.value.kind, graph) {
        return false;
      }
      if Recorded(owners, id.value) != [Token(owner.value)] || !ValuesAgree(graph, objects[i]) {
        return false;
      }
    }
    assert objects[..|objects|] == objects;
    return true;
  }

  function ObjectIds(objects: seq<Entry>): seq<string> {
    if objects == [] then []
    else
      var n := |objects| - 1;
      var id := Field(objects[n], "object_id");
      ObjectIds(objects[..n]) + if id.Some? then [id.value] else []
  }

  /** The whole validation: it accepts exactly the conforming reports. */
  method ValidateInventory(graph: Graph, report: Report) returns (accepted: bool)
    ensures accepted <==> Conforms(graph, report)
  {
    hide Records, Produced, Known, RefsMatch, Readable, Collected, ObjectsMatch;
    ghost var none: seq<(string, Owner)> := [];
    assert Records(map[], none) by { RecordsNone(); }
    var readable, nodeRefs, owners := CollectLowerings(Node, report.nodes, Known(Node, graph), map[], none);
    if !readable {
      assert !OneToOne(Node, graph, report);
      return false;
    }
    ghost var pairs := none + Produced(Node, report.nodes);
    var edgeRefs, dependencyRefs;
    readable, edgeRefs, owners := CollectLowerings(Edge, report.edges, Known(Edge, graph), owners, pairs);
    if !readable {
      assert !OneToOne(Edge, graph, report);
      return false;
    }
    pairs := pairs + Produced(Edge, report.edges);
    readable, dependencyRefs, owners :=
      CollectLowerings(Dependency, report.dependencies, Known(Dependency, graph), owners, pairs);
    if !readable {
      assert !OneToOne(Dependency, graph, report);
      return false;
    }
    pairs := pairs + Produced(Dependency, report.dependencies);
    assert pairs == AllProduced(report);

    var matched := CheckRefs(Node, report.nodes, nodeRefs, Known(Node, graph));
    if !matched {
      assert !OneToOne(Node, graph, report);
      return false;
    }
    matched := CheckRefs(Edge, report.edges, edgeRefs, Known(Edge, graph));
    if !matched {
      assert !OneToOne(Edge, graph, report);
      return false;
    }
    matched := CheckRefs(Dependency, report.dependencies, dependencyRefs, Known(Dependency, graph));
    if !matched {
      assert !OneToOne(Dependency, graph, report);
      return false;
    }
    assert OneToOne(Node, graph, report) && OneToOne(Edge, graph, report) && OneToOne(Dependency, graph, report);
    AllKinds(graph, report);
    accepted := CheckInventory(graph, Objects(report.objects), owners, pairs);
  }

  lemma RecordsNone()
    ensures Records(map[], [])
  {
  }

  lemma AllKinds(graph: Graph, report: Report)
    requires OneToOne(Node, graph, report) && OneToOne(Edge, graph, report) && OneToOne(Dependency, graph, report)
    ensures forall kind :: OneToOne(kind, graph, report)
  {
    hide OneToOne;
    forall kind ensures OneToOne(kind, graph, report) {
      match kind case Node => case Edge => case Dependency =>
    }
  }

  /** No reference twice, none missing. */
  method CheckRefs(ghost kind: Kind, ghost entries: seq<Entry>, refs: seq<string>, known: set<string>)
    returns (ok: bool)
    requires Collected(kind, entries, known, refs)
    ensures ok <==> RefsMatch(kind, entries, known)
  {
    var duplicate := DuplicateRefs(refs);
    var missing := known - (set x | x in refs);
    assert Elements(refs) <= known;
    if missing == {} {
      assert forall x :: x in known ==> x !in missing;
      assert Elements(refs) == known;
    } else {
      var x :| x in missing;
      assert x in known && x !in Elements(refs);
    }
    ok := duplicate == [] && missing == {};
  }

  /** The second half: core objects against the owner table. */
  method CheckInventory(graph: Graph, objects: seq<Entry>, owners: map<string, seq<string>>,
                        ghost pairs: seq<(string, Owner)>)
    returns (ok: bool)
    requires Records(owners, pairs)
    ensures ok <==> ObjectsMatch(graph, objects, pairs)
  {
    hide Records, ObjectsMatch, OwnedAsDeclared, SingleOwners, ObjectIds;
    var ids := ObjectIds(objects);
    var duplicate := DuplicateRefs(ids);
    ObjectsMatchIff(graph, objects, owners, pairs);
    if duplicate != [] {
      return false;
    }
    var single := CheckOwners(owners, (set x | x in ids));
    if !single {
      return false;
    }
    ok := CheckObjects(graph, objects, owners);
  }

  // ------------------------------------------------------------------- proofs

  lemma {:induction false} IdsAreDeclared(objects: seq<Entry>)
    requires AllDeclare(objects)
    ensures |ObjectIds(objects)| == |objects|
    ensures forall i :: 0 <= i < |objects| ==> ObjectIds(objects)[i] == Declared(objects)[i].0
  {
    if objects != [] {
      hide Field, DeclaredOwner;
      var n := |objects| - 1;
      IdsAreDeclared(objects[..n]);
      forall i | 0 <= i < n ensures Declared(objects)[i] == Declared(objects[..n])[i] {}
    }
  }

  /** The object checks as the code makes them, against what they establish. */
  lemma ObjectsMatchIff(graph: Graph, objects: seq<Entry>, owners: map<string, seq<string>>,
                        pairs: seq<(string, Owner)>)
    requires Records(owners, pairs)
    ensures ObjectsMatch(graph, objects, pairs) <==>
      NoDup(ObjectIds(objects)) && SingleOwners(owners, (set x | x in ObjectIds(objects)))
      && OwnedAsDeclared(graph, objects, owners)
  {
    OwnedIff(graph, objects, owners);
    if AllOk(graph, objects) {
      OkDeclare(graph, objects);
      var ids, declared := ObjectIds(objects), Declared(objects);
      IdsAreDeclared(objects);
      hide Records, AllOk, Declared, OwnedAsDeclared, TokensRecorded, SingleOwners, ObjectIds;
      assert DistinctIds(declared) <==> NoDup(ids);
      if DistinctIds(declared) { InventoryIff(owners, pairs, declared, ids); }
    }
  }

  ghost predicate TokensRecorded(owners: map<string, seq<string>>, declared: seq<(string, Owner)>) {
    forall i :: 0 <= i < |declared| ==> Recorded(owners, declared[i].0) == [Token(declared[i].1)]
  }

  lemma OwnedIff(graph: Graph, objects: seq<Entry>, owners: map<string, seq<string>>)
    ensures OwnedAsDeclared(graph, objects, owners) ==> AllOk(graph, objects)
    ensures AllOk(graph, objects) && AllDeclare(objects) ==>
      (OwnedAsDeclared(graph, objects, owners) <==> TokensRecorded(owners, Declared(objects)))
  {
    if AllOk(graph, objects) && AllDeclare(objects) {
      var declared := Declared(objects);
      hide ObjectOk, Field, DeclaredOwner, Recorded, Token;
      forall i | 0 <= i < |objects|
        ensures declared[i] == (Field(objects[i], "object_id").value, DeclaredOwner(objects[i]).value)
      {
      }
    }
  }

  lemma OkDeclare(graph: Graph, objects: seq<Entry>)
    requires AllOk(graph, objects)
    ensures AllDeclare(objects)
  {
  }

  lemma {:induction false} CountOwners(pairs: seq<(string, Owner)>, id: string, o: Owner)
    ensures multiset(pairs)[(id, o)] == multiset(OwnersOf(pairs, id))[o]
  {
    if pairs != [] {
      var n := |pairs| - 1;
      assert pairs == pairs[..n] + [pairs[n]];
      CountOwners(pairs[..n], id, o);
    }
  }

  lemma {:induction false} OwnersOfAbsent(pairs: seq<(string, Owner)>, id: string)
    requires forall i :: 0 <= i < |pairs| ==> pairs[i].0 != id
    ensures OwnersOf(pairs, id) == []
  {
    if pairs != [] { OwnersOfAbsent(pairs[..|pairs| - 1], id); }
  }

  lemma {:induction false} OwnersOfDistinct(pairs: seq<(string, Owner)>, i: nat)
    requires DistinctIds(pairs) && i < |pairs|
    ensures OwnersOf(pairs, pairs[i].0) == [pairs[i].1]
  {
    var n := |pairs| - 1;
    if i == n { OwnersOfAbsent(pairs[..n], pairs[i].0); } else { OwnersOfDistinct(pairs[..n], i); }
  }

  /** Two lists of pairs agree as multisets when they give every object the same owners. */
  lemma SameOwnersSamePairs(pairs: seq<(string, Owner)>, declared: seq<(string, Owner)>)
    requires forall id :: OwnersOf(pairs, id) == OwnersOf(declared, id)
    ensures multiset(pairs) == multiset(declared)
  {
    forall x: (string, Owner) ensures multiset(pairs)[x] == multiset(declared)[x] {
      assert x == (x.0, x.1);
      CountOwners(pairs, x.0, x.1);
      CountOwners(declared, x.0, x.1);
    }
  }

  lemma SamePairsSameOwners(pairs: seq<(string, Owner)>, declared: seq<(string, Owner)>, id: string)
    requires multiset(pairs) == multiset(declared)
    ensures multiset(OwnersOf(pairs, id)) == multiset(OwnersOf(declared, id))
    ensures |OwnersOf(declared, id)| <= 1 ==> OwnersOf(pairs, id) == OwnersOf(declared, id)
  {
    hide OwnersOf;
    var a, b := OwnersOf(pairs, id), OwnersOf(declared, id);
    forall o ensures multiset(a)[o] == multiset(b)[o] {
      CountOwners(pairs, id, o);
      CountOwners(declared, id, o);
    }
    assert multiset(a) == multiset(b);
    if |b| <= 1 { ShortListUnique(a, b); }
  }

  lemma ShortListUnique(a: seq<Owner>, b: seq<Owner>)
    requires multiset(a) == multiset(b) && |b| <= 1
    ensures a == b
  {
    assert |a| == |multiset(a)| && |b| == |multiset(b)|;
    if |b| == 1 {
      assert b == [b[0]] && a == [a[0]];
      assert a[0] in multiset(b);
    }
  }

  lemma TokensSingle(owners: seq<Owner>, o: Owner)
    ensures Tokens(owners) == [Token(o)] <==> owners == [o]
  {
    if Tokens(owners) == [Token(o)] {
      assert Tokens(owners)[0] == Token(owners[0]);
      TokenInjective(owners[0], o);
    }
  }

  ghost predicate TableMatches(owners: map<string, seq<string>>, declared: seq<(string, Owner)>, ids: seq<string>) {
    SingleOwners(owners, (set x | x in ids)) && TokensRecorded(owners, declared)
  }

  /** The table checks hold exactly when the produced references are the declared pairs. */
  lemma InventoryIff(owners: map<string, seq<string>>, pairs: seq<(string, Owner)>, declared: seq<(string, Owner)>,
      ids: seq<string>)
    requires Records(owners, pairs) && DistinctIds(declared)
    requires |ids| == |declared| && forall i :: 0 <= i < |ids| ==> ids[i] == declared[i].0
    ensures TableMatches(owners, declared, ids) <==> multiset(pairs) == multiset(declared)
  {
    if TableMatches(owners, declared, ids) {
      forall id ensures OwnersOf(pairs, id) == OwnersOf(declared, id) {
        MatchedOwners(owners, pairs, declared, ids, id);
      }
      SameOwnersSamePairs(pairs, declared);
    }
    if multiset(pairs) == multiset(declared) {
      forall i | 0 <= i < |declared| ensures Recorded(owners, declared[i].0) == [Token(declared[i].1)] {
        OwnersOfDistinct(declared, i);
        SamePairsSameOwners(pairs, declared, declared[i].0);
      }
      forall id | id in owners ensures id in ids && |owners[id]| == 1 {
        assert Recorded(owners, id) == owners[id];
        SamePairsSameOwners(pairs, declared, id);
        if id !in ids {
          OwnersOfAbsent(declared, id);
          assert false;
        }
        var i :| 0 <= i < |ids| && ids[i] == id;
      }
    }
  }

  lemma MatchedOwners(owners: map<string, seq<string>>, pairs: seq<(string, Owner)>, declared: seq<(string, Owner)>,
      ids: seq<string>, id: string)
    requires Records(owners, pairs) && DistinctIds(declared) && TableMatches(owners, declared, ids)
    requires |ids| == |declared| && forall i :: 0 <= i < |ids| ==> ids[i] == declared[i].0
    ensures OwnersOf(pairs, id) == OwnersOf(declared, id)
  {
    assert Recorded(owners, id) == Tokens(OwnersOf(pairs, id));
    if id in ids {
      var i :| 0 <= i < |ids| && ids[i] == id;
      OwnersOfDistinct(declared, i);
      TokensSingle(OwnersOf(pairs, id), declared[i].1);
    } else {
      OwnersOfAbsent(declared, id);
    }
  }

  // ----------------------------------------------------- what acceptance means

  lemma {:induction false} ProducedIff(kind: Kind, entries: seq<Entry>, x: (string, Owner))
    ensures x in Produced(kind, entries) <==> exists k :: 0 <= k < |entries| && x in ProducedBy(kind, entries[k])
  {
    hide ProducedBy;
    if entries != [] {
      var n := |entries| - 1;
      var init := entries[..n];
      ProducedIff(kind, init, x);
      assert x in Produced(kind, entries) <==> x in Produced(kind, init) || x in ProducedBy(kind, entries[n]);
      hide Produced;
      assert forall k :: 0 <= k < n ==> init[k] == entries[k];
    }
  }

  lemma ProducedByIff(kind: Kind, e: Entry, x: (string, Owner))
    requires LoweringRef(kind, e).Some?
    ensures x in ProducedBy(kind, e) <==> x.0 in StringArray(e) && x.1 == Owner(kind, LoweringRef(kind, e).value)
  {
    var ids := StringArray(e);
    var all := Under(ids, Owner(kind, LoweringRef(kind, e).value));
    if x.0 in ids && x.1 == Owner(kind, LoweringRef(kind, e).value) {
      var i :| 0 <= i < |ids| && ids[i] == x.0;
      assert all[i] == x;
    }
  }

  lemma AllProducedIff(report: Report, x: (string, Owner))
    ensures x in AllProduced(report) ==> x in Produced(x.1.kind, Lowerings(x.1.kind, report))
    ensures x in Produced(x.1.kind, Lowerings(x.1.kind, report)) ==> x in AllProduced(report)
  {
    forall kind | x in Produced(kind, Lowerings(kind, report)) ensures kind == x.1.kind {
      var entries := Lowerings(kind, report);
      ProducedIff(kind, entries, x);
      var k :| 0 <= k < |entries| && x in ProducedBy(kind, entries[k]);
      ProducedByIff(kind, entries[k], x);
    }
    assert Lowerings(Node, report) == report.nodes && Lowerings(Edge, report) == report.edges
      && Lowerings(Dependency, report) == report.dependencies;
  }

  /** In an accepted report a lowering lists an object exactly when some core object with
      that identifier declares that lowering as its owner. */
  lemma ListedIffDeclared(graph: Graph, report: Report, kind: Kind, k: nat, ref: string, id: string)
    requires Conforms(graph, report)
    requires k < |Lowerings(kind, report)| && LoweringRef(kind, Lowerings(kind, report)[k]) == Some(ref)
    ensures id in StringArray(Lowerings(kind, report)[k]) <==>
      exists o :: o in report.objects && Field(o, "object_id") == Some(id) && DeclaredOwner(o) == Some(Owner(kind, ref))
  {
    var entries := Lowerings(kind, report);
    assert OneToOne(kind, graph, report);
    var owner := Owner(kind, ref);
    var x := (id, owner);
    var objects := Objects(report.objects);
    var declared := Declared(objects);
    ListedAt(kind, entries, k, x);
    AllProducedIff(report, x);
    SameMembers(AllProduced(report), declared, x);
    DeclaredIff(report.objects, x);
  }

  lemma SameMembers(a: seq<(string, Owner)>, b: seq<(string, Owner)>, x: (string, Owner))
    requires multiset(a) == multiset(b)
    ensures x in a <==> x in b
  {
    assert x in a <==> x in multiset(a);
    assert x in b <==> x in multiset(b);
  }

  lemma DeclaredIff(entries: seq<Entry>, x: (string, Owner))
    requires AllDeclare(Objects(entries))
    ensures x in Declared(Objects(entries)) <==>
      exists o :: o in entries && Field(o, "object_id") == Some(x.0) && DeclaredOwner(o) == Some(x.1)
  {
    var objects := Objects(entries);
    var declared := Declared(objects);
    if x in declared {
      var i :| 0 <= i < |declared| && declared[i] == x;
      assert objects[i] in entries;
    }
    if o :| o in entries && Field(o, "object_id") == Some(x.0) && DeclaredOwner(o) == Some(x.1) {
      assert o in objects;
      var i :| 0 <= i < |objects| && objects[i] == o;
      assert declared[i] == x;
    }
  }

  lemma ListedAt(kind: Kind, entries: seq<Entry>, k: nat, x: (string, Owner))
    requires forall i :: 0 <= i < |entries| ==> LoweringRef(kind, entries[i]).Some?
    requires NoDup(LoweringRefs(kind, entries)) && k < |entries|
      && x.1 == Owner(kind, LoweringRef(kind, entries[k]).value)
    ensures x in Produced(kind, entries) <==> x.0 in StringArray(entries[k])
  {
    ProducedIff(kind, entries, x);
    ProducedByIff(kind, entries[k], x);
    forall j | 0 <= j < |entries| && x in ProducedBy(kind, entries[j]) ensures j == k {
      ProducedByIff(kind, entries[j], x);
      assert LoweringRefs(kind, entries)[j] == LoweringRefs(kind, entries)[k];
    }
  }

  // --------------------------------------------------- names against graph entries

  /** Every entry has a name, and no two the same. */
  ghost predicate NamedApart(kind: Kind, entries: seq<Entry>) {
    (forall i :: 0 <= i < |entries| ==> GraphRef(kind, entries[i]).Some?)
    && forall i, j :: 0 <= i < j < |entries| ==> GraphRef(kind, entries[i]) != GraphRef(kind, entries[j])
  }

  /** What the graph's schema asks of the names in an entry: that they are there and, taken
      alone, not empty. */
  predicate Named(kind: Kind, e: Entry) {
    GraphRef(kind, e).Some? && (!kind.Edge? ==> GraphRef(kind, e) != Some(""))
  }

  ghost predicate FollowsSchema(graph: Graph) {
    forall kind, i :: 0 <= i < |Entries(kind, graph)| ==> Named(kind, Entries(kind, graph)[i])
  }

  /** The names of a graph's entries, as the trace check lists them. */
  function Names(kind: Kind, entries: seq<Entry>): seq<string> {
    if entries == [] then []
    else
      var n := |entries| - 1;
      Names(kind, entries[..n]) + if Named(kind, entries[n]) then [GraphRef(kind, entries[n]).value] else []
  }

  lemma {:induction false} NamesInOrder(kind: Kind, entries: seq<Entry>)
    requires forall i :: 0 <= i < |entries| ==> Named(kind, entries[i])
    ensures |Names(kind, entries)| == |entries|
    ensures forall i :: 0 <= i < |entries| ==>
      Named(kind, entries[i]) && Names(kind, entries)[i] == GraphRef(kind, entries[i]).value
  {
    hide GraphRef;
    if entries != [] {
      var n := |entries| - 1;
      assert Named(kind, entries[n]);
      NamesInOrder(kind, entries[..n]);
      forall i | 0 <= i < n ensures entries[..n][i] == entries[i] {}
    }
  }

  method CheckNames(kind: Kind, entries: seq<Entry>) returns (ok: bool)
    requires forall i :: 0 <= i < |entries| ==> Named(kind, entries[i])
    ensures ok <==> NamedApart(kind, entries)
  {
    NamesInOrder(kind, entries);
    hide GraphRef, Names;
    var names := Names(kind, entries);
    var duplicate := DuplicateRefs(names);
    forall i, j | 0 <= i < j < |entries|
      ensures names[i] != names[j] <==> GraphRef(kind, entries[i]) != GraphRef(kind, entries[j])
    {
      assert Named(kind, entries[i]) && Named(kind, entries[j]);
    }
    ok := duplicate == [];
  }

  /** The part of the graph's trace check that comes before every inventory: on a graph
      that follows the schema it refuses exactly the repeated names. */
  method CheckTrace(graph: Graph) returns (ok: bool)
    requires FollowsSchema(graph)
    ensures ok <==> forall kind :: NamedApart(kind, Entries(kind, graph))
  {
    hide NamedApart, Named;
    assert Entries(Node, graph) == graph.nodes && Entries(Edge, graph) == graph.edges
      && Entries(Dependency, graph) == graph.dependencies;
    var nodes := CheckNames(Node, Entries(Node, graph));
    var edges := CheckNames(Edge, Entries(Edge, graph));
    var dependencies := CheckNames(Dependency, Entries(Dependency, graph));
    ok := nodes && edges && dependencies;
    if ok {
      forall kind ensures NamedApart(kind, Entries(kind, graph)) {
        match kind case Node => case Edge => case Dependency =>
      }
    }
  }

  /** The lowering and the graph entry have the same name. */
  ghost predicate SameName(kind: Kind, lowering: Entry, entry: Entry) {
    LoweringRef(kind, lowering).Some? && LoweringRef(kind, lowering) == GraphRef(kind, entry)
  }

  ghost predicate OneLowering(kind: Kind, lowerings: seq<Entry>, entry: Entry) {
    exists k :: 0 <= k < |lowerings| && SameName(kind, lowerings[k], entry)
      && forall l :: 0 <= l < |lowerings| && SameName(kind, lowerings[l], entry) ==> l == k
  }

  ghost predicate OneEntry(kind: Kind, entries: seq<Entry>, lowering: Entry) {
    exists i :: 0 <= i < |entries| && SameName(kind, lowering, entries[i])
      && forall j :: 0 <= j < |entries| && SameName(kind, lowering, entries[j]) ==> j == i
  }

  /** After that check, in an accepted report the lowerings of each kind correspond one to
      one with the entries of the graph. */
  lemma EntriesCorrespond(kind: Kind, graph: Graph, report: Report)
    requires OneToOne(kind, graph, report) && NamedApart(kind, Entries(kind, graph))
    ensures |Lowerings(kind, report)| == |Entries(kind, graph)|
    ensures forall e :: e in Entries(kind, graph) ==> OneLowering(kind, Lowerings(kind, report), e)
    ensures forall e :: e in Lowerings(kind, report) ==> OneEntry(kind, Entries(kind, graph), e)
  {
    CountsMatchIff(kind, graph, report);
    var lowerings, entries := Lowerings(kind, report), Entries(kind, graph);
    hide LoweringRef, GraphRef, Lowerings, Entries, RefsMatch, NamedApart, OneLowering, OneEntry;
    forall e | e in entries ensures OneLowering(kind, lowerings, e) { LoweringOf(kind, lowerings, entries, e); }
    forall e | e in lowerings ensures OneEntry(kind, entries, e) { EntryOf(kind, lowerings, entries, e); }
  }

  lemma LoweringOf(kind: Kind, lowerings: seq<Entry>, entries: seq<Entry>, e: Entry)
    requires RefsMatch(kind, lowerings, GraphRefs(kind, entries)) && NamedApart(kind, entries) && e in entries
    ensures OneLowering(kind, lowerings, e)
  {
    hide LoweringRef, GraphRef;
    var refs := LoweringRefs(kind, lowerings);
    assert GraphRef(kind, e).Some?;
    assert GraphRef(kind, e).value in Elements(refs);
    var k :| 0 <= k < |refs| && refs[k] == GraphRef(kind, e).value;
    assert SameName(kind, lowerings[k], e);
    forall l | 0 <= l < |lowerings| && SameName(kind, lowerings[l], e) ensures l == k {
      assert refs[l] == refs[k];
    }
  }

  lemma EntryOf(kind: Kind, lowerings: seq<Entry>, entries: seq<Entry>, e: Entry)
    requires RefsMatch(kind, lowerings, GraphRefs(kind, entries)) && NamedApart(kind, entries) && e in lowerings
    ensures OneEntry(kind, entries, e)
  {
    hide LoweringRef, GraphRef;
    var k :| 0 <= k < |lowerings| && lowerings[k] == e;
    assert LoweringRef(kind, lowerings[k]).value in GraphRefs(kind, entries);
    var x :| x in entries && GraphRef(kind, x) == LoweringRef(kind, e);
    var i :| 0 <= i < |entries| && entries[i] == x;
    assert SameName(kind, e, entries[i]);
    forall j | 0 <= j < |entries| && SameName(kind, e, entries[j]) ensures j == i {}
  }

  /** The validator taken alone accepts graphs it is never given: here a node listed twice
      and an entry that is none, with one lowering. */
  lemma RepeatedNameAccepted()
    ensures var n := Entry(map["node_id" := "n"], None, None, None);
      Conforms(Graph([n, n, Junk], [], []), Report([n], [], [], []))
  {
    var n := Entry(map["node_id" := "n"], None, None, None);
    var graph, report := Graph([n, n, Junk], [], []), Report([n], [], [], []);
    assert GraphRef(Node, n) == LoweringRef(Node, n) == Some("n");
    assert Known(Node, graph) == {"n"};
    assert LoweringRefs(Node, [n]) == ["n"];
    assert OneToOne(Node, graph, report);
    assert LoweringRefs(Edge, []) == [] && LoweringRefs(Dependency, []) == [];
    assert OneToOne(Edge, graph, report) && OneToOne(Dependency, graph, report);
    AllKinds(graph, report);
    assert ProducedBy(Node, n) == [] by { assert StringArray(n) == []; }
    assert Produced(Node, [n]) == Produced(Node, []) + ProducedBy(Node, n) by { assert [n][..0] == []; }
    assert AllProduced(report) == [];
    assert Objects([]) == [] && Declared([]) == [];
  }

  /** For the validator taken alone: an accepted report has as many lowerings of a kind as
      the graph has entries exactly when all those entries are named, and apart. */
  lemma CountsMatchIff(kind: Kind, graph: Graph, report: Report)
    requires OneToOne(kind, graph, report)
    ensures |Lowerings(kind, report)| <= |Entries(kind, graph)|
    ensures |Lowerings(kind, report)| == |Entries(kind, graph)| <==> NamedApart(kind, Entries(kind, graph))
  {
    ElementsCount(LoweringRefs(kind, Lowerings(kind, report)));
    NamesCount(kind, Entries(kind, graph));
  }

  lemma {:induction false} ElementsCount(s: seq<string>)
    requires NoDup(s)
    ensures |Elements(s)| == |s|
  {
    if s != [] {
      var n := |s| - 1;
      ElementsCount(s[..n]);
      assert s == s[..n] + [s[n]];
      assert Elements(s) == Elements(s[..n]) + {s[n]} && s[n] !in s[..n];
    }
  }

  lemma {:induction false} NamesCount(kind: Kind, entries: seq<Entry>)
    ensures |GraphRefs(kind, entries)| <= |entries|
    ensures |GraphRefs(kind, entries)| == |entries| <==> NamedApart(kind, entries)
  {
    if entries != [] {
      var n := |entries| - 1;
      var init := entries[..n];
      NamesCount(kind, init);
      hide GraphRef, GraphRefs, NamedApart;
      assert entries == init + [entries[n]];
      GraphRefsSnoc(kind, init, entries[n]);
      NamedApartSnoc(kind, init, entries[n]);
    }
  }

  lemma GraphRefsSnoc(kind: Kind, entries: seq<Entry>, e: Entry)
    ensures GraphRefs(kind, entries + [e])
         == GraphRefs(kind, entries) + if GraphRef(kind, e).Some? then {GraphRef(kind, e).value} else {}
  {
    hide GraphRef;
  }

  lemma NamedApartSnoc(kind: Kind, entries: seq<Entry>, e: Entry)
    ensures NamedApart(kind, entries + [e]) <==>
      NamedApart(kind, entries) && GraphRef(kind, e).Some? && GraphRef(kind, e).value !in GraphRefs(kind, entries)
  {
    hide GraphRef;
    var all := entries + [e];
    assert all[|entries|] == e && forall i :: 0 <= i < |entries| ==> all[i] == entries[i];
    if NamedApart(kind, all) {
      forall x | x in entries ensures GraphRef(kind, x) != GraphRef(kind, e) {
        var i :| 0 <= i < |entries| && entries[i] == x;
        assert GraphRef(kind, all[i]) != GraphRef(kind, all[|entries|]);
      }
      assert forall i :: 0 <= i < |entries| ==> GraphRef(kind, all[i]).Some?;
    }
    if GraphRef(kind, e).Some? && GraphRef(kind, e).value !in GraphRefs(kind, entries) {
      forall i | 0 <= i < |entries| ensures GraphRef(kind, all[i]) != GraphRef(kind, e) {
        assert entries[i] in entries;
      }
    }
  }

  // ------------------------------------------------------------------ edge names

  ghost predicate HasArrow(s: string) {
    exists i :: 0 <= i < |s| - 1 && s[i] == '-' && s[i + 1] == '>'
  }

  /** Names nest: an arrow in a port can be read as the arrow between ports. */
  lemma ArrowsCollide(a: string, b: string, c: string)
    ensures EdgeRef(EdgeRef(a, b), c) == EdgeRef(a, EdgeRef(b, c))
  {
  }

  lemma SplitAtArrow(s: string) returns (x: string, y: string)
    requires HasArrow(s)
    ensures s == EdgeRef(x, y)
  {
    var i :| 0 <= i < |s| - 1 && s[i] == '-' && s[i + 1] == '>';
    x, y := s[..i], s[i + 2..];
    assert s == s[..i] + [s[i], s[i + 1]] + s[i + 2..];
  }

  /** A pair with arrowless ports is determined by its reference. */
  lemma EdgeRefInjective(a: string, b: string, c: string, d: string)
    requires !HasArrow(a) && !HasArrow(b) && EdgeRef(a, b) == EdgeRef(c, d)
    ensures a == c && b == d
  {
    var s, n := EdgeRef(a, b), |a|;
    assert s == EdgeRef(c, d);
    assert s[n] == '-' && s[n + 1] == '>' && s[|c|] == '-' && s[|c| + 1] == '>';
    forall i | 0 <= i < n - 1 ensures !(s[i] == '-' && s[i + 1] == '>') { assert s[i] == a[i] && s[i + 1] == a[i + 1]; }
    forall i | n + 2 <= i < |s| - 1 ensures !(s[i] == '-' && s[i + 1] == '>') {
      assert s[i] == b[i - n - 2] && s[i + 1] == b[i - n - 1];
    }
    assert |c| == n;
    assert a == s[..n] && c == s[..n] && b == s[n + 2..] && d == s[n + 2..];
  }

  /** Exactly the pairs with an arrow in a port share their reference with another pair. */
  lemma SharedRefIff(a: string, b: string)
    ensures (exists c, d :: (c, d) != (a, b) && EdgeRef(c, d) == EdgeRef(a, b)) <==> HasArrow(a) || HasArrow(b)
  {
    if HasArrow(a) {
      var x, y := SplitAtArrow(a);
      ArrowsCollide(x, y, b);
      assert |x| < |a| && (x, EdgeRef(y, b)) != (a, b);
    } else if HasArrow(b) {
      var x, y := SplitAtArrow(b);
      ArrowsCollide(a, x, y);
      assert |y| < |b| && (EdgeRef(a, x), y) != (a, b);
    } else {
      forall c, d | EdgeRef(c, d) == EdgeRef(a, b) ensures (c, d) == (a, b) { EdgeRefInjective(a, b, c, d); }
    }
  }

  ghost predicate HasPorts(e: Entry, a: string, b: string) {
    Field(e, "required_port_id") == Some(a) && Field(e, "provided_port_id") == Some(b)
  }

  /** So in an accepted report every graph edge with arrowless ports has one lowering,
      with the same ports. */
  lemma ArrowlessEdgeLowered(graph: Graph, report: Report, edge: Entry, a: string, b: string)
    requires OneToOne(Edge, graph, report) && edge in graph.edges && HasPorts(edge, a, b) && !HasArrow(a)
      && !HasArrow(b)
    ensures exists k :: 0 <= k < |report.edges| && HasPorts(report.edges[k], a, b)
    ensures forall j, k :: 0 <= j < k < |report.edges| ==>
      !(HasPorts(report.edges[j], a, b) && HasPorts(report.edges[k], a, b))
  {
    var refs := LoweringRefs(Edge, report.edges);
    assert report.edges == Lowerings(Edge, report);
    assert GraphRef(Edge, edge) == Some(EdgeRef(a, b));
    assert EdgeRef(a, b) in Known(Edge, graph);
    assert EdgeRef(a, b) in Elements(refs);
    var k :| 0 <= k < |refs| && refs[k] == EdgeRef(a, b);
    var c, d := Field(report.edges[k], "required_port_id").value, Field(report.edges[k], "provided_port_id").value;
    EdgeRefInjective(a, b, c, d);
    assert HasPorts(report.edges[k], a, b);
    forall i, j | 0 <= i < j < |report.edges|
      ensures !(HasPorts(report.edges[i], a, b) && HasPorts(report.edges[j], a, b))
    {
      assert refs[i] != refs[j];
    }
  }
}
