/** Core objects of a lowering report, one at a time: their kind must be one the
    runtime hands off, with its own entrypoint, and the references they carry must
    agree with the construct graph. */
module Entrypoint {
  import opened Common

  type Strings = map<string, string>

  /** An entry of a JSON list. `fields` holds its string-valued fields, `refs` and
      `metadata` those of the objects under `entrypoint_refs` and `metadata`, and
      `produced` the list of produced references, whose items need not be strings. */
  datatype Entry = Junk | Entry(
    fields: Strings, refs: Option<Strings>, metadata: Option<Strings>, produced: Option<seq<Option<string>>>)

  datatype Graph = Graph(nodes: seq<Entry>, edges: seq<Entry>, dependencies: seq<Entry>)

  /** The text of a field, unless the entry is junk or the field is not a string. */
  function Field(e: Entry, key: string): Option<string> {
    if e.Entry? && key in e.fields then Some(e.fields[key]) else None
  }

  function Text(e: Entry, key: string): string {
    if Field(e, key).Some? then Field(e, key).value else ""
  }

  // ------------------------------------------------------- kinds and entrypoints

  function Expected(kind: string): Option<string> {
    if kind == "fact" then Some("fact_record")
    else if kind == "event" then Some("event_record")
    else if kind == "signal_source" then Some("signal_source_template")
    else if kind == "schedule" then Some("schedule_template")
    else if kind == "effect" then Some("effect_graph_template")
    else if kind == "rule" then Some("rule_template")
    else if kind == "dependency" then Some("effect_dependency_template")
    else if kind == "projection" then Some("event_projection")
    else if kind == "assertion" then Some("assertion_check")
    else if kind == "diagnostic" then Some("diagnostic_record")
    else None
  }

  predicate SupportedKind(kind: string) {
    kind == "fact" || kind == "event" || kind == "effect" || kind == "signal_source" || kind == "schedule"
    || kind == "rule" || kind == "dependency" || kind == "projection" || kind == "assertion" || kind == "diagnostic"
  }

  predicate SupportedEntrypoint(entrypoint: string) {
    entrypoint == "fact_record" || entrypoint == "event_record" || entrypoint == "effect_graph_template"
    || entrypoint == "signal_source_template" || entrypoint == "schedule_template" || entrypoint == "rule_template"
    || entrypoint == "effect_dependency_template" || entrypoint == "event_projection"
    || entrypoint == "assertion_check" || entrypoint == "diagnostic_record"
  }

  predicate RuntimeKind(kind: string) {
    kind == "run" || kind == "claim" || kind == "terminal" || kind == "cancellation" || kind == "cancellation_request"
    || kind == "cancellation_ack" || kind == "retry" || kind == "lease" || kind == "provider_evidence"
      || kind == "provider_run"
  }

  predicate RuntimeEntrypoint(entrypoint: string) {
    entrypoint == "run_record" || entrypoint == "claim_record" || entrypoint == "terminal_status"
    || entrypoint == "cancellation_request" || entrypoint == "cancellation_ack" || entrypoint == "retry_record"
    || entrypoint == "lease_recovery" || entrypoint == "provider_evidence" || entrypoint == "provider_run"
  }

  /** The references an object of a kind must carry. */
  function RequiredKeys(kind: string, entrypoint: string): seq<string> {
    if kind == "fact" && entrypoint == "fact_record" then ["fact", "schema"]
    else if kind == "event" && entrypoint == "event_record" then ["event"]
    else if kind == "signal_source" && entrypoint == "signal_source_template" then ["event"]
    else if kind == "schedule" && entrypoint == "schedule_template" then ["schedule"]
    else if kind == "rule" && entrypoint == "rule_template" then ["rule", "fact", "graph"]
    else if kind == "dependency" && entrypoint == "effect_dependency_template" then
      ["upstream_effect", "predicate", "downstream_effect"]
    else if kind == "projection" && entrypoint == "event_projection" then ["event", "fact"]
    else if kind == "assertion" && entrypoint == "assertion_check" then ["assertion"]
    else if kind == "diagnostic" && entrypoint == "diagnostic_record" then ["rule"]
    else []
  }

  predicate Carries(refs: Strings, keys: seq<string>) {
    forall k :: 0 <= k < |keys| ==> keys[k] in refs && refs[keys[k]] != ""
  }

  predicate KnownPredicate(text: string) {
    text == "succeeds" || text == "fails" || text == "completes"
  }

  predicate RefsPresent(e: Entry, kind: string, entrypoint: string) {
    var keys := RequiredKeys(kind, entrypoint);
    keys == []
    || (e.Entry? && e.refs.Some? && Carries(e.refs.value, keys)
        && (entrypoint == "effect_dependency_template" ==>
              "predicate" in e.refs.value && KnownPredicate(e.refs.value["predicate"])))
  }

  /** The checks of kind and entrypoint, in the code's order. */
  method CheckKind(e: Entry) returns (ok: bool)
    ensures ok <==> HandedOff(e)
  {
    hide Expected, SupportedKind, SupportedEntrypoint, RuntimeKind, RuntimeEntrypoint, RefsPresent;
    var id, kind, entrypoint := Text(e, "object_id"), Text(e, "object_kind"), Text(e, "runtime_entrypoint");
    TablesAgree(kind);
    if id == "" || kind == "" || entrypoint == "" {
      return false;
    }
    if RuntimeKind(kind) || Expected(kind).None? || !SupportedKind(kind) {
      return false;
    }
    if RuntimeEntrypoint(entrypoint) || entrypoint != Expected(kind).value || !SupportedEntrypoint(entrypoint) {
      return false;
    }
    ok := CheckRefs(e, kind, entrypoint);
  }

  method CheckRefs(e: Entry, kind: string, entrypoint: string) returns (ok: bool)
    ensures ok <==> RefsPresent(e, kind, entrypoint)
  {
    hide RequiredKeys, KnownPredicate;
    var keys := RequiredKeys(kind, entrypoint);
    if keys == [] {
      return true;
    }
    if e.Junk? || e.refs.None? {
      return false;
    }
    for i := 0 to |keys|
      invariant Carries(e.refs.value, keys[..i])
    {
      if keys[i] !in e.refs.value || e.refs.value[keys[i]] == "" {
        return false;
      }
      assert keys[..i + 1] == keys[..i] + [keys[i]];
    }
    assert keys[..|keys|] == keys;
    ok := entrypoint == "effect_dependency_template" ==>
            "predicate" in e.refs.value && KnownPredicate(e.refs.value["predicate"]);
  }

  /** What those checks come to: a named object of a kind the table knows, with the
      table's entrypoint and all its references. */
  predicate HandedOff(e: Entry) {
    Text(e, "object_id") != "" && Expected(Text(e, "object_kind")) == Some(Text(e, "runtime_entrypoint"))
    && RefsPresent(e, Text(e, "object_kind"), Text(e, "runtime_entrypoint"))
  }

  /** The other four tables never decide: whatever the entrypoint table knows is
      supported and not owned by the runtime. */
  lemma TablesAgree(kind: string)
    ensures Expected(kind).Some? ==> kind != "" && SupportedKind(kind) && !RuntimeKind(kind)
    ensures Expected(kind).Some? ==>
      Expected(kind).value != "" && SupportedEntrypoint(Expected(kind).value)
        && !RuntimeEntrypoint(Expected(kind).value)
  {
    if Expected(kind).Some? {
      assert SupportedKind(kind) && SupportedEntrypoint(Expected(kind).value);
      KindApart(kind);
      EntrypointApart(Expected(kind).value);
    }
  }

  lemma KindApart(kind: string)
    ensures SupportedKind(kind) ==> kind != "" && !RuntimeKind(kind)
  {
  }

  lemma EntrypointApart(entrypoint: string)
    ensures SupportedEntrypoint(entrypoint) ==> entrypoint != "" && !RuntimeEntrypoint(entrypoint)
  {
  }

  // ------------------------------------------------------------ reference values

  function RemovePrefix(s: string, p: string): string { if p <= s then s[|p|..] else s }

  /** The last entry that names itself `name` under `key`, as in a dictionary. */
  function Lookup(entries: seq<Entry>, key: string, name: string): Option<Entry> {
    if entries == [] then None
    else if Field(entries[|entries| - 1], key) == Some(name) then Some(entries[|entries| - 1])
    else Lookup(entries[..|entries| - 1], key, name)
  }

  /** An object with references has this one; one without any is not asked. */
  predicate Expects(e: Entry, key: string, value: string) {
    e.Entry? && (e.refs.None? || (key in e.refs.value && e.refs.value[key] == value))
  }

  predicate ExpectsFrom(e: Entry, key: string, source: Option<string>) {
    source.Some? && source.value != "" ==> Expects(e, key, source.value)
  }

  function RuleName(node: Option<Entry>): Option<string> {
    if node.Some? && node.value.Entry? && node.value.metadata.Some? && "rule_name" in node.value.metadata.value
    then Some(node.value.metadata.value["rule_name"]) else None
  }

  predicate ValuesAgree(graph: Graph, e: Entry) {
    var id, kind, owner, ref := Text(e, "object_id"), Text(e, "object_kind"), Text(e, "owner_kind"),
      Text(e, "owner_ref");
    if owner == "node" then
      if kind == "schedule" then Expects(e, "schedule", ref)
      else if kind == "signal_source" then "source:" <= ref || Expects(e, "event", RemovePrefix(ref, "signal_source:"))
      else if kind == "assertion" then Expects(e, "assertion", RemovePrefix(ref, "assertion:"))
      else if kind == "rule" then
        ExpectsFrom(e, "rule", RuleName(Lookup(graph.nodes, "node_id", ref)))
        && ("rule:" <= ref ==> Expects(e, "graph", RemovePrefix(ref, "rule:") + ":graph"))
      else if kind == "fact" then
        var prefix := "core:fact:" + ref + ":";
        prefix <= id
        && Expects(e, "fact", RemovePrefix(id, prefix))
        && Expects(e, "schema", RemovePrefix(RemovePrefix(id, prefix), "schema:"))
      else true
    else if owner == "dependency" && kind == "dependency" then
      var d := Lookup(graph.dependencies, "dependency_ref", ref);
      d.Some? ==>
        ExpectsFrom(e, "upstream_effect", Field(d.value, "upstream_node_id"))
        && ExpectsFrom(e, "predicate", Field(d.value, "predicate"))
        && ExpectsFrom(e, "downstream_effect", Field(d.value, "downstream_node_id"))
    else true
  }

  /** Everything asked of an object by itself. */
  predicate KindOk(graph: Graph, e: Entry) { HandedOff(e) && ValuesAgree(graph, e) }

  /** The identifier of an accepted fact that a node owns spells out owner, fact and
      schema. */
  lemma FactIdSpellsRefs(graph: Graph, e: Entry)
    requires KindOk(graph, e) && Text(e, "object_kind") == "fact" && Text(e, "owner_kind") == "node"
    ensures e.refs.Some? && "fact" in e.refs.value && "schema" in e.refs.value
    ensures Text(e, "object_id") == "core:fact:" + Text(e, "owner_ref") + ":" + e.refs.value["fact"]
    ensures e.refs.value["schema"] == RemovePrefix(e.refs.value["fact"], "schema:") != ""
  {
    var prefix := "core:fact:" + Text(e, "owner_ref") + ":";
    var id := Text(e, "object_id");
    assert RequiredKeys("fact", "fact_record") == ["fact", "schema"];
    assert Carries(e.refs.value, ["fact", "schema"]);
    assert ["fact", "schema"][0] in e.refs.value && ["fact", "schema"][1] in e.refs.value;
    assert id == prefix + id[|prefix|..];
  }
}
