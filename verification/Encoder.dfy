/** The budgeted JSON encoder of the norm bridge: it walks a possibly cyclic graph
    of Python objects and writes into a fixed buffer, under a depth limit, a node
    budget and a string budget. */
module Encoder {
  import opened Common
  import opened Json

  const RESULT_CAPACITY: nat := 2 * 1024 * 1024
  const STRING_BUDGET: nat := 256 * 1024
  const NODE_BUDGET: nat := 10000
  const MAX_DEPTH: nat := 32

  /** A reference to an object of the interpreter's heap. */
  type Ref = nat

  /** What the encoder can see of an object. `utf8` is absent for text without a
      UTF-8 form; `text` is absent when the library fails to format a float. */
  datatype Node =
    | PyNone
    | PyTrue
    | PyFalse
    | Str(utf8: Option<seq<Byte>>)
    | Long(n: int)
    | Double(finite: bool, text: Option<seq<Byte>>)
    | List(items: seq<Ref>)
    | Tuple(items: seq<Ref>)
    | Dict(entries: seq<Entry>)
    | Other

  datatype Entry = Entry(key: Ref, value: Ref)

  type Heap = Ref -> Node

  /** The output so far and what is left of the budgets. */
  datatype Budget = Budget(out: seq<Byte>, strings: nat, nodes: nat)

  datatype Outcome = Ok(budget: Budget) | Err(code: int)

  // ------------------------------------------- the traversal, step by step

  predicate IsErrorCode(code: int) {
    -7 <= code <= -2
  }

  function Append(b: Budget, bytes: seq<Byte>): (o: Outcome)
    ensures o.Err? ==> IsErrorCode(o.code)
  {
    if |bytes| > RESULT_CAPACITY - |b.out| then Err(-7) else Ok(b.(out := b.out + bytes))
  }

  function EmitChars(b: Budget, s: seq<Byte>): (o: Outcome)
    ensures o.Err? ==> IsErrorCode(o.code)
    decreases |s|
  {
    if s == [] then Ok(b)
    else
      var o := Append(b, Escape(s[0]));
      if o.Err? then o else EmitChars(o.budget, s[1..])
  }

  function EmitString(b: Budget, utf8: Option<seq<Byte>>): (o: Outcome)
    ensures o.Err? ==> IsErrorCode(o.code)
  {
    if utf8.None? then Err(-2)
    else if |utf8.value| > b.strings then Err(-4)
    else
      var open := Append(b.(strings := b.strings - |utf8.value|), [QUOTE]);
      if open.Err? then open
      else
        var chars := EmitChars(open.budget, utf8.value);
        if chars.Err? then chars else Append(chars.budget, [QUOTE])
  }

  predicate FitsLong(n: int) {
    -0x8000_0000_0000_0000 <= n < 0x1_0000_0000_0000_0000
  }

  function EmitValue(h: Heap, r: Ref, depth: nat, b: Budget): (o: Outcome)
    ensures o.Err? ==> IsErrorCode(o.code)
    decreases MAX_DEPTH + 2 - depth, 0, 0
  {
    if depth > MAX_DEPTH then Err(-5)
    else if b.nodes == 0 then Err(-6)
    else
      var c := b.(nodes := b.nodes - 1);
      match h(r)
      case PyNone => Append(c, NULL_TEXT)
      case PyTrue => Append(c, TRUE_TEXT)
      case PyFalse => Append(c, FALSE_TEXT)
      case Str(utf8) => EmitString(c, utf8)
      case Long(n) => if FitsLong(n) then Append(c, Decimal(n)) else Err(-2)
      case Double(finite, text) =>
        if !finite then Err(-3) else if text.None? then Err(-2) else Append(c, text.value)
      case List(items) => EmitArray(h, items, depth, c)
      case Tuple(items) => EmitArray(h, items, depth, c)
      case Dict(entries) => EmitDict(h, entries, depth, c)
      case Other => Err(-2)
  }

  function EmitArray(h: Heap, items: seq<Ref>, depth: nat, c: Budget): (o: Outcome)
    requires depth <= MAX_DEPTH
    ensures o.Err? ==> IsErrorCode(o.code)
    decreases MAX_DEPTH + 1 - depth, 2, 0
  {
    if |items| > c.nodes then Err(-6)
    else
      var open := Append(c, [OPEN_BRACKET]);
      if open.Err? then open
      else
        var inner := EmitItems(h, items, true, depth + 1, open.budget);
        if inner.Err? then inner else Append(inner.budget, [CLOSE_BRACKET])
  }

  function EmitDict(h: Heap, entries: seq<Entry>, depth: nat, c: Budget): (o: Outcome)
    requires depth <= MAX_DEPTH
    ensures o.Err? ==> IsErrorCode(o.code)
    decreases MAX_DEPTH + 1 - depth, 2, 0
  {
    if |entries| > c.nodes then Err(-6)
    else
      var open := Append(c, [OPEN_BRACE]);
      if open.Err? then open
      else
        var inner := EmitEntries(h, entries, true, depth + 1, open.budget);
        if inner.Err? then inner else Append(inner.budget, [CLOSE_BRACE])
  }

  function EmitItems(h: Heap, items: seq<Ref>, first: bool, depth: nat, b: Budget): (o: Outcome)
    requires depth <= MAX_DEPTH + 1
    ensures o.Err? ==> IsErrorCode(o.code)
    decreases MAX_DEPTH + 2 - depth, 1, |items|
  {
    if items == [] then Ok(b)
    else
      var item := EmitItem(h, items[0], first, depth, b);
      if item.Err? then item else EmitItems(h, items[1..], false, depth, item.budget)
  }

  function EmitItem(h: Heap, item: Ref, first: bool, depth: nat, b: Budget): (o: Outcome)
    ensures o.Err? ==> IsErrorCode(o.code)
    decreases MAX_DEPTH + 2 - depth, 1, 0
  {
    var comma := Append(b, Separator(first));
    if comma.Err? then comma else EmitValue(h, item, depth, comma.budget)
  }

  function EmitKey(h: Heap, key: Ref, first: bool, b: Budget): (o: Outcome)
    ensures o.Err? ==> IsErrorCode(o.code)
  {
    if !h(key).Str? then Err(-2)
    else
      var comma := Append(b, Separator(first));
      if comma.Err? then comma
      else
        var name := EmitString(comma.budget, h(key).utf8);
        if name.Err? then name else Append(name.budget, [COLON])
  }

  function EmitEntries(h: Heap, entries: seq<Entry>, first: bool, depth: nat, b: Budget): (o: Outcome)
    requires depth <= MAX_DEPTH + 1
    ensures o.Err? ==> IsErrorCode(o.code)
    decreases MAX_DEPTH + 2 - depth, 1, |entries|
  {
    if entries == [] then Ok(b)
    else
      var field := EmitField(h, entries[0], first, depth, b);
      if field.Err? then field else EmitEntries(h, entries[1..], false, depth, field.budget)
  }

  function EmitField(h: Heap, entry: Entry, first: bool, depth: nat, b: Budget): (o: Outcome)
    ensures o.Err? ==> IsErrorCode(o.code)
    decreases MAX_DEPTH + 2 - depth, 1, 0
  {
    var name := EmitKey(h, entry.key, first, b);
    if name.Err? then name else EmitValue(h, entry.value, depth, name.budget)
  }

  // -------------------------------- reference: the tree an object denotes

  function KeyOf(h: Heap, key: Ref): Option<seq<Byte>> {
    if h(key).Str? then h(key).utf8 else None
  }

  /** The JSON tree below `r`, if its objects are all representable and no chain
      of containers goes below the depth limit. */
  function Unfold(h: Heap, r: Ref, depth: nat): Option<Json>
    decreases MAX_DEPTH + 2 - depth, 0, 0
  {
    if depth > MAX_DEPTH then None
    else
      match h(r)
      case PyNone => Some(Null)
      case PyTrue => Some(Bool(true))
      case PyFalse => Some(Bool(false))
      case Str(utf8) => if utf8.Some? then Some(Text(utf8.value)) else None
      case Long(n) => if FitsLong(n) then Some(Int(n)) else None
      case Double(finite, text) => if finite && text.Some? then Some(Float(text.value)) else None
      case List(items) => UnfoldArray(h, items, depth)
      case Tuple(items) => UnfoldArray(h, items, depth)
      case Dict(entries) => UnfoldDict(h, entries, depth)
      case Other => None
  }

  function UnfoldArray(h: Heap, items: seq<Ref>, depth: nat): Option<Json>
    requires depth <= MAX_DEPTH
    decreases MAX_DEPTH + 1 - depth, 2, 0
  {
    var values := UnfoldItems(h, items, depth + 1);
    if values.Some? then Some(Arr(values.value)) else None
  }

  function UnfoldDict(h: Heap, entries: seq<Entry>, depth: nat): Option<Json>
    requires depth <= MAX_DEPTH
    decreases MAX_DEPTH + 1 - depth, 2, 0
  {
    var fields := UnfoldEntries(h, entries, depth + 1);
    if fields.Some? then Some(Obj(fields.value)) else None
  }

  function UnfoldItems(h: Heap, items: seq<Ref>, depth: nat): Option<seq<Json>>
    requires depth <= MAX_DEPTH + 1
    decreases MAX_DEPTH + 2 - depth, 1, |items|
  {
    if items == [] then Some([])
    else
      var head := Unfold(h, items[0], depth);
      var tail := UnfoldItems(h, items[1..], depth);
      if head.Some? && tail.Some? then Some([head.value] + tail.value) else None
  }

  function UnfoldEntries(h: Heap, entries: seq<Entry>, depth: nat): Option<seq<Field>>
    requires depth <= MAX_DEPTH + 1
    decreases MAX_DEPTH + 2 - depth, 1, |entries|
  {
    if entries == [] then Some([])
    else
      var head := UnfoldEntry(h, entries[0], depth);
      var tail := UnfoldEntries(h, entries[1..], depth);
      if head.Some? && tail.Some? then Some([head.value] + tail.value) else None
  }

  function UnfoldEntry(h: Heap, entry: Entry, depth: nat): Option<Field>
    decreases MAX_DEPTH + 2 - depth, 1, 0
  {
    var key := KeyOf(h, entry.key);
    var value := Unfold(h, entry.value, depth);
    if key.Some? && value.Some? then Some(Field(key.value, value.value)) else None
  }

  // What a tree costs: one node per value, and the bytes of its strings and keys.

  function Nodes(v: Json): (n: nat)
    ensures n > 0
    decreases v, 1
  {
    match v
    case Arr(items) => 1 + ItemNodes(items)
    case Obj(fields) => 1 + FieldNodes(fields)
    case _ => 1
  }

  function ItemNodes(items: seq<Json>): (n: nat)
    ensures n >= |items|
    decreases items, 0
  {
    if items == [] then 0 else Nodes(items[0]) + ItemNodes(items[1..])
  }

  function FieldNodes(fields: seq<Field>): (n: nat)
    ensures n >= |fields|
    decreases fields, 0
  {
    if fields == [] then 0 else Nodes(fields[0].value) + FieldNodes(fields[1..])
  }

  function Chars(v: Json): nat
    decreases v, 1
  {
    match v
    case Text(s) => |s|
    case Arr(items) => ItemChars(items)
    case Obj(fields) => FieldChars(fields)
    case _ => 0
  }

  function ItemChars(items: seq<Json>): nat
    decreases items, 0
  {
    if items == [] then 0 else Chars(items[0]) + ItemChars(items[1..])
  }

  function FieldChars(fields: seq<Field>): nat
    decreases fields, 0
  {
    if fields == [] then 0 else |fields[0].key| + Chars(fields[0].value) + FieldChars(fields[1..])
  }

  /** Emitting `text` at a cost of `chars` and `nodes` from budget `b`: it succeeds
      with exactly that effect if it fits, and otherwise names an exceeded budget. */
  ghost predicate Emits(o: Outcome, b: Budget, text: seq<Byte>, chars: nat, nodes: nat) {
    if nodes <= b.nodes && chars <= b.strings && |b.out| + |text| <= RESULT_CAPACITY
    then o == Ok(Budget(b.out + text, b.strings - chars, b.nodes - nodes))
    else o.Err? && ((o.code == -4 && chars > b.strings) || (o.code == -6 && nodes > b.nodes)
                    || (o.code == -7 && |b.out| + |text| > RESULT_CAPACITY))
  }

  /** Emitting one text after another. */
  lemma EmitsThen(o1: Outcome, o2: Outcome, b: Budget, t1: seq<Byte>, c1: nat, n1: nat, t2: seq<Byte>, c2: nat, n2: nat)
    requires |b.out| <= RESULT_CAPACITY && Emits(o1, b, t1, c1, n1)
    requires o1.Err? ==> o2 == o1
    requires o1.Ok? ==> Emits(o2, o1.budget, t2, c2, n2)
    ensures Emits(o2, b, t1 + t2, c1 + c2, n1 + n2)
    ensures o2.Ok? ==> |o2.budget.out| <= RESULT_CAPACITY
  {
    assert b.out + (t1 + t2) == b.out + t1 + t2;
  }

  lemma {:induction false} EmitCharsExact(b: Budget, s: seq<Byte>)
    requires |b.out| <= RESULT_CAPACITY
    ensures Emits(EmitChars(b, s), b, EscapeAll(s), 0, 0)
    decreases |s|
  {
    if s == [] {
      assert b.out + [] == b.out;
    } else {
      var o := Append(b, Escape(s[0]));
      if o.Ok? { EmitCharsExact(o.budget, s[1..]); }
      EmitsThen(o, EmitChars(b, s), b, Escape(s[0]), 0, 0, EscapeAll(s[1..]), 0, 0);
    }
  }

  lemma EmitStringExact(b: Budget, s: seq<Byte>)
    requires |b.out| <= RESULT_CAPACITY
    ensures Emits(EmitString(b, Some(s)), b, Quoted(s), |s|, 0)
  {
    if |s| <= b.strings {
      var c := b.(strings := b.strings - |s|);
      var open := Append(c, [QUOTE]);
      var chars := if open.Err? then open else EmitChars(open.budget, s);
      if open.Ok? { EmitCharsExact(open.budget, s); }
      EmitsThen(open, chars, c, [QUOTE], 0, 0, EscapeAll(s), 0, 0);
      EmitsThen(chars, EmitString(b, Some(s)), c, [QUOTE] + EscapeAll(s), 0, 0, [QUOTE], 0, 0);
    }
  }

  // ------------------------------------- the traversal emits the tree, or fails

  /** `o` is the result of emitting the tree `v` from `b`; there is no tree, it fails. */
  ghost predicate EmitsTree(o: Outcome, b: Budget, v: Option<Json>) {
    if v.Some? then Emits(o, b, Render(v.value), Chars(v.value), Nodes(v.value)) else o.Err?
  }

  ghost predicate EmitsItems(o: Outcome, b: Budget, vs: Option<seq<Json>>, first: bool) {
    if vs.Some? then Emits(o, b, RenderItems(vs.value, first), ItemChars(vs.value), ItemNodes(vs.value)) else o.Err?
  }

  ghost predicate EmitsFields(o: Outcome, b: Budget, fs: Option<seq<Field>>, first: bool) {
    if fs.Some? then Emits(o, b, RenderFields(fs.value, first), FieldChars(fs.value), FieldNodes(fs.value)) else o.Err?
  }

  /** Exactness: the traversal succeeds if and only if the object denotes a tree
      whose text and costs fit, and then it emits the text of that tree. */
  lemma {:induction false} EmitValueExact(h: Heap, r: Ref, depth: nat, b: Budget)
    requires |b.out| <= RESULT_CAPACITY
    ensures EmitsTree(EmitValue(h, r, depth, b), b, Unfold(h, r, depth))
    decreases MAX_DEPTH + 2 - depth, 0, 0
  {
    hide EmitArray, EmitDict, UnfoldArray, UnfoldDict, Decimal;
    if depth <= MAX_DEPTH && b.nodes > 0 {
      var c := b.(nodes := b.nodes - 1);
      match h(r)
      case Str(utf8) => if utf8.Some? { EmitStringExact(c, utf8.value); }
      case List(items) => EmitArrayExact(h, items, depth, c);
      case Tuple(items) => EmitArrayExact(h, items, depth, c);
      case Dict(entries) => EmitDictExact(h, entries, depth, c);
      case _ =>
    }
  }

  lemma {:induction false} EmitArrayExact(h: Heap, items: seq<Ref>, depth: nat, c: Budget)
    requires |c.out| <= RESULT_CAPACITY && depth <= MAX_DEPTH
    ensures EmitsTree(EmitArray(h, items, depth, c), c.(nodes := c.nodes + 1), UnfoldArray(h, items, depth))
    decreases MAX_DEPTH + 1 - depth, 2, 0
  {
    hide EmitItems, UnfoldItems, RenderItems, ItemChars, ItemNodes;
    var o := EmitArray(h, items, depth, c);
    var vs := UnfoldItems(h, items, depth + 1);
    UnfoldItemsLength(h, items, depth + 1);
    if |items| <= c.nodes {
      var open := Append(c, [OPEN_BRACKET]);
      if open.Ok? {
        EmitItemsExact(h, items, true, depth + 1, open.budget);
        var inner := EmitItems(h, items, true, depth + 1, open.budget);
        if vs.Some? {
          EmitsThen(open, inner, c, [OPEN_BRACKET], 0, 0, RenderItems(vs.value, true), ItemChars(vs.value),
            ItemNodes(vs.value));
          EmitsThen(inner, o, c, [OPEN_BRACKET] + RenderItems(vs.value, true), ItemChars(vs.value),
            ItemNodes(vs.value), [CLOSE_BRACKET], 0, 0);
        }
      }
    }
  }

  lemma {:induction false} EmitDictExact(h: Heap, entries: seq<Entry>, depth: nat, c: Budget)
    requires |c.out| <= RESULT_CAPACITY && depth <= MAX_DEPTH
    ensures EmitsTree(EmitDict(h, entries, depth, c), c.(nodes := c.nodes + 1), UnfoldDict(h, entries, depth))
    decreases MAX_DEPTH + 1 - depth, 2, 0
  {
    hide EmitEntries, UnfoldEntries, RenderFields, FieldChars, FieldNodes;
    var o := EmitDict(h, entries, depth, c);
    var fs := UnfoldEntries(h, entries, depth + 1);
    UnfoldEntriesLength(h, entries, depth + 1);
    if |entries| <= c.nodes {
      var open := Append(c, [OPEN_BRACE]);
      if open.Ok? {
        EmitEntriesExact(h, entries, true, depth + 1, open.budget);
        var inner := EmitEntries(h, entries, true, depth + 1, open.budget);
        if fs.Some? {
          EmitsThen(open, inner, c, [OPEN_BRACE], 0, 0, RenderFields(fs.value, true), FieldChars(fs.value),
            FieldNodes(fs.value));
          EmitsThen(inner, o, c, [OPEN_BRACE] + RenderFields(fs.value, true), FieldChars(fs.value),
            FieldNodes(fs.value), [CLOSE_BRACE], 0, 0);
        }
      }
    }
  }

  lemma {:induction false} UnfoldItemsLength(h: Heap, items: seq<Ref>, depth: nat)
    requires depth <= MAX_DEPTH + 1
    ensures UnfoldItems(h, items, depth).Some? ==> |UnfoldItems(h, items, depth).value| == |items|
  {
    if items != [] { UnfoldItemsLength(h, items[1..], depth); }
  }

  lemma {:induction false} UnfoldEntriesLength(h: Heap, entries: seq<Entry>, depth: nat)
    requires depth <= MAX_DEPTH + 1
    ensures UnfoldEntries(h, entries, depth).Some? ==> |UnfoldEntries(h, entries, depth).value| == |entries|
  {
    if entries != [] { UnfoldEntriesLength(h, entries[1..], depth); }
  }

  lemma {:induction false} EmitItemsExact(h: Heap, items: seq<Ref>, first: bool, depth: nat, b: Budget)
    requires |b.out| <= RESULT_CAPACITY && depth <= MAX_DEPTH + 1
    ensures EmitsItems(EmitItems(h, items, first, depth, b), b, UnfoldItems(h, items, depth), first)
    decreases MAX_DEPTH + 2 - depth, 1, |items|
  {
    if items == [] {
      assert b.out + [] == b.out;
    } else {
      hide Emits, EmitItem, Unfold, Render, Separator, RenderItems, ItemChars, ItemNodes, Chars, Nodes;
      var o := EmitItems(h, items, first, depth, b);
      var item := EmitItem(h, items[0], first, depth, b);
      EmitItemExact(h, items[0], first, depth, b);
      if item.Ok? { EmitItemsExact(h, items[1..], false, depth, item.budget); }
      var head, tail := Unfold(h, items[0], depth), UnfoldItems(h, items[1..], depth);
      if head.Some? && tail.Some? {
        EmitsThen(item, o, b, Separator(first) + Render(head.value), Chars(head.value), Nodes(head.value),
                  RenderItems(tail.value, false), ItemChars(tail.value), ItemNodes(tail.value));
        ItemsCons(head.value, tail.value, first);
      }
    }
  }

  lemma {:induction false} EmitItemExact(h: Heap, item: Ref, first: bool, depth: nat, b: Budget)
    requires |b.out| <= RESULT_CAPACITY
    ensures var o, v := EmitItem(h, item, first, depth, b), Unfold(h, item, depth);
      if v.Some? then Emits(o, b, Separator(first) + Render(v.value), Chars(v.value), Nodes(v.value)) else o.Err?
    ensures var o := EmitItem(h, item, first, depth, b); o.Ok? ==> |o.budget.out| <= RESULT_CAPACITY
    decreases MAX_DEPTH + 2 - depth, 1, 0
  {
    hide Unfold, EmitValue, Render, Chars, Nodes;
    var comma, v := Append(b, Separator(first)), Unfold(h, item, depth);
    if comma.Ok? { EmitValueExact(h, item, depth, comma.budget); }
    if v.Some? {
      EmitsThen(comma, EmitItem(h, item, first, depth, b), b, Separator(first), 0, 0,
                Render(v.value), Chars(v.value), Nodes(v.value));
    }
  }

  lemma ItemsCons(head: Json, tail: seq<Json>, first: bool)
    ensures RenderItems([head] + tail, first) == Separator(first) + Render(head) + RenderItems(tail, false)
    ensures ItemChars([head] + tail) == Chars(head) + ItemChars(tail)
    ensures ItemNodes([head] + tail) == Nodes(head) + ItemNodes(tail)
  {
    assert ([head] + tail)[1..] == tail;
  }

  lemma FieldsCons(head: Field, tail: seq<Field>, first: bool)
    ensures RenderFields([head] + tail, first)
         == RenderField(head, first) + RenderFields(tail, false)
    ensures FieldChars([head] + tail) == KeyedChars(head) + FieldChars(tail)
    ensures FieldNodes([head] + tail) == Nodes(head.value) + FieldNodes(tail)
  {
    assert ([head] + tail)[1..] == tail;
  }

  lemma EmitKeyExact(h: Heap, key: Ref, first: bool, b: Budget)
    requires |b.out| <= RESULT_CAPACITY
    ensures var k := KeyOf(h, key);
      if k.Some? then Emits(EmitKey(h, key, first, b), b, Separator(first) + Quoted(k.value) + [COLON], |k.value|, 0)
      else EmitKey(h, key, first, b).Err?
  {
    var k := KeyOf(h, key);
    if k.Some? {
      var comma := Append(b, Separator(first));
      var name := if comma.Err? then comma else EmitString(comma.budget, k);
      if comma.Ok? { EmitStringExact(comma.budget, k.value); }
      EmitsThen(comma, name, b, Separator(first), 0, 0, Quoted(k.value), |k.value|, 0);
      EmitsThen(name, EmitKey(h, key, first, b), b, Separator(first) + Quoted(k.value), |k.value|, 0, [COLON], 0, 0);
    }
  }

  function KeyedChars(f: Field): nat {
    |f.key| + Chars(f.value)
  }

  /** Everything of a field but the fields after it. */
  function RenderField(f: Field, first: bool): seq<Byte> {
    Separator(first) + Quoted(f.key) + [COLON] + Render(f.value)
  }

  lemma {:induction false} EmitFieldExact(h: Heap, entry: Entry, first: bool, depth: nat, b: Budget)
    requires |b.out| <= RESULT_CAPACITY
    ensures var o, f := EmitField(h, entry, first, depth, b), UnfoldEntry(h, entry, depth);
      if f.Some? then Emits(o, b, RenderField(f.value, first), KeyedChars(f.value), Nodes(f.value.value))
      else o.Err?
    ensures var o := EmitField(h, entry, first, depth, b); o.Ok? ==> |o.budget.out| <= RESULT_CAPACITY
    decreases MAX_DEPTH + 2 - depth, 1, 0
  {
    hide Unfold, EmitValue, Render, Chars, Nodes, Quoted, EmitKey;
    var k, v := KeyOf(h, entry.key), Unfold(h, entry.value, depth);
    var name := EmitKey(h, entry.key, first, b);
    EmitKeyExact(h, entry.key, first, b);
    if name.Ok? { EmitValueExact(h, entry.value, depth, name.budget); }
    if k.Some? && v.Some? {
      EmitsThen(name, EmitField(h, entry, first, depth, b), b,
                Separator(first) + Quoted(k.value) + [COLON], |k.value|, 0,
                Render(v.value), Chars(v.value), Nodes(v.value));
    }
  }

  lemma EntriesStep(h: Heap, entries: seq<Entry>, first: bool, depth: nat, b: Budget)
    requires depth <= MAX_DEPTH + 1 && entries != []
    ensures var field := EmitField(h, entries[0], first, depth, b);
      EmitEntries(h, entries, first, depth, b)
        == if field.Err? then field else EmitEntries(h, entries[1..], false, depth, field.budget)
    ensures var head, tail := UnfoldEntry(h, entries[0], depth), UnfoldEntries(h, entries[1..], depth);
      UnfoldEntries(h, entries, depth)
        == if head.Some? && tail.Some? then Some([head.value] + tail.value) else None
  {
  }

  lemma {:induction false} EmitEntriesExact(h: Heap, entries: seq<Entry>, first: bool, depth: nat, b: Budget)
    requires |b.out| <= RESULT_CAPACITY && depth <= MAX_DEPTH + 1
    ensures EmitsFields(EmitEntries(h, entries, first, depth, b), b, UnfoldEntries(h, entries, depth), first)
    decreases MAX_DEPTH + 2 - depth, 1, |entries|
  {
    if entries == [] {
      assert b.out + [] == b.out;
    } else {
      hide Emits, EmitEntries, UnfoldEntries, EmitField, UnfoldEntry, RenderField, RenderFields, FieldChars,
        FieldNodes, KeyedChars, Nodes;
      EntriesStep(h, entries, first, depth, b);
      var o := EmitEntries(h, entries, first, depth, b);
      var field := EmitField(h, entries[0], first, depth, b);
      EmitFieldExact(h, entries[0], first, depth, b);
      if field.Ok? { EmitEntriesExact(h, entries[1..], false, depth, field.budget); }
      hide EmitsFields;
      FieldsGlue(field, o, b, UnfoldEntry(h, entries[0], depth), UnfoldEntries(h, entries[1..], depth), first);
    }
  }

  lemma FieldsGlue(field: Outcome, o: Outcome, b: Budget, head: Option<Field>, tail: Option<seq<Field>>, first: bool)
    requires |b.out| <= RESULT_CAPACITY
    requires if head.Some?
      then Emits(field, b, RenderField(head.value, first), KeyedChars(head.value), Nodes(head.value.value))
      else field.Err?
    requires field.Err? ==> o == field
    requires field.Ok? ==> EmitsFields(o, field.budget, tail, false)
    ensures EmitsFields(o, b, if head.Some? && tail.Some? then Some([head.value] + tail.value) else None, first)
  {
    if head.Some? && tail.Some? {
      hide Emits, RenderField, RenderFields, FieldChars, FieldNodes, KeyedChars, Nodes;
      EmitsThen(field, o, b, RenderField(head.value, first), KeyedChars(head.value), Nodes(head.value.value),
                RenderFields(tail.value, false), FieldChars(tail.value), FieldNodes(tail.value));
      FieldsCons(head.value, tail.value, first);
    }
  }

  // ------------------------------------------------------- cycles always fail

  predicate IsChild(h: Heap, parent: Ref, child: Ref) {
    match h(parent)
    case List(items) => child in items
    case Tuple(items) => child in items
    case Dict(entries) => exists k :: 0 <= k < |entries| && entries[k].value == child
    case _ => false
  }

  /** Each object of the path directly contains the next. */
  ghost predicate IsPath(h: Heap, p: seq<Ref>) {
    p != [] && forall k :: 0 <= k < |p| - 1 ==> IsChild(h, p[k], p[k + 1])
  }

  lemma {:induction false} ItemUnfolds(h: Heap, items: seq<Ref>, depth: nat, child: Ref)
    requires depth <= MAX_DEPTH + 1 && UnfoldItems(h, items, depth).Some? && child in items
    ensures Unfold(h, child, depth).Some?
  {
    if child != items[0] { ItemUnfolds(h, items[1..], depth, child); }
  }

  lemma {:induction false} EntryUnfolds(h: Heap, entries: seq<Entry>, depth: nat, k: nat)
    requires depth <= MAX_DEPTH + 1 && UnfoldEntries(h, entries, depth).Some? && k < |entries|
    ensures Unfold(h, entries[k].value, depth).Some?
  {
    if k > 0 { EntryUnfolds(h, entries[1..], depth, k - 1); }
  }

  lemma ChildUnfolds(h: Heap, r: Ref, depth: nat, child: Ref)
    requires Unfold(h, r, depth).Some? && IsChild(h, r, child)
    ensures depth <= MAX_DEPTH && Unfold(h, child, depth + 1).Some?
  {
    match h(r)
    case List(items) => ItemUnfolds(h, items, depth + 1, child);
    case Tuple(items) => ItemUnfolds(h, items, depth + 1, child);
    case Dict(entries) =>
      var k :| 0 <= k < |entries| && entries[k].value == child;
      EntryUnfolds(h, entries, depth + 1, k);
  }

  /** An object that denotes a tree has no path longer than the depth limit. */
  lemma {:induction false} PathsAreShort(h: Heap, p: seq<Ref>, depth: nat)
    requires IsPath(h, p) && Unfold(h, p[0], depth).Some?
    ensures |p| + depth <= MAX_DEPTH + 1
    decreases |p|
  {
    if |p| > 1 {
      ChildUnfolds(h, p[0], depth, p[1]);
      forall k | 0 <= k < |p| - 2 ensures IsChild(h, p[1..][k], p[1..][k + 1]) {
        assert IsChild(h, p[k + 1], p[k + 2]);
      }
      PathsAreShort(h, p[1..], depth + 1);
    }
  }

  /** No object from which a path revisits an object denotes a tree, at any depth. */
  lemma {:induction false} CyclesHaveNoTree(h: Heap, p: seq<Ref>, i: nat, j: nat, depth: nat)
    requires IsPath(h, p) && i < j < |p| && p[i] == p[j]
    ensures Unfold(h, p[0], depth).None?
    decreases MAX_DEPTH + 2 - |p|
  {
    if Unfold(h, p[0], depth).Some? {
      PathsAreShort(h, p, depth);
      var longer := p[..j] + p[i..];
      forall k | 0 <= k < |longer| - 1 ensures IsChild(h, longer[k], longer[k + 1]) {
        var m := if k < j then k else k - j + i;
        assert longer[k] == p[m] && IsChild(h, p[m], p[m + 1]);
      }
      CyclesHaveNoTree(h, longer, i, j, depth);
    }
  }

  // ---------------------------------------------- the buffer is never the limit

  /** Output plus the most that the remaining budgets can still turn into output. */
  function Demand(b: Budget): nat {
    |b.out| + 6 * b.strings + 36 * b.nodes
  }

  ghost predicate ShortFloats(h: Heap) {
    forall r :: h(r).Double? && h(r).text.Some? ==> |h(r).text.value| <= 32
  }

  /** `o` did not run out of buffer, and leaves at most `limit` in demand. */
  ghost predicate Within(o: Outcome, limit: nat) {
    if o.Ok? then Demand(o.budget) <= limit else o.code != -7
  }

  function Power10(k: nat): nat {
    if k == 0 then 1 else 10 * Power10(k - 1)
  }

  lemma {:induction false} Power10Add(a: nat, b: nat)
    ensures Power10(a + b) == Power10(a) * Power10(b)
  {
    if a > 0 { Power10Add(a - 1, b); }
  }

  lemma {:induction false} DigitsLength(n: nat, k: nat)
    requires k > 0 && n < Power10(k)
    ensures |Digits(n)| <= k
  {
    if n >= 10 { DigitsLength(n / 10, k - 1); }
  }

  lemma DecimalLength(n: int)
    requires FitsLong(n)
    ensures |Decimal(n)| <= 21
  {
    assert Power10(3) == 1_000;
    assert Power10(5) == 100_000;
    Power10Add(5, 5);
    Power10Add(10, 10);
    DigitsLength(if n < 0 then -n else n, 20);
  }

  lemma {:induction false} CharsWithin(b: Budget, s: seq<Byte>, limit: nat)
    requires Demand(b) + 6 * |s| <= limit <= RESULT_CAPACITY
    ensures Within(EmitChars(b, s), limit)
    decreases |s|
  {
    if s != [] {
      var o := Append(b, Escape(s[0]));
      CharsWithin(o.budget, s[1..], limit);
    }
  }

  lemma StringWithin(b: Budget, utf8: Option<seq<Byte>>, limit: nat)
    requires Demand(b) + 2 <= limit <= RESULT_CAPACITY
    ensures Within(EmitString(b, utf8), limit)
  {
    if utf8.Some? && |utf8.value| <= b.strings {
      var open := Append(b.(strings := b.strings - |utf8.value|), [QUOTE]);
      CharsWithin(open.budget, utf8.value, limit - 1);
    }
  }

  /** A value entered with its separators already written pays for them. */
  lemma {:induction false} ValueWithin(h: Heap, r: Ref, depth: nat, b: Budget, limit: nat)
    requires ShortFloats(h) && Demand(b) <= limit + 4 && limit + 4 <= RESULT_CAPACITY
    ensures Within(EmitValue(h, r, depth, b), limit)
    decreases MAX_DEPTH + 2 - depth, 0, 0
  {
    if depth <= MAX_DEPTH && b.nodes > 0 {
      var c := b.(nodes := b.nodes - 1);
      match h(r)
      case Str(utf8) => StringWithin(c, utf8, limit);
      case Long(n) => if FitsLong(n) { DecimalLength(n); }
      case List(items) =>
        var open := Append(c, [OPEN_BRACKET]);
        ItemsWithin(h, items, true, depth + 1, open.budget, limit - 1);
      case Tuple(items) =>
        var open := Append(c, [OPEN_BRACKET]);
        ItemsWithin(h, items, true, depth + 1, open.budget, limit - 1);
      case Dict(entries) =>
        var open := Append(c, [OPEN_BRACE]);
        EntriesWithin(h, entries, true, depth + 1, open.budget, limit - 1);
      case _ =>
    }
  }

  lemma {:induction false} ItemsWithin(h: Heap, items: seq<Ref>, first: bool, depth: nat, b: Budget, limit: nat)
    requires ShortFloats(h) && Demand(b) <= limit && limit + 4 <= RESULT_CAPACITY && depth <= MAX_DEPTH + 1
    ensures Within(EmitItems(h, items, first, depth, b), limit)
    decreases MAX_DEPTH + 2 - depth, 1, |items|
  {
    if items != [] {
      hide EmitValue;
      var comma := Append(b, Separator(first));
      ValueWithin(h, items[0], depth, comma.budget, limit);
      var item := EmitItem(h, items[0], first, depth, b);
      if item.Ok? { ItemsWithin(h, items[1..], false, depth, item.budget, limit); }
    }
  }

  lemma KeyWithin(h: Heap, key: Ref, first: bool, b: Budget, limit: nat)
    requires Demand(b) <= limit && limit + 4 <= RESULT_CAPACITY
    ensures Within(EmitKey(h, key, first, b), limit + 4)
  {
    if h(key).Str? {
      hide EmitString;
      var comma := Append(b, Separator(first));
      StringWithin(comma.budget, h(key).utf8, limit + 3);
    }
  }

  lemma {:induction false} EntriesWithin(h: Heap, entries: seq<Entry>, first: bool, depth: nat, b: Budget, limit: nat)
    requires ShortFloats(h) && Demand(b) <= limit && limit + 4 <= RESULT_CAPACITY && depth <= MAX_DEPTH + 1
    ensures Within(EmitEntries(h, entries, first, depth, b), limit)
    decreases MAX_DEPTH + 2 - depth, 1, |entries|
  {
    if entries != [] {
      hide EmitValue, EmitKey;
      var name := EmitKey(h, entries[0].key, first, b);
      KeyWithin(h, entries[0].key, first, b, limit);
      if name.Ok? { ValueWithin(h, entries[0].value, depth, name.budget, limit); }
      var field := EmitField(h, entries[0], first, depth, b);
      if field.Ok? { EntriesWithin(h, entries[1..], false, depth, field.budget, limit); }
    }
  }

  const START := Budget([], STRING_BUDGET, NODE_BUDGET)

  /** The object denotes a tree within all budgets of a call. */
  ghost predicate Encodable(h: Heap, r: Ref) {
    var v := Unfold(h, r, 0);
    v.Some? && Nodes(v.value) <= NODE_BUDGET && Chars(v.value) <= STRING_BUDGET && |Render(v.value)| <= RESULT_CAPACITY
  }

  /** The library writes finite floats as JSON numbers with a point or an exponent. */
  ghost predicate GoodFloats(h: Heap) {
    forall r :: h(r).Double? && h(r).finite && h(r).text.Some? ==> IsFloatText(h(r).text.value)
  }

  lemma {:induction false} UnfoldGood(h: Heap, r: Ref, depth: nat)
    requires GoodFloats(h) && Unfold(h, r, depth).Some?
    ensures Good(Unfold(h, r, depth).value)
    decreases MAX_DEPTH + 2 - depth, 0, 0
  {
    match h(r)
    case List(items) => UnfoldItemsGood(h, items, depth + 1);
    case Tuple(items) => UnfoldItemsGood(h, items, depth + 1);
    case Dict(entries) => UnfoldEntriesGood(h, entries, depth + 1);
    case _ =>
  }

  lemma {:induction false} UnfoldItemsGood(h: Heap, items: seq<Ref>, depth: nat)
    requires GoodFloats(h) && depth <= MAX_DEPTH + 1 && UnfoldItems(h, items, depth).Some?
    ensures var vs := UnfoldItems(h, items, depth).value; forall k :: 0 <= k < |vs| ==> Good(vs[k])
    decreases MAX_DEPTH + 2 - depth, 1, |items|
  {
    if items != [] {
      UnfoldGood(h, items[0], depth);
      UnfoldItemsGood(h, items[1..], depth);
    }
  }

  lemma {:induction false} UnfoldEntriesGood(h: Heap, entries: seq<Entry>, depth: nat)
    requires GoodFloats(h) && depth <= MAX_DEPTH + 1 && UnfoldEntries(h, entries, depth).Some?
    ensures var fs := UnfoldEntries(h, entries, depth).value; forall k :: 0 <= k < |fs| ==> Good(fs[k].value)
    decreases MAX_DEPTH + 2 - depth, 1, |entries|
  {
    if entries != [] {
      UnfoldGood(h, entries[0].value, depth);
      UnfoldEntriesGood(h, entries[1..], depth);
    }
  }

  /** From the initial budgets the buffer never overflows: the string and node
      budgets run out first, whatever the object graph. */
  lemma BufferNeverTheLimit(h: Heap, r: Ref)
    requires ShortFloats(h)
    ensures EmitValue(h, r, 0, START) != Err(-7)
  {
    ValueWithin(h, r, 0, START, RESULT_CAPACITY - 4);
  }

  // ------------------------------------------------ what the other codes mean

  /** The object itself, or one of its keys, has no JSON form. */
  predicate Unrepresentable(h: Heap, r: Ref) {
    match h(r)
    case Str(utf8) => utf8.None?
    case Long(n) => !FitsLong(n)
    case Double(finite, text) => finite && text.None?
    case Dict(entries) => exists k :: 0 <= k < |entries| && KeyOf(h, entries[k].key).None?
    case Other => true
    case _ => false
  }

  /** `p` leads from `p[0]`, entered at `depth`, to an object that explains `code`. */
  ghost predicate Explains(h: Heap, p: seq<Ref>, depth: nat, code: int) {
    IsPath(h, p)
    && var last := p[|p| - 1];
       match code
       case -2 => Unrepresentable(h, last)
       case -3 => h(last).Double? && !h(last).finite
       case -5 => depth + |p| == MAX_DEPTH + 2
       case _ => false
  }

  predicate IsShapeCode(o: Outcome) {
    o.Err? && (o.code == -2 || o.code == -3 || o.code == -5)
  }

  lemma CharsNoShapeCode(b: Budget, s: seq<Byte>)
    ensures !IsShapeCode(EmitChars(b, s))
    decreases |s|
  {
    if s != [] && Append(b, Escape(s[0])).Ok? { CharsNoShapeCode(Append(b, Escape(s[0])).budget, s[1..]); }
  }

  lemma KeyCode(h: Heap, key: Ref, first: bool, b: Budget)
    ensures IsShapeCode(EmitKey(h, key, first, b)) ==> KeyOf(h, key).None? && EmitKey(h, key, first, b).code == -2
  {
    if KeyOf(h, key).Some? {
      var comma := Append(b, Separator(first));
      if comma.Ok? && |h(key).utf8.value| <= comma.budget.strings {
        var open := Append(comma.budget.(strings := comma.budget.strings - |h(key).utf8.value|), [QUOTE]);
        if open.Ok? { CharsNoShapeCode(open.budget, h(key).utf8.value); }
      }
    }
  }

  lemma PathCons(h: Heap, r: Ref, p: seq<Ref>, depth: nat, code: int)
    requires Explains(h, p, depth + 1, code) && IsChild(h, r, p[0])
    ensures Explains(h, [r] + p, depth, code)
  {
    forall k | 0 <= k < |p| ensures IsChild(h, ([r] + p)[k], ([r] + p)[k + 1]) {
      if k > 0 { assert IsChild(h, p[k - 1], p[k]); }
    }
  }

  /** -5 comes with a chain of containers through the depth limit, -3 with a
      reachable float that is not finite, -2 with a reachable object or key that
      has no JSON form. */
  lemma {:induction false} Culprit(h: Heap, r: Ref, depth: nat, b: Budget) returns (p: seq<Ref>)
    requires IsShapeCode(EmitValue(h, r, depth, b)) && depth <= MAX_DEPTH + 1
    ensures Explains(h, p, depth, EmitValue(h, r, depth, b).code) && p[0] == r
    decreases MAX_DEPTH + 2 - depth, 0, 0
  {
    p := [r];
    if depth <= MAX_DEPTH && b.nodes > 0 {
      var c := b.(nodes := b.nodes - 1);
      match h(r)
      case Str(utf8) =>
        if utf8.Some? && |utf8.value| <= c.strings {
          var open := Append(c.(strings := c.strings - |utf8.value|), [QUOTE]);
          if open.Ok? { CharsNoShapeCode(open.budget, utf8.value); }
        }
      case List(items) =>
        assert EmitValue(h, r, depth, b) == EmitArray(h, items, depth, c);
        var q := ItemsCulprit(h, items, true, depth + 1, Append(c, [OPEN_BRACKET]).budget);
        PathCons(h, r, q, depth, EmitValue(h, r, depth, b).code);
        p := [r] + q;
      case Tuple(items) =>
        assert EmitValue(h, r, depth, b) == EmitArray(h, items, depth, c);
        var q := ItemsCulprit(h, items, true, depth + 1, Append(c, [OPEN_BRACKET]).budget);
        PathCons(h, r, q, depth, EmitValue(h, r, depth, b).code);
        p := [r] + q;
      case Dict(entries) =>
        assert EmitValue(h, r, depth, b) == EmitDict(h, entries, depth, c);
        var k, q := EntriesCulprit(h, entries, true, depth + 1, Append(c, [OPEN_BRACE]).budget);
        if q != [] {
          PathCons(h, r, q, depth, EmitValue(h, r, depth, b).code);
          p := [r] + q;
        }
      case _ =>
    }
  }

  lemma {:induction false} ItemsCulprit(h: Heap, items: seq<Ref>, first: bool, depth: nat, b: Budget)
    returns (p: seq<Ref>)
    requires depth <= MAX_DEPTH + 1 && IsShapeCode(EmitItems(h, items, first, depth, b))
    ensures Explains(h, p, depth, EmitItems(h, items, first, depth, b).code) && p[0] in items
    decreases MAX_DEPTH + 2 - depth, 1, |items|
  {
    hide EmitValue;
    var item := EmitItem(h, items[0], first, depth, b);
    if item.Err? {
      p := Culprit(h, items[0], depth, Append(b, Separator(first)).budget);
    } else {
      p := ItemsCulprit(h, items[1..], false, depth, item.budget);
    }
  }

  /** Either a bad key at index `k`, or a path from the value at index `k`. */
  lemma {:induction false} EntriesCulprit(h: Heap, entries: seq<Entry>, first: bool, depth: nat, b: Budget)
    returns (k: nat, p: seq<Ref>)
    requires depth <= MAX_DEPTH + 1 && IsShapeCode(EmitEntries(h, entries, first, depth, b))
    ensures k < |entries|
    ensures var code := EmitEntries(h, entries, first, depth, b).code;
      if p == [] then code == -2 && KeyOf(h, entries[k].key).None?
      else Explains(h, p, depth, code) && p[0] == entries[k].value
    decreases MAX_DEPTH + 2 - depth, 1, |entries|
  {
    hide EmitValue, EmitKey;
    k := 0;
    var name := EmitKey(h, entries[0].key, first, b);
    var field := EmitField(h, entries[0], first, depth, b);
    KeyCode(h, entries[0].key, first, b);
    if name.Err? {
      p := [];
    } else if field.Err? {
      p := Culprit(h, entries[0].value, depth, name.budget);
    } else {
      k, p := EntriesCulprit(h, entries[1..], false, depth, field.budget);
      k := k + 1;
    }
  }
}
