/** The bridge's encoder as it runs: a fixed result buffer, a write position and
    three budgets, all updated in place while the object graph is walked. */
module Bridge {
  import opened Common
  import opened Json
  import opened Encoder

  class Bridge {
    const resultBytes: array<Byte>
    var resultSize: nat
    var stringsLeft: nat
    var nodesLeft: nat
    var resultError: int

    ghost predicate Valid()
      reads this
    {
      resultBytes.Length == RESULT_CAPACITY && resultSize <= RESULT_CAPACITY
    }

    /** The published prefix of the buffer and the budgets. */
    ghost function View(): Budget
      requires Valid()
      reads this, resultBytes
    {
      Budget(resultBytes[..resultSize], stringsLeft, nodesLeft)
    }

    /** A call that returned `ok` did what `o` says. */
    ghost predicate Did(o: Outcome, ok: bool)
      requires Valid()
      reads this, resultBytes
    {
      ok == o.Ok? && (if ok then View() == o.budget else resultError == o.code)
    }

    constructor ()
      ensures Valid() && fresh(resultBytes) && resultSize == 0
    {
      resultBytes := new Byte[RESULT_CAPACITY];
      resultSize, stringsLeft, nodesLeft, resultError := 0, 0, 0, 0;
    }

    /** Never writes past the buffer, and never writes part of `bytes`. */
    method AppendBytes(bytes: seq<Byte>) returns (ok: bool)
      requires Valid()
      modifies this, resultBytes
      ensures Valid() && Did(Append(old(View()), bytes), ok)
      ensures !ok ==> resultSize == old(resultSize)
    {
      if |bytes| > RESULT_CAPACITY - resultSize {
        resultError := -7;
        return false;
      }
      forall k | 0 <= k < |bytes| {
        resultBytes[resultSize + k] := bytes[k];
      }
      assert resultBytes[..resultSize + |bytes|] == old(resultBytes[..resultSize]) + bytes;
      resultSize := resultSize + |bytes|;
      return true;
    }

    method EncodeString(utf8: Option<seq<Byte>>) returns (ok: bool)
      requires Valid()
      modifies this, resultBytes
      ensures Valid() && Did(EmitString(old(View()), utf8), ok)
    {
      if utf8.None? {
        resultError := -2;
        return false;
      }
      var bytes := utf8.value;
      if |bytes| > stringsLeft {
        resultError := -4;
        return false;
      }
      stringsLeft := stringsLeft - |bytes|;
      ok := AppendBytes([QUOTE]);
      if !ok { return false; }
      ghost var start := View();
      for i := 0 to |bytes|
        invariant Valid() && EmitChars(start, bytes) == EmitChars(View(), bytes[i..])
      {
        assert bytes[i..][1..] == bytes[i + 1..];
        ok := AppendBytes(Escape(bytes[i]));
        if !ok { return false; }
      }
      ok := AppendBytes([QUOTE]);
    }

    method EncodeValue(h: Heap, r: Ref, depth: nat) returns (ok: bool)
      requires Valid()
      modifies this, resultBytes
      ensures Valid() && Did(EmitValue(h, r, depth, old(View())), ok)
      decreases MAX_DEPTH + 2 - depth, 0
    {
      if depth > MAX_DEPTH {
        resultError := -5;
        return false;
      }
      if nodesLeft == 0 {
        resultError := -6;
        return false;
      }
      nodesLeft := nodesLeft - 1;
      match h(r)
      case PyNone => ok := AppendBytes(NULL_TEXT);
      case PyTrue => ok := AppendBytes(TRUE_TEXT);
      case PyFalse => ok := AppendBytes(FALSE_TEXT);
      case Str(utf8) => ok := EncodeString(utf8);
      case Long(n) =>
        if !FitsLong(n) {
          resultError := -2;
          return false;
        }
        ok := AppendBytes(Decimal(n));
      case Double(finite, text) =>
        if !finite {
          resultError := -3;
          return false;
        }
        if text.None? {
          resultError := -2;
          return false;
        }
        ok := AppendBytes(text.value);
      case List(items) => ok := EncodeItems(h, items, depth);
      case Tuple(items) => ok := EncodeItems(h, items, depth);
      case Dict(entries) => ok := EncodeEntries(h, entries, depth);
      case Other =>
        resultError := -2;
        return false;
    }

    method AppendSeparator(first: bool) returns (ok: bool)
      requires Valid()
      modifies this, resultBytes
      ensures Valid() && Did(Append(old(View()), Separator(first)), ok)
    {
      if first {
        assert View().out + [] == View().out;
        return true;
      }
      ok := AppendBytes([COMMA]);
    }

    /** One turn of the array loop. */
    method EncodeItem(h: Heap, item: Ref, first: bool, depth: nat) returns (ok: bool)
      requires Valid()
      modifies this, resultBytes
      ensures Valid() && Did(EmitItem(h, item, first, depth, old(View())), ok)
      decreases MAX_DEPTH + 2 - depth, 1
    {
      ok := AppendSeparator(first);
      if !ok { return false; }
      ok := EncodeValue(h, item, depth);
    }

    /** One turn of the dictionary loop. */
    method EncodeEntry(h: Heap, entry: Entry, first: bool, depth: nat) returns (ok: bool)
      requires Valid()
      modifies this, resultBytes
      ensures Valid() && Did(EmitField(h, entry, first, depth, old(View())), ok)
      decreases MAX_DEPTH + 2 - depth, 1
    {
      if !h(entry.key).Str? {
        resultError := -2;
        return false;
      }
      ok := AppendSeparator(first);
      if !ok { return false; }
      ok := EncodeString(h(entry.key).utf8);
      if !ok { return false; }
      ok := AppendBytes([COLON]);
      if !ok { return false; }
      ok := EncodeValue(h, entry.value, depth);
    }

    method EncodeItems(h: Heap, items: seq<Ref>, depth: nat) returns (ok: bool)
      requires Valid() && depth <= MAX_DEPTH
      modifies this, resultBytes
      ensures Valid() && Did(EmitArray(h, items, depth, old(View())), ok)
      decreases MAX_DEPTH + 1 - depth, 2
    {
      if |items| > nodesLeft {
        resultError := -6;
        return false;
      }
      ok := AppendBytes([OPEN_BRACKET]);
      if !ok { return false; }
      ghost var start := View();
      for i := 0 to |items|
        invariant Valid()
        invariant EmitItems(h, items, true, depth + 1, start) == EmitItems(h, items[i..], i == 0, depth + 1, View())
      {
        assert items[i..][1..] == items[i + 1..];
        ok := EncodeItem(h, items[i], i == 0, depth + 1);
        if !ok { return false; }
      }
      ok := AppendBytes([CLOSE_BRACKET]);
    }

    method EncodeEntries(h: Heap, entries: seq<Entry>, depth: nat) returns (ok: bool)
      requires Valid() && depth <= MAX_DEPTH
      modifies this, resultBytes
      ensures Valid() && Did(EmitDict(h, entries, depth, old(View())), ok)
      decreases MAX_DEPTH + 1 - depth, 2
    {
      if |entries| > nodesLeft {
        resultError := -6;
        return false;
      }
      ok := AppendBytes([OPEN_BRACE]);
      if !ok { return false; }
      ghost var start := View();
      hide EmitField, EmitValue, EmitString, EmitKey;
      for i := 0 to |entries|
        invariant Valid()
        invariant EmitEntries(h, entries, true, depth + 1, start)
          == EmitEntries(h, entries[i..], i == 0, depth + 1, View())
      {
        assert entries[i..][1..] == entries[i + 1..];
        ok := EncodeEntry(h, entries[i], i == 0, depth + 1);
        if !ok { return false; }
      }
      ok := AppendBytes([CLOSE_BRACE]);
    }

    /** A call of the candidate, whose returned object (if it returned) is `result`:
        it publishes the text of the object's tree, or nothing. */
    method NormCallJson(callable: bool, h: Heap, result: Option<Ref>) returns (code: int)
      requires Valid()
      modifies this, resultBytes
      ensures Valid()
      ensures code == 0 <==> callable && result.Some? && Encodable(h, result.value)
      ensures code == 0 ==> resultBytes[..resultSize] == Render(Unfold(h, result.value, 0).value)
      ensures code == 0 && GoodFloats(h) ==> Decode(resultBytes[..resultSize]) == Unfold(h, result.value, 0)
      ensures code != 0 ==> resultSize == 0
      ensures code != 0 && callable && result.Some? ==> EmitValue(h, result.value, 0, START) == Err(code)
      ensures code == -1 <==> !callable || result.None?
      ensures ShortFloats(h) ==> code != -7
    {
      resultSize, stringsLeft, nodesLeft, resultError := 0, STRING_BUDGET, NODE_BUDGET, 0;
      if !callable || result.None? {
        return -1;
      }
      assert View() == START;
      EmitValueExact(h, result.value, 0, START);
      if ShortFloats(h) { BufferNeverTheLimit(h, result.value); }
      var ok := EncodeValue(h, result.value, 0);
      if !ok {
        resultSize := 0;
        return if resultError != 0 then resultError else -2;
      }
      ghost var v := Unfold(h, result.value, 0);
      assert [] + Render(v.value) == Render(v.value);
      if GoodFloats(h) {
        UnfoldGood(h, result.value, 0);
        DecodeRender(v.value);
      }
      return 0;
    }
  }

  /** A value that reaches a cycle is never published, whatever the budgets. */
  lemma CyclicNeverEncodable(h: Heap, p: seq<Ref>, i: nat, j: nat)
    requires IsPath(h, p) && i < j < |p| && p[i] == p[j]
    ensures !Encodable(h, p[0])
  {
    CyclesHaveNoTree(h, p, i, j, 0);
  }
}
