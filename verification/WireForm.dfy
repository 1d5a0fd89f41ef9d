/** What values look like on the wire, in the format's own words (serialize.go). */
module WireForm {
  import opened Wrappers
  import opened Ints
  import opened TextCodecs
  import opened Serialization
  import opened StubIds

  // ---------------------------------------------------------------- leaves, written

  /** Plain JSON for what JSON has; big integers, dates and bytes as pairs of tag and text or number. */
  lemma PlainLeavesOnTheWire(o: Options, v: Value, next: int)
    requires !v.List? && !v.Dict?
    ensures var e := EncodeLeaf(o, v, next);
      && (v.Null? ==> e == Enc(Some(JNull), next))
      && (v.Bool? ==> e == Enc(Some(JBool(v.b)), next))
      && (v.Number? ==> e == Enc(Some(JNumber(v.x)), next))
      && (v.Text? ==> e == Enc(Some(JString(v.s)), next))
      && (v.BigInt? ==> e == Enc(Some(JArray([JString("bigint"), JString(FormatInt(v.n))])), next))
      && (v.Bytes? ==> e == Enc(Some(JArray([JString("bytes"), JString(EncodeBase64(v.data))])), next))
      && (v.Unsupported? ==> e == Enc(None, next))
  {
  }

  /** A date is the whole milliseconds since the epoch, rounded down, before the epoch as well. */
  lemma DateOnTheWire(o: Options, nanos: int, millis: int, next: int)
    requires millis * 1_000_000 <= nanos < (millis + 1) * 1_000_000
    ensures EncodeLeaf(o, Date(nanos), next) == Enc(Some(JArray([JString("date"), JNumber(millis as real)])), next)
    ensures NormalisedLeaf(o, Date(nanos), next) == DDate(millis)
  {
    assert nanos / 1_000_000 == millis;
  }

  /** An error is its name, message and, if there is one to show, code and stack. */
  lemma ErrorOnTheWire(o: Options, v: Value, next: int)
    requires v.PlainError? || v.RpcError?
    ensures var e := EncodeLeaf(o, v, next);
      && e.next == next && e.json.Some? && e.json.value.JArray? && |e.json.value.items| == 2
      && e.json.value.items[0] == JString("error") && e.json.value.items[1].JObject?
      && var fields := e.json.value.items[1].entries;
         && "name" in fields && fields["name"] == JString(if v.RpcError? then v.kind else "Error")
         && "message" in fields && fields["message"] == JString(v.message)
         && ("code" in fields <==> v.RpcError? && v.code != 0) && ("code" in fields ==> fields["code"] == JNumber(v.code as real))
         && ("stack" in fields <==> o.includeStackTraces && (v.PlainError? || v.stack != ""))
         && ("stack" in fields ==> fields["stack"] == JString(v.stack))
         && forall key :: key in fields ==> key in {"name", "message", "code", "stack"}
  {
    FieldNamesDiffer();
  }

  lemma FieldNamesDiffer()
    ensures |"name"| == 4 && |"code"| == 4 && |"message"| == 7 && |"stack"| == 5
    ensures "name"[0] == 'n' && "code"[0] == 'c'
  {
  }

  /** Functions and targets are exported under the next number; a stub passed on keeps its own id, imported ids first. */
  lemma ReferenceOnTheWire(o: Options, v: Value, next: int)
    requires v.Function? || v.Target? || v.StubRef?
    ensures var e := EncodeLeaf(o, v, next);
      && (v.Function? || v.Target? ==>
        e == if o.canExport then Enc(Some(JArray([JString("export"), JNumber(Int32(next + 1) as real)])), next + 1) else Enc(None, next))
      && (v.StubRef? && v.importID.Some? ==> e == Enc(Some(JArray([JString("import"), JNumber(v.importID.value as real)])), next))
      && (v.StubRef? && v.importID.None? && v.exportID.Some? ==>
        e == Enc(Some(JArray([JString("export"), JNumber(v.exportID.value as real)])), next))
      && (v.StubRef? && v.importID.None? && v.exportID.None? ==> e == Enc(None, next))
  {
  }

  // ---------------------------------------------------------------- pairs, read

  /** All three reference tags import the id, and only a promise is marked as one; other values of theirs are errors. */
  lemma ReferenceRead(items: seq<Json>)
    requires |items| >= 2 && items[0].JString? && items[0].s in {"import", "export", "promise"}
    ensures items[1].JNumber? ==> Decode(JArray(items)) == Some(DStub(Int32(Truncate(items[1].x)), items[0].s == "promise"))
    ensures !items[1].JNumber? ==> Decode(JArray(items)) == None
  {
    TagsAreRead(items[0].s);
  }

  /** Each tag is read as itself. */
  lemma TagsAreRead(s: string)
    ensures TagOf(s) ==
      if s == "import" then Some(ImportTag) else if s == "export" then Some(ExportTag) else if s == "promise" then Some(PromiseTag)
      else if s == "error" then Some(ErrorTag) else if s == "bytes" then Some(BytesTag) else if s == "date" then Some(DateTag)
      else if s == "bigint" then Some(BigIntTag) else None
  {
    assert |"import"| == 6 && |"export"| == 6 && |"promise"| == 7 && |"error"| == 5 && |"bytes"| == 5 && |"date"| == 4 && |"bigint"| == 6;
    assert "import"[0] == 'i' && "export"[0] == 'e' && "bigint"[0] == 'b' && "error"[0] == 'e' && "bytes"[0] == 'b';
  }

  lemma TextRead(items: seq<Json>)
    requires |items| >= 2 && items[0].JString? && items[0].s in {"bigint", "bytes", "date"}
    ensures items[0].s == "bigint" ==>
      Decode(JArray(items))
        == if items[1].JString? && ParseInt(items[1].s).Some? then Some(DBigInt(ParseInt(items[1].s).value)) else None
    ensures items[0].s == "bytes" ==>
      Decode(JArray(items))
        == if items[1].JString? && DecodeBase64(items[1].s).Some? then Some(DBytes(DecodeBase64(items[1].s).value)) else None
    ensures items[0].s == "date" ==>
      Decode(JArray(items)) == if items[1].JNumber? then Some(DDate(Truncate(items[1].x))) else None
  {
    TagsAreRead(items[0].s);
  }

  /** Reading an error never fails: a name makes it an RpcError, without one only the message counts, and a non-object is marked. */
  lemma ErrorRead(items: seq<Json>)
    requires |items| >= 2 && items[0] == JString("error")
    ensures !items[1].JObject? ==> Decode(JArray(items)) == Some(DInvalidError)
    ensures items[1].JObject? ==>
      var e := items[1].entries;
      var message := if "message" in e && e["message"].JString? then e["message"].s else "";
      Decode(JArray(items)) == Some(
        if "name" in e && e["name"].JString? then
          DRpcError(e["name"].s, message,
                    if "code" in e && e["code"].JNumber? then Truncate(e["code"].x) else 0,
                    if "stack" in e && e["stack"].JString? then e["stack"].s else "")
        else DError(message))
  {
    TagsAreRead(items[0].s);
  }

  /** Rounding is towards zero, and whole numbers are kept. */
  lemma TruncatesTowardsZero(x: real)
    ensures x >= 0.0 ==> Truncate(x) as real <= x < (Truncate(x) + 1) as real
    ensures x <= 0.0 ==> (Truncate(x) - 1) as real < x <= Truncate(x) as real
  {
  }

  // ---------------------------------------------------------------- all references of a value

  datatype Kind = AsImport | AsExport | AsPromise

  function Word(kind: Kind): string {
    match kind
    case AsImport => "import"
    case AsExport => "export"
    case AsPromise => "promise"
  }

  /** Somewhere in the tree is the pair of this word and id. */
  predicate HasPair(j: Json, kind: Kind, id: int) {
    match j
    case JArray(items) => items == [JString(Word(kind)), JNumber(id as real)] || exists i | 0 <= i < |items| :: HasPair(items[i], kind, id)
    case JObject(entries) => exists key | key in entries :: HasPair(entries[key], kind, id)
    case _ => false
  }

  /** Somewhere in the value is a stub that goes out in this way. */
  predicate PassesOn(v: Value, kind: Kind, id: int) {
    match v
    case List(items) => exists i | 0 <= i < |items| :: PassesOn(items[i], kind, id)
    case Dict(entries, _) => exists key | key in entries :: PassesOn(entries[key], kind, id)
    case StubRef(importID, exportID) =>
      if importID.Some? then kind == AsImport && id == importID.value else kind == AsExport && exportID == Some(id)
    case _ => false
  }

  /** An export with one of the ids after a, up to and including b. */
  predicate Fresh(kind: Kind, id: int, a: int, b: int) {
    kind == AsExport && a < id <= b
  }

  lemma FreshInTurn(kind: Kind, id: int, a: int, b: int, c: int)
    requires a <= b <= c
    ensures Fresh(kind, id, a, c) <==> Fresh(kind, id, a, b) || Fresh(kind, id, b, c)
  {
  }

  /** Nothing in a string, a number or an object of these can be a tagged pair. */
  predicate Flat(j: Json) {
    j.JString? || j.JNumber? || (j.JObject? && forall key :: key in j.entries ==> j.entries[key].JString? || j.entries[key].JNumber?)
  }

  lemma PairIsItself(word: string, value: Json, kind: Kind, id: int)
    requires Flat(value)
    ensures HasPair(JArray([JString(word), value]), kind, id) <==> word == Word(kind) && value == JNumber(id as real)
  {
    var items := [JString(word), value];
    assert !HasPair(items[0], kind, id);
    assert !HasPair(items[1], kind, id);
    assert items == [JString(Word(kind)), JNumber(id as real)] <==> items[0] == JString(Word(kind)) && items[1] == JNumber(id as real);
  }

  lemma WordsDiffer(kind: Kind)
    ensures Word(kind) !in {"bigint", "date", "bytes", "error"} && IsReserved(Word(kind))
    ensures Word(kind) == "export" ==> kind == AsExport
    ensures Word(kind) == "import" ==> kind == AsImport
  {
    TagsAreRead(Word(kind));
    TagsAreRead("bigint");
    TagsAreRead("export");
    TagsAreRead("promise");
  }

  lemma DataPairs(o: Options, v: Value, next: int, kind: Kind, id: int)
    requires v.BigInt? || v.Date? || v.Bytes? || v.PlainError? || v.RpcError?
    requires EncodeLeaf(o, v, next).json.Some?
    ensures !HasPair(EncodeLeaf(o, v, next).json.value, kind, id)
  {
    WordsDiffer(kind);
    if v.BigInt? {
      PairIsItself("bigint", JString(FormatInt(v.n)), kind, id);
    } else if v.Date? {
      PairIsItself("date", JNumber((v.nanos / 1_000_000) as real), kind, id);
    } else if v.Bytes? {
      PairIsItself("bytes", JString(EncodeBase64(v.data)), kind, id);
    } else {
      PairIsItself("error", EncodeLeaf(o, v, next).json.value.items[1], kind, id);
    }
  }

  lemma ReferencePairs(o: Options, v: Value, next: int, kind: Kind, id: int)
    requires (v.Function? || v.Target? || v.StubRef?) && EncodeLeaf(o, v, next).json.Some?
    requires 0 <= next && next + Refs(v) <= MAX_INT32
    ensures HasPair(EncodeLeaf(o, v, next).json.value, kind, id) <==> PassesOn(v, kind, id) || Fresh(kind, id, next, next + Refs(v))
  {
    WordsDiffer(kind);
    ReferenceOnTheWire(o, v, next);
    match v
    case StubRef(importID, exportID) =>
      if importID.Some? {
        PairIsItself("import", JNumber(importID.value as real), kind, id);
      } else {
        PairIsItself("export", JNumber(exportID.value as real), kind, id);
      }
    case _ => PairIsItself("export", JNumber((next + 1) as real), kind, id);
  }

  lemma LeafPairs(o: Options, v: Value, next: int, kind: Kind, id: int)
    requires !v.List? && !v.Dict? && EncodeLeaf(o, v, next).json.Some?
    requires 0 <= next && next + Refs(v) <= MAX_INT32
    ensures HasPair(EncodeLeaf(o, v, next).json.value, kind, id) <==> PassesOn(v, kind, id) || Fresh(kind, id, next, next + Refs(v))
  {
    if v.Function? || v.Target? || v.StubRef? {
      ReferencePairs(o, v, next, kind, id);
    } else if v.BigInt? || v.Date? || v.Bytes? || v.PlainError? || v.RpcError? {
      DataPairs(o, v, next, kind, id);
    }
  }

  /**
   * The tagged references in an encoded value are exactly its functions and targets, as exports under the ids issued for
   * them, and the stubs it passes on, under their own tag and id. None is a promise.
   */
  lemma {:induction false} ReferencesOnTheWire(o: Options, v: Value, depth: nat, next: int, j: Json, kind: Kind, id: int)
    requires WellFormed(v) && !Ambiguous(v) && Encode(o, v, depth, next).json == Some(j)
    requires 0 <= next && next + Refs(v) <= MAX_INT32
    ensures HasPair(j, kind, id) <==> PassesOn(v, kind, id) || Fresh(kind, id, next, next + Refs(v))
    decreases v, 2, 0
  {
    if v.List? {
      ListPairs(o, v, depth, next, j.items, kind, id);
    } else if v.Dict? {
      DictPairs(o, v, depth, next, j.entries, kind, id);
    } else {
      LeafPairs(o, v, next, kind, id);
    }
  }

  // ---------------------------------------------------------------- lists

  /** The ids issued for the i-th item. */
  ghost predicate FreshInItem(v: Value, i: nat, next: int, kind: Kind, id: int)
    requires v.List? && i < |v.items|
  {
    Fresh(kind, id, next + RefsInItems(v, i), next + RefsInItems(v, i) + Refs(v.items[i]))
  }

  lemma {:induction false} FreshInSomeItem(v: Value, k: nat, next: int, kind: Kind, id: int)
    requires v.List? && k <= |v.items|
    ensures Fresh(kind, id, next, next + RefsInItems(v, k)) <==> exists i :: 0 <= i < k && FreshInItem(v, i, next, kind, id)
  {
    if k > 0 {
      var before := RefsInItems(v, k - 1);
      FreshInSomeItem(v, k - 1, next, kind, id);
      assert RefsInItems(v, k) == before + Refs(v.items[k - 1]);
      FreshInTurn(kind, id, next, next + before, next + before + Refs(v.items[k - 1]));
      assert FreshInItem(v, k - 1, next, kind, id) <==> Fresh(kind, id, next + before, next + before + Refs(v.items[k - 1]));
    }
  }

  lemma {:induction false} ItemPair(o: Options, v: Value, k: nat, i: nat, depth: nat, next: int, js: seq<Json>, kind: Kind, id: int)
    requires WellFormed(v) && !Ambiguous(v) && v.List? && i < k <= |v.items|
    requires EncodeItems(o, v, k, depth, next).items == Some(js) && i < |js|
    requires 0 <= next && next + RefsInItems(v, k) <= MAX_INT32
    ensures HasPair(js[i], kind, id) <==> PassesOn(v.items[i], kind, id) || FreshInItem(v, i, next, kind, id)
    decreases v, 0, k
  {
    var item, fjs, j, start := LastItem(o, v, k, depth, next, js);
    if i == k - 1 {
      ReferencesOnTheWire(o, item, depth + 1, start, j, kind, id);
    } else {
      ItemPair(o, v, k - 1, i, depth, next, fjs, kind, id);
    }
  }

  lemma {:induction false} ListPairs(o: Options, v: Value, depth: nat, next: int, js: seq<Json>, kind: Kind, id: int)
    requires WellFormed(v) && !Ambiguous(v) && v.List?
    requires EncodeItems(o, v, |v.items|, depth, next).items == Some(js) && 0 <= next && next + Refs(v) <= MAX_INT32
    ensures HasPair(JArray(js), kind, id) <==> PassesOn(v, kind, id) || Fresh(kind, id, next, next + Refs(v))
    decreases v, 1, 1
  {
    ItemsTell(o, v, depth, next, js, kind, id);
    PairIsTagged(o, v, depth, next, js, kind, id);
    PairsOfItems(js, v, next, kind, id);
  }

  ghost predicate ItemTells(js: seq<Json>, v: Value, i: nat, next: int, kind: Kind, id: int)
    requires v.List? && i < |v.items| == |js|
  {
    HasPair(js[i], kind, id) <==> PassesOn(v.items[i], kind, id) || FreshInItem(v, i, next, kind, id)
  }

  lemma {:induction false} ItemsTell(o: Options, v: Value, depth: nat, next: int, js: seq<Json>, kind: Kind, id: int)
    requires WellFormed(v) && !Ambiguous(v) && v.List?
    requires EncodeItems(o, v, |v.items|, depth, next).items == Some(js) && 0 <= next && next + Refs(v) <= MAX_INT32
    ensures |js| == |v.items| && forall i :: 0 <= i < |v.items| ==> ItemTells(js, v, i, next, kind, id)
    decreases v, 1, 0
  {
    ItemsShape(o, v, |v.items|, depth, next);
    forall i | 0 <= i < |v.items|
      ensures ItemTells(js, v, i, next, kind, id)
    {
      ItemPair(o, v, |v.items|, i, depth, next, js, kind, id);
    }
  }

  lemma PairsOfItems(js: seq<Json>, v: Value, next: int, kind: Kind, id: int)
    requires v.List? && |js| == |v.items| && js != [JString(Word(kind)), JNumber(id as real)]
    requires forall i :: 0 <= i < |v.items| ==> ItemTells(js, v, i, next, kind, id)
    ensures HasPair(JArray(js), kind, id) <==> PassesOn(v, kind, id) || Fresh(kind, id, next, next + RefsInItems(v, |v.items|))
  {
    FreshInSomeItem(v, |v.items|, next, kind, id);
    if HasPair(JArray(js), kind, id) {
      PairComesFromItem(js, v, next, kind, id);
    }
    if PassesOn(v, kind, id) || exists i :: 0 <= i < |v.items| && FreshInItem(v, i, next, kind, id) {
      ItemGivesPair(js, v, next, kind, id);
    }
  }

  lemma PairComesFromItem(js: seq<Json>, v: Value, next: int, kind: Kind, id: int)
    requires v.List? && |js| == |v.items| && js != [JString(Word(kind)), JNumber(id as real)]
    requires forall i :: 0 <= i < |v.items| ==> ItemTells(js, v, i, next, kind, id)
    requires HasPair(JArray(js), kind, id)
    ensures PassesOn(v, kind, id) || exists i :: 0 <= i < |v.items| && FreshInItem(v, i, next, kind, id)
  {
    var i :| 0 <= i < |js| && HasPair(js[i], kind, id);
    assert ItemTells(js, v, i, next, kind, id);
  }

  lemma ItemGivesPair(js: seq<Json>, v: Value, next: int, kind: Kind, id: int)
    requires v.List? && |js| == |v.items|
    requires forall i :: 0 <= i < |v.items| ==> ItemTells(js, v, i, next, kind, id)
    requires PassesOn(v, kind, id) || exists i :: 0 <= i < |v.items| && FreshInItem(v, i, next, kind, id)
    ensures HasPair(JArray(js), kind, id)
  {
    var i: nat;
    if PassesOn(v, kind, id) {
      i :| 0 <= i < |v.items| && PassesOn(v.items[i], kind, id);
    } else {
      i :| 0 <= i < |v.items| && FreshInItem(v, i, next, kind, id);
    }
    assert ItemTells(js, v, i, next, kind, id);
  }

  /** An unambiguous array is not itself a reference. */
  lemma PairIsTagged(o: Options, v: Value, depth: nat, next: int, js: seq<Json>, kind: Kind, id: int)
    requires v.List? && !Ambiguous(v) && EncodeItems(o, v, |v.items|, depth, next).items == Some(js)
    ensures js != [JString(Word(kind)), JNumber(id as real)]
  {
    WordsDiffer(kind);
    ItemsShape(o, v, |v.items|, depth, next);
    if js != [] {
      FirstItemText(o, v, |v.items|, depth, next, js);
    }
  }

  // ---------------------------------------------------------------- maps

  ghost predicate FreshInEntry(v: Value, i: nat, next: int, kind: Kind, id: int)
    requires v.Dict? && i < |v.order| && v.order[i] in v.entries
  {
    Fresh(kind, id, next + RefsInEntries(v, i), next + RefsInEntries(v, i) + Refs(v.entries[v.order[i]]))
  }

  lemma {:induction false} EntryPair(o: Options, v: Value, k: nat, i: nat, key: string, depth: nat, next: int, js: map<string, Json>,
                                     kind: Kind, id: int)
    requires WellFormed(v) && !Ambiguous(v) && v.Dict? && i < k <= |v.order|
    requires key == v.order[i] && key in v.entries && key in js && EncodeEntries(o, v, k, depth, next).entries == Some(js)
    requires 0 <= next && next + RefsInEntries(v, k) <= MAX_INT32
    ensures HasPair(js[key], kind, id) <==> PassesOn(v.entries[key], kind, id) || FreshInEntry(v, i, next, kind, id)
    decreases v, 0, k
  {
    var last, fjs, j, start := LastEntry(o, v, k, depth, next, js);
    if i == k - 1 {
      ReferencesOnTheWire(o, v.entries[key], depth + 1, start, j, kind, id);
    } else {
      EarlierEntry(v, k, i, js, fjs, j);
      EntryPair(o, v, k - 1, i, key, depth, next, fjs, kind, id);
    }
  }

  lemma EarlierEntry(v: Value, k: nat, i: nat, js: map<string, Json>, fjs: map<string, Json>, j: Json)
    requires WellFormed(v) && v.Dict? && i < k - 1 < |v.order| && js == fjs[v.order[k - 1] := j] && v.order[i] in js
    ensures v.order[i] in fjs && fjs[v.order[i]] == js[v.order[i]]
  {
  }

  lemma {:induction false} DictPairs(o: Options, v: Value, depth: nat, next: int, js: map<string, Json>, kind: Kind, id: int)
    requires WellFormed(v) && !Ambiguous(v) && v.Dict?
    requires EncodeEntries(o, v, |v.order|, depth, next).entries == Some(js) && 0 <= next && next + Refs(v) <= MAX_INT32
    ensures HasPair(JObject(js), kind, id) <==> PassesOn(v, kind, id) || Fresh(kind, id, next, next + Refs(v))
    decreases v, 1, 0
  {
    KeysInOrder(o, v, depth, next, js);
    EntriesTell(o, v, depth, next, js, kind, id);
    EntryPairs(js, v, |v.order|, next, kind, id);
    PairAmongFirst(js, v.order, kind, id);
    PassedAmongFirst(v, kind, id);
  }

  /** One of the first k entries in this order holds the pair. */
  predicate PairInFirst(js: map<string, Json>, order: seq<string>, k: nat, kind: Kind, id: int)
    requires k <= |order|
  {
    k > 0 && (PairInFirst(js, order, k - 1, kind, id) || (order[k - 1] in js && HasPair(js[order[k - 1]], kind, id)))
  }

  predicate PassedInFirst(vs: map<string, Value>, order: seq<string>, k: nat, kind: Kind, id: int)
    requires k <= |order|
  {
    k > 0 && (PassedInFirst(vs, order, k - 1, kind, id) || (order[k - 1] in vs && PassesOn(vs[order[k - 1]], kind, id)))
  }

  ghost predicate EntryTells(js: map<string, Json>, v: Value, i: nat, next: int, kind: Kind, id: int)
    requires v.Dict? && i < |v.order|
  {
    var key := v.order[i];
    && key in js && key in v.entries
    && (HasPair(js[key], kind, id) <==> PassesOn(v.entries[key], kind, id) || FreshInEntry(v, i, next, kind, id))
  }

  lemma {:induction false} EntriesTell(o: Options, v: Value, depth: nat, next: int, js: map<string, Json>, kind: Kind, id: int)
    requires WellFormed(v) && !Ambiguous(v) && v.Dict?
    requires EncodeEntries(o, v, |v.order|, depth, next).entries == Some(js) && 0 <= next && next + Refs(v) <= MAX_INT32
    requires forall i :: 0 <= i < |v.order| ==> v.order[i] in js && v.order[i] in v.entries
    ensures forall i :: 0 <= i < |v.order| ==> EntryTells(js, v, i, next, kind, id)
    decreases v, 0, |v.order| + 1
  {
    forall i | 0 <= i < |v.order|
      ensures EntryTells(js, v, i, next, kind, id)
    {
      EntryPair(o, v, |v.order|, i, v.order[i], depth, next, js, kind, id);
    }
  }

  lemma {:induction false} EntryPairs(js: map<string, Json>, v: Value, k: nat, next: int, kind: Kind, id: int)
    requires v.Dict? && k <= |v.order| && forall i :: 0 <= i < |v.order| ==> EntryTells(js, v, i, next, kind, id)
    ensures PairInFirst(js, v.order, k, kind, id)
      <==> PassedInFirst(v.entries, v.order, k, kind, id) || Fresh(kind, id, next, next + RefsInEntries(v, k))
  {
    if k > 0 {
      EntryPairs(js, v, k - 1, next, kind, id);
      assert EntryTells(js, v, k - 1, next, kind, id);
      RefsOfLast(v, k);
      OneMoreEntry(js, v, k, next + RefsInEntries(v, k - 1), next, kind, id);
    }
  }

  lemma OneMoreEntry(js: map<string, Json>, v: Value, k: nat, before: int, next: int, kind: Kind, id: int)
    requires v.Dict? && 0 < k <= |v.order| && v.order[k - 1] in js && v.order[k - 1] in v.entries && next <= before
    requires PairInFirst(js, v.order, k - 1, kind, id)
      <==> PassedInFirst(v.entries, v.order, k - 1, kind, id) || Fresh(kind, id, next, before)
    requires HasPair(js[v.order[k - 1]], kind, id)
      <==> || PassesOn(v.entries[v.order[k - 1]], kind, id)
           || Fresh(kind, id, before, before + Refs(v.entries[v.order[k - 1]]))
    ensures PairInFirst(js, v.order, k, kind, id)
      <==> PassedInFirst(v.entries, v.order, k, kind, id) || Fresh(kind, id, next, before + Refs(v.entries[v.order[k - 1]]))
  {
    FreshInTurn(kind, id, next, before, before + Refs(v.entries[v.order[k - 1]]));
  }

  lemma RefsOfLast(v: Value, k: nat)
    requires v.Dict? && 0 < k <= |v.order| && v.order[k - 1] in v.entries
    ensures RefsInEntries(v, k) == RefsInEntries(v, k - 1) + Refs(v.entries[v.order[k - 1]])
  {
  }

  lemma {:induction false} FirstPair(js: map<string, Json>, order: seq<string>, k: nat, i: nat, kind: Kind, id: int)
    requires i < k <= |order| && order[i] in js && HasPair(js[order[i]], kind, id)
    ensures PairInFirst(js, order, k, kind, id)
  {
    if i < k - 1 {
      FirstPair(js, order, k - 1, i, kind, id);
    }
  }

  lemma {:induction false} PairFound(js: map<string, Json>, order: seq<string>, k: nat, kind: Kind, id: int)
    requires k <= |order| && PairInFirst(js, order, k, kind, id)
    ensures HasPair(JObject(js), kind, id)
  {
    if !(order[k - 1] in js && HasPair(js[order[k - 1]], kind, id)) {
      PairFound(js, order, k - 1, kind, id);
    }
  }

  lemma PairAmongFirst(js: map<string, Json>, order: seq<string>, kind: Kind, id: int)
    requires forall key :: key in js ==> key in order
    ensures HasPair(JObject(js), kind, id) <==> PairInFirst(js, order, |order|, kind, id)
  {
    if HasPair(JObject(js), kind, id) {
      var key :| key in js && HasPair(js[key], kind, id);
      var i :| 0 <= i < |order| && order[i] == key;
      FirstPair(js, order, |order|, i, kind, id);
    }
    if PairInFirst(js, order, |order|, kind, id) {
      PairFound(js, order, |order|, kind, id);
    }
  }

  lemma {:induction false} FirstPassed(vs: map<string, Value>, order: seq<string>, k: nat, i: nat, kind: Kind, id: int)
    requires i < k <= |order| && order[i] in vs && PassesOn(vs[order[i]], kind, id)
    ensures PassedInFirst(vs, order, k, kind, id)
  {
    if i < k - 1 {
      FirstPassed(vs, order, k - 1, i, kind, id);
    }
  }

  lemma {:induction false} PassedFound(v: Value, k: nat, kind: Kind, id: int)
    requires v.Dict? && k <= |v.order| && PassedInFirst(v.entries, v.order, k, kind, id)
    ensures PassesOn(v, kind, id)
  {
    if !(v.order[k - 1] in v.entries && PassesOn(v.entries[v.order[k - 1]], kind, id)) {
      PassedFound(v, k - 1, kind, id);
    }
  }

  lemma PassedAmongFirst(v: Value, kind: Kind, id: int)
    requires v.Dict? && forall key :: key in v.entries ==> key in v.order
    ensures PassesOn(v, kind, id) <==> PassedInFirst(v.entries, v.order, |v.order|, kind, id)
  {
    if PassesOn(v, kind, id) {
      var key :| key in v.entries && PassesOn(v.entries[key], kind, id);
      var i :| 0 <= i < |v.order| && v.order[i] == key;
      FirstPassed(v.entries, v.order, |v.order|, i, kind, id);
    }
    if PassedInFirst(v.entries, v.order, |v.order|, kind, id) {
      PassedFound(v, |v.order|, kind, id);
    }
  }

  lemma KeysInOrder(o: Options, v: Value, depth: nat, next: int, js: map<string, Json>)
    requires WellFormed(v) && v.Dict? && EncodeEntries(o, v, |v.order|, depth, next).entries == Some(js)
    ensures forall i :: 0 <= i < |v.order| ==> v.order[i] in js && v.order[i] in v.entries
    ensures forall key :: key in js || key in v.entries ==> key in v.order
  {
    EntriesShape(o, v, |v.order|, depth, next);
    assert v.order[..|v.order|] == v.order;
    forall i | 0 <= i < |v.order|
      ensures v.order[i] in js && v.order[i] in v.entries
    {
      assert v.order[i] in v.order;
    }
  }
}
