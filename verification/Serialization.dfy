/** Go values to tagged JSON trees and back (serialize.go, value_types.go). JSON text is below the level of this model. */
module Serialization {
  import opened Wrappers
  import opened Ints
  import opened TextCodecs

  /** Pointer-free values. order is the sequence in which the runtime's map range visits the keys: any permutation. */
  datatype Value =
    | Null
    | Bool(b: bool)
    | Number(x: real)
    | Text(s: string)
    | BigInt(n: int)
    | Date(nanos: int)                        // since the Unix epoch
    | Bytes(data: seq<byte>)
    | PlainError(message: string, stack: string)
    | RpcError(kind: string, message: string, code: int, stack: string)
    | List(items: seq<Value>)
    | Dict(entries: map<string, Value>, order: seq<string>)
    | Function(handle: nat)
    | Target(handle: nat)
    | StubRef(importID: Option<int>, exportID: Option<int>)
    | Unsupported                             // channels, complex numbers, byte arrays and the like

  datatype Json =
    | JNull
    | JBool(b: bool)
    | JNumber(x: real)
    | JString(s: string)
    | JArray(items: seq<Json>)
    | JObject(entries: map<string, Json>)

  /** What the deserialiser builds. */
  datatype Decoded =
    | DNull
    | DBool(b: bool)
    | DNumber(x: real)
    | DText(s: string)
    | DBigInt(n: int)
    | DDate(millis: int)
    | DBytes(data: seq<byte>)
    | DRpcError(kind: string, message: string, code: int, stack: string)
    | DError(message: string)
    | DInvalidError
    | DList(items: seq<Decoded>)
    | DDict(entries: map<string, Decoded>)
    | DStub(id: int, isPromise: bool)

  datatype Options = Options(maxDepth: int, includeStackTraces: bool, canExport: bool)

  // ---------------------------------------------------------------- encoding

  /** next is the session's export counter: encoding a reference exports it under the following id. */
  datatype Enc = Enc(json: Option<Json>, next: int)
  datatype EncItems = EncItems(items: Option<seq<Json>>, next: int)
  datatype EncEntries = EncEntries(entries: Option<map<string, Json>>, next: int)

  /** The seven reserved first elements of a tagged array. */
  datatype Tag = BigIntTag | DateTag | BytesTag | ErrorTag | ImportTag | ExportTag | PromiseTag

  function TagText(tag: Tag): string {
    match tag
    case BigIntTag => "bigint"
    case DateTag => "date"
    case BytesTag => "bytes"
    case ErrorTag => "error"
    case ImportTag => "import"
    case ExportTag => "export"
    case PromiseTag => "promise"
  }

  function TagOf(s: string): Option<Tag> {
    if s == "bigint" then Some(BigIntTag)
    else if s == "date" then Some(DateTag)
    else if s == "bytes" then Some(BytesTag)
    else if s == "error" then Some(ErrorTag)
    else if s == "import" then Some(ImportTag)
    else if s == "export" then Some(ExportTag)
    else if s == "promise" then Some(PromiseTag)
    else None
  }

  predicate IsReserved(s: string) {
    TagOf(s).Some?
  }

  lemma TagOfText(tag: Tag)
    ensures TagOf(TagText(tag)) == Some(tag)
  {
  }

  function Tagged(tag: Tag, value: Json): Json {
    JArray([JString(TagText(tag)), value])
  }

  function ErrorObject(kind: string, message: string, code: int, stack: Option<string>): Json {
    var base := map["name" := JString(kind), "message" := JString(message)];
    var coded := if code != 0 then base["code" := JNumber(code as real)] else base;
    JObject(if stack.Some? then coded["stack" := JString(stack.value)] else coded)
  }

  function Encode(o: Options, v: Value, depth: nat, next: int): (e: Enc)
    ensures e.next >= next
    decreases v, 1, 0
  {
    if depth > o.maxDepth then Enc(None, next)
    else if v.List? then
      var e := EncodeItems(o, v, |v.items|, depth, next);
      Enc(if e.items.None? then None else Some(JArray(e.items.value)), e.next)
    else if v.Dict? then
      var e := EncodeEntries(o, v, |v.order|, depth, next);
      Enc(if e.entries.None? then None else Some(JObject(e.entries.value)), e.next)
    else EncodeLeaf(o, v, next)
  }

  function EncodeLeaf(o: Options, v: Value, next: int): (e: Enc)
    requires !v.List? && !v.Dict?
    ensures e.next >= next
  {
    match v
    case Null => Enc(Some(JNull), next)
    case Bool(b) => Enc(Some(JBool(b)), next)
    case Number(x) => Enc(Some(JNumber(x)), next)
    case Text(s) => Enc(Some(JString(s)), next)
    case BigInt(n) => Enc(Some(Tagged(BigIntTag, JString(FormatInt(n)))), next)
    case Date(nanos) => Enc(Some(Tagged(DateTag, JNumber((nanos / 1_000_000) as real))), next)
    case Bytes(data) => Enc(Some(Tagged(BytesTag, JString(EncodeBase64(data)))), next)
    case PlainError(message, stack) =>
      Enc(Some(Tagged(ErrorTag, ErrorObject("Error", message, 0, if o.includeStackTraces then Some(stack) else None))), next)
    case RpcError(kind, message, code, stack) =>
      Enc(Some(Tagged(ErrorTag,
        ErrorObject(kind, message, code, if o.includeStackTraces && stack != "" then Some(stack) else None))), next)
    case Function(_) => EncodeReference(o, next)
    case Target(_) => EncodeReference(o, next)
    case StubRef(importID, exportID) =>
      if importID.Some? then Enc(Some(Tagged(ImportTag, JNumber(importID.value as real))), next)
      else if exportID.Some? then Enc(Some(Tagged(ExportTag, JNumber(exportID.value as real))), next)
      else Enc(None, next)
    case Unsupported => Enc(None, next)
  }

  function EncodeReference(o: Options, next: int): (e: Enc)
    ensures next <= e.next <= next + 1
  {
    if o.canExport then Enc(Some(Tagged(ExportTag, JNumber(Int32(next + 1) as real))), next + 1) else Enc(None, next)
  }

  /** The first k items, stopping at the first failure; what was exported by then stays exported. */
  function EncodeItems(o: Options, v: Value, k: nat, depth: nat, next: int): (e: EncItems)
    requires v.List? && k <= |v.items|
    ensures e.next >= next
    decreases v, 0, k
  {
    if k == 0 then EncItems(Some([]), next)
    else
      var front := EncodeItems(o, v, k - 1, depth, next);
      if front.items.None? then front
      else
        var last := Encode(o, v.items[k - 1], depth + 1, front.next);
        EncItems(if last.json.None? then None else Some(front.items.value + [last.json.value]), last.next)
  }

  function EncodeEntries(o: Options, v: Value, k: nat, depth: nat, next: int): (e: EncEntries)
    requires v.Dict? && k <= |v.order|
    ensures e.next >= next
    decreases v, 0, k
  {
    if k == 0 then EncEntries(Some(map[]), next)
    else
      var front := EncodeEntries(o, v, k - 1, depth, next);
      if front.entries.None? || v.order[k - 1] !in v.entries then EncEntries(None, front.next)
      else
        var last := Encode(o, v.entries[v.order[k - 1]], depth + 1, front.next);
        EncEntries(if last.json.None? then None else Some(front.entries.value[v.order[k - 1] := last.json.value]), last.next)
  }

  // ---------------------------------------------------------------- decoding

  predicate LooksTagged(items: seq<Json>) {
    |items| >= 2 && items[0].JString? && IsReserved(items[0].s)
  }

  /** Go's conversion of a float to an integer. */
  function Truncate(x: real): int {
    if x >= 0.0 then x.Floor else -((-x).Floor)
  }

  function Decode(j: Json): Option<Decoded> {
    match j
    case JNull => Some(DNull)
    case JBool(b) => Some(DBool(b))
    case JNumber(x) => Some(DNumber(x))
    case JString(s) => Some(DText(s))
    case JArray(items) =>
      if LooksTagged(items) then DecodeTagged(TagOf(items[0].s).value, items[1])
      else if forall i | 0 <= i < |items| :: Decode(items[i]).Some? then
        Some(DList(seq(|items|, i requires 0 <= i < |items| => Decode(items[i]).value)))
      else None
    case JObject(entries) =>
      if forall key | key in entries :: Decode(entries[key]).Some? then
        Some(DDict(map key | key in entries :: Decode(entries[key]).value))
      else None
  }

  function DecodeTagged(tag: Tag, value: Json): (r: Option<Decoded>)
    ensures r.Some? ==> !r.value.DList?
  {
    match tag
    case BigIntTag =>
      if !value.JString? then None
      else var n := ParseInt(value.s); if n.None? then None else Some(DBigInt(n.value))
    case DateTag =>
      if value.JNumber? then Some(DDate(Truncate(value.x))) else None
    case BytesTag =>
      if !value.JString? then None
      else var data := DecodeBase64(value.s); if data.None? then None else Some(DBytes(data.value))
    case ErrorTag => Some(DecodeError(value))
    case _ =>
      if value.JNumber? then Some(DStub(Int32(Truncate(value.x)), tag == PromiseTag)) else None
  }

  function StringAt(entries: map<string, Json>, key: string): Option<string> {
    if key in entries && entries[key].JString? then Some(entries[key].s) else None
  }

  function OrEmpty(s: Option<string>): string {
    if s.Some? then s.value else ""
  }

  function DecodeError(value: Json): (d: Decoded)
    ensures !d.DList?
  {
    if !value.JObject? then DInvalidError
    else
      var e := value.entries;
      if StringAt(e, "name").None? then DError(OrEmpty(StringAt(e, "message")))
      else
        DRpcError(StringAt(e, "name").value, OrEmpty(StringAt(e, "message")),
                  if "code" in e && e["code"].JNumber? then Truncate(e["code"].x) else 0,
                  OrEmpty(StringAt(e, "stack")))
  }

  // ---------------------------------------------------------------- what a value becomes

  ghost predicate WellFormed(v: Value) {
    match v
    case List(items) => forall i | 0 <= i < |items| :: WellFormed(items[i])
    case Dict(entries, order) =>
      && (forall key :: key in entries <==> key in order)
      && (forall i, j | 0 <= i < j < |order| :: order[i] != order[j])
      && (forall key | key in entries :: WellFormed(entries[key]))
    case _ => true
  }

  /** Some nested array of length 2 or more starts with one of the reserved tag strings. */
  predicate Ambiguous(v: Value) {
    match v
    case List(items) =>
      || (|items| >= 2 && items[0].Text? && IsReserved(items[0].s))
      || exists i | 0 <= i < |items| :: Ambiguous(items[i])
    case Dict(entries, _) => exists key | key in entries :: Ambiguous(entries[key])
    case _ => false
  }

  /** Every part has an encoding, depth aside. */
  predicate Supported(o: Options, v: Value) {
    match v
    case List(items) => forall i | 0 <= i < |items| :: Supported(o, items[i])
    case Dict(entries, _) => forall key | key in entries :: Supported(o, entries[key])
    case Function(_) => o.canExport
    case Target(_) => o.canExport
    case StubRef(importID, exportID) => importID.Some? || exportID.Some?
    case Unsupported => false
    case _ => true
  }

  /** A chain of n containers, each directly inside the one before, leads down from v to something. */
  predicate Nested(v: Value, n: nat) {
    n == 0 || (
      match v
      case List(items) => exists i | 0 <= i < |items| :: Nested(items[i], n - 1)
      case Dict(entries, _) => exists key | key in entries :: Nested(entries[key], n - 1)
      case _ => false)
  }

  /** How many functions and targets are in v: each takes one export id, in the order of the traversal. */
  function Refs(v: Value): nat
    decreases v, 1, 0
  {
    match v
    case List(items) => RefsInItems(v, |items|)
    case Dict(_, order) => RefsInEntries(v, |order|)
    case Function(_) => 1
    case Target(_) => 1
    case _ => 0
  }

  function RefsInItems(v: Value, k: nat): nat
    requires v.List? && k <= |v.items|
    decreases v, 0, k
  {
    if k == 0 then 0 else RefsInItems(v, k - 1) + Refs(v.items[k - 1])
  }

  function RefsInEntries(v: Value, k: nat): nat
    requires v.Dict? && k <= |v.order|
    decreases v, 0, k
  {
    if k == 0 then 0
    else RefsInEntries(v, k - 1) + if v.order[k - 1] in v.entries then Refs(v.entries[v.order[k - 1]]) else 0
  }

  /** The value as the other side sees it: dates to the millisecond, errors as RpcError, references as import stubs. */
  function Normalised(o: Options, v: Value, next: int): Decoded
    decreases v, 1, 0
  {
    if v.List? then DList(NormalisedItems(o, v, |v.items|, next))
    else if v.Dict? then DDict(NormalisedEntries(o, v, |v.order|, next))
    else NormalisedLeaf(o, v, next)
  }

  function NormalisedItems(o: Options, v: Value, k: nat, next: int): (ds: seq<Decoded>)
    requires v.List? && k <= |v.items|
    ensures |ds| == k
    decreases v, 0, k
  {
    if k == 0 then []
    else NormalisedItems(o, v, k - 1, next) + [Normalised(o, v.items[k - 1], next + RefsInItems(v, k - 1))]
  }

  function NormalisedEntries(o: Options, v: Value, k: nat, next: int): (ds: map<string, Decoded>)
    requires v.Dict? && k <= |v.order|
    decreases v, 0, k
  {
    if k == 0 then map[]
    else
      var front := NormalisedEntries(o, v, k - 1, next);
      if v.order[k - 1] !in v.entries then front
      else front[v.order[k - 1] := Normalised(o, v.entries[v.order[k - 1]], next + RefsInEntries(v, k - 1))]
  }

  function NormalisedLeaf(o: Options, v: Value, next: int): Decoded
    requires !v.List? && !v.Dict?
  {
    match v
    case Null => DNull
    case Bool(b) => DBool(b)
    case Number(x) => DNumber(x)
    case Text(s) => DText(s)
    case BigInt(n) => DBigInt(n)
    case Date(nanos) => DDate(nanos / 1_000_000)
    case Bytes(data) => DBytes(data)
    case PlainError(message, stack) => DRpcError("Error", message, 0, if o.includeStackTraces then stack else "")
    case RpcError(kind, message, code, stack) => DRpcError(kind, message, code, if o.includeStackTraces then stack else "")
    case Function(_) => DStub(Int32(next + 1), false)
    case Target(_) => DStub(Int32(next + 1), false)
    case StubRef(importID, exportID) =>
      DStub(Int32(if importID.Some? then importID.value else if exportID.Some? then exportID.value else 0), false)
    case Unsupported => DNull
  }

  // ---------------------------------------------------------------- when encoding fails

  ghost predicate TooDeep(o: Options, v: Value, depth: nat) {
    depth > o.maxDepth || Nested(v, o.maxDepth - depth + 1)
  }

  /** Serialisation fails exactly on unsupported parts and on values nested more deeply than the limit. */
  lemma {:induction false} EncodeFailsExactly(o: Options, v: Value, depth: nat, next: int)
    requires WellFormed(v)
    ensures Encode(o, v, depth, next).json.None? <==> !Supported(o, v) || TooDeep(o, v, depth)
    decreases v, 1, 0
  {
    if depth <= o.maxDepth {
      if v.List? {
        ListFailsExactly(o, v, depth, next);
      } else if v.Dict? {
        DictFailsExactly(o, v, depth, next);
      }
    }
  }

  lemma {:induction false} ListFailsExactly(o: Options, v: Value, depth: nat, next: int)
    requires WellFormed(v) && v.List? && depth <= o.maxDepth
    ensures Encode(o, v, depth, next).json.None? <==> !Supported(o, v) || TooDeep(o, v, depth)
    decreases v, 0, |v.items| + 1
  {
    EncodeItemsFailExactly(o, v, |v.items|, depth, next);
    if Encode(o, v, depth, next).json.None? && Supported(o, v) {
      var i :| 0 <= i < |v.items| && (!Supported(o, v.items[i]) || TooDeep(o, v.items[i], depth + 1));
      assert Nested(v.items[i], o.maxDepth - depth);
    }
  }

  lemma {:induction false} DictFailsExactly(o: Options, v: Value, depth: nat, next: int)
    requires WellFormed(v) && v.Dict? && depth <= o.maxDepth
    ensures Encode(o, v, depth, next).json.None? <==> !Supported(o, v) || TooDeep(o, v, depth)
    decreases v, 0, |v.order| + 1
  {
    EncodeEntriesFailExactly(o, v, |v.order|, depth, next);
    if Encode(o, v, depth, next).json.None? && Supported(o, v) {
      var i :| 0 <= i < |v.order| && (!Supported(o, v.entries[v.order[i]]) || TooDeep(o, v.entries[v.order[i]], depth + 1));
      assert Nested(v.entries[v.order[i]], o.maxDepth - depth);
    }
    if !Supported(o, v) || Nested(v, o.maxDepth - depth + 1) {
      var key :| key in v.entries && (!Supported(o, v.entries[key]) || Nested(v.entries[key], o.maxDepth - depth));
      var i :| 0 <= i < |v.order| && v.order[i] == key;
      assert !Supported(o, v.entries[v.order[i]]) || TooDeep(o, v.entries[v.order[i]], depth + 1);
    }
  }

  lemma {:induction false} EncodeItemsFailExactly(o: Options, v: Value, k: nat, depth: nat, next: int)
    requires WellFormed(v) && v.List? && k <= |v.items|
    ensures EncodeItems(o, v, k, depth, next).items.None?
      <==> exists i :: 0 <= i < k && (!Supported(o, v.items[i]) || TooDeep(o, v.items[i], depth + 1))
    decreases v, 0, k
  {
    if k > 0 {
      EncodeItemsFailExactly(o, v, k - 1, depth, next);
      EncodeFailsExactly(o, v.items[k - 1], depth + 1, EncodeItems(o, v, k - 1, depth, next).next);
    }
  }

  lemma {:induction false} EncodeEntriesFailExactly(o: Options, v: Value, k: nat, depth: nat, next: int)
    requires WellFormed(v) && v.Dict? && k <= |v.order|
    ensures EncodeEntries(o, v, k, depth, next).entries.None?
      <==> exists i :: 0 <= i < k && (!Supported(o, v.entries[v.order[i]]) || TooDeep(o, v.entries[v.order[i]], depth + 1))
    decreases v, 0, k
  {
    if k > 0 {
      assert v.order[k - 1] in v.order;
      EncodeEntriesFailExactly(o, v, k - 1, depth, next);
      EncodeFailsExactly(o, v.entries[v.order[k - 1]], depth + 1, EncodeEntries(o, v, k - 1, depth, next).next);
    }
  }

  // ---------------------------------------------------------------- the round trip

  /** A successful encoding issues exactly one export id for every function and target. */
  lemma {:induction false} EncodeCounts(o: Options, v: Value, depth: nat, next: int)
    requires Encode(o, v, depth, next).json.Some?
    ensures Encode(o, v, depth, next).next == next + Refs(v)
    decreases v, 1, 0
  {
    match v
    case List(items) => ItemsShape(o, v, |items|, depth, next);
    case Dict(entries, order) => EntriesShape(o, v, |order|, depth, next);
    case _ =>
  }

  lemma {:induction false} ItemsShape(o: Options, v: Value, k: nat, depth: nat, next: int)
    requires v.List? && k <= |v.items| && EncodeItems(o, v, k, depth, next).items.Some?
    ensures var e := EncodeItems(o, v, k, depth, next);
      e.next == next + RefsInItems(v, k) && |e.items.value| == k
    decreases v, 0, k
  {
    if k > 0 {
      ItemsShape(o, v, k - 1, depth, next);
      EncodeCounts(o, v.items[k - 1], depth + 1, next + RefsInItems(v, k - 1));
    }
  }

  lemma {:induction false} EntriesShape(o: Options, v: Value, k: nat, depth: nat, next: int)
    requires v.Dict? && k <= |v.order| && EncodeEntries(o, v, k, depth, next).entries.Some?
    ensures var e := EncodeEntries(o, v, k, depth, next);
      && e.next == next + RefsInEntries(v, k)
      && (forall key :: key in e.entries.value <==> key in v.order[..k])
    decreases v, 0, k
  {
    if k > 0 {
      EntriesShape(o, v, k - 1, depth, next);
      EncodeCounts(o, v.entries[v.order[k - 1]], depth + 1, next + RefsInEntries(v, k - 1));
      assert v.order[..k] == v.order[..k - 1] + [v.order[k - 1]];
    }
  }

  lemma OnlyTextBecomesString(o: Options, v: Value, depth: nat, next: int)
    requires Encode(o, v, depth, next).json.Some?
    ensures var j := Encode(o, v, depth, next).json.value;
      (j.JString? <==> v.Text?) && (v.Text? ==> j.s == v.s)
  {
  }

  lemma DecodeListAgrees(js: seq<Json>, ds: seq<Decoded>)
    requires |js| == |ds| && !LooksTagged(js)
    ensures Decode(JArray(js)) == Some(DList(ds)) <==> forall i :: 0 <= i < |js| ==> Decode(js[i]) == Some(ds[i])
  {
    if forall i :: 0 <= i < |js| ==> Decode(js[i]).Some? {
      var got := Decode(JArray(js)).value.items;
      assert forall i :: 0 <= i < |js| ==> Decode(js[i]) == Some(got[i]);
      assert got == ds <==> forall i :: 0 <= i < |js| ==> got[i] == ds[i];
    }
  }

  lemma ObjectEntries(js: map<string, Json>)
    requires Decode(JObject(js)).Some?
    ensures var d := Decode(JObject(js)).value;
      d.DDict? && d.entries.Keys == js.Keys && forall key :: key in js ==> Decode(js[key]) == Some(d.entries[key])
  {
  }

  lemma MapsAgree<K, V>(a: map<K, V>, b: map<K, V>)
    requires a.Keys == b.Keys
    ensures a == b <==> forall key :: key in a ==> a[key] == b[key]
  {
  }

  lemma DecodeObjectAgrees(js: map<string, Json>, ds: map<string, Decoded>)
    requires js.Keys == ds.Keys
    ensures Decode(JObject(js)) == Some(DDict(ds)) <==> forall key :: key in js ==> Decode(js[key]) == Some(ds[key])
  {
    if Decode(JObject(js)).Some? {
      ObjectEntries(js);
      MapsAgree(Decode(JObject(js)).value.entries, ds);
    }
  }

  lemma ErrorObjectDecodes(kind: string, message: string, code: int, stack: Option<string>)
    ensures DecodeError(ErrorObject(kind, message, code, stack)) == DRpcError(kind, message, code, OrEmpty(stack))
  {
    var keys := ["name", "message", "code", "stack"];
    assert |keys[0]| == 4 && |keys[1]| == 7 && |keys[2]| == 4 && |keys[3]| == 5;
    assert keys[0][0] == 'n' && keys[2][0] == 'c';
  }

  lemma TaggedDecodes(tag: Tag, value: Json)
    ensures Decode(Tagged(tag, value)) == DecodeTagged(tag, value)
  {
    TagOfText(tag);
  }

  lemma ReferenceDecodes(tag: Tag, id: int)
    requires tag in {ImportTag, ExportTag}
    ensures Decode(Tagged(tag, JNumber(id as real))) == Some(DStub(Int32(id), false))
  {
    TaggedDecodes(tag, JNumber(id as real));
  }

  lemma TextualRoundTrip(o: Options, v: Value, next: int)
    requires (v.BigInt? || v.Bytes? || v.Date?) && EncodeLeaf(o, v, next).json.Some?
    ensures Decode(EncodeLeaf(o, v, next).json.value) == Some(NormalisedLeaf(o, v, next))
  {
    match v
    case BigInt(n) =>
      TaggedDecodes(BigIntTag, JString(FormatInt(n)));
      ParseIntFormat(n);
    case Bytes(data) =>
      TaggedDecodes(BytesTag, JString(EncodeBase64(data)));
      DecodeBase64Encode(data);
    case Date(nanos) => TaggedDecodes(DateTag, JNumber((nanos / 1_000_000) as real));
  }

  lemma ErrorRoundTrip(o: Options, v: Value, next: int)
    requires (v.PlainError? || v.RpcError?) && EncodeLeaf(o, v, next).json.Some?
    ensures Decode(EncodeLeaf(o, v, next).json.value) == Some(NormalisedLeaf(o, v, next))
  {
    match v
    case PlainError(message, stack) =>
      var shown := if o.includeStackTraces then Some(stack) else None;
      TaggedDecodes(ErrorTag, ErrorObject("Error", message, 0, shown));
      ErrorObjectDecodes("Error", message, 0, shown);
    case RpcError(kind, message, code, stack) =>
      var shown := if o.includeStackTraces && stack != "" then Some(stack) else None;
      TaggedDecodes(ErrorTag, ErrorObject(kind, message, code, shown));
      ErrorObjectDecodes(kind, message, code, shown);
  }

  lemma LeafRoundTrip(o: Options, v: Value, next: int)
    requires !v.List? && !v.Dict? && EncodeLeaf(o, v, next).json.Some?
    ensures Decode(EncodeLeaf(o, v, next).json.value) == Some(NormalisedLeaf(o, v, next))
  {
    match v
    case BigInt(_) => TextualRoundTrip(o, v, next);
    case Bytes(_) => TextualRoundTrip(o, v, next);
    case Date(_) => TextualRoundTrip(o, v, next);
    case PlainError(_, _) => ErrorRoundTrip(o, v, next);
    case RpcError(_, _, _, _) => ErrorRoundTrip(o, v, next);
    case StubRef(importID, exportID) =>
      if importID.Some? { ReferenceDecodes(ImportTag, importID.value); } else { ReferenceDecodes(ExportTag, exportID.value); }
    case Function(_) => ReferenceDecodes(ExportTag, Int32(next + 1));
    case Target(_) => ReferenceDecodes(ExportTag, Int32(next + 1));
    case _ =>
  }

  /**
   * Deserialising what was serialised gives the normalised value if and only if no nested array of length 2 or more
   * starts with one of the seven reserved tags.
   */
  lemma {:induction false} RoundTrip(o: Options, v: Value, depth: nat, next: int, j: Json)
    requires WellFormed(v) && Encode(o, v, depth, next).json == Some(j)
    ensures Decode(j) == Some(Normalised(o, v, next)) <==> !Ambiguous(v)
    decreases v, 2, 0
  {
    if v.List? {
      ListRoundTrip(o, v, depth, next, j.items);
    } else if v.Dict? {
      DictRoundTrip(o, v, depth, next, j.entries);
    } else {
      LeafRoundTrip(o, v, next);
    }
  }

  lemma LastItem(o: Options, v: Value, k: nat, depth: nat, next: int, js: seq<Json>)
      returns (item: Value, fjs: seq<Json>, j: Json, start: int)
    requires v.List? && 0 < k <= |v.items| && EncodeItems(o, v, k, depth, next).items == Some(js)
    ensures item == v.items[k - 1] && start == next + RefsInItems(v, k - 1)
    ensures EncodeItems(o, v, k - 1, depth, next).items == Some(fjs) && |fjs| == k - 1 && js == fjs + [j]
    ensures Encode(o, item, depth + 1, start).json == Some(j)
  {
    var front := EncodeItems(o, v, k - 1, depth, next);
    ItemsShape(o, v, k - 1, depth, next);
    item, fjs, start := v.items[k - 1], front.items.value, front.next;
    j := Encode(o, item, depth + 1, start).json.value;
  }

  lemma {:induction false} ItemRoundTrip(o: Options, v: Value, k: nat, i: nat, depth: nat, next: int, js: seq<Json>, ds: seq<Decoded>)
    requires WellFormed(v) && v.List? && i < k <= |v.items| && EncodeItems(o, v, k, depth, next).items == Some(js)
    requires ds == NormalisedItems(o, v, k, next) && i < |js| && i < |ds|
    ensures Decode(js[i]) == Some(ds[i]) <==> !Ambiguous(v.items[i])
    decreases v, 0, k
  {
    var item, fjs, j, start := LastItem(o, v, k, depth, next, js);
    if i == k - 1 {
      RoundTrip(o, item, depth + 1, start, j);
    } else {
      ItemRoundTrip(o, v, k - 1, i, depth, next, fjs, NormalisedItems(o, v, k - 1, next));
    }
  }

  /** The first element of the array is a string exactly when the first item is that text. */
  lemma {:induction false} FirstItemText(o: Options, v: Value, k: nat, depth: nat, next: int, js: seq<Json>)
    requires v.List? && 0 < k <= |v.items| && EncodeItems(o, v, k, depth, next).items == Some(js)
    ensures js != [] && (js[0].JString? <==> v.items[0].Text?) && (js[0].JString? ==> js[0].s == v.items[0].s)
  {
    if k == 1 {
      OnlyTextBecomesString(o, v.items[0], depth + 1, next);
    } else {
      FirstItemText(o, v, k - 1, depth, next, EncodeItems(o, v, k - 1, depth, next).items.value);
    }
  }

  lemma {:induction false} ListRoundTrip(o: Options, v: Value, depth: nat, next: int, js: seq<Json>)
    requires WellFormed(v) && v.List? && Encode(o, v, depth, next).json == Some(JArray(js))
    ensures Decode(JArray(js)) == Some(Normalised(o, v, next)) <==> !Ambiguous(v)
    decreases v, 1, 0
  {
    var ds := NormalisedItems(o, v, |v.items|, next);
    ItemsShape(o, v, |v.items|, depth, next);
    forall i | 0 <= i < |js|
      ensures Decode(js[i]) == Some(ds[i]) <==> !Ambiguous(v.items[i])
    {
      ItemRoundTrip(o, v, |v.items|, i, depth, next, js, ds);
    }
    if js != [] {
      FirstItemText(o, v, |v.items|, depth, next, js);
    }
    assert LooksTagged(js) <==> |v.items| >= 2 && v.items[0].Text? && IsReserved(v.items[0].s);
    if !LooksTagged(js) {
      DecodeListAgrees(js, ds);
    }
  }

  lemma LastEntry(o: Options, v: Value, k: nat, depth: nat, next: int, js: map<string, Json>)
      returns (key: string, fjs: map<string, Json>, j: Json, start: int)
    requires v.Dict? && 0 < k <= |v.order| && EncodeEntries(o, v, k, depth, next).entries == Some(js)
    ensures key == v.order[k - 1] && key in v.entries && start == next + RefsInEntries(v, k - 1)
    ensures EncodeEntries(o, v, k - 1, depth, next).entries == Some(fjs) && js == fjs[key := j]
    ensures Encode(o, v.entries[key], depth + 1, start).json == Some(j)
  {
    var front := EncodeEntries(o, v, k - 1, depth, next);
    EntriesShape(o, v, k - 1, depth, next);
    key, fjs, start := v.order[k - 1], front.entries.value, front.next;
    j := Encode(o, v.entries[key], depth + 1, start).json.value;
  }

  lemma LastKey(v: Value, k: nat)
    requires WellFormed(v) && v.Dict? && 0 < k <= |v.order|
    ensures v.order[..k] == v.order[..k - 1] + [v.order[k - 1]] && v.order[k - 1] !in v.order[..k - 1]
    ensures v.order[k - 1] in v.entries && WellFormed(v.entries[v.order[k - 1]])
  {
    assert v.order[k - 1] in v.order;
  }

  lemma {:induction false} NormalisedKeys(o: Options, v: Value, k: nat, next: int, key: string)
    requires WellFormed(v) && v.Dict? && k <= |v.order|
    ensures key in NormalisedEntries(o, v, k, next) <==> key in v.order[..k]
  {
    if k > 0 {
      LastKey(v, k);
      NormalisedKeys(o, v, k - 1, next, key);
    }
  }

  lemma {:induction false} EntryRoundTrip(o: Options, v: Value, k: nat, key: string, depth: nat, next: int,
                                          js: map<string, Json>, ds: map<string, Decoded>)
    requires WellFormed(v) && v.Dict? && k <= |v.order| && EncodeEntries(o, v, k, depth, next).entries == Some(js)
    requires ds == NormalisedEntries(o, v, k, next) && key in js && key in ds && key in v.order[..k] && key in v.entries
    ensures Decode(js[key]) == Some(ds[key]) <==> !Ambiguous(v.entries[key])
    decreases v, 0, k
  {
    LastKey(v, k);
    var last, fjs, j, start := LastEntry(o, v, k, depth, next, js);
    if key == last {
      RoundTrip(o, v.entries[key], depth + 1, start, j);
    } else {
      EntryRoundTrip(o, v, k - 1, key, depth, next, fjs, NormalisedEntries(o, v, k - 1, next));
    }
  }

  lemma {:induction false} DictRoundTrip(o: Options, v: Value, depth: nat, next: int, js: map<string, Json>)
    requires WellFormed(v) && v.Dict? && Encode(o, v, depth, next).json == Some(JObject(js))
    ensures Decode(JObject(js)) == Some(Normalised(o, v, next)) <==> !Ambiguous(v)
    decreases v, 1, 0
  {
    var n, ds := |v.order|, NormalisedEntries(o, v, |v.order|, next);
    assert v.order[..n] == v.order;
    EntriesShape(o, v, n, depth, next);
    forall key: string ensures key in ds <==> key in js { NormalisedKeys(o, v, n, next, key); }
    forall key | key in js ensures key in v.entries && (Decode(js[key]) == Some(ds[key]) <==> !Ambiguous(v.entries[key])) {
      EntryRoundTrip(o, v, n, key, depth, next, js, ds);
    }
    assert js.Keys == ds.Keys;
    DecodeObjectAgrees(js, ds);
  }
}
