/** The serialiser, deserialiser and protocol at work on a session (serialize.go, protocol.go). */
module Codec {
  import opened Wrappers
  import opened Ints
  import opened References
  import opened Serialization
  import opened StubIds

  lemma {:induction false} ExportManyAdds(t: Tables, a: nat, b: nat)
    ensures ExportMany(ExportMany(t, a), b) == ExportMany(t, a + b)
  {
    if b > 0 {
      ExportManyAdds(t, a, b - 1);
    }
  }

  /** Nothing but exports of values happened in between, one for each id issued. */
  ghost predicate OnlyExported(before: Tables, after: Tables) {
    && after.nextExportID >= before.nextExportID
    && after == ExportMany(before, after.nextExportID - before.nextExportID)
  }

  lemma OnlyExportedTransitively(a: Tables, b: Tables, c: Tables)
    requires OnlyExported(a, b) && OnlyExported(b, c)
    ensures OnlyExported(a, c)
  {
    ExportManyAdds(a, b.nextExportID - a.nextExportID, c.nextExportID - b.nextExportID);
  }

  lemma ExportedOnce(t: Tables)
    ensures OnlyExported(t, Exported(t, false)) && OnlyExported(t, t)
  {
    assert ExportMany(t, 0) == t;
    assert ExportMany(t, 1) == Exported(t, false);
  }

  // ---------------------------------------------------------------- serialising

  class Serializer {
    const session: Session
    const options: Options

    constructor (session: Session, options: Options)
      ensures this.session == session && this.options == options
    {
      this.session, this.options := session, options;
    }

    /** The tree is the specified one, and the session has exported exactly as many references as ids were used, even on failure. */
    method SerializeWithDepth(v: Value, depth: nat) returns (r: Option<Json>)
      modifies session`exports, session`nextExportID, session`exportsActive
      ensures var e := Encode(options, v, depth, old(session.nextExportID));
        && r == e.json
        && session.nextExportID == e.next && OnlyExported(old(session.View()), session.View())
      decreases v, 1
    {
      ExportedOnce(session.View());
      if depth > options.maxDepth {
        return None;
      }
      if v.List? {
        var items := SerializeArray(v, depth);
        return if items.None? then None else Some(JArray(items.value));
      }
      if v.Dict? {
        var entries := SerializeMap(v, depth);
        return if entries.None? then None else Some(JObject(entries.value));
      }
      if v.Function? || v.Target? {
        if !options.canExport {
          return None;
        }
        var id := session.ExportValue(false);
        return Some(Tagged(ExportTag, JNumber(id as real)));
      }
      return EncodeLeaf(options, v, session.nextExportID).json;
    }

    method SerializeArray(v: Value, depth: nat) returns (r: Option<seq<Json>>)
      requires v.List?
      modifies session`exports, session`nextExportID, session`exportsActive
      ensures var e := EncodeItems(options, v, |v.items|, depth, old(session.nextExportID));
        && r == e.items
        && session.nextExportID == e.next && OnlyExported(old(session.View()), session.View())
      decreases v, 0
    {
      ghost var start, view := session.nextExportID, session.View();
      ExportedOnce(view);
      var result: seq<Json> := [];
      for i := 0 to |v.items|
        invariant EncodeItems(options, v, i, depth, start) == EncItems(Some(result), session.nextExportID)
        invariant OnlyExported(view, session.View())
      {
        ghost var before := session.View();
        var serialized := SerializeWithDepth(v.items[i], depth + 1);
        OnlyExportedTransitively(view, before, session.View());
        if serialized.None? {
          ItemsFailOnwards(options, v, i + 1, |v.items|, depth, start);
          return None;
        }
        result := result + [serialized.value];
      }
      return Some(result);
    }

    method SerializeMap(v: Value, depth: nat) returns (r: Option<map<string, Json>>)
      requires v.Dict?
      modifies session`exports, session`nextExportID, session`exportsActive
      ensures var e := EncodeEntries(options, v, |v.order|, depth, old(session.nextExportID));
        && r == e.entries
        && session.nextExportID == e.next && OnlyExported(old(session.View()), session.View())
      decreases v, 0
    {
      ghost var start, view := session.nextExportID, session.View();
      ExportedOnce(view);
      var result: map<string, Json> := map[];
      for i := 0 to |v.order|
        invariant EncodeEntries(options, v, i, depth, start) == EncEntries(Some(result), session.nextExportID)
        invariant OnlyExported(view, session.View())
      {
        if v.order[i] !in v.entries {
          EntriesFailOnwards(options, v, i + 1, |v.order|, depth, start);
          return None;
        }
        ghost var before := session.View();
        var serialized := SerializeWithDepth(v.entries[v.order[i]], depth + 1);
        OnlyExportedTransitively(view, before, session.View());
        if serialized.None? {
          EntriesFailOnwards(options, v, i + 1, |v.order|, depth, start);
          return None;
        }
        result := result[v.order[i] := serialized.value];
      }
      return Some(result);
    }
  }

  lemma {:induction false} ItemsFailOnwards(o: Options, v: Value, k: nat, n: nat, depth: nat, next: int)
    requires v.List? && k <= n <= |v.items| && EncodeItems(o, v, k, depth, next).items.None?
    ensures EncodeItems(o, v, n, depth, next) == EncodeItems(o, v, k, depth, next)
  {
    if k < n {
      ItemsFailOnwards(o, v, k, n - 1, depth, next);
    }
  }

  lemma {:induction false} EntriesFailOnwards(o: Options, v: Value, k: nat, n: nat, depth: nat, next: int)
    requires v.Dict? && k <= n <= |v.order| && EncodeEntries(o, v, k, depth, next).entries.None?
    ensures EncodeEntries(o, v, n, depth, next) == EncodeEntries(o, v, k, depth, next)
  {
    if k < n {
      EntriesFailOnwards(o, v, k, n - 1, depth, next);
    }
  }

  // ---------------------------------------------------------------- deserialising

  class Deserializer {
    const session: Session

    constructor (session: Session)
      ensures this.session == session
    {
      this.session := session;
    }

    /** ids are the imports made, on failure those made by then; on success they are the stubs of the result. */
    method DeserializeValue(j: Json) returns (r: Option<Decoded>, ghost ids: seq<int>)
      modifies session`imports, session`importsActive
      ensures r == Decode(j)
      ensures session.View() == ImportMany(old(session.View()), ids) && (r.Some? ==> Lists(ids, r.value))
      decreases j, 1
    {
      match j {
        case JArray(items) =>
          if LooksTagged(items) {
            r, ids := DeserializeArrayType(TagOf(items[0].s).value, items[1]);
          } else {
            r, ids := DeserializeArray(items);
          }
        case JObject(entries) => r, ids := DeserializeObject(entries);
        case _ => r, ids := Decode(j), [];
      }
    }

    method DeserializeArrayType(tag: Tag, value: Json) returns (r: Option<Decoded>, ghost ids: seq<int>)
      modifies session`imports, session`importsActive
      ensures r == DecodeTagged(tag, value)
      ensures session.View() == ImportMany(old(session.View()), ids) && (r.Some? ==> Lists(ids, r.value))
    {
      ids := [];
      if tag == ImportTag || tag == ExportTag || tag == PromiseTag {
        if !value.JNumber? {
          return None, [];
        }
        var id := Int32(Truncate(value.x));
        var stub := session.CreateImportStub(id);
        assert [id][..0] == [];
        return Some(DStub(id, tag == PromiseTag)), [id];
      }
      r := DecodeTagged(tag, value);
    }

    method DeserializeArray(items: seq<Json>) returns (r: Option<Decoded>, ghost ids: seq<int>)
      requires !LooksTagged(items)
      modifies session`imports, session`importsActive
      ensures r == Decode(JArray(items))
      ensures session.View() == ImportMany(old(session.View()), ids) && (r.Some? ==> Lists(ids, r.value))
      decreases JArray(items), 0
    {
      ids := [];
      ListsNothing();
      var result: seq<Decoded> := [];
      for i := 0 to |items|
        invariant |result| == i && forall k :: 0 <= k < i ==> Decode(items[k]) == Some(result[k])
        invariant session.View() == ImportMany(old(session.View()), ids) && Lists(ids, DList(result))
      {
        ghost var more: seq<int>;
        var deserialized: Option<Decoded>;
        deserialized, more := DeserializeValue(items[i]);
        ImportManyConcat(old(session.View()), ids, more);
        if deserialized.None? {
          return None, ids + more;
        }
        ListsItem(ids, result, more, deserialized.value);
        result, ids := result + [deserialized.value], ids + more;
      }
      DecodeListAgrees(items, result);
      return Some(DList(result)), ids;
    }

    method DeserializeObject(entries: map<string, Json>) returns (r: Option<Decoded>, ghost ids: seq<int>)
      modifies session`imports, session`importsActive
      ensures r == Decode(JObject(entries))
      ensures session.View() == ImportMany(old(session.View()), ids) && (r.Some? ==> Lists(ids, r.value))
      decreases JObject(entries), 0
    {
      ids := [];
      ListsNothing();
      var result: map<string, Decoded> := map[];
      var remaining := entries.Keys;
      while remaining != {}
        invariant remaining <= entries.Keys && result.Keys == entries.Keys - remaining
        invariant DecodedSoFar(entries, result)
        invariant session.View() == ImportMany(old(session.View()), ids) && Lists(ids, DDict(result))
        decreases remaining
      {
        var key :| key in remaining;
        remaining := remaining - {key};
        ghost var more: seq<int>;
        var deserialized: Option<Decoded>;
        deserialized, more := DeserializeValue(entries[key]);
        ImportManyConcat(old(session.View()), ids, more);
        if deserialized.None? {
          ObjectFails(entries, key);
          return None, ids + more;
        }
        ListsEntry(ids, result, key, more, deserialized.value);
        DecodedSoFarStep(entries, result, key, deserialized.value);
        result, ids := result[key := deserialized.value], ids + more;
      }
      DecodeObjectAgrees(entries, result);
      return Some(DDict(result)), ids;
    }
  }

  lemma ObjectFails(entries: map<string, Json>, key: string)
    requires key in entries && Decode(entries[key]).None?
    ensures Decode(JObject(entries)).None?
  {
  }

  ghost predicate DecodedSoFar(entries: map<string, Json>, result: map<string, Decoded>) {
    forall key :: key in result ==> key in entries && Decode(entries[key]) == Some(result[key])
  }

  lemma DecodedSoFarStep(entries: map<string, Json>, result: map<string, Decoded>, key: string, d: Decoded)
    requires DecodedSoFar(entries, result) && key in entries && Decode(entries[key]) == Some(d)
    ensures DecodedSoFar(entries, result[key := d])
  {
  }

  // ---------------------------------------------------------------- messages

  /** The least number of arguments after the message type; None for a type the protocol does not know. */
  function Arity(kind: string): Option<nat> {
    if kind == "push" || kind == "pull" || kind == "abort" then Some(1)
    else if kind == "resolve" || kind == "reject" || kind == "release" then Some(2)
    else None
  }

  predicate ValidMessage(items: seq<Json>) {
    items != [] && items[0].JString? && Arity(items[0].s).Some? && |items| - 1 >= Arity(items[0].s).value
  }

  /** The six message types and what must follow each: one argument for push, pull and abort, two for the others. */
  lemma ValidMessagesAre(items: seq<Json>)
    ensures ValidMessage(items) <==>
      || (|items| >= 2 && items[0] in {JString("push"), JString("pull"), JString("abort")})
      || (|items| >= 3 && items[0] in {JString("resolve"), JString("reject"), JString("release")})
  {
  }

  /** A nil argument bypasses the serialiser; any other starts at depth 0. */
  function EncodeArg(o: Options, arg: Value, next: int): (e: Enc)
    ensures e.next >= next
  {
    if arg == Null then Enc(Some(JNull), next) else Encode(o, arg, 0, next)
  }

  /** The first k arguments. */
  function EncodeArgs(o: Options, args: seq<Value>, k: nat, next: int): (e: EncItems)
    requires k <= |args|
    ensures e.next >= next
  {
    if k == 0 then EncItems(Some([]), next)
    else
      var front := EncodeArgs(o, args, k - 1, next);
      if front.items.None? then front
      else
        var last := EncodeArg(o, args[k - 1], front.next);
        EncItems(if last.json.None? then None else Some(front.items.value + [last.json.value]), last.next)
  }

  function NormalisedArgs(o: Options, args: seq<Value>, k: nat, next: int): (ds: seq<Decoded>)
    requires k <= |args|
  {
    if k == 0 then []
    else NormalisedArgs(o, args, k - 1, next) + [Normalised(o, args[k - 1], EncodeArgs(o, args, k - 1, next).next)]
  }

  datatype Decision = Rejected | Accepted(kind: string, args: seq<Decoded>)

  function DecodeAll(js: seq<Json>): Option<seq<Decoded>> {
    if js == [] then Some([])
    else
      var front := DecodeAll(js[..|js| - 1]);
      var last := Decode(js[|js| - 1]);
      if front.None? || last.None? then None else Some(front.value + [last.value])
  }

  function DecodedMessage(j: Json): Decision {
    if !j.JArray? || !ValidMessage(j.items) then Rejected
    else
      var args := DecodeAll(j.items[1..]);
      if args.None? then Rejected else Accepted(j.items[0].s, args.value)
  }

  /** An accepted message has its first element as the type and every further element, decoded, as an argument. */
  lemma AcceptedMessagesAre(j: Json, kind: string, args: seq<Decoded>)
    ensures DecodedMessage(j) == Accepted(kind, args)
      <==> && j.JArray? && ValidMessage(j.items) && j.items[0] == JString(kind) && |args| == |j.items| - 1
           && forall i :: 0 <= i < |args| ==> Decode(j.items[i + 1]) == Some(args[i])
  {
    if j.JArray? && ValidMessage(j.items) {
      var rest := j.items[1..];
      assert forall i :: 0 <= i < |rest| ==> rest[i] == j.items[i + 1];
      DecodeAllLength(rest);
      if |args| == |rest| {
        DecodeAllAgrees(rest, args);
      }
    }
  }

  lemma {:induction false} DecodeAllLength(js: seq<Json>)
    ensures DecodeAll(js).Some? ==> |DecodeAll(js).value| == |js|
  {
    if js != [] {
      DecodeAllLength(js[..|js| - 1]);
    }
  }

  /** Every argument is encoded on its own, after the exports of those before it; a nil argument is null. */
  lemma {:induction false} ArgumentsAre(o: Options, args: seq<Value>, k: nat, i: nat, next: int)
    requires i < k <= |args| && EncodeArgs(o, args, k, next).items.Some?
    ensures var js, start := EncodeArgs(o, args, k, next).items.value, EncodeArgs(o, args, i, next).next;
      && |js| == k
      && Some(js[i]) == if args[i] == Null then Some(JNull) else Encode(o, args[i], 0, start).json
  {
    if i < k - 1 {
      ArgumentsAre(o, args, k - 1, i, next);
    } else if k > 1 {
      ArgumentsAre(o, args, k - 1, 0, next);
    }
  }

  lemma {:induction false} DecodeAllAgrees(js: seq<Json>, ds: seq<Decoded>)
    requires |js| == |ds|
    ensures DecodeAll(js) == Some(ds) <==> forall i :: 0 <= i < |js| ==> Decode(js[i]) == Some(ds[i])
  {
    if js != [] {
      var last := |js| - 1;
      DecodeAllAgrees(js[..last], ds[..last]);
      assert ds == ds[..last] + [ds[last]];
      if DecodeAll(js) == Some(ds) {
        var front := DecodeAll(js[..last]).value;
        assert |front| == last && front == ds[..last];
      }
    }
  }

  /** Position by position, decoding gives the expected value exactly for the unambiguous originals. */
  ghost predicate Agree(js: seq<Json>, ds: seq<Decoded>, vs: seq<Value>) {
    && |js| == |ds| <= |vs|
    && forall i :: 0 <= i < |js| ==> (Decode(js[i]) == Some(ds[i]) <==> !Ambiguous(vs[i]))
  }

  lemma AgreeStep(js: seq<Json>, j: Json, ds: seq<Decoded>, d: Decoded, vs: seq<Value>)
    requires Agree(js, ds, vs) && |js| < |vs| && (Decode(j) == Some(d) <==> !Ambiguous(vs[|js|]))
    ensures Agree(js + [j], ds + [d], vs)
  {
  }

  lemma {:induction false} ArgsAgree(o: Options, args: seq<Value>, k: nat, next: int, js: seq<Json>)
    requires k <= |args| && (forall i :: 0 <= i < |args| ==> WellFormed(args[i]))
    requires EncodeArgs(o, args, k, next).items == Some(js)
    ensures Agree(js, NormalisedArgs(o, args, k, next), args) && |js| == k
  {
    if k > 0 {
      var front, arg := EncodeArgs(o, args, k - 1, next), args[k - 1];
      ArgsAgree(o, args, k - 1, next, front.items.value);
      if arg != Null {
        RoundTrip(o, arg, 0, front.next, js[k - 1]);
      }
      AgreeStep(front.items.value, js[k - 1], NormalisedArgs(o, args, k - 1, next), Normalised(o, arg, front.next), args);
    }
  }

  lemma ValidWhen(kind: string, js: seq<Json>)
    ensures ValidMessage([JString(kind)] + js) <==> Arity(kind).Some? && |js| >= Arity(kind).value
  {
  }

  /**
   * What the receiver decodes is the sender's message, normalised, if and only if the type is known, has its arguments,
   * and no argument is ambiguous.
   */
  lemma MessageRoundTrip(o: Options, kind: string, args: seq<Value>, next: int, js: seq<Json>)
    requires forall i :: 0 <= i < |args| ==> WellFormed(args[i])
    requires EncodeArgs(o, args, |args|, next).items == Some(js)
    ensures DecodedMessage(JArray([JString(kind)] + js)) == Accepted(kind, NormalisedArgs(o, args, |args|, next))
      <==> && Arity(kind).Some? && |args| >= Arity(kind).value
           && forall i :: 0 <= i < |args| ==> !Ambiguous(args[i])
  {
    var ds := NormalisedArgs(o, args, |args|, next);
    ArgsAgree(o, args, |args|, next, js);
    DecodeAllAgrees(js, ds);
    assert ([JString(kind)] + js)[1..] == js;
    ValidWhen(kind, js);
  }

  /** The stubs of the arguments have exactly the ids issued while they were encoded. */
  lemma {:induction false} ArgsSpan(o: Options, args: seq<Value>, k: nat, next: int)
    requires k <= |args| && forall i :: 0 <= i < |args| ==> WellFormed(args[i]) && OnlyFresh(args[i])
    requires EncodeArgs(o, args, k, next).items.Some? && 0 <= next && EncodeArgs(o, args, k, next).next <= MAX_INT32
    ensures Spans(DList(NormalisedArgs(o, args, k, next)), next, EncodeArgs(o, args, k, next).next)
  {
    SpansNothing(next);
    if k > 0 {
      var arg, front, start := args[k - 1], NormalisedArgs(o, args, k - 1, next), EncodeArgs(o, args, k - 1, next).next;
      ArgsSpan(o, args, k - 1, next);
      ArgCounts(o, arg, start);
      StubsAreFresh(o, arg, start);
      SpansItem(front, Normalised(o, arg, start), next, start, start + Refs(arg));
    }
  }

  lemma ArgCounts(o: Options, arg: Value, next: int)
    requires EncodeArg(o, arg, next).json.Some?
    ensures EncodeArg(o, arg, next).next == next + Refs(arg)
  {
    if arg != Null {
      EncodeCounts(o, arg, 0, next);
    }
  }

  /**
   * What the sender exports for a message is what the receiver imports: decoding the normalised arguments leaves the
   * receiver's tables as importing the sender's fresh ids would, which is how the two-party runs take a message.
   */
  lemma MessageCarriesFreshIds(o: Options, args: seq<Value>, sender: Tables, receiver: Tables, ids: seq<int>)
    requires forall i :: 0 <= i < |args| ==> WellFormed(args[i]) && OnlyFresh(args[i])
    requires var e := EncodeArgs(o, args, |args|, sender.nextExportID); e.items.Some? && e.next <= MAX_INT32
    requires 0 <= sender.nextExportID && Lists(ids, DList(NormalisedArgs(o, args, |args|, sender.nextExportID)))
    ensures var n := EncodeArgs(o, args, |args|, sender.nextExportID).next - sender.nextExportID;
      ImportMany(receiver, ids) == ImportMany(receiver, FreshIds(sender, n))
  {
    var first := sender.nextExportID;
    ArgsSpan(o, args, |args|, first);
    ImportsAreTheExports(sender, receiver, EncodeArgs(o, args, |args|, first).next - first, ids,
                         DList(NormalisedArgs(o, args, |args|, first)));
  }

  const MAX_MESSAGE_SIZE: nat := 64 * 1024 * 1024

  /** A message before encoding: nothing at all, or its type and arguments. */
  datatype Outgoing = NoMessage | Outgoing(kind: string, args: seq<Value>)

  /** textSize is the length of a tree's JSON text. */
  class Protocol {
    const serializer: Serializer
    const deserializer: Deserializer
    const textSize: Json -> nat

    constructor (session: Session, options: Options, textSize: Json -> nat)
      ensures fresh(serializer) && serializer.session == session && serializer.options == options
      ensures fresh(deserializer) && deserializer.session == session && this.textSize == textSize
    {
      var s := new Serializer(session, options);
      var d := new Deserializer(session);
      serializer, deserializer, this.textSize := s, d, textSize;
    }

    /** Fails on the empty message, on an argument that fails, and on text over the limit, whose exports remain. */
    method EncodeMessage(msg: Outgoing) returns (r: Option<Json>)
      modifies serializer.session`exports, serializer.session`nextExportID, serializer.session`exportsActive
      ensures msg.NoMessage? ==> r.None? && serializer.session.View() == old(serializer.session.View())
      ensures msg.Outgoing? ==>
        var e := EncodeArgs(serializer.options, msg.args, |msg.args|, old(serializer.session.nextExportID));
        && r == WithinSize(e, msg.kind, textSize)
        && (r.Some? <==> e.items.Some? && textSize(JArray([JString(msg.kind)] + e.items.value)) <= MAX_MESSAGE_SIZE)
        && (r.Some? ==> r.value == JArray([JString(msg.kind)] + e.items.value))
        && serializer.session.nextExportID == e.next
        && OnlyExported(old(serializer.session.View()), serializer.session.View())
    {
      if msg.NoMessage? {
        return None;
      }
      var items := EncodeArguments(msg.args);
      if items.None? {
        return None;
      }
      var j := JArray([JString(msg.kind)] + items.value);
      return if textSize(j) > MAX_MESSAGE_SIZE then None else Some(j);
    }

    method EncodeArguments(args: seq<Value>) returns (r: Option<seq<Json>>)
      modifies serializer.session`exports, serializer.session`nextExportID, serializer.session`exportsActive
      ensures var e := EncodeArgs(serializer.options, args, |args|, old(serializer.session.nextExportID));
        && r == e.items && serializer.session.nextExportID == e.next
        && OnlyExported(old(serializer.session.View()), serializer.session.View())
    {
      ghost var start, view := serializer.session.nextExportID, serializer.session.View();
      ExportedOnce(view);
      var encoded: seq<Json> := [];
      for i := 0 to |args|
        invariant EncodeArgs(serializer.options, args, i, start) == EncItems(Some(encoded), serializer.session.nextExportID)
        invariant OnlyExported(view, serializer.session.View())
      {
        ghost var before := serializer.session.View();
        var arg := EncodeArgument(args[i]);
        OnlyExportedTransitively(view, before, serializer.session.View());
        if arg.None? {
          ArgsFailOnwards(serializer.options, args, i + 1, |args|, start);
          return None;
        }
        encoded := encoded + [arg.value];
      }
      return Some(encoded);
    }

    method EncodeArgument(arg: Value) returns (r: Option<Json>)
      modifies serializer.session`exports, serializer.session`nextExportID, serializer.session`exportsActive
      ensures var e := EncodeArg(serializer.options, arg, old(serializer.session.nextExportID));
        && r == e.json && serializer.session.nextExportID == e.next
        && OnlyExported(old(serializer.session.View()), serializer.session.View())
    {
      if arg == Null {
        ExportedOnce(serializer.session.View());
        return Some(JNull);
      }
      r := serializer.SerializeWithDepth(arg, 0);
    }

    /** size is the length of the text received; the imports made stay even when a later argument fails. */
    method DecodeMessage(j: Json, size: nat) returns (r: Decision, ghost ids: seq<int>)
      modifies deserializer.session`imports, deserializer.session`importsActive
      ensures r == if size > MAX_MESSAGE_SIZE then Rejected else DecodedMessage(j)
      ensures deserializer.session.View() == ImportMany(old(deserializer.session.View()), ids)
      ensures r.Accepted? ==> Lists(ids, DList(r.args))
      ensures size > MAX_MESSAGE_SIZE || !j.JArray? || !ValidMessage(j.items) ==> ids == []
    {
      ids := [];
      if size > MAX_MESSAGE_SIZE {
        return Rejected, [];
      }
      if !j.JArray? || !ValidMessage(j.items) {
        return Rejected, [];
      }
      var args: Option<seq<Decoded>>;
      args, ids := DecodeArguments(j.items[1..]);
      return if args.None? then Rejected else Accepted(j.items[0].s, args.value), ids;
    }

    method DecodeArguments(items: seq<Json>) returns (r: Option<seq<Decoded>>, ghost ids: seq<int>)
      modifies deserializer.session`imports, deserializer.session`importsActive
      ensures r == DecodeAll(items)
      ensures deserializer.session.View() == ImportMany(old(deserializer.session.View()), ids)
      ensures r.Some? ==> Lists(ids, DList(r.value))
    {
      ids := [];
      ListsNothing();
      var args: seq<Decoded> := [];
      for i := 0 to |items|
        invariant DecodeAll(items[..i]) == Some(args)
        invariant deserializer.session.View() == ImportMany(old(deserializer.session.View()), ids) && Lists(ids, DList(args))
      {
        assert items[..i + 1][..i] == items[..i];
        ghost var more: seq<int>;
        var deserialized: Option<Decoded>;
        deserialized, more := deserializer.DeserializeValue(items[i]);
        ImportManyConcat(old(deserializer.session.View()), ids, more);
        if deserialized.None? {
          DecodeAllFails(items, i + 1);
          return None, ids + more;
        }
        ListsItem(ids, args, more, deserialized.value);
        args, ids := args + [deserialized.value], ids + more;
      }
      assert items[..|items|] == items;
      return Some(args), ids;
    }
  }

  function WithinSize(e: EncItems, kind: string, textSize: Json -> nat): Option<Json> {
    if e.items.None? then None
    else
      var j := JArray([JString(kind)] + e.items.value);
      if textSize(j) > MAX_MESSAGE_SIZE then None else Some(j)
  }

  lemma {:induction false} DecodeAllFails(js: seq<Json>, k: nat)
    requires k <= |js| && DecodeAll(js[..k]).None?
    ensures DecodeAll(js).None?
    decreases |js|
  {
    if k < |js| {
      assert js[..|js| - 1][..k] == js[..k];
      DecodeAllFails(js[..|js| - 1], k);
    } else {
      assert js[..k] == js;
    }
  }

  lemma {:induction false} ArgsFailOnwards(o: Options, args: seq<Value>, k: nat, n: nat, next: int)
    requires k <= n <= |args| && EncodeArgs(o, args, k, next).items.None?
    ensures EncodeArgs(o, args, n, next) == EncodeArgs(o, args, k, next)
  {
    if k < n {
      ArgsFailOnwards(o, args, k, n - 1, next);
    }
  }
}
