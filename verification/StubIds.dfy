/** Which import stubs a decoded value holds, and which export ids they come from (serialize.go, session.go). */
module StubIds {
  import opened Wrappers
  import opened Ints
  import opened Sequences
  import opened References
  import opened Serialization

  /** Some stub in the decoded value has this import id. */
  ghost predicate MakesStub(d: Decoded, id: int) {
    match d
    case DStub(stubID, _) => stubID == id
    case DList(items) => exists i | 0 <= i < |items| :: MakesStub(items[i], id)
    case DDict(entries) => exists key | key in entries :: MakesStub(entries[key], id)
    case _ => false
  }

  /** No two stubs in the decoded value have the same id. */
  ghost predicate NoRepeats(d: Decoded) {
    match d
    case DList(items) =>
      && (forall i | 0 <= i < |items| :: NoRepeats(items[i]))
      && (forall i, j, id | 0 <= i < j < |items| :: !(MakesStub(items[i], id) && MakesStub(items[j], id)))
    case DDict(entries) =>
      && (forall key | key in entries :: NoRepeats(entries[key]))
      && (forall k, l, id | k in entries && l in entries && k != l :: !(MakesStub(entries[k], id) && MakesStub(entries[l], id)))
    case _ => true
  }

  // ---------------------------------------------------------------- one more item or entry

  lemma ItemStubs(front: seq<Decoded>, d: Decoded, id: int)
    ensures MakesStub(DList(front + [d]), id) <==> MakesStub(DList(front), id) || MakesStub(d, id)
  {
    var all := front + [d];
    if MakesStub(DList(front), id) {
      var i :| 0 <= i < |front| && MakesStub(front[i], id);
      assert all[i] == front[i];
    }
    if MakesStub(d, id) {
      assert all[|front|] == d;
    }
  }

  lemma EntryStubs(front: map<string, Decoded>, key: string, d: Decoded, id: int)
    requires key !in front
    ensures MakesStub(DDict(front[key := d]), id) <==> MakesStub(DDict(front), id) || MakesStub(d, id)
  {
    var all := front[key := d];
    if MakesStub(DDict(front), id) {
      var k :| k in front && MakesStub(front[k], id);
      assert all[k] == front[k];
    }
    if MakesStub(d, id) {
      assert all[key] == d;
    }
  }

  ghost predicate Disjoint(a: Decoded, b: Decoded) {
    forall id :: !(MakesStub(a, id) && MakesStub(b, id))
  }

  lemma ItemRepeats(front: seq<Decoded>, d: Decoded)
    ensures NoRepeats(DList(front + [d])) <==> NoRepeats(DList(front)) && NoRepeats(d) && Disjoint(DList(front), d)
  {
    var all := front + [d];
    if NoRepeats(DList(all)) {
      ItemRepeatsBackwards(front, d);
    }
    if NoRepeats(DList(front)) && NoRepeats(d) && Disjoint(DList(front), d) {
      forall i, j, id | 0 <= i < j < |all|
        ensures !(MakesStub(all[i], id) && MakesStub(all[j], id))
      {
        if j == |front| && MakesStub(all[i], id) {
          assert MakesStub(DList(front), id);
        }
      }
    }
  }

  lemma ItemRepeatsBackwards(front: seq<Decoded>, d: Decoded)
    requires NoRepeats(DList(front + [d]))
    ensures NoRepeats(DList(front)) && NoRepeats(d) && Disjoint(DList(front), d)
  {
    var all := front + [d];
    assert all[|front|] == d && forall i :: 0 <= i < |front| ==> all[i] == front[i];
    forall i, j, id | 0 <= i < j < |front|
      ensures !(MakesStub(front[i], id) && MakesStub(front[j], id))
    {
      assert all[i] == front[i] && all[j] == front[j];
    }
    forall id
      ensures !(MakesStub(DList(front), id) && MakesStub(d, id))
    {
      if MakesStub(DList(front), id) {
        var i :| 0 <= i < |front| && MakesStub(front[i], id);
        assert MakesStub(all[i], id);
      }
    }
  }

  lemma EntryRepeats(front: map<string, Decoded>, key: string, d: Decoded)
    requires key !in front
    ensures NoRepeats(DDict(front[key := d])) <==> NoRepeats(DDict(front)) && NoRepeats(d) && Disjoint(DDict(front), d)
  {
    var all := front[key := d];
    assert all[key] == d && forall k :: k in front ==> k in all && all[k] == front[k];
    if NoRepeats(DDict(all)) {
      EntryRepeatsBackwards(front, key, d);
    }
    if NoRepeats(DDict(front)) && NoRepeats(d) && Disjoint(DDict(front), d) {
      forall k, l, id | k in all && l in all && k != l
        ensures !(MakesStub(all[k], id) && MakesStub(all[l], id))
      {
        if l == key && MakesStub(all[k], id) {
          assert MakesStub(DDict(front), id);
        }
        if k == key && MakesStub(all[l], id) {
          assert MakesStub(DDict(front), id);
        }
      }
    }
  }

  lemma EntryRepeatsBackwards(front: map<string, Decoded>, key: string, d: Decoded)
    requires key !in front && NoRepeats(DDict(front[key := d]))
    ensures NoRepeats(DDict(front)) && NoRepeats(d) && Disjoint(DDict(front), d)
  {
    var all := front[key := d];
    assert all[key] == d && forall k :: k in front ==> k in all && all[k] == front[k];
    forall k, l, id | k in front && l in front && k != l
      ensures !(MakesStub(front[k], id) && MakesStub(front[l], id))
    {
      assert !(MakesStub(all[k], id) && MakesStub(all[l], id));
    }
    forall id
      ensures !(MakesStub(DDict(front), id) && MakesStub(d, id))
    {
      if MakesStub(DDict(front), id) {
        var k :| k in front && MakesStub(front[k], id);
        assert !(MakesStub(all[k], id) && MakesStub(all[key], id));
      }
    }
  }

  // ---------------------------------------------------------------- what decoding imports

  /** ids are the stubs of d: all of them, no others, and each once if d repeats none. */
  ghost predicate Lists(ids: seq<int>, d: Decoded) {
    && (forall id :: id in ids <==> MakesStub(d, id))
    && (NoRepeats(d) ==> Distinct(ids))
  }

  lemma ListsNothing()
    ensures Lists([], DList([])) && Lists([], DDict(map[]))
  {
  }

  lemma ListsItem(ids: seq<int>, front: seq<Decoded>, more: seq<int>, d: Decoded)
    requires Lists(ids, DList(front)) && Lists(more, d)
    ensures Lists(ids + more, DList(front + [d]))
  {
    forall id: int
      ensures id in ids + more <==> MakesStub(DList(front + [d]), id)
    {
      ItemStubs(front, d, id);
    }
    ItemRepeats(front, d);
    if NoRepeats(DList(front + [d])) {
      ListsDistinct(ids, DList(front), more, d);
    }
  }

  lemma ListsEntry(ids: seq<int>, front: map<string, Decoded>, key: string, more: seq<int>, d: Decoded)
    requires Lists(ids, DDict(front)) && Lists(more, d) && key !in front
    ensures Lists(ids + more, DDict(front[key := d]))
  {
    forall id: int
      ensures id in ids + more <==> MakesStub(DDict(front[key := d]), id)
    {
      EntryStubs(front, key, d, id);
    }
    EntryRepeats(front, key, d);
    if NoRepeats(DDict(front[key := d])) {
      ListsDistinct(ids, DDict(front), more, d);
    }
  }

  lemma ListsDistinct(ids: seq<int>, c: Decoded, more: seq<int>, d: Decoded)
    requires Lists(ids, c) && Lists(more, d) && NoRepeats(c) && NoRepeats(d) && Disjoint(c, d)
    ensures Distinct(ids + more)
  {
    forall id | id in ids
      ensures id !in more
    {
      assert MakesStub(c, id);
    }
    DistinctAppend(ids, more);
  }

  lemma {:induction false} ImportManyConcat(t: Tables, ids: seq<int>, more: seq<int>)
    ensures ImportMany(ImportMany(t, ids), more) == ImportMany(t, ids + more)
  {
    if more == [] {
      assert ids + more == ids;
    } else {
      assert (ids + more)[..|ids + more| - 1] == ids + more[..|more| - 1];
      ImportManyConcat(t, ids, more[..|more| - 1]);
    }
  }

  lemma {:induction false} ImportManyEntries(t: Tables, ids: seq<int>)
    ensures var u := ImportMany(t, ids);
      && u == t.(imports := u.imports, importsActive := t.importsActive + |ids|)
      && (forall id :: id in u.imports <==> id in t.imports || id in ids)
      && (forall id :: id in u.imports ==> u.imports[id] == if id in ids then 1 else t.imports[id])
  {
    if ids != [] {
      assert ids == ids[..|ids| - 1] + [ids[|ids| - 1]];
      ImportManyEntries(t, ids[..|ids| - 1]);
    }
  }

  /** The order of the imports does not matter. */
  lemma ImportManyReordered(t: Tables, ids: seq<int>, others: seq<int>)
    requires |ids| == |others| && forall id :: id in ids <==> id in others
    ensures ImportMany(t, ids) == ImportMany(t, others)
  {
    ImportManyEntries(t, ids);
    ImportManyEntries(t, others);
    var a, b := ImportMany(t, ids).imports, ImportMany(t, others).imports;
    assert forall id :: id in a <==> id in b;
    assert forall id :: id in a ==> a[id] == b[id];
    assert a == b;
  }

  // ---------------------------------------------------------------- what encoding exported

  /** No stub is being passed on: the references in v are functions and targets only. */
  predicate OnlyFresh(v: Value) {
    match v
    case List(items) => forall i | 0 <= i < |items| :: OnlyFresh(items[i])
    case Dict(entries, _) => forall key | key in entries :: OnlyFresh(entries[key])
    case StubRef(_, _) => false
    case _ => true
  }

  /** The stubs of d have exactly the ids after a, up to and including b, and each only once. */
  ghost predicate Spans(d: Decoded, a: int, b: int) {
    NoRepeats(d) && forall id :: MakesStub(d, id) <==> a < id <= b
  }

  lemma SpansItem(front: seq<Decoded>, d: Decoded, a: int, b: int, c: int)
    requires Spans(DList(front), a, b) && Spans(d, b, c) && a <= b <= c
    ensures Spans(DList(front + [d]), a, c)
  {
    var whole := DList(front + [d]);
    forall id: int
      ensures MakesStub(whole, id) <==> a < id <= c
    {
      ItemStubs(front, d, id);
    }
    ItemRepeats(front, d);
  }

  lemma SpansEntry(front: map<string, Decoded>, key: string, d: Decoded, a: int, b: int, c: int)
    requires Spans(DDict(front), a, b) && Spans(d, b, c) && a <= b <= c && key !in front
    ensures Spans(DDict(front[key := d]), a, c)
  {
    var whole := DDict(front[key := d]);
    forall id: int
      ensures MakesStub(whole, id) <==> a < id <= c
    {
      EntryStubs(front, key, d, id);
    }
    EntryRepeats(front, key, d);
  }

  lemma SpansNothing(a: int)
    ensures Spans(DList([]), a, a) && Spans(DDict(map[]), a, a)
  {
  }

  lemma LeafSpans(o: Options, v: Value, next: int)
    requires !v.List? && !v.Dict? && OnlyFresh(v) && 0 <= next && next + Refs(v) <= MAX_INT32
    ensures Spans(NormalisedLeaf(o, v, next), next, next + Refs(v))
  {
  }

  /**
   * The other side's stubs have exactly the ids issued while the value was encoded, each once. As in the two-party runs,
   * these are the first 2^31 - 1 ids.
   */
  lemma {:induction false} StubsAreFresh(o: Options, v: Value, next: int)
    requires WellFormed(v) && OnlyFresh(v) && 0 <= next && next + Refs(v) <= MAX_INT32
    ensures Spans(Normalised(o, v, next), next, next + Refs(v))
    decreases v, 1, 0
  {
    if v.List? {
      FreshItems(o, v, |v.items|, next);
    } else if v.Dict? {
      FreshEntries(o, v, |v.order|, next);
    } else {
      LeafSpans(o, v, next);
    }
  }

  lemma {:induction false} FreshItems(o: Options, v: Value, k: nat, next: int)
    requires WellFormed(v) && OnlyFresh(v) && v.List? && k <= |v.items|
    requires 0 <= next && next + RefsInItems(v, k) <= MAX_INT32
    ensures Spans(DList(NormalisedItems(o, v, k, next)), next, next + RefsInItems(v, k))
    decreases v, 0, k
  {
    SpansNothing(next);
    if k > 0 {
      var start := next + RefsInItems(v, k - 1);
      FreshItems(o, v, k - 1, next);
      StubsAreFresh(o, v.items[k - 1], start);
      SpansItem(NormalisedItems(o, v, k - 1, next), Normalised(o, v.items[k - 1], start), next, start, start + Refs(v.items[k - 1]));
    }
  }

  lemma {:induction false} FreshEntries(o: Options, v: Value, k: nat, next: int)
    requires WellFormed(v) && OnlyFresh(v) && v.Dict? && k <= |v.order|
    requires 0 <= next && next + RefsInEntries(v, k) <= MAX_INT32
    ensures Spans(DDict(NormalisedEntries(o, v, k, next)), next, next + RefsInEntries(v, k))
    decreases v, 0, k
  {
    SpansNothing(next);
    if k > 0 {
      var front, key, d, start := LastNormalised(o, v, k, next);
      FreshEntries(o, v, k - 1, next);
      StubsAreFresh(o, v.entries[key], start);
      SpansEntry(front, key, d, next, start, start + Refs(v.entries[key]));
    }
  }

  lemma LastEntryNormalised(o: Options, v: Value, k: nat, next: int)
    requires v.Dict? && 0 < k <= |v.order| && v.order[k - 1] in v.entries
    ensures var key, start := v.order[k - 1], next + RefsInEntries(v, k - 1);
      && NormalisedEntries(o, v, k, next) == NormalisedEntries(o, v, k - 1, next)[key := Normalised(o, v.entries[key], start)]
      && next + RefsInEntries(v, k) == start + Refs(v.entries[key])
  {
  }

  lemma LastKeyIsNew(o: Options, v: Value, k: nat, next: int)
    requires WellFormed(v) && v.Dict? && 0 < k <= |v.order|
    ensures v.order[k - 1] !in NormalisedEntries(o, v, k - 1, next)
    ensures v.order[k - 1] in v.entries && WellFormed(v.entries[v.order[k - 1]])
  {
    LastKey(v, k);
    NormalisedKeys(o, v, k - 1, next, v.order[k - 1]);
  }

  lemma LastNormalised(o: Options, v: Value, k: nat, next: int)
      returns (front: map<string, Decoded>, key: string, d: Decoded, start: int)
    requires WellFormed(v) && v.Dict? && 0 < k <= |v.order|
    ensures key == v.order[k - 1] && key in v.entries && WellFormed(v.entries[key]) && key !in front
    ensures start == next + RefsInEntries(v, k - 1) && next + RefsInEntries(v, k) == start + Refs(v.entries[key])
    ensures front == NormalisedEntries(o, v, k - 1, next) && d == Normalised(o, v.entries[key], start)
    ensures NormalisedEntries(o, v, k, next) == front[key := d]
  {
    LastKeyIsNew(o, v, k, next);
    key, start := v.order[k - 1], next + RefsInEntries(v, k - 1);
    LastEntryNormalised(o, v, k, next);
    front, d := NormalisedEntries(o, v, k - 1, next), Normalised(o, v.entries[key], start);
  }

  // ---------------------------------------------------------------- from one session's exports to the other's imports

  lemma {:induction false} FreshIdsAre(t: Tables, n: nat)
    requires 0 <= t.nextExportID && t.nextExportID + n <= MAX_INT32
    ensures |FreshIds(t, n)| == n && forall i :: 0 <= i < n ==> FreshIds(t, n)[i] == t.nextExportID + 1 + i
  {
    if n > 0 {
      FreshIdsAre(t, n - 1);
      ExportManyGrows(t, n - 1);
    }
  }

  /** Importing the stubs of a value that spans the sender's fresh ids is importing these ids. */
  lemma ImportsAreTheExports(sender: Tables, receiver: Tables, n: nat, ids: seq<int>, d: Decoded)
    requires 0 <= sender.nextExportID && sender.nextExportID + n <= MAX_INT32
    requires Lists(ids, d) && Spans(d, sender.nextExportID, sender.nextExportID + n)
    ensures ImportMany(receiver, ids) == ImportMany(receiver, FreshIds(sender, n))
  {
    var first := sender.nextExportID;
    FreshIdsAre(sender, n);
    DistinctRange(ids, first, first + n);
    forall id
      ensures id in ids <==> id in FreshIds(sender, n)
    {
      if first < id <= first + n {
        assert FreshIds(sender, n)[id - first - 1] == id;
      }
    }
    ImportManyReordered(receiver, ids, FreshIds(sender, n));
  }

  /** A plain array that starts with a tag is no reference to its sender and becomes one all the same. */
  lemma PlainArrayBecomesStub(o: Options, id: int, depth: nat, next: int)
    requires depth < o.maxDepth
    ensures var v := List([Text("export"), Number(id as real)]);
      && OnlyFresh(v) && Refs(v) == 0
      && Encode(o, v, depth, next).json.Some? && Decode(Encode(o, v, depth, next).json.value) == Some(DStub(Int32(id), false))
  {
    var v := List([Text("export"), Number(id as real)]);
    var tag, number := JString("export"), JNumber(id as real);
    assert Encode(o, v.items[0], depth + 1, next) == Enc(Some(tag), next);
    assert Encode(o, v.items[1], depth + 1, next) == Enc(Some(number), next);
    assert EncodeItems(o, v, 0, depth, next) == EncItems(Some([]), next);
    assert [] + [tag] == [tag] && [tag] + [number] == [tag, number];
    assert EncodeItems(o, v, 1, depth, next) == EncItems(Some([tag]), next);
    assert EncodeItems(o, v, 2, depth, next) == EncItems(Some([tag, number]), next);
    assert Refs(v.items[0]) == 0 && Refs(v.items[1]) == 0;
    assert RefsInItems(v, 0) == 0;
    assert RefsInItems(v, 1) == 0;
    assert RefsInItems(v, 2) == 0;
    ReferenceDecodes(ExportTag, id);
  }
}
