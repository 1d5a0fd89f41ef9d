/** Two sessions joined by a FIFO transport: which exports live, and how long (session.go, stub.go, transport_memory.go). */
module ReferenceProtocol {
  import opened Ints
  import opened References

  /**
   * A disposal is three critical sections: the flag is claimed, the release is handed to the transport,
   * the local table is updated. Other threads may act in between.
   */
  datatype Phase = Live | Claimed | Notified | Done

  /**
   * counted: the stub was decoded, or cloned while the import entry existed, and so has its share in the entry's
   * RefCount; a stub derived by a property access has none. sent: the transport accepted its release.
   */
  datatype Stub = Stub(id: int, counted: bool, phase: Phase, refs: int, sent: bool)

  datatype Party = Party(tables: Tables, stubs: seq<Stub>, inbox: seq<Message>)

  datatype World = World(left: Party, right: Party)

  /** accepted is the transport's answer: it refuses when closed, full until the context ends, or over its size limit. */
  datatype Action =
    | SendValues(references: nat, accepted: bool)   // a message with so many functions and targets in it
    | StartCall(references: nat, accepted: bool)    // the same as a call's arguments, after a placeholder for its result;
                                                    // StartCall(0, false) is the placeholder alone, when others come in between
    | SendPull(id: int, accepted: bool)
    | Deliver(open: bool, accepted: bool)           // handle the oldest message; both are about the reply to a pull
    | CloneStub(stub: nat)
    | DeriveStub(stub: nat)                         // property access: shares the id, takes no count
    | AddRef(stub: nat)
    | DropRef(stub: nat)                            // StubImpl.Release: claims the flag once the count is used up
    | Claim(stub: nat)
    | Notify(stub: nat, accepted: bool)
    | Forget(stub: nat)

  datatype Turn = Turn(byLeft: bool, action: Action)

  // ---------------------------------------------------------------- steps

  /** A decoded stub is built without newStub, so its own count starts at zero. */
  function DecodedStubs(ids: seq<int>): seq<Stub> {
    seq(|ids|, i requires 0 <= i < |ids| => Stub(ids[i], true, Live, 0, false))
  }

  function Enqueue(p: Party, m: Message, accepted: bool): Party {
    if accepted then p.(inbox := p.inbox + [m]) else p
  }

  function SendReferences(me: Party, peer: Party, n: nat, accepted: bool): (Party, Party) {
    (me.(tables := ExportMany(me.tables, n)), Enqueue(peer, Data(FreshIds(me.tables, n)), accepted))
  }

  /** A closed session does not even encode the reply to a pull. */
  function Handle(me: Party, peer: Party, m: Message, open: bool, accepted: bool): (Party, Party) {
    match m
    case Data(ids) => (me.(tables := ImportMany(me.tables, ids), stubs := me.stubs + DecodedStubs(ids)), peer)
    case Release(id, count) => (me.(tables := Released(me.tables, id, count)), peer)
    case Pull(id) =>
      if !open then (me, peer)
      else SendReferences(me, peer, PullExports(me.tables, id), accepted)
  }

  function SetStub(p: Party, i: nat, s: Stub): Party
    requires i < |p.stubs|
  {
    p.(stubs := p.stubs[i := s])
  }

  function Share(p: Party, id: int, counted: bool): Party {
    p.(tables := if counted then Referenced(p.tables, id) else p.tables,
       stubs := p.stubs + [Stub(id, counted, Live, 1, false)])
  }

  function Act(me: Party, peer: Party, a: Action): (Party, Party) {
    match a
    case SendValues(n, ok) => SendReferences(me, peer, n, ok)
    case StartCall(n, ok) => SendReferences(me.(tables := Exported(me.tables, true)), peer, n, ok)
    case SendPull(id, ok) => (me, Enqueue(peer, Pull(id), ok))
    case Deliver(open, ok) =>
      if me.inbox == [] then (me, peer) else Handle(me.(inbox := me.inbox[1..]), peer, me.inbox[0], open, ok)
    case CloneStub(i) =>
      if i >= |me.stubs| || me.stubs[i].phase != Live then (me, peer)
      else (Share(me, me.stubs[i].id, me.stubs[i].id in me.tables.imports), peer)
    case DeriveStub(i) =>
      if i >= |me.stubs| || me.stubs[i].phase != Live then (me, peer)
      else (Share(me, me.stubs[i].id, false), peer)
    case AddRef(i) =>
      if i >= |me.stubs| then (me, peer)
      else (SetStub(me, i, me.stubs[i].(refs := Int32(me.stubs[i].refs + 1))), peer)
    case DropRef(i) =>
      if i >= |me.stubs| then (me, peer)
      else
        var s := me.stubs[i].(refs := Int32(me.stubs[i].refs - 1));
        (SetStub(me, i, if s.refs <= 0 && s.phase == Live then s.(phase := Claimed) else s), peer)
    case Claim(i) =>
      if i >= |me.stubs| || me.stubs[i].phase != Live then (me, peer)
      else (SetStub(me, i, me.stubs[i].(phase := Claimed)), peer)
    case Notify(i, ok) =>
      if i >= |me.stubs| || me.stubs[i].phase != Claimed then (me, peer)
      else (SetStub(me, i, me.stubs[i].(phase := Notified, sent := ok)), Enqueue(peer, Release(me.stubs[i].id, 1), ok))
    case Forget(i) =>
      if i >= |me.stubs| || me.stubs[i].phase != Notified then (me, peer)
      else (SetStub(me, i, me.stubs[i].(phase := Done)).(tables := Unreferenced(me.tables, me.stubs[i].id)), peer)
  }

  function Step(w: World, t: Turn): World {
    if t.byLeft then var (me, peer) := Act(w.left, w.right, t.action); World(me, peer)
    else var (me, peer) := Act(w.right, w.left, t.action); World(peer, me)
  }

  const NEW_PARTY := Party(EMPTY_TABLES, [], [])

  function Run(turns: seq<Turn>): World {
    if turns == [] then World(NEW_PARTY, NEW_PARTY)
    else Step(Run(turns[..|turns| - 1]), turns[|turns| - 1])
  }

  // ---------------------------------------------------------------- counting messages and stubs

  function Occurrences(ids: seq<int>, id: int): nat {
    if ids == [] then 0 else Occurrences(ids[..|ids| - 1], id) + (if ids[|ids| - 1] == id then 1 else 0)
  }

  function Carried(m: Message, id: int): nat {
    if m.Data? then Occurrences(m.ids, id) else 0
  }

  /** How many times the queued messages carry an id as an export. */
  function InTransit(q: seq<Message>, id: int): nat {
    if q == [] then 0 else InTransit(q[..|q| - 1], id) + Carried(q[|q| - 1], id)
  }

  function ReleaseOf(m: Message, id: int): nat {
    if m.Release? && m.id == id then 1 else 0
  }

  function Releases(q: seq<Message>, id: int): nat {
    if q == [] then 0 else Releases(q[..|q| - 1], id) + ReleaseOf(q[|q| - 1], id)
  }

  datatype Test = Any | Sent | Holding | Stray

  /** Holding stubs account for the import entry's RefCount; stray ones took a count that was never theirs. */
  predicate Passes(s: Stub, test: Test) {
    match test
    case Any => true
    case Sent => s.sent
    case Holding => s.counted && s.phase != Done
    case Stray => !s.counted && s.phase == Done
  }

  /** How many stubs of an id pass a test. */
  function Count(stubs: seq<Stub>, id: int, test: Test): (n: nat)
    ensures n <= |stubs|
  {
    if stubs == [] then 0
    else Count(stubs[..|stubs| - 1], id, test) + (if stubs[|stubs| - 1].id == id && Passes(stubs[|stubs| - 1], test) then 1 else 0)
  }

  lemma {:induction false} QueueFront(q: seq<Message>, id: int)
    requires q != []
    ensures InTransit(q, id) == Carried(q[0], id) + InTransit(q[1..], id)
    ensures Releases(q, id) == ReleaseOf(q[0], id) + Releases(q[1..], id)
  {
    if |q| > 1 {
      QueueFront(q[..|q| - 1], id);
      assert q[..|q| - 1][1..] == q[1..][..|q| - 2];
    }
  }

  lemma QueueBack(q: seq<Message>, m: Message, id: int)
    ensures InTransit(q + [m], id) == InTransit(q, id) + Carried(m, id)
    ensures Releases(q + [m], id) == Releases(q, id) + ReleaseOf(m, id)
  {
    assert (q + [m])[..|q|] == q;
  }

  lemma {:induction false} CountAppend(stubs: seq<Stub>, more: seq<Stub>, id: int, test: Test)
    ensures Count(stubs + more, id, test) == Count(stubs, id, test) + Count(more, id, test)
  {
    if more == [] {
      assert stubs + more == stubs;
    } else {
      CountAppend(stubs, more[..|more| - 1], id, test);
      assert (stubs + more)[..|stubs + more| - 1] == stubs + more[..|more| - 1];
    }
  }

  lemma {:induction false} CountUpdate(stubs: seq<Stub>, i: nat, s: Stub, id: int, test: Test)
    requires i < |stubs| && s.id == stubs[i].id
    ensures Count(stubs[i := s], id, test)
         == Count(stubs, id, test)
          - (if s.id == id && Passes(stubs[i], test) then 1 else 0) + (if s.id == id && Passes(s, test) then 1 else 0)
  {
    var last := |stubs| - 1;
    if i < last {
      CountUpdate(stubs[..last], i, s, id, test);
      assert stubs[i := s][..last] == stubs[..last][i := s];
    } else {
      assert stubs[i := s][..last] == stubs[..last];
    }
  }

  lemma {:induction false} CountWitness(stubs: seq<Stub>, id: int, test: Test)
    ensures Count(stubs, id, test) > 0 <==> exists s :: s in stubs && s.id == id && Passes(s, test)
  {
    if stubs != [] {
      CountWitness(stubs[..|stubs| - 1], id, test);
      assert stubs == stubs[..|stubs| - 1] + [stubs[|stubs| - 1]];
    }
  }

  lemma {:induction false} CountMonotone(stubs: seq<Stub>, id: int, few: Test, many: Test)
    requires forall s :: Passes(s, few) ==> Passes(s, many)
    ensures Count(stubs, id, few) <= Count(stubs, id, many)
  {
    if stubs != [] {
      CountMonotone(stubs[..|stubs| - 1], id, few, many);
    }
  }

  // ---------------------------------------------------------------- what every step keeps

  predicate Issued(x: Party, id: int) {
    1 <= id <= x.tables.nextExportID
  }

  /** Everything both sides know about one id that x exports and y imports. */
  datatype Ledger = Ledger(issued: bool, held: bool, transit: nat, stubs: nat, sent: nat, releases: nat)

  function LedgerOf(x: Party, y: Party, id: int): Ledger {
    Ledger(Issued(x, id), id in x.tables.exports, InTransit(y.inbox, id),
           Count(y.stubs, id, Any), Count(y.stubs, id, Sent), Releases(x.inbox, id))
  }

  /** The last clause is the heart: an issued id is held exactly as long as every release sent for it is still under way. */
  predicate Balanced(l: Ledger) {
    && l.transit <= 1
    && (l.held || l.transit > 0 || l.stubs > 0 ==> l.issued)
    && (l.transit > 0 ==> l.stubs == 0)
    && l.releases <= l.sent <= l.stubs
    && (l.issued ==> (l.held <==> l.releases == l.sent))
  }

  ghost predicate Half(x: Party, y: Party) {
    forall id :: Balanced(LedgerOf(x, y, id))
  }

  /** The import entry's RefCount is the number of stubs that hold on to the id, unless a stray disposal took one away. */
  ghost predicate CountedExactly(y: Party, id: int) {
    var n := Count(y.stubs, id, Holding);
    && (id in y.tables.imports <==> n > 0)
    && (id in y.tables.imports ==> y.tables.imports[id] == n)
  }

  ghost predicate LocalAt(y: Party, id: int) {
    && (id in y.tables.imports ==> Count(y.stubs, id, Any) > 0)
    && (Count(y.stubs, id, Stray) == 0 ==> CountedExactly(y, id))
  }

  ghost predicate Local(y: Party) {
    forall id :: LocalAt(y, id)
  }

  ghost predicate Tidy(p: Party) {
    && p.tables.nextExportID >= 0
    && p.tables.exportsActive == |p.tables.exports|
    && p.tables.importsActive == |p.tables.imports|
    && (forall id :: id in p.tables.exports ==> p.tables.exports[id].refCount == 1)
    && (forall m :: m in p.inbox && m.Release? ==> m.count == 1)
    && (forall s :: s in p.stubs && s.sent ==> s.phase in {Notified, Done})
  }

  ghost predicate Good(me: Party, peer: Party) {
    && Half(me, peer) && Half(peer, me)
    && Local(me) && Local(peer)
    && Tidy(me) && Tidy(peer)
  }

  /** Identifiers and reference counts are int32; beyond that they wrap around. */
  predicate Bounded(p: Party) {
    p.tables.nextExportID <= MAX_INT32 && |p.stubs| <= MAX_INT32
  }

  // ---------------------------------------------------------------- exporting and sending

  lemma ExportBalances(x: Party, y: Party, placeholder: bool, id: int)
    requires Tidy(x) && x.tables.nextExportID + 1 <= MAX_INT32
    requires Balanced(LedgerOf(x, y, id))
    ensures Balanced(LedgerOf(x.(tables := Exported(x.tables, placeholder)), y, id))
  {
  }

  lemma ExportIsTidy(x: Party, placeholder: bool)
    requires Tidy(x) && x.tables.nextExportID + 1 <= MAX_INT32 && x.tables.nextExportID + 1 !in x.tables.exports
    ensures Tidy(x.(tables := Exported(x.tables, placeholder)))
    ensures FreshId(x.tables) == x.tables.nextExportID + 1
  {
    var fresh' := x.tables.nextExportID + 1;
    var exports' := x.tables.exports[fresh' := ExportEntry(1, placeholder)];
    assert exports'.Keys == x.tables.exports.Keys + {fresh'};
    assert |exports'| == |x.tables.exports| + 1;
    assert Exported(x.tables, placeholder).exports == exports';
  }

  lemma ExportKeepsHalf(x: Party, y: Party, placeholder: bool)
    requires Tidy(x) && Half(x, y) && x.tables.nextExportID + 1 <= MAX_INT32
    ensures Tidy(x.(tables := Exported(x.tables, placeholder))) && Half(x.(tables := Exported(x.tables, placeholder)), y)
    ensures FreshId(x.tables) == x.tables.nextExportID + 1
  {
    assert !LedgerOf(x, y, x.tables.nextExportID + 1).held;
    ExportIsTidy(x, placeholder);
    forall id
      ensures Balanced(LedgerOf(x.(tables := Exported(x.tables, placeholder)), y, id))
    {
      ExportBalances(x, y, placeholder, id);
    }
  }

  lemma {:induction false} ExportManyIsTidy(x: Party, y: Party, n: nat)
    requires Tidy(x) && Half(x, y) && x.tables.nextExportID + n <= MAX_INT32
    ensures var t := ExportMany(x.tables, n);
      && Tidy(x.(tables := t)) && Half(x.(tables := t), y)
      && t.nextExportID == x.tables.nextExportID + n
      && t.imports == x.tables.imports && t.importsActive == x.tables.importsActive
    ensures FreshIds(x.tables, n) == seq(n, i => x.tables.nextExportID + 1 + i)
  {
    if n > 0 {
      ExportManyIsTidy(x, y, n - 1);
      ExportKeepsHalf(x.(tables := ExportMany(x.tables, n - 1)), y, false);
    }
  }

  lemma {:induction false} Ascending(first: int, n: nat, id: int)
    ensures Occurrences(seq(n, i => first + i), id) == if first <= id < first + n then 1 else 0
  {
    if n > 0 {
      Ascending(first, n - 1, id);
      assert seq(n, i => first + i)[..n - 1] == seq(n - 1, i => first + i);
    }
  }

  lemma EnqueueFrame(p: Party, m: Message)
    requires Tidy(p) && (m.Release? ==> m.count == 1)
    ensures Tidy(p.(inbox := p.inbox + [m]))
  {
  }

  lemma SendKeepsGood(me: Party, peer: Party, n: nat, accepted: bool)
    requires Good(me, peer) && me.tables.nextExportID + n <= MAX_INT32
    ensures var (me', peer') := SendReferences(me, peer, n, accepted); Good(me', peer')
  {
    ExportManyIsTidy(me, peer, n);
    var ids := FreshIds(me.tables, n);
    var first := me.tables.nextExportID + 1;
    EnqueueFrame(peer, Data(ids));
    var (me', peer') := SendReferences(me, peer, n, accepted);
    forall id
      ensures Balanced(LedgerOf(me', peer', id)) && Balanced(LedgerOf(peer', me', id))
      ensures LocalAt(me', id) && LocalAt(peer', id)
    {
      Ascending(first, n, id);
      QueueBack(peer.inbox, Data(ids), id);
      assert Balanced(LedgerOf(me, peer, id)) && Balanced(LedgerOf(peer, me, id));
      assert Balanced(LedgerOf(me', peer, id));
      assert LocalAt(me, id) && LocalAt(peer, id);
    }
  }

  lemma PullKeepsGood(me: Party, peer: Party, pulled: int)
    requires Good(me, peer)
    ensures Good(me, peer.(inbox := peer.inbox + [Pull(pulled)]))
  {
    EnqueueFrame(peer, Pull(pulled));
    var peer' := peer.(inbox := peer.inbox + [Pull(pulled)]);
    forall id
      ensures Balanced(LedgerOf(me, peer', id)) && Balanced(LedgerOf(peer', me, id)) && LocalAt(peer', id)
    {
      QueueBack(peer.inbox, Pull(pulled), id);
      assert Balanced(LedgerOf(me, peer, id)) && Balanced(LedgerOf(peer, me, id)) && LocalAt(peer, id);
    }
  }

  // ---------------------------------------------------------------- receiving

  lemma {:induction false} DecodedCounts(ids: seq<int>, id: int)
    ensures Count(DecodedStubs(ids), id, Any) == Occurrences(ids, id) == Count(DecodedStubs(ids), id, Holding)
    ensures Count(DecodedStubs(ids), id, Sent) == 0 == Count(DecodedStubs(ids), id, Stray)
  {
    if ids != [] {
      var last := |ids| - 1;
      DecodedCounts(ids[..last], id);
      assert DecodedStubs(ids)[..last] == DecodedStubs(ids[..last]);
      assert ids == ids[..last] + [ids[last]];
    }
  }

  lemma {:induction false} OccursWhenListed(ids: seq<int>, id: int)
    ensures Occurrences(ids, id) > 0 <==> id in ids
  {
    if ids != [] {
      OccursWhenListed(ids[..|ids| - 1], id);
      assert ids == ids[..|ids| - 1] + [ids[|ids| - 1]];
    }
  }

  lemma {:induction false} ImportManyTables(t: Tables, ids: seq<int>)
    requires forall id :: Occurrences(ids, id) <= 1
    requires forall id :: id in ids ==> id !in t.imports
    requires t.importsActive == |t.imports|
    ensures var u := ImportMany(t, ids);
      && u.importsActive == |u.imports|
      && u == t.(imports := u.imports, importsActive := u.importsActive)
      && (forall id :: id in u.imports <==> id in t.imports || id in ids)
      && (forall id :: id in t.imports ==> u.imports[id] == t.imports[id])
      && (forall id :: id in ids ==> u.imports[id] == 1)
  {
    if ids != [] {
      var rest, last := ids[..|ids| - 1], ids[|ids| - 1];
      assert ids == rest + [last];
      forall id
        ensures Occurrences(rest, id) <= 1
      {
        assert Occurrences(ids, id) <= 1;
      }
      assert last !in rest by {
        assert Occurrences(ids, last) <= 1;
        OccursWhenListed(rest, last);
      }
      ImportManyTables(t, rest);
      var u := ImportMany(t, rest);
      assert u.imports[last := 1].Keys == u.imports.Keys + {last};
    }
  }

  lemma DeliverDataBalances(me: Party, peer: Party, id: int)
    requires me.inbox != [] && me.inbox[0].Data?
    requires Balanced(LedgerOf(peer, me, id)) && Balanced(LedgerOf(me, peer, id)) && LocalAt(me, id)
    ensures var ids := me.inbox[0].ids;
      var me' := Party(ImportMany(me.tables, ids), me.stubs + DecodedStubs(ids), me.inbox[1..]);
      && Balanced(LedgerOf(peer, me', id))
      && LedgerOf(me, peer, id) == LedgerOf(me.(inbox := me'.inbox), peer, id)
      && Occurrences(ids, id) == (if id in ids then 1 else 0)
      && (id in ids ==> Count(me.stubs, id, Any) == 0 && id !in me.tables.imports)
      && (forall test :: Count(me'.stubs, id, test) == Count(me.stubs, id, test) + Count(DecodedStubs(ids), id, test))
  {
    var ids := me.inbox[0].ids;
    QueueFront(me.inbox, id);
    OccursWhenListed(ids, id);
    forall test
      ensures Count(me.stubs + DecodedStubs(ids), id, test) == Count(me.stubs, id, test) + Count(DecodedStubs(ids), id, test)
    {
      CountAppend(me.stubs, DecodedStubs(ids), id, test);
    }
    DecodedCounts(ids, id);
  }

  lemma DeliverDataKeepsGood(me: Party, peer: Party)
    requires Good(me, peer) && me.inbox != [] && me.inbox[0].Data?
    ensures var ids := me.inbox[0].ids;
      Good(Party(ImportMany(me.tables, ids), me.stubs + DecodedStubs(ids), me.inbox[1..]), peer)
  {
    var ids := me.inbox[0].ids;
    var me' := Party(ImportMany(me.tables, ids), me.stubs + DecodedStubs(ids), me.inbox[1..]);
    forall id
      ensures Occurrences(ids, id) <= 1 && (id in ids ==> id !in me.tables.imports)
    {
      assert Balanced(LedgerOf(peer, me, id)) && Balanced(LedgerOf(me, peer, id)) && LocalAt(me, id);
      DeliverDataBalances(me, peer, id);
    }
    ImportManyTables(me.tables, ids);
    forall id
      ensures Balanced(LedgerOf(peer, me', id)) && Balanced(LedgerOf(me', peer, id)) && LocalAt(me', id)
    {
      assert Balanced(LedgerOf(peer, me, id)) && Balanced(LedgerOf(me, peer, id)) && LocalAt(me, id);
      DeliverDataBalances(me, peer, id);
      assert LedgerOf(me', peer, id) == LedgerOf(me, peer, id);
      DecodedCounts(ids, id);
      CountMonotone(me.stubs, id, Holding, Any);
    }
  }

  lemma DeliverReleaseKeepsGood(me: Party, peer: Party)
    requires Good(me, peer) && me.inbox != [] && me.inbox[0].Release?
    ensures Good(me.(tables := Released(me.tables, me.inbox[0].id, me.inbox[0].count), inbox := me.inbox[1..]), peer)
  {
    var gone := me.inbox[0].id;
    assert me.inbox[0] in me.inbox;
    var me' := me.(tables := Released(me.tables, gone, 1), inbox := me.inbox[1..]);
    if gone in me.tables.exports {
      assert me'.tables.exports == me.tables.exports - {gone};
      assert (me.tables.exports - {gone}).Keys == me.tables.exports.Keys - {gone};
    }
    forall id
      ensures Balanced(LedgerOf(peer, me', id)) && Balanced(LedgerOf(me', peer, id)) && LocalAt(me', id)
    {
      QueueFront(me.inbox, id);
      assert Balanced(LedgerOf(peer, me, id)) && Balanced(LedgerOf(me, peer, id)) && LocalAt(me, id);
    }
  }

  lemma DeliverPullKeepsGood(me: Party, peer: Party)
    requires Good(me, peer) && me.inbox != [] && me.inbox[0].Pull?
    ensures Good(me.(inbox := me.inbox[1..]), peer)
  {
    var me' := me.(inbox := me.inbox[1..]);
    forall id
      ensures Balanced(LedgerOf(peer, me', id)) && Balanced(LedgerOf(me', peer, id)) && LocalAt(me', id)
    {
      QueueFront(me.inbox, id);
      assert Balanced(LedgerOf(peer, me, id)) && Balanced(LedgerOf(me, peer, id)) && LocalAt(me, id);
    }
  }

  // ---------------------------------------------------------------- stubs

  /** A clone or a derived stub shares an id that already has a stub. */
  lemma ShareKeepsGood(me: Party, peer: Party, i: nat, counted: bool)
    requires Good(me, peer) && i < |me.stubs| < MAX_INT32 && me.stubs[i].phase == Live
    requires counted ==> me.stubs[i].id in me.tables.imports
    ensures Good(Share(me, me.stubs[i].id, counted), peer)
  {
    var shared := me.stubs[i].id;
    var s := Stub(shared, counted, Live, 1, false);
    var me' := Share(me, shared, counted);
    assert me'.tables.imports.Keys == me.tables.imports.Keys;
    CountWitness(me.stubs, shared, Any);
    assert me.stubs[i].counted ==> Passes(me.stubs[i], Holding);
    forall id
      ensures Balanced(LedgerOf(peer, me', id)) && Balanced(LedgerOf(me', peer, id)) && LocalAt(me', id)
    {
      assert Balanced(LedgerOf(peer, me, id)) && Balanced(LedgerOf(me, peer, id)) && LocalAt(me, id);
      forall test
        ensures Count(me'.stubs, id, test) == Count(me.stubs, id, test) + (if s.id == id && Passes(s, test) then 1 else 0)
      {
        CountAppend(me.stubs, [s], id, test);
      }
      assert LedgerOf(me', peer, id) == LedgerOf(me, peer, id);
    }
  }

  /** Anything that may happen to a stub without its release being sent or its local count being dropped. */
  lemma TouchKeepsGood(me: Party, peer: Party, i: nat, s: Stub)
    requires Good(me, peer) && i < |me.stubs|
    requires s == me.stubs[i].(phase := s.phase, refs := s.refs)
    requires s.phase == me.stubs[i].phase || (me.stubs[i].phase == Live && s.phase == Claimed)
    ensures Good(SetStub(me, i, s), peer)
  {
    var me' := SetStub(me, i, s);
    forall id
      ensures Balanced(LedgerOf(peer, me', id)) && Balanced(LedgerOf(me', peer, id)) && LocalAt(me', id)
    {
      assert Balanced(LedgerOf(peer, me, id)) && Balanced(LedgerOf(me, peer, id)) && LocalAt(me, id);
      forall test
        ensures Count(me'.stubs, id, test) == Count(me.stubs, id, test)
      {
        CountUpdate(me.stubs, i, s, id, test);
      }
      assert LedgerOf(me', peer, id) == LedgerOf(me, peer, id);
      assert LedgerOf(peer, me', id) == LedgerOf(peer, me, id);
    }
  }

  lemma NotifyBalances(me: Party, peer: Party, i: nat, accepted: bool, id: int)
    requires i < |me.stubs| && me.stubs[i].phase == Claimed && !me.stubs[i].sent
    requires Balanced(LedgerOf(peer, me, id)) && Balanced(LedgerOf(me, peer, id)) && LocalAt(me, id) && LocalAt(peer, id)
    ensures var me' := SetStub(me, i, me.stubs[i].(phase := Notified, sent := accepted));
      var peer' := Enqueue(peer, Release(me.stubs[i].id, 1), accepted);
      Balanced(LedgerOf(peer', me', id)) && Balanced(LedgerOf(me', peer', id)) && LocalAt(me', id) && LocalAt(peer', id)
  {
    var s := me.stubs[i].(phase := Notified, sent := accepted);
    var me', peer' := SetStub(me, i, s), Enqueue(peer, Release(s.id, 1), accepted);
    QueueBack(peer.inbox, Release(s.id, 1), id);
    CountUpdate(me.stubs, i, s, id, Any);
    CountUpdate(me.stubs, i, s, id, Sent);
    CountUpdate(me.stubs, i, s, id, Holding);
    CountUpdate(me.stubs, i, s, id, Stray);
    CountMonotone(me'.stubs, id, Sent, Any);
    assert LedgerOf(me', peer', id) == LedgerOf(me, peer, id);
    var l, l' := LedgerOf(peer, me, id), LedgerOf(peer', me', id);
    assert l' == if accepted && s.id == id then l.(sent := l.sent + 1, releases := l.releases + 1) else l;
  }

  lemma NotifyKeepsGood(me: Party, peer: Party, i: nat, accepted: bool)
    requires Good(me, peer) && i < |me.stubs| && me.stubs[i].phase == Claimed
    ensures Good(SetStub(me, i, me.stubs[i].(phase := Notified, sent := accepted)),
                 Enqueue(peer, Release(me.stubs[i].id, 1), accepted))
  {
    var s := me.stubs[i].(phase := Notified, sent := accepted);
    var me', peer' := SetStub(me, i, s), Enqueue(peer, Release(s.id, 1), accepted);
    assert !me.stubs[i].sent;
    EnqueueFrame(peer, Release(s.id, 1));
    SetStubIsTidy(me, i, s);
    forall id
      ensures Balanced(LedgerOf(peer', me', id)) && Balanced(LedgerOf(me', peer', id)) && LocalAt(me', id) && LocalAt(peer', id)
    {
      assert Balanced(LedgerOf(peer, me, id)) && Balanced(LedgerOf(me, peer, id)) && LocalAt(me, id) && LocalAt(peer, id);
      NotifyBalances(me, peer, i, accepted, id);
    }
  }

  lemma SetStubIsTidy(p: Party, i: nat, s: Stub)
    requires Tidy(p) && i < |p.stubs| && (s.sent ==> s.phase in {Notified, Done})
    ensures Tidy(SetStub(p, i, s))
  {
  }

  lemma ForgetIsTidy(p: Party, id: int)
    requires Tidy(p)
    ensures Tidy(p.(tables := Unreferenced(p.tables, id)))
  {
    assert (p.tables.imports - {id}).Keys == p.tables.imports.Keys - {id};
    if id in p.tables.imports {
      assert p.tables.imports[id := Int32(p.tables.imports[id] - 1)].Keys == p.tables.imports.Keys;
    }
  }

  lemma ForgetBalances(me: Party, peer: Party, i: nat, id: int)
    requires i < |me.stubs| <= MAX_INT32 && me.stubs[i].phase == Notified
    requires Balanced(LedgerOf(peer, me, id)) && Balanced(LedgerOf(me, peer, id)) && LocalAt(me, id)
    ensures var me' := SetStub(me, i, me.stubs[i].(phase := Done)).(tables := Unreferenced(me.tables, me.stubs[i].id));
      Balanced(LedgerOf(peer, me', id)) && Balanced(LedgerOf(me', peer, id)) && LocalAt(me', id)
  {
    var s := me.stubs[i].(phase := Done);
    var me' := SetStub(me, i, s).(tables := Unreferenced(me.tables, s.id));
    CountUpdate(me.stubs, i, s, id, Any);
    CountUpdate(me.stubs, i, s, id, Sent);
    CountUpdate(me.stubs, i, s, id, Holding);
    CountUpdate(me.stubs, i, s, id, Stray);
    assert LedgerOf(me', peer, id) == LedgerOf(me, peer, id);
    assert LedgerOf(peer, me', id) == LedgerOf(peer, me, id);
  }

  lemma ForgetKeepsGood(me: Party, peer: Party, i: nat)
    requires Good(me, peer) && i < |me.stubs| <= MAX_INT32 && me.stubs[i].phase == Notified
    ensures Good(SetStub(me, i, me.stubs[i].(phase := Done)).(tables := Unreferenced(me.tables, me.stubs[i].id)), peer)
  {
    var s := me.stubs[i].(phase := Done);
    var me' := SetStub(me, i, s).(tables := Unreferenced(me.tables, s.id));
    SetStubIsTidy(me, i, s);
    ForgetIsTidy(SetStub(me, i, s), s.id);
    forall id
      ensures Balanced(LedgerOf(peer, me', id)) && Balanced(LedgerOf(me', peer, id)) && LocalAt(me', id)
    {
      assert Balanced(LedgerOf(peer, me, id)) && Balanced(LedgerOf(me, peer, id)) && LocalAt(me, id);
      ForgetBalances(me, peer, i, id);
    }
  }

  // ---------------------------------------------------------------- every run

  lemma StartKeepsGood(me: Party, peer: Party)
    requires Good(me, peer) && me.tables.nextExportID + 1 <= MAX_INT32
    ensures Good(me.(tables := Exported(me.tables, true)), peer)
  {
    ExportKeepsHalf(me, peer, true);
    var me' := me.(tables := Exported(me.tables, true));
    forall id
      ensures Balanced(LedgerOf(peer, me', id)) && LocalAt(me', id)
    {
      assert Balanced(LedgerOf(peer, me, id)) && LocalAt(me, id);
      assert LedgerOf(peer, me', id) == LedgerOf(peer, me, id);
    }
  }

  /** The counters only grow, so a bound at the end of a run held all along. */
  lemma {:induction false} ImportManyKeepsCounter(t: Tables, ids: seq<int>)
    ensures ImportMany(t, ids).nextExportID == t.nextExportID
  {
    if ids != [] {
      ImportManyKeepsCounter(t, ids[..|ids| - 1]);
    }
  }

  lemma ActGrows(me: Party, peer: Party, a: Action)
    ensures var (me', peer') := Act(me, peer, a);
      && me.tables.nextExportID <= me'.tables.nextExportID && |me.stubs| <= |me'.stubs|
      && peer'.tables == peer.tables && peer'.stubs == peer.stubs
  {
    match a
    case SendValues(n, _) => ExportManyGrows(me.tables, n);
    case StartCall(n, _) => ExportManyGrows(Exported(me.tables, true), n);
    case Deliver(_, _) =>
      if me.inbox != [] {
        match me.inbox[0]
        case Data(ids) => ImportManyKeepsCounter(me.tables, ids);
        case Pull(id) => ExportManyGrows(me.tables, 1);
        case _ =>
      }
    case _ =>
  }

  lemma ActKeepsGood(me: Party, peer: Party, a: Action)
    requires Good(me, peer)
    requires Bounded(Act(me, peer, a).0)
    ensures var (me', peer') := Act(me, peer, a); Good(me', peer')
  {
    ActGrows(me, peer, a);
    match a
    case SendValues(n, ok) =>
      ExportManyGrows(me.tables, n);
      SendKeepsGood(me, peer, n, ok);
    case StartCall(n, ok) =>
      ExportManyGrows(Exported(me.tables, true), n);
      StartKeepsGood(me, peer);
      SendKeepsGood(me.(tables := Exported(me.tables, true)), peer, n, ok);
    case SendPull(id, ok) =>
      if ok { PullKeepsGood(me, peer, id); }
    case Deliver(open, ok) =>
      if me.inbox != [] {
        match me.inbox[0]
        case Data(_) => DeliverDataKeepsGood(me, peer);
        case Release(_, _) =>
          assert me.inbox[0] in me.inbox;
          DeliverReleaseKeepsGood(me, peer);
        case Pull(id) =>
          DeliverPullKeepsGood(me, peer);
          ExportManyGrows(me.tables, 0);
          ExportManyGrows(me.tables, 1);
          if open {
            SendKeepsGood(me.(inbox := me.inbox[1..]), peer, PullExports(me.tables, id), ok);
          }
      }
    case CloneStub(i) =>
      if i < |me.stubs| && me.stubs[i].phase == Live {
        ShareKeepsGood(me, peer, i, me.stubs[i].id in me.tables.imports);
      }
    case DeriveStub(i) =>
      if i < |me.stubs| && me.stubs[i].phase == Live {
        ShareKeepsGood(me, peer, i, false);
      }
    case AddRef(i) =>
      if i < |me.stubs| { TouchKeepsGood(me, peer, i, Act(me, peer, a).0.stubs[i]); }
    case DropRef(i) =>
      if i < |me.stubs| { TouchKeepsGood(me, peer, i, Act(me, peer, a).0.stubs[i]); }
    case Claim(i) =>
      if i < |me.stubs| && me.stubs[i].phase == Live { TouchKeepsGood(me, peer, i, me.stubs[i].(phase := Claimed)); }
    case Notify(i, ok) =>
      if i < |me.stubs| && me.stubs[i].phase == Claimed { NotifyKeepsGood(me, peer, i, ok); }
    case Forget(i) =>
      if i < |me.stubs| && me.stubs[i].phase == Notified { ForgetKeepsGood(me, peer, i); }
  }

  ghost predicate GoodWorld(w: World) {
    Good(w.left, w.right)
  }

  predicate BoundedWorld(w: World) {
    Bounded(w.left) && Bounded(w.right)
  }

  lemma {:induction false} RunIsGood(turns: seq<Turn>)
    requires BoundedWorld(Run(turns))
    ensures GoodWorld(Run(turns))
  {
    if turns != [] {
      var before, t := Run(turns[..|turns| - 1]), turns[|turns| - 1];
      if t.byLeft {
        ActGrows(before.left, before.right, t.action);
        RunIsGood(turns[..|turns| - 1]);
        ActKeepsGood(before.left, before.right, t.action);
      } else {
        ActGrows(before.right, before.left, t.action);
        RunIsGood(turns[..|turns| - 1]);
        ActKeepsGood(before.right, before.left, t.action);
      }
    }
  }

  // ---------------------------------------------------------------- who still needs an export

  ghost predicate InFlight(y: Party, id: int) {
    InTransit(y.inbox, id) > 0
  }

  /** y has a stub whose release has not been handed to the transport. */
  ghost predicate Undisposed(y: Party, id: int) {
    exists s :: s in y.stubs && s.id == id && s.phase in {Live, Claimed}
  }

  ghost predicate ReleaseInFlight(x: Party, id: int) {
    Releases(x.inbox, id) > 0
  }

  /** The transport refused the release; the source ignores that error. */
  ghost predicate ReleaseLost(y: Party, id: int) {
    exists s :: s in y.stubs && s.id == id && s.phase in {Notified, Done} && !s.sent
  }

  ghost predicate HasStub(y: Party, id: int) {
    exists s :: s in y.stubs && s.id == id
  }

  /** A call's placeholder, or an id whose message was refused: the peer never hears of it. */
  ghost predicate NeverReached(x: Party, y: Party, id: int) {
    Issued(x, id) && !InFlight(y, id) && !HasStub(y, id)
  }

  ghost predicate Needed(x: Party, y: Party, id: int) {
    InFlight(y, id) || Undisposed(y, id) || ReleaseInFlight(x, id) || ReleaseLost(y, id) || NeverReached(x, y, id)
  }

  ghost predicate Single(y: Party) {
    forall id :: Count(y.stubs, id, Any) <= 1
  }

  predicate Shares(a: Action) {
    a.CloneStub? || a.DeriveStub?
  }

  predicate Unshared(turns: seq<Turn>) {
    forall t :: t in turns ==> !Shares(t.action)
  }

  lemma HasStubIsCounted(y: Party, id: int)
    ensures HasStub(y, id) <==> Count(y.stubs, id, Any) > 0
  {
    CountWitness(y.stubs, id, Any);
    if HasStub(y, id) {
      var s :| s in y.stubs && s.id == id;
      assert Passes(s, Any);
    }
  }

  /** Two different positions count twice. */
  lemma {:induction false} TwoCount(stubs: seq<Stub>, i: nat, j: nat, test: Test)
    requires i < j < |stubs| && stubs[i].id == stubs[j].id && Passes(stubs[i], test) && Passes(stubs[j], test)
    ensures Count(stubs, stubs[i].id, test) >= 2
  {
    var last := |stubs| - 1;
    if j < last {
      TwoCount(stubs[..last], i, j, test);
    } else {
      assert stubs[i] in stubs[..last];
      CountWitness(stubs[..last], stubs[i].id, test);
    }
  }

  lemma HeldExactlyWhileNeededAt(x: Party, y: Party, id: int)
    requires Good(x, y) && Single(y)
    ensures id in x.tables.exports <==> Needed(x, y, id)
  {
    assert Balanced(LedgerOf(x, y, id));
    HasStubIsCounted(y, id);
    CountWitness(y.stubs, id, Sent);
    assert Count(y.stubs, id, Any) <= 1;
    if HasStub(y, id) {
      var s :| s in y.stubs && s.id == id;
      var i :| 0 <= i < |y.stubs| && y.stubs[i] == s;
      forall r | r in y.stubs && r.id == id
        ensures r == s
      {
        var j :| 0 <= j < |y.stubs| && y.stubs[j] == r;
        if i < j { TwoCount(y.stubs, i, j, Any); }
        if j < i { TwoCount(y.stubs, j, i, Any); }
      }
      assert s.sent <==> Count(y.stubs, id, Sent) > 0 by {
        if s.sent { assert Passes(s, Sent); }
      }
      assert !InFlight(y, id) && !NeverReached(x, y, id);
      if s.sent {
        assert id in x.tables.exports <==> ReleaseInFlight(x, id);
        assert !Undisposed(y, id) && !ReleaseLost(y, id);
      } else {
        assert id in x.tables.exports;
        match s.phase
        case Live => assert Undisposed(y, id);
        case Claimed => assert Undisposed(y, id);
        case Notified => assert ReleaseLost(y, id);
        case Done => assert ReleaseLost(y, id);
      }
    } else {
      assert !Undisposed(y, id) && !ReleaseLost(y, id) && !ReleaseInFlight(x, id);
    }
  }

  lemma ActKeepsSingleAt(me: Party, peer: Party, a: Action, id: int)
    requires Balanced(LedgerOf(peer, me, id)) && Balanced(LedgerOf(me, peer, id)) && LocalAt(me, id)
    requires Count(me.stubs, id, Any) <= 1 && !Shares(a)
    ensures Count(Act(me, peer, a).0.stubs, id, Any) <= 1
  {
    var me' := Act(me, peer, a).0;
    if a.Deliver? {
      if me.inbox != [] && me.inbox[0].Data? {
        DeliverDataBalances(me, peer, id);
        DecodedCounts(me.inbox[0].ids, id);
      }
    } else if me'.stubs != me.stubs {
      CountUpdate(me.stubs, a.stub, me'.stubs[a.stub], id, Any);
    }
  }

  lemma ActKeepsSingle(me: Party, peer: Party, a: Action)
    requires Good(me, peer) && Single(me) && !Shares(a)
    ensures Single(Act(me, peer, a).0)
  {
    forall id
      ensures Count(Act(me, peer, a).0.stubs, id, Any) <= 1
    {
      assert Count(me.stubs, id, Any) <= 1;
      assert Balanced(LedgerOf(peer, me, id)) && Balanced(LedgerOf(me, peer, id)) && LocalAt(me, id);
      ActKeepsSingleAt(me, peer, a, id);
    }
  }

  lemma {:induction false} RunIsSingle(turns: seq<Turn>)
    requires BoundedWorld(Run(turns)) && Unshared(turns)
    ensures Single(Run(turns).left) && Single(Run(turns).right)
  {
    if turns != [] {
      var front := turns[..|turns| - 1];
      var before, t := Run(front), turns[|turns| - 1];
      assert t in turns && forall u :: u in front ==> u in turns;
      if t.byLeft {
        ActGrows(before.left, before.right, t.action);
        RunIsGood(front);
        RunIsSingle(front);
        ActKeepsSingle(before.left, before.right, t.action);
      } else {
        ActGrows(before.right, before.left, t.action);
        RunIsGood(front);
        RunIsSingle(front);
        ActKeepsSingle(before.right, before.left, t.action);
      }
    }
  }

  /**
   * In every run in which no stub is cloned or derived, and in both directions: an id is in the exporter's table exactly
   * while its message is in flight, or the peer's stub has not sent its release, or that release is in flight, or the
   * transport refused one of the two, or the id never went out at all. Hence no live stub dangles.
   */
  lemma HeldExactlyWhileNeeded(turns: seq<Turn>, id: int)
    requires BoundedWorld(Run(turns)) && Unshared(turns)
    ensures var w := Run(turns);
      && (id in w.left.tables.exports <==> Needed(w.left, w.right, id))
      && (id in w.right.tables.exports <==> Needed(w.right, w.left, id))
  {
    RunIsGood(turns);
    RunIsSingle(turns);
    HeldExactlyWhileNeededAt(Run(turns).left, Run(turns).right, id);
    HeldExactlyWhileNeededAt(Run(turns).right, Run(turns).left, id);
  }

  // ---------------------------------------------------------------- sharing stubs: exactly when one dangles

  /**
   * In every run, sharing included: once no release for its id is in flight, a live stub dangles exactly when
   * another stub of the same id has had its release accepted.
   */
  lemma DanglesExactlyWhenSiblingReleased(turns: seq<Turn>, i: nat)
    requires BoundedWorld(Run(turns))
    requires i < |Run(turns).right.stubs| && Run(turns).right.stubs[i].phase == Live
    requires !ReleaseInFlight(Run(turns).left, Run(turns).right.stubs[i].id)
    ensures var w := Run(turns); var stubs := w.right.stubs;
      (stubs[i].id !in w.left.tables.exports) <==>
      (exists j :: 0 <= j < |stubs| && j != i && stubs[j].id == stubs[i].id && stubs[j].sent)
  {
    RunIsGood(turns);
    var w := Run(turns);
    var stubs, id := w.right.stubs, w.right.stubs[i].id;
    assert Balanced(LedgerOf(w.left, w.right, id));
    assert stubs[i] in stubs && !stubs[i].sent;
    HasStubIsCounted(w.right, id);
    CountWitness(stubs, id, Sent);
    if exists j :: 0 <= j < |stubs| && j != i && stubs[j].id == id && stubs[j].sent {
      var j :| 0 <= j < |stubs| && j != i && stubs[j].id == id && stubs[j].sent;
      assert stubs[j] in stubs && Passes(stubs[j], Sent);
    }
    if Count(stubs, id, Sent) > 0 {
      var s :| s in stubs && s.id == id && Passes(s, Sent);
      var j :| 0 <= j < |stubs| && stubs[j] == s;
    }
  }

  lemma RunSnoc(turns: seq<Turn>, t: Turn)
    ensures Run(turns + [t]) == Step(Run(turns), t)
  {
    assert (turns + [t])[..|turns|] == turns;
  }

  /** Clone stub i, dispose of the clone n, let the exporter handle its oldest message. */
  function CloneThenDispose(i: nat, n: nat): seq<Turn> {
    [Turn(false, CloneStub(i)), Turn(false, Claim(n)), Turn(false, Notify(n, true)), Turn(true, Deliver(true, true))]
  }

  lemma CloneThenDisposeSteps(turns: seq<Turn>, i: nat)
    requires var w := Run(turns); i < |w.right.stubs| && w.right.stubs[i].phase == Live && w.left.inbox == []
    ensures var before, n := Run(turns), |Run(turns).right.stubs|; var w := Run(turns + CloneThenDispose(i, n));
      && w.left.inbox == [] && |w.right.stubs| == n + 1 && w.right.stubs[..n] == before.right.stubs
      && w.right.stubs[n].id == before.right.stubs[i].id && w.right.stubs[n].sent
  {
    var w, n := Run(turns), |Run(turns).right.stubs|;
    RunOfFour(turns, CloneThenDispose(i, n));
    AfterClone(w, i);
    var cloned := Step(w, Turn(false, CloneStub(i)));
    AfterDisposal(cloned, n);
    var disposed := Step(Step(cloned, Turn(false, Claim(n))), Turn(false, Notify(n, true)));
    AfterRelease(disposed);
  }

  lemma RunOfFour(turns: seq<Turn>, s: seq<Turn>)
    requires |s| == 4
    ensures Run(turns + s) == Step(Step(Step(Step(Run(turns), s[0]), s[1]), s[2]), s[3])
  {
    assert turns + s == turns + [s[0]] + [s[1]] + [s[2]] + [s[3]];
    RunSnoc(turns, s[0]);
    RunSnoc(turns + [s[0]], s[1]);
    RunSnoc(turns + [s[0]] + [s[1]], s[2]);
    RunSnoc(turns + [s[0]] + [s[1]] + [s[2]], s[3]);
  }

  lemma AfterClone(w: World, i: nat)
    requires i < |w.right.stubs| && w.right.stubs[i].phase == Live
    ensures var n, r := |w.right.stubs|, Step(w, Turn(false, CloneStub(i)));
      && r.left == w.left && |r.right.stubs| == n + 1 && r.right.stubs[..n] == w.right.stubs
      && r.right.stubs[n].id == w.right.stubs[i].id && r.right.stubs[n].phase == Live && r.right.stubs[n].refs == 1
  {
  }

  lemma AfterDisposal(w: World, n: nat)
    requires |w.right.stubs| == n + 1 && w.right.stubs[n].phase == Live && w.left.inbox == []
    ensures var r := Step(Step(w, Turn(false, Claim(n))), Turn(false, Notify(n, true)));
      && r.left.inbox == [Release(w.right.stubs[n].id, 1)]
      && |r.right.stubs| == n + 1 && r.right.stubs[..n] == w.right.stubs[..n]
      && r.right.stubs[n].id == w.right.stubs[n].id && r.right.stubs[n].sent
  {
    var claimed := Step(w, Turn(false, Claim(n)));
    assert claimed.left == w.left && claimed.right.stubs == w.right.stubs[n := w.right.stubs[n].(phase := Claimed)];
  }

  lemma AfterRelease(w: World)
    requires |w.left.inbox| == 1 && w.left.inbox[0].Release?
    ensures var r := Step(w, Turn(true, Deliver(true, true))); r.left.inbox == [] && r.right == w.right
  {
  }

  /** Whenever a live stub is cloned and the clone disposed of, the original is left dangling. */
  lemma DisposedCloneLeavesDangling(turns: seq<Turn>, i: nat)
    requires var w := Run(turns); i < |w.right.stubs| && w.right.stubs[i].phase == Live && w.left.inbox == []
    requires BoundedWorld(Run(turns + CloneThenDispose(i, |Run(turns).right.stubs|)))
    ensures var w := Run(turns + CloneThenDispose(i, |Run(turns).right.stubs|));
      && i < |w.right.stubs| && w.right.stubs[i].phase == Live
      && w.right.stubs[i].id !in w.left.tables.exports
  {
    var n := |Run(turns).right.stubs|;
    CloneThenDisposeSteps(turns, i);
    var all := turns + CloneThenDispose(i, n);
    var w := Run(all);
    assert w.right.stubs[i] == w.right.stubs[..n][i];
    DanglesExactlyWhenSiblingReleased(all, i);
  }

  const ONE_STUB: seq<Turn> := [Turn(true, SendValues(1, true)), Turn(false, Deliver(true, true))]

  /** A shortest run to a live stub, so that the lemma above applies: nothing in flight, one stub, and its clone kills it. */
  lemma OneStub()
    ensures var w := Run(ONE_STUB);
      && |w.right.stubs| == 1 && w.right.stubs[0].phase == Live && w.right.stubs[0].refs == 0 && w.left.inbox == []
  {
    assert ONE_STUB == [] + [ONE_STUB[0]] + [ONE_STUB[1]];
    RunSnoc([], ONE_STUB[0]);
    var w := Run([] + [ONE_STUB[0]]);
    assert |FreshIds(EMPTY_TABLES, 0)| == 0 && |FreshIds(EMPTY_TABLES, 1)| == 1;
    assert w.left.inbox == [] && |w.right.inbox| == 1 && w.right.inbox[0].Data? && |w.right.inbox[0].ids| == 1 && w.right.stubs == [];
    RunSnoc([] + [ONE_STUB[0]], ONE_STUB[1]);
  }

  // ---------------------------------------------------------------- nothing stays, and what does

  /** What the peer can see of an id: copies in flight and stubs. */
  function Traces(x: Party, y: Party, id: int): nat {
    InTransit(y.inbox, id) + Count(y.stubs, id, Any)
  }

  /** Fresh ids are the ones the counter runs through. */
  lemma SendTraces(me: Party, peer: Party, n: nat, accepted: bool, id: int)
    requires Good(me, peer) && me.tables.nextExportID + n <= MAX_INT32
    ensures var (me', peer') := SendReferences(me, peer, n, accepted);
      Traces(me', peer', id) == Traces(me, peer, id) +
        if accepted && me.tables.nextExportID < id <= me.tables.nextExportID + n then 1 else 0
  {
    ExportManyIsTidy(me, peer, n);
    Ascending(me.tables.nextExportID + 1, n, id);
    QueueBack(peer.inbox, Data(FreshIds(me.tables, n)), id);
  }

  lemma CallTraces(me: Party, peer: Party, n: nat, accepted: bool, id: int)
    requires Good(me, peer) && me.tables.nextExportID + 1 + n <= MAX_INT32
    ensures var (me', peer') := Act(me, peer, StartCall(n, accepted));
      && me'.tables.nextExportID == me.tables.nextExportID + 1 + n
      && (id <= me.tables.nextExportID + 1 ==> Traces(me', peer', id) == Traces(me, peer, id))
  {
    ExportManyGrows(Exported(me.tables, true), n);
    StartKeepsGood(me, peer);
    SendTraces(me.(tables := Exported(me.tables, true)), peer, n, accepted, id);
  }

  lemma DeliverExporterTraces(me: Party, peer: Party, open: bool, accepted: bool, id: int)
    requires Good(me, peer) && Bounded(Act(me, peer, Deliver(open, accepted)).0) && me.inbox != []
    ensures var (me', peer') := Act(me, peer, Deliver(open, accepted));
      && (id <= me.tables.nextExportID ==> Traces(me', peer', id) == Traces(me, peer, id))
      && (Issued(me', id) && !Issued(me, id) && (open ==> accepted) ==> Traces(me', peer', id) > 0)
  {
    match me.inbox[0]
    case Data(ids) => ImportManyKeepsCounter(me.tables, ids);
    case Release(_, _) =>
    case Pull(p) =>
      DeliverPullKeepsGood(me, peer);
      ExportManyGrows(me.tables, 0);
      ExportManyGrows(me.tables, 1);
      if open {
        SendTraces(me.(inbox := me.inbox[1..]), peer, PullExports(me.tables, p), accepted, id);
      }
  }

  lemma QuietAct(me: Party, peer: Party, a: Action, id: int)
    requires !a.SendValues? && !a.StartCall? && !a.Deliver?
    ensures var (me', peer') := Act(me, peer, a);
      && me'.tables.nextExportID == me.tables.nextExportID
      && InTransit(peer'.inbox, id) == InTransit(peer.inbox, id) && peer'.stubs == peer.stubs
  {
    match a
    case SendPull(p, ok) => QueueBack(peer.inbox, Pull(p), id);
    case Notify(i, ok) => if i < |me.stubs| { QueueBack(peer.inbox, Release(me.stubs[i].id, 1), id); }
    case _ =>
  }

  lemma ActExporterTraces(me: Party, peer: Party, a: Action, id: int)
    requires Good(me, peer) && Bounded(Act(me, peer, a).0)
    ensures var (me', peer') := Act(me, peer, a);
      && (id <= me.tables.nextExportID ==> Traces(me', peer', id) == Traces(me, peer, id))
      && (Issued(me', id) && !Issued(me, id) && Reaches(a) ==> Traces(me', peer', id) > 0)
  {
    match a
    case SendValues(n, ok) =>
      ExportManyGrows(me.tables, n);
      SendTraces(me, peer, n, ok, id);
    case StartCall(n, ok) =>
      ExportManyGrows(Exported(me.tables, true), n);
      CallTraces(me, peer, n, ok, id);
    case Deliver(open, ok) => if me.inbox != [] { DeliverExporterTraces(me, peer, open, ok, id); }
    case _ => QuietAct(me, peer, a, id);
  }

  lemma DeliverImporterTraces(me: Party, peer: Party, open: bool, accepted: bool, id: int)
    requires me.inbox != []
    ensures var (me', peer') := Act(me, peer, Deliver(open, accepted)); Traces(peer', me', id) == Traces(peer, me, id)
  {
    QueueFront(me.inbox, id);
    if me.inbox[0].Data? {
      CountAppend(me.stubs, DecodedStubs(me.inbox[0].ids), id, Any);
      DecodedCounts(me.inbox[0].ids, id);
    }
  }

  lemma ShareImporterTraces(me: Party, peer: Party, i: nat, counted: bool, id: int)
    requires i < |me.stubs|
    ensures Traces(peer, Share(me, me.stubs[i].id, counted), id) > 0 <==> Traces(peer, me, id) > 0
  {
    var s := Stub(me.stubs[i].id, counted, Live, 1, false);
    CountAppend(me.stubs, [s], id, Any);
    CountWitness(me.stubs, s.id, Any);
    assert me.stubs[i] in me.stubs && Passes(me.stubs[i], Any);
  }

  lemma ActImporterTraces(me: Party, peer: Party, a: Action, id: int)
    ensures var (me', peer') := Act(me, peer, a);
      Traces(peer', me', id) > 0 <==> Traces(peer, me, id) > 0
  {
    var me' := Act(me, peer, a).0;
    match a
    case SendValues(_, _) =>
    case StartCall(_, _) =>
    case SendPull(_, _) =>
    case Deliver(open, ok) => if me.inbox != [] { DeliverImporterTraces(me, peer, open, ok, id); }
    case CloneStub(i) => if i < |me.stubs| { ShareImporterTraces(me, peer, i, me.stubs[i].id in me.tables.imports, id); }
    case DeriveStub(i) => if i < |me.stubs| { ShareImporterTraces(me, peer, i, false, id); }
    case _ => if me'.stubs != me.stubs { CountUpdate(me.stubs, a.stub, me'.stubs[a.stub], id, Any); }
  }

  /** The step hands every id it issues to the peer, and every release it decides on to the exporter. */
  predicate Reaches(a: Action) {
    match a
    case SendValues(_, ok) => ok
    case StartCall(_, _) => false
    case Deliver(open, ok) => open ==> ok
    case Notify(_, ok) => ok
    case _ => true
  }

  predicate AllReach(turns: seq<Turn>) {
    forall t :: t in turns ==> Reaches(t.action)
  }

  ghost predicate Faithful(x: Party, y: Party) {
    && (forall id :: Issued(x, id) ==> Traces(x, y, id) > 0)
    && (forall s :: s in y.stubs && s.phase in {Notified, Done} ==> s.sent)
  }

  lemma ActKeepsFaithful(me: Party, peer: Party, a: Action)
    requires Good(me, peer) && Bounded(Act(me, peer, a).0) && Reaches(a)
    requires Faithful(me, peer) && Faithful(peer, me)
    ensures var (me', peer') := Act(me, peer, a); Faithful(me', peer') && Faithful(peer', me')
  {
    ActGrows(me, peer, a);
    var (me', peer') := Act(me, peer, a);
    forall id
      ensures Issued(me', id) ==> Traces(me', peer', id) > 0
      ensures Issued(peer', id) ==> Traces(peer', me', id) > 0
    {
      ActExporterTraces(me, peer, a, id);
      ActImporterTraces(me, peer, a, id);
      assert Issued(me, id) ==> Traces(me, peer, id) > 0;
      assert Issued(peer, id) ==> Traces(peer, me, id) > 0;
    }
  }

  lemma {:induction false} RunIsFaithful(turns: seq<Turn>)
    requires BoundedWorld(Run(turns)) && AllReach(turns)
    ensures Faithful(Run(turns).left, Run(turns).right) && Faithful(Run(turns).right, Run(turns).left)
  {
    if turns != [] {
      var front := turns[..|turns| - 1];
      var before, t := Run(front), turns[|turns| - 1];
      assert t in turns && forall u :: u in front ==> u in turns;
      if t.byLeft {
        ActGrows(before.left, before.right, t.action);
        RunIsGood(front);
        RunIsFaithful(front);
        ActKeepsFaithful(before.left, before.right, t.action);
      } else {
        ActGrows(before.right, before.left, t.action);
        RunIsGood(front);
        RunIsFaithful(front);
        ActKeepsFaithful(before.right, before.left, t.action);
      }
    }
  }

  // Nothing is under way to p, and every stub p has held is disposed of.
  ghost predicate Settled(p: Party) {
    p.inbox == [] && forall s :: s in p.stubs ==> s.phase == Done
  }

  /**
   * When everything reaches the other side, no placeholders are made and no stub is shared: once all stubs are
   * disposed of and all messages are handled, all four tables are empty and the counters say so.
   */
  lemma NothingStays(turns: seq<Turn>)
    requires BoundedWorld(Run(turns)) && Unshared(turns) && AllReach(turns)
    requires Settled(Run(turns).left) && Settled(Run(turns).right)
    ensures forall p :: p in {Run(turns).left, Run(turns).right} ==>
      && p.tables.exports == map[] && p.tables.imports == map[]
      && p.tables.exportsActive == 0 && p.tables.importsActive == 0
  {
    RunIsGood(turns);
    RunIsFaithful(turns);
    RunIsSingle(turns);
    RunIsCounted(turns);
    var w := Run(turns);
    forall id
      ensures id !in w.left.tables.exports && id !in w.right.tables.exports
      ensures id !in w.left.tables.imports && id !in w.right.tables.imports
    {
      EmptyAt(w.left, w.right, id);
      EmptyAt(w.right, w.left, id);
    }
    assert w.left.tables.exports.Keys == {} && w.right.tables.exports.Keys == {};
    assert w.left.tables.imports.Keys == {} && w.right.tables.imports.Keys == {};
  }

  lemma EmptyAt(x: Party, y: Party, id: int)
    requires Good(x, y) && Single(y) && Faithful(x, y) && AllCounted(y)
    requires x.inbox == [] && y.inbox == [] && forall s :: s in y.stubs ==> s.phase == Done
    ensures id !in x.tables.exports && id !in y.tables.imports
  {
    HeldExactlyWhileNeededAt(x, y, id);
    HasStubIsCounted(y, id);
    assert Issued(x, id) ==> Traces(x, y, id) > 0;
    NoStray(y, id);
    CountWitness(y.stubs, id, Holding);
    assert LocalAt(y, id);
  }

  /** An id the peer never hears of stays in the table for ever, whatever happens next. */
  lemma {:induction false} UnreachedStaysForever(turns: seq<Turn>, more: seq<Turn>, id: int)
    requires BoundedWorld(Run(turns + more))
    requires NeverReached(Run(turns).left, Run(turns).right, id)
    ensures NeverReached(Run(turns + more).left, Run(turns + more).right, id)
    ensures id in Run(turns + more).left.tables.exports
  {
    var all := turns + more;
    RunIsGood(all);
    if more == [] {
      assert all == turns;
    } else {
      var front, t := all[..|all| - 1], all[|all| - 1];
      assert front == turns + more[..|more| - 1];
      var before := Run(front);
      if t.byLeft { ActGrows(before.left, before.right, t.action); } else { ActGrows(before.right, before.left, t.action); }
      RunIsGood(front);
      UnreachedStaysForever(turns, more[..|more| - 1], id);
      HasStubIsCounted(before.right, id);
      if t.byLeft {
        ActExporterTraces(before.left, before.right, t.action, id);
      } else {
        assert Good(before.right, before.left);
        ActImporterTraces(before.right, before.left, t.action, id);
      }
    }
    var w := Run(all);
    HasStubIsCounted(w.right, id);
    CountMonotone(w.right.stubs, id, Sent, Any);
    assert Balanced(LedgerOf(w.left, w.right, id));
  }

  lemma FrontIsGood(turns: seq<Turn>, t: Turn)
    requires BoundedWorld(Step(Run(turns), t))
    ensures GoodWorld(Run(turns))
  {
    var w := Run(turns);
    if t.byLeft { ActGrows(w.left, w.right, t.action); } else { ActGrows(w.right, w.left, t.action); }
    RunIsGood(turns);
  }

  lemma CallLeaks(turns: seq<Turn>, w': World, n: nat, accepted: bool)
    requires w' == Step(Run(turns), Turn(true, StartCall(n, accepted))) && BoundedWorld(w')
    ensures NeverReached(w'.left, w'.right, Run(turns).left.tables.nextExportID + 1)
  {
    var w, id := Run(turns), Run(turns).left.tables.nextExportID + 1;
    FrontIsGood(turns, Turn(true, StartCall(n, accepted)));
    ExportManyGrows(Exported(w.left.tables, true), n);
    CallTraces(w.left, w.right, n, accepted, id);
    assert Balanced(LedgerOf(w.left, w.right, id));
    HasStubIsCounted(w'.right, id);
  }

  /** Every call leaves such an id behind: the placeholder for its result. */
  lemma EveryCallLeaks(turns: seq<Turn>, n: nat, accepted: bool)
    requires BoundedWorld(Run(turns + [Turn(true, StartCall(n, accepted))]))
    ensures var w := Run(turns + [Turn(true, StartCall(n, accepted))]);
      NeverReached(w.left, w.right, Run(turns).left.tables.nextExportID + 1)
  {
    RunSnoc(turns, Turn(true, StartCall(n, accepted)));
    CallLeaks(turns, Run(turns + [Turn(true, StartCall(n, accepted))]), n, accepted);
  }

  // ---------------------------------------------------------------- a stub lives by its own count

  /** The AddRef or Release that a turn makes on the right side's stub i. */
  function OpOf(t: Turn, i: nat): seq<RefOp> {
    if t == Turn(false, AddRef(i)) then [Up] else if t == Turn(false, DropRef(i)) then [Down] else []
  }

  function OpsOn(turns: seq<Turn>, i: nat): seq<RefOp> {
    if turns == [] then [] else OpsOn(turns[..|turns| - 1], i) + OpOf(turns[|turns| - 1], i)
  }

  /** The right side's stub i has the count that these calls leave, and is alive unless one of them used it up. */
  ghost predicate Follows(w: World, i: nat, start: int, ops: seq<RefOp>) {
    && i < |w.right.stubs| && w.right.stubs[i].refs == CountAfter(start, ops)
    && (w.right.stubs[i].phase == Live <==> !Exhausted(start, ops))
  }

  lemma TurnFollows(w: World, t: Turn, i: nat, start: int, ops: seq<RefOp>)
    requires Follows(w, i, start, ops) && t != Turn(false, Claim(i))
    ensures Follows(Step(w, t), i, start, ops + OpOf(t, i))
  {
    OpsSnoc(start, ops);
    assert ops + [] == ops;
    TurnOnStub(w, t, i);
  }

  /** What one turn does to the right side's stub i. */
  lemma TurnOnStub(w: World, t: Turn, i: nat)
    requires i < |w.right.stubs| && t != Turn(false, Claim(i))
    ensures var s, r := w.right.stubs[i], Step(w, t);
      && i < |r.right.stubs|
      && r.right.stubs[i].refs == (if t == Turn(false, AddRef(i)) then Int32(s.refs + 1)
                                   else if t == Turn(false, DropRef(i)) then Int32(s.refs - 1) else s.refs)
      && (r.right.stubs[i].phase == Live <==> s.phase == Live && !(t == Turn(false, DropRef(i)) && Int32(s.refs - 1) <= 0))
  {
    if t.byLeft {
      ActGrows(w.left, w.right, t.action);
    }
  }

  /**
   * Unless it is disposed of outright, a live stub stays alive in every continuation exactly until its releases make up
   * for its count and the AddRefs, whatever everybody else does.
   */
  lemma {:induction false} StubLivesByItsCount(turns: seq<Turn>, more: seq<Turn>, i: nat)
    requires i < |Run(turns).right.stubs| && Run(turns).right.stubs[i].phase == Live
    requires forall t :: t in more ==> t != Turn(false, Claim(i))
    ensures Follows(Run(turns + more), i, Run(turns).right.stubs[i].refs, OpsOn(more, i))
  {
    if more == [] {
      assert turns + more == turns;
    } else {
      var front, t := more[..|more| - 1], more[|more| - 1];
      assert turns + more == (turns + front) + [t];
      assert t in more && forall u :: u in front ==> u in more;
      StubLivesByItsCount(turns, front, i);
      RunSnoc(turns + front, t);
      TurnFollows(Run(turns + front), t, i, Run(turns).right.stubs[i].refs, OpsOn(front, i));
    }
  }

  lemma OpsSnoc(start: int, ops: seq<RefOp>)
    ensures CountAfter(start, ops + [Up]) == Int32(CountAfter(start, ops) + 1)
    ensures CountAfter(start, ops + [Down]) == Int32(CountAfter(start, ops) - 1)
    ensures Exhausted(start, ops + [Up]) <==> Exhausted(start, ops)
    ensures Exhausted(start, ops + [Down]) <==> Exhausted(start, ops) || Int32(CountAfter(start, ops) - 1) <= 0
  {
    assert (ops + [Up])[..|ops|] == ops && (ops + [Down])[..|ops|] == ops;
  }

  // ---------------------------------------------------------------- the tables on one side

  ghost predicate AllCounted(y: Party) {
    forall s :: s in y.stubs ==> s.counted
  }

  predicate NoneDerived(turns: seq<Turn>) {
    forall t :: t in turns ==> !t.action.DeriveStub?
  }

  lemma NoStray(y: Party, id: int)
    requires AllCounted(y)
    ensures Count(y.stubs, id, Stray) == 0
  {
    CountWitness(y.stubs, id, Stray);
  }

  /** Cloning a live stub always finds its import entry, as long as no stub was derived by a property access. */
  lemma ActKeepsCounted(me: Party, peer: Party, a: Action)
    requires Good(me, peer) && AllCounted(me) && !a.DeriveStub?
    ensures AllCounted(Act(me, peer, a).0) && Act(me, peer, a).1.stubs == peer.stubs
  {
    if a.CloneStub? && a.stub < |me.stubs| && me.stubs[a.stub].phase == Live {
      var s := me.stubs[a.stub];
      assert s in me.stubs && Passes(s, Holding);
      NoStray(me, s.id);
      CountWitness(me.stubs, s.id, Holding);
      assert LocalAt(me, s.id);
    }
  }

  lemma {:induction false} RunIsCounted(turns: seq<Turn>)
    requires BoundedWorld(Run(turns)) && NoneDerived(turns)
    ensures AllCounted(Run(turns).left) && AllCounted(Run(turns).right)
  {
    if turns != [] {
      var front := turns[..|turns| - 1];
      var before, t := Run(front), turns[|turns| - 1];
      assert t in turns && forall u :: u in front ==> u in turns;
      if t.byLeft {
        ActGrows(before.left, before.right, t.action);
        RunIsGood(front);
        RunIsCounted(front);
        ActKeepsCounted(before.left, before.right, t.action);
      } else {
        ActGrows(before.right, before.left, t.action);
        RunIsGood(front);
        RunIsCounted(front);
        ActKeepsCounted(before.right, before.left, t.action);
      }
    }
  }

  /**
   * On either side of every run: each export entry has RefCount 1 and the active counters are the table sizes; without
   * property accesses each import entry's RefCount is the number of stubs, decoded and cloned, that have not dropped
   * their reference, and the entry is there exactly while there is one.
   */
  lemma TablesAreExact(turns: seq<Turn>, id: int)
    requires BoundedWorld(Run(turns))
    ensures forall p :: p in {Run(turns).left, Run(turns).right} ==>
      && p.tables.exportsActive == |p.tables.exports| && p.tables.importsActive == |p.tables.imports|
      && (id in p.tables.exports ==> p.tables.exports[id].refCount == 1)
      && (NoneDerived(turns) ==> CountedExactly(p, id))
  {
    RunIsGood(turns);
    var w := Run(turns);
    if NoneDerived(turns) {
      RunIsCounted(turns);
      NoStray(w.left, id);
      NoStray(w.right, id);
    }
    assert LocalAt(w.left, id) && LocalAt(w.right, id);
  }
}
