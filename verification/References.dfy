/** A session's reference tables and the stubs that point into them (session.go, stub.go). */
module References {
  import opened Wrappers
  import opened Ints

  /** What a session message carries that matters to the tables: fresh export ids, a release, or a pull. */
  datatype Message =
    | Data(ids: seq<int>)
    | Release(id: int, count: int)
    | Pull(id: int)

  /** A placeholder is the entry that a call creates for its result: its value is nil. */
  datatype ExportEntry = ExportEntry(refCount: int, placeholder: bool)

  datatype Tables = Tables(
    exports: map<int, ExportEntry>,
    imports: map<int, int>,         // import id to the entry's RefCount
    nextExportID: int,
    exportsActive: int,
    importsActive: int)

  const EMPTY_TABLES := Tables(map[], map[], 0, 0, 0)

  // ---------------------------------------------------------------- the table operations

  function FreshId(t: Tables): int {
    Int32(t.nextExportID + 1)
  }

  function Exported(t: Tables, placeholder: bool): Tables {
    t.(exports := t.exports[FreshId(t) := ExportEntry(1, placeholder)],
       nextExportID := t.nextExportID + 1,
       exportsActive := t.exportsActive + 1)
  }

  function Imported(t: Tables, id: int): Tables {
    t.(imports := t.imports[id := 1], importsActive := t.importsActive + 1)
  }

  function Released(t: Tables, id: int, count: int): Tables {
    if id !in t.exports then t
    else
      var left := Int32(t.exports[id].refCount - Int32(count));
      if left <= 0 then t.(exports := t.exports - {id}, exportsActive := t.exportsActive - 1)
      else t.(exports := t.exports[id := t.exports[id].(refCount := left)])
  }

  /** A release for the whole count or more removes the entry; a smaller one lowers the count by its amount. */
  lemma ReleaseLowersCount(t: Tables, id: int, count: int)
    requires id in t.exports && 0 <= t.exports[id].refCount <= MAX_INT32 && 0 <= count <= MAX_INT32
    ensures var r := Released(t, id, count);
      && (id in r.exports <==> t.exports[id].refCount > count)
      && (id in r.exports ==> r.exports[id] == ExportEntry(t.exports[id].refCount - count, t.exports[id].placeholder))
      && r.exportsActive == t.exportsActive - (if id in r.exports then 0 else 1)
      && r.exports - {id} == t.exports - {id}
  {
  }

  /** Releases add up: in two parts or at once, the entry ends up the same. */
  lemma ReleasesAddUp(t: Tables, id: int, a: int, b: int)
    requires id in t.exports && 0 < t.exports[id].refCount <= MAX_INT32 && 0 <= a && 0 <= b && a + b <= MAX_INT32
    ensures Released(Released(t, id, a), id, b) == Released(t, id, a + b)
  {
    ReleaseLowersCount(t, id, a);
    ReleaseLowersCount(t, id, a + b);
    if t.exports[id].refCount > a {
      ReleaseLowersCount(Released(t, id, a), id, b);
    }
    assert Released(Released(t, id, a), id, b).exports == Released(t, id, a + b).exports;
  }

  /** A pull of a real value serialises it again, and so exports it again; placeholders and unknown ids carry nothing. */
  function PullExports(t: Tables, id: int): nat {
    if id in t.exports && !t.exports[id].placeholder then 1 else 0
  }

  /** What a clone does to the entry its id currently has. */
  function Referenced(t: Tables, id: int): Tables {
    if id !in t.imports then t else t.(imports := t.imports[id := Int32(t.imports[id] + 1)])
  }

  /** What a disposal does to the entry its id currently has. */
  function Unreferenced(t: Tables, id: int): Tables {
    if id !in t.imports then t
    else
      var left := Int32(t.imports[id] - 1);
      if left <= 0 then t.(imports := t.imports - {id}, importsActive := t.importsActive - 1)
      else t.(imports := t.imports[id := left])
  }

  function ExportMany(t: Tables, n: nat): Tables {
    if n == 0 then t else Exported(ExportMany(t, n - 1), false)
  }

  lemma {:induction false} ExportManyGrows(t: Tables, n: nat)
    ensures ExportMany(t, n).nextExportID == t.nextExportID + n
  {
    if n > 0 {
      ExportManyGrows(t, n - 1);
    }
  }

  function FreshIds(t: Tables, n: nat): seq<int> {
    if n == 0 then [] else FreshIds(t, n - 1) + [FreshId(ExportMany(t, n - 1))]
  }

  function ImportMany(t: Tables, ids: seq<int>): Tables {
    if ids == [] then t else Imported(ImportMany(t, ids[..|ids| - 1]), ids[|ids| - 1])
  }

  // ---------------------------------------------------------------- a stub's own count

  /** A caller's AddRef or Release. */
  datatype RefOp = Up | Down

  function CountAfter(start: int, ops: seq<RefOp>): int {
    if ops == [] then start
    else Int32(CountAfter(start, ops[..|ops| - 1]) + if ops[|ops| - 1] == Up then 1 else -1)
  }

  /** Some release finds the count at zero or below. */
  predicate Exhausted(start: int, ops: seq<RefOp>) {
    && ops != []
    && (Exhausted(start, ops[..|ops| - 1]) || (ops[|ops| - 1] == Down && CountAfter(start, ops) <= 0))
  }

  function Ups(ops: seq<RefOp>): nat {
    if ops == [] then 0 else Ups(ops[..|ops| - 1]) + if ops[|ops| - 1] == Up then 1 else 0
  }

  lemma {:induction false} CountIsBalance(start: int, ops: seq<RefOp>)
    requires 0 <= start && start + |ops| <= MAX_INT32
    ensures CountAfter(start, ops) == start + 2 * Ups(ops) - |ops| && Ups(ops) <= |ops|
  {
    if ops != [] {
      CountIsBalance(start, ops[..|ops| - 1]);
    }
  }

  /** The first k calls end with a release and contain at least as many releases as the start and the AddRefs allow. */
  predicate UsedUpBy(start: int, ops: seq<RefOp>, k: nat)
    requires k <= |ops|
  {
    k > 0 && ops[k - 1] == Down && k - Ups(ops[..k]) >= start + Ups(ops[..k])
  }

  /** A stub is disposed exactly when, at some release, the releases so far make up for the start and all AddRefs so far. */
  lemma {:induction false} ExhaustedExactly(start: int, ops: seq<RefOp>)
    requires 0 <= start && start + |ops| <= MAX_INT32
    ensures Exhausted(start, ops) <==> exists k: nat :: k <= |ops| && UsedUpBy(start, ops, k)
  {
    if ops != [] {
      var last := |ops| - 1;
      var front := ops[..last];
      ExhaustedExactly(start, front);
      CountIsBalance(start, ops);
      assert ops[..|ops|] == ops;
      forall k: nat | k <= last
        ensures UsedUpBy(start, front, k) <==> UsedUpBy(start, ops, k)
      {
        assert front[..k] == ops[..k];
      }
      assert UsedUpBy(start, ops, |ops|) <==> ops[last] == Down && CountAfter(start, ops) <= 0;
    }
  }

  // ---------------------------------------------------------------- the objects

  class Session {
    var exports: map<int, ExportEntry>
    var imports: map<int, int>
    var nextExportID: int
    var exportsActive: int
    var importsActive: int
    var closed: bool
    var outbox: seq<Message>    // the sending end of the transport

    constructor ()
      ensures View() == EMPTY_TABLES && !closed && outbox == []
    {
      exports, imports, nextExportID, exportsActive, importsActive := map[], map[], 0, 0, 0;
      closed, outbox := false, [];
    }

    function View(): Tables
      reads this
    {
      Tables(exports, imports, nextExportID, exportsActive, importsActive)
    }

    /** encodes says whether the message can be encoded, accepted is the transport's answer; a closed session asks neither. */
    method Send(msg: Message, encodes: bool, accepted: bool) returns (ok: bool)
      modifies this`outbox
      ensures ok == (!closed && encodes && accepted)
      ensures outbox == if ok then old(outbox) + [msg] else old(outbox)
    {
      if closed {
        return false;
      }
      if !encodes {
        return false;
      }
      if !accepted {
        return false;
      }
      outbox := outbox + [msg];
      return true;
    }

    method ExportValue(placeholder: bool) returns (exportID: int)
      modifies this`nextExportID, this`exports, this`exportsActive
      ensures exportID == FreshId(old(View())) && View() == Exported(old(View()), placeholder)
    {
      nextExportID := nextExportID + 1;
      exportID := Int32(nextExportID);
      exports := exports[exportID := ExportEntry(1, placeholder)];
      exportsActive := exportsActive + 1;
    }

    method CreateImportStub(id: int) returns (stub: StubImpl)
      modifies this`imports, this`importsActive
      ensures View() == Imported(old(View()), id)
      ensures fresh(stub) && stub.session == this && stub.importID == Some(id)
      ensures !stub.disposed && stub.refCount == 0
    {
      imports := imports[id := 1];
      importsActive := importsActive + 1;
      stub := new StubImpl(this, Some(id), 0);
    }

    method HandleRelease(id: int, count: int)
      modifies this`exports, this`exportsActive
      ensures View() == Released(old(View()), id, count)
      ensures id !in old(exports) ==> View() == old(View())
    {
      if id in exports {
        var entry := exports[id];
        entry := entry.(refCount := Int32(entry.refCount - Int32(count)));
        exports := exports[id := entry];
        if entry.refCount <= 0 {
          exports := exports - {id};
          exportsActive := exportsActive - 1;
          assert exports == old(exports) - {id};
        }
      }
    }

    /** A pull of a real value serialises it again, and so exports it again under a fresh id. */
    method HandlePull(id: int, accepted: bool) returns (ok: bool)
      modifies this`nextExportID, this`exports, this`exportsActive, this`outbox
      ensures ok == (!closed && accepted)
      ensures var again := !closed && id in old(exports) && !old(exports)[id].placeholder;
        && View() == (if again then Exported(old(View()), false) else old(View()))
        && outbox == (old(outbox) + if ok then [Data(if again then [FreshId(old(View()))] else [])] else [])
        && (again <==> !closed && PullExports(old(View()), id) == 1)
    {
      if closed {
        return false;
      }
      if id in exports && !exports[id].placeholder {
        var fresh' := ExportValue(false);
        ok := Send(Data([fresh']), true, accepted);
      } else {
        ok := Send(Data([]), true, accepted);
      }
    }
  }

  class StubImpl {
    const session: Session
    const importID: Option<int>
    var disposed: bool
    var refCount: int

    constructor (session: Session, importID: Option<int>, refCount: int)
      ensures this.session == session && this.importID == importID
      ensures !disposed && this.refCount == refCount
    {
      this.session, this.importID, this.disposed, this.refCount := session, importID, false, refCount;
    }

    /** The first disposal sends one release and drops one local reference; later ones do nothing. */
    method Dispose(accepted: bool)
      modifies this`disposed, session`imports, session`importsActive, session`outbox
      ensures disposed
      ensures old(disposed) || importID.None? ==> session.View() == old(session.View()) && session.outbox == old(session.outbox)
      ensures !old(disposed) && importID.Some? ==>
        && session.View() == Unreferenced(old(session.View()), importID.value)
        && session.outbox == old(session.outbox) + if accepted && !session.closed then [Message.Release(importID.value, 1)] else []
    {
      if disposed {
        return;
      }
      disposed := true;
      if importID.Some? {
        var id := importID.value;
        var _ := session.Send(Message.Release(id, 1), true, accepted);
        if id in session.imports {
          var left := Int32(session.imports[id] - 1);
          session.imports := session.imports[id := left];
          if left <= 0 {
            session.imports := session.imports - {id};
            session.importsActive := session.importsActive - 1;
            assert session.imports == old(session.imports) - {id};
          }
        }
      }
    }

    method AddRef()
      modifies this`refCount
      ensures refCount == Int32(old(refCount) + 1)
    {
      refCount := Int32(refCount + 1);
    }

    /** Disposes exactly when the count falls to zero or below. */
    method Release(accepted: bool)
      modifies this`refCount, this`disposed, session`imports, session`importsActive, session`outbox
      ensures refCount == Int32(old(refCount) - 1)
      ensures disposed == (old(disposed) || refCount <= 0)
      ensures disposed == old(disposed) || importID.None? ==> session.View() == old(session.View()) && session.outbox == old(session.outbox)
      ensures disposed != old(disposed) && importID.Some? ==>
        && session.View() == Unreferenced(old(session.View()), importID.value)
        && session.outbox == old(session.outbox) + if accepted && !session.closed then [Message.Release(importID.value, 1)] else []
    {
      refCount := Int32(refCount - 1);
      if refCount <= 0 {
        Dispose(accepted);
      }
    }

    /** Any sequence of calls by the holders of this stub. */
    method Use(ops: seq<RefOp>, accepted: bool)
      modifies this`refCount, this`disposed, session`imports, session`importsActive, session`outbox
      ensures refCount == CountAfter(old(refCount), ops)
      ensures disposed <==> old(disposed) || Exhausted(old(refCount), ops)
    {
      for i := 0 to |ops|
        invariant refCount == CountAfter(old(refCount), ops[..i])
        invariant disposed <==> old(disposed) || Exhausted(old(refCount), ops[..i])
      {
        assert ops[..i + 1][..i] == ops[..i];
        if ops[i] == Up {
          AddRef();
        } else {
          Release(accepted);
        }
      }
      assert ops[..|ops|] == ops;
    }

    method Clone() returns (clone: Option<StubImpl>)
      modifies session`imports
      ensures clone.None? <==> disposed
      ensures disposed || importID.None? ==> session.View() == old(session.View())
      ensures !disposed && importID.Some? ==> session.View() == Referenced(old(session.View()), importID.value)
      ensures clone.Some? ==>
        && fresh(clone.value) && clone.value.session == session && clone.value.importID == importID
        && !clone.value.disposed && clone.value.refCount == 1
    {
      if disposed {
        return None;
      }
      var stub := new StubImpl(session, importID, 1);
      if importID.Some? && importID.value in session.imports {
        session.imports := session.imports[importID.value := Int32(session.imports[importID.value] + 1)];
      }
      return Some(stub);
    }
  }
}
