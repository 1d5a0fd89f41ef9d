/** Tracking, releasing and disposing of resources, as the critical sections of concurrent threads (resource_management.go). */
module Resources {
  import opened Sequences

  const QUEUE_CAPACITY: nat := 1000

  /** A *ManagedResource; cleanups counts how often its CleanupFunc has been started. */
  datatype Resource = Resource(refCount: int, disposed: bool, cleanups: nat)

  /** Stop first claims the shutdown, and then empties the table. */
  datatype Phase = Running | Stopping | Stopped

  /** Callers of TrackResource past the first test, past the second, and with an id drawn that is not inserted yet. */
  datatype Trackers = Trackers(checked: nat, counted: nat, numbered: seq<nat>)

  /**
   * References and releases that have looked their resource up, releases that found the count used up and still have to
   * queue the resource, and what an idle sweep still has to queue.
   */
  datatype Users = Users(adding: seq<nat>, pending: seq<nat>, due: seq<nat>, swept: seq<nat>)

  /**
   * created holds every resource ever made, table the ids under management. holders are threads about to dispose a
   * resource, stopList is what Stop collected and goes on to dispose, in any order, cleaning those running a cleanup.
   */
  datatype State = State(
    maxResources: int, created: map<nat, Resource>, table: set<nat>, nextID: nat, phase: Phase,
    trackers: Trackers, users: Users,
    queue: seq<nat>, holders: seq<nat>, stopList: set<nat>, cleaning: seq<nat>)

  datatype Step =
    | TrackCheck | TrackCount | TrackNumber | TrackInsert(id: nat)
    | Untrack(id: nat)
    | AddLookup(id: nat) | AddCount(id: nat)
    | ReleaseLookup(id: nat) | ReleaseCount(id: nat) | ReleaseQueue(id: nat)
    | Sweep(id: nat) | SweepQueue(id: nat) | WorkerTake
    | Dispose(id: nat) | StopDispose(id: nat) | CleanupDone(id: nat)
    | StopBegin | StopCollect

  function Initial(maxResources: int): State {
    State(maxResources, map[], {}, 0, Running, Trackers(0, 0, []), Users([], [], [], []), [], [], {}, [])
  }

  /** Removes the first occurrence. */
  function Without(ids: seq<nat>, id: nat): seq<nat> {
    if ids == [] then [] else if ids[0] == id then ids[1..] else [ids[0]] + Without(ids[1..], id)
  }

  lemma {:induction false} WithoutKeepsOthers(ids: seq<nat>, id: nat, other: nat)
    requires other != id
    ensures other in Without(ids, id) <==> other in ids
  {
    if ids != [] && ids[0] != id {
      WithoutKeepsOthers(ids[1..], id, other);
    }
  }

  lemma {:induction false} WithoutIsSmaller(ids: seq<nat>, id: nat, other: nat)
    requires other in Without(ids, id)
    ensures other in ids
  {
    if ids != [] && ids[0] != id && other != ids[0] {
      WithoutIsSmaller(ids[1..], id, other);
    }
  }

  function Counted(s: State): State {
    var t := s.trackers;
    if t.checked == 0 then s
    else if |s.table| >= s.maxResources then s.(trackers := t.(checked := t.checked - 1))
    else s.(trackers := t.(checked := t.checked - 1, counted := t.counted + 1))
  }

  function Numbered(s: State): State {
    var t := s.trackers;
    if t.counted == 0 then s
    else s.(nextID := s.nextID + 1, trackers := t.(counted := t.counted - 1, numbered := t.numbered + [s.nextID + 1]))
  }

  function Inserted(s: State, id: nat): State {
    var t := s.trackers;
    if id !in t.numbered then s
    else s.(trackers := t.(numbered := Without(t.numbered, id)),
            created := s.created[id := Resource(1, false, 0)], table := s.table + {id})
  }

  function Untracked(s: State, id: nat): State {
    if id !in s.table then s else s.(table := s.table - {id}, holders := s.holders + [id])
  }

  function LookedUp(s: State, id: nat, adding: bool): State {
    var u := s.users;
    if id !in s.table then s
    else if adding then s.(users := u.(adding := u.adding + [id]))
    else s.(users := u.(pending := u.pending + [id]))
  }

  /** The resource may have been delisted since it was looked up. */
  function Referenced(s: State, id: nat): State {
    if id !in s.users.adding || id !in s.created then s
    else s.(users := s.users.(adding := Without(s.users.adding, id)),
            created := s.created[id := s.created[id].(refCount := s.created[id].refCount + 1)])
  }

  function ReleaseCounted(s: State, id: nat): State {
    var u := s.users;
    if id !in u.pending || id !in s.created then s
    else
      var r := s.created[id].(refCount := s.created[id].refCount - 1);
      s.(created := s.created[id := r],
         users := u.(pending := Without(u.pending, id), due := if r.refCount <= 0 then u.due + [id] else u.due))
  }

  /** Queued, or disposed by a goroutine of its own when the queue is full. */
  function ReleaseQueued(s: State, id: nat): State {
    var u := s.users;
    if id !in u.due then s
    else if |s.queue| < QUEUE_CAPACITY then s.(users := u.(due := Without(u.due, id)), queue := s.queue + [id])
    else s.(users := u.(due := Without(u.due, id)), holders := s.holders + [id])
  }

  /** Only what nobody refers to is swept; which of these count as idle depends on the clock. */
  function Swept(s: State, id: nat): State {
    if id in s.table && id in s.created && s.created[id].refCount <= 0 then
      s.(users := s.users.(swept := s.users.swept + [id]))
    else s
  }

  function SweepQueued(s: State, id: nat): State {
    var u := s.users;
    if id !in u.swept then s
    else if |s.queue| < QUEUE_CAPACITY then s.(users := u.(swept := Without(u.swept, id)), queue := s.queue + [id])
    else s.(users := u.(swept := Without(u.swept, id)))
  }

  function Taken(s: State): State {
    if s.queue == [] then s else s.(queue := s.queue[1..], holders := s.holders + [s.queue[0]])
  }

  /** A worker, an untracking caller or a goroutine of its own disposes; the flag lets only the first one clean up. */
  function Disposed(s: State, id: nat): State {
    if id !in s.holders || id !in s.created then s
    else if s.created[id].disposed then s.(holders := Without(s.holders, id))
    else Marked(s, id).(holders := Without(s.holders, id))
  }

  /** Stop disposes what it collected in the same way. */
  function StopDisposed(s: State, id: nat): State {
    if id !in s.stopList || id !in s.created then s
    else if s.created[id].disposed then s.(stopList := s.stopList - {id})
    else Marked(s, id).(stopList := s.stopList - {id})
  }

  function Marked(s: State, id: nat): State
    requires id in s.created
  {
    var r := s.created[id];
    s.(created := s.created[id := Resource(r.refCount, true, r.cleanups + 1)], cleaning := s.cleaning + [id])
  }

  function Cleaned(s: State, id: nat): State {
    if id !in s.cleaning then s else s.(cleaning := Without(s.cleaning, id), table := s.table - {id})
  }

  function Collected(s: State): State {
    if s.phase != Stopping then s else s.(phase := Stopped, stopList := s.table, table := {})
  }

  function Checked(s: State): State {
    if s.phase == Running then s.(trackers := s.trackers.(checked := s.trackers.checked + 1)) else s
  }

  function Next(s: State, step: Step): State {
    match step
    case TrackCheck => Checked(s)
    case TrackCount => Counted(s)
    case TrackNumber => Numbered(s)
    case TrackInsert(id) => Inserted(s, id)
    case Untrack(id) => Untracked(s, id)
    case AddLookup(id) => LookedUp(s, id, true)
    case AddCount(id) => Referenced(s, id)
    case ReleaseLookup(id) => LookedUp(s, id, false)
    case ReleaseCount(id) => ReleaseCounted(s, id)
    case ReleaseQueue(id) => ReleaseQueued(s, id)
    case Sweep(id) => Swept(s, id)
    case SweepQueue(id) => SweepQueued(s, id)
    case WorkerTake => Taken(s)
    case Dispose(id) => Disposed(s, id)
    case StopDispose(id) => StopDisposed(s, id)
    case CleanupDone(id) => Cleaned(s, id)
    case StopBegin => if s.phase == Running then s.(phase := Stopping) else s
    case StopCollect => Collected(s)
  }

  function RunFrom(s: State, steps: seq<Step>): State {
    if steps == [] then s else Next(RunFrom(s, steps[..|steps| - 1]), steps[|steps| - 1])
  }

  function Run(maxResources: int, steps: seq<Step>): State {
    RunFrom(Initial(maxResources), steps)
  }

  // ---------------------------------------------------------------- the invariant

  /** The cleanup has started exactly once if the resource is marked disposed, and never otherwise. */
  ghost predicate CleanedOnce(r: Resource) {
    r.cleanups == if r.disposed then 1 else 0
  }

  ghost predicate Doomed(s: State, id: nat) {
    id in s.holders || id in s.stopList
  }

  /** Nothing live is forgotten; what is disposed but still listed has a thread that will delist it. */
  ghost predicate Accounted(s: State, id: nat) {
    && (id in s.table || id in s.cleaning ==> id in s.created)
    && (id in s.trackers.numbered ==> id !in s.created && id <= s.nextID)
    && (id in s.created ==>
      && id <= s.nextID
      && CleanedOnce(s.created[id])
      && (s.created[id].disposed || id in s.table || Doomed(s, id))
      && (if s.created[id].disposed then id in s.table ==> id in s.cleaning else id !in s.cleaning))
  }

  /** Before Stop has emptied the table it has nothing to dispose. */
  ghost predicate Phased(s: State) {
    s.phase != Stopped ==> s.stopList == {}
  }

  ghost predicate AllAccounted(s: State) {
    forall id :: Accounted(s, id)
  }

  ghost predicate Good(s: State) {
    Phased(s) && DrawnOnce(s) && AllAccounted(s)
  }

  /** A resource is never unmade, nor its disposal undone. */
  ghost predicate Persists(s: State, t: State, id: nat) {
    id in s.created ==> id in t.created && (s.created[id].disposed ==> t.created[id].disposed)
  }

  /** Every id is drawn only once. */
  ghost predicate DrawnOnce(s: State) {
    Distinct(s.trackers.numbered) && forall id :: id in s.trackers.numbered ==> id <= s.nextID
  }

  lemma {:induction false} WithoutKeepsDistinct(ids: seq<nat>, id: nat)
    requires Distinct(ids)
    ensures Distinct(Without(ids, id)) && id !in Without(ids, id)
  {
    if ids != [] && ids[0] != id {
      WithoutKeepsDistinct(ids[1..], id);
      var rest := Without(ids[1..], id);
      if ids[0] in rest {
        WithoutIsSmaller(ids[1..], id, ids[0]);
      }
    }
  }

  lemma NumberDrawsOnce(s: State)
    requires DrawnOnce(s)
    ensures DrawnOnce(Numbered(s))
  {
    var next := s.trackers.numbered + [s.nextID + 1];
    assert s.nextID + 1 !in s.trackers.numbered;
    forall i, j | 0 <= i < j < |next|
      ensures next[i] != next[j]
    {
      assert next[i] in s.trackers.numbered;
    }
  }

  lemma InsertDrawsOnce(s: State, id: nat)
    requires DrawnOnce(s)
    ensures DrawnOnce(Inserted(s, id))
  {
    WithoutKeepsDistinct(s.trackers.numbered, id);
    forall other | other in Without(s.trackers.numbered, id)
      ensures other <= s.nextID
    {
      WithoutIsSmaller(s.trackers.numbered, id, other);
    }
  }

  lemma StepDrawsOnce(s: State, step: Step)
    requires DrawnOnce(s)
    ensures DrawnOnce(Next(s, step))
  {
    match step
    case TrackNumber => NumberDrawsOnce(s);
    case TrackInsert(id) => InsertDrawsOnce(s, id);
    case _ =>
  }

  lemma NumberAccounts(s: State, id: nat)
    requires Accounted(s, id)
    ensures Accounted(Numbered(s), id)
  {
  }

  lemma InsertAccounts(s: State, other: nat, id: nat)
    requires Accounted(s, id) && DrawnOnce(s)
    ensures Accounted(Inserted(s, other), id) && Persists(s, Inserted(s, other), id)
  {
    if other == id {
      WithoutKeepsDistinct(s.trackers.numbered, id);
    } else {
      WithoutKeepsOthers(s.trackers.numbered, other, id);
    }
  }

  lemma CountsAccount(s: State, other: nat, id: nat)
    requires Accounted(s, id)
    ensures Accounted(Referenced(s, other), id) && Persists(s, Referenced(s, other), id)
    ensures Accounted(ReleaseCounted(s, other), id) && Persists(s, ReleaseCounted(s, other), id)
  {
  }

  lemma UntrackAccounts(s: State, other: nat, id: nat)
    requires Accounted(s, id)
    ensures Accounted(Untracked(s, other), id)
  {
  }

  lemma QueueAccounts(s: State, other: nat, id: nat)
    requires Accounted(s, id)
    ensures Accounted(ReleaseQueued(s, other), id) && Accounted(Taken(s), id)
  {
  }

  lemma SweepAccounts(s: State, other: nat, id: nat)
    requires Accounted(s, id)
    ensures Accounted(Swept(s, other), id) && Accounted(SweepQueued(s, other), id)
  {
  }

  lemma DisposeAccounts(s: State, other: nat, id: nat)
    requires Accounted(s, id)
    ensures Accounted(Disposed(s, other), id) && Persists(s, Disposed(s, other), id)
  {
    if other != id {
      WithoutKeepsOthers(s.holders, other, id);
    }
  }

  lemma StopAccounts(s: State, other: nat, id: nat)
    requires Accounted(s, id)
    ensures Accounted(StopDisposed(s, other), id) && Persists(s, StopDisposed(s, other), id)
  {
  }

  lemma CleanupAccounts(s: State, other: nat, id: nat)
    requires Accounted(s, id)
    ensures Accounted(Cleaned(s, other), id)
  {
    if other != id {
      WithoutKeepsOthers(s.cleaning, other, id);
    } else if id in Without(s.cleaning, id) {
      WithoutIsSmaller(s.cleaning, id, id);
    }
  }

  /** Stop collects only once, when it has nothing else to dispose. */
  lemma CollectAccounts(s: State, id: nat)
    requires Accounted(s, id) && s.stopList == {}
    ensures Accounted(Collected(s), id)
  {
  }

  lemma StepAccounts(s: State, step: Step, id: nat)
    requires Accounted(s, id) && DrawnOnce(s) && Phased(s)
    ensures Accounted(Next(s, step), id) && Persists(s, Next(s, step), id)
  {
    match step
    case TrackNumber => NumberAccounts(s, id);
    case TrackInsert(other) => InsertAccounts(s, other, id);
    case Untrack(other) => UntrackAccounts(s, other, id);
    case AddCount(other) => CountsAccount(s, other, id);
    case ReleaseCount(other) => CountsAccount(s, other, id);
    case ReleaseQueue(other) => QueueAccounts(s, other, id);
    case Sweep(other) => SweepAccounts(s, other, id);
    case SweepQueue(other) => SweepAccounts(s, other, id);
    case WorkerTake => QueueAccounts(s, 0, id);
    case Dispose(other) => DisposeAccounts(s, other, id);
    case StopDispose(other) => StopAccounts(s, other, id);
    case CleanupDone(other) => CleanupAccounts(s, other, id);
    case StopCollect => if s.phase == Stopping { CollectAccounts(s, id); }
    case _ =>
  }

  lemma StepKeepsPhased(s: State, step: Step)
    requires Phased(s)
    ensures Phased(Next(s, step))
  {
  }

  lemma StepKeepsGood(s: State, step: Step)
    requires Good(s)
    ensures Good(Next(s, step))
  {
    StepKeepsPhased(s, step);
    StepDrawsOnce(s, step);
    forall id: nat
      ensures Accounted(Next(s, step), id)
    {
      StepAccounts(s, step, id);
    }
  }

  /** In every interleaving: one cleanup per resource at most, and every live resource is listed or about to be disposed. */
  lemma {:induction false} RunIsGood(s: State, steps: seq<Step>)
    requires Good(s)
    ensures Phased(RunFrom(s, steps)) && DrawnOnce(RunFrom(s, steps)) && AllAccounted(RunFrom(s, steps))
  {
    if steps != [] {
      RunIsGood(s, steps[..|steps| - 1]);
      StepKeepsGood(RunFrom(s, steps[..|steps| - 1]), steps[|steps| - 1]);
    }
  }

  /** Once the cleanup of a resource has started it never starts again, whatever else happens. */
  lemma {:induction false} CleanedUpOnce(s: State, steps: seq<Step>, id: nat)
    requires Good(s) && id in s.created && s.created[id].cleanups == 1
    ensures var r := RunFrom(s, steps); id in r.created && r.created[id].disposed && r.created[id].cleanups == 1
  {
    assert Accounted(s, id);
    RunIsGood(s, steps);
    assert Accounted(RunFrom(s, steps), id);
    if steps != [] {
      var front := steps[..|steps| - 1];
      CleanedUpOnce(s, front, id);
      RunIsGood(s, front);
      StepAccounts(RunFrom(s, front), steps[|steps| - 1], id);
    }
  }

  /** No thread is in the middle of a disposal. */
  ghost predicate Idle(s: State) {
    s.holders == [] && s.stopList == {} && s.cleaning == []
  }

  /** Between disposals, the table holds exactly the resources that have not been cleaned up. */
  lemma TableIsExactWhenIdle(maxResources: int, steps: seq<Step>, id: nat)
    requires var s := Run(maxResources, steps); Idle(s) && id in s.created
    ensures var s := Run(maxResources, steps); id in s.table <==> s.created[id].cleanups == 0
  {
    RunIsGood(Initial(maxResources), steps);
    assert Accounted(Run(maxResources, steps), id);
  }

  // ---------------------------------------------------------------- the reference count

  /** The step is an AddRef of the resource that gets through, or a Release of it. */
  predicate Adds(s: State, step: Step, id: nat) {
    step == AddCount(id) && id in s.users.adding && id in s.created
  }

  predicate Drops(s: State, step: Step, id: nat) {
    step == ReleaseCount(id) && id in s.users.pending && id in s.created
  }

  function Added(maxResources: int, steps: seq<Step>, id: nat): nat {
    if steps == [] then 0
    else
      var front, last := steps[..|steps| - 1], steps[|steps| - 1];
      Added(maxResources, front, id) + if Adds(Run(maxResources, front), last, id) then 1 else 0
  }

  function Dropped(maxResources: int, steps: seq<Step>, id: nat): nat {
    if steps == [] then 0
    else
      var front, last := steps[..|steps| - 1], steps[|steps| - 1];
      Dropped(maxResources, front, id) + if Drops(Run(maxResources, front), last, id) then 1 else 0
  }

  /** What a step does to the count of a resource: an insertion sets it, an AddRef raises it, a Release lowers it. */
  lemma StepCounts(s: State, step: Step, id: nat)
    requires Accounted(s, id)
    ensures id in s.created ==>
      && id in Next(s, step).created
      && Next(s, step).created[id].refCount
        == s.created[id].refCount + (if Adds(s, step, id) then 1 else 0) - (if Drops(s, step, id) then 1 else 0)
    ensures id !in s.created && id in Next(s, step).created ==> Next(s, step).created[id].refCount == 1
  {
  }

  /** In every run the count is 1, plus the AddRefs, less the Releases. */
  lemma {:induction false} RefCountIsBalance(maxResources: int, steps: seq<Step>, id: nat)
    ensures var s := Run(maxResources, steps);
      if id in s.created then s.created[id].refCount == 1 + Added(maxResources, steps, id) - Dropped(maxResources, steps, id)
      else Added(maxResources, steps, id) == 0 == Dropped(maxResources, steps, id)
  {
    if steps != [] {
      var front, last := steps[..|steps| - 1], steps[|steps| - 1];
      RefCountIsBalance(maxResources, front, id);
      RunIsGood(Initial(maxResources), front);
      assert Accounted(Run(maxResources, front), id);
      StepCounts(Run(maxResources, front), last, id);
    }
  }

  /** A Release puts the resource up for cleanup if and only if the Releases, with it, make up for the first reference and all AddRefs. */
  lemma ReleaseCondemnsExactly(maxResources: int, steps: seq<Step>, id: nat)
    requires var s := Run(maxResources, steps); id in s.users.pending && id in s.created
    ensures var s := Run(maxResources, steps);
      Next(s, ReleaseCount(id)).users.due
        == s.users.due + if Dropped(maxResources, steps, id) + 1 >= 1 + Added(maxResources, steps, id) then [id] else []
  {
    RefCountIsBalance(maxResources, steps, id);
  }

  /** Nothing is under way that could end in the resource's cleanup. */
  ghost predicate Untouched(s: State, id: nat) {
    && id !in s.users.due && id !in s.users.swept && id !in s.queue && !Doomed(s, id) && id !in s.cleaning
    && (id in s.created ==> !s.created[id].disposed)
  }

  /** At every moment the resource has more references than Releases, nobody untracks it and Stop does not collect. */
  ghost predicate Held(maxResources: int, steps: seq<Step>, id: nat) {
    && (forall k :: 0 <= k <= |steps| ==> Referred(maxResources, steps[..k], id))
    && (forall k :: 0 <= k < |steps| ==> steps[k] != Untrack(id) && steps[k] != StopCollect)
  }

  ghost predicate Referred(maxResources: int, steps: seq<Step>, id: nat) {
    id in Run(maxResources, steps).created ==> Dropped(maxResources, steps, id) < 1 + Added(maxResources, steps, id)
  }

  lemma StepLeavesUntouched(s: State, step: Step, id: nat)
    requires Untouched(s, id) && Accounted(s, id) && step != Untrack(id) && step != StopCollect
    requires id in s.created ==> s.created[id].refCount > 0
    requires id in Next(s, step).created ==> Next(s, step).created[id].refCount > 0
    ensures Untouched(Next(s, step), id)
  {
    match step
    case ReleaseQueue(other) => QueueLeavesUntouched(s, other, id);
    case SweepQueue(other) => QueueLeavesUntouched(s, other, id);
    case Dispose(other) => DisposeLeavesUntouched(s, other, id);
    case CleanupDone(other) => DisposeLeavesUntouched(s, other, id);
    case _ =>
  }

  lemma QueueLeavesUntouched(s: State, other: nat, id: nat)
    requires Untouched(s, id)
    ensures Untouched(ReleaseQueued(s, other), id) && Untouched(SweepQueued(s, other), id)
  {
    if id in Without(s.users.due, other) {
      WithoutIsSmaller(s.users.due, other, id);
    }
    if id in Without(s.users.swept, other) {
      WithoutIsSmaller(s.users.swept, other, id);
    }
  }

  lemma DisposeLeavesUntouched(s: State, other: nat, id: nat)
    requires Untouched(s, id)
    ensures Untouched(Disposed(s, other), id) && Untouched(Cleaned(s, other), id)
  {
    if id in Without(s.holders, other) {
      WithoutIsSmaller(s.holders, other, id);
    }
    if id in Without(s.cleaning, other) {
      WithoutIsSmaller(s.cleaning, other, id);
    }
  }

  lemma HeldBefore(maxResources: int, steps: seq<Step>, id: nat)
    requires steps != [] && Held(maxResources, steps, id)
    ensures Held(maxResources, steps[..|steps| - 1], id)
    ensures Referred(maxResources, steps, id) && Referred(maxResources, steps[..|steps| - 1], id)
  {
    var front := steps[..|steps| - 1];
    assert steps[..|steps|] == steps;
    assert Referred(maxResources, steps[..|steps|], id) && Referred(maxResources, steps[..|steps| - 1], id);
    forall k | 0 <= k <= |front|
      ensures Referred(maxResources, front[..k], id)
    {
      assert front[..k] == steps[..k];
      assert Referred(maxResources, steps[..k], id);
    }
  }

  /** A resource that is referred to throughout is never up for cleanup, never queued and never cleaned up. */
  lemma {:induction false} HeldIsUntouched(maxResources: int, steps: seq<Step>, id: nat)
    requires Held(maxResources, steps, id)
    ensures Untouched(Run(maxResources, steps), id)
    ensures var s := Run(maxResources, steps); id in s.created ==> id in s.table && s.created[id].cleanups == 0
  {
    RunIsGood(Initial(maxResources), steps);
    assert Accounted(Run(maxResources, steps), id);
    if steps != [] {
      var front := steps[..|steps| - 1];
      HeldBefore(maxResources, steps, id);
      HeldIsUntouched(maxResources, front, id);
      RunIsGood(Initial(maxResources), front);
      assert Accounted(Run(maxResources, front), id);
      RefCountIsBalance(maxResources, front, id);
      RefCountIsBalance(maxResources, steps, id);
      StepLeavesUntouched(Run(maxResources, front), steps[|steps| - 1], id);
    }
  }

  // ---------------------------------------------------------------- references do not save a queued resource

  /** Queued, on its way into or out of the queue, or disposed already. */
  ghost predicate Condemned(s: State, id: nat) {
    id in s.created && (id in s.users.due || id in s.queue || Doomed(s, id) || s.created[id].disposed)
  }

  lemma DisposingKeepsCondemned(s: State, other: nat, id: nat)
    requires Condemned(s, id)
    ensures Condemned(Disposed(s, other), id) && Condemned(StopDisposed(s, other), id)
  {
    if other != id {
      WithoutKeepsOthers(s.holders, other, id);
    }
  }

  lemma QueueKeepsCondemned(s: State, other: nat, id: nat)
    requires Condemned(s, id)
    ensures Condemned(ReleaseQueued(s, other), id) && Condemned(SweepQueued(s, other), id) && Condemned(Taken(s), id)
  {
    if other != id {
      WithoutKeepsOthers(s.users.due, other, id);
    }
    if s.queue != [] && id in s.queue {
      assert s.queue == [s.queue[0]] + s.queue[1..];
    }
  }

  lemma CountsKeepCondemned(s: State, other: nat, id: nat)
    requires Condemned(s, id)
    ensures Condemned(Referenced(s, other), id) && Condemned(ReleaseCounted(s, other), id)
  {
  }

  lemma StepKeepsCondemned(s: State, step: Step, id: nat)
    requires Condemned(s, id) && Accounted(s, id) && Phased(s)
    ensures Condemned(Next(s, step), id)
  {
    match step
    case AddCount(other) => CountsKeepCondemned(s, other, id);
    case ReleaseCount(other) => CountsKeepCondemned(s, other, id);
    case ReleaseQueue(other) => QueueKeepsCondemned(s, other, id);
    case SweepQueue(other) => QueueKeepsCondemned(s, other, id);
    case WorkerTake => QueueKeepsCondemned(s, 0, id);
    case Dispose(other) => DisposingKeepsCondemned(s, other, id);
    case StopDispose(other) => DisposingKeepsCondemned(s, other, id);
    case _ =>
  }

  /**
   * Once a release has found the count used up, no reference added later saves the resource, wherever it is in the
   * queue and however the run continues; when the queue is empty and no disposal pending, it has been cleaned up.
   */
  lemma {:induction false} QueuedIsDoomed(s: State, more: seq<Step>, id: nat)
    requires Good(s) && Condemned(s, id)
    ensures var r := RunFrom(s, more);
      && Condemned(r, id)
      && (r.users.due == [] && r.queue == [] && Idle(r) ==> r.created[id].cleanups == 1)
  {
    RunIsGood(s, more);
    assert Accounted(RunFrom(s, more), id);
    if more != [] {
      var front := more[..|more| - 1];
      QueuedIsDoomed(s, front, id);
      RunIsGood(s, front);
      assert Accounted(RunFrom(s, front), id);
      StepKeepsCondemned(RunFrom(s, front), more[|more| - 1], id);
    }
  }

  /** A release that takes the count to zero is what condemns the resource. */
  lemma LastReleaseCondemns(s: State, id: nat)
    requires id in s.users.pending && id in s.created && s.created[id].refCount <= 1
    ensures Condemned(Next(s, ReleaseCount(id)), id)
  {
  }

  // ---------------------------------------------------------------- Track racing Stop

  /** No tracker is left that could still insert. */
  ghost predicate Sealed(s: State) {
    s.phase != Running && s.trackers.numbered == [] && s.trackers.counted == 0 && (s.trackers.checked == 0 || s.maxResources <= 0)
  }

  lemma SealedStep(s: State, step: Step)
    requires Sealed(s) && s.table == {}
    ensures Sealed(Next(s, step)) && Next(s, step).table == {}
  {
  }

  lemma {:induction false} SealedStaysEmpty(s: State, steps: seq<Step>)
    requires Sealed(s) && s.table == {}
    ensures Sealed(RunFrom(s, steps)) && RunFrom(s, steps).table == {}
  {
    if steps != [] {
      SealedStaysEmpty(s, steps[..|steps| - 1]);
      SealedStep(RunFrom(s, steps[..|steps| - 1]), steps[|steps| - 1]);
    }
  }

  lemma {:induction false} RunInTurn(s: State, step: Step, more: seq<Step>)
    ensures RunFrom(s, [step] + more) == RunFrom(Next(s, step), more)
  {
    if more == [] {
      assert [step] + more == [step] && [step][..0] == [];
      assert RunFrom(s, []) == s;
    } else {
      var last := |more| - 1;
      assert ([step] + more)[..|more|] == [step] + more[..last];
      RunInTurn(s, step, more[..last]);
    }
  }

  lemma InsertLate(s: State)
    requires s.trackers.numbered != []
    ensures exists more, id :: id in RunFrom(s, more).table
  {
    var id := s.trackers.numbered[0];
    RunInTurn(s, TrackInsert(id), []);
    assert id in RunFrom(s, [TrackInsert(id)] + []).table;
  }

  lemma NumberLate(s: State)
    requires s.trackers.counted > 0
    ensures exists more, id :: id in RunFrom(s, more).table
  {
    InsertLate(Numbered(s));
    var more, id :| id in RunFrom(Numbered(s), more).table;
    RunInTurn(s, TrackNumber, more);
    assert id in RunFrom(s, [TrackNumber] + more).table;
  }

  lemma CountLate(s: State)
    requires s.trackers.checked > 0 && |s.table| < s.maxResources
    ensures exists more, id :: id in RunFrom(s, more).table
  {
    NumberLate(Counted(s));
    var more, id :| id in RunFrom(Counted(s), more).table;
    RunInTurn(s, TrackCount, more);
    assert id in RunFrom(s, [TrackCount] + more).table;
  }

  /**
   * After Stop has emptied the table, it stays empty in every continuation if and only if no tracker was between its
   * tests and its insertion: such a tracker leaves a resource in the table of a stopped manager.
   */
  lemma StopIsFinalExactly(maxResources: int, steps: seq<Step>)
    requires var s := Run(maxResources, steps); s.phase == Stopped && s.table == {}
    ensures var s := Run(maxResources, steps);
      (forall more :: RunFrom(s, more).table == {})
        <==> s.trackers.numbered == [] && s.trackers.counted == 0 && (s.trackers.checked == 0 || s.maxResources <= 0)
  {
    var s := Run(maxResources, steps);
    RunIsGood(Initial(maxResources), steps);
    if Sealed(s) {
      forall more
        ensures RunFrom(s, more).table == {}
      {
        SealedStaysEmpty(s, more);
      }
    } else if s.trackers.numbered != [] {
      InsertLate(s);
    } else if s.trackers.counted > 0 {
      NumberLate(s);
    } else {
      CountLate(s);
    }
  }

  /** Once Stop has collected and no tracker is in between, everything ever created is disposed or about to be. */
  lemma StopDisposesAll(maxResources: int, steps: seq<Step>, id: nat)
    requires var s := Run(maxResources, steps); s.table == {} && id in s.created
    ensures var s := Run(maxResources, steps); s.created[id].cleanups == 1 || Doomed(s, id)
  {
    RunIsGood(Initial(maxResources), steps);
    assert Accounted(Run(maxResources, steps), id);
  }

  // ---------------------------------------------------------------- the manager object

  class ResourceManager {
    const maxResources: int
    var created: map<nat, Resource>   // the resource objects, by id
    var resources: set<nat>
    var nextResourceID: nat
    var running: bool
    var cleanupQueue: seq<nat>
    // how far the threads have got
    ghost var emptied: bool
    ghost var trackers: Trackers
    ghost var users: Users
    ghost var holders: seq<nat>
    ghost var stopList: set<nat>
    ghost var cleaning: seq<nat>

    constructor (maxResources: int)
      ensures View() == Initial(maxResources)
    {
      this.maxResources := maxResources;
      created, resources, nextResourceID, running, cleanupQueue := map[], {}, 0, true, [];
      emptied, trackers, users := false, Trackers(0, 0, []), Users([], [], [], []);
      holders, stopList, cleaning := [], {}, [];
    }

    ghost function View(): State
      reads this
    {
      State(maxResources, created, resources, nextResourceID, if running then Running else if emptied then Stopped else Stopping,
            trackers, users, cleanupQueue, holders, stopList, cleaning)
    }

    /** The first test of TrackResource. */
    method IsRunning() returns (ok: bool)
      modifies this
      ensures View() == Next(old(View()), TrackCheck)
      ensures ok <==> old(running)
    {
      if running {
        trackers := trackers.(checked := trackers.checked + 1);
      }
      return running;
    }

    /** The second test of TrackResource. */
    method HasRoom() returns (ok: bool)
      requires trackers.checked > 0
      modifies this
      ensures View() == Next(old(View()), TrackCount)
      ensures ok <==> |old(resources)| < maxResources
    {
      trackers := trackers.(checked := trackers.checked - 1);
      if |resources| >= maxResources {
        return false;
      }
      trackers := trackers.(counted := trackers.counted + 1);
      return true;
    }

    /** The atomic counter gives every tracker an id of its own. */
    method DrawNumber() returns (id: nat)
      requires trackers.counted > 0
      modifies this
      ensures View() == Next(old(View()), TrackNumber)
      ensures id == nextResourceID == old(nextResourceID) + 1
    {
      nextResourceID := nextResourceID + 1;
      id := nextResourceID;
      trackers := trackers.(numbered := trackers.numbered + [id]);
      trackers := trackers.(counted := trackers.counted - 1);
    }

    method Insert(id: nat)
      requires id in trackers.numbered
      modifies this
      ensures View() == Next(old(View()), TrackInsert(id))
      ensures id in resources && id in created && created[id] == Resource(1, false, 0)
    {
      created := created[id := Resource(1, false, 0)];
      resources := resources + {id};
      trackers := trackers.(numbered := Without(trackers.numbered, id));
    }

    /** UntrackResource up to its disposal, which the caller goes on to do. */
    method Remove(id: nat) returns (found: bool)
      modifies this
      ensures View() == Next(old(View()), Untrack(id))
      ensures found <==> id in old(resources)
    {
      found := id in resources;
      if found {
        resources := resources - {id};
        holders := holders + [id];
      }
    }

    method LookupForAdd(id: nat) returns (found: bool)
      modifies this
      ensures View() == Next(old(View()), AddLookup(id))
      ensures found <==> id in old(resources)
    {
      if id !in resources {
        return false;
      }
      users := users.(adding := users.adding + [id]);
      return true;
    }

    method CountAdd(id: nat)
      requires id in users.adding && id in created
      modifies this
      ensures View() == Next(old(View()), AddCount(id))
      ensures id in created && created[id].refCount == old(created)[id].refCount + 1
    {
      created := created[id := created[id].(refCount := created[id].refCount + 1)];
      users := users.(adding := Without(users.adding, id));
    }

    method LookupForRelease(id: nat) returns (found: bool)
      modifies this
      ensures View() == Next(old(View()), ReleaseLookup(id))
      ensures found <==> id in old(resources)
    {
      if id !in resources {
        return false;
      }
      users := users.(pending := users.pending + [id]);
      return true;
    }

    method CountRelease(id: nat) returns (usedUp: bool)
      requires id in users.pending && id in created
      modifies this
      ensures View() == Next(old(View()), ReleaseCount(id))
      ensures id in created && created[id].refCount == old(created)[id].refCount - 1
      ensures usedUp <==> created[id].refCount <= 0
    {
      var newRefCount := created[id].refCount - 1;
      created := created[id := created[id].(refCount := newRefCount)];
      users := users.(pending := Without(users.pending, id));
      if newRefCount <= 0 {
        users := users.(due := users.due + [id]);
      }
      return newRefCount <= 0;
    }

    method QueueForCleanup(id: nat)
      requires id in users.due
      modifies this
      ensures View() == Next(old(View()), ReleaseQueue(id))
      ensures cleanupQueue == old(cleanupQueue) + if |old(cleanupQueue)| < QUEUE_CAPACITY then [id] else []
      ensures holders == old(holders) + if |old(cleanupQueue)| < QUEUE_CAPACITY then [] else [id]
    {
      users := users.(due := Without(users.due, id));
      if |cleanupQueue| < QUEUE_CAPACITY {
        cleanupQueue := cleanupQueue + [id];
      } else {
        holders := holders + [id];
      }
    }

    /** The idle sweep notes a listed resource that nobody refers to. */
    method SweepIdle(id: nat) returns (idle: bool)
      requires AllAccounted(View())
      modifies this
      ensures View() == Next(old(View()), Sweep(id))
      ensures idle <==> id in resources && id in created && created[id].refCount <= 0
      ensures users.swept == old(users.swept) + if idle then [id] else []
    {
      assert Accounted(View(), id);
      idle := id in resources && created[id].refCount <= 0;
      if idle {
        users := users.(swept := users.swept + [id]);
      }
    }

    /** It queues what it noted, and skips it when the queue is full. */
    method QueueIdle(id: nat)
      requires id in users.swept
      modifies this
      ensures View() == Next(old(View()), SweepQueue(id))
      ensures cleanupQueue == old(cleanupQueue) + if |old(cleanupQueue)| < QUEUE_CAPACITY then [id] else []
    {
      users := users.(swept := Without(users.swept, id));
      if |cleanupQueue| < QUEUE_CAPACITY {
        cleanupQueue := cleanupQueue + [id];
      }
    }

    method TakeFromQueue() returns (id: nat)
      requires cleanupQueue != []
      modifies this
      ensures View() == Next(old(View()), WorkerTake)
      ensures id == old(cleanupQueue)[0]
    {
      id := cleanupQueue[0];
      cleanupQueue := cleanupQueue[1..];
      holders := holders + [id];
    }

    /** The guarded part of disposeResource; true means that the caller runs the cleanup function. */
    method MarkDisposed(id: nat) returns (first: bool)
      requires id in holders && id in created
      modifies this
      ensures View() == Next(old(View()), Dispose(id))
      ensures id in created && created[id].disposed
      ensures created[id].cleanups == old(created)[id].cleanups + if first then 1 else 0
      ensures first <==> !old(created)[id].disposed
    {
      holders := Without(holders, id);
      var r := created[id];
      if r.disposed {
        return false;
      }
      created := created[id := Resource(r.refCount, true, r.cleanups + 1)];
      cleaning := cleaning + [id];
      return true;
    }

    method MarkStopped(id: nat) returns (first: bool)
      requires id in stopList && id in created
      modifies this
      ensures View() == Next(old(View()), StopDispose(id))
      ensures id in created && created[id].disposed
      ensures created[id].cleanups == old(created)[id].cleanups + if first then 1 else 0
      ensures first <==> !old(created)[id].disposed
    {
      stopList := stopList - {id};
      var r := created[id];
      if r.disposed {
        return false;
      }
      created := created[id := Resource(r.refCount, true, r.cleanups + 1)];
      cleaning := cleaning + [id];
      return true;
    }

    method FinishDisposal(id: nat)
      requires id in cleaning
      modifies this
      ensures View() == Next(old(View()), CleanupDone(id))
      ensures resources == old(resources) - {id}
    {
      resources := resources - {id};
      cleaning := Without(cleaning, id);
    }

    /** The compare-and-swap that lets only one caller stop the manager. */
    method BeginStop() returns (won: bool)
      modifies this
      ensures View() == Next(old(View()), StopBegin)
      ensures won <==> old(running)
    {
      if !running {
        return false;
      }
      running, emptied := false, false;
      return true;
    }

    method CollectAll() returns (ids: set<nat>)
      requires !running && !emptied
      modifies this
      ensures View() == Next(old(View()), StopCollect)
      ensures ids == old(resources) && resources == {}
    {
      ids := resources;
      resources := {};
      emptied, stopList := true, ids;
    }
  }
}
