/**
 * The scheduler thread (_AVPSchedule.run) and the launcher thread (AVPLauncher.run, do_cast) as one
 * state machine whose steps are the blocks that run under a lock. Records live in an explicit heap,
 * because `pending`, `ready` and `schedule` hold the same record objects. A run is any sequence of
 * actions: an action that its thread cannot take leaves the state alone.
 */
module SchedThreads {
  import opened Options
  import opened Scheduler

  type Key = int
  type Id = nat

  /** A record object; `scheduled` and `starts` record its history: put into `schedule`, casts begun. */
  datatype Rec = Rec(key: Key, isco: bool, sched: SchedStatus, matched: bool, action: ActionStatus, inserted: Option<int>,
                     scheduled: bool, starts: nat)

  /** Where the scheduler thread is: at the top of its loop, merging `ready`, or transferring it. */
  datatype SchedulerPc = Top | Merging | Transferring

  /** Where the launcher thread is, with the keys that it still has to deal with in this pass. */
  datatype LauncherPc =
    | Idle
    | Skipping(skip: seq<Key>, mark: seq<Key>, queue: seq<Key>)
    | Marking(mark: seq<Key>, queue: seq<Key>)
    | Working(queue: seq<Key>)
    | Starting(key: Key, rec: Id, queue: seq<Key>)
    | CastRunning(key: Key, rec: Id, queue: seq<Key>)
    | Dead

  datatype State = State(heap: seq<Rec>, pending: map<Key, Id>, ready: map<Key, Id>, schedule: map<Key, Id>,
                         spc: SchedulerPc, lpc: LauncherPc)

  datatype Action =
    | Purge(now: int)                                       // remove done and overdue entries
    | Parse(rows: seq<(Key, bool)>)                         // rebuild pending: entry and isco flag of each row
    | Promote(due: set<Key>)                                // what matches the comparison time
    | MergePair(o: Key, i: Key, now: int)                   // body of the duplicate loop
    | StartTransfer
    | Transfer(k: Key)
    | EndTick
    | Pick(skip: seq<Key>, queue: seq<Key>)                 // the launcher looks at the queued entries
    | Skip                                                  // one of too many non-ISCO casts is set done
    | Mark                                                  // pending entry set 'processed'
    | Take(complete: bool)                                  // first part of do_cast, or skipped for missing arguments
    | Act                                                   // second part of do_cast; the cast begins
    | Finish                                                // the cast is over
    | EndPass

  const MAX_SCHEDULED_TIME: int := 60 * 60

  // ---------- Steps of the scheduler ----------

  predicate Overdue(r: Rec, now: int) {
    r.inserted.Some? && now - r.inserted.value >= MAX_SCHEDULED_TIME
  }

  predicate Purgeable(r: Rec, now: int) {
    r.action == Done || Overdue(r, now)
  }

  function DoPurge(s: State, now: int): State
    requires WellFormed(s)
  {
    s.(schedule := map k | k in s.schedule && !Purgeable(s.heap[s.schedule[k]], now) :: s.schedule[k], ready := map[])
  }

  function Fresh(row: (Key, bool)): Rec {
    Rec(row.0, row.1, Unscheduled, false, NoAction, None, false, 0)
  }

  function AddRows(heap: seq<Rec>, pending: map<Key, Id>, rows: seq<(Key, bool)>): (seq<Rec>, map<Key, Id>)
    decreases |rows|
  {
    if rows == [] then (heap, pending)
    else AddRows(heap + [Fresh(rows[0])], pending[rows[0].0 := |heap|], rows[1..])
  }

  function DoParse(s: State, rows: seq<(Key, bool)>): State {
    var (heap, pending) := AddRows(s.heap, map[], rows);
    s.(heap := heap, pending := pending)
  }

  predicate Promoted(s: State, due: set<Key>, k: Key)
    requires WellFormed(s)
  {
    k in due && k in s.pending && s.heap[s.pending[k]].sched == Unscheduled
  }

  function DoPromote(s: State, due: set<Key>): State
    requires WellFormed(s)
  {
    var ready := map k | k in s.pending && Promoted(s, due, k) :: s.pending[k];
    s.(ready := ready, spc := Merging,
       heap := seq(|s.heap|, i requires 0 <= i < |s.heap| =>
         if s.heap[i].key in ready && ready[s.heap[i].key] == i then s.heap[i].(sched := Scheduled) else s.heap[i]))
  }

  predicate CanMerge(s: State, o: Key, i: Key)
    requires WellFormed(s)
  {
    && o != i && o in s.ready && i in s.ready
    && !s.heap[s.ready[o]].matched && !s.heap[s.ready[i]].matched
    && !s.heap[s.ready[o]].isco && !s.heap[s.ready[i]].isco
  }

  function Put(s: State, id: Id, r: Rec): State
    requires id < |s.heap|
  {
    s.(heap := s.heap[id := r])
  }

  function DoMerge(s: State, o: Key, i: Key, now: int): State
    requires WellFormed(s) && CanMerge(s, o, i)
  {
    var a := s.ready[i];
    var s := Put(s, a, s.heap[a].(matched := true, sched := Unscheduled));
    var b := s.ready[o];
    Put(s, b, s.heap[b].(action := Queued, inserted := Some(now)))
  }

  function DoTransfer(s: State, k: Key): State
    requires WellFormed(s)
  {
    if k in s.ready && !s.heap[s.ready[k]].matched && k !in s.schedule then
      var id := s.ready[k];
      Put(s.(schedule := s.schedule[k := id]), id, s.heap[id].(action := Queued, scheduled := true))
    else s
  }

  // ---------- Steps of the launcher ----------

  predicate QueuedKey(s: State, k: Key)
    requires WellFormed(s)
  {
    k in s.schedule && s.heap[s.schedule[k]].action == Queued
  }

  predicate IscoKey(s: State, k: Key)
    requires WellFormed(s)
  {
    k in s.schedule && s.heap[s.schedule[k]].isco
  }

  ghost predicate NoDup(q: seq<Key>) {
    forall i, j :: 0 <= i < j < |q| ==> q[i] != q[j]
  }

  /** skip and queue split the queued keys: several non-ISCO casts are all skipped, a single one is not. */
  ghost predicate Splits(s: State, skip: seq<Key>, queue: seq<Key>)
    requires WellFormed(s)
  {
    && NoDup(skip + queue)
    && (forall k :: k in skip + queue <==> QueuedKey(s, k))
    && (forall k :: k in skip ==> !IscoKey(s, k))
    && |skip| != 1
    && (skip != [] ==> forall k :: k in queue ==> IscoKey(s, k))
    && (forall i, j :: 0 <= i < j < |queue| ==> IscoKey(s, queue[i]) || IscoKey(s, queue[j]))
  }

  function DoSkip(s: State): State
    requires WellFormed(s) && s.lpc.Skipping?
  {
    if s.lpc.skip == [] then s.(lpc := Marking(s.lpc.mark, s.lpc.queue))
    else
      var k := s.lpc.skip[0];
      if k in s.schedule then
        Put(s.(lpc := Skipping(s.lpc.skip[1..], s.lpc.mark, s.lpc.queue)), s.schedule[k], s.heap[s.schedule[k]].(action := Done))
      else s.(lpc := Dead)
  }

  function DoMark(s: State): State
    requires WellFormed(s) && s.lpc.Marking?
  {
    if s.lpc.mark == [] then s.(lpc := Working(s.lpc.queue))
    else
      var k := s.lpc.mark[0];
      if k in s.pending then
        Put(s.(lpc := Marking(s.lpc.mark[1..], s.lpc.queue)), s.pending[k], s.heap[s.pending[k]].(sched := Processed))
      else s.(lpc := Dead)
  }

  function DoTake(s: State, complete: bool): State
    requires WellFormed(s) && s.lpc.Working? && s.lpc.queue != []
  {
    var k, rest := s.lpc.queue[0], s.lpc.queue[1..];
    if complete && k in s.schedule then
      Put(s.(lpc := Starting(k, s.schedule[k], rest)), s.schedule[k], s.heap[s.schedule[k]].(action := Casting))
    else s.(lpc := Working(rest))
  }

  function DoAct(s: State): State
    requires WellFormed(s) && s.lpc.Starting?
  {
    if s.lpc.key in s.pending then
      var s := Put(s, s.pending[s.lpc.key], s.heap[s.pending[s.lpc.key]].(sched := Acting));
      Put(s.(lpc := CastRunning(s.lpc.key, s.lpc.rec, s.lpc.queue)), s.lpc.rec, s.heap[s.lpc.rec].(starts := s.heap[s.lpc.rec].starts + 1))
    else s.(lpc := Working(s.lpc.queue))
  }

  function DoFinish(s: State): State
    requires WellFormed(s) && s.lpc.CastRunning?
  {
    var k, next := s.lpc.key, Working(s.lpc.queue);
    if k in s.schedule then Put(s.(lpc := next), s.schedule[k], s.heap[s.schedule[k]].(action := Done))
    else s.(lpc := next)
  }

  // ---------- The machine ----------

  /** The tables refer to existing records of their own key. */
  ghost predicate WellFormed(s: State) {
    && (forall k :: k in s.pending ==> s.pending[k] < |s.heap| && s.heap[s.pending[k]].key == k)
    && (forall k :: k in s.ready ==> s.ready[k] < |s.heap| && s.heap[s.ready[k]].key == k)
    && (forall k :: k in s.schedule ==> s.schedule[k] < |s.heap| && s.heap[s.schedule[k]].key == k)
    && (s.lpc.Starting? || s.lpc.CastRunning? ==> s.lpc.rec < |s.heap| && s.heap[s.lpc.rec].key == s.lpc.key)
  }

  ghost function Do(s: State, a: Action): State
    requires WellFormed(s)
  {
    match a
    case Purge(now) => if s.spc == Top then DoPurge(s, now) else s
    case Parse(rows) => if s.spc == Top then DoParse(s, rows) else s
    case Promote(due) => if s.spc == Top then DoPromote(s, due) else s
    case MergePair(o, i, now) => if s.spc == Merging && CanMerge(s, o, i) then DoMerge(s, o, i, now) else s
    case StartTransfer => if s.spc == Merging then s.(spc := Transferring) else s
    case Transfer(k) => if s.spc == Transferring then DoTransfer(s, k) else s
    case EndTick => if s.spc == Transferring then s.(spc := Top, ready := map[]) else s
    case Pick(skip, queue) => if s.lpc.Idle? && Splits(s, skip, queue) then s.(lpc := Skipping(skip, queue, queue)) else s
    case Skip => if s.lpc.Skipping? then DoSkip(s) else s
    case Mark => if s.lpc.Marking? then DoMark(s) else s
    case Take(complete) => if s.lpc.Working? && s.lpc.queue != [] then DoTake(s, complete) else s
    case Act => if s.lpc.Starting? then DoAct(s) else s
    case Finish => if s.lpc.CastRunning? then DoFinish(s) else s
    case EndPass => if s.lpc.Working? && s.lpc.queue == [] then s.(lpc := Idle) else s
  }

  const INIT := State([], map[], map[], map[], Top, Idle)

  /** Keys that the launcher may still set in this pass. */
  function Todo(l: LauncherPc): seq<Key> {
    match l
    case Skipping(skip, _, queue) => skip + queue
    case Marking(_, queue) => queue
    case Working(queue) => queue
    case Starting(_, _, queue) => queue
    case CastRunning(_, _, queue) => queue
    case _ => []
  }

  /** What every record's history allows. */
  predicate GoodRec(r: Rec) {
    && (r.scheduled ==> r.sched != Unscheduled && r.action != NoAction)
    && (!r.scheduled ==> r.starts == 0 && (r.action == NoAction || r.action == Queued))
    && r.starts <= 1
    && (r.action == Queued ==> r.starts == 0)
  }

  /** The scheduler's side: records and tables. */
  ghost predicate Core(s: State)
    requires WellFormed(s)
  {
    && (forall i :: 0 <= i < |s.heap| ==> GoodRec(s.heap[i]))
    && (forall k :: k in s.schedule ==> s.heap[s.schedule[k]].scheduled)
    // ready shares its records with pending; none of them can be in schedule before the transfer
    && (s.spc != Top ==> forall k :: k in s.ready ==> k in s.pending && s.pending[k] == s.ready[k])
    && (s.spc != Top ==> forall k :: k in s.ready && !s.heap[s.ready[k]].matched ==> s.heap[s.ready[k]].sched != Unscheduled)
    && (s.spc == Merging ==> forall k :: k in s.ready ==> !s.heap[s.ready[k]].scheduled)
    && (s.spc == Transferring ==>
          forall k :: k in s.ready && s.heap[s.ready[k]].scheduled ==> k in s.schedule && s.schedule[k] == s.ready[k])
  }

  predicate AllQueued(heap: seq<Rec>, schedule: map<Key, Id>, q: seq<Key>) {
    forall k :: k in q && k in schedule && schedule[k] < |heap| ==> heap[schedule[k]].action == Queued
  }

  /** The launcher's side: its remaining keys hold nothing but queued records. */
  ghost predicate Plan(s: State)
    requires WellFormed(s)
  {
    && NoDup(Todo(s.lpc))
    && AllQueued(s.heap, s.schedule, Todo(s.lpc))
    && (s.lpc.Starting? || s.lpc.CastRunning? ==> s.lpc.key !in s.lpc.queue && Busy(s, s.lpc.key, s.lpc.rec))
  }

  /**
   * The record being cast. It can only have left `schedule` by its insert time, and whatever has taken
   * its place there has not been touched yet.
   */
  ghost predicate Busy(s: State, k: Key, id: Id)
    requires WellFormed(s) && id < |s.heap|
  {
    && s.heap[id].scheduled && s.heap[id].action == Casting
    && s.heap[id].starts == (if s.lpc.Starting? then 0 else 1)
    && (s.heap[id].inserted == None ==> k in s.schedule && s.schedule[k] == id)
    && (k in s.schedule && s.schedule[k] != id ==> s.heap[s.schedule[k]].action == Queued)
  }

  ghost predicate Inv(s: State) {
    WellFormed(s) && Core(s) && Plan(s)
  }

  // ---------- Every action keeps the invariant ----------

  lemma {:induction false} AddRowsOnlyAdds(heap: seq<Rec>, pending: map<Key, Id>, rows: seq<(Key, bool)>)
    requires forall k :: k in pending ==> pending[k] < |heap| && heap[pending[k]].key == k
    ensures var (h, p) := AddRows(heap, pending, rows);
            && |heap| <= |h| && h[..|heap|] == heap
            && (forall i :: |heap| <= i < |h| ==> h[i] == Fresh((h[i].key, h[i].isco)))
            && (forall k :: k in p ==> p[k] < |h| && h[p[k]].key == k)
    decreases |rows|
  {
    if rows != [] {
      AddRowsOnlyAdds(heap + [Fresh(rows[0])], pending[rows[0].0 := |heap|], rows[1..]);
    }
  }

  lemma PurgeKeeps(s: State, now: int)
    requires Inv(s) && s.spc == Top
    ensures Inv(DoPurge(s, now))
  {
  }

  lemma ParseKeeps(s: State, rows: seq<(Key, bool)>)
    requires Inv(s) && s.spc == Top
    ensures Inv(DoParse(s, rows))
  {
    AddRowsOnlyAdds(s.heap, map[], rows);
    var t := DoParse(s, rows);
    assert forall i :: 0 <= i < |s.heap| ==> t.heap[i] == t.heap[..|s.heap|][i];
  }

  lemma PromoteKeeps(s: State, due: set<Key>)
    requires Inv(s) && s.spc == Top
    ensures Inv(DoPromote(s, due))
  {
  }

  lemma WriteReadyKeeps(s: State, k: Key, r: Rec)
    requires Inv(s) && s.spc == Merging && k in s.ready && r.key == k
    requires GoodRec(r) && !r.scheduled && (r.matched || r.sched != Unscheduled)
    ensures Inv(Put(s, s.ready[k], r))
  {
  }

  lemma MergeKeeps(s: State, o: Key, i: Key, now: int)
    requires Inv(s) && s.spc == Merging && CanMerge(s, o, i)
    ensures Inv(DoMerge(s, o, i, now))
  {
    assert GoodRec(s.heap[s.ready[i]]) && GoodRec(s.heap[s.ready[o]]);
    var first := s.heap[s.ready[i]].(matched := true, sched := Unscheduled);
    WriteReadyKeeps(s, i, first);
    WriteReadyKeeps(Put(s, s.ready[i], first), o, s.heap[s.ready[o]].(action := Queued, inserted := Some(now)));
  }

  lemma TransferKeeps(s: State, k: Key)
    requires Inv(s) && s.spc == Transferring
    ensures Inv(DoTransfer(s, k))
  {
  }

  lemma PickKeeps(s: State, skip: seq<Key>, queue: seq<Key>)
    requires Inv(s) && s.lpc.Idle? && Splits(s, skip, queue)
    ensures Inv(s.(lpc := Skipping(skip, queue, queue)))
  {
  }

  lemma TailOf(q: seq<Key>)
    requires NoDup(q) && q != []
    ensures NoDup(q[1..]) && q[0] !in q[1..] && forall k :: k in q[1..] ==> k in q
  {
  }

  /** A scheduled record moves on; the tables do not mind. */
  lemma MoveKeepsCore(s: State, id: Id, status: ActionStatus, l: LauncherPc)
    requires WellFormed(s) && Core(s) && id < |s.heap| && s.heap[id].scheduled && (status == Casting || status == Done)
    requires WellFormed(s.(lpc := l))
    ensures var t := Put(s.(lpc := l), id, s.heap[id].(action := status));
            WellFormed(t) && Core(t)
  {
    var t := Put(s.(lpc := l), id, s.heap[id].(action := status));
    assert WellFormed(t);
    assert forall i :: 0 <= i < |s.heap| ==> GoodRec(s.heap[i]) && GoodRec(t.heap[i]);
  }

  /** Changing the record of one key leaves the records of other keys queued. */
  lemma OthersQueued(s: State, k: Key, r: Rec, q: seq<Key>)
    requires WellFormed(s) && k in s.schedule && AllQueued(s.heap, s.schedule, q) && k !in q
    ensures AllQueued(s.heap[s.schedule[k] := r], s.schedule, q)
  {
    forall x | x in q && x in s.schedule
      ensures s.schedule[x] != s.schedule[k]
    {
      assert s.heap[s.schedule[x]].key == x && s.heap[s.schedule[k]].key == k;
    }
  }

  lemma SkipKeeps(s: State)
    requires Inv(s) && s.lpc.Skipping?
    ensures Inv(DoSkip(s))
  {
    var (skip, mark, queue) := (s.lpc.skip, s.lpc.mark, s.lpc.queue);
    if skip == [] {
      assert skip + queue == queue;
    } else {
      assert skip[1..] + queue == Todo(s.lpc)[1..] && Todo(s.lpc)[0] == skip[0];
      TailOf(Todo(s.lpc));
      if skip[0] in s.schedule {
        var id := s.schedule[skip[0]];
        MoveKeepsCore(s, id, Done, Skipping(skip[1..], mark, queue));
        assert AllQueued(s.heap, s.schedule, skip[1..] + queue);
        OthersQueued(s, skip[0], s.heap[id].(action := Done), skip[1..] + queue);
      }
    }
  }

  lemma StatusWriteKeeps(s: State, id: Id, status: SchedStatus)
    requires Inv(s) && id < |s.heap| && status != Unscheduled
    ensures Inv(Put(s, id, s.heap[id].(sched := status)))
  {
  }

  lemma MarkKeeps(s: State)
    requires Inv(s) && s.lpc.Marking?
    ensures Inv(DoMark(s))
  {
    if s.lpc.mark != [] {
      var k := s.lpc.mark[0];
      if k in s.pending {
        StatusWriteKeeps(s, s.pending[k], Processed);
      }
    }
  }

  lemma TakeKeeps(s: State, complete: bool)
    requires Inv(s) && s.lpc.Working? && s.lpc.queue != []
    ensures Inv(DoTake(s, complete))
  {
    var k, rest := s.lpc.queue[0], s.lpc.queue[1..];
    TailOf(s.lpc.queue);
    assert AllQueued(s.heap, s.schedule, rest);
    if complete && k in s.schedule {
      var id := s.schedule[k];
      assert GoodRec(s.heap[id]);
      MoveKeepsCore(s, id, Casting, Starting(k, id, rest));
      OthersQueued(s, k, s.heap[id].(action := Casting), rest);
    }
  }

  lemma BeginKeeps(s: State)
    requires Inv(s) && s.lpc.Starting?
    ensures Inv(Put(s.(lpc := CastRunning(s.lpc.key, s.lpc.rec, s.lpc.queue)), s.lpc.rec, s.heap[s.lpc.rec].(starts := s.heap[s.lpc.rec].starts + 1)))
  {
  }

  lemma ActKeeps(s: State)
    requires Inv(s) && s.lpc.Starting?
    ensures Inv(DoAct(s))
  {
    if s.lpc.key in s.pending {
      StatusWriteKeeps(s, s.pending[s.lpc.key], Acting);
      BeginKeeps(Put(s, s.pending[s.lpc.key], s.heap[s.pending[s.lpc.key]].(sched := Acting)));
    }
  }

  lemma FinishKeeps(s: State)
    requires Inv(s) && s.lpc.CastRunning?
    ensures Inv(DoFinish(s))
  {
    var k, queue := s.lpc.key, s.lpc.queue;
    if k in s.schedule {
      var id := s.schedule[k];
      MoveKeepsCore(s, id, Done, Working(queue));
      OthersQueued(s, k, s.heap[id].(action := Done), queue);
    }
  }

  // Each action, whether its thread can take it or not.

  lemma PurgeStep(s: State, now: int)
    requires Inv(s)
    ensures Inv(Do(s, Purge(now)))
  {
    if s.spc == Top { PurgeKeeps(s, now); }
  }

  lemma ParseStep(s: State, rows: seq<(Key, bool)>)
    requires Inv(s)
    ensures Inv(Do(s, Parse(rows)))
  {
    if s.spc == Top { ParseKeeps(s, rows); }
  }

  lemma PromoteStep(s: State, due: set<Key>)
    requires Inv(s)
    ensures Inv(Do(s, Promote(due)))
  {
    if s.spc == Top { PromoteKeeps(s, due); }
  }

  lemma MergeStep(s: State, o: Key, i: Key, now: int)
    requires Inv(s)
    ensures Inv(Do(s, MergePair(o, i, now)))
  {
    if s.spc == Merging && CanMerge(s, o, i) { MergeKeeps(s, o, i, now); }
  }

  lemma TransferStep(s: State, k: Key)
    requires Inv(s)
    ensures Inv(Do(s, Transfer(k)))
  {
    if s.spc == Transferring { TransferKeeps(s, k); }
  }

  lemma StartTransferStep(s: State)
    requires Inv(s)
    ensures Inv(Do(s, StartTransfer))
  {
  }

  lemma EndTickStep(s: State)
    requires Inv(s)
    ensures Inv(Do(s, EndTick))
  {
  }

  lemma EndPassStep(s: State)
    requires Inv(s)
    ensures Inv(Do(s, EndPass))
  {
  }

  lemma PickStep(s: State, skip: seq<Key>, queue: seq<Key>)
    requires Inv(s)
    ensures Inv(Do(s, Pick(skip, queue)))
  {
    if s.lpc.Idle? && Splits(s, skip, queue) { PickKeeps(s, skip, queue); }
  }

  lemma SkipStep(s: State)
    requires Inv(s)
    ensures Inv(Do(s, Skip))
  {
    if s.lpc.Skipping? { SkipKeeps(s); }
  }

  lemma MarkStep(s: State)
    requires Inv(s)
    ensures Inv(Do(s, Mark))
  {
    if s.lpc.Marking? { MarkKeeps(s); }
  }

  lemma TakeStep(s: State, complete: bool)
    requires Inv(s)
    ensures Inv(Do(s, Take(complete)))
  {
    if s.lpc.Working? && s.lpc.queue != [] { TakeKeeps(s, complete); }
  }

  lemma ActStep(s: State)
    requires Inv(s)
    ensures Inv(Do(s, Act))
  {
    if s.lpc.Starting? { ActKeeps(s); }
  }

  lemma FinishStep(s: State)
    requires Inv(s)
    ensures Inv(Do(s, Finish))
  {
    if s.lpc.CastRunning? { FinishKeeps(s); }
  }

  lemma DoKeepsInv(s: State, a: Action)
    requires Inv(s)
    ensures Inv(Do(s, a))
  {
    match a
    case Purge(now) => PurgeStep(s, now);
    case Parse(rows) => ParseStep(s, rows);
    case Promote(due) => PromoteStep(s, due);
    case MergePair(o, i, now) => MergeStep(s, o, i, now);
    case Transfer(k) => TransferStep(s, k);
    case Pick(skip, queue) => PickStep(s, skip, queue);
    case Skip => SkipStep(s);
    case Mark => MarkStep(s);
    case Take(complete) => TakeStep(s, complete);
    case Act => ActStep(s);
    case Finish => FinishStep(s);
    case StartTransfer => StartTransferStep(s);
    case EndTick => EndTickStep(s);
    case EndPass => EndPassStep(s);
  }

  // ---------- Runs ----------

  ghost function Run(s: State, actions: seq<Action>): (t: State)
    requires Inv(s)
    ensures Inv(t)
    decreases |actions|
  {
    if actions == [] then s
    else
      DoKeepsInv(s, actions[0]);
      Run(Do(s, actions[0]), actions[1..])
  }

  ghost function Next(s: State, a: Action): (t: State)
    requires Inv(s)
    ensures Inv(t)
  {
    DoKeepsInv(s, a);
    Do(s, a)
  }
}
