/**
 * Runs of the scheduler and launcher threads from their start, and exactly when the cast that the
 * launcher has taken completes.
 */
module SchedRuns {
  import opened Options
  import opened Scheduler
  import opened SchedThreads
  import opened SchedHistory

  // ---------- From the start ----------

  lemma InitIsGood()
    ensures Inv(INIT)
  {
  }

  lemma {:induction false} RunConcat(s: State, a: seq<Action>, b: seq<Action>)
    requires Inv(s)
    ensures Run(s, a + b) == Run(Run(s, a), b)
    decreases |a|
  {
    if a == [] {
      assert a + b == b;
    } else {
      assert (a + b)[1..] == a[1..] + b;
      RunConcat(Next(s, a[0]), a[1..], b);
    }
  }

  lemma RunOne(s: State, a: Action)
    requires Inv(s)
    ensures Run(s, [a]) == Next(s, a)
  {
    assert [a][1..] == [];
  }

  /**
   * Every run of the program: each record that it ever creates is started at most once, and from the
   * prefix in which it appears its status only moves forward once it is scheduled.
   */
  lemma EveryRecordEvolves(actions: seq<Action>, n: nat)
    requires n <= |actions| && Inv(INIT)
    ensures AllEvolve(Run(INIT, actions[..n]), Run(INIT, actions))
    ensures forall i :: 0 <= i < |Run(INIT, actions).heap| ==> Run(INIT, actions).heap[i].starts <= 1
  {
    assert actions[..n] + actions[n..] == actions;
    RunConcat(INIT, actions[..n], actions[n..]);
    RecordsEvolve(Run(INIT, actions[..n]), actions[n..]);
    assert forall i :: 0 <= i < |Run(INIT, actions).heap| ==> GoodRec(Run(INIT, actions).heap[i]);
  }

  // ---------- What the scheduler leaves alone ----------

  predicate SchedulerStep(a: Action) {
    a.Purge? || a.Parse? || a.Promote? || a.MergePair? || a.StartTransfer? || a.Transfer? || a.EndTick?
  }

  predicate SchedulerOnly(actions: seq<Action>) {
    forall i :: 0 <= i < |actions| ==> SchedulerStep(actions[i])
  }

  /** What the launcher relies on in the record that it has taken. */
  predicate SameCast(r: Rec, q: Rec) {
    q.key == r.key && q.action == r.action && q.starts == r.starts && q.inserted == r.inserted && q.scheduled == r.scheduled
  }

  lemma ScheduledIsKept(s: State, a: Action, id: Id)
    requires Inv(s) && SchedulerStep(a) && id < |s.heap| && s.heap[id].scheduled
    ensures id < |Next(s, a).heap| && SameCast(s.heap[id], Next(s, a).heap[id]) && Next(s, a).lpc == s.lpc
  {
    if a.Parse? && s.spc == Top {
      AddRowsOnlyAdds(s.heap, map[], a.rows);
      assert DoParse(s, a.rows).heap[id] == DoParse(s, a.rows).heap[..|s.heap|][id];
    }
  }

  lemma {:induction false} ScheduledIsKeptOver(s: State, actions: seq<Action>, id: Id)
    requires Inv(s) && SchedulerOnly(actions) && id < |s.heap| && s.heap[id].scheduled
    ensures var t := Run(s, actions);
            id < |t.heap| && SameCast(s.heap[id], t.heap[id]) && t.lpc == s.lpc
    decreases |actions|
  {
    if actions != [] {
      ScheduledIsKept(s, actions[0], id);
      ScheduledIsKeptOver(Next(s, actions[0]), actions[1..], id);
    }
  }

  // ---------- When the second half of do_cast succeeds ----------

  /** The rows of the last rebuild of `pending` in a run, if there is one. */
  ghost function LastRows(s: State, actions: seq<Action>, rows: Option<seq<(Key, bool)>>): (r: Option<seq<(Key, bool)>>)
    requires Inv(s)
    ensures rows.Some? ==> r.Some?
    decreases |actions|
  {
    if actions == [] then rows
    else LastRows(Next(s, actions[0]), actions[1..], if actions[0].Parse? && s.spc == Top then Some(actions[0].rows) else rows)
  }

  ghost predicate Names(rows: seq<(Key, bool)>, k: Key) {
    exists i :: 0 <= i < |rows| && rows[i].0 == k
  }

  /** The entry is in the last table read, or was pending before if none is read. */
  ghost predicate StillListed(s: State, actions: seq<Action>, k: Key)
    requires Inv(s)
  {
    match LastRows(s, actions, None)
    case None => k in s.pending
    case Some(rows) => Names(rows, k)
  }

  lemma {:induction false} RowsBecomePending(heap: seq<Rec>, pending: map<Key, Id>, rows: seq<(Key, bool)>, k: Key)
    ensures k in AddRows(heap, pending, rows).1 <==> k in pending || Names(rows, k)
    decreases |rows|
  {
    if rows != [] {
      RowsBecomePending(heap + [Fresh(rows[0])], pending[rows[0].0 := |heap|], rows[1..], k);
      assert Names(rows[1..], k) ==> Names(rows, k);
      if Names(rows, k) && rows[0].0 != k {
        var i :| 0 <= i < |rows| && rows[i].0 == k;
        assert rows[1..][i - 1].0 == k;
      }
    }
  }

  lemma PendingAfter(s: State, a: Action, k: Key)
    requires Inv(s)
    ensures k in Next(s, a).pending <==> if a.Parse? && s.spc == Top then Names(a.rows, k) else k in s.pending
  {
    if a.Parse? && s.spc == Top {
      RowsBecomePending(s.heap, map[], a.rows, k);
    }
  }

  lemma {:induction false} PendingIsLastRows(s: State, actions: seq<Action>, rows: Option<seq<(Key, bool)>>, k: Key)
    requires Inv(s) && (rows.Some? ==> (k in s.pending <==> Names(rows.value, k)))
    ensures k in Run(s, actions).pending <==>
              match LastRows(s, actions, rows)
              case None => k in s.pending
              case Some(last) => Names(last, k)
    decreases |actions|
  {
    if actions != [] {
      PendingAfter(s, actions[0], k);
      PendingIsLastRows(Next(s, actions[0]), actions[1..],
                        if actions[0].Parse? && s.spc == Top then Some(actions[0].rows) else rows, k);
    }
  }

  /** Whatever the scheduler does in between, the cast begins exactly when the last table read still lists its entry. */
  lemma CastBeginsExactlyWhen(s: State, steps: seq<Action>)
    requires Inv(s) && s.lpc.Starting? && SchedulerOnly(steps)
    ensures var t := Next(Run(s, steps), Act);
            && (t.lpc.CastRunning? <==> StillListed(s, steps, s.lpc.key))
            && s.lpc.rec < |t.heap| && t.heap[s.lpc.rec].action == Casting
            && t.heap[s.lpc.rec].starts == (if StillListed(s, steps, s.lpc.key) then 1 else 0)
            && (t.lpc.CastRunning? ==> t.lpc.key == s.lpc.key && t.lpc.rec == s.lpc.rec)
  {
    ScheduledIsKeptOver(s, steps, s.lpc.rec);
    PendingIsLastRows(s, steps, None, s.lpc.key);
  }

  // ---------- When the record stays in schedule ----------

  /** Some purge comes an hour or more after the record's insert time. */
  ghost predicate LatePurge(s: State, actions: seq<Action>, id: Id)
    requires Inv(s)
    decreases |actions|
  {
    actions != [] && id < |s.heap|
    && ((actions[0].Purge? && s.spc == Top && Overdue(s.heap[id], actions[0].now)) || LatePurge(Next(s, actions[0]), actions[1..], id))
  }

  lemma {:induction false} StaysExactlyWhen(s: State, steps: seq<Action>, k: Key)
    requires Inv(s) && SchedulerOnly(steps) && k in s.schedule && s.heap[s.schedule[k]].action != Done
    ensures var t := Run(s, steps);
            (k in t.schedule && t.schedule[k] == s.schedule[k]) <==> !LatePurge(s, steps, s.schedule[k])
    decreases |steps|
  {
    var id := s.schedule[k];
    if steps != [] {
      var m := Next(s, steps[0]);
      ScheduledIsKept(s, steps[0], id);
      LeavesExactlyWhenPurged(s, steps[0], k);
      if k in m.schedule {
        StaysExactlyWhen(m, steps[1..], k);
      } else {
        forall x | x in m.schedule
          ensures m.schedule[x] != id
        {
          OneKeyEach(s, steps[0], x, k);
        }
        GoneForever(m, steps[1..], id);
      }
    }
  }

  lemma OneKeyEach(s: State, a: Action, x: Key, k: Key)
    requires Inv(s) && SchedulerStep(a) && k in s.schedule && k !in Next(s, a).schedule && x in Next(s, a).schedule
    ensures Next(s, a).schedule[x] != s.schedule[k]
  {
    var m := Next(s, a);
    ScheduledIsKept(s, a, s.schedule[k]);
    assert m.heap[m.schedule[x]].key == x && m.heap[s.schedule[k]].key == k;
  }

  // ---------- When the cast completes ----------

  /**
   * The cast that the launcher has taken ends done, after one start, exactly when its entry is still listed
   * when it begins and no purge comes an hour or more after its insert time before it ends.
   */
  lemma CastCompletesExactlyWhen(s: State, before: seq<Action>, during: seq<Action>)
    requires Inv(s) && s.lpc.Starting? && s.lpc.key in s.schedule && s.schedule[s.lpc.key] == s.lpc.rec
    requires SchedulerOnly(before) && SchedulerOnly(during)
    ensures var begun := Next(Run(s, before), Act);
            var t := Next(Run(begun, during), Finish);
            && s.lpc.rec < |t.heap|
            && (t.heap[s.lpc.rec].action == Done && t.heap[s.lpc.rec].starts == 1
                <==> StillListed(s, before, s.lpc.key) && !LatePurge(s, before, s.lpc.rec) && !LatePurge(begun, during, s.lpc.rec))
            && (t.heap[s.lpc.rec].action == Done || t.heap[s.lpc.rec].action == Casting)
  {
    var (k, id) := (s.lpc.key, s.lpc.rec);
    var m := Run(s, before);
    var begun := Next(m, Act);
    CastBeginsExactlyWhen(s, before);
    StaysExactlyWhen(s, before, k);
    ScheduledIsKeptOver(s, before, id);
    assert begun.schedule == m.schedule;
    EndOfCast(begun, k, id, during);
  }

  /** From the second half of do_cast on: what becomes of the record that was taken. */
  lemma EndOfCast(begun: State, k: Key, id: Id, during: seq<Action>)
    requires Inv(begun) && SchedulerOnly(during) && id < |begun.heap|
    requires begun.heap[id].scheduled && begun.heap[id].action == Casting && begun.heap[id].key == k
    requires (begun.lpc.CastRunning? && begun.lpc.key == k && begun.lpc.rec == id) || begun.lpc.Working?
    ensures var t := Next(Run(begun, during), Finish);
            && id < |t.heap| && t.heap[id].starts == begun.heap[id].starts
            && t.heap[id].action == (if begun.lpc.CastRunning? && k in begun.schedule && begun.schedule[k] == id
                                        && !LatePurge(begun, during, id) then Done else Casting)
  {
    var n := Run(begun, during);
    ScheduledIsKeptOver(begun, during, id);
    if k in begun.schedule && begun.schedule[k] == id {
      StaysExactlyWhen(begun, during, k);
    } else {
      forall x | x in begun.schedule
        ensures begun.schedule[x] != id
      {
        assert begun.heap[begun.schedule[x]].key == x;
      }
      GoneForever(begun, during, id);
    }
    if n.lpc.CastRunning? && k in n.schedule {
      FinishMarksTheKey(n);
    }
  }

  // ---------- What a failed cast leaves behind ----------

  lemma BringToTop(s: State, now: int)
    requires Inv(s)
    ensures var t := Next(Next(s, StartTransfer), EndTick);
            t.spc == Top && t.schedule == s.schedule && t.heap == s.heap
  {
  }

  /**
   * When the second half of do_cast fails, its record stays in `schedule`, casting, over every later run
   * exactly when no merge has given it an insert time.
   */
  lemma FailedCastIsStuckExactlyWhen(s: State)
    requires Inv(s) && s.lpc.Starting? && s.lpc.key !in s.pending
    ensures (forall actions :: StillCasting(Run(Next(s, Act), actions), s.lpc.key, s.lpc.rec)) <==> s.heap[s.lpc.rec].inserted == None
  {
    var (k, id) := (s.lpc.key, s.lpc.rec);
    var t := Next(s, Act);
    if s.heap[id].inserted == None {
      FailedActSticks(s);
      forall actions
        ensures StillCasting(Run(t, actions), k, id)
      {
        StuckForever(t, actions, k, id);
      }
    } else {
      LatePurgeFrees(t, k, id);
    }
  }

  /** A record with an insert time can be purged from every state. */
  lemma LatePurgeFrees(t: State, k: Key, id: Id)
    requires Inv(t) && id < |t.heap| && t.heap[id].inserted.Some?
    ensures exists actions :: !StillCasting(Run(t, actions), k, id)
  {
    var now := t.heap[id].inserted.value + MAX_SCHEDULED_TIME;
    var a, b, c := StartTransfer, EndTick, Purge(now);
    BringToTop(t, now);
    var u := Next(Next(t, a), b);
    assert !StillCasting(Next(u, c), k, id);
    RunOne(u, c);
    RunOne(t, a);
    RunOne(Next(t, a), b);
    RunConcat(Next(t, a), [b], [c]);
    RunConcat(t, [a], [b] + [c]);
    assert !StillCasting(Run(t, [a] + ([b] + [c])), k, id);
  }

  ghost predicate StillCasting(s: State, k: Key, id: Id) {
    k in s.schedule && s.schedule[k] == id && id < |s.heap| && s.heap[id].action == Casting
  }

  // ---------- Which record the end of a cast marks ----------

  /** Finishing marks a record as done that has never been started. */
  ghost predicate MarksUnstarted(s: State, id: Id)
    requires Inv(s)
  {
    id < |s.heap| && id < |Next(s, Finish).heap|
    && s.heap[id].action != Done && Next(s, Finish).heap[id].action == Done && s.heap[id].starts == 0
  }

  lemma MarksUnstartedExactlyWhen(s: State)
    requires Inv(s) && s.lpc.CastRunning?
    ensures (exists id :: MarksUnstarted(s, id)) <==> s.lpc.key in s.schedule && s.schedule[s.lpc.key] != s.lpc.rec
  {
    var k := s.lpc.key;
    if k in s.schedule {
      var id := s.schedule[k];
      FinishMarksTheKey(s);
      assert GoodRec(s.heap[id]);
      if id != s.lpc.rec {
        assert MarksUnstarted(s, id);
      }
    }
  }

  lemma {:induction false} EntersByTransfer(s: State, actions: seq<Action>, k: Key)
    requires Inv(s) && k !in s.schedule && k in Run(s, actions).schedule
    ensures exists i :: 0 <= i < |actions| && actions[i] == Transfer(k)
    decreases |actions|
  {
    EntersExactlyWhenTransferred(s, actions[0], k);
    if k in Next(s, actions[0]).schedule {
      assert actions[0] == Transfer(k);
    } else {
      EntersByTransfer(Next(s, actions[0]), actions[1..], k);
      var i :| 0 <= i < |actions[1..]| && actions[1..][i] == Transfer(k);
      assert actions[i + 1] == Transfer(k);
    }
  }

  /** After a late purge the key is in `schedule` again only by a transfer. */
  lemma {:induction false} RefilledByTransfer(s: State, steps: seq<Action>, k: Key)
    requires Inv(s) && SchedulerOnly(steps) && k in s.schedule && s.heap[s.schedule[k]].action == Casting
    requires LatePurge(s, steps, s.schedule[k]) && k in Run(s, steps).schedule
    ensures exists i :: 0 <= i < |steps| && steps[i] == Transfer(k)
    decreases |steps|
  {
    var m := Next(s, steps[0]);
    ScheduledIsKept(s, steps[0], s.schedule[k]);
    LeavesExactlyWhenPurged(s, steps[0], k);
    if k in m.schedule {
      RefilledByTransfer(m, steps[1..], k);
    } else {
      EntersByTransfer(m, steps[1..], k);
    }
    var i :| 0 <= i < |steps[1..]| && steps[1..][i] == Transfer(k);
    assert steps[i + 1] == Transfer(k);
  }

  /**
   * Over any steps of the scheduler while a cast runs: its end marks a record that was never started
   * exactly when a late purge has taken out the record being cast and a transfer has put another one in
   * its place. Such a record is never started afterwards.
   */
  lemma NextCastIsLostExactlyWhen(s: State, during: seq<Action>)
    requires Inv(s) && s.lpc.CastRunning? && s.lpc.key in s.schedule && s.schedule[s.lpc.key] == s.lpc.rec
    requires SchedulerOnly(during)
    ensures var m := Run(s, during);
            && ((exists id :: MarksUnstarted(m, id)) <==> LatePurge(s, during, s.lpc.rec) && s.lpc.key in m.schedule)
            && (LatePurge(s, during, s.lpc.rec) && s.lpc.key in m.schedule ==> Transfer(s.lpc.key) in during)
            && forall id, later :: MarksUnstarted(m, id) ==> NeverStarted(Run(Next(m, Finish), later), id)
  {
    var m := Run(s, during);
    var (k, rec) := (s.lpc.key, s.lpc.rec);
    ScheduledIsKeptOver(s, during, rec);
    StaysExactlyWhen(s, during, k);
    MarksUnstartedExactlyWhen(m);
    if LatePurge(s, during, rec) && k in m.schedule {
      RefilledByTransfer(s, during, k);
    }
    forall id, later | MarksUnstarted(m, id)
      ensures NeverStarted(Run(Next(m, Finish), later), id)
    {
      MarkedIsScheduled(m, id);
      DoneNeverStarts(Next(m, Finish), later, id);
    }
  }

  ghost predicate NeverStarted(s: State, id: Id) {
    id < |s.heap| && s.heap[id].action == Done && s.heap[id].starts == 0
  }

  lemma MarkedIsScheduled(s: State, id: Id)
    requires Inv(s) && s.lpc.CastRunning? && MarksUnstarted(s, id)
    ensures Next(s, Finish).heap[id].scheduled && Next(s, Finish).heap[id].starts == 0
  {
    if s.lpc.key in s.schedule {
      FinishMarksTheKey(s);
    }
  }

  // ---------- When the launcher thread dies ----------

  lemma {:induction false} LauncherWaits(s: State, steps: seq<Action>)
    requires Inv(s) && SchedulerOnly(steps)
    ensures Run(s, steps).lpc == s.lpc
    decreases |steps|
  {
    if steps != [] {
      assert SchedulerStep(steps[0]);
      LauncherWaits(Next(s, steps[0]), steps[1..]);
    }
  }

  /**
   * Marking the next pending entry raises, outside any handler, exactly when the last table read before it
   * does not list the entry.
   */
  lemma MarkKillsExactlyWhen(s: State, steps: seq<Action>)
    requires Inv(s) && s.lpc.Marking? && s.lpc.mark != [] && SchedulerOnly(steps)
    ensures Next(Run(s, steps), Mark).lpc.Dead? <==> !StillListed(s, steps, s.lpc.mark[0])
  {
    LauncherWaits(s, steps);
    PendingIsLastRows(s, steps, None, s.lpc.mark[0]);
  }

  lemma SkippedIsQueued(s: State)
    requires Inv(s) && s.lpc.Skipping? && s.lpc.skip != [] && s.lpc.skip[0] in s.schedule
    ensures var id := s.schedule[s.lpc.skip[0]];
            id < |s.heap| && s.heap[id].action == Queued
  {
    assert Todo(s.lpc)[0] == s.lpc.skip[0];
  }

  /**
   * Skipping the next of too many casts raises exactly when a purge an hour or more after its insert time
   * has taken it out of `schedule` and nothing has taken its place.
   */
  lemma SkipKillsExactlyWhen(s: State, steps: seq<Action>)
    requires Inv(s) && s.lpc.Skipping? && s.lpc.skip != [] && s.lpc.skip[0] in s.schedule && SchedulerOnly(steps)
    ensures var k := s.lpc.skip[0];
            && (Next(Run(s, steps), Skip).lpc.Dead? <==> k !in Run(s, steps).schedule)
            && (k !in Run(s, steps).schedule ==> LatePurge(s, steps, s.schedule[k]))
            && (LatePurge(s, steps, s.schedule[k]) && k in Run(s, steps).schedule ==> Run(s, steps).schedule[k] != s.schedule[k])
  {
    var k := s.lpc.skip[0];
    SkippedIsQueued(s);
    LauncherWaits(s, steps);
    StaysExactlyWhen(s, steps, k);
  }

  /** From s to t no cast is started. */
  ghost predicate NoneStarted(s: State, t: State) {
    && |s.heap| <= |t.heap|
    && (forall i :: 0 <= i < |s.heap| ==> t.heap[i].starts == s.heap[i].starts)
    && (forall i :: |s.heap| <= i < |t.heap| ==> t.heap[i].starts == 0)
  }

  lemma DeadStep(s: State, a: Action)
    requires Inv(s) && s.lpc.Dead?
    ensures Next(s, a).lpc.Dead? && NoneStarted(s, Next(s, a))
  {
    if a.Parse? && s.spc == Top {
      AddRowsOnlyAdds(s.heap, map[], a.rows);
      var t := DoParse(s, a.rows);
      assert forall i :: 0 <= i < |s.heap| ==> t.heap[i] == t.heap[..|s.heap|][i];
    }
  }

  /** A dead launcher stays dead, and no cast is started any more, whatever the scheduler goes on to schedule. */
  lemma {:induction false} DeadForever(s: State, actions: seq<Action>)
    requires Inv(s) && s.lpc.Dead?
    ensures Run(s, actions).lpc.Dead? && NoneStarted(s, Run(s, actions))
    decreases |actions|
  {
    if actions != [] {
      var m := Next(s, actions[0]);
      DeadStep(s, actions[0]);
      DeadForever(m, actions[1..]);
      NoneStartedTwice(s, m, Run(m, actions[1..]));
    }
  }

  lemma NoneStartedTwice(s: State, m: State, t: State)
    requires NoneStarted(s, m) && NoneStarted(m, t)
    ensures NoneStarted(s, t)
  {
  }

  // ---------- Runs that lose casts ----------

  ghost predicate Moves(s: State, a: Action, t: State) {
    WellFormed(s) && Do(s, a) == t
  }

  /** The states that a run goes through. */
  ghost predicate Path(run: seq<Action>, states: seq<State>) {
    |states| == |run| + 1 && forall i :: 0 <= i < |run| ==> Moves(states[i], run[i], states[i + 1])
  }

  lemma {:induction false} PathRuns(run: seq<Action>, states: seq<State>)
    requires Path(run, states) && Inv(states[0])
    ensures Run(states[0], run) == states[|run|]
    decreases |run|
  {
    if run != [] {
      assert Moves(states[0], run[0], states[1]);
      DoKeepsInv(states[0], run[0]);
      forall i | 0 <= i < |run[1..]|
        ensures Moves(states[1..][i], run[1..][i], states[1..][i + 1])
      {
        assert Moves(states[i + 1], run[i + 1], states[i + 2]);
      }
      PathRuns(run[1..], states[1..]);
    }
  }

  const FRESH := Rec(1, false, Unscheduled, false, NoAction, None, false, 0)

  /** Entry 1 is read, becomes due and is scheduled. */
  const SCHEDULE_ONE: seq<Action> := [Parse([(1, false)]), Promote({1}), StartTransfer, Transfer(1), EndTick]

  function One(r: Rec, ready: bool, scheduled: bool, spc: SchedulerPc): State {
    State([r], map[1 := 0], if ready then map[1 := 0] else map[], if scheduled then map[1 := 0] else map[], spc, Idle)
  }

  lemma ReadOne()
    ensures Moves(INIT, Parse([(1, false)]), One(FRESH, false, false, Top))
  {
    ParseOne(INIT, (1, false));
    assert INIT.heap + [FRESH] == [FRESH];
  }

  lemma PromoteOne()
    ensures Moves(One(FRESH, false, false, Top), Promote({1}), One(FRESH.(sched := Scheduled), true, false, Merging))
  {
    var t := DoPromote(One(FRESH, false, false, Top), {1});
    assert t.ready == map[1 := 0];
    assert t.heap == [FRESH.(sched := Scheduled)];
  }

  lemma TransferOne(r: Rec)
    requires r.key == 1 && !r.matched
    ensures Moves(One(r, true, false, Transferring), Transfer(1), One(r.(action := Queued, scheduled := true), true, true, Transferring))
  {
  }

  lemma StartTransferMoves(s: State)
    requires WellFormed(s) && s.spc == Merging
    ensures Moves(s, StartTransfer, s.(spc := Transferring))
  {
  }

  lemma EndTickMoves(s: State)
    requires WellFormed(s) && s.spc == Transferring
    ensures Moves(s, EndTick, s.(spc := Top, ready := map[]))
  {
  }

  function OneStates(): seq<State> {
    var f := FRESH.(sched := Scheduled);
    var q := f.(action := Queued, scheduled := true);
    [INIT, One(FRESH, false, false, Top), One(f, true, false, Merging), One(f, true, false, Transferring),
     One(q, true, true, Transferring), One(q, false, true, Top)]
  }

  lemma OnePath()
    ensures Path(SCHEDULE_ONE, OneStates())
  {
    var (run, states) := (SCHEDULE_ONE, OneStates());
    var f := FRESH.(sched := Scheduled);
    forall i | 0 <= i < |run|
      ensures Moves(states[i], run[i], states[i + 1])
    {
      if i == 0 {
        ReadOne();
      } else if i == 1 {
        PromoteOne();
      } else if i == 2 {
        StartTransferMoves(One(f, true, false, Merging));
      } else if i == 3 {
        TransferOne(f);
      } else {
        EndTickMoves(One(f.(action := Queued, scheduled := true), true, true, Transferring));
      }
    }
  }

  lemma ScheduleOne()
    ensures Inv(INIT) && Run(INIT, SCHEDULE_ONE) == One(FRESH.(sched := Scheduled, action := Queued, scheduled := true), false, true, Top)
  {
    InitIsGood();
    OnePath();
    PathRuns(SCHEDULE_ONE, OneStates());
  }

  /** The launcher finds entry 1 queued alone and takes it. */
  const TAKE: seq<Action> := [Pick([], [1]), Skip, Mark, Mark, Take(true)]

  predicate OnlyOneQueued(s: State) {
    s.heap != [] && s.heap[0].key == 1 && s.heap[0].action == Queued && s.schedule == map[1 := 0]
    && 1 in s.pending && s.pending[1] == 0 && s.lpc == Idle
  }

  function Taken(s: State): State
    requires OnlyOneQueued(s)
  {
    s.(heap := s.heap[0 := s.heap[0].(sched := Processed, action := Casting)], lpc := Starting(1, 0, []))
  }

  lemma PickOne(s: State)
    requires WellFormed(s) && OnlyOneQueued(s)
    ensures Moves(s, Pick([], [1]), s.(lpc := Skipping([], [1], [1])))
  {
    assert [] + [1] == [1];
    assert QueuedKey(s, 1);
    assert Splits(s, [], [1]);
  }

  lemma MarkOne(s: State)
    requires WellFormed(s) && OnlyOneQueued(s)
    ensures var p := s.(heap := s.heap[0 := s.heap[0].(sched := Processed)]);
            Moves(s.(lpc := Marking([1], [1])), Mark, p.(lpc := Marking([], [1])))
  {
    assert [1][1..] == [];
  }

  lemma TakeOne(s: State)
    requires WellFormed(s) && OnlyOneQueued(s)
    ensures var p := s.(heap := s.heap[0 := s.heap[0].(sched := Processed)]);
            Moves(p.(lpc := Working([1])), Take(true), Taken(s))
  {
    assert [1][1..] == [];
  }

  lemma TakeRuns(s: State)
    requires Inv(s) && OnlyOneQueued(s)
    ensures Run(s, TAKE) == Taken(s)
  {
    var p := s.(heap := s.heap[0 := s.heap[0].(sched := Processed)]);
    PickOne(s);
    MarkOne(s);
    TakeOne(s);
    var states := [s, s.(lpc := Skipping([], [1], [1])), s.(lpc := Marking([1], [1])), p.(lpc := Marking([], [1])),
                   p.(lpc := Working([1])), Taken(s)];
    assert Moves(states[1], TAKE[1], states[2]);
    assert Moves(states[3], TAKE[3], states[4]);
    PathRuns(TAKE, states);
  }

  /** While the launcher takes its cast, the table is read again without the entry. */
  const RELOADED := SCHEDULE_ONE + TAKE + ([Parse([])] + [Act])

  /** From the start of the program, this run ends with a record that is stuck. */
  lemma StuckIsReached()
    ensures Inv(INIT) && Stuck(Run(INIT, RELOADED), 1, 0)
  {
    ScheduleOne();
    var s := Run(INIT, SCHEDULE_ONE);
    TakeRuns(s);
    RunConcat(INIT, SCHEDULE_ONE, TAKE);
    RunConcat(INIT, SCHEDULE_ONE + TAKE, [Parse([])] + [Act]);
    var t := Taken(s);
    RunConcat(t, [Parse([])], [Act]);
    RunOne(t, Parse([]));
    RunOne(Next(t, Parse([])), Act);
    FailedActSticks(Next(t, Parse([])));
  }

  /** The table is read again without the entry when the launcher has just found it queued. */
  const STRUCK: seq<Action> := SCHEDULE_ONE + ([Pick([], [1]), Skip] + ([Parse([])] + [Mark]))

  lemma PickRuns(s: State)
    requires Inv(s) && OnlyOneQueued(s)
    ensures Run(s, [Pick([], [1]), Skip]) == s.(lpc := Marking([1], [1]))
  {
    PickOne(s);
    PathRuns([Pick([], [1]), Skip], [s, s.(lpc := Skipping([], [1], [1])), s.(lpc := Marking([1], [1]))]);
  }

  lemma RunTwo(s: State, a: Action, b: Action)
    requires Inv(s)
    ensures Run(s, [a] + [b]) == Next(Next(s, a), b)
  {
    RunConcat(s, [a], [b]);
    RunOne(s, a);
    RunOne(Next(s, a), b);
  }

  lemma StrikeRuns(m: State)
    requires Inv(m) && m.spc == Top && m.lpc == Marking([1], [1])
    ensures Run(m, [Parse([])] + [Mark]).lpc.Dead?
  {
    RunTwo(m, Parse([]), Mark);
    EmptyTableKills(m);
  }

  lemma EmptyTableKills(m: State)
    requires Inv(m) && m.spc == Top && m.lpc == Marking([1], [1])
    ensures Next(Next(m, Parse([])), Mark).lpc.Dead?
  {
    assert Next(m, Parse([])).pending == map[];
  }

  lemma PickAndStrike(s: State)
    requires Inv(s) && OnlyOneQueued(s) && s.spc == Top
    ensures Run(s, [Pick([], [1]), Skip] + ([Parse([])] + [Mark])).lpc.Dead?
  {
    PickRuns(s);
    RunConcat(s, [Pick([], [1]), Skip], [Parse([])] + [Mark]);
    StrikeRuns(Run(s, [Pick([], [1]), Skip]));
  }

  /** From the start of the program, this run ends with a dead launcher. */
  lemma DeathIsReached(later: seq<Action>)
    ensures Inv(INIT) && Run(Run(INIT, STRUCK), later).lpc.Dead?
  {
    ScheduleOne();
    var s := Run(INIT, SCHEDULE_ONE);
    PickAndStrike(s);
    RunConcat(INIT, SCHEDULE_ONE, [Pick([], [1]), Skip] + ([Parse([])] + [Mark]));
    DeadForever(Run(INIT, STRUCK), later);
  }

  /** Entries 1 and 2 are read, become due together, are merged at time 0 and scheduled as one. */
  const SCHEDULE_TWO: seq<Action> := [
    Parse([(1, false), (2, false)]), Promote({1, 2}), MergePair(1, 2, 0), StartTransfer, Transfer(1), EndTick]

  const BOTH: map<Key, Id> := map[1 := 0, 2 := 1]

  function Two(r: Rec, q: Rec, ready: bool, scheduled: bool, spc: SchedulerPc): State {
    State([r, q], BOTH, if ready then BOTH else map[], if scheduled then map[1 := 0] else map[], spc, Idle)
  }

  lemma ReadTwo()
    ensures Moves(INIT, Parse([(1, false), (2, false)]), Two(FRESH, FRESH.(key := 2), false, false, Top))
  {
    var rows := [(1, false), (2, false)];
    assert rows[1..] == [(2, false)] && [(2, false)][1..] == [];
    assert [] + [FRESH] == [FRESH] && [FRESH] + [FRESH.(key := 2)] == [FRESH, FRESH.(key := 2)];
    assert AddRows([FRESH], map[1 := 0], rows[1..]) == ([FRESH, FRESH.(key := 2)], map[1 := 0][2 := 1]);
    assert map[][1 := 0] == map[1 := 0] && map[1 := 0][2 := 1] == BOTH;
  }

  lemma PromoteTwo()
    ensures Moves(Two(FRESH, FRESH.(key := 2), false, false, Top), Promote({1, 2}),
                  Two(FRESH.(sched := Scheduled), FRESH.(key := 2, sched := Scheduled), true, false, Merging))
  {
    var t := DoPromote(Two(FRESH, FRESH.(key := 2), false, false, Top), {1, 2});
    assert t.ready == BOTH;
    assert t.heap == [FRESH.(sched := Scheduled), FRESH.(key := 2, sched := Scheduled)];
  }

  const SPENT := Rec(2, false, Unscheduled, true, NoAction, None, false, 0)

  lemma MergeTwo()
    ensures Moves(Two(FRESH.(sched := Scheduled), FRESH.(key := 2, sched := Scheduled), true, false, Merging), MergePair(1, 2, 0),
                  Two(FRESH.(sched := Scheduled, action := Queued, inserted := Some(0)), SPENT, true, false, Merging))
  {
    var (r, q) := (FRESH.(sched := Scheduled), FRESH.(key := 2, sched := Scheduled));
    assert [r, q][1 := SPENT] == [r, SPENT];
    assert [r, SPENT][0 := r.(action := Queued, inserted := Some(0))] == [r.(action := Queued, inserted := Some(0)), SPENT];
  }

  lemma TransferMerged(r: Rec)
    requires r.key == 1 && !r.matched
    ensures Moves(Two(r, SPENT, true, false, Transferring), Transfer(1),
                  Two(r.(action := Queued, scheduled := true), SPENT, true, true, Transferring))
  {
    assert [r, SPENT][0 := r.(action := Queued, scheduled := true)] == [r.(action := Queued, scheduled := true), SPENT];
  }

  function TwoStates(): seq<State> {
    var (f, g) := (FRESH.(sched := Scheduled), FRESH.(key := 2, sched := Scheduled));
    var m := f.(action := Queued, inserted := Some(0));
    var q := m.(scheduled := true);
    [INIT, Two(FRESH, FRESH.(key := 2), false, false, Top), Two(f, g, true, false, Merging), Two(m, SPENT, true, false, Merging),
     Two(m, SPENT, true, false, Transferring), Two(q, SPENT, true, true, Transferring), Two(q, SPENT, false, true, Top)]
  }

  lemma TwoMovesFirst(i: nat)
    requires i < 3
    ensures Moves(TwoStates()[i], SCHEDULE_TWO[i], TwoStates()[i + 1])
  {
    if i == 0 {
      ReadTwo();
    } else if i == 1 {
      PromoteTwo();
    } else {
      MergeTwo();
    }
  }

  lemma TwoMovesThen(i: nat)
    requires 3 <= i < 6
    ensures Moves(TwoStates()[i], SCHEDULE_TWO[i], TwoStates()[i + 1])
  {
    var m := FRESH.(sched := Scheduled, action := Queued, inserted := Some(0));
    if i == 3 {
      StartTransferMoves(Two(m, SPENT, true, false, Merging));
    } else if i == 4 {
      TransferMerged(m);
    } else {
      EndTickMoves(Two(m.(scheduled := true), SPENT, true, true, Transferring));
    }
  }

  lemma TwoPath()
    ensures Path(SCHEDULE_TWO, TwoStates())
  {
    forall i | 0 <= i < 6
      ensures Moves(TwoStates()[i], SCHEDULE_TWO[i], TwoStates()[i + 1])
    {
      if i < 3 {
        TwoMovesFirst(i);
      } else {
        TwoMovesThen(i);
      }
    }
  }

  lemma ScheduleTwo()
    ensures Inv(INIT)
    ensures Run(INIT, SCHEDULE_TWO)
            == Two(FRESH.(sched := Scheduled, action := Queued, inserted := Some(0), scheduled := true), SPENT, false, true, Top)
  {
    InitIsGood();
    TwoPath();
    PathRuns(SCHEDULE_TWO, TwoStates());
  }

  /** The merged cast is taken and begins. */
  const MERGED := SCHEDULE_TWO + TAKE + [Act]

  lemma ActBegins(s: State)
    requires WellFormed(s) && OnlyOneQueued(s)
    ensures WellFormed(Taken(s))
    ensures var t := Do(Taken(s), Act);
            && t.spc == s.spc && t.lpc == CastRunning(1, 0, []) && t.schedule == s.schedule && |t.heap| == |s.heap|
            && t.heap[0].inserted == s.heap[0].inserted
  {
  }

  lemma MergedIsTaken()
    ensures Inv(INIT) && Inv(Run(INIT, SCHEDULE_TWO)) && OnlyOneQueued(Run(INIT, SCHEDULE_TWO))
    ensures Run(INIT, SCHEDULE_TWO + TAKE) == Taken(Run(INIT, SCHEDULE_TWO))
  {
    ScheduleTwo();
    TakeRuns(Run(INIT, SCHEDULE_TWO));
    RunConcat(INIT, SCHEDULE_TWO, TAKE);
  }

  lemma MergedIsRunning()
    ensures Inv(INIT)
    ensures var s := Run(INIT, MERGED);
            && s.spc == Top && s.lpc == CastRunning(1, 0, []) && s.schedule == map[1 := 0] && |s.heap| == 2
            && s.heap[0].inserted == Some(0)
  {
    MergedIsTaken();
    RunConcat(INIT, SCHEDULE_TWO + TAKE, [Act]);
    RunOne(Run(INIT, SCHEDULE_TWO + TAKE), Act);
    ActBegins(Run(INIT, SCHEDULE_TWO));
    ScheduleTwo();
  }

  /**
   * From the start of the program, this run and an hour of casting end with a done record of entry 1 that
   * no later step starts.
   */
  lemma LostCastIsReached(later: seq<Action>)
    ensures Inv(INIT) && NeverStarted(Run(Overrun(Run(INIT, MERGED), 1, false, MAX_SCHEDULED_TIME), later), 2)
  {
    MergedIsRunning();
    OverrunDropsNextCast(Run(INIT, MERGED), false, MAX_SCHEDULED_TIME, later);
  }
}
