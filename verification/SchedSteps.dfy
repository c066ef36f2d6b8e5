/**
 * What each step of the scheduler and launcher threads changes, record by record and table by table,
 * and what becomes of the casts that the launcher skips.
 */
module SchedSteps {
  import opened Options
  import opened Scheduler
  import opened SchedThreads
  import opened SchedHistory
  import opened SchedRuns

  // ---------- The scheduler's steps ----------

  /** The launcher and every record stay as they are. */
  ghost predicate OnlyTables(s: State, t: State) {
    t.lpc == s.lpc && t.heap == s.heap
  }

  /** A purge keeps just what is neither done nor an hour past its insert time. */
  lemma PurgeMeans(s: State, now: int)
    requires Inv(s) && s.spc == Top
    ensures var t := Next(s, Purge(now));
            && OnlyTables(s, t) && t.pending == s.pending && t.ready == map[] && t.spc == Top
            && forall k :: k in s.schedule ==>
                 var r := s.heap[s.schedule[k]];
                 if r.action == Done || (r.inserted != None && now - r.inserted.value >= 3600) then k !in t.schedule
                 else k in t.schedule && t.schedule[k] == s.schedule[k]
    ensures forall k :: k in Next(s, Purge(now)).schedule ==> k in s.schedule
  {
  }

  /** The last of the rows that name an entry. */
  ghost predicate LastRowOf(rows: seq<(Key, bool)>, k: Key, isco: bool) {
    exists i :: 0 <= i < |rows| && rows[i] == (k, isco) && forall j :: i < j < |rows| ==> rows[j].0 != k
  }

  lemma {:induction false} AddedRowsMean(heap: seq<Rec>, pending: map<Key, Id>, rows: seq<(Key, bool)>, k: Key)
    ensures var (h, p) := AddRows(heap, pending, rows);
            && heap <= h
            && ((exists i :: 0 <= i < |rows| && rows[i].0 == k) ==>
                  k in p && |heap| <= p[k] < |h|
                  && exists isco :: LastRowOf(rows, k, isco) && h[p[k]] == Rec(k, isco, Unscheduled, false, NoAction, None, false, 0))
            && ((forall i :: 0 <= i < |rows| ==> rows[i].0 != k) ==>
                  (k in p <==> k in pending) && (k in p ==> p[k] == pending[k]))
    decreases |rows|
  {
    if rows != [] {
      var first, rest := rows[0], rows[1..];
      var h1, p1 := heap + [Fresh(first)], pending[first.0 := |heap|];
      AddedRowsMean(h1, p1, rest, k);
      var (h, p) := AddRows(heap, pending, rows);
      if exists i :: 0 <= i < |rest| && rest[i].0 == k {
        var isco :| LastRowOf(rest, k, isco) && h[p[k]] == Rec(k, isco, Unscheduled, false, NoAction, None, false, 0);
        LastRowOfMore(rows, k, isco);
      } else {
        assert forall i :: 1 <= i < |rows| ==> rows[i] == rest[i - 1];
        if first.0 == k {
          assert LastRowOf(rows, k, first.1);
          assert h[p[k]] == h1[|heap|];
        }
      }
    }
  }

  lemma LastRowOfMore(rows: seq<(Key, bool)>, k: Key, isco: bool)
    requires rows != [] && LastRowOf(rows[1..], k, isco)
    ensures LastRowOf(rows, k, isco)
  {
    var i :| 0 <= i < |rows[1..]| && rows[1..][i] == (k, isco) && forall j :: i < j < |rows[1..]| ==> rows[1..][j].0 != k;
    forall j | i + 1 < j < |rows| ensures rows[j].0 != k {
      assert rows[j] == rows[1..][j - 1];
    }
    assert rows[i + 1] == (k, isco);
  }

  /** A reload replaces `pending` by a new blank record for each entry that a row names. */
  lemma ParseMeans(s: State, rows: seq<(Key, bool)>, k: Key)
    requires Inv(s) && s.spc == Top
    ensures var t := Next(s, Parse(rows));
            && s.heap <= t.heap && t.lpc == s.lpc && t.spc == Top && t.ready == s.ready && t.schedule == s.schedule
            && (k in t.pending <==> exists i :: 0 <= i < |rows| && rows[i].0 == k)
            && (k in t.pending ==>
                  |s.heap| <= t.pending[k] < |t.heap|
                  && exists isco :: LastRowOf(rows, k, isco)
                                    && t.heap[t.pending[k]] == Rec(k, isco, Unscheduled, false, NoAction, None, false, 0))
  {
    AddedRowsMean(s.heap, map[], rows, k);
  }

  /** What is due and unscheduled goes to `ready`, marked scheduled, as the same record. */
  lemma PromoteMeans(s: State, due: set<Key>)
    requires Inv(s) && s.spc == Top
    ensures var t := Next(s, Promote(due));
            && t.lpc == s.lpc && t.spc == Merging && t.pending == s.pending && t.schedule == s.schedule && |t.heap| == |s.heap|
            && (forall k :: k in t.ready <==> k in due && k in s.pending && s.heap[s.pending[k]].sched == Unscheduled)
            && (forall k :: k in t.ready ==> t.ready[k] == s.pending[k])
            && (forall i :: 0 <= i < |s.heap| ==>
                  t.heap[i] == if s.heap[i].key in t.ready && t.ready[s.heap[i].key] == i then s.heap[i].(sched := Scheduled) else s.heap[i])
  {
  }

  /** Of two unmatched non-ISCO records one absorbs the other: it is queued and stamped, the other matched and not scheduled. */
  lemma MergeMeans(s: State, o: Key, i: Key, now: int)
    requires Inv(s) && s.spc == Merging && o != i && o in s.ready && i in s.ready
    requires !s.heap[s.ready[o]].matched && !s.heap[s.ready[i]].matched && !s.heap[s.ready[o]].isco && !s.heap[s.ready[i]].isco
    ensures var t := Next(s, MergePair(o, i, now));
            var (a, b) := (s.ready[o], s.ready[i]);
            && t.(heap := s.heap) == s && |t.heap| == |s.heap| && a != b
            && t.heap[a] == s.heap[a].(action := Queued, inserted := Some(now))
            && t.heap[b] == s.heap[b].(matched := true, sched := Unscheduled)
            && forall j :: 0 <= j < |s.heap| && j != a && j != b ==> t.heap[j] == s.heap[j]
  {
    assert s.heap[s.ready[o]].key == o && s.heap[s.ready[i]].key == i;
  }

  /** An unmatched record of `ready` enters `schedule` queued, unless its key is there. */
  lemma TransferMeans(s: State, k: Key)
    requires Inv(s) && s.spc == Transferring && k in s.ready
    ensures var t := Next(s, Transfer(k));
            var id := s.ready[k];
            if !s.heap[id].matched && k !in s.schedule then
              && t == s.(heap := t.heap, schedule := s.schedule[k := id]) && |t.heap| == |s.heap|
              && t.heap[id] == s.heap[id].(action := Queued, scheduled := true)
              && forall j :: 0 <= j < |s.heap| && j != id ==> t.heap[j] == s.heap[j]
            else t == s
  {
  }

  // ---------- The launcher's steps ----------

  /** At most the record of one id changes; no table does. */
  ghost predicate OnlyRecord(s: State, t: State, id: Id) {
    && t.pending == s.pending && t.ready == s.ready && t.schedule == s.schedule && t.spc == s.spc
    && |t.heap| == |s.heap| && forall j :: 0 <= j < |s.heap| && j != id ==> t.heap[j] == s.heap[j]
  }

  /** The launcher splits the queued keys: it skips the non-ISCO ones if there are several, and casts all others. */
  lemma PickMeans(s: State, skip: seq<Key>, queue: seq<Key>)
    requires Inv(s) && s.lpc.Idle?
    ensures var t := Next(s, Pick(skip, queue));
            && t.(lpc := s.lpc) == s
            && (t.lpc.Idle? || t.lpc == Skipping(skip, queue, queue))
            && (t.lpc.Skipping? ==>
                  && (forall k :: k in skip || k in queue <==> k in s.schedule && s.heap[s.schedule[k]].action == Queued)
                  && (forall k :: k in skip ==> !s.heap[s.schedule[k]].isco)
                  && (forall k :: k in queue && !s.heap[s.schedule[k]].isco ==> skip == [])
                  && (forall i, j :: 0 <= i < j < |queue| ==> s.heap[s.schedule[queue[i]]].isco || s.heap[s.schedule[queue[j]]].isco)
                  && |skip| != 1)
  {
    if Splits(s, skip, queue) {
      assert forall k :: k in skip + queue <==> k in skip || k in queue;
      assert forall k :: k in skip + queue <==> QueuedKey(s, k);
    }
  }

  /** A skipped cast is marked done, unstarted; if it is not in `schedule` any more, the thread ends. */
  lemma SkipMeans(s: State)
    requires Inv(s) && s.lpc.Skipping? && s.lpc.skip != []
    ensures var t := Next(s, Skip);
            var k := s.lpc.skip[0];
            if k !in s.schedule then t == s.(lpc := Dead)
            else
              var id := s.schedule[k];
              && OnlyRecord(s, t, id) && t.lpc == Skipping(s.lpc.skip[1..], s.lpc.mark, s.lpc.queue)
              && s.heap[id].action == Queued && t.heap[id] == s.heap[id].(action := Done) && t.heap[id].starts == 0
  {
    if s.lpc.skip[0] in s.schedule {
      SkippedIsQueued(s);
      assert GoodRec(s.heap[s.schedule[s.lpc.skip[0]]]);
    }
  }

  /** A pending entry is marked processed; if it is not pending any more, the thread ends. */
  lemma MarkMeans(s: State)
    requires Inv(s) && s.lpc.Marking? && s.lpc.mark != []
    ensures var t := Next(s, Mark);
            var k := s.lpc.mark[0];
            if k !in s.pending then t == s.(lpc := Dead)
            else
              var id := s.pending[k];
              && OnlyRecord(s, t, id) && t.lpc == Marking(s.lpc.mark[1..], s.lpc.queue)
              && t.heap[id] == s.heap[id].(sched := Processed)
  {
  }

  /** The next cast is taken: its queued record is casting. One that lacks an argument, or is gone, is passed over. */
  lemma TakeMeans(s: State, complete: bool)
    requires Inv(s) && s.lpc.Working? && s.lpc.queue != []
    ensures var t := Next(s, Take(complete));
            var (k, rest) := (s.lpc.queue[0], s.lpc.queue[1..]);
            if !complete || k !in s.schedule then t == s.(lpc := Working(rest))
            else
              var id := s.schedule[k];
              && OnlyRecord(s, t, id) && t.lpc == Starting(k, id, rest)
              && s.heap[id].action == Queued && t.heap[id] == s.heap[id].(action := Casting)
  {
  }

  /** The cast begins if its entry is still pending, which is then marked; the record taken before is started. */
  lemma ActMeans(s: State)
    requires Inv(s) && s.lpc.Starting?
    ensures var t := Next(s, Act);
            var (k, id) := (s.lpc.key, s.lpc.rec);
            if k !in s.pending then t == s.(lpc := Working(s.lpc.queue))
            else
              var p := s.pending[k];
              && t.lpc == CastRunning(k, id, s.lpc.queue) && t.(lpc := s.lpc, heap := s.heap) == s && |t.heap| == |s.heap|
              && s.heap[id].starts == 0 && t.heap[id].starts == 1 && t.heap[id].action == Casting
              && t.heap[p].sched == Acting
              && forall j :: 0 <= j < |s.heap| && j != id && j != p ==> t.heap[j] == s.heap[j]
  {
  }

  /** The end of a cast marks what is under its key done. */
  lemma FinishMeans(s: State)
    requires Inv(s) && s.lpc.CastRunning?
    ensures var t := Next(s, Finish);
            && t.lpc == Working(s.lpc.queue)
            && (s.lpc.key !in s.schedule ==> t.(lpc := s.lpc) == s)
            && (s.lpc.key in s.schedule ==>
                  var id := s.schedule[s.lpc.key];
                  OnlyRecord(s, t, id) && t.heap[id] == s.heap[id].(action := Done))
  {
  }

  // ---------- A skipped cast is never started ----------

  /** A scheduled record that is done or gone, unstarted, and not being cast. */
  ghost predicate Out(s: State, id: Id) {
    && id < |s.heap| && s.heap[id].scheduled && s.heap[id].starts == 0
    && (s.heap[id].action == Done || forall k :: k in s.schedule ==> s.schedule[k] != id)
    && (s.lpc.Starting? || s.lpc.CastRunning? ==> s.lpc.rec != id)
  }

  lemma OutStaysUnderScheduler(s: State, a: Action, id: Id)
    requires Inv(s) && Out(s, id) && SchedulerStep(a)
    ensures Out(Next(s, a), id)
  {
    var t := Next(s, a);
    ScheduledIsKept(s, a, id);
    if Gone(s, id) {
      GoneOneStep(s, a, id);
    }
  }

  /** A record is marked done or gets another schedule status, and the launcher holds none. */
  lemma OutStaysByWrite(s: State, t: State, r: Id, id: Id)
    requires Out(s, id) && r < |s.heap| && OnlyRecord(s, t, r) && !t.lpc.Starting? && !t.lpc.CastRunning?
    requires t.heap[r].scheduled == s.heap[r].scheduled && t.heap[r].starts == s.heap[r].starts
    requires t.heap[r].action == s.heap[r].action || t.heap[r].action == Done
    ensures Out(t, id)
  {
  }

  lemma OutStaysUnderSkip(s: State, id: Id)
    requires Inv(s) && Out(s, id)
    ensures Out(Next(s, Skip), id)
  {
    if s.lpc.Skipping? && s.lpc.skip != [] {
      SkipMeans(s);
      if s.lpc.skip[0] in s.schedule {
        OutStaysByWrite(s, Next(s, Skip), s.schedule[s.lpc.skip[0]], id);
      }
    }
  }

  lemma OutStaysUnderMark(s: State, id: Id)
    requires Inv(s) && Out(s, id)
    ensures Out(Next(s, Mark), id)
  {
    if s.lpc.Marking? && s.lpc.mark != [] {
      MarkMeans(s);
      if s.lpc.mark[0] in s.pending {
        OutStaysByWrite(s, Next(s, Mark), s.pending[s.lpc.mark[0]], id);
      }
    }
  }

  lemma OutStaysUnderTake(s: State, complete: bool, id: Id)
    requires Inv(s) && Out(s, id)
    ensures Out(Next(s, Take(complete)), id)
  {
    if s.lpc.Working? && s.lpc.queue != [] {
      TakeMeans(s, complete);
    }
  }

  lemma OutStaysUnderAct(s: State, id: Id)
    requires Inv(s) && Out(s, id)
    ensures Out(Next(s, Act), id)
  {
    if s.lpc.Starting? {
      ActMeans(s);
      ActionEvolves(s, Act);
      assert Evolves(s.heap[id], Next(s, Act).heap[id]);
    }
  }

  lemma OutStaysUnderFinish(s: State, id: Id)
    requires Inv(s) && Out(s, id)
    ensures Out(Next(s, Finish), id)
  {
    if s.lpc.CastRunning? {
      FinishMeans(s);
      if s.lpc.key in s.schedule {
        OutStaysByWrite(s, Next(s, Finish), s.schedule[s.lpc.key], id);
      }
    }
  }

  lemma OutStays(s: State, a: Action, id: Id)
    requires Inv(s) && Out(s, id)
    ensures Out(Next(s, a), id)
  {
    match a
    case Skip => OutStaysUnderSkip(s, id);
    case Mark => OutStaysUnderMark(s, id);
    case Take(complete) => OutStaysUnderTake(s, complete, id);
    case Act => OutStaysUnderAct(s, id);
    case Finish => OutStaysUnderFinish(s, id);
    case Pick(skip, queue) => OutStaysUnderPick(s, skip, queue, id);
    case EndPass => OutStaysUnderEndPass(s, id);
    case _ => OutStaysUnderScheduler(s, a, id);
  }

  lemma OutStaysUnderPick(s: State, skip: seq<Key>, queue: seq<Key>, id: Id)
    requires Inv(s) && Out(s, id)
    ensures Out(Next(s, Pick(skip, queue)), id)
  {
  }

  lemma OutStaysUnderEndPass(s: State, id: Id)
    requires Inv(s) && Out(s, id)
    ensures Out(Next(s, EndPass), id)
  {
  }

  lemma {:induction false} OutForever(s: State, actions: seq<Action>, id: Id)
    requires Inv(s) && Out(s, id)
    ensures Out(Run(s, actions), id)
    decreases |actions|
  {
    if actions != [] {
      OutStays(s, actions[0], id);
      OutForever(Next(s, actions[0]), actions[1..], id);
    }
  }

  // ---------- The whole list of casts to skip ----------

  /** What can happen while the launcher skips. */
  predicate WhileSkipping(a: Action) {
    a.Skip? || SchedulerStep(a)
  }

  lemma SkippingGoesOn(s: State, a: Action, k: Key)
    requires Inv(s) && s.lpc.Skipping? && k in s.lpc.skip && k in s.schedule && WhileSkipping(a)
    ensures var t := Next(s, a);
            || Out(t, s.schedule[k]) || t.lpc.Dead?
            || (t.lpc.Skipping? && k in t.lpc.skip && k in t.schedule && t.schedule[k] == s.schedule[k])
  {
    var id := s.schedule[k];
    QueuedWhileListed(s, k);
    if a.Skip? {
      SkipMeans(s);
      if s.lpc.skip[0] in s.schedule && k != s.lpc.skip[0] {
        assert s.lpc.skip == [s.lpc.skip[0]] + s.lpc.skip[1..];
      }
    } else {
      ScheduledIsKept(s, a, id);
      LeavesExactlyWhenPurged(s, a, k);
      if k !in Next(s, a).schedule {
        OneKeyOnly(Next(s, a), k, id);
      }
    }
  }

  lemma QueuedWhileListed(s: State, k: Key)
    requires Inv(s) && s.lpc.Skipping? && k in s.lpc.skip && k in s.schedule
    ensures s.heap[s.schedule[k]].action == Queued && s.heap[s.schedule[k]].starts == 0 && s.heap[s.schedule[k]].scheduled
  {
    assert k in Todo(s.lpc);
    assert GoodRec(s.heap[s.schedule[k]]);
  }

  lemma OneKeyOnly(s: State, k: Key, id: Id)
    requires Inv(s) && k !in s.schedule && id < |s.heap| && s.heap[id].key == k
    ensures forall x :: x in s.schedule ==> s.schedule[x] != id
  {
  }

  lemma {:induction false} SkippedIsOut(s: State, steps: seq<Action>, k: Key)
    requires Inv(s) && s.lpc.Skipping? && k in s.lpc.skip && k in s.schedule
    requires forall a :: a in steps ==> WhileSkipping(a)
    requires var l := Run(s, steps).lpc; l.Marking? || (l.Skipping? && k !in l.skip)
    ensures Out(Run(s, steps), s.schedule[k])
    decreases |steps|
  {
    if steps != [] {
      var t := Next(s, steps[0]);
      assert WhileSkipping(steps[0]);
      SkippingGoesOn(s, steps[0], k);
      if Out(t, s.schedule[k]) {
        OutForever(t, steps[1..], s.schedule[k]);
      } else if t.lpc.Dead? {
        DeadForever(t, steps[1..]);
      } else {
        SkippedIsOut(t, steps[1..], k);
      }
    }
  }

  /**
   * Once the launcher is through with the casts to skip, none of them is ever started, and none that is
   * still in `schedule` is queued or survives a purge, whatever happens afterwards.
   */
  lemma SkippedIsNeverStarted(s: State, steps: seq<Action>, later: seq<Action>, now: int, k: Key)
    requires Inv(s) && s.lpc.Skipping? && k in s.lpc.skip && k in s.schedule
    requires (forall a :: a in steps ==> WhileSkipping(a)) && Run(s, steps).lpc.Marking?
    ensures var t := Run(Run(s, steps), later);
            var id := s.schedule[k];
            && id < |t.heap| && t.heap[id].starts == 0
            && (k in t.schedule && t.schedule[k] == id ==> t.heap[id].action == Done)
            && (t.spc == Top ==> forall x :: x in Next(t, Purge(now)).schedule ==> Next(t, Purge(now)).schedule[x] != id)
  {
    var id := s.schedule[k];
    SkippedIsOut(s, steps, k);
    OutForever(Run(s, steps), later, id);
    var t := Run(Run(s, steps), later);
    if t.spc == Top {
      PurgeMeans(t, now);
    }
  }
}
