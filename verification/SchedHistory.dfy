/**
 * What happens to a record over every run of the scheduler and launcher threads, and how an entry can be
 * lost.
 */
module SchedHistory {
  import opened Options
  import opened Scheduler
  import opened SchedThreads

  /** queued to casting to done, or queued straight to done. */
  predicate Forward(a: ActionStatus, b: ActionStatus) {
    a == b || (a == Queued && b == Casting) || (a == Casting && b == Done) || (a == Queued && b == Done)
  }

  /** How one record may change: it keeps its key, and once scheduled its status only moves forward. */
  predicate Evolves(r: Rec, q: Rec) {
    && q.key == r.key && q.isco == r.isco && r.starts <= q.starts <= 1
    && (r.scheduled ==> q.scheduled && Forward(r.action, q.action))
  }

  ghost predicate AllEvolve(s: State, t: State) {
    |s.heap| <= |t.heap| && forall i :: 0 <= i < |s.heap| ==> Evolves(s.heap[i], t.heap[i])
  }

  lemma MergeEvolves(s: State, o: Key, i: Key, now: int)
    requires Inv(s) && s.spc == Merging && CanMerge(s, o, i)
    ensures AllEvolve(s, DoMerge(s, o, i, now))
  {
  }

  lemma ParseEvolves(s: State, rows: seq<(Key, bool)>)
    requires Inv(s) && s.spc == Top
    ensures AllEvolve(s, DoParse(s, rows))
  {
    AddRowsOnlyAdds(s.heap, map[], rows);
    var t := DoParse(s, rows);
    assert forall i :: 0 <= i < |s.heap| ==> t.heap[i] == t.heap[..|s.heap|][i];
  }

  lemma ActEvolves(s: State)
    requires Inv(s) && s.lpc.Starting?
    ensures AllEvolve(s, DoAct(s))
  {
  }

  lemma SchedulerEvolves(s: State, a: Action)
    requires Inv(s) && (a.Purge? || a.Parse? || a.Promote? || a.MergePair? || a.StartTransfer? || a.Transfer? || a.EndTick?)
    ensures AllEvolve(s, Do(s, a))
  {
    if a.Parse? && s.spc == Top {
      ParseEvolves(s, a.rows);
    } else if a.MergePair? && s.spc == Merging && CanMerge(s, a.o, a.i) {
      MergeEvolves(s, a.o, a.i, a.now);
    }
  }

  lemma LauncherEvolves(s: State, a: Action)
    requires Inv(s) && (a.Pick? || a.Skip? || a.Mark? || a.Take? || a.Act? || a.Finish? || a.EndPass?)
    ensures AllEvolve(s, Do(s, a))
  {
    if a.Act? && s.lpc.Starting? {
      ActEvolves(s);
    }
  }

  lemma ActionEvolves(s: State, a: Action)
    requires Inv(s)
    ensures AllEvolve(s, Do(s, a))
  {
    if a.Purge? || a.Parse? || a.Promote? || a.MergePair? || a.StartTransfer? || a.Transfer? || a.EndTick? {
      SchedulerEvolves(s, a);
    } else {
      LauncherEvolves(s, a);
    }
  }

  /** Every record, over every interleaving: started at most once, and its status never moves back. */
  lemma {:induction false} RecordsEvolve(s: State, actions: seq<Action>)
    requires Inv(s)
    ensures AllEvolve(s, Run(s, actions))
    decreases |actions|
  {
    if actions != [] {
      DoKeepsInv(s, actions[0]);
      ActionEvolves(s, actions[0]);
      RecordsEvolve(Do(s, actions[0]), actions[1..]);
    }
  }

  /** One step takes a record out of `schedule` exactly when it is a purge of a done or overdue one. */
  lemma LeavesExactlyWhenPurged(s: State, a: Action, k: Key)
    requires Inv(s) && k in s.schedule
    ensures var r := s.heap[s.schedule[k]];
            k !in Do(s, a).schedule <==> a.Purge? && s.spc == Top && (r.action == Done || (r.inserted.Some? && a.now - r.inserted.value >= 3600))
    ensures k in Do(s, a).schedule ==> Do(s, a).schedule[k] == s.schedule[k]
  {
  }

  /** One step puts a record into `schedule` exactly when it transfers an unmatched one, which has never been there. */
  lemma EntersExactlyWhenTransferred(s: State, a: Action, k: Key)
    requires Inv(s) && k !in s.schedule
    ensures k in Do(s, a).schedule <==> a == Transfer(k) && s.spc == Transferring && k in s.ready && !s.heap[s.ready[k]].matched
    ensures k in Do(s, a).schedule ==>
              var id := Do(s, a).schedule[k];
              id < |s.heap| && !s.heap[id].scheduled && Do(s, a).heap[id].action == Queued && Do(s, a).heap[id].scheduled
  {
  }

  lemma {:induction false} RunFront(s: State, actions: seq<Action>)
    requires Inv(s) && actions != []
    ensures Run(s, actions) == Do(Run(s, actions[..|actions| - 1]), actions[|actions| - 1])
    decreases |actions|
  {
    DoKeepsInv(s, actions[0]);
    if |actions| > 1 {
      var rest := actions[1..];
      RunFront(Do(s, actions[0]), rest);
      assert rest[..|rest| - 1] == actions[..|actions| - 1][1..];
    }
  }

  /** Step i of a run purges the record of k. */
  ghost predicate PurgedAt(s: State, actions: seq<Action>, k: Key, id: Id, i: nat)
    requires Inv(s) && i < |actions|
  {
    var m := Run(s, actions[..i]);
    && actions[i].Purge? && k in m.schedule && m.schedule[k] == id
    && (m.heap[id].action == Done || Overdue(m.heap[id], actions[i].now))
  }

  /** Over every run, a scheduled record stays in `schedule` until a purge finds it done or overdue. */
  lemma {:induction false} StaysUntilPurged(s: State, actions: seq<Action>, k: Key)
    requires Inv(s) && k in s.schedule
    ensures var t := Run(s, actions);
            || (k in t.schedule && t.schedule[k] == s.schedule[k])
            || exists i: nat :: i < |actions| && PurgedAt(s, actions, k, s.schedule[k], i)
    decreases |actions|
  {
    if actions != [] {
      var n := |actions| - 1;
      var front := actions[..n];
      StaysUntilPurged(s, front, k);
      RunFront(s, actions);
      var m := Run(s, front);
      if k in m.schedule && m.schedule[k] == s.schedule[k] {
        LeavesExactlyWhenPurged(m, actions[n], k);
        if k !in Run(s, actions).schedule {
          assert PurgedAt(s, actions, k, s.schedule[k], n);
        }
      } else {
        var i: nat :| i < n && PurgedAt(s, front, k, s.schedule[k], i);
        assert front[..i] == actions[..i];
        assert PurgedAt(s, actions, k, s.schedule[k], i);
      }
    }
  }

  /** A record that has been in `schedule` and is out of it. */
  ghost predicate Gone(s: State, id: Id) {
    id < |s.heap| && s.heap[id].scheduled && forall k :: k in s.schedule ==> s.schedule[k] != id
  }

  lemma GoneOneStep(s: State, a: Action, id: Id)
    requires Inv(s) && Gone(s, id)
    ensures Gone(Do(s, a), id)
  {
    ActionEvolves(s, a);
    var t := Do(s, a);
    assert Evolves(s.heap[id], t.heap[id]);
    forall k | k in t.schedule
      ensures t.schedule[k] != id
    {
      if k in s.schedule {
        LeavesExactlyWhenPurged(s, a, k);
      } else {
        EntersExactlyWhenTransferred(s, a, k);
      }
    }
  }

  /** No interleaving ever brings such a record back: each record is scheduled once. */
  lemma {:induction false} GoneForever(s: State, actions: seq<Action>, id: Id)
    requires Inv(s) && Gone(s, id)
    ensures Gone(Run(s, actions), id)
    decreases |actions|
  {
    if actions != [] {
      DoKeepsInv(s, actions[0]);
      GoneOneStep(s, actions[0], id);
      GoneForever(Do(s, actions[0]), actions[1..], id);
    }
  }

  // ---------- An entry can be lost ----------

  /** Key k holds a casting record that no thread is going to finish. */
  ghost predicate Stuck(s: State, k: Key, id: Id) {
    && k in s.schedule && s.schedule[k] == id && id < |s.heap|
    && s.heap[id].action == Casting && s.heap[id].scheduled && s.heap[id].inserted == None
    && k !in Todo(s.lpc) && (s.lpc.Starting? || s.lpc.CastRunning? ==> s.lpc.key != k)
  }

  lemma SchedulerLeavesStuck(s: State, a: Action, k: Key, id: Id)
    requires Inv(s) && Stuck(s, k, id)
    requires a.Purge? || a.Parse? || a.Promote? || a.MergePair? || a.StartTransfer? || a.Transfer? || a.EndTick?
    ensures Stuck(Do(s, a), k, id)
  {
    if a.Parse? {
      AddRowsOnlyAdds(s.heap, map[], a.rows);
      assert DoParse(s, a.rows).heap[id] == DoParse(s, a.rows).heap[..|s.heap|][id];
    }
  }

  /** A write to the record of another key. */
  lemma WriteLeavesStuck(s: State, x: Key, r: Rec, l: LauncherPc, k: Key, id: Id)
    requires WellFormed(s) && Stuck(s, k, id) && x != k && x in s.schedule
    requires k !in Todo(l) && (l.Starting? || l.CastRunning? ==> l.key != k)
    ensures Stuck(Put(s.(lpc := l), s.schedule[x], r), k, id)
  {
    assert s.heap[s.schedule[x]].key == x && s.heap[id].key == k;
  }

  lemma SkipLeavesStuck(s: State, k: Key, id: Id)
    requires Inv(s) && Stuck(s, k, id) && s.lpc.Skipping?
    ensures Stuck(DoSkip(s), k, id)
  {
    var (skip, mark, queue) := (s.lpc.skip, s.lpc.mark, s.lpc.queue);
    if skip != [] {
      var l := Skipping(skip[1..], mark, queue);
      assert Todo(s.lpc)[0] == skip[0];
      assert Todo(l) == Todo(s.lpc)[1..];
      if skip[0] in s.schedule {
        WriteLeavesStuck(s, skip[0], s.heap[s.schedule[skip[0]]].(action := Done), l, k, id);
      }
    }
  }

  lemma MarkLeavesStuck(s: State, k: Key, id: Id)
    requires Inv(s) && Stuck(s, k, id) && s.lpc.Marking?
    ensures Stuck(DoMark(s), k, id)
  {
  }

  lemma TakeLeavesStuck(s: State, complete: bool, k: Key, id: Id)
    requires Inv(s) && Stuck(s, k, id) && s.lpc.Working? && s.lpc.queue != []
    ensures Stuck(DoTake(s, complete), k, id)
  {
    var x, rest := s.lpc.queue[0], s.lpc.queue[1..];
    if complete && x in s.schedule {
      WriteLeavesStuck(s, x, s.heap[s.schedule[x]].(action := Casting), Starting(x, s.schedule[x], rest), k, id);
    }
  }

  lemma ActLeavesStuck(s: State, k: Key, id: Id)
    requires Inv(s) && Stuck(s, k, id) && s.lpc.Starting?
    ensures Stuck(DoAct(s), k, id)
  {
    assert s.lpc.rec != id;
  }

  lemma FinishLeavesStuck(s: State, k: Key, id: Id)
    requires Inv(s) && Stuck(s, k, id) && s.lpc.CastRunning?
    ensures Stuck(DoFinish(s), k, id)
  {
    if s.lpc.key in s.schedule {
      WriteLeavesStuck(s, s.lpc.key, s.heap[s.schedule[s.lpc.key]].(action := Done), Working(s.lpc.queue), k, id);
    }
  }

  lemma LauncherLeavesStuck(s: State, a: Action, k: Key, id: Id)
    requires Inv(s) && Stuck(s, k, id)
    requires a.Pick? || a.Skip? || a.Mark? || a.Take? || a.Act? || a.Finish? || a.EndPass?
    ensures Stuck(Do(s, a), k, id)
  {
    match a
    case Skip => if s.lpc.Skipping? { SkipLeavesStuck(s, k, id); }
    case Mark => if s.lpc.Marking? { MarkLeavesStuck(s, k, id); }
    case Take(complete) => if s.lpc.Working? && s.lpc.queue != [] { TakeLeavesStuck(s, complete, k, id); }
    case Act => if s.lpc.Starting? { ActLeavesStuck(s, k, id); }
    case Finish => if s.lpc.CastRunning? { FinishLeavesStuck(s, k, id); }
    case _ =>
  }

  lemma StuckStaysOneStep(s: State, a: Action, k: Key, id: Id)
    requires Inv(s) && Stuck(s, k, id)
    ensures Stuck(Do(s, a), k, id)
  {
    if a.Purge? || a.Parse? || a.Promote? || a.MergePair? || a.StartTransfer? || a.Transfer? || a.EndTick? {
      SchedulerLeavesStuck(s, a, k, id);
    } else {
      LauncherLeavesStuck(s, a, k, id);
    }
  }

  /**
   * When `pending` is rebuilt without an entry between the two halves of do_cast, the failing
   * second half leaves the record 'casting' for good: it is never purged, and since the transfer
   * skips a key that is still in `schedule`, no later cast of the entry is ever scheduled.
   */
  lemma {:induction false} StuckForever(s: State, actions: seq<Action>, k: Key, id: Id)
    requires Inv(s) && Stuck(s, k, id)
    ensures Stuck(Run(s, actions), k, id)
    decreases |actions|
  {
    if actions != [] {
      DoKeepsInv(s, actions[0]);
      StuckStaysOneStep(s, actions[0], k, id);
      StuckForever(Do(s, actions[0]), actions[1..], k, id);
    }
  }

  lemma FailedActSticks(s: State)
    requires Inv(s) && s.lpc.Starting? && s.lpc.key !in s.pending
    requires s.lpc.key in s.schedule && s.schedule[s.lpc.key] == s.lpc.rec && s.heap[s.lpc.rec].inserted == None
    ensures Stuck(Do(s, Act), s.lpc.key, s.lpc.rec)
  {
  }

  /**
   * Whatever unmerged entry the launcher is about to take, one reload of the table without the
   * entry, before or between the halves of do_cast, loses it.
   */
  lemma ReloadLosesEntry(s: State, k: Key)
    requires Inv(s) && s.lpc.Working? && s.lpc.queue != [] && s.lpc.queue[0] == k && s.spc == Top
    requires k in s.schedule && s.heap[s.schedule[k]].inserted == None
    ensures Stuck(DoAct(DoTake(DoParse(s, []), true)), k, s.schedule[k])
  {
    ParseKeeps(s, []);
    var t := DoParse(s, []);
    TakeKeeps(t, true);
    FailedActSticks(DoTake(t, true));
  }

  /** A done record is not started any more, whatever happens. */
  lemma {:induction false} DoneNeverStarts(s: State, actions: seq<Action>, id: Id)
    requires Inv(s) && id < |s.heap| && s.heap[id].scheduled && s.heap[id].action == Done
    ensures var t := Run(s, actions);
            id < |t.heap| && t.heap[id].action == Done && t.heap[id].starts == s.heap[id].starts
    decreases |actions|
  {
    if actions != [] {
      var m := Do(s, actions[0]);
      DoKeepsInv(s, actions[0]);
      ActionEvolves(s, actions[0]);
      assert Evolves(s.heap[id], m.heap[id]);
      DoneOneStep(s, actions[0], id);
      DoneNeverStarts(m, actions[1..], id);
    }
  }

  lemma DoneOneStep(s: State, a: Action, id: Id)
    requires Inv(s) && id < |s.heap| && s.heap[id].scheduled && s.heap[id].action == Done
    ensures id < |Do(s, a).heap| && Do(s, a).heap[id].starts == s.heap[id].starts
  {
    ActionEvolves(s, a);
    assert Evolves(s.heap[id], Do(s, a).heap[id]);
    if a.Parse? && s.spc == Top {
      AddRowsOnlyAdds(s.heap, map[], a.rows);
      assert DoParse(s, a.rows).heap[id] == DoParse(s, a.rows).heap[..|s.heap|][id];
    } else if a.Act? && s.lpc.Starting? {
      assert s.lpc.rec != id;
    }
  }

  /** The scheduler's steps while a cast of entry k runs over its hour, and then the end of that cast. */
  ghost function Overrun(s: State, k: Key, isco: bool, now: int): (t: State)
    requires Inv(s)
    ensures Inv(t)
  {
    var parsed := Next(Next(s, Purge(now)), Parse([(k, isco)]));
    var transferred := Next(Next(Next(parsed, Promote({k})), StartTransfer), Transfer(k));
    Next(Next(transferred, EndTick), Finish)
  }

  lemma ParseOne(s: State, row: (Key, bool))
    ensures DoParse(s, [row]) == s.(heap := s.heap + [Fresh(row)], pending := map[row.0 := |s.heap|])
  {
    assert [row][1..] == [];
    assert AddRows(s.heap, map[], [row]) == (s.heap + [Fresh(row)], map[][row.0 := |s.heap|]);
    assert map[][row.0 := |s.heap|] == map[row.0 := |s.heap|];
  }

  /** The purge takes out the record that is overdue, and the rebuilt table has a new one for its entry. */
  lemma PurgeMakesRoom(s: State, k: Key, isco: bool, now: int)
    requires Inv(s) && s.spc == Top && k in s.schedule && Overdue(s.heap[s.schedule[k]], now)
    ensures var t := Next(Next(s, Purge(now)), Parse([(k, isco)]));
            && t.spc == Top && t.lpc == s.lpc && k !in t.schedule
            && t.heap == s.heap + [Fresh((k, isco))] && t.pending == map[k := |s.heap|]
  {
    ParseOne(Next(s, Purge(now)), (k, isco));
  }

  /** A fresh record of an entry that is not in `schedule` gets there when it is due. */
  lemma DueIsTransferred(s: State, k: Key, id: Id, isco: bool)
    requires Inv(s) && s.spc == Top && k !in s.schedule
    requires s.pending == map[k := id] && id < |s.heap| && s.heap[id] == Fresh((k, isco))
    ensures var t := Next(Next(Next(Next(s, Promote({k})), StartTransfer), Transfer(k)), EndTick);
            && t.lpc == s.lpc && k in t.schedule && t.schedule[k] == id
            && id < |t.heap| && t.heap[id].scheduled && t.heap[id].starts == 0
  {
    var p := Next(s, Promote({k}));
    assert p.ready == map[k := id];
    assert p.heap[id] == s.heap[id].(sched := Scheduled);
  }

  /** Finishing marks whatever record is under the key. */
  lemma FinishMarksTheKey(s: State)
    requires Inv(s) && s.lpc.CastRunning? && s.lpc.key in s.schedule
    ensures var t := Next(s, Finish);
            var id := s.schedule[s.lpc.key];
            && t.schedule == s.schedule && id < |t.heap| && t.heap[id] == s.heap[id].(action := Done)
  {
  }

  /**
   * A cast that is still running an hour after its merge loses the entry's next cast: the purge has
   * made room for it, and finishing marks whatever is under the key as done, so it is never started.
   */
  lemma OverrunDropsNextCast(s: State, isco: bool, now: int, actions: seq<Action>)
    requires Inv(s) && s.spc == Top && s.lpc.CastRunning?
    requires var k := s.lpc.key; k in s.schedule && s.schedule[k] == s.lpc.rec && Overdue(s.heap[s.lpc.rec], now)
    ensures var m := Overrun(s, s.lpc.key, isco, now);
            var next := |s.heap|;
            && s.lpc.key in m.schedule && m.schedule[s.lpc.key] == next
            && next < |Run(m, actions).heap|
            && Run(m, actions).heap[next].action == Done && Run(m, actions).heap[next].starts == 0
  {
    var k, next := s.lpc.key, |s.heap|;
    var parsed := Next(Next(s, Purge(now)), Parse([(k, isco)]));
    PurgeMakesRoom(s, k, isco, now);
    DueIsTransferred(parsed, k, next, isco);
    var ticked := Next(Next(Next(Next(parsed, Promote({k})), StartTransfer), Transfer(k)), EndTick);
    FinishMarksTheKey(ticked);
    DoneNeverStarts(Next(ticked, Finish), actions, next);
  }
}
