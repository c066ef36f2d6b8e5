/**
 * The two views of the scheduler agree: what the sequential code of a tick does to the records of
 * `ready` is a run of the scheduler thread's actions.
 */
module SchedAgrees {
  import opened Options
  import opened Scheduler
  import opened SchedThreads
  import opened SchedHistory
  import opened SchedRuns

  /** A record of the heap and a snapshot of the object that it stands for. */
  predicate Alike(r: Rec, q: Snapshot) {
    r.isco == q.isco && r.matched == q.matched && r.sched == q.status && r.action == q.action && r.inserted == q.insertTime
  }

  predicate Shows(s: State, k: Key, q: Snapshot) {
    k in s.ready && s.ready[k] < |s.heap| && Alike(s.heap[s.ready[k]], q)
  }

  /** The records of `ready`, listed by key, look like the snapshots. */
  ghost predicate Agree(keys: seq<Key>, w: seq<Snapshot>, s: State) {
    && Inv(s) && s.spc == Merging && |keys| == |w| && NoDup(keys)
    && forall j :: 0 <= j < |keys| ==> Shows(s, keys[j], w[j])
  }

  /** The body of the inner loop for a pair that it merges. */
  function Turn(w: seq<Snapshot>, o: nat, i: nat, now: int): seq<Snapshot>
    requires o < |w| && i < |w| && o != i
  {
    w[i := w[i].(matched := true, status := Unscheduled)]
     [o := w[o].(lisst := w[o].lisst || w[i].lisst, action := Queued, insertTime := Some(now))]
  }

  lemma TurnIsMergePair(keys: seq<Key>, w: seq<Snapshot>, s: State, o: nat, i: nat, now: int)
    requires Agree(keys, w, s) && o < |w| && i < |w| && !w[o].matched && Takes(w, o, i)
    ensures CanMerge(s, keys[o], keys[i]) && Agree(keys, Turn(w, o, i, now), Next(s, MergePair(keys[o], keys[i], now)))
  {
    assert Shows(s, keys[o], w[o]) && Shows(s, keys[i], w[i]);
    var t := Next(s, MergePair(keys[o], keys[i], now));
    forall j | 0 <= j < |keys|
      ensures Shows(t, keys[j], Turn(w, o, i, now)[j])
    {
      assert Shows(s, keys[j], w[j]) && Shows(s, keys[o], w[o]) && Shows(s, keys[i], w[i]);
      assert s.heap[s.ready[keys[j]]].key == keys[j];
      assert s.heap[s.ready[keys[o]]].key == keys[o] && s.heap[s.ready[keys[i]]].key == keys[i];
    }
  }

  lemma TurnIsInnerStep(w: seq<Snapshot>, o: nat, n: nat, now: int)
    requires o < |w| && n < |w|
    ensures AfterInner(w, o, n + 1, now) == if Takes(w, o, n) then Turn(AfterInner(w, o, n, now), o, n, now) else AfterInner(w, o, n, now)
  {
    InnerStep(w, o, n, now);
    var (a, b) := (AfterInner(w, o, n, now), AfterInner(w, o, n + 1, now));
    forall j | 0 <= j < |w|
      ensures b[j] == (if Takes(w, o, n) then Turn(a, o, n, now) else a)[j]
    {
    }
  }

  /** The actions of the inner loop of o up to record n. */
  function InnerActions(keys: seq<Key>, w: seq<Snapshot>, o: nat, n: nat, now: int): seq<Action>
    requires |keys| == |w| && o < |w| && n <= |w|
  {
    if n == 0 then []
    else InnerActions(keys, w, o, n - 1, now) + if Takes(w, o, n - 1) then [MergePair(keys[o], keys[n - 1], now)] else []
  }

  lemma InnerStart(w: seq<Snapshot>, o: nat, now: int)
    requires o < |w|
    ensures AfterInner(w, o, 0, now) == w
  {
  }

  /** A run that goes on. */
  lemma Append(keys: seq<Key>, w: seq<Snapshot>, s: State, front: seq<Action>, more: seq<Action>)
    requires Inv(s) && Agree(keys, w, Run(Run(s, front), more))
    ensures Agree(keys, w, Run(s, front + more))
  {
    RunConcat(s, front, more);
  }

  lemma MergeRuns(keys: seq<Key>, w: seq<Snapshot>, s: State, o: nat, i: nat, now: int)
    requires Agree(keys, w, s) && o < |w| && i < |w| && !w[o].matched && Takes(w, o, i)
    ensures Agree(keys, Turn(w, o, i, now), Run(s, [MergePair(keys[o], keys[i], now)]))
  {
    TurnIsMergePair(keys, w, s, o, i, now);
    RunOne(s, MergePair(keys[o], keys[i], now));
  }

  /** What the inner loop has left untouched for its next turn. */
  lemma NotYetTurned(w: seq<Snapshot>, o: nat, n: nat, now: int)
    requires o < |w| && n < |w| && Takes(w, o, n) && !w[o].matched
    ensures Takes(AfterInner(w, o, n, now), o, n) && !AfterInner(w, o, n, now)[o].matched
  {
  }

  lemma InnerTurn(keys: seq<Key>, w: seq<Snapshot>, o: nat, n: nat, now: int)
    requires |keys| == |w| && o < |w| && 0 < n <= |w|
    ensures var (a, front) := (AfterInner(w, o, n - 1, now), InnerActions(keys, w, o, n - 1, now));
            && AfterInner(w, o, n, now) == (if Takes(w, o, n - 1) then Turn(a, o, n - 1, now) else a)
            && InnerActions(keys, w, o, n, now)
               == (if Takes(w, o, n - 1) then front + [MergePair(keys[o], keys[n - 1], now)] else front)
  {
    TurnIsInnerStep(w, o, n - 1, now);
    assert InnerActions(keys, w, o, n - 1, now) + [] == InnerActions(keys, w, o, n - 1, now);
  }

  /** One more turn of the inner loop, after a run that has done the turns before. */
  lemma OneTurnMore(keys: seq<Key>, w: seq<Snapshot>, s: State, o: nat, n: nat, now: int)
    requires Inv(s) && |keys| == |w| && o < |w| && 0 < n <= |w| && !w[o].matched
    requires Agree(keys, AfterInner(w, o, n - 1, now), Run(s, InnerActions(keys, w, o, n - 1, now)))
    ensures Agree(keys, AfterInner(w, o, n, now), Run(s, InnerActions(keys, w, o, n, now)))
  {
    var (a, front) := (AfterInner(w, o, n - 1, now), InnerActions(keys, w, o, n - 1, now));
    InnerTurn(keys, w, o, n, now);
    if Takes(w, o, n - 1) {
      NotYetTurned(w, o, n - 1, now);
      MergeRuns(keys, a, Run(s, front), o, n - 1, now);
      Append(keys, Turn(a, o, n - 1, now), s, front, [MergePair(keys[o], keys[n - 1], now)]);
    }
  }

  lemma {:induction false} InnerLoopIsRun(keys: seq<Key>, w: seq<Snapshot>, s: State, o: nat, n: nat, now: int)
    requires Agree(keys, w, s) && o < |w| && n <= |w| && !w[o].matched
    ensures Agree(keys, AfterInner(w, o, n, now), Run(s, InnerActions(keys, w, o, n, now)))
    decreases n
  {
    if n == 0 {
      InnerStart(w, o, now);
      assert Run(s, InnerActions(keys, w, o, 0, now)) == s;
    } else {
      InnerLoopIsRun(keys, w, s, o, n - 1, now);
      OneTurnMore(keys, w, s, o, n, now);
    }
  }

  /** The actions of the nested loop up to record o. */
  ghost function OuterActions(keys: seq<Key>, was: seq<Snapshot>, o: nat, now: int): seq<Action>
    requires |keys| == |was| && o <= |was|
  {
    if o == 0 then []
    else
      var w := AfterOuter(was, o - 1, now);
      OuterActions(keys, was, o - 1, now) + if w[o - 1].matched then [] else InnerActions(keys, w, o - 1, |w|, now)
  }

  lemma OuterTurn(keys: seq<Key>, was: seq<Snapshot>, o: nat, now: int)
    requires |keys| == |was| && 0 < o <= |was|
    ensures var (w, front) := (AfterOuter(was, o - 1, now), OuterActions(keys, was, o - 1, now));
            && AfterOuter(was, o, now) == (if w[o - 1].matched then w else AfterInner(w, o - 1, |w|, now))
            && OuterActions(keys, was, o, now)
               == (if w[o - 1].matched then front else front + InnerActions(keys, w, o - 1, |w|, now))
  {
  }

  /** One more turn of the outer loop, after a run that has done the turns before. */
  lemma OneRecordMore(keys: seq<Key>, was: seq<Snapshot>, s: State, o: nat, now: int)
    requires Inv(s) && |keys| == |was| && 0 < o <= |was|
    requires Agree(keys, AfterOuter(was, o - 1, now), Run(s, OuterActions(keys, was, o - 1, now)))
    ensures Agree(keys, AfterOuter(was, o, now), Run(s, OuterActions(keys, was, o, now)))
  {
    var (w, front) := (AfterOuter(was, o - 1, now), OuterActions(keys, was, o - 1, now));
    OuterTurn(keys, was, o, now);
    if !w[o - 1].matched {
      InnerLoopIsRun(keys, w, Run(s, front), o - 1, |w|, now);
      Append(keys, AfterInner(w, o - 1, |w|, now), s, front, InnerActions(keys, w, o - 1, |w|, now));
    }
  }

  lemma {:induction false} OuterLoopIsRun(keys: seq<Key>, was: seq<Snapshot>, s: State, o: nat, now: int)
    requires Agree(keys, was, s) && o <= |was|
    ensures Agree(keys, AfterOuter(was, o, now), Run(s, OuterActions(keys, was, o, now)))
    decreases o
  {
    if o > 0 {
      OuterLoopIsRun(keys, was, s, o - 1, now);
      OneRecordMore(keys, was, s, o, now);
    } else {
      assert Run(s, OuterActions(keys, was, 0, now)) == s;
    }
  }

  /** The nested duplicate loop of a tick is a run of merge actions, and leaves the records that it leaves. */
  lemma MergeIsRun(keys: seq<Key>, was: seq<Snapshot>, s: State, now: int)
    requires Agree(keys, was, s)
    ensures var t := Run(s, OuterActions(keys, was, |was|, now));
            forall j: nat :: j < |keys| ==> Shows(t, keys[j], Merged(was, j, now))
  {
    OuterLoopIsRun(keys, was, s, |was|, now);
    OuterLoopMerges(was, now);
    var t := Run(s, OuterActions(keys, was, |was|, now));
    forall j: nat | j < |keys|
      ensures Shows(t, keys[j], Merged(was, j, now))
    {
      assert AfterOuter(was, |was|, now)[j] == Merged(was, j, now);
    }
  }

  // ---------- The transfer ----------

  function TransferActions(keys: seq<Key>): seq<Action> {
    if keys == [] then [] else TransferActions(keys[..|keys| - 1]) + [Transfer(keys[|keys| - 1])]
  }

  /** What Tables.Transfer promises of the schedule, said of the two states. */
  ghost predicate TransferredTo(keys: seq<Key>, s: State, t: State)
    requires WellFormed(s) && WellFormed(t)
  {
    && t.ready == s.ready && t.spc == s.spc
    && (forall k :: k in s.schedule ==> k in t.schedule && t.schedule[k] == s.schedule[k])
    && (forall k :: k in t.schedule && k !in s.schedule ==>
          k in keys && k in s.ready && !s.heap[s.ready[k]].matched && t.schedule[k] == s.ready[k])
    && (forall k :: k in keys && k in s.ready && !s.heap[s.ready[k]].matched ==> k in t.schedule)
    && (forall k :: k in s.ready ==> s.ready[k] < |t.heap| && t.heap[s.ready[k]].matched == s.heap[s.ready[k]].matched)
  }

  lemma KeyEnters(keys: seq<Key>, s: State, m: State, k: Key)
    requires Inv(s) && Inv(m) && m.spc == Transferring && TransferredTo(keys, s, m)
    requires k in m.ready && !m.heap[m.ready[k]].matched && k !in m.schedule
    ensures TransferredTo(keys + [k], s, Next(m, Transfer(k)))
  {
    var t := Next(m, Transfer(k));
    assert t.schedule == m.schedule[k := m.ready[k]];
    assert forall x :: x in s.ready ==> t.heap[s.ready[x]].matched == m.heap[s.ready[x]].matched;
  }

  lemma OneKeyMore(keys: seq<Key>, s: State, m: State, k: Key)
    requires Inv(s) && Inv(m) && m.spc == Transferring && TransferredTo(keys, s, m)
    ensures TransferredTo(keys + [k], s, Next(m, Transfer(k)))
  {
    if k in m.ready && !m.heap[m.ready[k]].matched && k !in m.schedule {
      KeyEnters(keys, s, m, k);
    } else {
      KeyStays(keys, s, m, k);
      assert Next(m, Transfer(k)) == m;
    }
  }

  lemma KeyStays(keys: seq<Key>, s: State, m: State, k: Key)
    requires Inv(s) && Inv(m) && TransferredTo(keys, s, m)
    requires !(k in m.ready && !m.heap[m.ready[k]].matched && k !in m.schedule)
    ensures TransferredTo(keys + [k], s, m)
  {
  }

  lemma {:induction false} TransferIsRun(keys: seq<Key>, s: State)
    requires Inv(s) && s.spc == Transferring
    ensures TransferredTo(keys, s, Run(s, TransferActions(keys)))
    decreases |keys|
  {
    if keys != [] {
      var front := keys[..|keys| - 1];
      var k := keys[|keys| - 1];
      TransferIsRun(front, s);
      RunConcat(s, TransferActions(front), [Transfer(k)]);
      var m := Run(s, TransferActions(front));
      RunOne(m, Transfer(k));
      OneKeyMore(front, s, m, k);
      assert keys == front + [k];
    }
  }
}
