/**
 * The sequential work of one scheduler tick (_AVPSchedule): rebuilding `pending` from the
 * schedule table, promoting what is due to `ready`, merging duplicates in place and
 * transferring the rest to `schedule`. The three dictionaries alias the same record objects.
 */
module Scheduler {
  import opened Calendar
  import opened CronSearch
  import opened Options

  datatype SchedStatus = Unscheduled | Scheduled | Processed | Acting
  datatype ActionStatus = NoAction | Queued | Casting | Done

  /** One row of the schedule table; entryNo stands for the dictionary key made from it. */
  datatype Row = Row(entryNo: int, spec: CronSpec, lisstCast: bool, iscoCast: bool)

  /** The dictionary built for one pending cast. */
  class CastRecord {
    const iscoCast: bool
    const schedList: Instant
    var lisstCast: bool
    var schedStatus: SchedStatus
    var matched: bool
    var actionStatus: ActionStatus
    var insertTime: Option<int>

    constructor (row: Row, schedList: Instant)
      ensures this.iscoCast == row.iscoCast && this.schedList == schedList && lisstCast == row.lisstCast
      ensures schedStatus == Unscheduled && !matched && actionStatus == NoAction && insertTime == None
    {
      iscoCast, this.schedList, lisstCast := row.iscoCast, schedList, row.lisstCast;
      schedStatus, matched, actionStatus, insertTime := Unscheduled, false, NoAction, None;
    }
  }

  /** The fields of a record that the merge reads and writes, at one moment. */
  datatype Snapshot = Snapshot(isco: bool, schedList: Instant, lisst: bool, matched: bool, status: SchedStatus,
                               action: ActionStatus, insertTime: Option<int>)

  function Look(r: CastRecord): Snapshot
    reads r
  {
    Snapshot(r.iscoCast, r.schedList, r.lisstCast, r.matched, r.schedStatus, r.actionStatus, r.insertTime)
  }

  /** Two casts that one cast can serve: same minute, neither of them taking an ISCO sample. */
  predicate Same(a: Snapshot, b: Snapshot) {
    a.schedList == b.schedList && !a.isco && !b.isco
  }

  /** k is unmatched and comes before its duplicate j. */
  predicate Absorbs(was: seq<Snapshot>, k: nat, j: nat)
    requires k < |was| && j < |was|
  {
    k < j && !was[k].matched && Same(was[k], was[j])
  }

  ghost predicate Leads(was: seq<Snapshot>, j: nat)
    requires j < |was|
  {
    !was[j].matched && forall k: nat :: k < |was| ==> !Absorbs(was, k, j)
  }

  /** Some duplicate that j absorbs is a LISST cast. */
  ghost predicate GainsLisst(was: seq<Snapshot>, j: nat)
    requires j < |was|
  {
    exists i: nat :: i < |was| && !was[i].matched && Absorbs(was, j, i) && was[i].lisst
  }

  ghost predicate AbsorbsSome(was: seq<Snapshot>, j: nat)
    requires j < |was|
  {
    exists i: nat :: i < |was| && !was[i].matched && Absorbs(was, j, i)
  }

  /** What the merge makes of record j. */
  ghost function Merged(was: seq<Snapshot>, j: nat, now: int): Snapshot
    requires j < |was|
  {
    var r := was[j];
    if r.matched then r
    else if !Leads(was, j) then r.(matched := true, status := Unscheduled)
    else if AbsorbsSome(was, j) then
      r.(lisst := r.lisst || GainsLisst(was, j), action := Queued, insertTime := Some(now))
    else r
  }

  function Looks(recs: seq<CastRecord>): (s: seq<Snapshot>)
    reads recs
    ensures |s| == |recs| && forall j :: 0 <= j < |recs| ==> s[j] == Look(recs[j])
  {
    seq(|recs|, j requires 0 <= j < |recs| reads recs => Look(recs[j]))
  }

  ghost predicate Distinct(recs: seq<CastRecord>) {
    forall i, j :: 0 <= i < j < |recs| ==> recs[i] != recs[j]
  }

  // ---------- The nested loop, one outer iteration at a time ----------

  predicate Takes(w: seq<Snapshot>, o: nat, i: nat)
    requires o < |w| && i < |w|
  {
    o != i && Same(w[o], w[i]) && !w[i].matched
  }

  ghost predicate TookSome(w: seq<Snapshot>, o: nat, n: nat)
    requires o < |w| && n <= |w|
  {
    exists i: nat :: i < n && Takes(w, o, i)
  }

  ghost predicate TookLisst(w: seq<Snapshot>, o: nat, n: nat)
    requires o < |w| && n <= |w|
  {
    exists i: nat :: i < n && Takes(w, o, i) && w[i].lisst
  }

  /** Record j after the inner loop of o has looked at the first n records. */
  ghost function InnerAt(w: seq<Snapshot>, o: nat, n: nat, now: int, j: nat): Snapshot
    requires o < |w| && n <= |w| && j < |w|
  {
    if j == o then
      if TookSome(w, o, n) then w[o].(lisst := w[o].lisst || TookLisst(w, o, n), action := Queued, insertTime := Some(now))
      else w[o]
    else if j < n && Takes(w, o, j) then w[j].(matched := true, status := Unscheduled)
    else w[j]
  }

  ghost function AfterInner(w: seq<Snapshot>, o: nat, n: nat, now: int): (r: seq<Snapshot>)
    requires o < |w| && n <= |w|
    ensures |r| == |w|
  {
    seq(|w|, j requires 0 <= j < |w| => InnerAt(w, o, n, now, j))
  }

  lemma InnerStep(w: seq<Snapshot>, o: nat, n: nat, now: int)
    requires o < |w| && n < |w|
    ensures TookSome(w, o, n + 1) <==> TookSome(w, o, n) || Takes(w, o, n)
    ensures TookLisst(w, o, n + 1) <==> TookLisst(w, o, n) || (Takes(w, o, n) && w[n].lisst)
    ensures forall j: nat :: j < |w| && j != o && j != n ==> InnerAt(w, o, n + 1, now, j) == InnerAt(w, o, n, now, j)
  {
  }

  ghost function AfterOuter(was: seq<Snapshot>, o: nat, now: int): (r: seq<Snapshot>)
    requires o <= |was|
    ensures |r| == |was|
  {
    if o == 0 then was
    else
      var w := AfterOuter(was, o - 1, now);
      if w[o - 1].matched then w else AfterInner(w, o - 1, |w|, now)
  }

  /** The nested duplicate loop over `ready`. */
  method MergeDuplicates(recs: seq<CastRecord>, now: int)
    requires Distinct(recs)
    modifies recs
    ensures forall j: nat :: j < |recs| ==> Look(recs[j]) == Merged(old(Looks(recs)), j, now)
  {
    ghost var was := Looks(recs);
    for o := 0 to |recs|
      invariant Looks(recs) == AfterOuter(was, o, now)
    {
      if !recs[o].matched {
        AbsorbDuplicates(recs, o, now);
      }
    }
    OuterLoopMerges(was, now);
  }

  /** The inner loop: o takes over every unmatched duplicate of its own. */
  method AbsorbDuplicates(recs: seq<CastRecord>, o: nat, now: int)
    requires Distinct(recs) && o < |recs| && !recs[o].matched
    modifies recs
    ensures Looks(recs) == AfterInner(old(Looks(recs)), o, |recs|, now)
  {
    ghost var w := Looks(recs);
    for i := 0 to |recs|
      invariant forall j: nat :: j < |recs| ==> Look(recs[j]) == InnerAt(w, o, i, now, j)
    {
      InnerStep(w, o, i, now);
      if o != i {
        if recs[o].schedList == recs[i].schedList && !recs[i].iscoCast && !recs[o].iscoCast && !recs[i].matched {
          recs[i].matched := true;
          recs[i].schedStatus := Unscheduled;
          recs[o].lisstCast := recs[o].lisstCast || recs[i].lisstCast;
          recs[o].actionStatus := Queued;
          recs[o].insertTime := Some(now);
        }
      }
    }
  }

  // ---------- The nested loop merges each class into its first record ----------

  // Record j once the leaders before o have absorbed their duplicates.
  ghost predicate PartlyMerged(was: seq<Snapshot>, o: nat, j: nat, now: int, s: Snapshot)
    requires o <= |was| && j < |was|
  {
    if was[j].matched then s == was[j]
    else if exists k: nat :: k < o && Absorbs(was, k, j) then s == was[j].(matched := true, status := Unscheduled)
    else if j < o then s == Merged(was, j, now)
    else s == was[j]
  }

  lemma {:induction false} OuterLoopProgress(was: seq<Snapshot>, o: nat, now: int)
    requires o <= |was|
    ensures forall j: nat :: j < |was| ==> PartlyMerged(was, o, j, now, AfterOuter(was, o, now)[j])
    decreases o
  {
    if o > 0 {
      OuterLoopProgress(was, o - 1, now);
      forall j: nat | j < |was| ensures PartlyMerged(was, o, j, now, AfterOuter(was, o, now)[j]) {
        OuterLoopStep(was, o - 1, now, AfterOuter(was, o - 1, now), j);
      }
    }
  }

  lemma OuterLoopStep(was: seq<Snapshot>, o: nat, now: int, w: seq<Snapshot>, j: nat)
    requires o < |was| == |w| && j < |was|
    requires forall i: nat :: i < |was| ==> PartlyMerged(was, o, i, now, w[i])
    ensures PartlyMerged(was, o + 1, j, now, if w[o].matched then w[j] else AfterInner(w, o, |w|, now)[j])
  {
    assert PartlyMerged(was, o, o, now, w[o]);
    assert PartlyMerged(was, o, j, now, w[j]);
    if w[o].matched {
      if !was[o].matched && Absorbs(was, o, j) {
        var k: nat :| k < o && Absorbs(was, k, o);
        assert Absorbs(was, k, j);
      }
    } else {
      LeaderTakesItsClass(was, o, now, w);
    }
  }

  lemma LeaderTakesItsClass(was: seq<Snapshot>, o: nat, now: int, w: seq<Snapshot>)
    requires o < |was| == |w|
    requires forall i: nat :: i < |was| ==> PartlyMerged(was, o, i, now, w[i])
    requires !w[o].matched
    ensures Leads(was, o) && w[o] == was[o]
    ensures forall i: nat :: i < |w| ==> (Takes(w, o, i) <==> !was[i].matched && Absorbs(was, o, i))
    ensures forall i: nat :: i < |w| && Takes(w, o, i) ==> w[i] == was[i]
  {
    assert PartlyMerged(was, o, o, now, w[o]);
    forall i: nat | i < |w| ensures Takes(w, o, i) <==> !was[i].matched && Absorbs(was, o, i) {
      assert PartlyMerged(was, o, i, now, w[i]);
      if i < o && !was[i].matched && Same(was[i], was[o]) {
        assert Absorbs(was, i, o);
      }
      if !was[i].matched && Absorbs(was, o, i) && w[i].matched {
        var k: nat :| k < o && Absorbs(was, k, i);
        assert Absorbs(was, k, o);
      }
    }
  }

  lemma OuterLoopMerges(was: seq<Snapshot>, now: int)
    ensures forall j: nat :: j < |was| ==> AfterOuter(was, |was|, now)[j] == Merged(was, j, now)
  {
    OuterLoopProgress(was, |was|, now);
    forall j: nat | j < |was| ensures AfterOuter(was, |was|, now)[j] == Merged(was, j, now) {
      assert PartlyMerged(was, |was|, j, now, AfterOuter(was, |was|, now)[j]);
    }
  }

  // ---------- What the merge promises ----------

  ghost predicate AllUnmatched(was: seq<Snapshot>) {
    forall j :: 0 <= j < |was| ==> !was[j].matched
  }

  lemma {:induction false} FirstOfClass(was: seq<Snapshot>, j: nat) returns (k: nat)
    requires j < |was| && !was[j].matched
    ensures k <= j && Leads(was, k) && (k == j || Same(was[k], was[j]))
    decreases j
  {
    if Leads(was, j) {
      k := j;
    } else {
      var i: nat :| i < |was| && Absorbs(was, i, j);
      k := FirstOfClass(was, i);
    }
  }

  /**
   * Merging fresh records leaves exactly one unmatched record per class of equal non-ISCO
   * entries, the first one, with the OR of the class's LISST flags, and every ISCO record.
   */
  lemma MergeKeepsOnePerClass(was: seq<Snapshot>, now: int, j: nat)
    requires AllUnmatched(was) && j < |was|
    ensures was[j].isco ==> Merged(was, j, now) == was[j]
    ensures !was[j].isco ==>
      exists k: nat :: k <= j && Same(was[k], was[j]) && !Merged(was, k, now).matched
        && (forall i: nat :: i < |was| && i != k && Same(was[i], was[j]) ==> k < i && Merged(was, i, now).matched)
        && (Merged(was, k, now).lisst <==> exists i: nat :: i < |was| && Same(was[i], was[j]) && was[i].lisst)
  {
    if !was[j].isco {
      var k := FirstOfClass(was, j);
      forall i: nat | i < |was| && i != k && Same(was[i], was[j])
        ensures k < i && Absorbs(was, k, i)
      {
        if i < k {
          assert Absorbs(was, i, k);
        }
      }
      assert GainsLisst(was, k) <==> exists i: nat :: i < |was| && i != k && Same(was[i], was[j]) && was[i].lisst;
      assert Same(was[k], was[j]) && !Merged(was, k, now).matched;
    }
  }

  /** Records i and j are non-ISCO casts for one minute. */
  ghost predicate Duplicates(was: seq<Snapshot>, i: nat, j: nat)
    requires j < |was|
  {
    i < |was| && i != j && was[i].schedList == was[j].schedList && !was[i].isco && !was[j].isco
  }

  /** The marks: a duplicate of an earlier record is matched and not scheduled, the first of several is queued and stamped. */
  lemma MergeMarks(was: seq<Snapshot>, now: int, j: nat)
    requires AllUnmatched(was) && j < |was|
    ensures var m := Merged(was, j, now);
            && m.isco == was[j].isco && m.schedList == was[j].schedList
            && if exists i: nat :: i < j && Duplicates(was, i, j) then m == was[j].(matched := true, status := Unscheduled)
               else if exists i: nat :: i > j && Duplicates(was, i, j) then
                 !m.matched && m.status == was[j].status && m.action == Queued && m.insertTime == Some(now)
               else m == was[j]
  {
    if i: nat :| i < j && Duplicates(was, i, j) {
      assert Absorbs(was, i, j);
    } else {
      forall k: nat | k < |was| ensures !Absorbs(was, k, j) {
        assert !(k < j && Duplicates(was, k, j));
      }
      assert Leads(was, j);
      if i: nat :| i > j && Duplicates(was, i, j) {
        assert Absorbs(was, j, i);
      } else if AbsorbsSome(was, j) {
        var i: nat :| i < |was| && !was[i].matched && Absorbs(was, j, i);
        assert Duplicates(was, i, j);
      }
    }
  }

  // ---------- The tables ----------

  ghost predicate Succeeds(row: Row, start: Instant) {
    Matches(row.spec, After(row.spec, start, MAX_ITERS - 1))
  }

  /** Row i is the last of the first n rows for its entry whose search succeeds. */
  ghost predicate LastOf(rows: seq<Row>, starts: seq<Instant>, n: nat, i: nat, e: int)
    requires i < n <= |rows| == |starts|
  {
    && rows[i].entryNo == e && Succeeds(rows[i], starts[i])
    && forall k :: i < k < n && rows[k].entryNo == e ==> !Succeeds(rows[k], starts[k])
  }

  /** Which of the first n rows each pending entry comes from. */
  ghost function Sources(rows: seq<Row>, starts: seq<Instant>, n: nat): (m: map<int, nat>)
    requires n <= |rows| == |starts|
    ensures forall e :: e in m ==> m[e] < n
  {
    if n == 0 then map[]
    else
      var m := Sources(rows, starts, n - 1);
      if Succeeds(rows[n - 1], starts[n - 1]) then m[rows[n - 1].entryNo := n - 1] else m
  }

  /** An entry is pending exactly when one of its rows has a next time, and its record comes from the last such row. */
  lemma {:induction false} SourcesAreLast(rows: seq<Row>, starts: seq<Instant>, n: nat, e: int)
    requires n <= |rows| == |starts|
    ensures e in Sources(rows, starts, n) <==> exists i: nat :: i < n && LastOf(rows, starts, n, i, e)
    ensures forall i: nat :: i < n && LastOf(rows, starts, n, i, e) ==> Sources(rows, starts, n)[e] == i
    decreases n
  {
    if n > 0 {
      SourcesAreLast(rows, starts, n - 1, e);
      if Succeeds(rows[n - 1], starts[n - 1]) && rows[n - 1].entryNo == e {
        assert LastOf(rows, starts, n, n - 1, e);
      } else {
        forall i: nat | i < n && LastOf(rows, starts, n, i, e) ensures i < n - 1 && LastOf(rows, starts, n - 1, i, e) {
        }
        if e in Sources(rows, starts, n - 1) {
          var i: nat :| i < n - 1 && LastOf(rows, starts, n - 1, i, e);
          assert LastOf(rows, starts, n, i, e);
        }
      }
    }
  }

  /** A record as parse_db builds it. */
  predicate IsBlank(r: CastRecord)
    reads r
  {
    r.schedStatus == Unscheduled && !r.matched && r.actionStatus == NoAction && r.insertTime == None
  }

  ghost predicate BuiltFrom(row: Row, start: Instant, r: CastRecord)
    reads r
  {
    r.iscoCast == row.iscoCast && r.lisstCast == row.lisstCast && IsFirstMatch(row.spec, start, r.schedList)
  }

  /** The record of entry e once the first n rows are read. */
  ghost predicate BuiltAt(rows: seq<Row>, starts: seq<Instant>, n: nat, e: int, r: CastRecord)
    requires n <= |rows| == |starts|
    reads r
  {
    e in Sources(rows, starts, n) && IsBlank(r) && BuiltFrom(rows[Sources(rows, starts, n)[e]], starts[Sources(rows, starts, n)[e]], r)
  }

  method BuildRecord(row: Row, start: Instant) returns (r: CastRecord?)
    requires CalendarValid(start)
    ensures r != null <==> Succeeds(row, start)
    ensures r != null ==> fresh(r) && IsBlank(r) && BuiltFrom(row, start, r)
  {
    var success, nextTime := NextOccurrence(start, row.spec);
    if success {
      r := new CastRecord(row, nextTime.Value());
    } else {
      r := null;
    }
  }

  method BuildPending(rows: seq<Row>, starts: seq<Instant>) returns (pending: map<int, CastRecord>)
    requires |rows| == |starts| && forall i :: 0 <= i < |starts| ==> CalendarValid(starts[i])
    ensures pending.Keys == Sources(rows, starts, |rows|).Keys
    ensures forall e :: e in pending ==> fresh(pending[e]) && BuiltAt(rows, starts, |rows|, e, pending[e])
    ensures forall a, b :: a in pending && b in pending && a != b ==> pending[a] != pending[b]
  {
    pending := map[];
    for n := 0 to |rows|
      invariant pending.Keys == Sources(rows, starts, n).Keys
      invariant forall e :: e in pending ==> fresh(pending[e]) && BuiltAt(rows, starts, n, e, pending[e])
      invariant forall a, b :: a in pending && b in pending && a != b ==> pending[a] != pending[b]
    {
      var r := BuildRecord(rows[n], starts[n]);
      if r != null {
        pending := pending[rows[n].entryNo := r];
      }
    }
  }

  /** A cast that is due at compTime, or promoted for a minute that is not over. */
  predicate ToCome(s: Snapshot, compTime: Instant, now: Instant) {
    s.schedList == compTime || (s.status == Scheduled && !Before(s.schedList, now))
  }

  class Tables {
    var pending: map<int, CastRecord>
    var readyKeys: seq<int>
    var readyRecs: seq<CastRecord>
    var schedule: map<int, CastRecord>

    constructor ()
      ensures Valid() && pending == map[] && schedule == map[] && readyKeys == []
    {
      pending, readyKeys, readyRecs, schedule := map[], [], [], map[];
    }

    /** No record that can still be promoted is already in `schedule`, although the tables share records. */
    ghost predicate Valid()
      reads this, pending.Values
    {
      && (forall a, b :: a in pending && b in pending && a != b ==> pending[a] != pending[b])
      && (forall e, k :: e in pending && k in schedule && schedule[k] == pending[e] ==> pending[e].schedStatus != Unscheduled)
    }

    /** Rebuild `pending`: one fresh record per entry whose search succeeds. */
    method ParseDb(rows: seq<Row>, starts: seq<Instant>)
      requires |rows| == |starts| && forall i :: 0 <= i < |starts| ==> CalendarValid(starts[i])
      modifies this`pending
      ensures Valid()
      ensures pending.Keys == Sources(rows, starts, |rows|).Keys
      ensures forall e :: e in pending ==> fresh(pending[e]) && BuiltAt(rows, starts, |rows|, e, pending[e])
    {
      pending := BuildPending(rows, starts);
    }

    /** Copy what is due at compTime and not yet scheduled from `pending` to `ready`. */
    method Promote(order: seq<int>, compTime: Instant, now: Instant) returns (reparse: bool)
      requires Valid() && Enumerates(order, pending) && readyKeys == []
      modifies this`readyKeys, this`readyRecs, pending.Values
      ensures Valid() && pending == old(pending) && schedule == old(schedule)
      ensures |readyKeys| == |readyRecs| && NoDuplicates(readyKeys)
      ensures forall e :: e in readyKeys <==> e in pending && pending[e].schedList == compTime && old(pending[e].schedStatus) == Unscheduled
      ensures forall i :: 0 <= i < |readyKeys| ==> readyKeys[i] in pending && readyRecs[i] == pending[readyKeys[i]]
      ensures forall e :: e in pending ==>
        Look(pending[e]) == if e in readyKeys then old(Look(pending[e])).(status := Scheduled) else old(Look(pending[e]))
      ensures reparse <==> forall i :: 0 <= i < |order| ==> !ToCome(old(Listed(order))[i], compTime, now)
      ensures reparse ==> readyKeys == []
    {
      readyKeys, readyRecs, reparse := MarkDue(order, compTime, now);
    }

    /** Marks what is due as scheduled and lists it. */
    method MarkDue(order: seq<int>, compTime: Instant, now: Instant) returns (keys: seq<int>, recs: seq<CastRecord>, reparse: bool)
      requires Valid() && Enumerates(order, pending)
      modifies pending.Values
      ensures |keys| == |recs| && NoDuplicates(keys)
      ensures forall e :: e in keys <==> old(Due(e, compTime))
      ensures forall i :: 0 <= i < |keys| ==> keys[i] in pending && recs[i] == pending[keys[i]]
      ensures forall e :: e in pending ==>
        Look(pending[e]) == if e in keys then old(Look(pending[e])).(status := Scheduled) else old(Look(pending[e]))
      ensures reparse <==> forall i :: 0 <= i < |order| ==> !ToCome(old(Listed(order))[i], compTime, now)
      ensures reparse ==> keys == []
    {
      keys, recs, reparse := [], [], true;
      ghost var was := Listed(order);
      for n := 0 to |order|
        invariant |keys| == |recs| && NoDuplicates(keys)
        invariant forall e :: e in keys <==> e in order[..n] && old(Due(e, compTime))
        invariant forall i :: 0 <= i < |keys| ==> keys[i] in pending && recs[i] == pending[keys[i]]
        invariant forall e :: e in pending ==>
          Look(pending[e]) == if e in keys then old(Look(pending[e])).(status := Scheduled) else old(Look(pending[e]))
        invariant reparse ==> keys == []
        invariant reparse <==> forall i :: 0 <= i < n ==> !ToCome(was[i], compTime, now)
      {
        var e := order[n];
        var r := pending[e];
        assert e !in order[..n];
        assert Look(r) == was[n];
        if compTime == r.schedList {
          reparse := false;
          if r.schedStatus == Unscheduled {
            keys, recs := keys + [e], recs + [r];
            r.schedStatus := Scheduled;
          }
        } else if r.schedStatus == Scheduled {
          if !Before(r.schedList, now) {
            reparse := false;
          }
        }
      }
      assert order[..|order|] == order;
    }

    /** The pending records in the order in which they are looked at. */
    ghost function Listed(order: seq<int>): (s: seq<Snapshot>)
      requires Enumerates(order, pending)
      reads this, pending.Values
      ensures |s| == |order| && forall i :: 0 <= i < |order| ==> order[i] in pending && s[i] == Look(pending[order[i]])
    {
      assert forall i :: 0 <= i < |order| ==> order[i] in order;
      seq(|order|, i requires 0 <= i < |order| && order[i] in pending reads this, pending.Values => Look(pending[order[i]]))
    }

    /** The record e is due at compTime and has not been promoted yet. */
    predicate Due(e: int, compTime: Instant)
      reads this, pending.Values
    {
      e in pending && pending[e].schedList == compTime && pending[e].schedStatus == Unscheduled
    }

    /** `ready` as Promote leaves it: distinct entries of `pending` for one minute, none of them in `schedule`. */
    ghost predicate ReadyFor(compTime: Instant)
      reads this, pending.Values
    {
      && |readyKeys| == |readyRecs| && NoDuplicates(readyKeys)
      && (forall i :: 0 <= i < |readyKeys| ==>
            readyKeys[i] in pending && readyRecs[i] == pending[readyKeys[i]]
            && readyRecs[i].schedStatus == Scheduled && readyRecs[i].schedList == compTime)
      && (forall i, k :: 0 <= i < |readyRecs| && k in schedule ==> schedule[k] != readyRecs[i])
    }

    /** `ready` after the merge: what is unmatched is still scheduled, and one non-ISCO record of it at most. */
    ghost predicate MergedFor(compTime: Instant)
      reads this, pending.Values
    {
      && |readyKeys| == |readyRecs| && NoDuplicates(readyKeys)
      && (forall i :: 0 <= i < |readyKeys| ==>
            readyKeys[i] in pending && readyRecs[i] == pending[readyKeys[i]] && readyRecs[i].schedList == compTime
            && (!readyRecs[i].matched ==> readyRecs[i].schedStatus == Scheduled))
      && (forall i, j :: 0 <= i < j < |readyRecs| && !readyRecs[i].matched && !readyRecs[j].matched ==>
            readyRecs[i].iscoCast || readyRecs[j].iscoCast)
    }

    method MergeReady(compTime: Instant, clock: int)
      requires Valid() && ReadyFor(compTime)
      modifies readyRecs
      ensures Valid() && MergedFor(compTime)
      ensures AllStoodFor(old(Looks(readyRecs)), Looks(readyRecs))
    {
      ghost var was := Looks(readyRecs);
      MergeOfMinute(readyRecs, compTime, clock);
      ghost var now := Looks(readyRecs);
      forall i | 0 <= i < |readyRecs|
        ensures readyRecs[i].schedList == compTime && (!readyRecs[i].matched ==> readyRecs[i].schedStatus == Scheduled)
      {
        assert KeptAt(was, now, i);
      }
      assert OneLeft(now);
    }

    /** Transfer what the merge left, which keeps the tables apart. */
    method TransferMerged(compTime: Instant)
      requires Valid() && MergedFor(compTime)
      modifies this`schedule, readyRecs
      ensures Valid()
      ensures forall k :: k in old(schedule) ==> k in schedule && schedule[k] == old(schedule)[k]
      ensures forall k :: k in schedule && k !in old(schedule) ==> k in readyKeys && schedule[k] == pending[k] && pending[k].actionStatus == Queued
      ensures OneAdded(old(schedule))
      ensures forall i :: 0 <= i < |readyRecs| ==> Look(readyRecs[i]) == old(Look(readyRecs[i])).(action := readyRecs[i].actionStatus)
      ensures forall i :: 0 <= i < |readyRecs| && !readyRecs[i].matched ==> readyKeys[i] in schedule
    {
      Transfer();
      forall e | e in pending ensures pending[e].schedStatus == old(pending[e].schedStatus) {
        if pending[e] in readyRecs {
          var i :| 0 <= i < |readyRecs| && readyRecs[i] == pending[e];
          assert Look(readyRecs[i]).status == old(Look(readyRecs[i])).status;
        }
      }
      forall e, k | e in pending && k in schedule && schedule[k] == pending[e] ensures pending[e].schedStatus != Unscheduled {
        if k in old(schedule) {
          assert old(Valid());
        } else {
          var i :| 0 <= i < |readyKeys| && readyKeys[i] == k;
        }
      }
    }

    /** Merge and transfer what was promoted for compTime. */
    method HandOver(compTime: Instant, clock: int)
      requires Valid() && ReadyFor(compTime)
      modifies this`schedule, readyRecs
      ensures Valid()
      ensures forall k :: k in old(schedule) ==> k in schedule && schedule[k] == old(schedule)[k]
      ensures forall k :: k in schedule && k !in old(schedule) ==> k in readyKeys && schedule[k] == pending[k] && pending[k].actionStatus == Queued
      ensures OneAdded(old(schedule))
      ensures forall i :: 0 <= i < |readyKeys| && !old(readyRecs[i].matched) ==>
                            Served(old(schedule), Asked(old(Look(readyRecs[i]))))
    {
      ghost var was := Looks(readyRecs);
      MergeReady(compTime, clock);
      ghost var now := Looks(readyRecs);
      TransferMerged(compTime);
      assert Transferred(old(schedule), now);
      forall j | 0 <= j < |readyKeys| && !was[j].matched ensures Served(old(schedule), Asked(was[j])) {
        StandsServes(old(schedule), now, Asked(was[j]));
      }
    }

    /** The tables after the transfer of what the merge left. */
    ghost predicate Transferred(before: map<int, CastRecord>, now: seq<Snapshot>)
      reads this, pending.Values, readyRecs
    {
      && |now| == |readyKeys| == |readyRecs|
      && (forall i :: 0 <= i < |now| ==>
            && readyKeys[i] in pending && readyRecs[i] == pending[readyKeys[i]]
            && Look(readyRecs[i]) == now[i].(action := readyRecs[i].actionStatus)
            && (!readyRecs[i].matched ==> readyKeys[i] in schedule))
      && (forall k :: k in before ==> k in schedule && schedule[k] == before[k])
      && (forall k :: k in schedule && k !in before ==> k in pending && schedule[k] == pending[k] && pending[k].actionStatus == Queued)
    }

    lemma StandsServes(before: map<int, CastRecord>, now: seq<Snapshot>, r: Request)
      requires Transferred(before, now) && StoodFor(now, r)
      ensures Served(before, r)
    {
      var i :| 0 <= i < |now| && Stands(now[i], r);
      assert Look(readyRecs[i]) == now[i].(action := readyRecs[i].actionStatus);
      assert Serves(before, readyKeys[i], r);
    }

    ghost predicate Added(before: map<int, CastRecord>, k: int)
      reads this
    {
      k in schedule && k !in before && !schedule[k].iscoCast
    }

    ghost predicate OneAdded(before: map<int, CastRecord>)
      reads this
    {
      forall a, b :: Added(before, a) && Added(before, b) ==> a == b
    }

    /** The due cast is left to an unmatched record that serves it. */
    ghost predicate Served(before: map<int, CastRecord>, r: Request)
      reads this, pending.Values
    {
      exists k :: Serves(before, k, r)
    }

    /** The record of k stands for the cast, and is scheduled now unless an older record still holds its key. */
    ghost predicate Serves(before: map<int, CastRecord>, k: int, r: Request)
      reads this, pending.Values
    {
      && k in pending && k in schedule && Stands(Look(pending[k]), r)
      && if k in before then schedule[k] == before[k] else schedule[k] == pending[k] && pending[k].actionStatus == Queued
    }

    /** From the comparison time to the end of the tick. */
    method Tick(order: seq<int>, compTime: Instant, now: Instant, clock: int)
      requires Valid() && Enumerates(order, pending)
      modifies this`readyKeys, this`readyRecs, this`schedule, pending.Values
      ensures Valid() && pending == old(pending)
      ensures forall k :: k in old(schedule) ==> k in schedule && schedule[k] == old(schedule)[k]
      ensures forall k :: k in schedule && k !in old(schedule) ==>
                            old(Due(k, compTime)) && schedule[k] == pending[k] && pending[k].actionStatus == Queued
      ensures OneAdded(old(schedule))
      ensures forall e :: old(Due(e, compTime)) && !old(pending[e].matched) ==> Served(old(schedule), Asked(old(Look(pending[e]))))
    {
      readyKeys, readyRecs := [], [];
      var reparse := Promote(order, compTime, now);
      assert !(reparse && |readyKeys| > 0); // so the early re-parse of the original never happens
      if |readyKeys| > 0 {
        HandOver(compTime, clock);
      }
    }

    /** Move the unmatched records of `ready` to `schedule` unless their key is still there. */
    method Transfer()
      requires |readyKeys| == |readyRecs| && NoDuplicates(readyKeys) && Distinct(readyRecs)
      modifies this`schedule, readyRecs
      ensures forall k :: k in old(schedule) ==> k in schedule && schedule[k] == old(schedule)[k]
      ensures forall k :: k in schedule && k !in old(schedule) ==> k in readyKeys
      ensures forall i :: 0 <= i < |readyKeys| && readyKeys[i] !in old(schedule) ==>
                            if readyRecs[i].matched then readyKeys[i] !in schedule
                            else readyKeys[i] in schedule && schedule[readyKeys[i]] == readyRecs[i] && readyRecs[i].actionStatus == Queued
      ensures forall i :: 0 <= i < |readyRecs| ==>
                            Look(readyRecs[i]) == old(Look(readyRecs[i])).(action := readyRecs[i].actionStatus)
    {
      for n := 0 to |readyKeys|
        invariant forall k :: k in old(schedule) ==> k in schedule && schedule[k] == old(schedule)[k]
        invariant forall k :: k in schedule && k !in old(schedule) ==> k in readyKeys[..n]
        invariant forall i :: 0 <= i < n && readyKeys[i] !in old(schedule) ==>
                                if readyRecs[i].matched then readyKeys[i] !in schedule
                                else readyKeys[i] in schedule && schedule[readyKeys[i]] == readyRecs[i] && readyRecs[i].actionStatus == Queued
        invariant forall i :: 0 <= i < |readyRecs| ==>
                                Look(readyRecs[i]) == old(Look(readyRecs[i])).(action := readyRecs[i].actionStatus)
      {
        if !readyRecs[n].matched {
          if readyKeys[n] !in schedule {
            schedule := schedule[readyKeys[n] := readyRecs[n]];
            readyRecs[n].actionStatus := Queued;
          }
        }
      }
    }
  }

  /** Records promoted together are for the same minute, so at most one non-ISCO record of them stays unmatched. */
  lemma OneSurvivor(was: seq<Snapshot>, now: int, i: nat, j: nat, t: Instant)
    requires i < j < |was| && was[i].schedList == was[j].schedList == t && !was[i].isco && !was[j].isco
    ensures Merged(was, i, now).matched || Merged(was, j, now).matched
  {
    if !was[i].matched {
      assert Absorbs(was, i, j);
    }
  }

  /** What a record asks for: its minute, and whether with ISCO and with LISST. */
  datatype Request = Request(schedList: Instant, isco: bool, lisst: bool)

  function Asked(s: Snapshot): Request {
    Request(s.schedList, s.isco, s.lisst)
  }

  /** An unmatched record for the same minute and kind, and with LISST if the other one asks for it. */
  predicate Stands(now: Snapshot, r: Request) {
    !now.matched && now.schedList == r.schedList && now.isco == r.isco && (r.lisst ==> now.lisst)
  }

  predicate OneLeft(now: seq<Snapshot>) {
    forall i, j :: 0 <= i < j < |now| && !now[i].matched && !now[j].matched ==> now[i].isco || now[j].isco
  }

  predicate StoodFor(now: seq<Snapshot>, r: Request) {
    exists k :: 0 <= k < |now| && Stands(now[k], r)
  }

  /** Each record that was unmatched has one that stands for it. */
  predicate AllStoodFor(was: seq<Snapshot>, now: seq<Snapshot>) {
    forall j :: 0 <= j < |was| && !was[j].matched ==> StoodFor(now, Asked(was[j]))
  }

  /** What stays unmatched keeps its status. */
  predicate KeptAt(was: seq<Snapshot>, now: seq<Snapshot>, i: int)
    requires 0 <= i < |was| && i < |now|
  {
    !now[i].matched ==> now[i].status == was[i].status
  }

  ghost predicate IsMerge(was: seq<Snapshot>, now: seq<Snapshot>, clock: int) {
    |now| == |was| && forall i: nat :: i < |was| ==> now[i] == Merged(was, i, clock)
  }

  /** The merge of records of one minute, by what it leaves. */
  method MergeOfMinute(recs: seq<CastRecord>, t: Instant, clock: int)
    requires Distinct(recs) && forall i :: 0 <= i < |recs| ==> recs[i].schedList == t
    modifies recs
    ensures OneLeft(Looks(recs)) && AllStoodFor(old(Looks(recs)), Looks(recs))
    ensures forall i :: 0 <= i < |recs| ==> KeptAt(old(Looks(recs)), Looks(recs), i)
  {
    ghost var was := Looks(recs);
    MergeDuplicates(recs, clock);
    ghost var now := Looks(recs);
    assert IsMerge(was, now, clock);
    OneIsLeft(was, now, clock, t);
    EachIsServed(was, now, clock);
    MergeKeeps(was, now, clock);
  }

  lemma MergeKeeps(was: seq<Snapshot>, now: seq<Snapshot>, clock: int)
    requires IsMerge(was, now, clock)
    ensures forall i :: 0 <= i < |was| ==> KeptAt(was, now, i)
  {
  }

  lemma OneIsLeft(was: seq<Snapshot>, now: seq<Snapshot>, clock: int, t: Instant)
    requires IsMerge(was, now, clock) && forall i: nat :: i < |was| ==> was[i].schedList == t
    ensures OneLeft(now)
  {
    forall i, j | 0 <= i < j < |now| && !now[i].isco && !now[j].isco
      ensures now[i].matched || now[j].matched
    {
      OneSurvivor(was, clock, i, j, t);
    }
  }

  lemma EachIsServed(was: seq<Snapshot>, now: seq<Snapshot>, clock: int)
    requires IsMerge(was, now, clock)
    ensures AllStoodFor(was, now)
  {
    forall j | 0 <= j < |was| && !was[j].matched
      ensures StoodFor(now, Asked(was[j]))
    {
      var k := ServedBySurvivor(was, clock, j);
      assert Stands(now[k], Asked(was[j]));
    }
  }

  /** Some unmatched record serves record j and, if j is a LISST cast, is one as well. */
  lemma ServedBySurvivor(was: seq<Snapshot>, now: int, j: nat) returns (k: nat)
    requires j < |was| && !was[j].matched
    ensures k < |was| && (k == j || Same(was[k], was[j])) && !Merged(was, k, now).matched
    ensures was[j].lisst ==> Merged(was, k, now).lisst
  {
    k := FirstOfClass(was, j);
    if k != j {
      assert Absorbs(was, k, j);
    }
  }

  predicate CalendarValid(t: Instant) {
    Valid(t)
  }

  ghost predicate NoDuplicates(s: seq<int>) {
    forall i, j :: 0 <= i < j < |s| ==> s[i] != s[j]
  }

  ghost predicate Enumerates(order: seq<int>, m: map<int, CastRecord>) {
    NoDuplicates(order) && forall e :: e in order <==> e in m
  }
}
