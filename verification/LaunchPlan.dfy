/**
 * The order and the arguments with which AVPLauncher.run works off the queued casts of one pass.
 */
module LaunchPlan {
  import opened Options

  /** A queued record: its dictionary key and the fields that the launcher reads. */
  datatype Entry = Entry(key: string, isco: bool, depth: Option<real>, bottle: Option<int>, volume: Option<int>)

  datatype Park = Default | Bottom

  /** One turn of the launch loop; `performed` is false for an entry skipped because an argument is None. */
  datatype Visit = Visit(entry: Entry, depth: real, wipe: bool, park: Park, performed: bool)

  // ---------- Ordering ----------

  predicate KeyLess(a: string, b: string) {
    b != "" && (a == "" || a[0] < b[0] || (a[0] == b[0] && KeyLess(a[1..], b[1..])))
  }

  predicate DepthLess(a: Option<real>, b: Option<real>) {
    b.Some? && (a.None? || a.value < b.value)
  }

  /**
   * The sort compares [depth, key] pairs, since its key function only replaces an element that
   * is None as a whole. A missing depth is below every number.
   */
  predicate Less(a: Entry, b: Entry) {
    DepthLess(a.depth, b.depth) || (a.depth == b.depth && KeyLess(a.key, b.key))
  }

  lemma {:induction false} KeyLessIsTotal(a: string, b: string)
    ensures a == b || KeyLess(a, b) || KeyLess(b, a)
  {
    if a != "" && b != "" && a[0] == b[0] {
      KeyLessIsTotal(a[1..], b[1..]);
      assert a == [a[0]] + a[1..] && b == [b[0]] + b[1..];
    }
  }

  lemma {:induction false} KeyLessIsTransitive(a: string, b: string, c: string)
    requires KeyLess(a, b) && KeyLess(b, c)
    ensures KeyLess(a, c)
  {
    if a != "" && a[0] == b[0] == c[0] {
      KeyLessIsTransitive(a[1..], b[1..], c[1..]);
    }
  }

  function Insert(e: Entry, s: seq<Entry>): seq<Entry> {
    if s == [] || Less(s[0], e) then [e] + s else [s[0]] + Insert(e, s[1..])
  }

  /** Python's list.sort(reverse=True). */
  function SortDescending(s: seq<Entry>): seq<Entry> {
    if s == [] then [] else Insert(s[0], SortDescending(s[1..]))
  }

  predicate NotBelow(a: Entry, b: Entry) {
    (a.key == b.key && a.depth == b.depth) || Less(b, a)
  }

  lemma NotBelowOrder(a: Entry, b: Entry, c: Entry)
    ensures NotBelow(a, b) || Less(a, b)
    ensures NotBelow(a, b) && NotBelow(b, c) ==> NotBelow(a, c)
    ensures Less(a, b) ==> NotBelow(b, a)
  {
    KeyLessIsTotal(a.key, b.key);
    if KeyLess(c.key, b.key) && KeyLess(b.key, a.key) {
      KeyLessIsTransitive(c.key, b.key, a.key);
    }
  }

  lemma {:induction false} InsertIsSorted(e: Entry, s: seq<Entry>)
    requires forall i, j :: 0 <= i < j < |s| ==> NotBelow(s[i], s[j])
    ensures multiset(Insert(e, s)) == multiset(s) + multiset{e}
    ensures forall i, j :: 0 <= i < j < |Insert(e, s)| ==> NotBelow(Insert(e, s)[i], Insert(e, s)[j])
  {
    if s == [] {
    } else if Less(s[0], e) {
      NotBelowOrder(s[0], e, e);
      forall j | 0 <= j < |s| ensures NotBelow(e, s[j]) {
        NotBelowOrder(e, s[0], s[j]);
      }
    } else {
      assert s == [s[0]] + s[1..];
      InsertIsSorted(e, s[1..]);
      var r := Insert(e, s[1..]);
      forall j | 0 <= j < |r| ensures NotBelow(s[0], r[j]) {
        NotBelowOrder(s[0], e, e);
        assert r[j] in multiset(r);
        assert r[j] == e || r[j] in multiset(s[1..]);
      }
    }
  }

  lemma {:induction false} SortIsSorted(s: seq<Entry>)
    ensures multiset(SortDescending(s)) == multiset(s)
    ensures |SortDescending(s)| == |s|
    ensures forall i, j :: 0 <= i < j < |SortDescending(s)| ==> NotBelow(SortDescending(s)[i], SortDescending(s)[j])
  {
    if s != [] {
      SortIsSorted(s[1..]);
      InsertIsSorted(s[0], SortDescending(s[1..]));
      assert s == [s[0]] + s[1..];
      assert |multiset(SortDescending(s))| == |s|;
    }
  }

  // ---------- The plan ----------

  function Select(s: seq<Entry>, isco: bool): (r: seq<Entry>)
    ensures forall e :: e in r ==> e in s && e.isco == isco
  {
    if s == [] then [] else (if s[0].isco == isco then [s[0]] else []) + Select(s[1..], isco)
  }

  lemma {:induction false} SelectSplits(s: seq<Entry>)
    ensures multiset(Select(s, true)) + multiset(Select(s, false)) == multiset(s)
    ensures |Select(s, true)| + |Select(s, false)| == |s|
  {
    if s != [] {
      SelectSplits(s[1..]);
      assert s == [s[0]] + s[1..];
    }
  }

  /** The entries visited, in order: a single non-ISCO cast first, then the ISCO casts from the deepest up. */
  function VisitOrder(actionable: seq<Entry>): seq<Entry> {
    (if |Select(actionable, false)| == 1 then Select(actionable, false) else []) + SortDescending(Select(actionable, true))
  }

  predicate ArgumentsComplete(e: Entry) {
    e.isco ==> e.bottle.Some? && e.volume.Some?
  }

  function CastDepth(e: Entry): real {
    match e.depth case Some(d) => d case None => 999.4
  }

  /** The i-th turn of the loop over n queued entries. */
  function VisitAt(order: seq<Entry>, n: nat, i: nat): Visit
    requires i < |order|
  {
    Visit(order[i], CastDepth(order[i]), i == 0, if i == n - 1 then Default else Bottom, ArgumentsComplete(order[i]))
  }

  /** The launch loop. */
  method Turns(order: seq<Entry>, queued: nat) returns (visits: seq<Visit>)
    ensures |visits| == |order| && forall i :: 0 <= i < |visits| ==> visits[i] == VisitAt(order, queued, i)
  {
    var castsToDo, castsDone := queued as int, 0;
    visits := [];
    for n := 0 to |order|
      invariant castsDone == n && castsToDo == queued - n
      invariant |visits| == n && forall i :: 0 <= i < n ==> visits[i] == VisitAt(order, queued, i)
    {
      var e := order[n];
      var depth := CastDepth(e);
      var wipe := castsDone == 0;
      var park := if castsToDo == 1 then Default else Bottom;
      var performed := !(e.isco && (e.bottle == None || e.volume == None));
      visits := visits + [Visit(e, depth, wipe, park, performed)];
      castsToDo := castsToDo - 1;
      castsDone := castsDone + 1;
    }
  }

  /** One pass of the launcher over the queued entries; `skipped` are marked done without a cast. */
  method Launch(actionable: seq<Entry>) returns (visits: seq<Visit>, skipped: seq<Entry>)
    ensures skipped == if |Select(actionable, false)| > 1 then Select(actionable, false) else []
    ensures |visits| == |VisitOrder(actionable)|
    ensures forall i :: 0 <= i < |visits| ==> visits[i] == VisitAt(VisitOrder(actionable), |actionable|, i)
    ensures forall i :: 0 <= i < |visits| ==>
              && (visits[i].wipe <==> i == 0)
              && (visits[i].park == Default <==> i == |actionable| - 1)
              && (visits[i].performed <==> (visits[i].entry.isco ==> visits[i].entry.bottle != None && visits[i].entry.volume != None))
              && visits[i].depth == match visits[i].entry.depth { case Some(d) => d case None => 999.4 }
    ensures forall i, j :: 0 <= i < j < |visits| ==> MayPrecede(visits[i].entry, visits[j].entry)
  {
    var castsToDo := |actionable|;
    visits, skipped := [], [];
    if castsToDo > 0 {
      var nonIsco := Select(actionable, false);
      var order: seq<Entry> := [];
      if |nonIsco| == 1 {
        order := nonIsco;
      } else if |nonIsco| > 1 {
        skipped := nonIsco;
      }
      var isco := SortDescending(Select(actionable, true));
      if |isco| > 0 {
        order := order + isco;
      }
      visits := Turns(order, castsToDo);
    }
    TurnsAreInOrder(actionable, visits);
  }

  lemma TurnsAreInOrder(actionable: seq<Entry>, visits: seq<Visit>)
    requires |visits| == |VisitOrder(actionable)|
    requires forall i :: 0 <= i < |visits| ==> visits[i] == VisitAt(VisitOrder(actionable), |actionable|, i)
    ensures forall i, j :: 0 <= i < j < |visits| ==> MayPrecede(visits[i].entry, visits[j].entry)
  {
    VisitsAreInOrder(actionable);
    forall i, j | 0 <= i < j < |visits| ensures MayPrecede(visits[i].entry, visits[j].entry) {
      assert MayPrecede(VisitOrder(actionable)[i], VisitOrder(actionable)[j]);
    }
  }

  lemma OrderShape(actionable: seq<Entry>)
    ensures |VisitOrder(actionable)| == |actionable| - (if |Select(actionable, false)| > 1 then |Select(actionable, false)| else 0)
    ensures multiset(SortDescending(Select(actionable, true))) == multiset(Select(actionable, true))
  {
    SelectSplits(actionable);
    SortIsSorted(Select(actionable, true));
  }

  /**
   * Entry a may be visited before b: b is an ISCO cast; if both are, a is not shallower, a missing
   * depth comes after every number, and at one depth a has the greater key: b's key is a prefix of
   * it or has the smaller character where they first differ.
   */
  ghost predicate MayPrecede(a: Entry, b: Entry) {
    && b.isco
    && (a.isco && b.depth.Some? ==> a.depth.Some? && a.depth.value >= b.depth.value)
    && (a.isco && a.depth == b.depth ==>
          exists k: nat :: k <= |a.key| && k <= |b.key| && a.key[..k] == b.key[..k]
                           && (k == |b.key| || (k < |a.key| && b.key[k] < a.key[k])))
  }

  lemma {:induction false} KeyLessMeans(b: string, a: string)
    requires KeyLess(b, a)
    ensures exists k: nat :: k <= |a| && k <= |b| && a[..k] == b[..k] && (k == |b| || (k < |a| && b[k] < a[k]))
  {
    if b == "" {
      assert a[..0] == b[..0];
    } else if b[0] < a[0] {
      assert a[..0] == b[..0];
    } else {
      KeyLessMeans(b[1..], a[1..]);
      var k: nat :| k <= |a[1..]| && k <= |b[1..]| && a[1..][..k] == b[1..][..k] && (k == |b[1..]| || (k < |a[1..]| && b[1..][k] < a[1..][k]));
      assert a[..k + 1] == [a[0]] + a[1..][..k] && b[..k + 1] == [b[0]] + b[1..][..k];
    }
  }

  lemma NotBelowMayPrecede(a: Entry, b: Entry)
    requires NotBelow(a, b) && b.isco
    ensures MayPrecede(a, b)
  {
    if a.depth == b.depth {
      if a.key == b.key {
        assert a.key[..|b.key|] == b.key[..|b.key|];
      } else {
        KeyLessMeans(b.key, a.key);
      }
    }
  }

  ghost predicate InOrder(s: seq<Entry>) {
    forall i, j :: 0 <= i < j < |s| ==> MayPrecede(s[i], s[j])
  }

  lemma IscoPartIsInOrder(actionable: seq<Entry>)
    ensures forall e :: e in SortDescending(Select(actionable, true)) ==> e.isco
    ensures InOrder(SortDescending(Select(actionable, true)))
  {
    var isco := Select(actionable, true);
    SortIsSorted(isco);
    forall e | e in SortDescending(isco) ensures e in isco {
      assert e in multiset(SortDescending(isco));
    }
    forall i, j | 0 <= i < j < |isco| ensures MayPrecede(SortDescending(isco)[i], SortDescending(isco)[j]) {
      NotBelowMayPrecede(SortDescending(isco)[i], SortDescending(isco)[j]);
    }
  }

  /** Whatever is queued, the non-ISCO cast comes first and then the ISCO casts from the deepest up. */
  lemma VisitsAreInOrder(actionable: seq<Entry>)
    ensures InOrder(VisitOrder(actionable))
  {
    var s := VisitOrder(actionable);
    var first, rest := if |Select(actionable, false)| == 1 then Select(actionable, false) else [], SortDescending(Select(actionable, true));
    IscoPartIsInOrder(actionable);
    assert s == first + rest;
    forall i, j | 0 <= i < j < |s| ensures MayPrecede(s[i], s[j]) {
      assert s[j] == rest[j - |first|];
      if i < |first| {
        assert s[i] == first[i] && !first[i].isco;
      } else {
        assert s[i] == rest[i - |first|];
      }
    }
  }

  /** With at most one non-ISCO cast, every queued entry is visited once, the non-ISCO cast first and then deepest first. */
  lemma EveryEntryOnceDeepestFirst(actionable: seq<Entry>)
    requires |Select(actionable, false)| <= 1
    ensures |VisitOrder(actionable)| == |actionable| && multiset(VisitOrder(actionable)) == multiset(actionable)
    ensures InOrder(VisitOrder(actionable))
  {
    OrderShape(actionable);
    SelectSplits(actionable);
    VisitsAreInOrder(actionable);
    assert VisitOrder(actionable) == Select(actionable, false) + SortDescending(Select(actionable, true));
  }

  /** With two or more of them, every non-ISCO cast is dropped and just the ISCO casts are visited. */
  lemma ExcessDropsAllNonIsco(actionable: seq<Entry>)
    requires |Select(actionable, false)| > 1
    ensures multiset(VisitOrder(actionable)) == multiset(Select(actionable, true))
    ensures |VisitOrder(actionable)| == |actionable| - |Select(actionable, false)|
  {
    OrderShape(actionable);
    assert VisitOrder(actionable) == SortDescending(Select(actionable, true));
  }

  /** Turn i of a pass over n queued entries is a cast that leaves the sonde at its default position. */
  predicate ParksSonde(order: seq<Entry>, n: nat, i: nat)
    requires i < |order|
  {
    VisitAt(order, n, i).performed && VisitAt(order, n, i).park == Default
  }

  lemma ParksInLastTurn(order: seq<Entry>, n: nat)
    requires order != [] && |order| <= n
    ensures (exists i: nat :: i < |order| && ParksSonde(order, n, i)) <==> |order| == n && ArgumentsComplete(order[|order| - 1])
    ensures forall i: nat :: i < |order| && ParksSonde(order, n, i) ==> i == |order| - 1
  {
    if |order| == n && ArgumentsComplete(order[|order| - 1]) {
      assert ParksSonde(order, n, |order| - 1);
    }
  }

  /**
   * A pass that visits something ends with a cast that parks the sonde at its default position
   * exactly when at most one non-ISCO cast is queued and the last entry has complete arguments.
   */
  lemma ParksExactlyWhen(actionable: seq<Entry>, order: seq<Entry>)
    requires order == VisitOrder(actionable) && order != []
    ensures (exists i: nat :: i < |order| && ParksSonde(order, |actionable|, i))
            <==> |Select(actionable, false)| <= 1 && ArgumentsComplete(order[|order| - 1])
    ensures forall i: nat :: i < |order| && ParksSonde(order, |actionable|, i) ==> i == |order| - 1
  {
    OrderShape(actionable);
    ParksInLastTurn(order, |actionable|);
  }
}
