/**
 * The subscription cache of a broker client: notifications that the reader thread queues are handled
 * in order, and update the data items that the subscription table names. An alias and the broker's
 * own name of a parameter are two keys for one item.
 */
module Subscriptions {
  import opened Options

  // ---------- Values ----------

  /** nonzero says whether a text reads as a number, and then whether it is other than zero. */
  datatype Value = Null | Bool(b: bool) | Number(number: real) | Long(long: int) | Text(text: string, nonzero: Option<bool>)

  function LowerChar(c: char): char {
    if 'A' <= c <= 'Z' then ((c as int) + 32) as char else c
  }

  function Lower(s: string): (r: string)
    ensures |r| == |s|
  {
    if s == "" then "" else [LowerChar(s[0])] + Lower(s[1..])
  }

  const FALSES := {"false", "f", "no", "n"}
  const TRUES := {"true", "t", "yes", "y"}
  const NONES := {"", "non", "none"}

  /** Title-cased words are compared; the test for None is a substring test, so "" and "non" pass it. */
  function TrueOrFalse(v: Value): Value {
    match v
    case Bool(_) => v
    case Null => Null
    case Number(r) => if r != 0.0 then Bool(true) else Null
    case Long(n) => if n != 0 then Bool(true) else Null
    case Text(t, nonzero) =>
      if Lower(t) in FALSES then Bool(false)
      else if Lower(t) in TRUES then Bool(true)
      else if Lower(t) in NONES then Null
      else if nonzero == Some(true) then Bool(true)
      else Null
  }

  /** Normalising settles after one application, and only a false or a word for it becomes false. */
  lemma NormalForms(v: Value)
    ensures TrueOrFalse(v) == Null || TrueOrFalse(v).Bool?
    ensures TrueOrFalse(TrueOrFalse(v)) == TrueOrFalse(v)
    ensures TrueOrFalse(v) == Bool(false) <==> v == Bool(false) || (v.Text? && Lower(v.text) in ["false", "f", "no", "n"])
    ensures TrueOrFalse(Number(0.0)) == Null
  {
    if v.Text? && Lower(v.text) in TRUES {
      assert Lower(v.text) !in FALSES;
    }
  }

  /** What becomes true: true itself, a word for it, and a number other than zero, also as a text that is no other word. */
  lemma TrueExactlyWhen(v: Value)
    ensures TrueOrFalse(v) == Bool(true) <==>
              match v {
                case Null => false
                case Bool(b) => b
                case Number(r) => r != 0.0
                case Long(n) => n != 0
                case Text(t, nonzero) =>
                  Lower(t) in ["true", "t", "yes", "y"]
                  || (nonzero == Some(true) && Lower(t) !in ["false", "f", "no", "n", "none", "non", ""])
              }
  {
    if v.Text? && Lower(v.text) in TRUES {
      assert Lower(v.text) !in FALSES;
    }
  }

  /** Words are compared without regard to case. */
  lemma {:induction false} LowerIs(s: string)
    ensures |Lower(s)| == |s|
    ensures forall i :: 0 <= i < |s| ==> Lower(s)[i] == if 'A' <= s[i] <= 'Z' then 'a' + (s[i] - 'A') else s[i]
  {
    if s != "" {
      LowerIs(s[1..]);
    }
  }

  // ---------- Data items and notifications ----------

  /** The date that a long time stamp stands for. */
  datatype Date = DateOf(long: int)

  datatype Reading = Reading(value: Value, sampleLong: int, sampleTime: Date, tz: string)

  class Item {
    const dataName: string
    const units: string
    var value: Value
    var sampleLong: int
    var sampleTime: Date
    var tz: string

    constructor (dataName: string, units: string)
      ensures this.dataName == dataName && this.units == units
      ensures Now() == Reading(Null, 20000101123000000, DateOf(20000101123000000), "?")
    {
      this.dataName, this.units := dataName, units;
      value, sampleLong, sampleTime, tz := Null, 20000101123000000, DateOf(20000101123000000), "?";
    }

    function Now(): Reading
      reads this
    {
      Reading(value, sampleLong, sampleTime, tz)
    }
  }

  /** What a notification says of one key: a value with or without its own time, an error, or neither. */
  datatype Entry = Sample(value: Value, time: Option<int>) | Fault | Empty

  /** arrival is the clock when the notification is handled, used when it carries no message time. */
  datatype Note = Note(subscription: bool, params: seq<(string, Entry)>, time: Option<int>, units: Option<string>, arrival: int)

  type Table = map<string, Item>

  const MESSAGE_TIME := "message_time"

  // ---------- Replaying notifications ----------

  datatype View = View(items: map<Item, Reading>, error: bool)

  predicate Covers(v: View, subs: Table) {
    subs.Values <= v.items.Keys
  }

  function TimeOf(n: Note): int {
    match n.time case Some(t) => t case None => n.arrival
  }

  function SampleTime(n: Note, e: Entry): int
    requires e.Sample?
  {
    match e.time case Some(t) => t case None => TimeOf(n)
  }

  function Normal(i: Item, v: Value): Value {
    if Lower(i.units) == "boolean" then TrueOrFalse(v) else v
  }

  /** Reporting an error entry fails, unless one has been reported already; the handler then drops the note. */
  predicate Raises(subs: Table, v: View, key: string, e: Entry) {
    key in subs && e.Fault? && !v.error
  }

  function ApplyKey(subs: Table, v: View, n: Note, key: string, e: Entry): (w: View)
    requires Covers(v, subs)
    ensures w.items.Keys == v.items.Keys
  {
    if key !in subs then v
    else if e.Sample? then
      var i := subs[key];
      var t := SampleTime(n, e);
      var tz := match n.units case Some(u) => u case None => v.items[i].tz;
      View(v.items[i := Reading(Normal(i, e.value), t, DateOf(t), tz)], false)
    else v.(error := true)
  }

  /** The view after the keys, and whether all of them were processed. */
  function ApplyKeys(subs: Table, v: View, n: Note, params: seq<(string, Entry)>): (r: (View, bool))
    requires Covers(v, subs)
    ensures r.0.items.Keys == v.items.Keys
    decreases |params|
  {
    if params == [] then (v, true)
    else if Raises(subs, v, params[0].0, params[0].1) then (v, false)
    else ApplyKeys(subs, ApplyKey(subs, v, n, params[0].0, params[0].1), n, params[1..])
  }

  /** The message time itself goes to its own item; its long sample time is left alone. */
  function Stamp(subs: Table, v: View, n: Note): (w: View)
    requires Covers(v, subs)
    ensures w.items.Keys == v.items.Keys
  {
    if MESSAGE_TIME !in subs then v
    else
      var i := subs[MESSAGE_TIME];
      var tz := match n.units case Some(u) => if u != "" then u else v.items[i].tz case None => v.items[i].tz;
      v.(items := v.items[i := Reading(Long(TimeOf(n)), v.items[i].sampleLong, DateOf(TimeOf(n)), tz)])
  }

  function Apply(subs: Table, v: View, n: Note): (w: View)
    requires Covers(v, subs)
    ensures w.items.Keys == v.items.Keys
  {
    if !n.subscription then v
    else
      var r := ApplyKeys(subs, v, n, n.params);
      if r.1 then Stamp(subs, r.0, n) else r.0
  }

  function Replay(subs: Table, v: View, notes: seq<Note>): (w: View)
    requires Covers(v, subs)
    ensures w.items.Keys == v.items.Keys
    decreases |notes|
  {
    if notes == [] then v else Apply(subs, Replay(subs, v, notes[..|notes| - 1]), notes[|notes| - 1])
  }

  lemma ReplayOne(subs: Table, v: View, notes: seq<Note>, n: Note)
    requires Covers(v, subs)
    ensures Replay(subs, v, notes + [n]) == Apply(subs, Replay(subs, v, notes), n)
  {
    assert (notes + [n])[..|notes|] == notes;
  }

  // ---------- The handler ----------

  ghost function Look(items: set<Item>): map<Item, Reading>
    reads items
  {
    map i | i in items :: i.Now()
  }

  /**
   * rxN is appended to by the reader thread and emptied by this one; log holds all notifications queued
   * since the handler was started, and origin what the items held then.
   */
  class Handler {
    var rxN: seq<Note>
    var subscriptions: Table
    var subscriptionError: bool
    ghost var log: seq<Note>
    ghost var origin: View

    ghost function Current(): View
      reads this, subscriptions.Values
    {
      View(Look(subscriptions.Values), subscriptionError)
    }

    /** The cache always agrees with replaying, in order, the notifications taken off the queue. */
    ghost predicate Valid()
      reads this, subscriptions.Values
    {
      && |rxN| <= |log|
      && rxN == log[|log| - |rxN|..]
      && Covers(origin, subscriptions)
      && Current() == Replay(subscriptions, origin, log[..|log| - |rxN|])
    }

    constructor (subscriptions: Table)
      ensures Valid() && this.subscriptions == subscriptions && rxN == [] && log == [] && !subscriptionError
    {
      this.subscriptions := subscriptions;
      rxN, subscriptionError, log := [], false, [];
      new;
      origin := Current();
    }

    /** Starting the thread clears the queue. */
    method Start()
      modifies this`rxN, this`log, this`origin
      ensures Valid() && rxN == [] && log == [] && origin == old(Current())
    {
      rxN, log := [], [];
      origin := Current();
    }

    /** A step of the reader thread. */
    method Receive(n: Note)
      requires Valid()
      modifies this`rxN, this`log
      ensures Valid() && log == old(log) + [n] && rxN == old(rxN) + [n] && Current() == old(Current())
    {
      ghost var done := log[..|log| - |rxN|];
      rxN := rxN + [n];
      log := log + [n];
      assert log[..|log| - |rxN|] == done;
    }

    /** Takes the oldest notification off the queue and handles it. */
    method HandleNext()
      requires Valid() && rxN != []
      modifies this`rxN, this`subscriptionError, subscriptions.Values
      ensures Valid() && log == old(log) && origin == old(origin) && rxN == old(rxN)[1..]
    {
      var n := rxN[0];
      ghost var done := log[..|log| - |rxN|];
      ghost var v := Current();
      rxN := rxN[1..];
      assert log[..|log| - |rxN|] == done + [n];
      ReplayOne(subscriptions, origin, done, n);
      assert Current() == v;
      if n.subscription {
        Process(n);
      }
      assert Current() == Apply(subscriptions, v, n);
    }

    method Process(n: Note)
      requires n.subscription
      modifies this`subscriptionError, subscriptions.Values
      ensures Current() == Apply(subscriptions, old(Current()), n)
    {
      var i := 0;
      while i < |n.params|
        invariant 0 <= i <= |n.params|
        invariant ApplyKeys(subscriptions, Current(), n, n.params[i..]) == ApplyKeys(subscriptions, old(Current()), n, n.params)
      {
        ghost var rest := n.params[i..];
        assert rest[0] == n.params[i] && rest[1..] == n.params[i + 1..];
        var raised := ProcessKey(n, n.params[i].0, n.params[i].1);
        if raised {
          return;
        }
        i := i + 1;
      }
      if MESSAGE_TIME in subscriptions {
        StoreMessageTime(n);
      }
    }

    /** One key of the notification; raised is the exception of a failed error report. */
    method ProcessKey(n: Note, key: string, e: Entry) returns (raised: bool)
      modifies this`subscriptionError, subscriptions.Values
      ensures raised == Raises(subscriptions, old(Current()), key, e)
      ensures Current() == if raised then old(Current()) else ApplyKey(subscriptions, old(Current()), n, key, e)
    {
      if key in subscriptions {
        if e.Sample? {
          subscriptionError := false;
          Store(subscriptions[key], n, e);
        } else {
          if e.Fault? && !subscriptionError {
            return true;
          }
          subscriptionError := true;
        }
      }
      return false;
    }

    method StoreMessageTime(n: Note)
      requires MESSAGE_TIME in subscriptions
      modifies subscriptions.Values
      ensures Current() == Stamp(subscriptions, old(Current()), n)
    {
      var item := subscriptions[MESSAGE_TIME];
      item.value := Long(TimeOf(n));
      item.sampleTime := DateOf(TimeOf(n));
      if n.units.Some? && n.units.value != "" {
        item.tz := n.units.value;
      }
    }

    method Store(item: Item, n: Note, e: Entry)
      requires e.Sample?
      modifies item
      ensures item.Now() == Reading(Normal(item, e.value), SampleTime(n, e), DateOf(SampleTime(n, e)),
                                    match n.units case Some(u) => u case None => old(item.tz))
    {
      item.value := if Lower(item.units) == "boolean" then TrueOrFalse(e.value) else e.value;
      item.sampleLong := SampleTime(n, e);
      item.sampleTime := DateOf(item.sampleLong);
      if n.units.Some? {
        item.tz := n.units.value;
      }
    }

    /** Handling until the queue is empty leaves the items as replaying the whole log does. */
    method Drain()
      requires Valid()
      modifies this`rxN, this`subscriptionError, subscriptions.Values
      ensures Valid() && rxN == [] && Current() == Replay(subscriptions, origin, log)
    {
      while rxN != []
        invariant Valid() && log == old(log) && origin == old(origin)
        decreases |rxN|
      {
        HandleNext();
      }
      assert log[..|log|] == log;
    }
  }

  // ---------- The last notification wins ----------

  predicate Names(subs: Table, p: (string, Entry), x: Item) {
    p.0 in subs && subs[p.0] == x && p.1.Sample?
  }

  /** No error entry for a subscribed key. */
  predicate Clean(subs: Table, params: seq<(string, Entry)>) {
    forall i :: 0 <= i < |params| ==> !(params[i].0 in subs && params[i].1.Fault?)
  }

  predicate NoneNames(subs: Table, params: seq<(string, Entry)>, x: Item) {
    forall i :: 0 <= i < |params| ==> !Names(subs, params[i], x)
  }

  lemma {:induction false} UnnamedKeys(subs: Table, v: View, n: Note, params: seq<(string, Entry)>, x: Item)
    requires Covers(v, subs) && x in v.items && NoneNames(subs, params, x)
    ensures ApplyKeys(subs, v, n, params).0.items[x] == v.items[x]
    decreases |params|
  {
    if params != [] && !Raises(subs, v, params[0].0, params[0].1) {
      assert !Names(subs, params[0], x);
      UnnamedKeys(subs, ApplyKey(subs, v, n, params[0].0, params[0].1), n, params[1..], x);
    }
  }

  lemma {:induction false} CleanCompletes(subs: Table, v: View, n: Note, params: seq<(string, Entry)>)
    requires Covers(v, subs) && Clean(subs, params)
    ensures ApplyKeys(subs, v, n, params).1
    decreases |params|
  {
    if params != [] {
      CleanCompletes(subs, ApplyKey(subs, v, n, params[0].0, params[0].1), n, params[1..]);
    }
  }

  /** A reading is what an entry says: its value, as a truth value if the item is boolean, at its own time or else that of its note. */
  predicate Holds(x: Item, r: Reading, n: Note, e: Entry)
    requires e.Sample?
  {
    && r.value == (if Lower(x.units) == "boolean" then TrueOrFalse(e.value) else e.value)
    && r.sampleLong == (if e.time != None then e.time.value else if n.time != None then n.time.value else n.arrival)
    && r.sampleTime == DateOf(r.sampleLong)
    && (n.units != None ==> r.tz == n.units.value)
  }

  lemma {:induction false} LastKeyWins(subs: Table, v: View, n: Note, params: seq<(string, Entry)>, x: Item, k: nat)
    requires Covers(v, subs) && x in v.items && Clean(subs, params)
    requires k < |params| && Names(subs, params[k], x) && NoneNames(subs, params[k + 1..], x)
    ensures Holds(x, ApplyKeys(subs, v, n, params).0.items[x], n, params[k].1)
    decreases |params|
  {
    var w := ApplyKey(subs, v, n, params[0].0, params[0].1);
    if k == 0 {
      UnnamedKeys(subs, w, n, params[1..], x);
    } else {
      assert params[1..][k..] == params[k + 1..];
      LastKeyWins(subs, w, n, params[1..], x, k - 1);
    }
  }

  predicate IsMessageTime(subs: Table, x: Item) {
    MESSAGE_TIME in subs && subs[MESSAGE_TIME] == x
  }

  predicate NoneOfNames(subs: Table, notes: seq<Note>, x: Item) {
    forall i :: 0 <= i < |notes| && notes[i].subscription ==> NoneNames(subs, notes[i].params, x)
  }

  /** An item that no notification names keeps its value; error entries make no difference. */
  lemma {:induction false} UnnamedKept(subs: Table, v: View, notes: seq<Note>, x: Item)
    requires Covers(v, subs) && x in v.items && !IsMessageTime(subs, x) && NoneOfNames(subs, notes, x)
    ensures Replay(subs, v, notes).items[x] == v.items[x]
    decreases |notes|
  {
    if notes != [] {
      var n := notes[|notes| - 1];
      var w := Replay(subs, v, notes[..|notes| - 1]);
      UnnamedKept(subs, v, notes[..|notes| - 1], x);
      if n.subscription {
        UnnamedKeys(subs, w, n, n.params, x);
      }
    }
  }

  /**
   * After any log, each item holds what the last entry naming it says, provided that the notification
   * with that entry has no error entry: its value, normalised if the item is boolean, and its own time
   * or else the time of the message.
   */
  lemma {:induction false} LastNotificationWins(subs: Table, v: View, notes: seq<Note>, x: Item, i: nat, k: nat)
    requires Covers(v, subs) && x in v.items && !IsMessageTime(subs, x)
    requires i < |notes| && notes[i].subscription && Clean(subs, notes[i].params)
    requires k < |notes[i].params| && Names(subs, notes[i].params[k], x) && NoneNames(subs, notes[i].params[k + 1..], x)
    requires NoneOfNames(subs, notes[i + 1..], x)
    ensures Holds(x, Replay(subs, v, notes).items[x], notes[i], notes[i].params[k].1)
    decreases |notes|
  {
    var last := |notes| - 1;
    var w := Replay(subs, v, notes[..last]);
    if i == last {
      LastKeyWins(subs, w, notes[i], notes[i].params, x, k);
      CleanCompletes(subs, w, notes[i], notes[i].params);
    } else {
      assert notes[..last][i + 1..] == notes[i + 1..][..last - i - 1];
      assert notes[last] == notes[i + 1..][last - i - 1];
      LastNotificationWins(subs, v, notes[..last], x, i, k);
      if notes[last].subscription {
        UnnamedKeys(subs, w, notes[last], notes[last].params, x);
      }
    }
  }

  // ---------- The time zone of an item ----------

  lemma {:induction false} KeysSetZone(subs: Table, v: View, n: Note, params: seq<(string, Entry)>, x: Item)
    requires Covers(v, subs) && x in v.items
    ensures var w := ApplyKeys(subs, v, n, params);
            && (n.units == None ==> w.0.items[x].tz == v.items[x].tz)
            && (n.units != None && v.items[x].tz == n.units.value ==> w.0.items[x].tz == n.units.value)
            && (n.units != None && w.1 && !NoneNames(subs, params, x) ==> w.0.items[x].tz == n.units.value)
    decreases |params|
  {
    if params != [] && !Raises(subs, v, params[0].0, params[0].1) {
      var w := ApplyKey(subs, v, n, params[0].0, params[0].1);
      KeysSetZone(subs, w, n, params[1..], x);
      if !Names(subs, params[0], x) && NoneNames(subs, params[1..], x) {
        assert forall i :: 0 <= i < |params| ==> !Names(subs, params[i], x);
      }
    }
  }

  /** Notifications that carry no units, or do not name the item, leave its time zone alone. */
  ghost predicate NoZones(subs: Table, notes: seq<Note>, x: Item) {
    forall i :: 0 <= i < |notes| && notes[i].subscription && notes[i].units != None ==> NoneNames(subs, notes[i].params, x)
  }

  /** An item's time zone is the units of the last notification that names it and carries units. */
  lemma {:induction false} LastUnitsWin(subs: Table, v: View, notes: seq<Note>, x: Item, i: nat)
    requires Covers(v, subs) && x in v.items && !IsMessageTime(subs, x)
    requires i < |notes| && notes[i].subscription && notes[i].units != None
    requires Clean(subs, notes[i].params) && !NoneNames(subs, notes[i].params, x)
    requires NoZones(subs, notes[i + 1..], x)
    ensures Replay(subs, v, notes).items[x].tz == notes[i].units.value
    decreases |notes|
  {
    var last := |notes| - 1;
    var front := notes[..last];
    var w := Replay(subs, v, front);
    if i == last {
      KeysSetZone(subs, w, notes[i], notes[i].params, x);
      CleanCompletes(subs, w, notes[i], notes[i].params);
    } else {
      assert front[i + 1..] == notes[i + 1..][..last - i - 1];
      assert notes[last] == notes[i + 1..][last - i - 1];
      LastUnitsWin(subs, v, front, x, i);
      if notes[last].subscription {
        KeysSetZone(subs, w, notes[last], notes[last].params, x);
        if notes[last].units != None {
          UnnamedKeys(subs, w, notes[last], notes[last].params, x);
        }
      }
    }
  }

  /** Notification i is a subscription message that is processed to its end. */
  predicate Completes(subs: Table, v: View, notes: seq<Note>, i: nat)
    requires Covers(v, subs) && i < |notes|
  {
    notes[i].subscription && ApplyKeys(subs, Replay(subs, v, notes[..i]), notes[i], notes[i].params).1
  }

  /** One that is not complete stamps nothing; else the message time item, and no other, gets the time and any units that are not empty. */
  lemma StampMeans(subs: Table, v: View, n: Note)
    requires Covers(v, subs) && n.subscription
    ensures var (w, whole) := ApplyKeys(subs, v, n, n.params);
            var r := Apply(subs, v, n);
            && (!whole || "message_time" !in subs ==> r == w)
            && (whole && "message_time" in subs ==>
                  var x := subs["message_time"];
                  var t := if n.time != None then n.time.value else n.arrival;
                  && r.items - {x} == w.items - {x} && r.error == w.error
                  && r.items[x].value == Long(t) && r.items[x].sampleTime == DateOf(t) && r.items[x].sampleLong == w.items[x].sampleLong
                  && r.items[x].tz == if n.units == None || n.units == Some("") then w.items[x].tz else n.units.value)
  {
  }

  /** A notification without error entries does. */
  lemma CleanIsComplete(subs: Table, v: View, notes: seq<Note>, i: nat)
    requires Covers(v, subs) && i < |notes| && notes[i].subscription && Clean(subs, notes[i].params)
    ensures Completes(subs, v, notes, i)
  {
    CleanCompletes(subs, Replay(subs, v, notes[..i]), notes[i], notes[i].params);
  }

  /**
   * The message time item holds the time of the last notification that was processed to its end, also
   * after others that were dropped, unless one of those names the item itself.
   */
  lemma {:induction false} StampHolds(subs: Table, v: View, notes: seq<Note>, i: nat)
    requires Covers(v, subs) && MESSAGE_TIME in subs && i < |notes| && Completes(subs, v, notes, i)
    requires forall j :: i < j < |notes| ==> !Completes(subs, v, notes, j)
    requires NoneOfNames(subs, notes[i + 1..], subs[MESSAGE_TIME])
    ensures Replay(subs, v, notes).items[subs[MESSAGE_TIME]].value
            == Long(if notes[i].time != None then notes[i].time.value else notes[i].arrival)
    ensures Replay(subs, v, notes).items[subs[MESSAGE_TIME]].sampleTime
            == DateOf(if notes[i].time != None then notes[i].time.value else notes[i].arrival)
    decreases |notes|
  {
    var last := |notes| - 1;
    var front := notes[..last];
    if i < last {
      forall j | i <= j < last
        ensures Completes(subs, v, front, j) == Completes(subs, v, notes, j)
      {
        assert front[..j] == notes[..j];
      }
      assert front[i + 1..] == notes[i + 1..][..last - i - 1];
      assert notes[last] == notes[i + 1..][last - i - 1];
      StampHolds(subs, v, front, i);
      assert !Completes(subs, v, notes, last);
      if notes[last].subscription {
        UnnamedKeys(subs, Replay(subs, v, front), notes[last], notes[last].params, subs[MESSAGE_TIME]);
      }
    }
  }

  // ---------- Error entries ----------

  /**
   * Exactly what an error entry costs: the first one met while no error is pending drops the rest of
   * its notification, message time included, and leaves the error unrecorded.
   */
  lemma {:induction false} FaultDropsTheRest(subs: Table, v: View, n: Note, params: seq<(string, Entry)>, k: nat)
    requires Covers(v, subs) && k < |params| && Clean(subs, params[..k]) && params[k].0 in subs && params[k].1.Fault?
    ensures var before := ApplyKeys(subs, v, n, params[..k]).0;
            && (ApplyKeys(subs, v, n, params) == (before, false) <==> !before.error)
            && (before.error ==> ApplyKeys(subs, v, n, params) == ApplyKeys(subs, before, n, params[k + 1..]))
    decreases |params|
  {
    if k == 0 {
      assert params[..k] == [];
      if v.error {
        DroppingKeepsError(subs, v, n, params[1..]);
      }
    } else {
      var w := ApplyKey(subs, v, n, params[0].0, params[0].1);
      assert params[..k][0] == params[0];
      assert params[..k][1..] == params[1..][..k - 1];
      assert params[1..][k..] == params[k + 1..];
      FaultDropsTheRest(subs, w, n, params[1..], k - 1);
    }
  }

  /** A dropped notification leaves no pending error. */
  lemma {:induction false} DroppingKeepsError(subs: Table, v: View, n: Note, params: seq<(string, Entry)>)
    requires Covers(v, subs)
    ensures !ApplyKeys(subs, v, n, params).1 ==> !ApplyKeys(subs, v, n, params).0.error
    decreases |params|
  {
    if params != [] && !Raises(subs, v, params[0].0, params[0].1) {
      DroppingKeepsError(subs, ApplyKey(subs, v, n, params[0].0, params[0].1), n, params[1..]);
    }
  }

  lemma {:induction false} UnsubscribedChangesNothing(subs: Table, v: View, n: Note, params: seq<(string, Entry)>)
    requires Covers(v, subs) && forall i :: 0 <= i < |params| ==> params[i].0 !in subs
    ensures ApplyKeys(subs, v, n, params) == (v, true)
    decreases |params|
  {
    if params != [] {
      UnsubscribedChangesNothing(subs, v, n, params[1..]);
    }
  }

  /** After a notification that is processed to its end an error is pending exactly when its last subscribed entry has no value. */
  lemma {:induction false} ErrorIsPendingExactlyWhen(subs: Table, v: View, n: Note, params: seq<(string, Entry)>, k: nat)
    requires Covers(v, subs) && ApplyKeys(subs, v, n, params).1
    requires k < |params| && params[k].0 in subs && forall i :: k < i < |params| ==> params[i].0 !in subs
    ensures ApplyKeys(subs, v, n, params).0.error <==> params[k].1 == Fault || params[k].1 == Empty
    decreases |params|
  {
    var w := ApplyKey(subs, v, n, params[0].0, params[0].1);
    if k == 0 {
      UnsubscribedChangesNothing(subs, w, n, params[1..]);
    } else {
      ErrorIsPendingExactlyWhen(subs, w, n, params[1..], k - 1);
    }
  }

  // ---------- Subscribing ----------

  /** Every attribute's data name is an attribute for the same item: no alias hides a data name. */
  predicate WellNamed(attrs: Table) {
    forall p :: p in attrs ==> attrs[p].dataName in attrs && attrs[attrs[p].dataName] == attrs[p]
  }

  /** The table holds attributes only, each also under its data name. */
  predicate Paired(subs: Table, attrs: Table) {
    forall k :: k in subs ==>
      && k in attrs && attrs[k] == subs[k]
      && subs[k].dataName in subs && subs[subs[k].dataName] == subs[k]
  }

  function RemoveFirst(names: seq<string>, s: string): seq<string> {
    if names == [] then [] else if names[0] == s then names[1..] else [names[0]] + RemoveFirst(names[1..], s)
  }

  lemma {:induction false} RemoveFirstKeeps(names: seq<string>, s: string, t: string)
    requires t != s
    ensures t in RemoveFirst(names, s) <==> t in names
  {
    if names != [] {
      RemoveFirstKeeps(names[1..], s, t);
      assert names == [names[0]] + names[1..];
    }
  }

  /** The table once parameter p is registered: it and its data name, unless it is there already or unknown. */
  function Registered(subs: Table, attrs: Table, p: string): Table {
    if p in attrs && p !in subs then subs[p := attrs[p]][attrs[p].dataName := attrs[p]] else subs
  }

  lemma RegisteredKeepsPairs(subs: Table, attrs: Table, p: string)
    requires WellNamed(attrs) && Paired(subs, attrs)
    ensures Paired(Registered(subs, attrs, p), attrs)
    ensures forall k :: k in subs ==> Registered(subs, attrs, p)[k] == subs[k]
  {
    if p in attrs && p !in subs {
      var item := attrs[p];
      if item.dataName in subs {
        assert subs[item.dataName] == item;
      }
    }
  }

  /** d is the data name of one of the parameters that was not subscribed to yet. */
  ghost predicate NewFor(attrs: Table, had: Table, names: seq<string>, d: string) {
    exists p :: p in names && p in attrs && p !in had && attrs[p].dataName == d
  }

  class Client {
    const attrs: Table
    var subscriptions: Table

    constructor (attrs: Table)
      ensures this.attrs == attrs && subscriptions == map[]
    {
      this.attrs, subscriptions := attrs, map[];
    }

    method Register(p: string) returns (found: seq<string>)
      modifies this
      ensures subscriptions == Registered(old(subscriptions), attrs, p)
      ensures found == if p in attrs && p !in old(subscriptions) then [attrs[p].dataName] else []
    {
      found := [];
      if p in attrs && p !in subscriptions {
        var item := attrs[p];
        found := [item.dataName];
        subscriptions := subscriptions[p := item];
        subscriptions := subscriptions[item.dataName := item];
      }
    }

    /** Registers what is new; the data names of that, in order. */
    method RegisterAll(names: seq<string>) returns (checked: seq<string>)
      modifies this
      ensures forall p :: p in names && p in attrs ==> p in subscriptions
      ensures old(subscriptions).Keys <= subscriptions.Keys
      ensures forall k :: k in subscriptions && k !in old(subscriptions) ==> subscriptions[k].dataName in checked
      ensures forall d :: d in checked ==> d in subscriptions && NewFor(attrs, old(subscriptions), names, d)
      ensures WellNamed(attrs) && Paired(old(subscriptions), attrs) ==>
                Paired(subscriptions, attrs) && forall k :: k in old(subscriptions) ==> subscriptions[k] == old(subscriptions)[k]
      ensures NoAliasOf(attrs, MESSAGE_TIME) ==> Once(checked, MESSAGE_TIME)
    {
      ghost var nice := WellNamed(attrs) && Paired(subscriptions, attrs);
      checked := [];
      for i := 0 to |names|
        invariant old(subscriptions).Keys <= subscriptions.Keys
        invariant nice ==> Paired(subscriptions, attrs) && forall k :: k in old(subscriptions) ==> subscriptions[k] == old(subscriptions)[k]
        invariant forall j :: 0 <= j < i && names[j] in attrs ==> names[j] in subscriptions
        invariant forall k :: k in subscriptions && k !in old(subscriptions) ==> subscriptions[k].dataName in checked
        invariant forall d :: d in checked ==> d in subscriptions && NewFor(attrs, old(subscriptions), names, d)
        invariant NoAliasOf(attrs, MESSAGE_TIME) ==> Once(checked, MESSAGE_TIME)
      {
        if nice {
          RegisteredKeepsPairs(subscriptions, attrs, names[i]);
        }
        if names[i] in attrs && names[i] !in subscriptions {
          assert NewFor(attrs, old(subscriptions), names, attrs[names[i]].dataName);
        }
        if names[i] in attrs && names[i] !in subscriptions && NoAliasOf(attrs, MESSAGE_TIME) {
          OnceMore(checked, MESSAGE_TIME, attrs[names[i]].dataName);
        }
        var found := Register(names[i]);
        checked := checked + found;
      }
    }

    /**
     * Registers the parameters and returns the data names to ask the broker for. Unknown parameters
     * are passed over.
     */
    method Subscribe(params: seq<string>) returns (asked: seq<string>)
      modifies this
      ensures params == [] ==> asked == [] && subscriptions == old(subscriptions)
      ensures params != [] ==> forall p :: p in params + [MESSAGE_TIME] && p in attrs ==> p in subscriptions
      ensures old(subscriptions).Keys <= subscriptions.Keys
      ensures forall k :: k in subscriptions && k !in old(subscriptions) ==>
                subscriptions[k].dataName == "message_time" || subscriptions[k].dataName in asked
      ensures forall d :: d in asked ==> d in subscriptions && NewFor(attrs, old(subscriptions), params + [MESSAGE_TIME], d)
      ensures NoAliasOf(attrs, "message_time") ==> "message_time" !in asked
      ensures WellNamed(attrs) && Paired(old(subscriptions), attrs) ==>
                Paired(subscriptions, attrs) && forall k :: k in old(subscriptions) ==> subscriptions[k] == old(subscriptions)[k]
    {
      if params == [] {
        return [];
      }
      var checked := RegisterAll(params + [MESSAGE_TIME]);
      asked := RemoveFirst(checked, MESSAGE_TIME);
      if NoAliasOf(attrs, MESSAGE_TIME) {
        OnceIsRemoved(checked, MESSAGE_TIME);
      }
      forall d | d != MESSAGE_TIME
        ensures d in asked <==> d in checked
      {
        RemoveFirstKeeps(checked, MESSAGE_TIME, d);
      }
      forall d | d in asked
        ensures d in checked
      {
        RemovedWasThere(checked, MESSAGE_TIME, d);
      }
    }
  }

  /** No other attribute has this data name. */
  ghost predicate NoAliasOf(attrs: Table, d: string) {
    forall p :: p in attrs && attrs[p].dataName == d ==> p == d
  }

  ghost predicate Once(names: seq<string>, s: string) {
    forall i, j :: 0 <= i < j < |names| && names[i] == s ==> names[j] != s
  }

  lemma OnceMore(names: seq<string>, s: string, d: string)
    requires Once(names, s) && (d == s ==> s !in names)
    ensures Once(names + [d], s)
  {
  }

  lemma {:induction false} OnceIsRemoved(names: seq<string>, s: string)
    requires Once(names, s)
    ensures s !in RemoveFirst(names, s)
  {
    if names != [] && names[0] != s {
      OnceIsRemoved(names[1..], s);
    }
  }

  lemma {:induction false} RemovedWasThere(names: seq<string>, s: string, t: string)
    requires t in RemoveFirst(names, s)
    ensures t in names
  {
    if names[0] != s && t != names[0] {
      RemovedWasThere(names[1..], s, t);
    }
  }

  /** So an alias reads what the last notification says under the data name. */
  lemma AliasFollows(subs: Table, attrs: Table, v: View, notes: seq<Note>, alias: string, i: nat, k: nat)
    requires Covers(v, subs) && Paired(subs, attrs) && alias in subs && !IsMessageTime(subs, subs[alias])
    requires subs[alias] in v.items
    requires i < |notes| && notes[i].subscription && Clean(subs, notes[i].params)
    requires k < |notes[i].params| && notes[i].params[k].0 == subs[alias].dataName && notes[i].params[k].1.Sample?
    requires NoneNames(subs, notes[i].params[k + 1..], subs[alias]) && NoneOfNames(subs, notes[i + 1..], subs[alias])
    ensures Holds(subs[alias], Replay(subs, v, notes).items[subs[alias]], notes[i], notes[i].params[k].1)
  {
    LastNotificationWins(subs, v, notes, subs[alias], i, k);
  }
}
