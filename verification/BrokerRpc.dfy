/**
 * Remote calls of a broker client: callers send requests and poll the table of replies, which the
 * reader thread of the socket handler fills. Every action below is one step that no other thread
 * interrupts. A server echoes the id of the request that it answers (JSON-RPC 2.0, section 5), but may
 * answer late, in any order, several times or not at all.
 */
module BrokerRpc {
  import opened Options

  /** call and serial are bookkeeping: the number of the call answered, and of the reply itself. */
  datatype Reply = Reply(id: int, body: string, call: nat, serial: nat)

  datatype Outcome = Got(call: nat, reply: Reply) | TimedOut(call: nat) | NotConnected(call: nat)

  /**
   * Where a thread is: it has bumped the counter, has read it as the id of its call, has put its message
   * into the slot that all callers share, or has sent what was in the slot and polls for its reply.
   */
  datatype Phase = Idle | Bumped | Holding(call: nat) | Loaded(call: nat) | Polling(call: nat, deadline: int)

  /** A call's own send, and the call whose message was in the slot then. */
  datatype Wire = Wire(caller: nat, message: nat)

  /**
   * calls holds the id of each call made so far; slot the call whose message was stored last; wire what
   * was handed to the socket, in order; sent the calls whose messages reached the server; rxR the replies
   * not yet picked up; outcomes what the calls returned, in order.
   */
  datatype State = State(
    jsonId: int,
    connected: bool,
    phases: map<int, Phase>,
    calls: seq<int>,
    slot: Option<nat>,
    wire: seq<Wire>,
    sent: set<nat>,
    rxR: map<int, Reply>,
    outcomes: seq<Outcome>,
    replies: nat)

  datatype Action =
    | Connect(up: bool)
    | Bump(thread: int)
    | Read(thread: int)
    | Load(thread: int)
    | Send(thread: int, works: bool, deadline: int)
    | Poll(thread: int, now: int, closed: bool)
    | Answer(call: nat, body: string)
    | AnswerWithoutId(call: nat)

  function PhaseOf(s: State, t: int): Phase {
    if t in s.phases then s.phases[t] else Idle
  }

  function Start(seed: int): State {
    State(seed, false, map[], [], None, [], {}, map[], [], 0)
  }

  function Return(s: State, t: int, o: Outcome): State {
    s.(phases := s.phases[t := Idle], outcomes := s.outcomes + [o])
  }

  /** The shared counter is read as an argument of the call. */
  function DoRead(s: State, t: int): State {
    s.(calls := s.calls + [s.jsonId], phases := s.phases[t := Holding(|s.calls|)])
  }

  /** The message is stored in the shared slot, if there is a connection. */
  function DoLoad(s: State, t: int, call: nat): State {
    if !s.connected then Return(s, t, NotConnected(call))
    else s.(slot := Some(call), phases := s.phases[t := Loaded(call)])
  }

  /** What is in the slot is sent, whoever has stored it. */
  function DoSend(s: State, t: int, call: nat, works: bool, deadline: int): State {
    var what := match s.slot case Some(c) => c case None => call;
    s.(phases := s.phases[t := Polling(call, deadline)], wire := s.wire + [Wire(call, what)],
       sent := if works then s.sent + {what} else s.sent)
  }

  /** One turn of the waiting loop; the clock is looked at before the table. */
  function DoPoll(s: State, t: int, call: nat, deadline: int, now: int, closed: bool): State {
    if now >= deadline then Return(s, t, TimedOut(call))
    else if call < |s.calls| && s.calls[call] in s.rxR then
      var id := s.calls[call];
      Return(s.(rxR := s.rxR - {id}), t, Got(call, s.rxR[id]))
    else if closed then Return(s, t, TimedOut(call))
    else s
  }

  function Do(s: State, a: Action): State {
    match a
    case Connect(up) => s.(connected := up)
    case Bump(t) => if PhaseOf(s, t) == Idle then s.(jsonId := s.jsonId + 1, phases := s.phases[t := Bumped]) else s
    case Read(t) => if PhaseOf(s, t) == Bumped then DoRead(s, t) else s
    case Load(t) => if PhaseOf(s, t).Holding? then DoLoad(s, t, PhaseOf(s, t).call) else s
    case Send(t, works, deadline) => if PhaseOf(s, t).Loaded? then DoSend(s, t, PhaseOf(s, t).call, works, deadline) else s
    case Poll(t, now, closed) =>
      (match PhaseOf(s, t)
       case Polling(call, deadline) => DoPoll(s, t, call, deadline, now, closed)
       case _ => s)
    case Answer(n, body) =>
      if n in s.sent && n < |s.calls| then
        s.(rxR := s.rxR[s.calls[n] := Reply(s.calls[n], body, n, s.replies)], replies := s.replies + 1)
      else s
    case AnswerWithoutId(_) => s
  }

  function Run(s: State, actions: seq<Action>): State
    decreases |actions|
  {
    if actions == [] then s else Run(Do(s, actions[0]), actions[1..])
  }

  // ---------- What holds with any number of callers ----------

  predicate FiledUnderItsId(s: State, id: int, r: Reply) {
    r.id == id && r.call < |s.calls| && s.calls[r.call] == id && r.serial < s.replies
  }

  predicate OutcomeOk(s: State, o: Outcome) {
    o.call < |s.calls|
    && (o.Got? ==> o.reply.id == s.calls[o.call] && FiledUnderItsId(s, o.reply.id, o.reply))
  }

  /** Nothing that is still in the table has been returned. */
  predicate Unreturned(s: State, serial: nat) {
    forall i :: 0 <= i < |s.outcomes| && s.outcomes[i].Got? ==> s.outcomes[i].reply.serial != serial
  }

  ghost predicate TableInv(s: State) {
    && (forall id :: id in s.rxR ==> FiledUnderItsId(s, id, s.rxR[id]) && Unreturned(s, s.rxR[id].serial))
    && (forall a, b :: a in s.rxR && b in s.rxR && a != b ==> s.rxR[a].serial != s.rxR[b].serial)
  }

  ghost predicate OutcomesInv(s: State) {
    && (forall i :: 0 <= i < |s.outcomes| ==> OutcomeOk(s, s.outcomes[i]))
    && (forall i, j :: 0 <= i < j < |s.outcomes| && s.outcomes[i].Got? && s.outcomes[j].Got?
          ==> s.outcomes[i].reply.serial != s.outcomes[j].reply.serial)
  }

  predicate Calling(p: Phase) {
    p.Holding? || p.Loaded? || p.Polling?
  }

  /** A call in progress has not returned and is nobody else's. */
  predicate Open(s: State, t: int, call: nat) {
    && call < |s.calls|
    && (forall i :: 0 <= i < |s.outcomes| ==> s.outcomes[i].call != call)
    && (forall u :: u in s.phases && u != t && Calling(s.phases[u]) ==> s.phases[u].call != call)
  }

  ghost predicate CallsInv(s: State) {
    && (forall t :: t in s.phases && Calling(s.phases[t]) ==> Open(s, t, s.phases[t].call))
    && (s.slot.Some? ==> s.slot.value < |s.calls|)
    && (forall i, j :: 0 <= i < j < |s.outcomes| ==> s.outcomes[i].call != s.outcomes[j].call)
    && (forall i, j :: 0 <= i <= j < |s.calls| ==> s.calls[i] <= s.calls[j] <= s.jsonId)
  }

  ghost predicate Inv(s: State) {
    TableInv(s) && OutcomesInv(s) && CallsInv(s)
  }

  /** A thread goes on with its call. */
  lemma MoveKeepsCalls(s: State, t: int, p: Phase)
    requires CallsInv(s) && Calling(PhaseOf(s, t)) && Calling(p) && p.call == PhaseOf(s, t).call
    ensures CallsInv(s.(phases := s.phases[t := p], slot := Some(p.call))) && CallsInv(s.(phases := s.phases[t := p]))
  {
    var r := s.(phases := s.phases[t := p]);
    assert Open(s, t, p.call);
    forall u | u in r.phases && Calling(r.phases[u])
      ensures Open(r, u, r.phases[u].call)
    {
      assert u in s.phases && Calling(s.phases[u]) && Open(s, u, s.phases[u].call);
    }
  }

  lemma ReadKeepsInv(s: State, t: int)
    requires Inv(s) && PhaseOf(s, t) == Bumped
    ensures Inv(DoRead(s, t))
  {
    var r := DoRead(s, t);
    assert forall i :: 0 <= i < |s.outcomes| ==> OutcomeOk(s, s.outcomes[i]) && OutcomeOk(r, s.outcomes[i]);
    forall u | u in r.phases && Calling(r.phases[u])
      ensures Open(r, u, r.phases[u].call)
    {
      if u in s.phases && Calling(s.phases[u]) {
        assert Open(s, u, s.phases[u].call);
      }
    }
    assert TableInv(r);
    assert OutcomesInv(r);
  }

  lemma LoadKeepsInv(s: State, t: int)
    requires Inv(s) && PhaseOf(s, t).Holding?
    ensures Inv(DoLoad(s, t, PhaseOf(s, t).call))
  {
    var call := PhaseOf(s, t).call;
    if s.connected {
      var r := DoLoad(s, t, call);
      MoveKeepsCalls(s, t, Loaded(call));
      SameRest(s, r);
    } else {
      EndKeepsInv(s, t, NotConnected(call));
    }
  }

  lemma SendKeepsInv(s: State, t: int, works: bool, deadline: int)
    requires Inv(s) && PhaseOf(s, t).Loaded?
    ensures Inv(DoSend(s, t, PhaseOf(s, t).call, works, deadline))
  {
    var call := PhaseOf(s, t).call;
    MoveKeepsCalls(s, t, Polling(call, deadline));
    SameRest(s, DoSend(s, t, call, works, deadline));
  }

  /** The table and the outcomes do not depend on where the threads are. */
  lemma SameRest(s: State, r: State)
    requires TableInv(s) && OutcomesInv(s)
    requires r.rxR == s.rxR && r.outcomes == s.outcomes && r.calls == s.calls && r.replies == s.replies
    ensures TableInv(r) && OutcomesInv(r)
  {
    assert forall i :: 0 <= i < |s.outcomes| ==> OutcomeOk(s, s.outcomes[i]) && OutcomeOk(r, s.outcomes[i]);
    assert forall id :: id in s.rxR ==> FiledUnderItsId(s, id, s.rxR[id]) && Unreturned(s, s.rxR[id].serial);
  }

  lemma ReturnKeepsCalls(s: State, t: int, o: Outcome)
    requires CallsInv(s) && Calling(PhaseOf(s, t)) && o.call == PhaseOf(s, t).call
    ensures CallsInv(Return(s, t, o))
  {
    var r := Return(s, t, o);
    forall u | u in r.phases && Calling(r.phases[u])
      ensures Open(r, u, r.phases[u].call)
    {
      assert u in s.phases && Calling(s.phases[u]) && Open(s, u, s.phases[u].call);
    }
    assert Open(s, t, o.call);
  }

  /** A call ends without a reply. */
  lemma EndKeepsInv(s: State, t: int, o: Outcome)
    requires Inv(s) && Calling(PhaseOf(s, t)) && o.call == PhaseOf(s, t).call && !o.Got?
    ensures Inv(Return(s, t, o))
  {
    var r := Return(s, t, o);
    ReturnKeepsCalls(s, t, o);
    assert Open(s, t, o.call);
    assert OutcomeOk(r, o);
    assert forall i :: 0 <= i < |s.outcomes| ==> OutcomeOk(s, s.outcomes[i]) && OutcomeOk(r, s.outcomes[i]);
    assert OutcomesInv(r);
    assert TableInv(r);
  }

  /** Taking a reply out of the table and returning it. */
  function Take(s: State, t: int, call: nat, id: int): State
    requires id in s.rxR
  {
    Return(s.(rxR := s.rxR - {id}), t, Got(call, s.rxR[id]))
  }

  lemma TakeKeepsTable(s: State, t: int, call: nat, id: int)
    requires TableInv(s) && id in s.rxR
    ensures TableInv(Take(s, t, call, id))
  {
    var r := Take(s, t, call, id);
    forall k | k in r.rxR
      ensures FiledUnderItsId(r, k, r.rxR[k]) && Unreturned(r, r.rxR[k].serial)
    {
      assert FiledUnderItsId(s, k, s.rxR[k]) && Unreturned(s, s.rxR[k].serial);
      assert s.rxR[k].serial != s.rxR[id].serial;
    }
  }

  lemma TakeKeepsOutcomes(s: State, t: int, call: nat, id: int)
    requires TableInv(s) && OutcomesInv(s) && id in s.rxR && call < |s.calls| && s.calls[call] == id
    ensures OutcomesInv(Take(s, t, call, id))
  {
    var r := Take(s, t, call, id);
    assert FiledUnderItsId(s, id, s.rxR[id]) && Unreturned(s, s.rxR[id].serial);
    assert OutcomeOk(r, Got(call, s.rxR[id]));
    assert forall i :: 0 <= i < |s.outcomes| ==> OutcomeOk(s, s.outcomes[i]) && OutcomeOk(r, s.outcomes[i]);
  }

  lemma PollKeepsInv(s: State, t: int, now: int, closed: bool)
    requires Inv(s) && PhaseOf(s, t).Polling?
    ensures Inv(DoPoll(s, t, PhaseOf(s, t).call, PhaseOf(s, t).deadline, now, closed))
  {
    var p := PhaseOf(s, t);
    assert Open(s, t, p.call);
    var id := s.calls[p.call];
    EndKeepsInv(s, t, TimedOut(p.call));
    if id in s.rxR {
      TakeKeepsTable(s, t, p.call, id);
      TakeKeepsOutcomes(s, t, p.call, id);
      ReturnKeepsCalls(s.(rxR := s.rxR - {id}), t, Got(p.call, s.rxR[id]));
    }
  }

  lemma AnswerKeepsInv(s: State, n: nat, body: string)
    requires Inv(s)
    ensures Inv(Do(s, Answer(n, body)))
  {
    var r := Do(s, Answer(n, body));
    assert forall i :: 0 <= i < |s.outcomes| ==> OutcomeOk(s, s.outcomes[i]) && OutcomeOk(r, s.outcomes[i]);
    assert TableInv(r);
  }

  lemma DoKeepsInv(s: State, a: Action)
    requires Inv(s)
    ensures Inv(Do(s, a))
  {
    match a
    case Read(t) =>
      if PhaseOf(s, t) == Bumped {
        ReadKeepsInv(s, t);
      }
    case Load(t) =>
      if PhaseOf(s, t).Holding? {
        LoadKeepsInv(s, t);
      }
    case Send(t, works, deadline) =>
      if PhaseOf(s, t).Loaded? {
        SendKeepsInv(s, t, works, deadline);
      }
    case Poll(t, now, closed) =>
      if PhaseOf(s, t).Polling? {
        PollKeepsInv(s, t, now, closed);
      }
    case Answer(n, body) => AnswerKeepsInv(s, n, body);
    case _ =>
  }

  lemma {:induction false} RunKeepsInv(s: State, actions: seq<Action>)
    requires Inv(s)
    ensures Inv(Run(s, actions))
    decreases |actions|
  {
    if actions != [] {
      DoKeepsInv(s, actions[0]);
      RunKeepsInv(Do(s, actions[0]), actions[1..]);
    }
  }

  /**
   * Over every interleaving and for any number of callers: each call returns at most once, no reply is
   * returned twice, and every reply carries the id of the call that it is returned to.
   */
  lemma RepliesMatchById(seed: int, actions: seq<Action>)
    ensures var s := Run(Start(seed), actions);
            && (forall i :: 0 <= i < |s.outcomes| ==>
                  var o := s.outcomes[i];
                  o.call < |s.calls| && (o.Got? ==> o.reply.id == s.calls[o.call]))
            && (forall i, j :: 0 <= i < j < |s.outcomes| ==> s.outcomes[i].call != s.outcomes[j].call)
            && (forall i, j :: 0 <= i < j < |s.outcomes| && s.outcomes[i].Got? && s.outcomes[j].Got?
                  ==> s.outcomes[i].reply.serial != s.outcomes[j].reply.serial)
  {
    RunKeepsInv(Start(seed), actions);
    var s := Run(Start(seed), actions);
    assert forall i :: 0 <= i < |s.outcomes| ==> OutcomeOk(s, s.outcomes[i]);
  }

  // ---------- Whose reply it is ----------

  /** No thread bumps the counter while another one stands between its bump and its read. */
  predicate StepOk(s: State, a: Action) {
    a.Bump? && PhaseOf(s, a.thread) == Idle ==> forall u :: u in s.phases ==> s.phases[u] != Bumped
  }

  predicate NoOverlap(s: State, actions: seq<Action>)
    decreases |actions|
  {
    actions == [] || (StepOk(s, actions[0]) && NoOverlap(Do(s, actions[0]), actions[1..]))
  }

  ghost predicate Increasing(ids: seq<int>) {
    forall i, j :: 0 <= i < j < |ids| ==> ids[i] < ids[j]
  }

  /** All ids are different, and the counter is ahead of them until the one thread that bumped it has read it. */
  ghost predicate IdsAhead(s: State) {
    && Increasing(s.calls)
    && (forall i :: 0 <= i < |s.calls| ==> s.calls[i] <= s.jsonId)
    && (forall u, i :: u in s.phases && s.phases[u] == Bumped && 0 <= i < |s.calls| ==> s.calls[i] < s.jsonId)
    && (forall u, v :: u in s.phases && v in s.phases && s.phases[u] == Bumped == s.phases[v] ==> u == v)
  }

  lemma DoKeepsIdsAhead(s: State, a: Action)
    requires IdsAhead(s) && StepOk(s, a)
    ensures IdsAhead(Do(s, a))
  {
  }

  lemma {:induction false} RunKeepsIdsAhead(s: State, actions: seq<Action>)
    requires IdsAhead(s) && NoOverlap(s, actions)
    ensures IdsAhead(Run(s, actions))
    decreases |actions|
  {
    if actions != [] {
      DoKeepsIdsAhead(s, actions[0]);
      RunKeepsIdsAhead(Do(s, actions[0]), actions[1..]);
    }
  }

  /** Outcome i hands a call the answer to another one. */
  predicate ForeignAt(s: State, i: nat) {
    i < |s.outcomes| && s.outcomes[i].Got? && s.outcomes[i].reply.call != s.outcomes[i].call
  }

  /**
   * Any number of callers: if no thread bumps the counter while another is between its bump and its read,
   * ids strictly increase and every reply is returned to the call that it answers.
   */
  lemma OwnReplyWithoutOverlap(seed: int, actions: seq<Action>)
    requires NoOverlap(Start(seed), actions)
    ensures var s := Run(Start(seed), actions);
            Increasing(s.calls) && forall i :: !ForeignAt(s, i)
  {
    RunKeepsIdsAhead(Start(seed), actions);
    RunKeepsInv(Start(seed), actions);
    var s := Run(Start(seed), actions);
    assert forall i :: 0 <= i < |s.outcomes| ==> OutcomeOk(s, s.outcomes[i]);
  }

  /** Whatever a run without overlap reaches is good for what follows. */
  lemma ReachedWithoutOverlap(seed: int, actions: seq<Action>)
    requires NoOverlap(Start(seed), actions)
    ensures Inv(Run(Start(seed), actions)) && IdsAhead(Run(Start(seed), actions))
  {
    RunKeepsInv(Start(seed), actions);
    RunKeepsIdsAhead(Start(seed), actions);
  }

  predicate OneCaller(actions: seq<Action>, t: int) {
    forall i :: 0 <= i < |actions| ==>
      match actions[i]
      case Bump(u) => u == t
      case Read(u) => u == t
      case Load(u) => u == t
      case Send(u, _, _) => u == t
      case Poll(u, _, _) => u == t
      case _ => true
  }

  lemma {:induction false} OneCallerDoesNotOverlap(s: State, t: int, actions: seq<Action>)
    requires OneCaller(actions, t) && forall u :: u in s.phases ==> u == t
    ensures NoOverlap(s, actions)
    decreases |actions|
  {
    if actions != [] {
      assert OneCaller([actions[0]], t) && OneCaller(actions[1..], t);
      assert actions[0] == [actions[0]][0];
      OneCallerDoesNotOverlap(Do(s, actions[0]), t, actions[1..]);
    }
  }

  /** With one caller the ids strictly increase, so a reply is returned only to the call that it answers. */
  lemma OwnReplyOnly(seed: int, t: int, actions: seq<Action>)
    requires OneCaller(actions, t)
    ensures var s := Run(Start(seed), actions);
            && (forall i, j :: 0 <= i < j < |s.calls| ==> s.calls[i] < s.calls[j])
            && (forall i :: 0 <= i < |s.outcomes| && s.outcomes[i].Got? ==> s.outcomes[i].reply.call == s.outcomes[i].call)
  {
    OneCallerDoesNotOverlap(Start(seed), t, actions);
    OwnReplyWithoutOverlap(seed, actions);
    var s := Run(Start(seed), actions);
    forall i | 0 <= i < |s.outcomes| && s.outcomes[i].Got?
      ensures s.outcomes[i].reply.call == s.outcomes[i].call
    {
      assert !ForeignAt(s, i);
    }
  }

  // ---------- When callers overlap ----------

  /** Two threads have bumped the counter and not read it yet. */
  ghost predicate TwoBumped(s: State, u: int, v: int) {
    u != v && PhaseOf(s, u) == Bumped && PhaseOf(s, v) == Bumped
  }

  /** A caller stands before its read, and two do if the counter has moved since the last read. */
  ghost predicate TooFewIds(s: State) {
    && (exists u :: PhaseOf(s, u) == Bumped)
    && ((|s.calls| > 0 && s.calls[|s.calls| - 1] == s.jsonId) || exists u, v :: TwoBumped(s, u, v))
  }

  lemma ReadTooFew(s: State, t: int)
    requires TooFewIds(s) && PhaseOf(s, t) == Bumped && Increasing(DoRead(s, t).calls)
    ensures TooFewIds(DoRead(s, t))
  {
    var (m, n) := (DoRead(s, t), |s.calls|);
    assert m.calls[n] == s.jsonId && (n > 0 ==> m.calls[n - 1] < m.calls[n]);
    var u, v :| TwoBumped(s, u, v);
    assert PhaseOf(m, if u == t then v else u) == Bumped;
  }

  lemma OtherStepTooFew(s: State, a: Action)
    requires TooFewIds(s) && !(a.Bump? && PhaseOf(s, a.thread) == Idle) && !(a.Read? && PhaseOf(s, a.thread) == Bumped)
    ensures TooFewIds(Do(s, a))
  {
    var m := Do(s, a);
    var u :| PhaseOf(s, u) == Bumped;
    assert PhaseOf(m, u) == Bumped;
    if u, v :| TwoBumped(s, u, v) {
      assert TwoBumped(m, u, v);
    }
  }

  lemma TooFewIdsStays(s: State, a: Action)
    requires TooFewIds(s) && Increasing(Do(s, a).calls)
    ensures TooFewIds(Do(s, a))
  {
    if a.Bump? && PhaseOf(s, a.thread) == Idle {
      var u :| PhaseOf(s, u) == Bumped;
      assert TwoBumped(Do(s, a), u, a.thread);
    } else if a.Read? && PhaseOf(s, a.thread) == Bumped {
      ReadTooFew(s, a.thread);
    } else {
      OtherStepTooFew(s, a);
    }
  }

  lemma {:induction false} TooFewIdsToTheEnd(s: State, actions: seq<Action>)
    requires TooFewIds(s) && Inv(s) && Increasing(Run(s, actions).calls)
    ensures TooFewIds(Run(s, actions))
    decreases |actions|
  {
    if actions != [] {
      CallsGrow(Do(s, actions[0]), actions[1..]);
      TooFewIdsStays(s, actions[0]);
      DoKeepsInv(s, actions[0]);
      TooFewIdsToTheEnd(Do(s, actions[0]), actions[1..]);
    }
  }

  lemma {:induction false} CallsGrow(s: State, actions: seq<Action>)
    ensures s.calls <= Run(s, actions).calls
    decreases |actions|
  {
    if actions != [] {
      CallsGrow(Do(s, actions[0]), actions[1..]);
    }
  }

  lemma {:induction false} OverlapRunsOut(s: State, actions: seq<Action>)
    requires Inv(s) && IdsAhead(s) && !NoOverlap(s, actions) && Increasing(Run(s, actions).calls)
    ensures TooFewIds(Run(s, actions))
    decreases |actions|
  {
    var m := Do(s, actions[0]);
    DoKeepsInv(s, actions[0]);
    if StepOk(s, actions[0]) {
      DoKeepsIdsAhead(s, actions[0]);
      OverlapRunsOut(m, actions[1..]);
    } else {
      var u :| u in s.phases && s.phases[u] == Bumped;
      assert TwoBumped(m, u, actions[0].thread);
      TooFewIdsToTheEnd(m, actions[1..]);
    }
  }

  /** In a run that ends with no caller between its bump and its read, the ids are all different exactly when no two callers overlapped. */
  lemma IdsDifferExactlyWhen(seed: int, actions: seq<Action>)
    requires forall u :: u in Run(Start(seed), actions).phases ==> Run(Start(seed), actions).phases[u] != Bumped
    ensures Increasing(Run(Start(seed), actions).calls) <==> NoOverlap(Start(seed), actions)
  {
    if NoOverlap(Start(seed), actions) {
      OwnReplyWithoutOverlap(seed, actions);
    } else if Increasing(Run(Start(seed), actions).calls) {
      OverlapRunsOut(Start(seed), actions);
    }
  }

  /** The call has returned. */
  predicate Over(s: State, call: nat) {
    call < |s.calls| && exists i :: 0 <= i < |s.outcomes| && s.outcomes[i].call == call
  }

  predicate NoneGets(outcomes: seq<Outcome>, id: int) {
    forall i :: 0 <= i < |outcomes| && outcomes[i].Got? ==> outcomes[i].reply.id != id
  }

  /** What a finished call sees of the steps from s to r. */
  predicate LeavesLate(s: State, r: State, call: nat)
    requires call < |s.calls|
  {
    && s.calls <= r.calls && s.outcomes <= r.outcomes
    && (s.calls[call] in s.rxR ==> s.calls[call] in r.rxR)
    && NoneGets(r.outcomes[|s.outcomes|..], s.calls[call])
  }

  lemma LeavesLateTwice(s: State, m: State, r: State, call: nat)
    requires call < |s.calls| && LeavesLate(s, m, call) && LeavesLate(m, r, call)
    ensures LeavesLate(s, r, call)
  {
    assert r.outcomes[|s.outcomes|..] == m.outcomes[|s.outcomes|..] + r.outcomes[|m.outcomes|..];
  }

  /**
   * A late reply: once a call is over, a reply under its id is never picked up by a later call, unless
   * callers overlap. It stays in the table for good.
   */
  lemma {:induction false} LateReplyNeverSurfaces(s: State, call: nat, actions: seq<Action>)
    requires Inv(s) && IdsAhead(s) && NoOverlap(s, actions) && Over(s, call)
    ensures LeavesLate(s, Run(s, actions), call)
    decreases |actions|
  {
    if actions != [] {
      OneStep(s, call, actions);
      LateReplyNeverSurfaces(Do(s, actions[0]), call, actions[1..]);
      LeavesLateTwice(s, Do(s, actions[0]), Run(s, actions), call);
    }
  }

  lemma OneStep(s: State, call: nat, actions: seq<Action>)
    requires Inv(s) && IdsAhead(s) && actions != [] && NoOverlap(s, actions) && Over(s, call)
    ensures var m := Do(s, actions[0]);
            Inv(m) && IdsAhead(m) && Over(m, call) && LeavesLate(s, m, call)
  {
    DoKeepsInv(s, actions[0]);
    DoKeepsIdsAhead(s, actions[0]);
    OverStays(s, call, actions[0]);
  }

  lemma OutcomesGrow(s: State, a: Action)
    ensures s.outcomes <= Do(s, a).outcomes && s.calls <= Do(s, a).calls
  {
  }

  lemma OverStays(s: State, call: nat, a: Action)
    requires Inv(s) && IdsAhead(s) && Over(s, call)
    ensures Over(Do(s, a), call) && LeavesLate(s, Do(s, a), call)
  {
    var i :| 0 <= i < |s.outcomes| && s.outcomes[i].call == call;
    OutcomesGrow(s, a);
    assert Do(s, a).outcomes[i].call == call;
    if a.Poll? && PhaseOf(s, a.thread).Polling? {
      PollLeavesLate(s, a.thread, call, a.now, a.closed);
    }
  }

  lemma PollLeavesLate(s: State, t: int, call: nat, now: int, closed: bool)
    requires Inv(s) && IdsAhead(s) && Over(s, call) && PhaseOf(s, t).Polling?
    ensures LeavesLate(s, Do(s, Poll(t, now, closed)), call)
  {
    var p := PhaseOf(s, t);
    assert Open(s, t, p.call);
    assert s.calls[p.call] != s.calls[call];
  }

  /** The caller is polling for a call whose answer is in the table. */
  ghost predicate Answered(s: State, t: int, call: nat) {
    && Inv(s) && IdsAhead(s) && PhaseOf(s, t).Polling? && PhaseOf(s, t).call == call
    && call < |s.calls| && s.calls[call] in s.rxR && s.rxR[s.calls[call]].call == call
  }

  predicate NoPollBy(t: int, actions: seq<Action>) {
    forall i :: 0 <= i < |actions| && actions[i].Poll? ==> actions[i].thread != t
  }

  lemma OthersPoll(s: State, t: int, call: nat, u: int, now: int, closed: bool)
    requires Answered(s, t, call) && u != t && PhaseOf(s, u).Polling?
    ensures var m := Do(s, Poll(u, now, closed));
            PhaseOf(m, t) == PhaseOf(s, t) && m.calls == s.calls
            && m.calls[call] in m.rxR && m.rxR[m.calls[call]] == s.rxR[m.calls[call]]
  {
    assert Open(s, t, call) && Open(s, u, PhaseOf(s, u).call);
    assert s.calls[PhaseOf(s, u).call] != s.calls[call];
  }

  lemma AnswerStays(s: State, t: int, call: nat, a: Action)
    requires Answered(s, t, call) && StepOk(s, a) && (a.Poll? ==> a.thread != t)
    ensures Answered(Do(s, a), t, call) && PhaseOf(Do(s, a), t) == PhaseOf(s, t)
  {
    DoKeepsInv(s, a);
    DoKeepsIdsAhead(s, a);
    if a.Answer? && a.call in s.sent && a.call < |s.calls| && s.calls[a.call] == s.calls[call] {
      assert a.call == call;
    } else if a.Poll? && PhaseOf(s, a.thread).Polling? {
      OthersPoll(s, t, call, a.thread, a.now, a.closed);
    }
  }

  lemma {:induction false} AnswerWaits(s: State, t: int, call: nat, actions: seq<Action>)
    requires Answered(s, t, call) && NoOverlap(s, actions) && NoPollBy(t, actions)
    ensures Answered(Run(s, actions), t, call) && PhaseOf(Run(s, actions), t) == PhaseOf(s, t)
    decreases |actions|
  {
    if actions != [] {
      AnswerStays(s, t, call, actions[0]);
      AnswerWaits(Do(s, actions[0]), t, call, actions[1..]);
    }
  }

  /**
   * An answer in time is not lost: once the server has answered the call that a thread is polling for,
   * its next poll returns an answer to that call if it comes before the deadline, whatever the other
   * threads do meanwhile without overlapping.
   */
  lemma AnswerInTimeIsReturned(s: State, t: int, body: string, others: seq<Action>, now: int, closed: bool)
    requires Inv(s) && IdsAhead(s) && PhaseOf(s, t).Polling? && PhaseOf(s, t).call in s.sent
    requires NoOverlap(Do(s, Answer(PhaseOf(s, t).call, body)), others) && NoPollBy(t, others) && now < PhaseOf(s, t).deadline
    ensures var call := PhaseOf(s, t).call;
            var m := Run(Do(s, Answer(call, body)), others);
            var r := Do(m, Poll(t, now, closed));
            |r.outcomes| == |m.outcomes| + 1 && r.outcomes[|m.outcomes|].Got?
            && r.outcomes[|m.outcomes|].call == call == r.outcomes[|m.outcomes|].reply.call
  {
    var call := PhaseOf(s, t).call;
    var a := Answer(call, body);
    assert Open(s, t, call);
    DoKeepsInv(s, a);
    DoKeepsIdsAhead(s, a);
    AnswerWaits(Do(s, a), t, call, others);
  }

  // ---------- How a call begins ----------

  /** The id of a call is what the counter shows when it is read, after the thread's own bump of one. */
  lemma IdIsRead(s: State, t: int)
    ensures PhaseOf(s, t) == Idle ==>
              var m := Do(s, Bump(t)); m.jsonId == s.jsonId + 1 && m.calls == s.calls && PhaseOf(m, t) == Bumped
    ensures PhaseOf(s, t) == Bumped ==>
              var m := Do(s, Read(t)); m.calls == s.calls + [s.jsonId] && m.jsonId == s.jsonId && PhaseOf(m, t) == Holding(|s.calls|)
  {
  }

  /** Without a connection a call is over at once, and nothing is stored or sent; with one its message goes to the slot. */
  lemma LoadMeans(s: State, t: int)
    requires PhaseOf(s, t).Holding?
    ensures var (m, call) := (Do(s, Load(t)), PhaseOf(s, t).call);
            && m.wire == s.wire && m.sent == s.sent && m.rxR == s.rxR
            && (if s.connected then PhaseOf(m, t) == Loaded(call) && m.slot == Some(call) && m.outcomes == s.outcomes
                else PhaseOf(m, t) == Idle && m.slot == s.slot && m.outcomes == s.outcomes + [NotConnected(call)])
  {
  }

  /** What is in the slot goes out, and reaches the server if sending works; then the call waits. */
  lemma SendMeans(s: State, t: int, works: bool, deadline: int)
    requires PhaseOf(s, t).Loaded? && s.slot.Some?
    ensures var (m, call) := (Do(s, Send(t, works, deadline)), PhaseOf(s, t).call);
            && m.wire == s.wire + [Wire(call, s.slot.value)] && PhaseOf(m, t) == Polling(call, deadline)
            && (forall c :: c in m.sent <==> c in s.sent || (works && c == s.slot.value))
            && m.outcomes == s.outcomes && m.slot == s.slot
  {
  }

  /** An answer to a request that has reached the server goes to the table under that request's id; others never come. */
  lemma AnswerMeans(s: State, call: nat, body: string)
    requires call < |s.calls|
    ensures var m := Do(s, Answer(call, body));
            if call in s.sent then
              && s.calls[call] in m.rxR && m.rxR[s.calls[call]].body == body && m.rxR[s.calls[call]].call == call
              && m.rxR - {s.calls[call]} == s.rxR - {s.calls[call]} && m.outcomes == s.outcomes
            else m == s
  {
  }

  // ---------- How a call ends ----------

  /** A poll of thread t that ends its call: past the deadline, with the reply in the table, or on a closed socket. */
  predicate EndsNow(s: State, t: int, a: Action) {
    && a.Poll? && a.thread == t && PhaseOf(s, t).Polling? && PhaseOf(s, t).call < |s.calls|
    && (a.now >= PhaseOf(s, t).deadline || a.closed || s.calls[PhaseOf(s, t).call] in s.rxR)
  }

  predicate SomePollEnds(s: State, t: int, actions: seq<Action>)
    decreases |actions|
  {
    actions != [] && (EndsNow(s, t, actions[0]) || SomePollEnds(Do(s, actions[0]), t, actions[1..]))
  }

  /** The first poll that ends the call comes before the deadline and finds its reply. */
  predicate EndsWithReply(s: State, t: int, actions: seq<Action>)
    decreases |actions|
  {
    actions != []
    && if EndsNow(s, t, actions[0]) then
         actions[0].now < PhaseOf(s, t).deadline && s.calls[PhaseOf(s, t).call] in s.rxR
       else EndsWithReply(Do(s, actions[0]), t, actions[1..])
  }

  predicate Replied(s: State, call: nat) {
    exists i :: 0 <= i < |s.outcomes| && s.outcomes[i].Got? && s.outcomes[i].call == call
  }

  /** One poll; the clock is looked at first, so a reply in the table is left there once the deadline has come. */
  lemma PickedUpExactlyWhen(s: State, t: int, now: int, closed: bool)
    requires Inv(s) && PhaseOf(s, t).Polling?
    ensures var m := Do(s, Poll(t, now, closed));
            var p := PhaseOf(s, t);
            && (|m.outcomes| > |s.outcomes| <==> now >= p.deadline || s.calls[p.call] in s.rxR || closed)
            && (|m.outcomes| > |s.outcomes| ==>
                  m.outcomes == s.outcomes + [m.outcomes[|s.outcomes|]] && m.outcomes[|s.outcomes|].call == p.call
                  && (m.outcomes[|s.outcomes|].Got? <==> now < p.deadline && s.calls[p.call] in s.rxR)
                  && (m.outcomes[|s.outcomes|].Got? ==>
                        m.outcomes[|s.outcomes|].reply == s.rxR[s.calls[p.call]] && s.calls[p.call] !in m.rxR)
                  && (!m.outcomes[|s.outcomes|].Got? ==> m.outcomes[|s.outcomes|].TimedOut?))
            && forall id :: id in s.rxR && id !in m.rxR ==> id == s.calls[p.call] && now < p.deadline
  {
    assert Open(s, t, PhaseOf(s, t).call);
  }

  /** The two ways in which a call can have ended are final. */
  lemma {:induction false} EndIsFinal(s: State, call: nat, actions: seq<Action>)
    requires Inv(s) && Over(s, call)
    ensures Over(Run(s, actions), call) && (Replied(Run(s, actions), call) <==> Replied(s, call))
    decreases |actions|
  {
    if actions != [] {
      var m := Do(s, actions[0]);
      DoKeepsInv(s, actions[0]);
      OutcomesGrow(s, actions[0]);
      var i :| 0 <= i < |s.outcomes| && s.outcomes[i].call == call;
      assert m.outcomes[i].call == call;
      if Replied(m, call) {
        var j :| 0 <= j < |m.outcomes| && m.outcomes[j].Got? && m.outcomes[j].call == call;
        assert i == j;
      }
      if Replied(s, call) {
        var j :| 0 <= j < |s.outcomes| && s.outcomes[j].Got? && s.outcomes[j].call == call;
        assert m.outcomes[j] == s.outcomes[j];
      }
      EndIsFinal(m, call, actions[1..]);
    }
  }

  lemma OneTurn(s: State, t: int, a: Action)
    requires Inv(s) && PhaseOf(s, t).Polling?
    ensures var call := PhaseOf(s, t).call;
            var m := Do(s, a);
            && !Over(s, call)
            && (EndsNow(s, t, a) <==> Over(m, call))
            && (!EndsNow(s, t, a) ==> PhaseOf(m, t) == PhaseOf(s, t))
            && (EndsNow(s, t, a) ==> (Replied(m, call) <==> a.now < PhaseOf(s, t).deadline && s.calls[call] in s.rxR))
  {
    var call := PhaseOf(s, t).call;
    var m := Do(s, a);
    assert Open(s, t, call);
    OutcomesGrow(s, a);
    if EndsNow(s, t, a) {
      PickedUpExactlyWhen(s, t, a.now, a.closed);
      assert m.outcomes[|s.outcomes|].call == call;
    }
  }

  /**
   * However the other threads and the reader interleave, a call is over exactly when some poll of its
   * thread ends it, at the first one at or after the deadline at the latest; and it returns a reply exactly
   * when that poll came before the deadline and found one.
   */
  lemma {:induction false} CallEndsExactlyWhen(s: State, t: int, actions: seq<Action>)
    requires Inv(s) && PhaseOf(s, t).Polling?
    ensures var call := PhaseOf(s, t).call;
            && (Over(Run(s, actions), call) <==> SomePollEnds(s, t, actions))
            && (Replied(Run(s, actions), call) <==> EndsWithReply(s, t, actions))
    decreases |actions|
  {
    var call := PhaseOf(s, t).call;
    if actions != [] {
      OneTurn(s, t, actions[0]);
      DoKeepsInv(s, actions[0]);
      if EndsNow(s, t, actions[0]) {
        EndIsFinal(Do(s, actions[0]), call, actions[1..]);
      } else {
        CallEndsExactlyWhen(Do(s, actions[0]), t, actions[1..]);
      }
    } else {
      assert Open(s, t, call);
    }
  }

  // ---------- How a reply goes astray ----------

  /**
   * Two callers that both bump the counter before either reads it send the same id, and one
   * of them is handed the answer to the other's request.
   */
  const MIXED_UP := [Connect(true), Bump(1), Bump(2)] + (Deliver(1) + (Deliver(2) + [Answer(1, "two"), Poll(1, 0, false)]))

  lemma TwoCallersCanMixUp(seed: int)
    ensures var s := Run(Start(seed), MIXED_UP);
            s.outcomes == [Got(0, Reply(seed + 2, "two", 1, 0))] && PhaseOf(s, 2) == Polling(1, 1) && s.rxR == map[]
  {
    var s := BothBump(seed);
    var last := [Answer(1, "two"), Poll(1, 0, false)];
    RunConcat(Start(seed), [Connect(true), Bump(1), Bump(2)], Deliver(1) + (Deliver(2) + last));
    RunConcat(s, Deliver(1), Deliver(2) + last);
    RunConcat(Run(s, Deliver(1)), Deliver(2), last);
    BothDeliver(s);
    WrongAnswer(Run(Run(s, Deliver(1)), Deliver(2)), seed + 2);
  }

  lemma BothDeliver(s: State)
    requires Inv(s) && s.connected && s.phases == map[1 := Bumped, 2 := Bumped] && s.calls == []
    ensures var r := Run(Run(s, Deliver(1)), Deliver(2));
            && r.calls == [s.jsonId, s.jsonId] && r.sent == s.sent + {0, 1} && r.outcomes == s.outcomes && r.rxR == s.rxR
            && PhaseOf(r, 1) == Polling(0, 1) && PhaseOf(r, 2) == Polling(1, 1) && r.replies == s.replies
  {
    DeliverRuns(s, 1);
    DeliverRuns(Run(s, Deliver(1)), 2);
  }

  lemma WrongAnswer(r: State, id: int)
    requires r.calls == [id, id] && r.sent == {0, 1} && r.outcomes == [] && r.rxR == map[] && r.replies == 0
    requires PhaseOf(r, 1) == Polling(0, 1) && PhaseOf(r, 2) == Polling(1, 1)
    ensures var s := Run(r, [Answer(1, "two"), Poll(1, 0, false)]);
            s.outcomes == [Got(0, Reply(id, "two", 1, 0))] && PhaseOf(s, 2) == Polling(1, 1) && s.rxR == map[]
  {
    RunTwo(r, Answer(1, "two"), Poll(1, 0, false));
    assert Do(r, Answer(1, "two")).rxR == map[id := Reply(id, "two", 1, 0)];
  }

  lemma BothBump(seed: int) returns (s: State)
    ensures s == Run(Start(seed), [Connect(true), Bump(1), Bump(2)])
    ensures s == Start(seed).(jsonId := seed + 2, connected := true, phases := map[1 := Bumped, 2 := Bumped]) && Inv(s)
  {
    s := Run(Start(seed), [Connect(true), Bump(1), Bump(2)]);
    RunKeepsInv(Start(seed), [Connect(true), Bump(1), Bump(2)]);
    assert [Connect(true), Bump(1), Bump(2)] == [Connect(true)] + [Bump(1), Bump(2)];
    RunConcat(Start(seed), [Connect(true)], [Bump(1), Bump(2)]);
    var c := Do(Start(seed), Connect(true));
    assert [Connect(true)][1..] == [];
    RunTwo(c, Bump(1), Bump(2));
  }

  lemma {:induction false} RunConcat(s: State, a: seq<Action>, b: seq<Action>)
    ensures Run(s, a + b) == Run(Run(s, a), b)
    decreases |a|
  {
    if a == [] {
      assert a + b == b;
    } else {
      assert (a + b)[1..] == a[1..] + b;
      RunConcat(Do(s, a[0]), a[1..], b);
    }
  }

  lemma RunTwo(s: State, a: Action, b: Action)
    ensures Run(s, [a, b]) == Do(Do(s, a), b)
  {
    assert [a, b][1..] == [b] && [b][1..] == [];
    assert Run(Do(s, a), [b]) == Run(Do(Do(s, a), b), []);
  }

  /** Every reply in the table answers a request that reached the server. */
  ghost predicate RepliesAreSent(s: State) {
    forall id :: id in s.rxR ==> s.rxR[id].call in s.sent
  }

  lemma {:induction false} RunKeepsSent(s: State, actions: seq<Action>)
    requires RepliesAreSent(s)
    ensures RepliesAreSent(Run(s, actions))
    decreases |actions|
  {
    if actions != [] {
      RunKeepsSent(Do(s, actions[0]), actions[1..]);
    }
  }

  /** A thread polls for a call whose id another request that reached the server has as well. */
  ghost predicate AmbiguousFor(s: State, t: int, other: nat) {
    && PhaseOf(s, t).Polling? && PhaseOf(s, t).call < |s.calls|
    && other in s.sent && other < |s.calls| && other != PhaseOf(s, t).call
    && s.calls[other] == s.calls[PhaseOf(s, t).call]
  }

  ghost predicate Ambiguous(s: State) {
    exists t, other :: AmbiguousFor(s, t, other)
  }

  /** Only answers and polls: no new request is made. */
  predicate OnlyReplies(actions: seq<Action>) {
    forall i :: 0 <= i < |actions| ==> actions[i].Answer? || actions[i].Poll?
  }

  ghost predicate NewForeign(s: State, r: State) {
    exists i: nat :: |s.outcomes| <= i && ForeignAt(r, i)
  }

  lemma ForeignStep(s: State, a: Action)
    requires Inv(s) && RepliesAreSent(s) && !Ambiguous(s) && OnlyReplies([a])
    ensures !NewForeign(s, Do(s, a)) && !Ambiguous(Do(s, a))
  {
    assert a == [a][0];
    var m := Do(s, a);
    if t, other :| AmbiguousFor(m, t, other) {
      assert AmbiguousFor(s, t, other);
    }
    if a.Poll? && PhaseOf(s, a.thread).Polling? {
      var p := PhaseOf(s, a.thread);
      assert Open(s, a.thread, p.call);
      if s.calls[p.call] in s.rxR {
        var r := s.rxR[s.calls[p.call]];
        assert FiledUnderItsId(s, s.calls[p.call], r);
        assert r.call != p.call ==> AmbiguousFor(s, a.thread, r.call);
      }
    }
  }

  lemma NoneForeignTwice(s: State, m: State, r: State)
    requires s.outcomes <= m.outcomes <= r.outcomes && !NewForeign(s, m) && !NewForeign(m, r)
    ensures !NewForeign(s, r)
  {
    forall i: nat | |s.outcomes| <= i
      ensures !ForeignAt(r, i)
    {
      assert i < |m.outcomes| ==> (ForeignAt(r, i) <==> ForeignAt(m, i));
    }
  }

  lemma {:induction false} UnambiguousIsSafe(s: State, actions: seq<Action>)
    requires Inv(s) && RepliesAreSent(s) && !Ambiguous(s) && OnlyReplies(actions)
    ensures !NewForeign(s, Run(s, actions))
    decreases |actions|
  {
    if actions != [] {
      var m := Do(s, actions[0]);
      assert OnlyReplies([actions[0]]) && OnlyReplies(actions[1..]);
      ForeignStep(s, actions[0]);
      DoKeepsInv(s, actions[0]);
      assert [actions[0]][1..] == [];
      RunKeepsSent(s, [actions[0]]);
      UnambiguousIsSafe(m, actions[1..]);
      OutcomesGrow(s, actions[0]);
      KeepsOutcomes(m, actions[1..]);
      NoneForeignTwice(s, m, Run(m, actions[1..]));
    }
  }

  lemma {:induction false} KeepsOutcomes(s: State, actions: seq<Action>)
    ensures s.outcomes <= Run(s, actions).outcomes
    decreases |actions|
  {
    if actions != [] {
      OutcomesGrow(s, actions[0]);
      KeepsOutcomes(Do(s, actions[0]), actions[1..]);
    }
  }

  /** The answer to the other request, and then a poll in time. */
  lemma AmbiguousMixesUp(s: State, t: int, other: nat)
    requires Inv(s) && AmbiguousFor(s, t, other)
    ensures var actions := [Answer(other, ""), Poll(t, PhaseOf(s, t).deadline - 1, false)];
            OnlyReplies(actions) && NewForeign(s, Run(s, actions))
  {
    var p := PhaseOf(s, t);
    var actions := [Answer(other, ""), Poll(t, p.deadline - 1, false)];
    var m := Do(s, actions[0]);
    var r := Do(m, actions[1]);
    assert actions[1..] == [actions[1]] && [actions[1]][1..] == [];
    assert Run(r, []) == r;
    assert Run(m, [actions[1]]) == Run(r, []);
    assert Run(s, actions) == Run(m, [actions[1]]);
    assert ForeignAt(r, |s.outcomes|);
  }

  /**
   * From a state that a run reaches, some further answers and polls hand a call a foreign reply exactly
   * when a call that is polled for shares its id with another request that reached the server.
   */
  lemma MixUpExactlyWhen(seed: int, actions: seq<Action>)
    ensures var s := Run(Start(seed), actions);
            (exists more :: OnlyReplies(more) && NewForeign(s, Run(s, more))) <==> Ambiguous(s)
  {
    var s := Run(Start(seed), actions);
    RunKeepsInv(Start(seed), actions);
    RunKeepsSent(Start(seed), actions);
    if Ambiguous(s) {
      var t, other :| AmbiguousFor(s, t, other);
      AmbiguousMixesUp(s, t, other);
    } else {
      forall more | OnlyReplies(more)
        ensures !NewForeign(s, Run(s, more))
      {
        UnambiguousIsSafe(s, more);
      }
    }
  }

  /** One caller's steps from its read to its send. */
  function Deliver(u: int): seq<Action> {
    [Read(u), Load(u), Send(u, true, 1)]
  }

  lemma DeliverRuns(s: State, u: int)
    requires Inv(s) && s.connected && PhaseOf(s, u) == Bumped
    ensures var (r, n) := (Run(s, Deliver(u)), |s.calls|);
            && Inv(r) && r.connected && r.calls == s.calls + [s.jsonId] && r.jsonId == s.jsonId
            && r.phases == s.phases[u := Polling(n, 1)] && r.sent == s.sent + {n} && r.wire == s.wire + [Wire(n, n)]
            && r.outcomes == s.outcomes && r.rxR == s.rxR && r.replies == s.replies
  {
    RunKeepsInv(s, Deliver(u));
    var a := Deliver(u);
    assert a[1..] == [a[1], a[2]] && [a[1], a[2]][1..] == [a[2]] && [a[2]][1..] == [];
    var m := Do(s, a[0]);
    var n := Do(m, a[1]);
    var r := Do(n, a[2]);
    assert Run(r, []) == r;
    assert Run(n, [a[2]]) == Run(r, []);
    assert Run(m, [a[1], a[2]]) == Run(n, [a[2]]);
    assert Run(s, a) == Run(m, [a[1], a[2]]);
  }

  /** Once two callers overlap, their next steps can reach a state that hands over a foreign reply. */
  lemma OverlapMixesUp(s: State, u: int, v: int)
    requires Inv(s) && TwoBumped(s, u, v)
    ensures var r := Run(Run(Do(s, Connect(true)), Deliver(u)), Deliver(v));
            Inv(r) && Ambiguous(r)
  {
    var c := Do(s, Connect(true));
    DoKeepsInv(s, Connect(true));
    DeliverRuns(c, u);
    var m := Run(c, Deliver(u));
    DeliverRuns(m, v);
    var r := Run(m, Deliver(v));
    assert PhaseOf(r, u) == PhaseOf(m, u);
    assert AmbiguousFor(r, u, |s.calls| + 1);
  }
}
