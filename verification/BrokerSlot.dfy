/**
 * The slot in which a broker client stores the message of a call before it sends it. All callers share
 * it, so a caller may send another one's message, also when their ids differ.
 */
module BrokerSlot {
  import opened Options
  import opened BrokerRpc

  /** No caller stores its message while another one's is stored and not sent yet. */
  predicate LoadOk(s: State, a: Action) {
    a.Load? && PhaseOf(s, a.thread).Holding? && s.connected ==> forall u :: u in s.phases ==> !s.phases[u].Loaded?
  }

  predicate NoOverwrite(s: State, actions: seq<Action>)
    decreases |actions|
  {
    actions == [] || (LoadOk(s, actions[0]) && NoOverwrite(Do(s, actions[0]), actions[1..]))
  }

  /** Every call so far has sent its own message. */
  predicate AllOwn(s: State) {
    forall i :: 0 <= i < |s.wire| ==> s.wire[i].message == s.wire[i].caller
  }

  /** Whoever is about to send finds its own message in the slot. */
  ghost predicate SlotIsOwn(s: State) {
    forall u :: u in s.phases && s.phases[u].Loaded? ==> s.slot == Some(s.phases[u].call)
  }

  lemma OwnSlotStep(s: State, a: Action)
    requires AllOwn(s) && SlotIsOwn(s) && LoadOk(s, a)
    ensures AllOwn(Do(s, a)) && SlotIsOwn(Do(s, a))
  {
  }

  lemma {:induction false} OwnSlotRuns(s: State, actions: seq<Action>)
    requires AllOwn(s) && SlotIsOwn(s) && NoOverwrite(s, actions)
    ensures AllOwn(Run(s, actions)) && SlotIsOwn(Run(s, actions))
    decreases |actions|
  {
    if actions != [] {
      OwnSlotStep(s, actions[0]);
      OwnSlotRuns(Do(s, actions[0]), actions[1..]);
    }
  }

  /** A caller about to send whose message is in the slot no more. */
  ghost predicate Robbed(s: State, t: int) {
    PhaseOf(s, t).Loaded? && s.slot.Some? && s.slot.value != PhaseOf(s, t).call
  }

  /** Some call has sent, or is going to send, another one's message. */
  ghost predicate Astray(s: State) {
    !AllOwn(s) || exists t :: Robbed(s, t)
  }

  lemma RobbedStep(s: State, a: Action, t: int)
    requires Inv(s) && Robbed(s, t)
    ensures Astray(Do(s, a))
  {
    var m := Do(s, a);
    assert Open(s, t, PhaseOf(s, t).call);
    if a.Send? && a.thread == t {
      assert m.wire[|s.wire|].message != m.wire[|s.wire|].caller;
    } else {
      assert PhaseOf(m, t) == PhaseOf(s, t);
      assert Robbed(m, t);
    }
  }

  lemma AstrayStep(s: State, a: Action)
    requires Inv(s) && Astray(s)
    ensures Astray(Do(s, a))
  {
    if !AllOwn(s) {
      var i :| 0 <= i < |s.wire| && s.wire[i].message != s.wire[i].caller;
      assert Do(s, a).wire[i] == s.wire[i];
    } else {
      var t :| Robbed(s, t);
      RobbedStep(s, a, t);
    }
  }

  lemma {:induction false} AstrayRuns(s: State, actions: seq<Action>)
    requires Inv(s) && Astray(s)
    ensures Astray(Run(s, actions))
    decreases |actions|
  {
    if actions != [] {
      AstrayStep(s, actions[0]);
      DoKeepsInv(s, actions[0]);
      AstrayRuns(Do(s, actions[0]), actions[1..]);
    }
  }

  lemma OverwriteRobs(s: State, a: Action)
    requires Inv(s) && !LoadOk(s, a)
    ensures Astray(Do(s, a))
  {
    var u :| u in s.phases && s.phases[u].Loaded?;
    assert Open(s, u, s.phases[u].call);
    assert Robbed(Do(s, a), u);
  }

  lemma {:induction false} OverwriteGoesAstray(s: State, actions: seq<Action>)
    requires Inv(s) && !NoOverwrite(s, actions)
    ensures Astray(Run(s, actions))
    decreases |actions|
  {
    DoKeepsInv(s, actions[0]);
    if LoadOk(s, actions[0]) {
      OverwriteGoesAstray(Do(s, actions[0]), actions[1..]);
    } else {
      OverwriteRobs(s, actions[0]);
      AstrayRuns(Do(s, actions[0]), actions[1..]);
    }
  }

  /**
   * In a run that ends with no caller between storing its message and sending it, every call has sent its
   * own message exactly when none was ever overwritten.
   */
  lemma OwnMessagesExactlyWhen(seed: int, actions: seq<Action>)
    requires forall u :: u in Run(Start(seed), actions).phases ==> !Run(Start(seed), actions).phases[u].Loaded?
    ensures AllOwn(Run(Start(seed), actions)) <==> NoOverwrite(Start(seed), actions)
  {
    if NoOverwrite(Start(seed), actions) {
      OwnSlotRuns(Start(seed), actions);
    } else {
      RunKeepsInv(Start(seed), []);
      OverwriteGoesAstray(Start(seed), actions);
    }
  }

  lemma {:induction false} NoOverlapConcat(s: State, a: seq<Action>, b: seq<Action>)
    ensures NoOverlap(s, a + b) <==> NoOverlap(s, a) && NoOverlap(Run(s, a), b)
    decreases |a|
  {
    if a == [] {
      assert a + b == b;
    } else {
      assert (a + b)[1..] == a[1..] + b;
      NoOverlapConcat(Do(s, a[0]), a[1..], b);
    }
  }

  /** Two steps without overlap. */
  lemma TwoSteps(s: State, a: Action, b: Action)
    requires StepOk(s, a) && StepOk(Do(s, a), b)
    ensures NoOverlap(s, [a, b]) && Run(s, [a, b]) == Do(Do(s, a), b)
  {
    assert [a, b][1..] == [b] && [b][1..] == [];
    assert NoOverlap(Do(Do(s, a), b), []);
    assert NoOverlap(Do(s, a), [b]);
    RunTwo(s, a, b);
  }

  /** Two callers store their messages before either sends: one message is sent twice and the other not at all. */
  lemma SecondStoreWins(s: State, t: int, u: int)
    requires s.connected && t != u && PhaseOf(s, t).Holding? && PhaseOf(s, u).Holding?
    ensures var (n, m) := (PhaseOf(s, t).call, PhaseOf(s, u).call);
            var r := Run(s, [Load(t), Load(u)] + [Send(t, true, 1), Send(u, true, 1)]);
            && r.calls == s.calls && r.wire == s.wire + [Wire(n, m), Wire(m, m)] && r.sent == s.sent + {m}
            && NoOverlap(s, [Load(t), Load(u)] + [Send(t, true, 1), Send(u, true, 1)])
  {
    TwoSteps(s, Load(t), Load(u));
    var m := Run(s, [Load(t), Load(u)]);
    TwoSteps(m, Send(t, true, 1), Send(u, true, 1));
    RunConcat(s, [Load(t), Load(u)], [Send(t, true, 1), Send(u, true, 1)]);
    NoOverlapConcat(s, [Load(t), Load(u)], [Send(t, true, 1), Send(u, true, 1)]);
  }

  const LOST := [Connect(true), Bump(1)] + ([Read(1), Bump(2)] + ([Read(2), Connect(true)]
                + ([Load(1), Load(2)] + [Send(1, true, 1), Send(2, true, 1)])))

  /** A run of two callers with different ids, which do not overlap but lose a message. */
  lemma MessageIsLost(seed: int)
    ensures NoOverlap(Start(seed), LOST)
    ensures var s := Run(Start(seed), LOST);
            s.calls == [seed + 1, seed + 2] && s.wire == [Wire(0, 1), Wire(1, 1)] && s.sent == {1}
  {
    var s := Start(seed);
    TwoSteps(s, Connect(true), Bump(1));
    var a := Run(s, [Connect(true), Bump(1)]);
    TwoSteps(a, Read(1), Bump(2));
    var b := Run(a, [Read(1), Bump(2)]);
    TwoSteps(b, Read(2), Connect(true));
    var c := Run(b, [Read(2), Connect(true)]);
    SecondStoreWins(c, 1, 2);
    var last := [Load(1), Load(2)] + [Send(1, true, 1), Send(2, true, 1)];
    Joins(b, [Read(2), Connect(true)], last);
    Joins(a, [Read(1), Bump(2)], [Read(2), Connect(true)] + last);
    Joins(s, [Connect(true), Bump(1)], [Read(1), Bump(2)] + ([Read(2), Connect(true)] + last));
  }

  lemma Joins(s: State, a: seq<Action>, b: seq<Action>)
    requires NoOverlap(s, a) && NoOverlap(Run(s, a), b)
    ensures NoOverlap(s, a + b) && Run(s, a + b) == Run(Run(s, a), b)
  {
    NoOverlapConcat(s, a, b);
    RunConcat(s, a, b);
  }
}
