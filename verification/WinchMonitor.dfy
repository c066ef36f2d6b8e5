/**
 * The monitoring loop of a winch move (Winch.monitor_move): five timers, ten stop codes.
 * Each pass of the loop reads its inputs and three clock readings, in milliseconds; the loop is
 * proved to stop exactly when the history of its inputs calls for it, and for the reason it gives.
 */
module WinchMonitor {
  import opened Options

  type Ms = int

  const SECOND: Ms := 1000
  const WEEK: Ms := 7 * 24 * 60 * 60 * SECOND

  datatype StopCode =
    | StopFunct | IpcConn | Kbhit | Relay5V | MaxStopped
    | InPosition | NegLimitSwitch | PosLimitSwitch | MaxZeroV | MaxNoPosChange

  datatype Config = Config(maxStopped: Ms, maxZeroV: Ms, limitStop: bool, negLimMax: Ms, posLimMax: Ms,
                           inPos: bool, inPosMax: Ms, ipcPoll: bool, minSpeed: real, positionDb: int)

  /**
   * One pass: the clock at its stop-function check, at its timeout check and at its sample checks;
   * the result of the stop function, an external stop, a key press, a dead 5 V relay; the newest
   * sample time and the sampled motor values.
   */
  datatype Pass = Pass(t0: Ms, t1: Ms, t2: Ms, stopResult: bool, ipcStop: bool, kbhit: bool, relayOff: bool, ts: int,
                       inPosition: bool, negSwitch: bool, posSwitch: bool, velocity: real, position: int)

  /** A move: its settings, the clock and the position at loop start, the position it aims at and its passes. */
  datatype Move = Move(cfg: Config, start: Ms, startPosition: int, desired: int, passes: seq<Pass>)

  const LONG_AGO: int := 20000101000000

  function Abs(x: real): real {
    if x < 0.0 then -x else x
  }

  function AbsInt(x: int): int {
    if x < 0 then -x else x
  }

  // ---------- The stop codes, read off the history ----------

  /** Pass i brings a sample newer than every one before it. */
  ghost predicate New(m: Move, i: nat)
    requires i < |m.passes|
  {
    m.passes[i].ts > 20000101000000 && forall k :: 0 <= k < i ==> m.passes[k].ts < m.passes[i].ts
  }

  function Samples(m: Move, n: nat): nat
    requires n <= |m.passes|
  {
    if n == 0 then 0 else Samples(m, n - 1) + if NewerThan(m, n - 1) then 1 else 0
  }

  /** The newest sample time seen by the first n passes. */
  function Newest(m: Move, n: nat): int
    requires n <= |m.passes|
  {
    if n == 0 then LONG_AGO
    else if m.passes[n - 1].ts > Newest(m, n - 1) then m.passes[n - 1].ts else Newest(m, n - 1)
  }

  predicate NewerThan(m: Move, i: nat)
    requires i < |m.passes|
  {
    m.passes[i].ts > Newest(m, i)
  }

  lemma {:induction false} NewestIsGreatest(m: Move, n: nat)
    requires n <= |m.passes|
    ensures LONG_AGO <= Newest(m, n) && forall k :: 0 <= k < n ==> m.passes[k].ts <= Newest(m, n)
    ensures Newest(m, n) == LONG_AGO || exists k :: 0 <= k < n && m.passes[k].ts == Newest(m, n)
    decreases n
  {
    if n > 0 {
      NewestIsGreatest(m, n - 1);
      assert m.passes[n - 1].ts == Newest(m, n) || Newest(m, n) == Newest(m, n - 1);
    }
  }

  lemma NewSamples(m: Move, i: nat)
    requires i < |m.passes|
    ensures NewerThan(m, i) <==> New(m, i)
  {
    NewestIsGreatest(m, i);
  }

  /** The timers that a new sample resets. */
  datatype Timer = Update | NotInPosition | SwitchesClear | Fast | Moved

  predicate Holds(m: Move, timer: Timer, p: Pass) {
    match timer
    case Update => true
    case NotInPosition => !p.inPosition
    case SwitchesClear => !p.negSwitch && !p.posSwitch
    case Fast => Abs(p.velocity) > m.cfg.minSpeed
    case Moved => p.position != m.startPosition
  }

  predicate Resets(m: Move, timer: Timer, i: nat)
    requires i < |m.passes|
  {
    NewerThan(m, i) && Holds(m, timer, m.passes[i])
  }

  /** When the timer was last reset before pass i; it starts with the loop. */
  function Since(m: Move, timer: Timer, i: nat): Ms
    requires i <= |m.passes|
  {
    if i == 0 then m.start else if Resets(m, timer, i - 1) then m.passes[i - 1].t2 else Since(m, timer, i - 1)
  }

  /** The stop-function timer before pass i: when the present streak began, or a time far ahead. */
  function StopTimer(m: Move, i: nat): Ms
    requires i <= |m.passes|
    decreases i, 0
  {
    if i == 0 then m.start + 2 * WEEK
    else if m.passes[i - 1].stopResult then Armed(m, i - 1)
    else m.passes[i - 1].t0 + 2 * WEEK
  }

  function Armed(m: Move, i: nat): Ms
    requires i < |m.passes|
    decreases i, 1
  {
    if m.passes[i].t0 + WEEK < StopTimer(m, i) then m.passes[i].t0 else StopTimer(m, i)
  }

  /** The code that the sample of pass i calls for; the last check that applies wins. */
  function SampleCode(m: Move, i: nat): Option<StopCode>
    requires i < |m.passes|
  {
    var p, c := m.passes[i], m.cfg;
    if c.inPos && Samples(m, i + 1) >= 20 && AbsInt(p.position - m.desired) <= c.positionDb then Some(InPosition)
    else if p.position == m.startPosition && p.t2 > Since(m, Moved, i) + c.maxZeroV then Some(MaxNoPosChange)
    else if Abs(p.velocity) <= c.minSpeed && p.t2 > Since(m, Fast, i) + c.maxZeroV then Some(MaxZeroV)
    else if c.limitStop && p.posSwitch && p.velocity > 0.0 && p.t2 - Since(m, SwitchesClear, i) >= c.posLimMax then Some(PosLimitSwitch)
    else if c.limitStop && p.negSwitch && p.velocity < 0.0 && p.t2 - Since(m, SwitchesClear, i) >= c.negLimMax then Some(NegLimitSwitch)
    else if c.inPos && p.inPosition && p.t2 - Since(m, NotInPosition, i) >= c.inPosMax then Some(InPosition)
    else None
  }

  /** The code that pass i calls for. */
  function CodeAt(m: Move, i: nat): Option<StopCode>
    requires i < |m.passes|
  {
    var p := m.passes[i];
    if p.stopResult && Armed(m, i) < p.t0 - SECOND then Some(StopFunct)
    else if m.cfg.ipcPoll && p.ipcStop then Some(IpcConn)
    else if p.kbhit then Some(Kbhit)
    else if p.relayOff then Some(Relay5V)
    else if p.t1 >= Since(m, Update, i) + m.cfg.maxStopped then Some(MaxStopped)
    else if NewerThan(m, i) then SampleCode(m, i)
    else None
  }

  /** The loop: the code of the first pass that calls for one, or None when the passes run out first. */
  method MonitorMove(m: Move) returns (code: Option<StopCode>, iterations: nat, passesDone: nat)
    ensures passesDone <= |m.passes| && forall k: nat :: k < passesDone ==> CodeAt(m, k) == None
    ensures code.None? ==> passesDone == |m.passes|
    ensures code.Some? ==> passesDone < |m.passes| && CodeAt(m, passesDone) == code
    ensures iterations == Samples(m, passesDone) || (passesDone < |m.passes| && iterations == Samples(m, passesDone + 1))
  {
    var samePosTime, stopTime, zeroVTime, limSwOnTime, inPosOnTime := m.start, m.start, m.start, m.start, m.start;
    var oldTs := LONG_AGO;
    var stopFunctTime := m.start + 2 * WEEK;
    code, iterations, passesDone := None, 0, 0;
    while passesDone < |m.passes|
      invariant passesDone <= |m.passes| && code == None
      invariant forall k: nat :: k < passesDone ==> CodeAt(m, k) == None
      invariant iterations == Samples(m, passesDone) && oldTs == Newest(m, passesDone)
      invariant stopTime == Since(m, Update, passesDone)
      invariant m.cfg.inPos ==> inPosOnTime == Since(m, NotInPosition, passesDone)
      invariant m.cfg.limitStop ==> limSwOnTime == Since(m, SwitchesClear, passesDone)
      invariant zeroVTime == Since(m, Fast, passesDone) && samePosTime == Since(m, Moved, passesDone)
      invariant stopFunctTime == StopTimer(m, passesDone)
    {
      var p := m.passes[passesDone];
      if p.stopResult {
        if p.t0 + WEEK < stopFunctTime {
          stopFunctTime := p.t0;
        }
        if stopFunctTime < p.t0 - SECOND {
          return Some(StopFunct), iterations, passesDone;
        }
      } else {
        stopFunctTime := p.t0 + 2 * WEEK;
      }
      if m.cfg.ipcPoll && p.ipcStop {
        return Some(IpcConn), iterations, passesDone;
      }
      if p.kbhit {
        return Some(Kbhit), iterations, passesDone;
      }
      if p.relayOff {
        return Some(Relay5V), iterations, passesDone;
      }
      if p.t1 >= stopTime + m.cfg.maxStopped {
        return Some(MaxStopped), iterations, passesDone;
      }
      if p.ts > oldTs {
        oldTs := p.ts;
        iterations := iterations + 1;
        stopTime := p.t2;
        if m.cfg.inPos {
          if p.inPosition {
            if p.t2 - inPosOnTime >= m.cfg.inPosMax {
              code := Some(InPosition);
            }
          } else {
            inPosOnTime := p.t2;
          }
        }
        if m.cfg.limitStop {
          if p.negSwitch || p.posSwitch {
            if p.negSwitch && p.velocity < 0.0 {
              if p.t2 - limSwOnTime >= m.cfg.negLimMax {
                code := Some(NegLimitSwitch);
              }
            }
            if p.posSwitch && p.velocity > 0.0 {
              if p.t2 - limSwOnTime >= m.cfg.posLimMax {
                code := Some(PosLimitSwitch);
              }
            }
          } else {
            limSwOnTime := p.t2;
          }
        }
        if Abs(p.velocity) > m.cfg.minSpeed {
          zeroVTime := p.t2;
        } else if p.t2 > zeroVTime + m.cfg.maxZeroV {
          code := Some(MaxZeroV);
        }
        if p.position != m.startPosition {
          samePosTime := p.t2;
        } else if p.t2 > samePosTime + m.cfg.maxZeroV {
          code := Some(MaxNoPosChange);
        }
        if m.cfg.inPos && iterations >= 20 {
          if AbsInt(p.position - m.desired) <= m.cfg.positionDb {
            code := Some(InPosition);
          }
        }
        if code.Some? {
          return;
        }
      }
      passesDone := passesDone + 1;
    }
  }

  // ---------- What has to have happened for each code ----------
  // These say it in the fields of the passes alone; -1 stands for loop start.

  /** Every evaluation from pass j to pass i was truthy, over more than a second. */
  ghost predicate TruthyStreak(m: Move, j: nat, i: nat)
    requires i < |m.passes|
  {
    j <= i && (forall k: nat :: j <= k <= i ==> m.passes[k].stopResult) && m.passes[i].t0 - m.passes[j].t0 > 1000
  }

  /** Pass j brought the last new sample, which was the whole timeout ago. */
  ghost predicate SilentSince(m: Move, j: int, i: nat)
    requires i < |m.passes|
  {
    && -1 <= j < i && (j >= 0 ==> New(m, j))
    && (forall k: nat :: j < k < i ==> !New(m, k))
    && m.passes[i].t1 - (if j == -1 then m.start else m.passes[j].t2) >= m.cfg.maxStopped
  }

  /** Pass j brought the last new sample out of position. */
  ghost predicate InPositionSince(m: Move, j: int, i: nat)
    requires i < |m.passes|
  {
    && -1 <= j < i && (j >= 0 ==> New(m, j) && !m.passes[j].inPosition)
    && (forall k: nat :: j < k <= i && New(m, k) ==> m.passes[k].inPosition)
    && m.passes[i].t2 - (if j == -1 then m.start else m.passes[j].t2) >= m.cfg.inPosMax
  }

  /** Pass j brought the last new sample with both limit switches clear. */
  ghost predicate SwitchOnSince(m: Move, j: int, i: nat, least: Ms)
    requires i < |m.passes|
  {
    && -1 <= j < i && (j >= 0 ==> New(m, j) && !m.passes[j].negSwitch && !m.passes[j].posSwitch)
    && (forall k: nat :: j < k <= i && New(m, k) ==> m.passes[k].negSwitch || m.passes[k].posSwitch)
    && m.passes[i].t2 - (if j == -1 then m.start else m.passes[j].t2) >= least
  }

  /** Pass j brought the last new sample with a speed over the least one. */
  ghost predicate SlowSince(m: Move, j: int, i: nat)
    requires i < |m.passes|
  {
    var v := m.cfg.minSpeed;
    && -1 <= j < i && (j >= 0 ==> New(m, j) && (m.passes[j].velocity > v || -m.passes[j].velocity > v))
    && (forall k: nat :: j < k <= i && New(m, k) ==> m.passes[k].velocity <= v && -m.passes[k].velocity <= v)
    && m.passes[i].t2 - (if j == -1 then m.start else m.passes[j].t2) > m.cfg.maxZeroV
  }

  /** Pass j brought the last new sample away from where the move began. */
  ghost predicate UnmovedSince(m: Move, j: int, i: nat)
    requires i < |m.passes|
  {
    && -1 <= j < i && (j >= 0 ==> New(m, j) && m.passes[j].position != m.startPosition)
    && (forall k: nat :: j < k <= i && New(m, k) ==> m.passes[k].position == m.startPosition)
    && m.passes[i].t2 - (if j == -1 then m.start else m.passes[j].t2) > m.cfg.maxZeroV
  }

  /** At least 20 new samples have come, and the newest is close to the position aimed at. */
  ghost predicate Arrived(m: Move, i: nat)
    requires i < |m.passes|
  {
    |set k: nat | k <= i && New(m, k)| >= 20 && -m.cfg.positionDb <= m.passes[i].position - m.desired <= m.cfg.positionDb
  }

  /** What has to be true of the history when the loop stops at pass i with a code. */
  ghost predicate Justified(m: Move, i: nat, code: StopCode)
    requires i < |m.passes|
  {
    var p, c := m.passes[i], m.cfg;
    match code
    case StopFunct => exists j: nat :: TruthyStreak(m, j, i)
    case IpcConn => c.ipcPoll && p.ipcStop
    case Kbhit => p.kbhit
    case Relay5V => p.relayOff
    case MaxStopped => exists j: int :: SilentSince(m, j, i)
    case InPosition => c.inPos && New(m, i) && (Arrived(m, i) || exists j: int :: InPositionSince(m, j, i))
    case NegLimitSwitch =>
      c.limitStop && New(m, i) && p.negSwitch && p.velocity < 0.0 && exists j: int :: SwitchOnSince(m, j, i, c.negLimMax)
    case PosLimitSwitch =>
      c.limitStop && New(m, i) && p.posSwitch && p.velocity > 0.0 && exists j: int :: SwitchOnSince(m, j, i, c.posLimMax)
    case MaxZeroV => New(m, i) && exists j: int :: SlowSince(m, j, i)
    case MaxNoPosChange => New(m, i) && exists j: int :: UnmovedSince(m, j, i)
  }

  /** The first justified code in the order in which they prevail over each other. */
  ghost function Verdict(m: Move, i: nat): Option<StopCode>
    requires i < |m.passes|
  {
    if Justified(m, i, StopFunct) then Some(StopFunct)
    else if Justified(m, i, IpcConn) then Some(IpcConn)
    else if Justified(m, i, Kbhit) then Some(Kbhit)
    else if Justified(m, i, Relay5V) then Some(Relay5V)
    else if Justified(m, i, MaxStopped) then Some(MaxStopped)
    else if Justified(m, i, InPosition) && Arrived(m, i) then Some(InPosition)
    else if Justified(m, i, MaxNoPosChange) then Some(MaxNoPosChange)
    else if Justified(m, i, MaxZeroV) then Some(MaxZeroV)
    else if Justified(m, i, PosLimitSwitch) then Some(PosLimitSwitch)
    else if Justified(m, i, NegLimitSwitch) then Some(NegLimitSwitch)
    else if Justified(m, i, InPosition) then Some(InPosition)
    else None
  }

  // ---------- The timers show the history ----------

  /** The clock at loop start (-1) or at the sample of pass j. */
  function TimeOf(m: Move, j: int): Ms
    requires -1 <= j < |m.passes|
  {
    if j == -1 then m.start else m.passes[j].t2
  }

  lemma SinceStep(m: Move, timer: Timer, i: nat)
    requires i < |m.passes|
    ensures if New(m, i) && Holds(m, timer, m.passes[i]) then Since(m, timer, i + 1) == m.passes[i].t2
            else Since(m, timer, i + 1) == Since(m, timer, i)
  {
    NewSamples(m, i);
  }

  /** Pass j brought the last new sample before pass i with the timer's property, or it is -1 and none did. */
  ghost predicate LastReset(m: Move, timer: Timer, j: int, i: nat)
    requires i <= |m.passes|
  {
    && -1 <= j < i && (j >= 0 ==> New(m, j) && Holds(m, timer, m.passes[j]))
    && forall k: nat :: j < k < i && New(m, k) ==> !Holds(m, timer, m.passes[k])
  }

  lemma ResetIsLast(m: Move, timer: Timer, i: nat)
    requires i < |m.passes| && New(m, i) && Holds(m, timer, m.passes[i])
    ensures LastReset(m, timer, i, i + 1)
  {
  }

  lemma LastResetStays(m: Move, timer: Timer, j: int, i: nat)
    requires i < |m.passes| && LastReset(m, timer, j, i) && !(New(m, i) && Holds(m, timer, m.passes[i]))
    ensures LastReset(m, timer, j, i + 1)
  {
  }

  /** A timer shows the last reset, or the loop start if there was none. */
  lemma {:induction false} SinceIsLastReset(m: Move, timer: Timer, i: nat) returns (j: int)
    requires i <= |m.passes|
    ensures LastReset(m, timer, j, i) && Since(m, timer, i) == TimeOf(m, j)
    decreases i
  {
    if i == 0 {
      j := -1;
    } else {
      SinceStep(m, timer, i - 1);
      if New(m, i - 1) && Holds(m, timer, m.passes[i - 1]) {
        j := i - 1;
        ResetIsLast(m, timer, i - 1);
      } else {
        j := SinceIsLastReset(m, timer, i - 1);
        LastResetStays(m, timer, j, i - 1);
      }
    }
  }

  lemma SinceOf(m: Move, timer: Timer, j: int, i: nat)
    requires i <= |m.passes| && LastReset(m, timer, j, i)
    ensures Since(m, timer, i) == if j == -1 then m.start else m.passes[j].t2
  {
    var last := SinceIsLastReset(m, timer, i);
    assert last == j;
  }

  ghost function NewSamplesBefore(m: Move, n: nat): set<nat>
    requires n <= |m.passes|
  {
    set k: nat | k < n && NewerThan(m, k)
  }

  /** Each sample is counted once. */
  lemma {:induction false} SamplesAreCounted(m: Move, n: nat)
    requires n <= |m.passes|
    ensures Samples(m, n) == |NewSamplesBefore(m, n)|
    decreases n
  {
    if n > 0 {
      SamplesAreCounted(m, n - 1);
      assert NewSamplesBefore(m, n) == NewSamplesBefore(m, n - 1) + if NewerThan(m, n - 1) then {n - 1} else {};
    } else {
      assert NewSamplesBefore(m, n) == {};
    }
  }

  lemma ArrivedMeans(m: Move, i: nat)
    requires i < |m.passes|
    ensures Arrived(m, i) <==> Samples(m, i + 1) >= 20 && AbsInt(m.passes[i].position - m.desired) <= m.cfg.positionDb
  {
    SamplesAreCounted(m, i + 1);
    forall k: nat | k <= i ensures New(m, k) <==> NewerThan(m, k) {
      NewSamples(m, k);
    }
    assert (set k: nat | k <= i && New(m, k)) == NewSamplesBefore(m, i + 1);
  }

  lemma SilentMeans(m: Move, i: nat)
    requires i < |m.passes|
    ensures (exists j: int :: SilentSince(m, j, i)) <==> m.passes[i].t1 >= Since(m, Update, i) + m.cfg.maxStopped
  {
    var last := SinceIsLastReset(m, Update, i);
    if m.passes[i].t1 >= Since(m, Update, i) + m.cfg.maxStopped {
      assert SilentSince(m, last, i);
    }
    if j: int :| SilentSince(m, j, i) {
      SinceOf(m, Update, j, i);
    }
  }

  lemma InPositionMeans(m: Move, i: nat)
    requires i < |m.passes| && New(m, i)
    ensures (exists j: int :: InPositionSince(m, j, i))
            <==> m.passes[i].inPosition && m.passes[i].t2 - Since(m, NotInPosition, i) >= m.cfg.inPosMax
  {
    var last := SinceIsLastReset(m, NotInPosition, i);
    if m.passes[i].inPosition && m.passes[i].t2 - Since(m, NotInPosition, i) >= m.cfg.inPosMax {
      assert InPositionSince(m, last, i);
    }
    if j: int :| InPositionSince(m, j, i) {
      SinceOf(m, NotInPosition, j, i);
    }
  }

  lemma SwitchOnMeans(m: Move, i: nat, least: Ms)
    requires i < |m.passes| && New(m, i)
    ensures (exists j: int :: SwitchOnSince(m, j, i, least))
            <==> (m.passes[i].negSwitch || m.passes[i].posSwitch) && m.passes[i].t2 - Since(m, SwitchesClear, i) >= least
  {
    var last := SinceIsLastReset(m, SwitchesClear, i);
    if (m.passes[i].negSwitch || m.passes[i].posSwitch) && m.passes[i].t2 - Since(m, SwitchesClear, i) >= least {
      assert SwitchOnSince(m, last, i, least);
    }
    if j: int :| SwitchOnSince(m, j, i, least) {
      SinceOf(m, SwitchesClear, j, i);
    }
  }

  lemma SlowMeans(m: Move, i: nat)
    requires i < |m.passes| && New(m, i)
    ensures (exists j: int :: SlowSince(m, j, i))
            <==> Abs(m.passes[i].velocity) <= m.cfg.minSpeed && m.passes[i].t2 > Since(m, Fast, i) + m.cfg.maxZeroV
  {
    var last := SinceIsLastReset(m, Fast, i);
    if Abs(m.passes[i].velocity) <= m.cfg.minSpeed && m.passes[i].t2 > Since(m, Fast, i) + m.cfg.maxZeroV {
      assert SlowSince(m, last, i);
    }
    if j: int :| SlowSince(m, j, i) {
      SinceOf(m, Fast, j, i);
    }
  }

  lemma UnmovedMeans(m: Move, i: nat)
    requires i < |m.passes| && New(m, i)
    ensures (exists j: int :: UnmovedSince(m, j, i))
            <==> m.passes[i].position == m.startPosition && m.passes[i].t2 > Since(m, Moved, i) + m.cfg.maxZeroV
  {
    var last := SinceIsLastReset(m, Moved, i);
    if m.passes[i].position == m.startPosition && m.passes[i].t2 > Since(m, Moved, i) + m.cfg.maxZeroV {
      assert UnmovedSince(m, last, i);
    }
    if j: int :| UnmovedSince(m, j, i) {
      SinceOf(m, Moved, j, i);
    }
  }

  /** The stop function is evaluated at least once a week. */
  ghost predicate Prompt(m: Move) {
    forall k: nat :: k < |m.passes| ==> PromptAt(m, k)
  }

  predicate PromptAt(m: Move, k: nat)
    requires k < |m.passes|
  {
    0 <= m.passes[k].t0 - (if k == 0 then m.start else m.passes[k - 1].t0) < 604800000
  }

  /** The stop-function timer shows the start of the unbroken streak of truthy evaluations. */
  lemma {:induction false} StopTimerIsStreakStart(m: Move, i: nat) returns (j: nat)
    requires i < |m.passes| && Prompt(m) && m.passes[i].stopResult
    ensures j <= i && Armed(m, i) == m.passes[j].t0
    ensures forall k: nat :: j <= k <= i ==> m.passes[k].stopResult
    ensures j == 0 || !m.passes[j - 1].stopResult
    decreases i
  {
    if i > 0 && m.passes[i - 1].stopResult {
      j := StopTimerIsStreakStart(m, i - 1);
      TimesIncrease(m, j, i);
    } else {
      assert PromptAt(m, i);
      j := i;
    }
  }

  lemma {:induction false} TimesIncrease(m: Move, j: nat, i: nat)
    requires j <= i < |m.passes| && Prompt(m)
    ensures m.passes[j].t0 <= m.passes[i].t0
    decreases i
  {
    if j < i {
      assert PromptAt(m, i);
      TimesIncrease(m, j, i - 1);
    }
  }

  /** With evaluations less than a week apart, 'stop_funct' is due exactly after a truthy streak of more than a second. */
  lemma StopFunctExactlyWhen(m: Move, i: nat)
    requires i < |m.passes| && Prompt(m)
    ensures CodeAt(m, i) == Some(StopFunct) <==> exists j: nat :: TruthyStreak(m, j, i)
  {
    if m.passes[i].stopResult {
      var j := StopTimerIsStreakStart(m, i);
      if Armed(m, i) < m.passes[i].t0 - SECOND {
        assert TruthyStreak(m, j, i);
      }
      forall l: nat | TruthyStreak(m, l, i) ensures m.passes[j].t0 <= m.passes[l].t0 {
        TimesIncrease(m, j, l);
      }
    } else {
      forall l: nat | l <= i ensures !TruthyStreak(m, l, i) {
        assert !m.passes[i].stopResult;
      }
    }
  }

  // ---------- The loop stops exactly when the history justifies a code ----------

  lemma SampleCodeIsVerdict(m: Move, i: nat)
    requires i < |m.passes| && New(m, i)
    ensures SampleCode(m, i) ==
            if Justified(m, i, InPosition) && Arrived(m, i) then Some(InPosition)
            else if Justified(m, i, MaxNoPosChange) then Some(MaxNoPosChange)
            else if Justified(m, i, MaxZeroV) then Some(MaxZeroV)
            else if Justified(m, i, PosLimitSwitch) then Some(PosLimitSwitch)
            else if Justified(m, i, NegLimitSwitch) then Some(NegLimitSwitch)
            else if Justified(m, i, InPosition) then Some(InPosition)
            else None
  {
    ArrivedMeans(m, i);
    InPositionMeans(m, i);
    SwitchOnMeans(m, i, m.cfg.posLimMax);
    SwitchOnMeans(m, i, m.cfg.negLimMax);
    SlowMeans(m, i);
    UnmovedMeans(m, i);
  }

  /** The code of a pass is the first one that the history justifies. */
  lemma CodeIsVerdict(m: Move, i: nat)
    requires i < |m.passes| && Prompt(m)
    ensures CodeAt(m, i) == Verdict(m, i)
  {
    StopFunctExactlyWhen(m, i);
    SilentMeans(m, i);
    NewSamples(m, i);
    if New(m, i) {
      SampleCodeIsVerdict(m, i);
    }
  }

  /** Whatever code a pass calls for, the history justifies it. */
  lemma EveryCodeIsJustified(m: Move, i: nat)
    requires i < |m.passes| && CodeAt(m, i).Some? && (CodeAt(m, i) == Some(StopFunct) ==> Prompt(m))
    ensures Justified(m, i, CodeAt(m, i).value)
  {
    if CodeAt(m, i) == Some(StopFunct) {
      StopFunctExactlyWhen(m, i);
    } else {
      SilentMeans(m, i);
      NewSamples(m, i);
      if New(m, i) {
        SampleCodeIsVerdict(m, i);
      }
    }
  }

  /** No cause is missed: the loop stops at a pass exactly when the history justifies some code. */
  lemma StopsExactlyWhenJustified(m: Move, i: nat)
    requires i < |m.passes| && Prompt(m)
    ensures CodeAt(m, i).Some? <==> exists code :: Justified(m, i, code)
  {
    CodeIsVerdict(m, i);
    if CodeAt(m, i).Some? {
      EveryCodeIsJustified(m, i);
    }
  }

  // ---------- A motor at rest ends the loop ----------

  /** The loop has gone through pass i without a reason to stop. */
  ghost predicate StillRunning(m: Move, i: nat)
    requires i < |m.passes|
  {
    forall k: nat :: k <= i ==> CodeAt(m, k) == None
  }

  lemma RunningSampleIsTimed(m: Move, i: nat)
    requires i < |m.passes| && StillRunning(m, i) && New(m, i) && m.cfg.maxZeroV >= 0
    ensures m.passes[i].t2 <= Since(m, Fast, i + 1) + m.cfg.maxZeroV
  {
    NewSamples(m, i);
    assert CodeAt(m, i) == None;
  }

  lemma {:induction false} UpdateFollowsFast(m: Move, i: nat)
    requires i < |m.passes| && m.cfg.maxZeroV >= 0 && forall k: nat :: k < i ==> CodeAt(m, k) == None
    ensures Since(m, Update, i) <= Since(m, Fast, i) + m.cfg.maxZeroV
    decreases i
  {
    if i > 0 {
      UpdateFollowsFast(m, i - 1);
      NewSamples(m, i - 1);
      if NewerThan(m, i - 1) {
        RunningSampleIsTimed(m, i - 1);
      }
    }
  }

  /** While the loop runs, every sample is at most maxZeroV later than loop start or the last fast sample. */
  lemma RunningSampleIsRecent(m: Move, j: int, i: nat)
    requires -1 <= j <= i < |m.passes| && StillRunning(m, i) && New(m, i) && m.cfg.maxZeroV >= 0
    requires j >= 0 ==> New(m, j) && (m.passes[j].velocity > m.cfg.minSpeed || -m.passes[j].velocity > m.cfg.minSpeed)
    requires forall k: nat :: j < k <= i && New(m, k) ==> -m.cfg.minSpeed <= m.passes[k].velocity <= m.cfg.minSpeed
    ensures m.passes[i].t2 <= (if j == -1 then m.start else m.passes[j].t2) + m.cfg.maxZeroV
  {
    RunningSampleIsTimed(m, i);
    SinceOf(m, Fast, j, i + 1);
  }

  /**
   * A motor at rest ends the loop: once no sample is fast after that of pass j, or after loop start,
   * the loop is over before its timeout check reads maxZeroV + maxStopped after it.
   */
  lemma MotorAtRestEndsLoop(m: Move, j: int, i: nat)
    requires -1 <= j < i < |m.passes| && m.cfg.maxZeroV >= 0 && StillRunning(m, i)
    requires j >= 0 ==> New(m, j) && (m.passes[j].velocity > m.cfg.minSpeed || -m.passes[j].velocity > m.cfg.minSpeed)
    requires forall k: nat :: j < k <= i && New(m, k) ==> -m.cfg.minSpeed <= m.passes[k].velocity <= m.cfg.minSpeed
    ensures m.passes[i].t1 < (if j == -1 then m.start else m.passes[j].t2) + m.cfg.maxZeroV + m.cfg.maxStopped
    ensures New(m, i) ==> m.passes[i].t2 <= (if j == -1 then m.start else m.passes[j].t2) + m.cfg.maxZeroV
  {
    UpdateFollowsFast(m, i);
    assert CodeAt(m, i) == None;
    SinceOf(m, Fast, j, i);
    NewSamples(m, i);
    if New(m, i) {
      RunningSampleIsTimed(m, i);
      SinceOf(m, Fast, j, i + 1);
    }
  }
}
