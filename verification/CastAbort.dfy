/**
 * The cast procedure (Cast.start in avp_cast.py) as far as it decides about aborting and about
 * commanding the winch. What the instruments answer is an input of each phase, and so are the
 * places where a phase raises an exception, counted in the winch commands it has issued by then.
 */
module CastAbort {
  import opened Options
  import opened WinchMonitor

  datatype ParkPos = ParkTop | ParkDefault | ParkCWL | ParkPWL | ParkBottom | ParkInvalid

  /** What the phases ask of the winch. */
  datatype Command = ToCalibration | ToWaterline | ToDepth | RaiseALittle | Park(pos: ParkPos)

  /** Why a commanded move stopped, as the phases see it: a monitor code, a motor fault, or no code at all. */
  datatype Stop = Monitor(code: StopCode) | TempFault | NoCode

  predicate FaultWhileParking(s: Stop) {
    s == TempFault || s == Monitor(PosLimitSwitch)
  }

  predicate FaultAtWaterline(s: Stop) {
    s == TempFault || s == Monitor(PosLimitSwitch) || s == Monitor(NegLimitSwitch) || s == Monitor(IpcConn)
  }

  predicate FaultWhilePositioning(s: Stop) {
    s == TempFault || s == Monitor(PosLimitSwitch) || s == Monitor(NegLimitSwitch)
  }

  predicate FaultWhileCasting(s: Stop) {
    s == TempFault || s == Monitor(NegLimitSwitch) || s == Monitor(IpcConn)
  }

  /** The abort_cast dictionary: empty, or filled with or without its 'park' entry. */
  datatype Abort = NoAbort | Abort(park: Option<bool>)

  /** The answers that one run of the cast gets. */
  datatype Env = Env(setupFails: seq<bool>, initDbFails: bool, setupRaises: bool, calibrated: bool,
                     parkStop: Stop, inWater: bool, waterlineStop: Stop, wipeTimesOut: bool, depthStop: Stop,
                     iscoReady: bool, castStop: Stop, stoppedShort: bool, raises: set<(Phase, nat)>)

  datatype Phase = PreCastPark | PreCalibrate | PrePosition | WaitForSched | StartSampling | DataCollection | StopSampling | PostCastPark

  /** How a cast ends: all commands issued, its abort, and whether an exception cut it short. */
  datatype Outcome = Outcome(commands: seq<Command>, abort: Abort, raised: bool)

  /** An exception ends the cast where it stands. */
  ghost function CutShort(issued: seq<Command>): Outcome {
    Outcome(issued, NoAbort, true)
  }

  /** With or without an abort, only stop_sampling and the park are left. */
  ghost function Ending(env: Env, pos: ParkPos, issued: seq<Command>, abort: Abort): Outcome {
    if (StopSampling, 0) in env.raises then Outcome(issued, abort, true)
    else if abort == Abort(Some(false)) then Outcome(issued, abort, false)
    else if (PostCastPark, 0) in env.raises then Outcome(issued, abort, true)
    else if pos == ParkBottom then Outcome(issued, abort, false)
    else Outcome(issued + [Park(if pos == ParkInvalid then ParkDefault else pos)], abort, (PostCastPark, 1) in env.raises)
  }

  /** What an unaborted cast does once it is in position. */
  ghost function Collecting(env: Env, isco: bool, profile: bool, pos: ParkPos, placed: seq<Command>): Outcome {
    var cast := placed + if !profile then [] else if env.stoppedShort then [ToDepth, RaiseALittle, ToDepth] else [ToDepth];
    if (WaitForSched, 0) in env.raises || (StartSampling, 0) in env.raises || (DataCollection, 0) in env.raises then CutShort(placed)
    else if profile && (DataCollection, 1) in env.raises then CutShort(placed + [ToDepth])
    else if profile && env.stoppedShort && (DataCollection, 2) in env.raises then CutShort(placed + [ToDepth, RaiseALittle])
    else if profile && env.stoppedShort && (DataCollection, 3) in env.raises then CutShort(cast)
    else if profile && FaultWhileCasting(env.castStop) then Ending(env, pos, cast, Abort(Some(false)))
    else if !profile && isco && !env.iscoReady then Ending(env, pos, cast, Abort(None))
    else Ending(env, pos, cast, NoAbort)
  }

  /** What an unaborted cast does from pre_position on. */
  ghost function Positioning(env: Env, isco: bool, profile: bool, wipe: bool, pos: ParkPos, top: seq<Command>): Outcome {
    var low := top + [ToWaterline];
    var placed := if isco || !profile then low + [ToDepth] else low;
    if (PrePosition, 0) in env.raises then CutShort(top)
    else if (PrePosition, 1) in env.raises then CutShort(low)
    else if FaultAtWaterline(env.waterlineStop) then Ending(env, pos, low, Abort(Some(false)))
    else if wipe && env.wipeTimesOut then Ending(env, pos, low, Abort(Some(true)))
    else if (isco || !profile) && (PrePosition, 2) in env.raises then CutShort(placed)
    else if (isco || !profile) && FaultWhilePositioning(env.depthStop) then Ending(env, pos, placed, Abort(Some(false)))
    else Collecting(env, isco, profile, pos, placed)
  }

  /**
   * What a cast does that reaches its try block unaborted; `due` says that it calibrates first. The
   * first exception or fault on the way decides.
   */
  ghost function Course(env: Env, isco: bool, profile: bool, wipe: bool, due: bool, pos: ParkPos, before: seq<Command>): Outcome {
    var top := before + if due then [ToCalibration] else [];
    if due && (PreCastPark, 0) in env.raises then CutShort(before)
    else if due && (PreCastPark, 1) in env.raises then CutShort(top)
    else if due && FaultWhileParking(env.parkStop) then Ending(env, pos, top, Abort(Some(false)))
    else if due && (PreCalibrate, 0) in env.raises then CutShort(top)
    else if due && env.inWater then Ending(env, pos, top, Abort(Some(true)))
    else Positioning(env, isco, profile, wipe, pos, top)
  }

  /** The park that ends a cast, if any. */
  function ParkMove(pos: ParkPos): seq<Command> {
    if pos == ParkBottom then [] else if pos == ParkInvalid then [Park(ParkDefault)] else [Park(pos)]
  }

  predicate NoFaultAtTop(env: Env, due: bool) {
    due ==> env.parkStop !in [TempFault, Monitor(PosLimitSwitch)] && !env.inWater
  }

  predicate NoFaultAtWater(env: Env, wipe: bool) {
    env.waterlineStop !in [TempFault, Monitor(PosLimitSwitch), Monitor(NegLimitSwitch), Monitor(IpcConn)] && !(wipe && env.wipeTimesOut)
  }

  predicate NoFaultInPlace(env: Env, isco: bool, profile: bool) {
    isco || !profile ==> env.depthStop !in [TempFault, Monitor(PosLimitSwitch), Monitor(NegLimitSwitch)]
  }

  predicate NoFaultInCast(env: Env, isco: bool, profile: bool) {
    if profile then env.castStop !in [TempFault, Monitor(NegLimitSwitch), Monitor(IpcConn)] else isco ==> env.iscoReady
  }

  /** Nothing that the cast looks at on its way is a fault. */
  predicate NoFault(env: Env, isco: bool, profile: bool, wipe: bool, due: bool) {
    NoFaultAtTop(env, due) && NoFaultAtWater(env, wipe) && NoFaultInPlace(env, isco, profile) && NoFaultInCast(env, isco, profile)
  }

  /** The moves before the data collection. */
  function PlacingMoves(isco: bool, profile: bool, due: bool): seq<Command> {
    (if due then [ToCalibration] else []) + if isco || !profile then [ToWaterline, ToDepth] else [ToWaterline]
  }

  function CastMoves(env: Env, profile: bool): seq<Command> {
    if !profile then [] else if env.stoppedShort then [ToDepth, RaiseALittle, ToDepth] else [ToDepth]
  }

  /** A cast without faults and exceptions makes all its moves and parks. */
  lemma NothingWrong(env: Env, isco: bool, profile: bool, wipe: bool, due: bool, pos: ParkPos, before: seq<Command>)
    requires env.raises == {} && NoFault(env, isco, profile, wipe, due)
    ensures Course(env, isco, profile, wipe, due, pos, before) == Outcome(before + PlacingMoves(isco, profile, due) + CastMoves(env, profile) + ParkMove(pos), NoAbort, false)
  {
    PlacedAt(before, isco, profile, due);
  }

  lemma PlacedAt(before: seq<Command>, isco: bool, profile: bool, due: bool)
    ensures before + PlacingMoves(isco, profile, due) ==
            before + (if due then [ToCalibration] else []) + [ToWaterline] + if isco || !profile then [ToDepth] else []
  {
  }

  /** A motor fault or a positive limit on the way up stops the cast there; water where there should be none sends it to the park. */
  lemma FaultAtTop(env: Env, isco: bool, profile: bool, wipe: bool, due: bool, pos: ParkPos, before: seq<Command>)
    requires env.raises == {} && due
    ensures env.parkStop in [TempFault, Monitor(PosLimitSwitch)] ==>
              Course(env, isco, profile, wipe, due, pos, before) == Outcome(before + [ToCalibration], Abort(Some(false)), false)
    ensures env.parkStop !in [TempFault, Monitor(PosLimitSwitch)] && env.inWater ==>
              Course(env, isco, profile, wipe, due, pos, before) == Outcome(before + [ToCalibration] + ParkMove(pos), Abort(Some(true)), false)
  {
  }

  /** A fault on the way down to the waterline stops the cast there; a wipe that does not end sends it to the park. */
  lemma FaultAtWater(env: Env, isco: bool, profile: bool, wipe: bool, due: bool, pos: ParkPos, before: seq<Command>)
    requires env.raises == {} && NoFaultAtTop(env, due)
    ensures env.waterlineStop in [TempFault, Monitor(PosLimitSwitch), Monitor(NegLimitSwitch), Monitor(IpcConn)] ==>
              Course(env, isco, profile, wipe, due, pos, before) == Outcome(before + PlacingMoves(false, true, due), Abort(Some(false)), false)
    ensures env.waterlineStop !in [TempFault, Monitor(PosLimitSwitch), Monitor(NegLimitSwitch), Monitor(IpcConn)] && wipe && env.wipeTimesOut ==>
              Course(env, isco, profile, wipe, due, pos, before) == Outcome(before + PlacingMoves(false, true, due) + ParkMove(pos), Abort(Some(true)), false)
  {
    PlacedAt(before, false, true, due);
  }

  /** A fault at depth or during the cast stops it there; a sampler that is not ready sends it to the park. */
  lemma FaultAtDepth(env: Env, isco: bool, profile: bool, wipe: bool, due: bool, pos: ParkPos, before: seq<Command>)
    requires env.raises == {} && NoFaultAtTop(env, due) && NoFaultAtWater(env, wipe)
    ensures (isco || !profile) && env.depthStop in [TempFault, Monitor(PosLimitSwitch), Monitor(NegLimitSwitch)] ==>
              Course(env, isco, profile, wipe, due, pos, before) == Outcome(before + PlacingMoves(isco, profile, due), Abort(Some(false)), false)
    ensures NoFaultInPlace(env, isco, profile) && profile && env.castStop in [TempFault, Monitor(NegLimitSwitch), Monitor(IpcConn)] ==>
              Course(env, isco, profile, wipe, due, pos, before) == Outcome(before + PlacingMoves(isco, profile, due) + CastMoves(env, profile), Abort(Some(false)), false)
    ensures NoFaultInPlace(env, isco, profile) && !profile && isco && !env.iscoReady ==>
              Course(env, isco, profile, wipe, due, pos, before) == Outcome(before + PlacingMoves(isco, profile, due) + ParkMove(pos), Abort(None), false)
  {
    PlacedAt(before, isco, profile, due);
  }

  lemma PositioningIsReached(env: Env, isco: bool, profile: bool, wipe: bool, due: bool, pos: ParkPos, before: seq<Command>)
    requires NoFaultAtTop(env, due) && !RaisesIn(env, PreCastPark) && !RaisesIn(env, PreCalibrate)
    ensures Course(env, isco, profile, wipe, due, pos, before) == Positioning(env, isco, profile, wipe, pos, before + if due then [ToCalibration] else [])
  {
    assert (PreCastPark, 0) !in env.raises && (PreCastPark, 1) !in env.raises && (PreCalibrate, 0) !in env.raises;
  }

  lemma PlaceIsReached(env: Env, isco: bool, profile: bool, wipe: bool, pos: ParkPos, top: seq<Command>)
    requires NoFaultAtWater(env, wipe) && NoFaultInPlace(env, isco, profile) && !RaisesIn(env, PrePosition)
    ensures Positioning(env, isco, profile, wipe, pos, top) ==
            Collecting(env, isco, profile, pos, top + if isco || !profile then [ToWaterline, ToDepth] else [ToWaterline])
  {
    assert (PrePosition, 0) !in env.raises && (PrePosition, 1) !in env.raises && (PrePosition, 2) !in env.raises;
    assert top + [ToWaterline] + [ToDepth] == top + [ToWaterline, ToDepth];
  }

  lemma CollectingIsReached(env: Env, isco: bool, profile: bool, wipe: bool, due: bool, pos: ParkPos, before: seq<Command>)
    requires NoFault(env, isco, profile, wipe, due)
    requires !RaisesIn(env, PreCastPark) && !RaisesIn(env, PreCalibrate) && !RaisesIn(env, PrePosition)
    ensures Course(env, isco, profile, wipe, due, pos, before) == Collecting(env, isco, profile, pos, before + PlacingMoves(isco, profile, due))
  {
    var top := before + if due then [ToCalibration] else [];
    PositioningIsReached(env, isco, profile, wipe, due, pos, before);
    PlaceIsReached(env, isco, profile, wipe, pos, top);
    assert top + (if isco || !profile then [ToWaterline, ToDepth] else [ToWaterline]) == before + PlacingMoves(isco, profile, due);
  }

  predicate RaisesIn(env: Env, phase: Phase) {
    exists e :: e in env.raises && e.0 == phase
  }

  /** An exception in the first two phases ends a cast with the moves made by then, and nothing parks the sonde. */
  lemma ExceptionAtTop(env: Env, isco: bool, profile: bool, wipe: bool, due: bool, pos: ParkPos, before: seq<Command>, phase: Phase, n: nat)
    requires env.raises == {(phase, n)} && due && NoFault(env, isco, profile, wipe, due)
    ensures phase == PreCastPark && n <= 1 ==> Course(env, isco, profile, wipe, due, pos, before) == Outcome(before + [ToCalibration][..n], NoAbort, true)
    ensures phase == PreCalibrate && n == 0 ==> Course(env, isco, profile, wipe, due, pos, before) == Outcome(before + [ToCalibration], NoAbort, true)
  {
  }

  /** So does one in pre_position, */
  lemma ExceptionInPosition(env: Env, isco: bool, profile: bool, wipe: bool, due: bool, pos: ParkPos, before: seq<Command>, n: nat)
    requires env.raises == {(PrePosition, n)} && NoFault(env, isco, profile, wipe, due) && n <= if isco || !profile then 2 else 1
    ensures Course(env, isco, profile, wipe, due, pos, before) == Outcome(before + (if due then [ToCalibration] else []) + [ToWaterline, ToDepth][..n], NoAbort, true)
  {
    PositioningIsReached(env, isco, profile, wipe, due, pos, before);
    PositioningRaises(env, isco, profile, wipe, pos, before + if due then [ToCalibration] else [], n);
  }

  lemma PositioningRaises(env: Env, isco: bool, profile: bool, wipe: bool, pos: ParkPos, top: seq<Command>, n: nat)
    requires env.raises == {(PrePosition, n)} && n <= if isco || !profile then 2 else 1
    requires NoFaultAtWater(env, wipe)
    ensures Positioning(env, isco, profile, wipe, pos, top) == Outcome(top + [ToWaterline, ToDepth][..n], NoAbort, true)
  {
    assert n == 0 || n == 1 || n == 2;
    assert top + [ToWaterline] + [ToDepth] == top + [ToWaterline, ToDepth];
  }

  /** in wait_for_sched or start_sampling, */
  lemma ExceptionBeforeCast(env: Env, isco: bool, profile: bool, wipe: bool, due: bool, pos: ParkPos, before: seq<Command>, phase: Phase)
    requires env.raises == {(phase, 0)} && phase in [WaitForSched, StartSampling] && NoFault(env, isco, profile, wipe, due)
    ensures Course(env, isco, profile, wipe, due, pos, before) == Outcome(before + PlacingMoves(isco, profile, due), NoAbort, true)
  {
    CollectingIsReached(env, isco, profile, wipe, due, pos, before);
  }

  /** or in the data collection. */
  lemma ExceptionInCast(env: Env, isco: bool, profile: bool, wipe: bool, due: bool, pos: ParkPos, before: seq<Command>, n: nat)
    requires env.raises == {(DataCollection, n)} && NoFault(env, isco, profile, wipe, due)
    requires if profile then n <= |CastMoves(env, profile)| && (n == 2 ==> env.stoppedShort) else n == 0
    ensures Course(env, isco, profile, wipe, due, pos, before) == Outcome(before + PlacingMoves(isco, profile, due) + CastMoves(env, profile)[..n], NoAbort, true)
  {
    CollectingIsReached(env, isco, profile, wipe, due, pos, before);
  }

  /** One that comes later leaves all moves made, and the park too if that raises it. */
  lemma ExceptionAfterCast(env: Env, isco: bool, profile: bool, wipe: bool, due: bool, pos: ParkPos, before: seq<Command>, phase: Phase, n: nat)
    requires env.raises == {(phase, n)} && NoFault(env, isco, profile, wipe, due)
    ensures phase in [StopSampling, PostCastPark] && n == 0 ==>
              Course(env, isco, profile, wipe, due, pos, before) == Outcome(before + PlacingMoves(isco, profile, due) + CastMoves(env, profile), NoAbort, true)
    ensures phase == PostCastPark && n == 1 && pos != ParkBottom ==>
              Course(env, isco, profile, wipe, due, pos, before) == Outcome(before + PlacingMoves(isco, profile, due) + CastMoves(env, profile) + ParkMove(pos), NoAbort, true)
  {
    if phase in [StopSampling, PostCastPark] {
      CollectingIsReached(env, isco, profile, wipe, due, pos, before);
    }
  }

  predicate EndsWithPark(commands: seq<Command>) {
    commands != [] && commands[|commands| - 1].Park?
  }

  lemma CollectingUnparkable(env: Env, isco: bool, profile: bool, pos: ParkPos, placed: seq<Command>)
    ensures var out := Collecting(env, isco, profile, pos, placed);
            out.abort == Abort(Some(false)) ==> placed < out.commands && !EndsWithPark(out.commands)
  {
  }

  lemma PositioningUnparkable(env: Env, isco: bool, profile: bool, wipe: bool, pos: ParkPos, top: seq<Command>)
    ensures var out := Positioning(env, isco, profile, wipe, pos, top);
            out.abort == Abort(Some(false)) ==> top < out.commands && !EndsWithPark(out.commands)
  {
    if isco || !profile {
      CollectingUnparkable(env, isco, profile, pos, top + [ToWaterline] + [ToDepth]);
    } else {
      CollectingUnparkable(env, isco, profile, pos, top + [ToWaterline]);
    }
  }

  /** After an abort that forbids it, the sonde is not parked. */
  lemma UnparkableEnds(env: Env, isco: bool, profile: bool, wipe: bool, due: bool, pos: ParkPos, before: seq<Command>)
    ensures var out := Course(env, isco, profile, wipe, due, pos, before);
            out.abort == Abort(Some(false)) ==> before < out.commands && !EndsWithPark(out.commands)
  {
    PositioningUnparkable(env, isco, profile, wipe, pos, before + if due then [ToCalibration] else []);
  }

  /** An aborted cast still parks, unless that is forbidden or stop_sampling raises. */
  lemma EndingFacts(env: Env, pos: ParkPos, issued: seq<Command>, abort: Abort, out: Outcome)
    requires out == Ending(env, pos, issued, abort)
    ensures out.abort == abort
    ensures abort == Abort(Some(false)) ==> out.commands == issued
    ensures env.raises == {} && abort != Abort(Some(false)) ==> out == Outcome(issued + ParkMove(pos), abort, false)
    ensures (StopSampling, 0) in env.raises ==> out == Outcome(issued, abort, true)
  {
  }

  /** Without a fault or an exception all moves are made; after an abort that forbids it, the sonde is not parked. */
  lemma CourseFacts(env: Env, isco: bool, profile: bool, wipe: bool, due: bool, pos: ParkPos, before: seq<Command>, out: Outcome)
    requires out == Course(env, isco, profile, wipe, due, pos, before)
    ensures env.raises == {} && NoFault(env, isco, profile, wipe, due) ==>
              out == Outcome(before + PlacingMoves(isco, profile, due) + CastMoves(env, profile) + ParkMove(pos), NoAbort, false)
    ensures out.abort == Abort(Some(false)) ==> before < out.commands && !EndsWithPark(out.commands)
  {
    UnparkableEnds(env, isco, profile, wipe, due, pos, before);
    if env.raises == {} && NoFault(env, isco, profile, wipe, due) {
      NothingWrong(env, isco, profile, wipe, due, pos, before);
    }
  }

  class Cast {
    var abort: Abort
    var isco: bool
    var profile: bool
    var wipe: bool
    var preCal: bool
    var parkPos: ParkPos
    var commands: seq<Command>
    var castsStarted: nat
    var castsCompleted: nat

    constructor ()
      ensures commands == [] && castsStarted == castsCompleted == 0
    {
      abort, isco, profile, wipe, preCal, parkPos := NoAbort, false, true, true, true, ParkDefault;
      commands, castsStarted, castsCompleted := [], 0, 0;
    }

    /** The abort forbids every further winch move. */
    predicate Unparkable()
      reads this
    {
      abort == Abort(Some(false))
    }

    /** What every phase keeps: an unparkable abort stays so, and an aborted cast issues no command. */
    twostate predicate PhaseKeepsAbort()
      reads this
    {
      && (old(abort) != NoAbort ==> abort == old(abort) && commands == old(commands))
      && old(commands) <= commands
      && isco == old(isco) && profile == old(profile) && wipe == old(wipe) && parkPos == old(parkPos)
      && castsStarted == old(castsStarted) && castsCompleted == old(castsCompleted)
    }

    method PreConfig(lisstCast: bool, iscoCast: bool, profileCast: bool, wipeFirst: bool, calibrateFirst: bool, pos: ParkPos)
      modifies this`abort, this`isco, this`profile, this`wipe, this`preCal, this`parkPos
      ensures isco == iscoCast && profile == (profileCast && !iscoCast) && wipe == wipeFirst && preCal == calibrateFirst && parkPos == pos
      ensures abort == if iscoCast && lisstCast then Abort(None) else NoAbort
    {
      isco, profile, wipe, preCal, parkPos := iscoCast, profileCast, wipeFirst, calibrateFirst, pos;
      abort := NoAbort;
      if isco {
        if lisstCast {
          abort := Abort(None);
        }
        profile := false;
      }
    }

    /** aio_setup, broker_setup, get_tokens, check_instrument_status and init_instruments. */
    method SetupPhase(fails: bool)
      modifies this`abort
      ensures PhaseKeepsAbort()
      ensures abort == if old(abort) == NoAbort && fails then Abort(None) else old(abort)
    {
      if abort != NoAbort {
        return;
      }
      if fails {
        abort := Abort(None);
      }
    }

    /** init_db runs in an aborted cast too, but leaves the 'park' entry alone. */
    method InitDb(fails: bool)
      modifies this`abort
      ensures PhaseKeepsAbort()
      ensures abort == if old(abort) == NoAbort && fails then Abort(None) else old(abort)
    {
      if fails {
        abort := Abort(if abort == NoAbort then None else abort.park);
      }
    }

    method CheckPosition(calibrated: bool)
      modifies this`preCal
      ensures PhaseKeepsAbort()
      ensures preCal == (old(preCal) && !isco && profile && !calibrated)
    {
      if isco {
        preCal := false;
      } else if !profile {
        preCal := false;
      } else if calibrated {
        preCal := false;
      }
    }

    method DoPreCastPark(env: Env) returns (raised: bool)
      modifies this`abort, this`commands
      ensures PhaseKeepsAbort()
      ensures old(abort) == NoAbort ==>
                commands == old(commands) + (if preCal && (PreCastPark, 0) !in env.raises then [ToCalibration] else [])
                && raised == (preCal && ((PreCastPark, 0) in env.raises || (PreCastPark, 1) in env.raises))
                && abort == if preCal && !raised && FaultWhileParking(env.parkStop) then Abort(Some(false)) else NoAbort
      ensures old(abort) != NoAbort ==> !raised
    {
      raised := false;
      if abort != NoAbort || !preCal {
        return;
      }
      if (PreCastPark, 0) in env.raises {
        return true;
      }
      commands := commands + [ToCalibration];
      if (PreCastPark, 1) in env.raises {
        return true;
      }
      if FaultWhileParking(env.parkStop) {
        abort := Abort(Some(false));
      }
    }

    method DoPreCalibrate(env: Env) returns (raised: bool)
      modifies this`abort
      ensures PhaseKeepsAbort()
      ensures raised == (old(abort) == NoAbort && preCal && (PreCalibrate, 0) in env.raises)
      ensures old(abort) == NoAbort ==> abort == if preCal && !raised && env.inWater then Abort(Some(true)) else NoAbort
    {
      raised := false;
      if abort != NoAbort || !preCal {
        return;
      }
      if (PreCalibrate, 0) in env.raises {
        return true;
      }
      if env.inWater {
        abort := Abort(Some(true));
      }
    }

    method DoPrePosition(env: Env) returns (raised: bool)
      modifies this`abort, this`commands
      ensures PhaseKeepsAbort()
      ensures old(abort) != NoAbort ==> !raised
      ensures old(abort) == NoAbort ==>
                var low := old(commands) + [ToWaterline];
                if (PrePosition, 0) in env.raises then raised && abort == NoAbort && commands == old(commands)
                else if (PrePosition, 1) in env.raises then raised && abort == NoAbort && commands == low
                else if FaultAtWaterline(env.waterlineStop) then
                  !raised && abort == Abort(Some(false)) && commands == low
                else if wipe && env.wipeTimesOut then !raised && abort == Abort(Some(true)) && commands == low
                else if !isco && profile then !raised && abort == NoAbort && commands == low
                else if (PrePosition, 2) in env.raises then raised && abort == NoAbort && commands == low + [ToDepth]
                else
                  !raised && commands == low + [ToDepth]
                  && abort == if FaultWhilePositioning(env.depthStop) then Abort(Some(false)) else NoAbort
    {
      raised := false;
      if abort != NoAbort {
        return;
      }
      if (PrePosition, 0) in env.raises {
        return true;
      }
      commands := commands + [ToWaterline];
      if (PrePosition, 1) in env.raises {
        return true;
      }
      if FaultAtWaterline(env.waterlineStop) {
        abort := Abort(Some(false));
        return;
      }
      if wipe {
        if env.wipeTimesOut {
          abort := Abort(Some(true));
          return;
        }
      }
      if isco || !profile {
        commands := commands + [ToDepth];
        if (PrePosition, 2) in env.raises {
          return true;
        }
        if FaultWhilePositioning(env.depthStop) {
          abort := Abort(Some(false));
        }
      }
    }

    /** wait_for_sched, start_sampling and stop_sampling issue no command and never abort; the last also runs in an aborted cast. */
    method QuietPhase(phase: Phase, env: Env) returns (raised: bool)
      ensures raised == ((abort == NoAbort || phase == StopSampling) && (phase, 0) in env.raises)
    {
      if abort != NoAbort && phase != StopSampling {
        return false;
      }
      raised := (phase, 0) in env.raises;
    }

    method DoDataCollection(env: Env) returns (raised: bool)
      modifies this`abort, this`commands
      ensures PhaseKeepsAbort()
      ensures old(abort) != NoAbort ==> !raised
      ensures old(abort) == NoAbort ==>
                if (DataCollection, 0) in env.raises then raised && abort == NoAbort && commands == old(commands)
                else if !profile then
                  !raised && commands == old(commands) && abort == if isco && !env.iscoReady then Abort(None) else NoAbort
                else if (DataCollection, 1) in env.raises then raised && abort == NoAbort && commands == old(commands) + [ToDepth]
                else if env.stoppedShort && (DataCollection, 2) in env.raises then
                  raised && abort == NoAbort && commands == old(commands) + [ToDepth, RaiseALittle]
                else
                  commands == old(commands) + (if env.stoppedShort then [ToDepth, RaiseALittle, ToDepth] else [ToDepth])
                  && raised == (env.stoppedShort && (DataCollection, 3) in env.raises)
                  && abort == if !raised && FaultWhileCasting(env.castStop) then Abort(Some(false)) else NoAbort
    {
      raised := false;
      if abort != NoAbort {
        return;
      }
      if (DataCollection, 0) in env.raises {
        return true;
      }
      if profile {
        commands := commands + [ToDepth];
        if (DataCollection, 1) in env.raises {
          return true;
        }
        if env.stoppedShort {
          commands := commands + [RaiseALittle];
          if (DataCollection, 2) in env.raises {
            return true;
          }
          commands := commands + [ToDepth];
          if (DataCollection, 3) in env.raises {
            return true;
          }
        }
        // only the first of the three moves is looked at
        if FaultWhileCasting(env.castStop) {
          abort := Abort(Some(false));
        }
      } else if isco {
        if !env.iscoReady {
          abort := Abort(None);
        }
      }
    }

    /** The one phase that moves the winch in an aborted cast, unless the abort forbids parking. */
    method DoPostCastPark(env: Env) returns (raised: bool)
      modifies this`commands, this`parkPos
      ensures old(Unparkable()) ==> commands == old(commands) && parkPos == old(parkPos) && !raised
      ensures !old(Unparkable()) ==>
                if (PostCastPark, 0) in env.raises then raised && commands == old(commands) && parkPos == old(parkPos)
                else
                  parkPos == (if old(parkPos) == ParkInvalid then ParkDefault else old(parkPos))
                  && commands == old(commands) + (if parkPos == ParkBottom then [] else [Park(parkPos)])
                  && raised == (parkPos != ParkBottom && (PostCastPark, 1) in env.raises)
    {
      raised := false;
      if abort.Abort? && abort.park == Some(false) {
        return;
      }
      if (PostCastPark, 0) in env.raises {
        return true;
      }
      if parkPos == ParkInvalid {
        parkPos := ParkDefault;
      }
      if parkPos != ParkBottom {
        commands := commands + [Park(parkPos)];
        raised := (PostCastPark, 1) in env.raises;
      }
    }

    method FinishCast()
      modifies this`castsCompleted
      ensures castsCompleted == old(castsCompleted) + if abort == NoAbort then 1 else 0
    {
      if abort == NoAbort {
        castsCompleted := castsCompleted + 1;
      }
    }

    /** From wait_for_sched to the park. */
    method CollectAndPark(env: Env) returns (raised: bool)
      modifies this`abort, this`commands, this`parkPos
      ensures old(commands) <= commands
      ensures Outcome(commands, abort, raised) ==
              if old(abort) == NoAbort then Collecting(env, isco, profile, old(parkPos), old(commands))
              else Ending(env, old(parkPos), old(commands), old(abort))
    {
      raised := QuietPhase(WaitForSched, env);
      if raised { return; }
      raised := QuietPhase(StartSampling, env);
      if raised { return; }
      raised := DoDataCollection(env);
      if raised { return; }
      raised := QuietPhase(StopSampling, env);
      if raised { return; }
      raised := DoPostCastPark(env);
    }

    /** From pre_position to the park. */
    method PositionAndGoOn(env: Env) returns (raised: bool)
      modifies this`abort, this`commands, this`parkPos
      ensures old(commands) <= commands
      ensures Outcome(commands, abort, raised) ==
              if old(abort) == NoAbort then Positioning(env, isco, profile, wipe, old(parkPos), old(commands))
              else Ending(env, old(parkPos), old(commands), old(abort))
    {
      raised := DoPrePosition(env);
      if raised { return; }
      raised := CollectAndPark(env);
    }

    /** The phases inside the try block; an exception skips the rest of them, parking included. */
    method TryPhases(env: Env) returns (raised: bool)
      modifies this`abort, this`commands, this`parkPos
      ensures old(commands) <= commands
      ensures Outcome(commands, abort, raised) ==
              if old(abort) == NoAbort then Course(env, isco, profile, wipe, preCal, old(parkPos), old(commands))
              else Ending(env, old(parkPos), old(commands), old(abort))
    {
      raised := DoPreCastPark(env);
      if raised { return; }
      raised := DoPreCalibrate(env);
      if raised { return; }
      raised := PositionAndGoOn(env);
    }

    /** The steps before the try block. */
    method SetUp(env: Env)
      modifies this`abort, this`preCal
      ensures abort == if old(abort) == NoAbort && (env.initDbFails || true in env.setupFails) then Abort(None) else old(abort)
      ensures preCal == (old(preCal) && !isco && profile && !env.calibrated)
    {
      for i := 0 to |env.setupFails|
        invariant preCal == old(preCal)
        invariant abort == if old(abort) == NoAbort && true in env.setupFails[..i] then Abort(None) else old(abort)
      {
        SetupPhase(env.setupFails[i]);
        assert env.setupFails[..i + 1] == env.setupFails[..i] + [env.setupFails[i]];
      }
      assert env.setupFails[..|env.setupFails|] == env.setupFails;
      InitDb(env.initDbFails);
      CheckPosition(env.calibrated);
    }

    /** A whole cast. A failed setup step leaves only the park to do, an exception in check_position nothing at all. */
    method Start(env: Env) returns (raised: bool)
      modifies this`abort, this`preCal, this`commands, this`parkPos, this`castsStarted, this`castsCompleted
      ensures castsStarted == old(castsStarted) + 1
      ensures castsCompleted == old(castsCompleted) + if abort == NoAbort && !env.setupRaises then 1 else 0
      ensures old(commands) <= commands
      ensures Outcome(commands, abort, raised) ==
              var setup := if old(abort) == NoAbort && (env.initDbFails || true in env.setupFails) then Abort(None) else old(abort);
              var due := old(preCal) && !isco && profile && !env.calibrated;
              if env.setupRaises then Outcome(old(commands), setup, true)
              else if setup == NoAbort then Course(env, isco, profile, wipe, due, old(parkPos), old(commands))
              else Ending(env, old(parkPos), old(commands), setup)
      // nothing goes wrong
      ensures var due := old(preCal) && !isco && profile && !env.calibrated;
              !env.setupRaises && env.raises == {} && old(abort) == NoAbort && !env.initDbFails && true !in env.setupFails
              && NoFault(env, isco, profile, wipe, due) ==>
                !raised && abort == NoAbort
                && commands == old(commands)
                               + ((if due then [ToCalibration] else []) + (if isco || !profile then [ToWaterline, ToDepth] else [ToWaterline]))
                               + (if !profile then [] else if env.stoppedShort then [ToDepth, RaiseALittle, ToDepth] else [ToDepth])
                               + ParkMove(old(parkPos))
      // some setup step fails
      ensures !env.setupRaises && env.raises == {} && old(abort) == NoAbort && (env.initDbFails || true in env.setupFails) ==>
                !raised && abort == Abort(None) && commands == old(commands) + ParkMove(old(parkPos))
      // an abort that forbids parking
      ensures old(abort) == Abort(Some(false)) ==> abort == old(abort) && commands == old(commands)
      ensures abort == Abort(Some(false)) && commands != old(commands) ==> !EndsWithPark(commands)
    {
      castsStarted := castsStarted + 1;
      SetUp(env);
      if env.setupRaises {
        return true;
      }
      ghost var setup, due := abort, preCal;
      raised := TryPhases(env);
      if setup == NoAbort {
        CourseFacts(env, isco, profile, wipe, due, old(parkPos), old(commands), Outcome(commands, abort, raised));
      } else {
        EndingFacts(env, old(parkPos), old(commands), setup, Outcome(commands, abort, raised));
      }
      FinishCast();
    }

    /** Any phases in any order and number, short of pre_config: an unparkable abort stays and stops the winch. */
    method AnyPhases(calls: seq<(Call, Env)>)
      modifies this
      ensures old(Unparkable()) ==> Unparkable() && commands == old(commands) && castsCompleted == old(castsCompleted)
    {
      for i := 0 to |calls|
        invariant old(Unparkable()) ==> Unparkable() && commands == old(commands) && castsCompleted == old(castsCompleted)
      {
        var env := calls[i].1;
        match calls[i].0 {
          case Setup(fails) => SetupPhase(fails);
          case Database => InitDb(env.initDbFails);
          case Position => CheckPosition(env.calibrated);
          case Finish => FinishCast();
          case Procedure(PreCastPark) => var raised := DoPreCastPark(env);
          case Procedure(PreCalibrate) => var raised := DoPreCalibrate(env);
          case Procedure(PrePosition) => var raised := DoPrePosition(env);
          case Procedure(DataCollection) => var raised := DoDataCollection(env);
          case Procedure(PostCastPark) => var raised := DoPostCastPark(env);
          case Procedure(phase) => var raised := QuietPhase(phase, env);
        }
      }
    }
  }

  datatype Call = Setup(fails: bool) | Database | Position | Procedure(phase: Phase) | Finish
}
