/**
 * The two versions of the W83627HF watchdog driver: the original one of Linux 3.11 and the modified
 * one with the ignorehalt option. Both drive the chip through an index port and a data port.
 */
module Watchdog {
  import opened Options

  type byte = x: int | 0 <= x < 256

  // ---------- The chip behind its two ports ----------

  /** A configuration register: global ones below 0x30, the others per logical device. */
  datatype Register = Global(index: int) | Local(device: int, index: int)

  type Registers = map<Register, byte>

  const CRF5 := Local(8, 0xF5)
  const CRF6 := Local(8, 0xF6)
  const CRF7 := Local(8, 0xF7)
  const CR30 := Local(8, 0x30)

  function Get(regs: Registers, r: Register): byte {
    if r in regs then regs[r] else 0
  }

  function And(a: byte, b: byte): byte {
    ((a as bv8) & (b as bv8)) as int
  }

  function Or(a: byte, b: byte): byte {
    ((a as bv8) | (b as bv8)) as int
  }

  /** keys counts the 0x87 bytes seen; two of them open the extended function mode. */
  datatype Chip = Chip(keys: int, index: int, device: int, regs: Registers)

  function Selected(c: Chip): Register {
    if c.index < 0x30 then Global(c.index) else Local(c.device, c.index)
  }

  /** A byte written to the enable/index port. */
  function WriteIndex(c: Chip, b: byte): Chip {
    if c.keys < 2 then c.(keys := if b == 0x87 then c.keys + 1 else 0)
    else if b == 0xAA then c.(keys := 0)
    else c.(index := b)
  }

  /** A byte written to the data port: register 7 holds the logical device number. */
  function WriteData(c: Chip, b: byte): Chip {
    if c.keys < 2 then c
    else if c.index == 7 then c.(device := b)
    else c.(regs := c.regs[Selected(c) := b])
  }

  function ReadData(c: Chip): byte {
    if c.keys < 2 then 0xFF else if c.index == 7 then (if 0 <= c.device < 256 then c.device else 0) else Get(c.regs, Selected(c))
  }

  // ---------- What the register sequences amount to ----------

  datatype Variant = Original | Modified

  /** Entering the watchdog registers: the output pin is routed by chip version and device 8 activated. */
  function SelectRegs(v: Variant, regs: Registers): Registers {
    var id := Get(regs, Global(0x20));
    var r :=
      if id == 0x82 then regs[Global(0x2b) := Or(And(Get(regs, Global(0x2b)), 0xf7), 0x04)]
      else if id == 0x88 || id == 0xa0 then regs[Global(0x2d) := And(Get(regs, Global(0x2d)), 0xfe)]
      else if v == Modified && id == 0x52 then regs[Global(0x2b) := And(Get(regs, Global(0x2b)), 0xf7)]
      else regs;
    r[CR30 := 1]
  }

  function SetTimeRegs(v: Variant, regs: Registers, t: byte): Registers {
    var r := SelectRegs(v, regs);
    var r := if v == Original then r
             else if Get(r, CRF6) == 0 then r[CRF7 := Or(Get(r, CRF7), 0x30)]
             else r[CRF7 := And(Get(r, CRF7), 0xEF)];
    r[CRF6 := t]
  }

  function InitRegs(v: Variant, regs: Registers, timeout: byte): Registers {
    var r := SelectRegs(v, regs);
    var r := if Get(r, CRF6) != 0 then r[CRF6 := timeout] else r;
    var r := r[CRF5 := Or(And(Get(r, CRF5), 0xF3), 0x02)];
    r[CRF7 := And(Get(r, CRF7), 0x3F)]
  }

  /** The registers that a driver version may write on a chip of the given version. */
  function Touched(v: Variant, id: byte): set<Register> {
    {CR30, CRF6}
    + (if id == 0x82 || (v == Modified && id == 0x52) then {Global(0x2b)} else {})
    + (if id == 0x88 || id == 0xa0 then {Global(0x2d)} else {})
    + (if v == Modified then {CRF7} else {})
  }

  lemma SetTimeTouchesOnly(v: Variant, regs: Registers, t: byte, r: Register)
    requires r !in Touched(v, Get(regs, Global(0x20)))
    ensures Get(SetTimeRegs(v, regs, t), r) == Get(regs, r)
  {
  }

  /** Initialisation writes those and its two configuration registers. */
  lemma InitTouchesOnly(v: Variant, regs: Registers, timeout: byte, r: Register)
    requires r !in Touched(v, Get(regs, Global(0x20))) + {CRF5, CRF7}
    ensures Get(InitRegs(v, regs, timeout), r) == Get(regs, r)
  {
  }

  lemma MaskSamples()
    ensures And(0xFF, 0x3F) == 0x3F && And(0x5A, 0xF0) == 0x50 && Or(0x0F, 0x30) == 0x3F && Or(0x5A, 0x04) == 0x5E
  {
  }

  /** Each access to the watchdog registers activates device 8 and routes the output pin as the chip version asks. */
  lemma PinIsRouted(v: Variant, regs: Registers, t: byte)
    ensures var id := Get(regs, Global(0x20));
            var r := SetTimeRegs(v, regs, t);
            && Get(r, Local(8, 0x30)) == 1 && Get(r, Global(0x20)) == id
            && (id == 0x82 ==> Get(r, Global(0x2b)) == Or(And(Get(regs, Global(0x2b)), 0xf7), 0x04))
            && (id == 0x88 || id == 0xa0 ==> Get(r, Global(0x2d)) == And(Get(regs, Global(0x2d)), 0xfe))
            && (id == 0x52 && v == Modified ==> Get(r, Global(0x2b)) == And(Get(regs, Global(0x2b)), 0xf7))
  {
  }

  /** The count is in the counter; the modified driver also clears the status bit, or sets the control bits while stopped. */
  lemma CountIsSet(v: Variant, regs: Registers, t: byte)
    ensures var r := SetTimeRegs(v, regs, t);
            && Get(r, Local(8, 0xF6)) == t
            && Get(r, Local(8, 0xF7)) ==
               if v == Original then Get(regs, Local(8, 0xF7))
               else if Get(regs, Local(8, 0xF6)) == 0 then Or(Get(regs, Local(8, 0xF7)), 0x30)
               else And(Get(regs, Local(8, 0xF7)), 0xEF)
  {
  }

  /** Initialisation restarts a running countdown and leaves a stopped one alone. */
  lemma InitRestarts(v: Variant, regs: Registers, timeout: byte)
    ensures var r := InitRegs(v, regs, timeout);
            Get(r, Local(8, 0x30)) == 1 && Get(r, Local(8, 0xF6)) == if Get(regs, Local(8, 0xF6)) == 0 then 0 else timeout
  {
  }

  /** It counts seconds and lets neither the keyboard nor the mouse turn the watchdog off. */
  lemma InitConfigures(v: Variant, regs: Registers, timeout: byte)
    ensures Get(InitRegs(v, regs, timeout), Local(8, 0xF5)) == Or(And(Get(regs, Local(8, 0xF5)), 0xF3), 0x02)
    ensures Get(InitRegs(v, regs, timeout), Local(8, 0xF7)) == And(Get(regs, Local(8, 0xF7)), 0x3F)
  {
    var r := SelectRegs(v, regs);
    assert Get(r, CRF5) == Get(regs, CRF5) && Get(r, CRF7) == Get(regs, CRF7);
  }

  // ---------- Calls and their results ----------

  datatype Code = Down | Halt | OtherCode

  /** An argument read from user memory; None is a bad address. */
  datatype Ioctl =
    | GetSupport(bad: bool) | GetStatus(bad: bool) | SetOptions(options: Option<(bool, bool)>) | KeepAlive
    | SetTimeout(arg: Option<int>, bad: bool) | GetTimeout(bad: bool) | GetTimeLeft(bad: bool) | OtherIoctl

  datatype Call = Open | Write(buf: seq<Option<char>>) | Close | Notify(code: Code) | Control(ioctl: Ioctl) | Tick

  datatype Ret = Ok(count: int) | Fault | Invalid | Busy | NoTty | Value(value: int)

  datatype Config = Config(nowayout: bool, ignorehalt: bool)

  /** The static variables of the driver, the chip registers, and the counts programmed so far. */
  datatype State = State(timeout: int, expectClose: int, open: bool, regs: Registers, programmed: seq<byte>)

  predicate TimeoutOk(t: int) {
    1 <= t <= 255
  }

  /** Programming a count, by wdt_set_time. */
  function Program(v: Variant, s: State, t: byte): State {
    s.(regs := SetTimeRegs(v, s.regs, t), programmed := s.programmed + [t])
  }

  function Ping(v: Variant, s: State): State
    requires TimeoutOk(s.timeout)
  {
    Program(v, s, s.timeout)
  }

  function Disable(v: Variant, s: State): State {
    Program(v, s, 0)
  }

  /** How many bytes can be read before the first bad address. */
  function Readable(buf: seq<Option<char>>): (n: nat)
    ensures n <= |buf|
  {
    if buf == [] || buf[0].None? then 0 else 1 + Readable(buf[1..])
  }

  function DoWrite(v: Variant, cfg: Config, s: State, buf: seq<Option<char>>): (State, Ret)
    requires TimeoutOk(s.timeout)
  {
    if buf == [] then (s, Ok(0))
    else if cfg.nowayout then (Ping(v, s), Ok(|buf|))
    else
      var n := Readable(buf);
      var s := s.(expectClose := if Some('V') in buf[..n] then 42 else 0);
      if n < |buf| then (s, Fault) else (Ping(v, s), Ok(|buf|))
  }

  function DoIoctl(v: Variant, s: State, c: Ioctl): (State, Ret)
    requires TimeoutOk(s.timeout)
  {
    match c
    case GetSupport(bad) => (s, if bad then Fault else Ok(0))
    case GetStatus(bad) => (s, if bad then Fault else Value(0))
    case SetOptions(None) => (s, Fault)
    case SetOptions(Some(options)) =>
      var d := if options.0 then Disable(v, s) else s;
      var e := if options.1 then Ping(v, d) else d;
      (e, if options.0 || options.1 then Ok(0) else Invalid)
    case KeepAlive => (Ping(v, s), Ok(0))
    case SetTimeout(None, _) => (s, Fault)
    case SetTimeout(Some(t), bad) =>
      if TimeoutOk(t) then (Ping(v, s.(timeout := t)), if bad then Fault else Value(t)) else (s, Invalid)
    case GetTimeout(bad) => (s, if bad then Fault else Value(s.timeout))
    case GetTimeLeft(bad) =>
      var r := SelectRegs(v, s.regs);
      (s.(regs := r), if bad then Fault else Value(Get(r, CRF6)))
    case OtherIoctl => (s, NoTty)
  }

  function Do(v: Variant, cfg: Config, s: State, c: Call): (State, Ret)
    requires TimeoutOk(s.timeout)
  {
    match c
    case Open => if s.open then (s, Busy) else (Ping(v, s.(open := true)), Ok(0))
    case Write(buf) => DoWrite(v, cfg, s, buf)
    case Close =>
      var d := if s.expectClose == 42 then Disable(v, s) else Ping(v, s);
      (d.(expectClose := 0, open := false), Ok(0))
    case Notify(code) =>
      (if (code == Down || code == Halt) && !(v == Modified && cfg.ignorehalt) then Disable(v, s) else s, Ok(0))
    case Control(ioctl) => DoIoctl(v, s, ioctl)
    case Tick => (s.(regs := s.regs[CRF6 := if Get(s.regs, CRF6) > 0 then Get(s.regs, CRF6) - 1 else 0]), Ok(0))
  }

  // ---------- The driver itself, port by port ----------

  class Driver {
    const variant: Variant
    const nowayout: bool
    const ignorehalt: bool
    var timeout: int
    var expectClose: int
    var isOpen: bool
    var chip: Chip
    ghost var programmed: seq<byte>

    ghost predicate Valid()
      reads this
    {
      TimeoutOk(timeout) && chip.keys == 0
    }

    ghost function Abstract(): State
      reads this
    {
      State(timeout, expectClose, isOpen, chip.regs, programmed)
    }

    method Out(b: byte)
      modifies this`chip
      ensures chip == WriteIndex(old(chip), b)
    {
      chip := WriteIndex(chip, b);
    }

    method OutData(b: byte)
      modifies this`chip
      ensures chip == WriteData(old(chip), b)
    {
      chip := WriteData(chip, b);
    }

    method In() returns (b: byte)
      ensures b == ReadData(chip)
    {
      b := ReadData(chip);
    }

    method SelectWdRegister()
      requires chip.keys == 0
      modifies this`chip
      ensures chip.keys == 2 && chip.device == 8 && chip.regs == SelectRegs(variant, old(chip.regs))
    {
      Out(0x87);
      Out(0x87);
      Out(0x20);
      var c := In();
      if c == 0x82 {
        Out(0x2b);
        var g := In();
        Out(0x2b);
        OutData(Or(And(g, 0xf7), 0x04));
      } else if c == 0x88 || c == 0xa0 {
        Out(0x2d);
        var g := In();
        Out(0x2d);
        OutData(And(g, 0xfe));
      } else if variant == Modified && c == 0x52 {
        Out(0x2b);
        var g := In();
        Out(0x2b);
        OutData(And(g, 0xf7));
      }
      Out(0x07);
      OutData(0x08);
      Out(0x30);
      OutData(0x01);
    }

    method SetTime(t: byte)
      requires Valid()
      modifies this`chip, this`programmed
      ensures Valid() && Abstract() == Program(variant, old(Abstract()), t)
    {
      SelectWdRegister();
      if variant == Modified {
        Out(0xF6);
        var left := In();
        Out(0xF7);
        var u := In();
        if left == 0 {
          Out(0xF7);
          OutData(Or(u, 0x30));
          u := In();
        } else {
          OutData(And(u, 0xEF));
        }
      }
      Out(0xF6);
      OutData(t);
      Out(0xAA);
      programmed := programmed + [t];
    }

    method GetTime() returns (left: byte)
      requires Valid()
      modifies this`chip
      ensures Valid() && Abstract() == old(Abstract()).(regs := SelectRegs(variant, old(chip.regs)))
      ensures left == Get(chip.regs, CRF6)
    {
      SelectWdRegister();
      Out(0xF6);
      left := In();
      Out(0xAA);
    }

    method SetHeartbeat(t: int) returns (ok: bool)
      modifies this`timeout
      ensures ok == TimeoutOk(t) && timeout == if ok then t else old(timeout)
    {
      if t < 1 || t > 255 {
        return false;
      }
      timeout := t;
      return true;
    }

    /** Module initialisation: the timeout is checked and the chip configured. */
    constructor (v: Variant, cfg: Config, timeoutParam: int, chip: Chip)
      requires chip.keys == 0
      ensures Valid() && variant == v && nowayout == cfg.nowayout && ignorehalt == cfg.ignorehalt
      ensures timeout == if TimeoutOk(timeoutParam) then timeoutParam else 60
      ensures Abstract() == State(timeout, 0, false, InitRegs(v, chip.regs, timeout), [])
    {
      variant, nowayout, ignorehalt := v, cfg.nowayout, cfg.ignorehalt;
      timeout, expectClose, isOpen, this.chip, programmed := timeoutParam, 0, false, chip, [];
      new;
      var ok := SetHeartbeat(timeout);
      if !ok {
        ok := SetHeartbeat(60);
      }
      Init();
    }

    /** A running countdown is restarted, a stopped one is left alone. */
    method Init()
      requires Valid()
      modifies this`chip
      ensures Valid() && chip.regs == InitRegs(variant, old(chip.regs), timeout)
    {
      SelectWdRegister();
      Out(0xF6);
      var t := In();
      if t != 0 {
        OutData(timeout);
      }
      Out(0xF5);
      t := In();
      OutData(Or(And(t, 0xF3), 0x02));
      Out(0xF7);
      t := In();
      OutData(And(t, 0x3F));
      Out(0xAA);
    }

    method WdtWrite(buf: seq<Option<char>>) returns (r: Ret)
      requires Valid()
      modifies this`expectClose, this`chip, this`programmed
      ensures Valid() && (Abstract(), r) == DoWrite(variant, Config(nowayout, ignorehalt), old(Abstract()), buf)
    {
      if |buf| > 0 {
        if !nowayout {
          expectClose := 0;
          var i := 0;
          while i != |buf|
            invariant 0 <= i <= |buf| && Readable(buf) == i + Readable(buf[i..])
            invariant expectClose == if Some('V') in buf[..i] then 42 else 0
            invariant Valid() && Abstract() == old(Abstract()).(expectClose := expectClose)
            decreases |buf| - i
          {
            if buf[i].None? {
              return Fault;
            }
            if buf[i].value == 'V' {
              expectClose := 42;
            }
            assert buf[..i + 1] == buf[..i] + [buf[i]];
            i := i + 1;
          }
          assert buf[..i] == buf;
        }
        SetTime(timeout);
      }
      return Ok(|buf|);
    }

    method WdtIoctl(c: Ioctl) returns (r: Ret)
      requires Valid()
      modifies this`timeout, this`chip, this`programmed
      ensures Valid() && (Abstract(), r) == DoIoctl(variant, old(Abstract()), c)
    {
      match c {
        case GetSupport(bad) => r := if bad then Fault else Ok(0);
        case GetStatus(bad) => r := if bad then Fault else Value(0);
        case SetOptions(None) => r := Fault;
        case SetOptions(Some(options)) =>
          r := Invalid;
          if options.0 {
            SetTime(0);
            r := Ok(0);
          }
          if options.1 {
            SetTime(timeout);
            r := Ok(0);
          }
        case KeepAlive =>
          SetTime(timeout);
          r := Ok(0);
        case SetTimeout(None, _) => r := Fault;
        case SetTimeout(Some(t), bad) =>
          var ok := SetHeartbeat(t);
          if !ok {
            return Invalid;
          }
          SetTime(timeout);
          r := if bad then Fault else Value(timeout);
        case GetTimeout(bad) => r := if bad then Fault else Value(timeout);
        case GetTimeLeft(bad) =>
          var left := GetTime();
          r := if bad then Fault else Value(left);
        case OtherIoctl => r := NoTty;
      }
    }

    method WdtOpen() returns (r: Ret)
      requires Valid()
      modifies this`isOpen, this`chip, this`programmed
      ensures Valid() && (Abstract(), r) == Do(variant, Config(nowayout, ignorehalt), old(Abstract()), Open)
    {
      if isOpen {
        return Busy;
      }
      isOpen := true;
      SetTime(timeout);
      return Ok(0);
    }

    method WdtClose() returns (r: Ret)
      requires Valid()
      modifies this`isOpen, this`expectClose, this`chip, this`programmed
      ensures Valid() && (Abstract(), r) == Do(variant, Config(nowayout, ignorehalt), old(Abstract()), Close)
    {
      if expectClose == 42 {
        SetTime(0);
      } else {
        SetTime(timeout);
      }
      expectClose := 0;
      isOpen := false;
      return Ok(0);
    }

    method WdtNotifySys(code: Code) returns (r: Ret)
      requires Valid()
      modifies this`chip, this`programmed
      ensures Valid() && (Abstract(), r) == Do(variant, Config(nowayout, ignorehalt), old(Abstract()), Notify(code))
    {
      if (code == Down || code == Halt) && !(variant == Modified && ignorehalt) {
        SetTime(0);
      }
      return Ok(0);
    }
  }

  // ---------- Safety over whole runs ----------

  function RunCalls(v: Variant, cfg: Config, s: State, calls: seq<Call>): (t: State)
    requires TimeoutOk(s.timeout)
    ensures TimeoutOk(t.timeout)
    decreases |calls|
  {
    if calls == [] then s else RunCalls(v, cfg, Do(v, cfg, s, calls[0]).0, calls[1..])
  }

  function Returns(v: Variant, cfg: Config, s: State, calls: seq<Call>): seq<Ret>
    requires TimeoutOk(s.timeout)
    decreases |calls|
  {
    if calls == [] then [] else [Do(v, cfg, s, calls[0]).1] + Returns(v, cfg, Do(v, cfg, s, calls[0]).0, calls[1..])
  }

  // ---------- What each call does ----------

  /** The calls that restart the countdown with the timeout. */
  predicate Reloads(cfg: Config, s: State, c: Call) {
    match c
    case Open => !s.open
    case Write(buf) => buf != [] && (cfg.nowayout || None !in buf)
    case Close => s.expectClose != 42
    case Control(KeepAlive) => true
    case Control(SetOptions(Some((_, enable)))) => enable
    case Control(SetTimeout(Some(t), _)) => 1 <= t <= 255
    case _ => false
  }

  /** The calls that stop it. */
  predicate Stops(v: Variant, cfg: Config, s: State, c: Call) {
    match c
    case Close => s.expectClose == 42
    case Notify(code) => code in [Down, Halt] && (v == Original || !cfg.ignorehalt)
    case Control(SetOptions(Some((disable, _)))) => disable
    case _ => false
  }

  /** The timeout after a call. */
  function TimeoutAfter(s: State, c: Call): int {
    match c
    case Control(SetTimeout(Some(t), _)) => if 1 <= t <= 255 then t else s.timeout
    case _ => s.timeout
  }

  lemma {:induction false} ReadableMeans(buf: seq<Option<char>>)
    ensures Readable(buf) == |buf| <==> None !in buf
    ensures forall i :: 0 <= i < Readable(buf) ==> buf[i] != None
    ensures Readable(buf) < |buf| ==> buf[Readable(buf)] == None
  {
    if buf != [] && buf[0].Some? {
      ReadableMeans(buf[1..]);
      assert buf == [buf[0]] + buf[1..];
    }
  }

  /** Each call programs 0 if it stops the countdown, then the timeout if it restarts it, and nothing else. */
  lemma CallProgramsExactly(v: Variant, cfg: Config, s: State, c: Call)
    requires TimeoutOk(s.timeout)
    ensures var t := Do(v, cfg, s, c).0;
            && t.timeout == TimeoutAfter(s, c)
            && t.programmed == s.programmed + (if Stops(v, cfg, s, c) then [0] else []) + (if Reloads(cfg, s, c) then [t.timeout] else [])
  {
    if c.Write? {
      ReadableMeans(c.buf);
    }
  }

  /** What each call leaves in the counter. */
  lemma CounterAfterCall(v: Variant, cfg: Config, s: State, c: Call)
    requires TimeoutOk(s.timeout)
    ensures var left := Get(s.regs, Local(8, 0xF6));
            Get(Do(v, cfg, s, c).0.regs, Local(8, 0xF6)) ==
            if Reloads(cfg, s, c) then TimeoutAfter(s, c) else if Stops(v, cfg, s, c) then 0
            else if c == Tick && left > 0 then left - 1 else left
  {
    if c.Write? {
      ReadableMeans(c.buf);
    }
  }

  /** The open flag and the close flag after a call; the latter follows the bytes up to the first bad address. */
  lemma FlagsAfterCall(v: Variant, cfg: Config, s: State, c: Call)
    requires TimeoutOk(s.timeout)
    ensures var t := Do(v, cfg, s, c).0;
            && t.open == (c == Open || (s.open && c != Close))
            && t.expectClose == match c {
                 case Close => 0
                 case Write(buf) =>
                   if buf == [] || cfg.nowayout then s.expectClose
                   else if exists i :: 0 <= i < |buf| && buf[i] == Some('V') && None !in buf[..i] then 42 else 0
                 case _ => s.expectClose
               }
  {
    if c.Write? && c.buf != [] && !cfg.nowayout {
      ReadableMeans(c.buf);
      var n := Readable(c.buf);
      if Some('V') in c.buf[..n] {
        var i :| 0 <= i < n && c.buf[..n][i] == Some('V');
        assert c.buf[i] == Some('V') && None !in c.buf[..i];
      }
    }
  }

  /** The return code of each call. */
  lemma ReturnOfCall(v: Variant, cfg: Config, s: State, c: Call)
    requires TimeoutOk(s.timeout)
    ensures Do(v, cfg, s, c).1 == match c {
              case Open => if s.open then Busy else Ok(0)
              case Write(buf) => if !cfg.nowayout && None in buf then Fault else Ok(|buf|)
              case Control(GetSupport(bad)) => if bad then Fault else Ok(0)
              case Control(GetStatus(bad)) => if bad then Fault else Value(0)
              case Control(SetOptions(options)) => if options == None then Fault else if options == Some((false, false)) then Invalid else Ok(0)
              case Control(SetTimeout(arg, bad)) =>
                if arg == None then Fault else if arg.value < 1 || arg.value > 255 then Invalid else if bad then Fault else Value(arg.value)
              case Control(GetTimeout(bad)) => if bad then Fault else Value(s.timeout)
              case Control(GetTimeLeft(bad)) => if bad then Fault else Value(Get(s.regs, Local(8, 0xF6)))
              case Control(OtherIoctl) => NoTty
              case _ => Ok(0)
            }
  {
    if c.Write? {
      ReadableMeans(c.buf);
    }
  }

  /** The seconds that pass during a trace. */
  function Ticks(calls: seq<Call>): nat {
    if calls == [] then 0 else Ticks(calls[1..]) + if calls[0] == Tick then 1 else 0
  }

  /** A second that passes, or a question: neither restarts nor stops the countdown. */
  predicate Passive(c: Call) {
    match c
    case Tick => true
    case Control(GetSupport(_)) => true
    case Control(GetStatus(_)) => true
    case Control(GetTimeout(_)) => true
    case Control(GetTimeLeft(_)) => true
    case Control(OtherIoctl) => true
    case _ => false
  }

  lemma {:induction false} CountsDown(v: Variant, cfg: Config, s: State, calls: seq<Call>)
    requires TimeoutOk(s.timeout) && forall c :: c in calls ==> Passive(c)
    ensures var left := Get(s.regs, Local(8, 0xF6));
            Get(RunCalls(v, cfg, s, calls).regs, Local(8, 0xF6)) == if left < Ticks(calls) then 0 else left - Ticks(calls)
    decreases |calls|
  {
    if calls != [] {
      assert Passive(calls[0]);
      CounterAfterCall(v, cfg, s, calls[0]);
      CountsDown(v, cfg, Do(v, cfg, s, calls[0]).0, calls[1..]);
    }
  }

  /** After a call that restarts the countdown, the machine is not reset before the whole timeout has passed, and then it is. */
  lemma TimeoutRunsOutExactlyWhen(v: Variant, cfg: Config, s: State, c: Call, calls: seq<Call>)
    requires TimeoutOk(s.timeout) && Reloads(cfg, s, c) && forall d :: d in calls ==> Passive(d)
    ensures var t := RunCalls(v, cfg, s, [c] + calls);
            && Get(t.regs, Local(8, 0xF6)) == (if Ticks(calls) < TimeoutAfter(s, c) then TimeoutAfter(s, c) - Ticks(calls) else 0)
            && (Get(t.regs, Local(8, 0xF6)) == 0 <==> Ticks(calls) >= TimeoutAfter(s, c))
  {
    CounterAfterCall(v, cfg, s, c);
    assert ([c] + calls)[1..] == calls;
    CountsDown(v, cfg, Do(v, cfg, s, c).0, calls);
  }

  predicate Disables(c: Call) {
    c.Control? && c.ioctl.SetOptions? && c.ioctl.options.Some? && c.ioctl.options.value.0
  }

  /** When a call programs 0 into the counter; anything else it programs is the timeout. */
  lemma ProgramsZeroExactlyWhen(v: Variant, cfg: Config, s: State, c: Call)
    requires TimeoutOk(s.timeout)
    ensures var t := Do(v, cfg, s, c).0;
            && s.programmed <= t.programmed
            && (0 in t.programmed[|s.programmed|..] <==>
                  || Disables(c)
                  || (c == Close && s.expectClose == 42)
                  || (c.Notify? && c.code != OtherCode && !(v == Modified && cfg.ignorehalt)))
            && forall x :: x in t.programmed[|s.programmed|..] ==> x == 0 || x == t.timeout
  {
    var t := Do(v, cfg, s, c).0;
    if c.Control? {
      IoctlCounts(v, s, c.ioctl);
    } else if c.Write? {
      WriteCounts(v, cfg, s, c.buf);
    } else {
      assert t.programmed == s.programmed || t.programmed == s.programmed + [0] || t.programmed == s.programmed + [s.timeout];
    }
  }

  lemma IoctlCounts(v: Variant, s: State, c: Ioctl)
    requires TimeoutOk(s.timeout)
    ensures var t := DoIoctl(v, s, c).0;
            && s.programmed <= t.programmed
            && (0 in t.programmed[|s.programmed|..] <==> Disables(Control(c)))
            && forall x :: x in t.programmed[|s.programmed|..] ==> x == 0 || x == t.timeout
  {
    if Disables(Control(c)) && c.options.value.1 {
      assert (s.programmed + [0]) + [s.timeout] == s.programmed + [0, s.timeout];
    }
  }

  lemma WriteCounts(v: Variant, cfg: Config, s: State, buf: seq<Option<char>>)
    requires TimeoutOk(s.timeout)
    ensures var t := DoWrite(v, cfg, s, buf).0;
            && t.timeout == s.timeout && s.programmed <= t.programmed
            && forall x :: x in t.programmed[|s.programmed|..] ==> x == s.timeout
  {
  }

  lemma {:induction false} NowayoutNeverExpectsClose(v: Variant, cfg: Config, s: State, calls: seq<Call>)
    requires TimeoutOk(s.timeout) && cfg.nowayout && s.expectClose == 0
    ensures RunCalls(v, cfg, s, calls).expectClose == 0
    decreases |calls|
  {
    if calls != [] {
      NowayoutNeverExpectsClose(v, cfg, Do(v, cfg, s, calls[0]).0, calls[1..]);
    }
  }

  /**
   * With nowayout and ignorehalt, a sequence of opens, writes, closes, notifications and ioctls
   * programs 0 exactly when it holds a disabling WDIOC_SETOPTIONS, which nowayout does not refuse.
   */
  lemma {:induction false} StopsExactlyWhen(cfg: Config, s: State, calls: seq<Call>)
    requires TimeoutOk(s.timeout) && cfg.nowayout && cfg.ignorehalt && s.expectClose == 0
    ensures var t := RunCalls(Modified, cfg, s, calls);
            s.programmed <= t.programmed && (0 in t.programmed[|s.programmed|..] <==> exists c :: c in calls && Disables(c))
    decreases |calls|
  {
    if calls != [] {
      var m := Do(Modified, cfg, s, calls[0]).0;
      ProgramsZeroExactlyWhen(Modified, cfg, s, calls[0]);
      NowayoutNeverExpectsClose(Modified, cfg, s, [calls[0]]);
      assert [calls[0]][1..] == [];
      StopsExactlyWhen(cfg, m, calls[1..]);
      var t := RunCalls(Modified, cfg, s, calls);
      assert t.programmed[|s.programmed|..] == m.programmed[|s.programmed|..] + t.programmed[|m.programmed|..];
      assert calls == [calls[0]] + calls[1..];
    }
  }

  /** From the first open on, the last programmed count is then never zero. */
  lemma ArmedFromFirstOpen(cfg: Config, s: State, calls: seq<Call>)
    requires TimeoutOk(s.timeout) && cfg.nowayout && cfg.ignorehalt && s.expectClose == 0 && !s.open
    requires forall c :: c in calls ==> !Disables(c)
    ensures var t := RunCalls(Modified, cfg, s, [Open] + calls);
            t.programmed != [] && 1 <= t.programmed[|t.programmed| - 1] <= 255
  {
    var m := Do(Modified, cfg, s, Open).0;
    assert ([Open] + calls)[1..] == calls;
    StopsExactlyWhen(cfg, m, calls);
    var t := RunCalls(Modified, cfg, m, calls);
    if |t.programmed| > |m.programmed| {
      assert t.programmed[|t.programmed| - 1] in t.programmed[|m.programmed|..];
    } else {
      assert t.programmed[|t.programmed| - 1] == m.programmed[|m.programmed| - 1];
    }
  }

  /** The last non-empty write since the last close had a 'V' among its readable bytes. */
  predicate LastWriteHadV(calls: seq<Call>) {
    if calls == [] then false
    else
      var c := calls[|calls| - 1];
      if c == Close then false
      else if c.Write? && c.buf != [] then Some('V') in c.buf[..Readable(c.buf)]
      else LastWriteHadV(calls[..|calls| - 1])
  }

  lemma {:induction false} RunLast(v: Variant, cfg: Config, s: State, calls: seq<Call>)
    requires TimeoutOk(s.timeout) && calls != []
    ensures RunCalls(v, cfg, s, calls) == Do(v, cfg, RunCalls(v, cfg, s, calls[..|calls| - 1]), calls[|calls| - 1]).0
    decreases |calls|
  {
    if |calls| > 1 {
      var rest := calls[1..];
      var front := calls[..|calls| - 1];
      assert rest[..|rest| - 1] == front[1..] && front[0] == calls[0] && rest[|rest| - 1] == calls[|calls| - 1];
      RunLast(v, cfg, Do(v, cfg, s, calls[0]).0, rest);
    }
  }

  lemma ExpectCloseAfter(v: Variant, cfg: Config, s: State, c: Call)
    requires TimeoutOk(s.timeout) && !cfg.nowayout
    ensures Do(v, cfg, s, c).0.expectClose
            == if c == Close then 0
               else if c.Write? && c.buf != [] then (if Some('V') in c.buf[..Readable(c.buf)] then 42 else 0)
               else s.expectClose
  {
  }

  /** Without nowayout, a close disarms exactly when the last non-empty write before it contained a 'V'. */
  lemma {:induction false} CloseDisarmsExactlyWhen(v: Variant, cfg: Config, s: State, calls: seq<Call>)
    requires TimeoutOk(s.timeout) && !cfg.nowayout && s.expectClose == 0
    ensures RunCalls(v, cfg, s, calls).expectClose == if LastWriteHadV(calls) then 42 else 0
    ensures var m := RunCalls(v, cfg, s, calls);
            Get(Do(v, cfg, m, Close).0.regs, CRF6) == (if LastWriteHadV(calls) then 0 else m.timeout)
    decreases |calls|
  {
    if calls != [] {
      CloseDisarmsExactlyWhen(v, cfg, s, calls[..|calls| - 1]);
      RunLast(v, cfg, s, calls);
      ExpectCloseAfter(v, cfg, RunCalls(v, cfg, s, calls[..|calls| - 1]), calls[|calls| - 1]);
    }
  }

  // ---------- The two versions agree ----------

  /** Not CRF7, and not the pin routing of a W83627HG. */
  predicate Common(r: Register, id: byte) {
    r != CRF7 && (r != Global(0x2b) || id != 0x52)
  }

  ghost predicate SameExceptPins(a: Registers, b: Registers) {
    forall r :: Common(r, Get(a, Global(0x20))) ==> Get(a, r) == Get(b, r)
  }

  /** The same variables, counter and counts programmed so far. */
  ghost predicate Alike(a: State, b: State) {
    && a.timeout == b.timeout && a.expectClose == b.expectClose && a.open == b.open && a.programmed == b.programmed
    && SameExceptPins(a.regs, b.regs)
  }

  lemma ProgramAgrees(a: State, b: State, t: byte)
    requires Alike(a, b)
    ensures Alike(Program(Original, a, t), Program(Modified, b, t))
  {
    SelectAgrees(a.regs, b.regs);
    var c, d := SelectRegs(Original, a.regs), SelectRegs(Modified, b.regs);
    PutAgrees(c, d, CRF6, t);
    assert forall r :: r != CRF7 ==> Get(d[CRF6 := t], r) == Get(Program(Modified, b, t).regs, r);
  }

  lemma PutAgrees(a: Registers, b: Registers, r: Register, x: byte)
    requires SameExceptPins(a, b) && r != Global(0x20)
    ensures SameExceptPins(a[r := x], b[r := x])
  {
    assert Get(a[r := x], Global(0x20)) == Get(a, Global(0x20));
    forall q | Common(q, Get(a, Global(0x20)))
      ensures Get(a[r := x], q) == Get(b[r := x], q)
    {
      assert Get(a, q) == Get(b, q);
    }
  }

  lemma SelectAgrees(a: Registers, b: Registers)
    requires SameExceptPins(a, b)
    ensures SameExceptPins(SelectRegs(Original, a), SelectRegs(Modified, b))
  {
    var c, d := SelectRegs(Original, a), SelectRegs(Modified, b);
    assert Get(a, Global(0x20)) == Get(b, Global(0x20)) == Get(c, Global(0x20));
    forall r | Common(r, Get(c, Global(0x20)))
      ensures Get(c, r) == Get(d, r)
    {
      assert Get(a, r) == Get(b, r);
    }
  }

  lemma WritesAgree(cfg: Config, a: State, b: State, buf: seq<Option<char>>)
    requires TimeoutOk(a.timeout) && Alike(a, b)
    ensures Alike(DoWrite(Original, cfg, a, buf).0, DoWrite(Modified, cfg, b, buf).0)
    ensures DoWrite(Original, cfg, a, buf).1 == DoWrite(Modified, cfg, b, buf).1
  {
    var e := if cfg.nowayout then a.expectClose else if Some('V') in buf[..Readable(buf)] then 42 else 0;
    ProgramAgrees(a.(expectClose := e), b.(expectClose := e), a.timeout);
  }

  lemma IoctlsAgree(a: State, b: State, c: Ioctl)
    requires TimeoutOk(a.timeout) && Alike(a, b)
    ensures Alike(DoIoctl(Original, a, c).0, DoIoctl(Modified, b, c).0)
    ensures DoIoctl(Original, a, c).1 == DoIoctl(Modified, b, c).1
  {
    match c
    case SetOptions(Some(_)) =>
      ProgramAgrees(a, b, 0);
      ProgramAgrees(a, b, a.timeout);
      ProgramAgrees(Program(Original, a, 0), Program(Modified, b, 0), a.timeout);
    case KeepAlive => ProgramAgrees(a, b, a.timeout);
    case SetTimeout(Some(t), _) =>
      if TimeoutOk(t) {
        ProgramAgrees(a.(timeout := t), b.(timeout := t), t);
      }
    case GetTimeLeft(_) => SelectAgrees(a.regs, b.regs);
    case _ =>
  }

  lemma CallsAgree(cfg: Config, a: State, b: State, c: Call)
    requires TimeoutOk(a.timeout) && Alike(a, b) && !cfg.ignorehalt
    ensures Alike(Do(Original, cfg, a, c).0, Do(Modified, cfg, b, c).0)
    ensures Do(Original, cfg, a, c).1 == Do(Modified, cfg, b, c).1
  {
    match c
    case Open => ProgramAgrees(a.(open := true), b.(open := true), a.timeout);
    case Write(buf) => WritesAgree(cfg, a, b, buf);
    case Close => ProgramAgrees(a, b, if a.expectClose == 42 then 0 else a.timeout);
    case Notify(_) => ProgramAgrees(a, b, 0);
    case Control(ioctl) => IoctlsAgree(a, b, ioctl);
    case Tick =>
      var left := Get(a.regs, CRF6);
      assert left == Get(b.regs, CRF6);
      PutAgrees(a.regs, b.regs, CRF6, if left > 0 then left - 1 else 0);
  }

  /** Without ignorehalt, both versions return the same and keep the same state over every call trace. */
  lemma {:induction false} VersionsAgree(cfg: Config, a: State, b: State, calls: seq<Call>)
    requires TimeoutOk(a.timeout) && Alike(a, b) && !cfg.ignorehalt
    ensures Alike(RunCalls(Original, cfg, a, calls), RunCalls(Modified, cfg, b, calls))
    ensures Returns(Original, cfg, a, calls) == Returns(Modified, cfg, b, calls)
    decreases |calls|
  {
    if calls != [] {
      CallsAgree(cfg, a, b, calls[0]);
      VersionsAgree(cfg, Do(Original, cfg, a, calls[0]).0, Do(Modified, cfg, b, calls[0]).0, calls[1..]);
    }
  }

  /** They start out alike on the same chip. */
  lemma InitAgrees(regs: Registers, timeout: byte)
    ensures Alike(State(timeout, 0, false, InitRegs(Original, regs, timeout), []),
                  State(timeout, 0, false, InitRegs(Modified, regs, timeout), []))
  {
    SelectAgrees(regs, regs);
    var a, b := SelectRegs(Original, regs), SelectRegs(Modified, regs);
    assert Get(a, CRF6) == Get(b, CRF6) && Get(a, CRF5) == Get(b, CRF5);
    PutAgrees(a, b, CRF6, timeout);
    if Get(a, CRF6) != 0 {
      a, b := a[CRF6 := timeout], b[CRF6 := timeout];
    }
    var x := Or(And(Get(a, CRF5), 0xF3), 0x02);
    PutAgrees(a, b, CRF5, x);
    PutCrf7(a[CRF5 := x], b[CRF5 := x], And(Get(a[CRF5 := x], CRF7), 0x3F), And(Get(b[CRF5 := x], CRF7), 0x3F));
  }

  lemma PutCrf7(a: Registers, b: Registers, x: byte, y: byte)
    requires SameExceptPins(a, b)
    ensures SameExceptPins(a[CRF7 := x], b[CRF7 := y])
  {
    assert Get(a[CRF7 := x], Global(0x20)) == Get(a, Global(0x20));
    forall q | Common(q, Get(a, Global(0x20)))
      ensures Get(a[CRF7 := x], q) == Get(b[CRF7 := y], q)
    {
      assert Get(a, q) == Get(b, q);
    }
  }
}
