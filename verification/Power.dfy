/**
 * Power accounting: one minute windows of samples and the running amp hours. Times are in
 * microseconds; quantities are real numbers.
 */
module Power {
  import opened Options

  const SECOND := 1000000
  const MINUTE := 60 * SECOND
  const MAX_GAP := 10 * MINUTE

  // ---------- The one minute window ----------

  datatype Window = Window(values: seq<real>, times: seq<int>)

  predicate Paired(w: Window) {
    |w.values| == |w.times|
  }

  /** Appends a sample and drops the oldest one, and only that, if it is more than a minute older. */
  function Slide(w: Window, t: int, v: real): (r: Window)
    requires Paired(w)
    ensures Paired(r) && r.values != [] && r.times[|r.times| - 1] == t && r.values[|r.values| - 1] == v
  {
    var a := Window(w.values + [v], w.times + [t]);
    if t - a.times[0] > MINUTE then Window(a.values[1..], a.times[1..]) else a
  }

  function Sum(s: seq<real>): real {
    if s == [] then 0.0 else Sum(s[..|s| - 1]) + s[|s| - 1]
  }

  function Average(s: seq<real>): real
    requires s != []
  {
    Sum(s) / |s| as real
  }

  /** The average lies between any two bounds of the window. */
  lemma {:induction false} SumIsBounded(s: seq<real>, low: real, high: real)
    requires forall i :: 0 <= i < |s| ==> low <= s[i] <= high
    ensures low * |s| as real <= Sum(s) <= high * |s| as real
  {
    if s != [] {
      SumIsBounded(s[..|s| - 1], low, high);
    }
  }

  function Minimum(s: seq<real>): (m: real)
    requires s != []
    ensures m in s && forall i :: 0 <= i < |s| ==> m <= s[i]
  {
    var front := s[..|s| - 1];
    var last := s[|s| - 1];
    if front == [] then last else
      var m := Minimum(front);
      assert forall i :: 0 <= i < |s| - 1 ==> s[i] == front[i];
      if last < m then last else m
  }

  // ---------- Current ----------

  /** day is the day of the month of the sample, today that of the clock when it is handled. */
  datatype Sample = Sample(time: int, value: real, day: int, today: int)

  datatype Meter = Meter(
    ampHours: real,
    lastTime: Option<int>,
    lastDate: int,
    value: real,
    window: Window,
    average: real,
    total: int,
    maximum: real)

  function Fresh(ampHours: real, today: int): Meter {
    Meter(ampHours, None, today, 0.0, Window([], []), 0.0, 0, -99.0)
  }

  /** The seconds field of a time difference, which leaves out whole days and fractions. */
  function SecondsField(step: int): (s: int)
    ensures 0 <= s < 86400
  {
    (step / SECOND) % 86400
  }

  /** Amp hours of a value held over a step. */
  function Charge(value: real, step: int): real {
    value * (SecondsField(step) as real / 3600.0)
  }

  /** Amp hours of a value held over the whole seconds of a step, and over all of it. */
  function Whole(value: real, step: int): real {
    value * ((step / SECOND) as real / 3600.0)
  }

  function Exact(value: real, step: int): real {
    value * (step as real / 3600000000.0)
  }

  lemma ShortStep(value: real, step: int)
    requires 0 <= step <= MAX_GAP
    ensures Charge(value, step) == Whole(value, step)
  {
    assert SecondsField(step) == step / SECOND;
  }

  function Take(m: Meter, s: Sample): Meter
    requires Paired(m.window)
  {
    var w := Slide(m.window, s.time, s.value);
    m.(lastTime := Some(s.time), value := s.value, window := w, average := Average(w.values),
       maximum := if s.value > m.maximum then s.value else m.maximum)
  }

  function Accum(m: Meter, s: Sample): (r: Meter)
    requires Paired(m.window)
    ensures Paired(r.window)
  {
    var m := if s.day != m.lastDate then Fresh(0.0, s.today) else m;
    match m.lastTime
    case None => Take(m, s)
    case Some(last) =>
      var step := s.time - last;
      if step > MAX_GAP then m
      else Take(m.(total := m.total + step, ampHours := m.ampHours + Charge(m.value, step)), s)
  }

  class CurrentMonitor {
    var ampHours: real
    var lastTime: Option<int>
    var lastDate: int
    var value: real
    var valHistory: seq<real>
    var timeHistory: seq<int>
    var oneMinAve: real
    var totTime: int
    var maximum: real

    function Now(): Meter
      reads this
    {
      Meter(ampHours, lastTime, lastDate, value, Window(valHistory, timeHistory), oneMinAve, totTime, maximum)
    }

    constructor (ampHours: real, today: int)
      ensures Now() == Fresh(ampHours, today)
    {
      this.ampHours, lastTime, lastDate, value := ampHours, None, today, 0.0;
      valHistory, timeHistory, oneMinAve, totTime, maximum := [], [], 0.0, 0, -99.0;
    }

    method Reset(today: int)
      modifies this
      ensures Now() == Fresh(0.0, today)
    {
      ampHours, lastTime, lastDate, value := 0.0, None, today, 0.0;
      valHistory, timeHistory, oneMinAve, totTime, maximum := [], [], 0.0, 0, -99.0;
    }

    method SumOf(s: seq<real>) returns (sum: real)
      ensures sum == Sum(s)
    {
      sum := 0.0;
      for i := 0 to |s|
        invariant sum == Sum(s[..i])
      {
        assert s[..i + 1][..i] == s[..i];
        sum := sum + s[i];
      }
      assert s[..|s|] == s;
    }

    method AccumCurrent(time: int, day: int, raw: real, offset: real, mult: real, today: int)
      requires |valHistory| == |timeHistory|
      modifies this
      ensures Now() == Accum(old(Now()), Sample(time, (raw - offset) * mult, day, today))
    {
      if day != lastDate {
        Reset(today);
      }
      if lastTime.Some? {
        var step := time - lastTime.value;
        if step > MAX_GAP {
          return;
        }
        var ampStep := Charge(value, step);
        totTime := totTime + step;
        ampHours := ampHours + ampStep;
      }
      Accept(time, (raw - offset) * mult, day, today);
    }

    method Append(time: int, sample: real)
      requires |valHistory| == |timeHistory|
      modifies this`valHistory, this`timeHistory
      ensures Window(valHistory, timeHistory) == Slide(old(Window(valHistory, timeHistory)), time, sample)
    {
      valHistory := valHistory + [sample];
      timeHistory := timeHistory + [time];
      if timeHistory[|timeHistory| - 1] - timeHistory[0] > MINUTE {
        valHistory := valHistory[1..];
        timeHistory := timeHistory[1..];
      }
    }

    method Accept(time: int, sample: real, ghost day: int, ghost today: int)
      requires |valHistory| == |timeHistory|
      modifies this
      ensures Now() == Take(old(Now()), Sample(time, sample, day, today))
    {
      lastTime := Some(time);
      value := sample;
      if value > maximum {
        maximum := value;
      }
      Append(time, value);
      var sum := SumOf(valHistory);
      oneMinAve := sum / |valHistory| as real;
    }
  }

  function Run(m: Meter, samples: seq<Sample>): (r: Meter)
    requires Paired(m.window)
    ensures Paired(r.window)
    decreases |samples|
  {
    if samples == [] then m else Accum(Run(m, samples[..|samples| - 1]), samples[|samples| - 1])
  }

  /** Samples of one day, in order of time, without a gap of more than ten minutes. */
  predicate Steady(day: int, samples: seq<Sample>) {
    && (forall i :: 0 <= i < |samples| ==> samples[i].day == day)
    && (forall i :: 0 < i < |samples| ==> 0 <= Gap(samples, i) <= MAX_GAP)
  }

  predicate InOrder(samples: seq<Sample>) {
    forall i :: 0 < i < |samples| ==> 0 <= Gap(samples, i)
  }

  function Gap(samples: seq<Sample>, i: int): int
    requires 0 < i < |samples|
  {
    samples[i].time - samples[i - 1].time
  }

  lemma SteadyFront(day: int, samples: seq<Sample>)
    requires Steady(day, samples) && samples != []
    ensures Steady(day, samples[..|samples| - 1])
  {
    var front := samples[..|samples| - 1];
    forall i | 0 < i < |front|
      ensures 0 <= Gap(front, i) <= MAX_GAP
    {
      assert Gap(front, i) == Gap(samples, i);
    }
  }

  lemma FrontInOrder(samples: seq<Sample>)
    requires InOrder(samples) && samples != []
    ensures InOrder(samples[..|samples| - 1])
  {
    var front := samples[..|samples| - 1];
    forall i | 0 < i < |front|
      ensures 0 <= Gap(front, i)
    {
      assert Gap(front, i) == Gap(samples, i);
    }
  }

  // ---------- What the window holds ----------

  function Times(samples: seq<Sample>): (r: seq<int>)
    ensures |r| == |samples| && forall i :: 0 <= i < |samples| ==> r[i] == samples[i].time
  {
    seq(|samples|, i requires 0 <= i < |samples| => samples[i].time)
  }

  function Values(samples: seq<Sample>): (r: seq<real>)
    ensures |r| == |samples| && forall i :: 0 <= i < |samples| ==> r[i] == samples[i].value
  {
    seq(|samples|, i requires 0 <= i < |samples| => samples[i].value)
  }

  /** How many of the oldest samples have been dropped. */
  function Dropped(samples: seq<Sample>): (k: nat)
    ensures samples != [] ==> k < |samples|
  {
    if |samples| < 2 then 0
    else
      var n := |samples| - 1;
      var k := Dropped(samples[..n]);
      if samples[n].time - samples[k].time > MINUTE then k + 1 else k
  }

  function Suffix(samples: seq<Sample>, k: nat): Window
    requires k <= |samples|
  {
    Window(Values(samples)[k..], Times(samples)[k..])
  }

  /** The window that the samples leave, one slide after another. */
  function Slid(samples: seq<Sample>): (w: Window)
    ensures Paired(w)
  {
    if samples == [] then Window([], [])
    else
      var n := |samples| - 1;
      Slide(Slid(samples[..n]), samples[n].time, samples[n].value)
  }

  lemma {:induction false} OrderedTimes(samples: seq<Sample>, i: nat, j: nat)
    requires InOrder(samples) && i <= j < |samples|
    ensures samples[i].time <= samples[j].time
    decreases j - i
  {
    if i < j {
      OrderedTimes(samples, i, j - 1);
      assert 0 <= Gap(samples, j);
    }
  }

  /** What a meter in a steady run does with the next sample. */
  lemma AcceptedStep(m: Meter, s: Sample)
    requires Paired(m.window) && s.day == m.lastDate
    requires m.lastTime.Some? ==> 0 <= s.time - m.lastTime.value <= MAX_GAP
    ensures var r := Accum(m, s);
            && r.lastTime == Some(s.time) && r.lastDate == m.lastDate && r.value == s.value
            && r.window == Slide(m.window, s.time, s.value) && r.average == Average(r.window.values)
            && (m.lastTime.None? ==> r.ampHours == m.ampHours && r.total == m.total)
            && (m.lastTime.Some? ==>
                  var step := s.time - m.lastTime.value;
                  r.ampHours == m.ampHours + Whole(m.value, step) && r.total == m.total + step)
  {
    if m.lastTime.Some? {
      ShortStep(m.value, s.time - m.lastTime.value);
    }
  }

  lemma {:induction false} SteadyLast(a: real, day: int, samples: seq<Sample>)
    requires Steady(day, samples)
    ensures var r := Run(Fresh(a, day), samples);
            && r.lastDate == day
            && (samples == [] ==> r == Fresh(a, day))
            && (samples != [] ==> r.lastTime == Some(samples[|samples| - 1].time) && r.value == samples[|samples| - 1].value)
  {
    if samples != [] {
      var n := |samples| - 1;
      SteadyFront(day, samples);
      SteadyLast(a, day, samples[..n]);
      assert n > 0 ==> 0 <= Gap(samples, n) <= MAX_GAP;
      AcceptedStep(Run(Fresh(a, day), samples[..n]), samples[n]);
    }
  }

  lemma WindowSlides(a: real, day: int, samples: seq<Sample>)
    requires Steady(day, samples) && samples != []
    ensures var n := |samples| - 1;
            Run(Fresh(a, day), samples).window
            == Slide(Run(Fresh(a, day), samples[..n]).window, samples[n].time, samples[n].value)
  {
    var n := |samples| - 1;
    SteadyFront(day, samples);
    SteadyLast(a, day, samples[..n]);
    assert n > 0 ==> 0 <= Gap(samples, n) <= MAX_GAP;
    AcceptedStep(Run(Fresh(a, day), samples[..n]), samples[n]);
  }

  /** Sliding takes one suffix of the samples to the next. */
  lemma SlideSuffix(samples: seq<Sample>, k: nat)
    requires k < |samples| - 1
    ensures var n := |samples| - 1;
            var j := if samples[n].time - samples[k].time > MINUTE then k + 1 else k;
            Slide(Suffix(samples[..n], k), samples[n].time, samples[n].value) == Suffix(samples, j)
  {
    var n := |samples| - 1;
    var (ts, vs) := (Times(samples), Values(samples));
    SuffixGrows(samples, k);
    assert ts[k..][0] == samples[k].time;
    assert ts[k..][1..] == ts[k + 1..] && vs[k..][1..] == vs[k + 1..];
  }

  lemma SuffixGrows(samples: seq<Sample>, k: nat)
    requires k < |samples| - 1
    ensures var n := |samples| - 1;
            && Times(samples)[k..] == Times(samples[..n])[k..] + [samples[n].time]
            && Values(samples)[k..] == Values(samples[..n])[k..] + [samples[n].value]
  {
  }

  /** Whatever their times, the window is a suffix of the samples, with their values. */
  lemma {:induction false} SlidIsSuffix(samples: seq<Sample>)
    requires samples != []
    ensures Slid(samples) == Suffix(samples, Dropped(samples))
  {
    var n := |samples| - 1;
    if n > 0 {
      SlidIsSuffix(samples[..n]);
      SlideSuffix(samples, Dropped(samples[..n]));
    } else {
      OneIsSuffix(samples);
    }
  }

  lemma OneIsSuffix(samples: seq<Sample>)
    requires |samples| == 1
    ensures Slid(samples) == Suffix(samples, 0)
  {
    assert samples[..0] == [];
    var w := Slide(Window([], []), samples[0].time, samples[0].value);
    assert w.values == Values(samples) == Values(samples)[0..] && w.times == Times(samples) == Times(samples)[0..];
  }

  lemma {:induction false} DroppedAreOld(samples: seq<Sample>, i: nat)
    requires InOrder(samples) && i < Dropped(samples)
    ensures samples[|samples| - 1].time - samples[i].time > MINUTE
  {
    var n := |samples| - 1;
    var k := Dropped(samples[..n]);
    FrontInOrder(samples);
    if i < k {
      DroppedAreOld(samples[..n], i);
      OrderedTimes(samples, n - 1, n);
    }
  }

  /** For samples in order of time, the window holds every one of the last minute. */
  lemma SlidHoldsTheLastMinute(samples: seq<Sample>)
    requires InOrder(samples) && samples != []
    ensures Slid(samples) == Suffix(samples, Dropped(samples))
    ensures forall i :: 0 <= i < |samples| && samples[|samples| - 1].time - samples[i].time <= MINUTE ==> Dropped(samples) <= i
  {
    SlidIsSuffix(samples);
    forall i | 0 <= i < Dropped(samples)
      ensures samples[|samples| - 1].time - samples[i].time > MINUTE
    {
      DroppedAreOld(samples, i);
    }
  }

  /** The gaps between samples never grow; they are all equal when the samples are evenly spaced. */
  predicate NeverSlower(samples: seq<Sample>) {
    forall i, j :: 0 < i < j < |samples| ==> Gap(samples, j) <= Gap(samples, i)
  }

  lemma {:induction false} FrontIsRecent(samples: seq<Sample>)
    requires InOrder(samples) && samples != [] && NeverSlower(samples)
    ensures samples[|samples| - 1].time - samples[Dropped(samples)].time <= MINUTE
  {
    var n := |samples| - 1;
    if n > 0 {
      FrontInOrder(samples);
      forall i, j | 0 < i < j < n
        ensures Gap(samples[..n], j) <= Gap(samples[..n], i)
      {
        assert Gap(samples[..n], i) == Gap(samples, i) && Gap(samples[..n], j) == Gap(samples, j);
      }
      FrontIsRecent(samples[..n]);
      var k := Dropped(samples[..n]);
      if k + 1 < n {
        assert Gap(samples, n) <= Gap(samples, k + 1);
      }
    }
  }

  /** If they never slow down, it holds exactly those. */
  lemma SlidIsTheLastMinute(samples: seq<Sample>)
    requires InOrder(samples) && samples != [] && NeverSlower(samples)
    ensures Slid(samples) == Suffix(samples, Dropped(samples))
    ensures forall i :: 0 <= i < |samples| ==>
              (Dropped(samples) <= i <==> samples[|samples| - 1].time - samples[i].time <= MINUTE)
  {
    SlidHoldsTheLastMinute(samples);
    FrontIsRecent(samples);
    forall i | Dropped(samples) <= i < |samples|
      ensures samples[|samples| - 1].time - samples[i].time <= MINUTE
    {
      OrderedTimes(samples, Dropped(samples), i);
    }
  }

  /** One slow step is enough to leave older samples: at most one is dropped for each that comes. */
  lemma ExactAfterExactlyWhen(samples: seq<Sample>)
    requires InOrder(samples) && |samples| > 1
    ensures var n := |samples| - 1;
            var k := Dropped(samples[..n]);
            samples[n].time - samples[Dropped(samples)].time <= MINUTE
            <==> k + 1 > n || samples[n].time - samples[k + 1].time <= MINUTE
  {
    var n := |samples| - 1;
    var k := Dropped(samples[..n]);
    OrderedTimes(samples, k, k + 1);
  }

  /** In a steady run, where no sample is refused, this is the meter's window. */
  lemma {:induction false} WindowIsSlid(a: real, day: int, samples: seq<Sample>)
    requires Steady(day, samples)
    ensures Run(Fresh(a, day), samples).window == Slid(samples)
  {
    if samples != [] {
      var n := |samples| - 1;
      WindowSlides(a, day, samples);
      SteadyFront(day, samples);
      WindowIsSlid(a, day, samples[..n]);
    }
  }

  lemma SteadyInOrder(day: int, samples: seq<Sample>)
    requires Steady(day, samples)
    ensures InOrder(samples)
  {
  }

  /**
   * In a steady run the window is a suffix of the samples, with their values, and every sample of the
   * last minute is in it.
   */
  lemma WindowHoldsTheLastMinute(a: real, day: int, samples: seq<Sample>)
    requires Steady(day, samples) && samples != []
    ensures Run(Fresh(a, day), samples).window == Suffix(samples, Dropped(samples))
    ensures forall i :: 0 <= i < |samples| && samples[|samples| - 1].time - samples[i].time <= MINUTE ==> Dropped(samples) <= i
  {
    WindowIsSlid(a, day, samples);
    SteadyInOrder(day, samples);
    SlidHoldsTheLastMinute(samples);
  }

  /** Then the window holds exactly the samples of the last minute. */
  lemma WindowIsTheLastMinute(a: real, day: int, samples: seq<Sample>)
    requires Steady(day, samples) && samples != [] && NeverSlower(samples)
    ensures Run(Fresh(a, day), samples).window == Suffix(samples, Dropped(samples))
    ensures forall i :: 0 <= i < |samples| ==>
              (Dropped(samples) <= i <==> samples[|samples| - 1].time - samples[i].time <= MINUTE)
  {
    WindowIsSlid(a, day, samples);
    SteadyInOrder(day, samples);
    SlidIsTheLastMinute(samples);
  }

  // ---------- Amp hours ----------

  /** What the running sum adds up: each value held for the whole seconds until the next sample. */
  function Counted(samples: seq<Sample>): real {
    if |samples| < 2 then 0.0
    else
      var n := |samples| - 1;
      Counted(samples[..n]) + Whole(samples[n - 1].value, samples[n].time - samples[n - 1].time)
  }

  /** The integral of the step function through the samples, in units per hour. */
  function Integral(samples: seq<Sample>): real {
    if |samples| < 2 then 0.0
    else
      var n := |samples| - 1;
      Integral(samples[..n]) + Exact(samples[n - 1].value, samples[n].time - samples[n - 1].time)
  }

  /** What the next sample of a steady run adds. */
  lemma CountedStep(a: real, m: Meter, samples: seq<Sample>)
    requires samples != [] && Paired(m.window) && samples[|samples| - 1].day == m.lastDate
    requires m.ampHours == a + Counted(samples[..|samples| - 1])
    requires |samples| == 1 ==> m.lastTime == None
    requires |samples| > 1 ==>
               && m.lastTime == Some(samples[|samples| - 2].time) && m.value == samples[|samples| - 2].value
               && 0 <= samples[|samples| - 1].time - samples[|samples| - 2].time <= MAX_GAP
    ensures Accum(m, samples[|samples| - 1]).ampHours == a + Counted(samples)
    ensures Accum(m, samples[|samples| - 1]).total == m.total + if |samples| == 1 then 0 else samples[|samples| - 1].time - samples[|samples| - 2].time
  {
    AcceptedStep(m, samples[|samples| - 1]);
  }

  lemma {:induction false} AmpHoursAreCounted(a: real, day: int, samples: seq<Sample>)
    requires Steady(day, samples)
    ensures Run(Fresh(a, day), samples).ampHours == a + Counted(samples)
    ensures samples != [] ==> Run(Fresh(a, day), samples).total == samples[|samples| - 1].time - samples[0].time
  {
    if samples != [] {
      var n := |samples| - 1;
      SteadyFront(day, samples);
      AmpHoursAreCounted(a, day, samples[..n]);
      SteadyLast(a, day, samples[..n]);
      assert n > 0 ==> 0 <= Gap(samples, n) <= MAX_GAP;
      CountedStep(a, Run(Fresh(a, day), samples[..n]), samples);
    }
  }

  /** Truncating a step to whole seconds loses less than one second of it. */
  lemma StepError(step: int, v: real, m: real)
    requires 0 <= step && -m <= v <= m
    ensures -(m / 3600.0) <= Exact(v, step) - Whole(v, step) <= m / 3600.0
  {
    var r := step % SECOND;
    assert step as real == (step / SECOND) as real * 1000000.0 + r as real;
    var f := r as real / 1000000.0;
    assert 0.0 <= f <= 1.0;
    var lost := v * (step as real / 3600000000.0) - v * ((step / SECOND) as real / 3600.0);
    assert step as real / 3600000000.0 - (step / SECOND) as real / 3600.0 == f / 3600.0;
    assert lost == v * f / 3600.0;
    Scaled(v, m, f);
  }

  lemma Scaled(v: real, m: real, f: real)
    requires 0.0 <= f <= 1.0 && -m <= v <= m
    ensures -m <= v * f <= m
  {
    if v >= 0.0 {
      assert v * f <= v;
    } else {
      assert v * f >= v;
    }
  }

  /**
   * Over a steady run the amp hours differ from the exact step integral by at most the greatest
   * current over 3600 for each sample.
   */
  lemma AmpHoursError(a: real, day: int, samples: seq<Sample>, m: real)
    requires Steady(day, samples) && forall i :: 0 <= i < |samples| ==> -m <= samples[i].value <= m
    ensures var error := a + Integral(samples) - Run(Fresh(a, day), samples).ampHours;
            -Slack(m, |samples|) <= error <= Slack(m, |samples|)
  {
    AmpHoursAreCounted(a, day, samples);
    CountedError(day, samples, m);
  }

  /** A 3600th of m, n times. */
  function Slack(m: real, n: nat): real {
    if n == 0 then 0.0 else Slack(m, n - 1) + m / 3600.0
  }

  lemma {:induction false} SlackIs(m: real, n: nat)
    ensures Slack(m, n) == m / 3600.0 * n as real
  {
    if n > 0 {
      SlackIs(m, n - 1);
      assert n as real == (n - 1) as real + 1.0;
    }
  }

  lemma {:induction false} CountedError(day: int, samples: seq<Sample>, m: real)
    requires Steady(day, samples) && forall i :: 0 <= i < |samples| ==> -m <= samples[i].value <= m
    ensures -Slack(m, |samples|) <= Integral(samples) - Counted(samples) <= Slack(m, |samples|)
  {
    var n := |samples| - 1;
    if n == 0 {
      assert m >= 0.0;
    } else if n > 0 {
      SteadyFront(day, samples);
      CountedError(day, samples[..n], m);
      assert 0 <= Gap(samples, n) <= MAX_GAP;
      StepError(Gap(samples, n), samples[n - 1].value, m);
    }
  }

  // ---------- Where the accounting goes wrong ----------

  /**
   * A gap of more than ten minutes stops the meter: no later sample of the day is accepted any more,
   * since the time of the last accepted one stays.
   */
  lemma {:induction false} GapStopsTheMeter(m: Meter, samples: seq<Sample>)
    requires Paired(m.window) && m.lastTime.Some?
    requires forall i :: 0 <= i < |samples| ==> samples[i].day == m.lastDate && samples[i].time - m.lastTime.value > MAX_GAP
    ensures Run(m, samples) == m
  {
    if samples != [] {
      GapStopsTheMeter(m, samples[..|samples| - 1]);
    }
  }

  /** A sample is refused exactly for such a gap on the same day. */
  lemma RefusedExactlyWhen(m: Meter, s: Sample)
    requires Paired(m.window)
    ensures Accum(m, s).lastTime == Some(s.time)
            <==> !(s.day == m.lastDate && m.lastTime.Some? && s.time - m.lastTime.value > MAX_GAP)
  {
  }

  /** What a step is charged for: a sample that goes back in time costs what is left of a day. */
  lemma StepBackIsCharged(m: Meter, s: Sample)
    requires Paired(m.window) && m.lastTime.Some? && s.day == m.lastDate && s.time < m.lastTime.value
    ensures var late := (m.lastTime.value - s.time + SECOND - 1) / SECOND; // seconds back, begun ones included
            Accum(m, s).ampHours == m.ampHours + m.value * (((86400 - late % 86400) % 86400) as real / 3600.0)
  {
    var back := m.lastTime.value - s.time;
    var late := (back + SECOND - 1) / SECOND;
    var step := s.time - m.lastTime.value;
    assert step == -back;
    StepBack(back, late);
    var seconds := (86400 - late % 86400) % 86400;
    assert SecondsField(step) == seconds;
    assert Charge(m.value, step) == m.value * (seconds as real / 3600.0);
  }

  lemma StepBack(back: int, late: int)
    requires 0 < back && late == (back + SECOND - 1) / SECOND
    ensures SecondsField(-back) == (86400 - late % 86400) % 86400
  {
    assert (-back) / SECOND == -late;
    assert (-late) % 86400 == (86400 - late % 86400) % 86400;
  }

  /** The seconds charged for an accepted step are those that have passed exactly when it does not go back. */
  lemma ChargedAsPassedExactlyWhen(m: Meter, s: Sample)
    requires Paired(m.window) && m.lastTime.Some? && s.day == m.lastDate && s.time - m.lastTime.value <= MAX_GAP
    ensures var step := s.time - m.lastTime.value;
            && Accum(m, s).ampHours == m.ampHours + m.value * (SecondsField(step) as real / 3600.0)
            && (SecondsField(step) == step / SECOND <==> m.lastTime.value <= s.time)
  {
  }

  // ---------- One sample ----------

  /** The first sample of another day starts the meter anew, with itself alone in the window. */
  lemma NewDayStartsAnew(m: Meter, s: Sample)
    requires Paired(m.window) && s.day != m.lastDate
    ensures Accum(m, s) ==
            Meter(0.0, Some(s.time), s.today, s.value, Window([s.value], [s.time]), s.value, 0, if s.value > -99.0 then s.value else -99.0)
  {
    assert [s.value][..0] == [];
    assert [] + [s.value] == [s.value] && [] + [s.time] == [s.time];
    assert Sum([s.value]) == s.value;
  }

  /** A refused sample leaves everything as it was. */
  lemma RefusedChangesNothing(m: Meter, s: Sample)
    requires Paired(m.window) && m.lastTime.Some? && s.day == m.lastDate && s.time - m.lastTime.value > 600000000
    ensures Accum(m, s) == m
  {
  }

  /** What an accepted one leaves; the value held so far is charged, not the new one. */
  lemma AcceptedMeans(m: Meter, s: Sample)
    requires Paired(m.window) && m.lastTime.Some? && s.day == m.lastDate && s.time - m.lastTime.value <= 600000000
    ensures var r := Accum(m, s);
            var step := s.time - m.lastTime.value;
            && r.ampHours == m.ampHours + m.value * (((step / 1000000) % 86400) as real / 3600.0)
            && r.total == m.total + step && r.lastTime == Some(s.time) && r.lastDate == m.lastDate && r.value == s.value
            && r.maximum >= m.maximum && r.maximum >= s.value && (r.maximum == m.maximum || r.maximum == s.value)
  {
  }

  /** The window takes the sample at its end and gives up its oldest one just if that is more than a minute older. */
  lemma WindowMeans(w: Window, t: int, v: real)
    requires Paired(w) && w.times != []
    ensures var r := Slide(w, t, v);
            if t - w.times[0] > 60000000 then r == Window(w.values[1..] + [v], w.times[1..] + [t])
            else r == Window(w.values + [v], w.times + [t])
  {
  }

  /** Sums add up, so the average is what makes the sum when taken once for each sample. */
  lemma {:induction false} SumAdds(a: seq<real>, b: seq<real>, x: real)
    ensures Sum(a + b) == Sum(a) + Sum(b) && Sum([x]) == x && Sum([]) == 0.0
    decreases |b|
  {
    assert [x][..0] == [];
    if b == [] {
      assert a + b == a;
    } else {
      assert (a + b)[..|a + b| - 1] == a + b[..|b| - 1];
      SumAdds(a, b[..|b| - 1], x);
    }
  }

  lemma AverageIs(m: Meter, s: Sample)
    requires Paired(m.window) && Accum(m, s).lastTime == Some(s.time) && m.lastTime != Some(s.time)
    ensures var r := Accum(m, s); r.window.values != [] && r.average * |r.window.values| as real == Sum(r.window.values)
  {
  }

  /** m is the greatest of the samples, or -99 if all are below. */
  predicate IsGreatest(samples: seq<Sample>, m: real) {
    && (forall i :: 0 <= i < |samples| ==> samples[i].value <= m) && -99.0 <= m
    && (m == -99.0 || exists i :: 0 <= i < |samples| && samples[i].value == m)
  }

  lemma GreatestGrows(samples: seq<Sample>, m: real, r: real)
    requires samples != [] && IsGreatest(samples[..|samples| - 1], m)
    requires r >= m && r >= samples[|samples| - 1].value && (r == m || r == samples[|samples| - 1].value)
    ensures IsGreatest(samples, r)
  {
    var n := |samples| - 1;
    assert forall i :: 0 <= i < n ==> samples[..n][i] == samples[i];
  }

  lemma MaximumStep(m: Meter, s: Sample)
    requires Paired(m.window) && s.day == m.lastDate && (m.lastTime.Some? ==> s.time - m.lastTime.value <= MAX_GAP)
    ensures var r := Accum(m, s).maximum;
            r >= m.maximum && r >= s.value && (r == m.maximum || r == s.value)
  {
  }

  /** Over a run the maximum is the greatest sample. */
  lemma {:induction false} MaximumIsGreatest(a: real, day: int, samples: seq<Sample>)
    requires Steady(day, samples)
    ensures IsGreatest(samples, Run(Fresh(a, day), samples).maximum)
  {
    if samples != [] {
      var n := |samples| - 1;
      var m := Run(Fresh(a, day), samples[..n]);
      SteadyFront(day, samples);
      MaximumIsGreatest(a, day, samples[..n]);
      SteadyLast(a, day, samples[..n]);
      assert n > 0 ==> 0 <= Gap(samples, n) <= MAX_GAP;
      MaximumStep(m, samples[n]);
      GreatestGrows(samples, m.maximum, Accum(m, samples[n]).maximum);
    }
  }

  // ---------- Voltage ----------

  /** log holds every sample so far; the window is what they leave, since none is refused and nothing is reset. */
  class VoltageMonitor {
    var value: real
    var voltHistory: seq<real>
    var timeHistory: seq<int>
    var oneMinAve: real
    var oneMinMin: real
    ghost var log: seq<Sample>

    ghost predicate Valid()
      reads this
    {
      |voltHistory| == |timeHistory| && Window(voltHistory, timeHistory) == Slid(log)
    }

    constructor ()
      ensures Valid() && voltHistory == [] && log == [] && value == 0.0 && oneMinAve == 0.0 && oneMinMin == 999.0
    {
      value, voltHistory, timeHistory, oneMinAve, oneMinMin := 0.0, [], [], 0.0, 999.0;
      log := [];
    }

    method AccumVoltage(time: int, raw: real, mult: real)
      requires Valid()
      modifies this
      ensures Valid() && value == raw * mult && log == old(log) + [Sample(time, raw * mult, 0, 0)]
      ensures Window(voltHistory, timeHistory) == Slide(old(Window(voltHistory, timeHistory)), time, raw * mult)
      ensures oneMinAve == Average(voltHistory)
      ensures oneMinMin in voltHistory && forall i :: 0 <= i < |voltHistory| ==> oneMinMin <= voltHistory[i]
    {
      value := raw * mult;
      Append(time, value);
      oneMinAve := Average(voltHistory);
      oneMinMin := Minimum(voltHistory);
    }

    method Append(time: int, sample: real)
      requires Valid()
      modifies this`voltHistory, this`timeHistory, this`log
      ensures Valid() && log == old(log) + [Sample(time, sample, 0, 0)]
      ensures Window(voltHistory, timeHistory) == Slide(old(Window(voltHistory, timeHistory)), time, sample)
    {
      voltHistory := voltHistory + [sample];
      timeHistory := timeHistory + [time];
      if timeHistory[|timeHistory| - 1] - timeHistory[0] > MINUTE {
        voltHistory := voltHistory[1..];
        timeHistory := timeHistory[1..];
      }
      SlidOne(log, Sample(time, sample, 0, 0));
      log := log + [Sample(time, sample, 0, 0)];
    }
  }

  lemma SlidOne(samples: seq<Sample>, s: Sample)
    ensures Slid(samples + [s]) == Slide(Slid(samples), s.time, s.value)
  {
    assert (samples + [s])[..|samples|] == samples;
  }
}
