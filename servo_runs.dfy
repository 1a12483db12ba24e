/**
 * Runs of the servo driver: any interleaving of hardware compare matches,
 * interrupt entries and producer writes, and what stays true along them.
 */
module ServoRuns {
  import opened ServoModel

  /** What can happen between two observations of the state. */
  datatype Event =
    | CompareMatch       // Timer1 reaches CCPR1: the hardware sets CCP1IF
    | Interrupt          // the interrupt routine is entered (for any interrupt source)
    | Write(time: u16)   // the producer calls the setter

  function Step(s: Regs, e: Event): Regs
  {
    match e
    case CompareMatch => s.(ccp1if := true)
    case Interrupt => IsrStep(s)
    case Write(time) => SetStep(s, time)
  }

  /** Whether event `e` is an interrupt entry in which the routine acts. */
  predicate ActsOn(s: Regs, e: Event)
  {
    e.Interrupt? && IsrActs(s)
  }

  /** The state after the events `evs`, in order, starting from `s`. */
  function Run(s: Regs, evs: seq<Event>): Regs
    decreases |evs|
  {
    if evs == [] then s else Step(Run(s, evs[..|evs| - 1]), evs[|evs| - 1])
  }

  /** The number of acting interrupt steps in the events `evs` run from `s`. */
  function Acting(s: Regs, evs: seq<Event>): nat
    decreases |evs|
  {
    if evs == [] then 0
    else
      var before := evs[..|evs| - 1];
      Acting(s, before) + (if ActsOn(Run(s, before), evs[|evs| - 1]) then 1 else 0)
  }

  /** The width of the last write in `evs`, or `pending` when there is none. */
  function LastWrite(evs: seq<Event>, pending: u16): u16
    decreases |evs|
  {
    if evs == [] then pending
    else if evs[|evs| - 1].Write? then evs[|evs| - 1].time
    else LastWrite(evs[..|evs| - 1], pending)
  }

  /** Running one more event is one more step. */
  lemma RunSnoc(s: Regs, evs: seq<Event>, e: Event)
    ensures Run(s, evs + [e]) == Step(Run(s, evs), e)
  {
    assert (evs + [e])[..|evs|] == evs;
  }

  /**
   * `r` is where the schedule begun at compare value `base` in Set-On-Match
   * mode should be after `k` acting steps: k / 2 whole periods have passed,
   * and when k is odd a high phase of the width in use has been scheduled.
   */
  predicate OnSchedule(base: u16, k: nat, r: Regs)
  {
    r.mode == (if k % 2 == 0 then SET_ON_MATCH else CLEAR_ON_MATCH) &&
    r.ccpr1 == Wrap16(base + SERVO_PERIOD * (k / 2) + (if k % 2 == 0 then 0 else r.servoPulseTime))
  }

  lemma StepStaysOnSchedule(base: u16, k: nat, r: Regs, e: Event)
    requires OnSchedule(base, k, r)
    ensures OnSchedule(base, k + (if ActsOn(r, e) then 1 else 0), Step(r, e))
  {
    if ActsOn(r, e) {
      var x := base + SERVO_PERIOD * (k / 2);
      var t := IsrStep(r);
      if k % 2 == 0 {
        WrapSum(x, r.servoPulseTime);
        assert (k + 1) / 2 == k / 2 && (k + 1) % 2 == 1;
      } else {
        WrapSum(x + r.servoPulseTime, SERVO_PERIOD - r.servoPulseTime);
        assert (k + 1) / 2 == k / 2 + 1 && (k + 1) % 2 == 0;
        assert x + SERVO_PERIOD == base + SERVO_PERIOD * ((k + 1) / 2);
      }
    }
  }

  /**
   * Whatever the interleaving of matches, interrupt entries and writes, the
   * compare register stays on the schedule: it is always derived from the
   * starting value by whole periods plus, in the high phase, the width in use.
   */
  lemma {:induction false} RunStaysOnSchedule(s: Regs, evs: seq<Event>, base: u16, k: nat)
    requires OnSchedule(base, k, s)
    ensures OnSchedule(base, k + Acting(s, evs), Run(s, evs))
    decreases |evs|
  {
    if evs != [] {
      var before := evs[..|evs| - 1];
      RunStaysOnSchedule(s, before, base, k);
      StepStaysOnSchedule(base, k + Acting(s, before), Run(s, before), evs[|evs| - 1]);
    }
  }

  /**
   * From power-on, after k acting interrupt steps the mode is Set-On-Match
   * when k is even and Clear-On-Match when k is odd, and CCPR1 is the
   * startup compare value plus k / 2 periods (plus the width in use when k
   * is odd), modulo 2^16.
   */
  lemma ScheduleFromPowerOn(evs: seq<Event>)
    ensures Run(Init(), evs).mode == SET_ON_MATCH <==> Acting(Init(), evs) % 2 == 0
    ensures Run(Init(), evs).mode == CLEAR_ON_MATCH <==> Acting(Init(), evs) % 2 == 1
    ensures OnSchedule(STARTUP_COMPARE, Acting(Init(), evs), Run(Init(), evs))
  {
    assert OnSchedule(STARTUP_COMPARE, 0, Init());
    RunStaysOnSchedule(Init(), evs, STARTUP_COMPARE, 0);
  }

  /**
   * From any Set-On-Match state, an even number 2n of acting steps advances
   * CCPR1 by exactly n periods modulo 2^16 and ends in Set-On-Match, whatever
   * widths the producer writes in between.
   */
  lemma CompletedPeriodsAdvanceExactly(s: Regs, evs: seq<Event>)
    requires s.mode == SET_ON_MATCH
    requires Acting(s, evs) % 2 == 0
    ensures Run(s, evs).mode == SET_ON_MATCH
    ensures Advance(s.ccpr1, Run(s, evs).ccpr1) == Wrap16(SERVO_PERIOD * (Acting(s, evs) / 2))
  {
    var k := Acting(s, evs);
    assert OnSchedule(s.ccpr1, 0, s);
    RunStaysOnSchedule(s, evs, s.ccpr1, 0);
    assert OnSchedule(s.ccpr1, k, Run(s, evs));
    AdvanceOfWrap(s.ccpr1, SERVO_PERIOD * (k / 2));
  }

  /**
   * The special case of two acting steps: one high phase and one low phase
   * together advance CCPR1 by exactly SERVO_PERIOD modulo 2^16.
   */
  lemma OnePeriodAdvancesByServoPeriod(s: Regs, evs: seq<Event>)
    requires s.mode == SET_ON_MATCH
    requires Acting(s, evs) == 2
    ensures Run(s, evs).mode == SET_ON_MATCH
    ensures Run(s, evs).ccpr1 == Wrap16(s.ccpr1 + SERVO_PERIOD)
  {
    assert OnSchedule(s.ccpr1, 0, s);
    RunStaysOnSchedule(s, evs, s.ccpr1, 0);
    assert OnSchedule(s.ccpr1, 2, Run(s, evs));
  }

  /**
   * Between two acting interrupt steps nothing but the pending width and the
   * interrupt flags changes, and the pending width is the last one written:
   * writes do not affect the phase in progress, and the last write wins.
   */
  lemma {:induction false} QuietRunOnlyChangesPending(s: Regs, evs: seq<Event>)
    requires Acting(s, evs) == 0
    ensures Run(s, evs).mode == s.mode
    ensures Run(s, evs).ccpr1 == s.ccpr1
    ensures Run(s, evs).servoPulseTime == s.servoPulseTime
    ensures Run(s, evs).newPulseTime == LastWrite(evs, s.newPulseTime)
    ensures Run(s, evs).peie == s.peie && Run(s, evs).ccp1ie == s.ccp1ie
    decreases |evs|
  {
    if evs != [] {
      QuietRunOnlyChangesPending(s, evs[..|evs| - 1]);
    }
  }

  /** A quiet run that ends with the routine about to act differs from its start only in the pending width and CCP1IF. */
  lemma ArrivingAtMatch(s: Regs, evs: seq<Event>)
    requires Acting(s, evs) == 0 && IsrActs(Run(s, evs))
    ensures Run(s, evs) == s.(newPulseTime := LastWrite(evs, s.newPulseTime), ccp1if := true)
  {
    QuietRunOnlyChangesPending(s, evs);
  }

  /**
   * A width change never splits a period. Take a Set-On-Match state with
   * width w in use; let the producer write before the rising-edge step
   * (`a`, typically during the previous low phase) and during the high
   * phase (`b`). The high phase is scheduled for w ticks, the low phase for
   * SERVO_PERIOD - w (both modulo 2^16), and the width latched at the
   * falling edge, used by the next period, is the last one written before it.
   */
  lemma WidthChangeNeverSplitsPeriod(s: Regs, a: seq<Event>, b: seq<Event>)
    requires s.mode == SET_ON_MATCH
    requires Acting(s, a) == 0 && IsrActs(Run(s, a))
    requires Acting(IsrStep(Run(s, a)), b) == 0 && IsrActs(Run(IsrStep(Run(s, a)), b))
    ensures var high := IsrStep(Run(s, a));
      var low := IsrStep(Run(high, b));
      Advance(s.ccpr1, high.ccpr1) == s.servoPulseTime &&
      Advance(high.ccpr1, low.ccpr1) == Wrap16(SERVO_PERIOD - s.servoPulseTime) &&
      low.mode == SET_ON_MATCH &&
      low.servoPulseTime == LastWrite(b, LastWrite(a, s.newPulseTime))
  {
    ArrivingAtMatch(s, a);
    var high := IsrStep(Run(s, a));
    ArrivingAtMatch(high, b);
  }

  /**
   * A write made during a low phase, after the falling-edge step has latched
   * the pending width, waits one more period: the next high phase is
   * scheduled with the width latched at that falling edge, and the writes
   * (`c`) stay pending, last one first in line.
   */
  lemma LowPhaseWriteWaitsOnePeriod(s: Regs, c: seq<Event>)
    requires IsrActs(s) && s.mode != SET_ON_MATCH
    requires Acting(IsrStep(s), c) == 0 && IsrActs(Run(IsrStep(s), c))
    ensures var fall := IsrStep(s);
      var rise := IsrStep(Run(fall, c));
      rise.mode == CLEAR_ON_MATCH &&
      Advance(fall.ccpr1, rise.ccpr1) == s.newPulseTime &&
      rise.servoPulseTime == s.newPulseTime &&
      rise.newPulseTime == LastWrite(c, s.newPulseTime)
  {
    ArrivingAtMatch(IsrStep(s), c);
  }

  /** Every event of `evs` that writes a width writes one in (0, SERVO_PERIOD). */
  predicate WritesInRange(evs: seq<Event>)
  {
    forall i :: 0 <= i < |evs| && evs[i].Write? ==> 0 < evs[i].time < SERVO_PERIOD
  }

  /**
   * The setter does not clamp, so the widths stay in (0, SERVO_PERIOD), and
   * hence every period lasts exactly SERVO_PERIOD ticks, only when the
   * producer writes widths in that range, as the demonstration loop does.
   */
  lemma {:induction false} WidthsStayInRange(s: Regs, evs: seq<Event>)
    requires 0 < s.servoPulseTime < SERVO_PERIOD && 0 < s.newPulseTime < SERVO_PERIOD
    requires WritesInRange(evs)
    ensures 0 < Run(s, evs).servoPulseTime < SERVO_PERIOD
    ensures 0 < Run(s, evs).newPulseTime < SERVO_PERIOD
    ensures PhaseTicks(Run(s, evs).servoPulseTime) + PhaseTicks(Wrap16(SERVO_PERIOD - Run(s, evs).servoPulseTime))
            == SERVO_PERIOD
    decreases |evs|
  {
    if evs != [] {
      var before := evs[..|evs| - 1];
      assert WritesInRange(before) by {
        forall i | 0 <= i < |before| && before[i].Write? ensures 0 < before[i].time < SERVO_PERIOD {
          assert before[i] == evs[i];
        }
      }
      WidthsStayInRange(s, before);
    }
    ExactPeriodIffWidthInRange(Run(s, evs).servoPulseTime);
  }

  /**
   * The start-up sequence: the first match at 10000 starts the first high
   * phase, scheduled to end at 11500; that match schedules the next high
   * phase at 30000, and that one ends at 31500.
   */
  lemma PowerOnScenario()
    ensures Run(Init(), [CompareMatch, Interrupt]).ccpr1 == 11500
    ensures Run(Init(), [CompareMatch, Interrupt, CompareMatch, Interrupt]).ccpr1 == 30000
    ensures Run(Init(), [CompareMatch, Interrupt, CompareMatch, Interrupt, CompareMatch, Interrupt]).ccpr1 == 31500
  {
    var m, n := CompareMatch, Interrupt;
    var s2 := IsrStep(Init().(ccp1if := true));
    var s4 := IsrStep(s2.(ccp1if := true));
    var s6 := IsrStep(s4.(ccp1if := true));
    assert s2.ccpr1 == 11500 && s4.ccpr1 == 30000 && s6.ccpr1 == 31500;
    RunSnoc(Init(), [], m);
    RunSnoc(Init(), [m], n);
    assert [m] + [n] == [m, n];
    assert Run(Init(), [m, n]) == s2;
    RunSnoc(Init(), [m, n], m);
    RunSnoc(Init(), [m, n, m], n);
    assert [m, n] + [m] == [m, n, m] && [m, n, m] + [n] == [m, n, m, n];
    assert Run(Init(), [m, n, m, n]) == s4;
    RunSnoc(Init(), [m, n, m, n], m);
    RunSnoc(Init(), [m, n, m, n, m], n);
    assert [m, n, m, n] + [m] == [m, n, m, n, m] && [m, n, m, n, m] + [n] == [m, n, m, n, m, n];
  }
}
