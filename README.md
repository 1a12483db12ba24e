# CCP servo pulse generator

A Dafny model of the servo driver in `CCPServo.X/main.c`, firmware for a
PIC16F18325. The firmware makes a 20 ms (20000-tick) servo signal with the
CCP1 module in compare mode on Timer1. The interrupt routine runs on every
compare match. It alternates two steps:

- In Set-On-Match mode (`0b1000`), the output has just gone high. The routine
  schedules the next match `servo_pulse_time` ticks later and switches to
  Clear-On-Match.
- In any other mode, the output has just gone low. The routine schedules the
  next match `SERVO_PERIOD - servo_pulse_time` ticks later, switches back to
  Set-On-Match, and only then copies the pending width `new_pulse_time` into
  `servo_pulse_time`.

The producer writes `new_pulse_time` through `set_servo_pulse_time`. That
setter masks the CCP1 interrupt while it writes and then restores the mask
bit to its previous value.

Layout:

- `servo_model.dfy` (module `ServoModel`): 16-bit arithmetic, the register
  snapshot `Regs`, and the two atomic steps as functions (`IsrStep`,
  `SetStep`). It also holds the tick-count facts.
- `servo_runs.dfy` (module `ServoRuns`): arbitrary interleavings of compare
  matches, interrupt entries and producer writes. It proves what holds along
  all of them: the compare schedule, mode alternation, period conservation,
  and that a width change never splits a period.
- `ccp_servo.dfy` (module `CcpServo`): the firmware's globals and registers as
  the fields of class `Channel`. `Isr` and `SetServoPulseTime` update them in
  place, and each is proved equal to its step function. `CompareMatch` is the
  in-place counterpart of the hardware match event.

Choices that follow the code:

- `set_servo_pulse_time` does no clamping. The width is stored as given.
  `ExactPeriodIffWidthInRange` and `WidthsStayInRange` show what this means.
  The compare register always advances by 20000 modulo 2^16 per period. But
  the real period is 20000 ticks only when the width lies in (0, 20000),
  assuming the routine re-arms CCPR1 before Timer1 reaches the new value.
  The demonstration producer only requests 500..2499 (`ProducedWidth`).
- The low phase is scheduled with the OLD width (line 77), and the new width
  is latched afterwards (line 79). So both phases of a period use the same
  width, and their advances add up to 20000 modulo 2^16. A width written
  during a low phase is latched only at the falling edge of the next period,
  so it takes effect one period later.
- The mode is the raw 4-bit `CCP1MODE` value. Any mode other than `0b1000`
  takes the low-phase branch, as the `else` at line 76 does.
- `SERVO_PERIOD - servo_pulse_time` is computed as an unbounded integer, and
  the sum is reduced modulo 2^16 when it is stored in `CCPR1`. With XC8's
  16-bit `int`, the subtraction is done in `unsigned int` instead. That gives
  the same value modulo 2^16, so the stored `CCPR1` is the same.
- Hardware is modelled only through events. `CompareMatch` sets `CCP1IF`.
  `Interrupt` enters the routine, for any interrupt source. `Write(t)` calls
  the setter. The initial state has `CCP1IF` clear, which is its reset value.

## Model

| member | source | states |
|---|---|---|
| `ServoModel.IsrStep` | CCPServo.X/main.c:68-83 | Unless PEIE, CCP1IE and CCP1IF are all set, nothing changes. When the routine acts, CCP1IF is cleared and PEIE, CCP1IE and `new_pulse_time` are kept. In Set-On-Match, CCPR1 advances by the width in use (mod 2^16), the mode becomes Clear-On-Match and the width is kept. In any other mode, CCPR1 advances by `SERVO_PERIOD -` the old width (mod 2^16), the mode becomes Set-On-Match and the width in use becomes the pending one. |
| `ServoModel.SetStep` | CCPServo.X/main.c:148-157 | The pending width becomes exactly the argument, with no clamping. CCP1IE ends with its value from before the call. Every other field is unchanged. |
| `ServoModel.MaskedInterruptIsIdle` | CCPServo.X/main.c:151-156 | An interrupt entered while the setter holds CCP1IE clear, before or after the write, changes nothing. |
| `ServoModel.ExactPeriodIffWidthInRange` | CCPServo.X/main.c:73-79 | A high phase of width w plus its low phase last exactly 20000 timer ticks if and only if 0 < w < 20000. A zero advance lasts a full 2^16-tick wrap. Ticks are counted assuming the routine re-arms CCPR1 in time (see Left out). |
| `ServoModel.ProducedWidth` | CCPServo.X/main.c:167 | For any `rand()` value, the demonstration loop's width lies in 500..2499, and a period with that width lasts exactly 20000 ticks, counting ticks as `PhaseTicks` does. |
| `ServoRuns.StepStaysOnSchedule` | CCPServo.X/main.c:68-83 | Any single event keeps the compare register on the schedule. The schedule is: k/2 whole periods after the base value, plus the width in use in the high phase. The mode must match the parity of the count of acting steps. |
| `ServoRuns.RunStaysOnSchedule` | CCPServo.X/main.c:68-83 | The schedule holds along every interleaving of matches, interrupt entries and writes. Here k counts the acting interrupt steps. |
| `ServoRuns.ScheduleFromPowerOn` | CCPServo.X/main.c:68-83 | From the initial state (widths 1500 from lines 65-66; Set-On-Match and CCPR1 = 10000 from lines 125 and 129), let k be the number of acting steps. The mode is Set-On-Match iff k is even and Clear-On-Match iff k is odd. CCPR1 = 10000 + 20000·(k/2), plus the width in use when k is odd, mod 2^16. |
| `ServoRuns.CompletedPeriodsAdvanceExactly` | CCPServo.X/main.c:73-79 | From Set-On-Match, any run with 2n acting steps ends in Set-On-Match with CCPR1 advanced by exactly 20000·n mod 2^16, whatever widths are written in between. |
| `ServoRuns.OnePeriodAdvancesByServoPeriod` | CCPServo.X/main.c:74-79 | From Set-On-Match, two acting steps advance CCPR1 by exactly 20000 mod 2^16, whatever `new_pulse_time` is. |
| `ServoRuns.QuietRunOnlyChangesPending` | CCPServo.X/main.c:148-157 | Between acting interrupt steps, the mode, CCPR1, the width in use, PEIE and CCP1IE stay unchanged. The pending width is the last one written (last write wins). |
| `ServoRuns.ArrivingAtMatch` | CCPServo.X/main.c:148-157 | A run with no acting interrupt step that ends where the routine is about to act differs from its start only in CCP1IF and in the pending width, which is the last one written. |
| `ServoRuns.WidthChangeNeverSplitsPeriod` | CCPServo.X/main.c:73-79 | Start in Set-On-Match with width w, with writes before the rising-edge step (`a`) and during the high phase (`b`). The high phase is scheduled for w ticks and the low phase for 20000 - w ticks (mod 2^16). The width latched at the falling edge, which the next period uses, is the last one written before that falling edge. |
| `ServoRuns.LowPhaseWriteWaitsOnePeriod` | CCPServo.X/main.c:76-79 | A write made during a low phase, after the falling edge has latched the pending width, waits one more period. The next high phase is scheduled with the width latched at that falling edge, and the written width stays pending. |
| `ServoRuns.WidthsStayInRange` | CCPServo.X/main.c:148-157 | If the starting widths and every written width lie in (0, 20000), both widths stay in that range. Every period then lasts exactly 20000 ticks, counting ticks as `PhaseTicks` does. |
| `ServoRuns.PowerOnScenario` | CCPServo.X/main.c:124-129 | From the initial state, the first three matches leave CCPR1 at 11500, 30000 and 31500. |
| `CcpServo.Channel.constructor` | CCPServo.X/main.c:124-138 | The initial state: widths 1500 (the globals at lines 65-66), Set-On-Match, CCPR1 = 10000, CCP1IE and PEIE set, CCP1IF clear. |
| `CcpServo.Channel.CompareMatch` | CCPServo.X/main.c:70 | The hardware match sets CCP1IF, the flag the routine tests, and changes nothing else. |
| `CcpServo.Channel.Isr` | CCPServo.X/main.c:68-83 | Updating the fields in place gives exactly `IsrStep` of the old state. |
| `CcpServo.Channel.SetServoPulseTime` | CCPServo.X/main.c:148-157 | The save/clear/write/restore sequence gives exactly `SetStep` of the old state. |

## Left out

- The `#pragma config` fuse settings and `_XTAL_FREQ`: constants with no runtime behaviour.
- `init_ports`, `init_pps` (PPS unlock/lock sequence and the GIE save/restore), `init_timers`: register configuration with no logic. `init_interrupts` appears only as the enabled flags in the initial state.
- The output pin level and the moment a match fires: these are hardware. A match is only an event that sets CCP1IF (`CompareMatch`).
- PhaseTicks: the only model of Timer1 counting. It assumes each scheduled advance is longer than the interrupt latency, so that the routine re-arms CCPR1 before Timer1 reaches the new value. A phase of a few ticks, re-armed too late, really lasts an extra 2^16 ticks. Missed matches are not modelled. `ExactPeriodIffWidthInRange`, `ProducedWidth` and `WidthsStayInRange` count ticks under the same assumption.
- `main`'s endless loop, `rand()` and `__delay_ms`: the loop is not modelled. `rand()` becomes the parameter of `ProducedWidth`, which models only the width formula on line 167.
- Preemption inside a step and byte-level tearing of the 16-bit `new_pulse_time` write on the 8-bit core: the ISR and the setter are atomic steps. For the critical section, the model captures only that CCP1IE is saved, cleared and restored, and that an interrupt entered while it is clear does nothing.
- Other interrupt sources sharing the vector: they appear only as interrupt entries in which the routine's guard is false.
