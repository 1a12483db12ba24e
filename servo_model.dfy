/**
 * The state that the CCP1 servo driver works on, as a value, and the two
 * atomic steps that change it: the compare-match interrupt routine and the
 * producer's pulse-width setter.
 */
module ServoModel {

  /** Timer1 and the CCPR1 compare register are 16 bits wide. */
  const MODULUS: int := 0x1_0000

  type u16 = x: int | 0 <= x < 0x1_0000

  /** The 4-bit CCP1MODE field of CCP1CON. */
  type CcpMode = m: int | 0 <= m < 16

  /** One period of the servo signal, in Timer1 ticks (1 us each). */
  const SERVO_PERIOD: int := 20000

  /** Compare mode "set output on match" (0b1000): a high phase starts at the next match. */
  const SET_ON_MATCH: CcpMode := 8

  /** Compare mode "clear output on match" (0b1001): a low phase starts at the next match. */
  const CLEAR_ON_MATCH: CcpMode := 9

  /** First compare value, 10 ms after Timer1 starts, so the servo can settle. */
  const STARTUP_COMPARE: u16 := 10000

  /** Both width variables start at 1.5 ms, the servo's neutral position. */
  const INITIAL_PULSE_TIME: u16 := 1500

  /** The value a conversion to uint16_t gives: reduction modulo 2^16. */
  function Wrap16(x: int): u16
  {
    x % MODULUS
  }

  /** Ticks, modulo 2^16, that separate the compare value `from` from the next one `to`. */
  function Advance(from: u16, to: u16): u16
  {
    Wrap16(to - from)
  }

  /** Adding to a wrapped value and wrapping again is the same as adding and wrapping once. */
  lemma WrapSum(a: int, b: int)
    ensures Wrap16(Wrap16(a) + b) == Wrap16(a + b)
  {
    var q := a / MODULUS;
    assert a == q * MODULUS + Wrap16(a);
    assert Wrap16(a) + b == (a + b) - q * MODULUS;
  }

  /** Advancing a compare value by `d` and wrapping is an advance of `d` modulo 2^16. */
  lemma AdvanceOfWrap(c: u16, d: int)
    ensures Advance(c, Wrap16(c + d)) == Wrap16(d)
  {
    WrapSum(c + d, -(c as int));
  }

  /**
   * Timer ticks that elapse between two matches scheduled `d` apart: Timer1
   * counts through all 2^16 values before it meets an unchanged compare value
   * again, so an advance of 0 lasts a full wrap. This assumes the routine
   * rewrites CCPR1 before Timer1 reaches the new compare value, that is,
   * every advance is longer than the interrupt latency; an advance of a few
   * ticks that the routine re-arms too late lasts an extra 2^16 ticks, which
   * is not modelled.
   */
  function PhaseTicks(d: u16): (n: nat)
    ensures 0 < n <= MODULUS
    ensures n % MODULUS == d
  {
    if d == 0 then MODULUS else d
  }

  /** The snapshot of every register and variable the interrupt routine and the setter touch. */
  datatype Regs = Regs(
    mode: CcpMode,          // CCP1CONbits.CCP1MODE
    ccpr1: u16,             // CCPR1, the compare register
    servoPulseTime: u16,    // servo_pulse_time, the width in use
    newPulseTime: u16,      // new_pulse_time, the pending width
    peie: bool,             // INTCONbits.PEIE
    ccp1ie: bool,           // PIE4bits.CCP1IE
    ccp1if: bool            // PIR4bits.CCP1IF
  )

  /**
   * The state once the system is initialised: both widths at their initial
   * value, Set-On-Match with the startup compare value, the CCP1 and
   * peripheral interrupts enabled and no match pending yet.
   */
  function Init(): Regs
  {
    Regs(SET_ON_MATCH, STARTUP_COMPARE, INITIAL_PULSE_TIME, INITIAL_PULSE_TIME, true, true, false)
  }

  /** The routine acts only when peripheral interrupts, the CCP1 interrupt and its flag are all set. */
  predicate IsrActs(s: Regs)
  {
    s.peie && s.ccp1ie && s.ccp1if
  }

  /**
   * One run of the interrupt routine. On a Set-On-Match the high phase that
   * just began is scheduled to last the width in use; on any other mode the
   * low phase is scheduled to last the rest of the period, computed with the
   * width in use, and only then is the pending width latched.
   */
  function IsrStep(s: Regs): (t: Regs)
    ensures !IsrActs(s) ==> t == s
    ensures IsrActs(s) ==> !t.ccp1if && t.peie && t.ccp1ie && t.newPulseTime == s.newPulseTime
    ensures IsrActs(s) && s.mode == SET_ON_MATCH ==>
      t.mode == CLEAR_ON_MATCH &&
      Advance(s.ccpr1, t.ccpr1) == s.servoPulseTime &&
      t.servoPulseTime == s.servoPulseTime
    ensures IsrActs(s) && s.mode != SET_ON_MATCH ==>
      t.mode == SET_ON_MATCH &&
      Advance(s.ccpr1, t.ccpr1) == Wrap16(SERVO_PERIOD - s.servoPulseTime) &&
      t.servoPulseTime == s.newPulseTime
  {
    if !IsrActs(s) then s
    else if s.mode == SET_ON_MATCH then
      AdvanceOfWrap(s.ccpr1, s.servoPulseTime);
      s.(ccp1if := false, ccpr1 := Wrap16(s.ccpr1 + s.servoPulseTime), mode := CLEAR_ON_MATCH)
    else
      var low := SERVO_PERIOD - s.servoPulseTime;
      AdvanceOfWrap(s.ccpr1, low);
      var t := s.(ccp1if := false, ccpr1 := Wrap16(s.ccpr1 + low), mode := SET_ON_MATCH);
      t.(servoPulseTime := s.newPulseTime)
  }

  /**
   * The producer's setter: save CCP1IE, clear it, write the pending width,
   * restore CCP1IE to the saved value.
   */
  function SetStep(s: Regs, time: u16): (t: Regs)
    ensures t.newPulseTime == time
    ensures t.ccp1ie == s.ccp1ie
    ensures t.(newPulseTime := s.newPulseTime) == s
  {
    var status := s.ccp1ie;
    var masked := s.(ccp1ie := false);
    var written := masked.(newPulseTime := time);
    written.(ccp1ie := status)
  }

  /** While the setter holds CCP1IE clear, an interrupt entry changes nothing. */
  lemma MaskedInterruptIsIdle(s: Regs, time: u16)
    ensures IsrStep(s.(ccp1ie := false)) == s.(ccp1ie := false)
    ensures IsrStep(s.(ccp1ie := false, newPulseTime := time)) == s.(ccp1ie := false, newPulseTime := time)
  {
  }

  /**
   * A period (one high phase of width `w` followed by its low phase) lasts
   * exactly SERVO_PERIOD timer ticks if and only if 0 < w < SERVO_PERIOD;
   * outside that range the compare register still advances by SERVO_PERIOD
   * modulo 2^16 but Timer1 wraps once more in between. Tick counts are those
   * of PhaseTicks, so a re-arm later than the match is not covered.
   */
  lemma ExactPeriodIffWidthInRange(w: u16)
    ensures PhaseTicks(w) + PhaseTicks(Wrap16(SERVO_PERIOD - w)) == SERVO_PERIOD
            <==> 0 < w < SERVO_PERIOD
  {
    if w == 0 || w >= SERVO_PERIOD {
      assert PhaseTicks(w) + PhaseTicks(Wrap16(SERVO_PERIOD - w)) > SERVO_PERIOD;
    } else {
      assert Wrap16(SERVO_PERIOD - w) == SERVO_PERIOD - w;
    }
  }

  /**
   * The width the demonstration loop in main requests, from a value `r`
   * returned by rand(): always within 500..2499 ticks, so every period it
   * produces is exactly SERVO_PERIOD ticks long.
   */
  function ProducedWidth(r: nat): (w: u16)
    ensures 500 <= w < 2500
    ensures PhaseTicks(w) + PhaseTicks(Wrap16(SERVO_PERIOD - w)) == SERVO_PERIOD
  {
    var w := r % 2000 + 500;
    ExactPeriodIffWidthInRange(w);
    w
  }
}
