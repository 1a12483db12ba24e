/**
 * The servo driver as the firmware holds it: global variables and special
 * function registers updated in place by the interrupt routine and by the
 * producer's setter, each run as one atomic step.
 */
module CcpServo {
  import opened ServoModel

  class Channel {
    var mode: CcpMode          // CCP1CONbits.CCP1MODE
    var ccpr1: u16             // CCPR1
    var servoPulseTime: u16    // servo_pulse_time
    var newPulseTime: u16      // new_pulse_time
    var peie: bool             // INTCONbits.PEIE
    var ccp1ie: bool           // PIE4bits.CCP1IE
    var ccp1if: bool           // PIR4bits.CCP1IF

    /** The current contents of the registers and variables, as a value. */
    function Snapshot(): Regs
      reads this
    {
      Regs(mode, ccpr1, servoPulseTime, newPulseTime, peie, ccp1ie, ccp1if)
    }

    /**
     * The state after initialisation: the width globals at 1.5 ms, CCP1 in
     * Set-On-Match with the first match 10 ms after Timer1 starts, and the
     * CCP1 and peripheral interrupts enabled.
     */
    constructor ()
      ensures mode == SET_ON_MATCH && ccpr1 == STARTUP_COMPARE
      ensures servoPulseTime == INITIAL_PULSE_TIME && newPulseTime == INITIAL_PULSE_TIME
      ensures peie && ccp1ie && !ccp1if
      ensures Snapshot() == Init()
    {
      servoPulseTime := INITIAL_PULSE_TIME;
      newPulseTime := INITIAL_PULSE_TIME;
      mode := SET_ON_MATCH;
      ccpr1 := STARTUP_COMPARE;
      ccp1if := false;
      ccp1ie := true;
      peie := true;
    }

    /**
     * Timer1 reaching CCPR1: the hardware raises CCP1IF, the flag the
     * interrupt routine tests and clears.
     */
    method CompareMatch()
      modifies this
      ensures Snapshot() == old(Snapshot()).(ccp1if := true)
    {
      ccp1if := true;
    }

    /** The compare-match interrupt routine. */
    method Isr()
      modifies this
      ensures Snapshot() == IsrStep(old(Snapshot()))
    {
      if peie {
        if ccp1ie && ccp1if {
          ccp1if := false;

          if mode == SET_ON_MATCH {
            ccpr1 := Wrap16(ccpr1 + servoPulseTime);
            mode := CLEAR_ON_MATCH;
          } else {
            // SERVO_PERIOD - servo_pulse_time is computed in int, then the
            // sum is wrapped into the 16-bit register.
            ccpr1 := Wrap16(ccpr1 + (SERVO_PERIOD - servoPulseTime));
            mode := SET_ON_MATCH;
            servoPulseTime := newPulseTime;
          }
        }
      }
    }

    /**
     * The producer's setter: writes the pending width as given, with no
     * clamping, while the CCP1 interrupt is masked, and then gives CCP1IE
     * back the value it had before the call.
     */
    method SetServoPulseTime(time: u16)
      modifies this
      ensures Snapshot() == SetStep(old(Snapshot()), time)
    {
      var status := ccp1ie;
      ccp1ie := false;
      // An interrupt entry here would leave everything as it is.
      assert IsrStep(Snapshot()) == Snapshot();

      newPulseTime := time;

      ccp1ie := status;
    }
  }
}
