/**
 Relative validity periods of short messages (3GPP TS 23.040 section 9.2.3.12.1).
 */
module Validity {
  const MAX_MINUTES: nat := 635040

  function DivUp(x: nat, y: nat): nat
    requires y > 0
  {
    (x + y - 1) / y
  }

  /** `pdu_relative_validity` */
  function Relative(minutes: nat): int {
    if minutes <= 720 then DivUp(minutes, 5) - 1
    else if minutes <= 1440 then DivUp(minutes, 30) + 119
    else if minutes <= 43200 then DivUp(minutes, 1440) + 166
    else if minutes <= MAX_MINUTES then DivUp(minutes, 10080) + 192
    else 0xFF
  }

  /** What the standard says a code means. */
  function Minutes(code: nat): nat
    requires code <= 255
  {
    if code <= 143 then (code + 1) * 5
    else if code <= 167 then 720 + (code - 143) * 30
    else if code <= 196 then (code - 166) * 1440
    else (code - 192) * 10080
  }

  lemma Adjoint(minutes: nat, code: nat)
    requires minutes <= MAX_MINUTES && code <= 255
    ensures Relative(minutes) <= code <==> minutes <= Minutes(code)
  {
  }

  /** Codes are compared as the periods they stand for, just as long as the longest period will do. */
  lemma AdjointExactly(minutes: nat)
    ensures (forall code: nat :: code <= 255 ==> (Relative(minutes) <= code <==> minutes <= Minutes(code)))
            <==> minutes <= MAX_MINUTES
  {
    if minutes <= MAX_MINUTES {
      forall code: nat | code <= 255
        ensures Relative(minutes) <= code <==> minutes <= Minutes(code)
      {
        Adjoint(minutes, code);
      }
    } else {
      assert Relative(minutes) <= 255 && Minutes(255) < minutes;
    }
  }

  /** The code is that of the shortest period that is long enough; there is none for no time at all. */
  lemma ShortestPeriod(minutes: nat)
    requires minutes <= MAX_MINUTES
    ensures minutes >= 1 <==> 0 <= Relative(minutes) <= 255
    ensures minutes >= 1 ==>
              && minutes <= Minutes(Relative(minutes))
              && forall code: nat :: code < Relative(minutes) ==> Minutes(code) < minutes
  {
    if minutes >= 1 {
      Adjoint(minutes, 255);
      assert Minutes(255) == MAX_MINUTES;
      Adjoint(minutes, Relative(minutes));
      forall code: nat | code < Relative(minutes)
        ensures Minutes(code) < minutes
      {
        Adjoint(minutes, code);
      }
    }
  }

  /** A longer time never gets a smaller code; what a code stands for gets that code. */
  lemma MonotoneAndExact(a: nat, b: nat, code: nat)
    requires 1 <= a <= b <= MAX_MINUTES && code <= 255
    ensures Relative(a) <= Relative(b) && Relative(Minutes(code)) == code
  {
    ShortestPeriod(a);
    ShortestPeriod(b);
    Adjoint(a, Relative(b));
    var m := Minutes(code);
    assert 1 <= m <= MAX_MINUTES;
    Adjoint(m, code);
    if code > 0 {
      Adjoint(m, code - 1);
    }
    ShortestPeriod(m);
  }
}
