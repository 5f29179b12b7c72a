/**
 The retransmission timer: Jacobson's estimator of the round trip time, with the
 timeout kept between 2 and 60 seconds and doubled on every retransmission.
 C's float and double are modelled as real.
 */
module Rtt {

  const RXTMIN := 2.0
  const RXTMAX := 60.0
  const MAXNREXMT := 3
  const TWO32 := 0x1_0000_0000

  /** struct rtt_info */
  datatype Info = Info(rtt: real, srtt: real, rttvar: real, rto: real, nrexmt: nat, base: int)

  function MinMax(rto: real): (r: real)
    ensures RXTMIN <= r <= RXTMAX
    ensures RXTMIN <= rto <= RXTMAX ==> r == rto
  {
    if rto < RXTMIN then RXTMIN else if rto > RXTMAX then RXTMAX else rto
  }

  function RtoCalc(srtt: real, rttvar: real): real {
    srtt + 4.0 * rttvar
  }

  function Abs(x: real): (r: real)
    ensures r >= 0.0 && (r == x || r == -x)
  {
    if x < 0.0 then -x else x
  }

  function Init(p: Info, sec: int): Info {
    Info(0.0, 0.0, 0.75, MinMax(RtoCalc(0.0, 0.75)), p.nrexmt, sec)
  }

  /** A new measurement, in milliseconds. */
  function Stop(p: Info, ms: nat): Info {
    var rtt := ms as real / 1000.0;
    var delta := rtt - p.srtt;
    var srtt := p.srtt + delta / 8.0;
    var rttvar := p.rttvar + (Abs(delta) - p.rttvar) / 4.0;
    p.(rtt := rtt, srtt := srtt, rttvar := rttvar, rto := MinMax(RtoCalc(srtt, rttvar)))
  }

  function Timeout(p: Info): Info {
    p.(rto := p.rto * 2.0, nrexmt := p.nrexmt + 1)
  }

  /** The conversion of a double to int. */
  function Truncate(x: real): int {
    if x >= 0.0 then x.Floor else -((-x).Floor)
  }

  function Start(p: Info): int {
    Truncate(p.rto + 0.5)
  }

  /** 32 bits of the milliseconds since rtt_init; `ms` is the time of day in
      milliseconds. */
  function Ts(p: Info, ms: int): (ts: nat)
    ensures ts < TWO32
  {
    (ms - p.base * 1000) % TWO32
  }

  /** What a round trip time of `r` seconds makes of the estimates: section 2 of RFC 6298,
      whether it is above or below the estimate, with this file's bounds. */
  ghost predicate IsUpdate(p: Info, q: Info, r: real) {
    && q.rtt == r && q.nrexmt == p.nrexmt && q.base == p.base
    && q.srtt == 0.875 * p.srtt + 0.125 * r
    && (r >= p.srtt ==> q.rttvar == 0.75 * p.rttvar + 0.25 * (r - p.srtt))
    && (r <= p.srtt ==> q.rttvar == 0.75 * p.rttvar + 0.25 * (p.srtt - r))
    && var x := q.srtt + 4.0 * q.rttvar;
       (x < 2.0 ==> q.rto == 2.0) && (x > 60.0 ==> q.rto == 60.0) && (2.0 <= x <= 60.0 ==> q.rto == x)
  }

  lemma StopIsUpdate(p: Info, ms: nat)
    ensures IsUpdate(p, Stop(p, ms), ms as real / 1000.0)
  {
  }

  /* ---- The functions as they are written ---- */

  class RttInfo {
    var rtt: real
    var srtt: real
    var rttvar: real
    var rto: real
    var nrexmt: nat
    var base: int

    function View(): Info
      reads this
    {
      Info(rtt, srtt, rttvar, rto, nrexmt, base)
    }

    constructor ()
      ensures View() == Info(0.0, 0.0, 0.0, 0.0, 0, 0)
    {
      rtt, srtt, rttvar, rto, nrexmt, base := 0.0, 0.0, 0.0, 0.0, 0, 0;
    }

    static method RttMinmax(rto: real) returns (r: real)
      ensures r == MinMax(rto)
    {
      r := rto;
      if r < RXTMIN {
        r := RXTMIN;
      } else if r > RXTMAX {
        r := RXTMAX;
      }
    }

    method RttInit(sec: int)
      modifies this
      ensures View() == Init(old(View()), sec)
      ensures rto == 3.0
    {
      base := sec;
      rtt, srtt, rttvar := 0.0, 0.0, 0.75;
      rto := RttMinmax(RtoCalc(srtt, rttvar));
    }

    /** `sec` and `usec` are what gettimeofday returned. */
    method RttTs(sec: int, usec: int) returns (ts: nat)
      requires 0 <= usec
      ensures ts == Ts(View(), sec * 1000 + usec / 1000)
    {
      ts := ((sec - base) * 1000 + usec / 1000) % TWO32;
    }

    method RttNewpack()
      modifies this
      ensures View() == old(View()).(nrexmt := 0)
    {
      nrexmt := 0;
    }

    /** The timeout to the nearest second, halves up. */
    method RttStart() returns (seconds: int)
      ensures rto >= 0.0 ==> seconds as real - 0.5 <= rto < seconds as real + 0.5
      ensures seconds == Start(View())
    {
      seconds := Truncate(rto + 0.5);
    }

    method RttStop(ms: nat)
      modifies this
      ensures View() == Stop(old(View()), ms) && IsUpdate(old(View()), View(), ms as real / 1000.0)
    {
      rtt := ms as real / 1000.0;
      var delta := rtt - srtt;
      srtt := srtt + delta / 8.0;
      if delta < 0.0 {
        delta := -delta;
      }
      rttvar := rttvar + (delta - rttvar) / 4.0;
      rto := RttMinmax(RtoCalc(srtt, rttvar));
      StopIsUpdate(old(View()), ms);
    }

    method RttTimeout() returns (rc: int)
      modifies this
      ensures View() == Timeout(old(View()))
      ensures rc == if View().nrexmt > MAXNREXMT then -1 else 0
    {
      rto := rto * 2.0;
      nrexmt := nrexmt + 1;
      if nrexmt > MAXNREXMT {
        return -1;
      }
      return 0;
    }
  }

  /* ---- The estimator ---- */

  /** The estimator after these measurements. */
  function Samples(p: Info, ms: seq<nat>): Info
    decreases |ms|
  {
    if ms == [] then p else Stop(Samples(p, ms[..|ms| - 1]), ms[|ms| - 1])
  }

  function Max(x: real, y: real): (m: real)
    ensures m >= x && m >= y && (m == x || m == y)
  {
    if x < y then y else x
  }

  /** Measurements of at most `most` seconds keep the estimates in bounds. */
  ghost predicate Bounded(p: Info, most: real) {
    && 0.0 <= p.srtt <= most
    && 0.0 <= p.rttvar <= Max(0.75, most)
    && RXTMIN <= p.rto <= RXTMAX
  }

  lemma {:induction false} SamplesStayBounded(p: Info, sec: int, ms: seq<nat>, most: real)
    requires forall i :: 0 <= i < |ms| ==> ms[i] as real / 1000.0 <= most
    requires most >= 0.0
    ensures Bounded(Samples(Init(p, sec), ms), most)
  {
    if ms != [] {
      SamplesStayBounded(p, sec, ms[..|ms| - 1], most);
    }
  }

  /** (7/8)^n */
  function Decay(n: nat): (r: real)
    ensures 0.0 < r <= 1.0
  {
    if n == 0 then 1.0 else Decay(n - 1) * 7.0 / 8.0
  }

  function Constant(ms: nat, n: nat): (s: seq<nat>)
    ensures |s| == n && forall i :: 0 <= i < n ==> s[i] == ms
  {
    seq(n, _ => ms)
  }

  lemma ConstantPrefix(ms: nat, n: nat)
    ensures Constant(ms, n + 1)[..n] == Constant(ms, n)
  {
  }

  function Times(x: real, y: real): real {
    x * y
  }

  /** `e` is off the round trip time `r` by the fraction `d`. */
  ghost predicate Near(e: Info, r: real, d: real) {
    r - e.srtt == Times(r, d) && 0.0 <= e.rttvar <= Times(Max(0.75, 2.0 * r), d)
  }

  lemma Shrink(x: real, d: real)
    ensures Times(x, d * 7.0 / 8.0) == Times(x, d) * 7.0 / 8.0
  {
  }

  lemma Monotonic(x: real, y: real, d: real)
    requires 0.0 <= x <= y && 0.0 <= d
    ensures 0.0 <= Times(x, d) <= Times(y, d)
  {
  }

  lemma Linear(x: real, y: real, d: real)
    ensures Times(2.0 * x, d) == 2.0 * Times(x, d)
    ensures Times(4.0 * x + y, d) == 4.0 * Times(x, d) + Times(y, d)
  {
  }

  lemma NearStep(e: Info, ms: nat, r: real, d: real)
    requires r == ms as real / 1000.0 && 0.0 < d && Near(e, r, d)
    ensures Near(Stop(e, ms), r, d * 7.0 / 8.0)
  {
    hide Times;
    var m := Max(0.75, 2.0 * r);
    Shrink(r, d);
    Shrink(m, d);
    Monotonic(2.0 * r, m, d);
    Monotonic(0.0, r, d);
    Linear(r, r, d);
  }

  /** A constant round trip time `r`: the error of the estimate shrinks by exactly
      1/8 with each measurement, and the deviation with it. */
  lemma {:induction false} ConstantConverges(p: Info, sec: int, ms: nat, n: nat)
    ensures Near(Samples(Init(p, sec), Constant(ms, n)), ms as real / 1000.0, Decay(n))
  {
    hide Near, Stop, Init;
    var r := ms as real / 1000.0;
    if n == 0 {
      NearAtFirst(p, sec, r);
    } else {
      ConstantConverges(p, sec, ms, n - 1);
      ConstantPrefix(ms, n - 1);
      NearStep(Samples(Init(p, sec), Constant(ms, n - 1)), ms, r, Decay(n - 1));
    }
  }

  lemma NearAtFirst(p: Info, sec: int, r: real)
    requires r >= 0.0
    ensures Near(Init(p, sec), r, 1.0)
  {
  }

  lemma RtoNear(e: Info, r: real, d: real)
    requires r >= 0.0 && d > 0.0 && Near(e, r, d)
    requires e.rto == MinMax(RtoCalc(e.srtt, e.rttvar))
    ensures Abs(e.rto - MinMax(r)) <= Times(4.0 * Max(0.75, 2.0 * r) + r, d)
  {
    hide Times, MinMax;
    var m := Max(0.75, 2.0 * r);
    var x := RtoCalc(e.srtt, e.rttvar);
    Monotonic(0.0, r, d);
    Linear(m, r, d);
    assert Abs(x - r) <= Times(4.0 * m + r, d);
    MinMaxNear(x, r);
  }

  lemma MinMaxNear(x: real, y: real)
    ensures Abs(MinMax(x) - MinMax(y)) <= Abs(x - y)
  {
  }

  lemma SamplesRto(p: Info, sec: int, ms: seq<nat>)
    ensures var e := Samples(Init(p, sec), ms); e.rto == MinMax(RtoCalc(e.srtt, e.rttvar))
  {
  }

  /** So the timeout goes to the round trip time, or to the nearer bound. */
  lemma TimeoutConverges(p: Info, sec: int, ms: nat, n: nat)
    ensures var r := ms as real / 1000.0;
            Abs(Samples(Init(p, sec), Constant(ms, n)).rto - MinMax(r)) <= Times(4.0 * Max(0.75, 2.0 * r) + r, Decay(n))
  {
    hide Near, MinMax, Decay, Constant, Times, RtoCalc;
    SamplesRto(p, sec, Constant(ms, n));
    ConstantConverges(p, sec, ms, n);
    RtoNear(Samples(Init(p, sec), Constant(ms, n)), ms as real / 1000.0, Decay(n));
  }

  /* ---- The back off ---- */

  function Timeouts(p: Info, n: nat): Info {
    if n == 0 then p else Timeout(Timeouts(p, n - 1))
  }

  function Pow2(n: nat): (r: nat)
    ensures r >= 1
  {
    if n == 0 then 1 else 2 * Pow2(n - 1)
  }

  /** The timeout doubles with each expiry and is not cut off at RTT_RXTMAX. */
  lemma {:induction false} BackOff(p: Info, n: nat)
    ensures Timeouts(p, n).rto == p.rto * Pow2(n) as real
    ensures Timeouts(p, n).nrexmt == p.nrexmt + n
  {
    if n > 0 {
      BackOff(p, n - 1);
      assert Pow2(n) as real == 2.0 * Pow2(n - 1) as real;
    }
  }

  /** It stays within the bounds exactly as long as the timeout it started from is
      small enough; from one within the bounds it never falls below the lower. */
  lemma InBoundsAfter(p: Info, n: nat)
    ensures Timeouts(p, n).rto <= RXTMAX <==> p.rto <= RXTMAX / Pow2(n) as real
    ensures Timeouts(p, n).rto >= RXTMIN <==> p.rto >= RXTMIN / Pow2(n) as real
    ensures p.rto >= RXTMIN ==> Timeouts(p, n).rto >= RXTMIN
  {
    hide Timeouts, Pow2;
    BackOff(p, n);
    Compare(p.rto, Pow2(n) as real, RXTMAX);
    Compare(p.rto, Pow2(n) as real, RXTMIN);
  }

  lemma Compare(x: real, factor: real, bound: real)
    requires factor >= 1.0 && bound >= 0.0
    ensures x * factor <= bound <==> x <= bound / factor
    ensures x * factor >= bound <==> x >= bound / factor
    ensures x >= bound ==> x * factor >= bound
  {
    var q := bound / factor;
    assert bound == q * factor;
    if x <= q {
      Scale(x, q, factor);
    }
    if x >= q {
      Scale(q, x, factor);
    }
    if x >= bound {
      Scale(1.0, factor, x);
    }
  }

  lemma Scale(x: real, y: real, factor: real)
    requires x <= y && factor >= 0.0
    ensures x * factor <= y * factor
    ensures x < y && factor > 0.0 ==> x * factor < y * factor
  {
  }

  /** For the first 49 days a timestamp is the milliseconds since rtt_init. */
  lemma TsIsElapsed(p: Info, ms: int)
    requires 0 <= ms - p.base * 1000 < TWO32
    ensures Ts(p, ms) == ms - p.base * 1000
  {
  }

  /** The difference of two timestamps with the same base is the time between them. */
  lemma Elapsed(p: Info, sent: int, now: int)
    ensures (Ts(p, now) - Ts(p, sent)) % TWO32 == (now - sent) % TWO32
  {
    var a, b := now - p.base * 1000, sent - p.base * 1000;
    assert a == a / TWO32 * TWO32 + a % TWO32;
    assert b == b / TWO32 * TWO32 + b % TWO32;
  }

}
