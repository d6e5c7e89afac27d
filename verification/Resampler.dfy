/** The audio resampler (class ResampleAudio in avs_core/core/audio.cpp, 16-bit samples). The conversion factor is a
    quotient of integers and is taken to be exact. */
module Resampler {
  // ----- Constants of avs_core/core/audio.h -----

  const NA_SIZE := 128          // 1 << Na
  const PHASE := 32768          // 1 << Np
  const NWING := 8192
  const ONE31 := 0x8000_0000    // 1 << 31

  datatype Factor = Factor(num: int, den: int)

  /** At most a thousandfold reduction of the rate. */
  predicate ValidFactor(f: Factor) {
    f.num > 0 && f.den > 0 && f.den <= 1000 * f.num
  }

  // ----- What the constructor computes -----

  /** Reach of the filter wing, in source samples, with some room to creep. */
  function Xoff(f: Factor): (x: nat)
    requires ValidFactor(f)
  {
    if f.num >= f.den then 33 + 10 else 33 * f.den / f.num + 10
  }

  function Dtb(f: Factor): (d: nat)
    requires ValidFactor(f)
  {
    PHASE * f.den / f.num
  }

  /** The rest of the output period, rounded to multiples of 1 / 2^31. */
  function Dtbe(f: Factor): (d: nat)
    requires ValidFactor(f)
  {
    (2 * ONE31 * (PHASE * f.den % f.num) + f.num) / (2 * f.num)
  }

  /** Filter step. */
  function Dhb(f: Factor): (d: nat)
    requires ValidFactor(f)
  {
    if f.num >= f.den then PHASE else (2 * PHASE * f.num + f.den) / (2 * f.den)
  }

  // ----- What a request computes -----

  /** The position in the source, in units of 1 / 2^15 sample, of output sample t, rounded. */
  function SrcPos(f: Factor, t: nat): (p: nat)
    requires ValidFactor(f)
  {
    (2 * PHASE * t * f.den + f.num) / (2 * f.num)
  }

  function Span(f: Factor, start: nat, count: nat): (d: int)
    requires ValidFactor(f)
  {
    SrcPos(f, start + count) - SrcPos(f, start)
  }

  function SourceSamples(f: Factor, start: nat, count: nat): (n: int)
    requires ValidFactor(f)
  {
    Span(f, start, count) / PHASE + 2 * Xoff(f) + 1
  }

  function Pos0(f: Factor, start: nat): (p: nat)
    requires ValidFactor(f)
  {
    SrcPos(f, start) % PHASE + Xoff(f) * PHASE
  }

  /** How far k outputs advance. */
  function Advance(f: Factor, k: nat): (n: nat)
    requires ValidFactor(f)
  {
    k * Dtb(f) + k * Dtbe(f) / ONE31
  }

  /** Where the k-th output of a request is read from, in closed form. */
  function PosAt(f: Factor, start: nat, k: nat): (p: nat)
    requires ValidFactor(f)
  {
    Pos0(f, start) + Advance(f, k)
  }

  // ----- Arithmetic -----

  lemma DivFloor(a: int, b: int)
    requires b > 0
    ensures a / b * b <= a < a / b * b + b
  {
  }

  lemma MulMonotone(a: int, b: int, c: int)
    requires a <= b && c >= 0
    ensures a * c <= b * c
  {
  }

  lemma MulGap(a: int, b: int, c: int)
    requires c >= 0
    ensures a < b ==> a * c + c <= b * c
  {
    if a < b {
      MulMonotone(a + 1, b, c);
      assert (a + 1) * c == a * c + c;
    }
  }

  lemma DivIsAtLeast(a: int, b: int, q: int)
    requires b > 0 && q * b <= a
    ensures q <= a / b
  {
    DivFloor(a, b);
    MulGap(a / b, q, b);
  }

  lemma DivIsAtMost(a: int, b: int, q: int)
    requires b > 0 && a < (q + 1) * b
    ensures a / b <= q
  {
    DivFloor(a, b);
    MulGap(q, a / b, b);
    assert (q + 1) * b == q * b + b;
  }

  // ----- The filter wing is short enough -----

  lemma DhbAtLeast(f: Factor)
    requires ValidFactor(f)
    ensures 33 <= Dhb(f) <= PHASE
    ensures f.num < f.den ==> 2 * f.den * Dhb(f) >= 2 * PHASE * f.num - f.den + 1
  {
    if f.num < f.den {
      var a := 2 * PHASE * f.num + f.den;
      DivFloor(a, 2 * f.den);
      assert Dhb(f) * (2 * f.den) == 2 * f.den * Dhb(f);
      DivIsAtLeast(a, 2 * f.den, 33);
      DivIsAtMost(a, 2 * f.den, PHASE);
    }
  }

  /** The filter step is the factor, in units of 2^-15, rounded to the nearest, and never more than one sample. */
  lemma DhbNearest(f: Factor)
    requires ValidFactor(f)
    ensures f.num >= f.den ==> Dhb(f) == PHASE
    ensures f.num < f.den ==> -f.den < 2 * f.den * Dhb(f) - 2 * PHASE * f.num <= f.den
  {
    if f.num < f.den {
      DivFloor(2 * PHASE * f.num + f.den, 2 * f.den);
      assert Dhb(f) * (2 * f.den) == 2 * f.den * Dhb(f);
    }
  }

  /** A wing has as many taps as filter steps fit below 2^20; none lies further out than the reach less ten. */
  lemma WingReach(f: Factor, j: nat)
    requires ValidFactor(f) && j * Dhb(f) < NWING * NA_SIZE
    ensures j <= Xoff(f) - 10
  {
    DhbAtLeast(f);
    if f.num >= f.den {
      assert j < 32;
    } else {
      if j * f.num > 33 * f.den {
        WingTooLong(f, j);
      } else {
        DivIsAtLeast(33 * f.den, f.num, j);
      }
    }
  }

  lemma WingTooLong(f: Factor, j: nat)
    requires ValidFactor(f) && f.num < f.den && j * f.num > 33 * f.den
    requires 2 * f.den * Dhb(f) >= 2 * PHASE * f.num - f.den + 1
    ensures j * Dhb(f) >= NWING * NA_SIZE
  {
    var h := Dhb(f);
    MulMonotone(f.den, 1000 * f.num, j);
    MulMonotone(2 * PHASE * f.num - f.den, 2 * f.den * h, j);
    assert (2 * PHASE * f.num - f.den) * j == 2 * PHASE * (j * f.num) - f.den * j;
    assert 1000 * f.num * j == 1000 * (j * f.num);
    assert 2 * f.den * h * j >= (2 * PHASE - 1000) * (j * f.num);
    assert (2 * PHASE - 1000) * (j * f.num) > (2 * PHASE - 1000) * (33 * f.den);
    assert 2 * f.den * h * j == 2 * f.den * (j * h);
    if j * h < NWING * NA_SIZE {
      MulMonotone(j * h, NWING * NA_SIZE, 2 * f.den);
      assert false;
    }
  }

  // ----- The positions stay inside the fetched window -----

  lemma DtbeBound(f: Factor)
    requires ValidFactor(f)
    ensures Dtbe(f) <= ONE31
    ensures 2 * f.num * Dtbe(f) <= 2 * ONE31 * (PHASE * f.den % f.num) + f.num
  {
    var rem := PHASE * f.den % f.num;
    DivFloor(2 * ONE31 * rem + f.num, 2 * f.num);
    assert rem <= f.num - 1;
    assert (ONE31 + 1) * (2 * f.num) == 2 * ONE31 * f.num + 2 * f.num;
    DivIsAtMost(2 * ONE31 * rem + f.num, 2 * f.num, ONE31);
  }

  /** Exact output period, times the numerator of the factor. */
  function Period(f: Factor): (p: nat)
    requires ValidFactor(f)
  {
    PHASE * f.den
  }

  /** How far k steps lead: at most half a unit beyond k exact output periods. */
  lemma StepsBound(f: Factor, k: nat)
    requires ValidFactor(f) && k <= ONE31
    ensures 2 * f.num * Advance(f, k) <= 2 * (k * Period(f)) + f.num
  {
    DtbeBound(f);
    var rem, q := Period(f) % f.num, k * Dtbe(f) / ONE31;
    assert Period(f) == f.num * Dtb(f) + rem;
    CarryBound(f.num, k, Dtbe(f), rem, q);
    StepsSum(f.num, k, Dtb(f), rem, q, Period(f));
  }

  lemma StepsSum(num: nat, k: nat, dtb: nat, rem: nat, q: nat, period: nat)
    requires period == num * dtb + rem && 2 * num * q <= 2 * (k * rem) + num
    ensures 2 * num * (k * dtb + q) <= 2 * (k * period) + num
  {
    assert k * period == k * (num * dtb) + k * rem;
    assert 2 * num * (k * dtb + q) == 2 * (num * (k * dtb)) + 2 * num * q;
    assert num * (k * dtb) == k * (num * dtb);
  }

  lemma CarryBound(num: nat, k: nat, dtbe: nat, rem: nat, q: nat)
    requires k <= ONE31 && 2 * num * dtbe <= 2 * ONE31 * rem + num && q == k * dtbe / ONE31
    ensures 2 * num * q <= 2 * (k * rem) + num
  {
    DivFloor(k * dtbe, ONE31);
    MulMonotone(q * ONE31, k * dtbe, 2 * num);
    MulMonotone(2 * num * dtbe, 2 * ONE31 * rem + num, k);
    assert k * dtbe * (2 * num) == 2 * num * dtbe * k;
    assert (2 * ONE31 * rem + num) * k == ONE31 * (2 * (k * rem)) + num * k;
    MulMonotone(k, ONE31, num);
    assert q * ONE31 * (2 * num) == ONE31 * (2 * num * q);
  }

  /** The distance fetched covers all output periods but one unit. */
  lemma SpanBound(f: Factor, start: nat, count: nat)
    requires ValidFactor(f)
    ensures 2 * f.num * Span(f, start, count) > 2 * (count * Period(f)) - 2 * f.num
  {
    var a, b := 2 * PHASE * (start + count) * f.den + f.num, 2 * PHASE * start * f.den + f.num;
    DivFloor(a, 2 * f.num);
    DivFloor(b, 2 * f.num);
    assert a - b == 2 * (count * Period(f)) by {
      assert (start + count) * f.den == start * f.den + count * f.den;
      assert PHASE * (count * f.den) == count * Period(f);
    }
    assert 2 * f.num * (SrcPos(f, start + count) - SrcPos(f, start))
        == SrcPos(f, start + count) * (2 * f.num) - SrcPos(f, start) * (2 * f.num);
  }

  lemma CoveredUpToOne(num: nat, n: int, d: int, k: nat, count: nat, period: nat)
    requires num > 0 && period > 0 && k < count
    requires 2 * num * n <= 2 * (k * period) + num && 2 * num * d > 2 * (count * period) - 2 * num
    ensures n <= d + 1
  {
    MulMonotone(k + 1, count, period);
    assert (k + 1) * period == k * period + period;
    MulGap(d + 1, n, 2 * num);
    assert (d + 1) * (2 * num) == 2 * num * d + 2 * num && n * (2 * num) == 2 * num * n;
  }

  lemma PositionInSpan(f: Factor, start: nat, count: nat, k: nat)
    requires ValidFactor(f) && k < count <= ONE31
    ensures Advance(f, k) <= Span(f, start, count) + 1
  {
    StepsBound(f, k);
    SpanBound(f, start, count);
    CoveredUpToOne(f.num, Advance(f, k), Span(f, start, count), k, count, Period(f));
  }

  lemma CarryAtLeast(num: nat, k: nat, dtbe: nat, rem: nat, q: nat)
    requires k <= ONE31 && 2 * num * dtbe + num > 2 * ONE31 * rem && q == k * dtbe / ONE31 && num > 0
    ensures 2 * num * q > 2 * (k * rem) - 3 * num
  {
    DivFloor(k * dtbe, ONE31);
    assert (q + 1) * ONE31 == q * ONE31 + ONE31;
    var a, b := k * dtbe, (q + 1) * ONE31;
    MulGap(a, b, 2 * num);
    assert a * (2 * num) == k * (2 * num * dtbe);
    MulMonotone(2 * ONE31 * rem, 2 * num * dtbe + num, k);
    assert 2 * ONE31 * rem * k == ONE31 * (2 * (k * rem));
    assert (2 * num * dtbe + num) * k == k * (2 * num * dtbe) + num * k;
    MulMonotone(k, ONE31, num);
    assert b * (2 * num) == ONE31 * (2 * num * q) + ONE31 * (2 * num);
    assert ONE31 * (2 * (k * rem)) < ONE31 * (2 * num * q + 3 * num);
  }

  lemma StepsSumAtLeast(num: nat, k: nat, dtb: nat, rem: nat, q: nat, period: nat)
    requires period == num * dtb + rem && 2 * num * q > 2 * (k * rem) - 3 * num
    ensures 2 * num * (k * dtb + q) > 2 * (k * period) - 3 * num
  {
    assert k * period == k * (num * dtb) + k * rem;
    assert 2 * num * (k * dtb + q) == 2 * (num * (k * dtb)) + 2 * num * q;
    assert num * (k * dtb) == k * (num * dtb);
  }

  lemma DtbeAtLeast(f: Factor)
    requires ValidFactor(f)
    ensures 2 * f.num * Dtbe(f) + f.num > 2 * ONE31 * (PHASE * f.den % f.num)
  {
    DivFloor(2 * ONE31 * (PHASE * f.den % f.num) + f.num, 2 * f.num);
    assert Dtbe(f) * (2 * f.num) == 2 * f.num * Dtbe(f);
  }

  /** Nor do k steps lag: at most one and a half units behind k exact output periods. */
  lemma StepsAtLeast(f: Factor, k: nat)
    requires ValidFactor(f) && k <= ONE31
    ensures 2 * f.num * Advance(f, k) > 2 * (k * Period(f)) - 3 * f.num
  {
    DtbeAtLeast(f);
    var rem, q := Period(f) % f.num, k * Dtbe(f) / ONE31;
    assert Period(f) == f.num * Dtb(f) + rem;
    CarryAtLeast(f.num, k, Dtbe(f), rem, q);
    StepsSumAtLeast(f.num, k, Dtb(f), rem, q, Period(f));
  }

  /** The position of an output in the source, rounded to the nearest unit. */
  lemma SrcPosNearest(f: Factor, t: nat)
    requires ValidFactor(f)
    ensures -f.num < 2 * f.num * SrcPos(f, t) - 2 * (t * Period(f)) <= f.num
  {
    DivFloor(2 * PHASE * t * f.den + f.num, 2 * f.num);
    assert SrcPos(f, t) * (2 * f.num) == 2 * f.num * SrcPos(f, t);
    assert 2 * PHASE * t * f.den == 2 * (t * Period(f));
  }

  lemma PeriodsAdd(a: nat, b: nat, period: nat)
    ensures (a + b) * period == a * period + b * period
  {
  }

  lemma WithinTwo(num: int, n: int, from: int, to: int, x: int, y: int)
    requires num > 0 && 2 * y - 3 * num < 2 * num * n <= 2 * y + num
    requires -num < 2 * num * from - 2 * x <= num && -num < 2 * num * to - 2 * (x + y) <= num
    ensures -2 <= n - (to - from) <= 1
  {
    var d: int := n - (to - from);
    assert 2 * num * d == 2 * num * n - 2 * num * to + 2 * num * from;
    if d >= 2 { MulMonotone(2, d, 2 * num); }
    if d <= -3 { MulMonotone(d, -3, 2 * num); }
  }

  /** What accumulates stays close to what is rounded afresh: the position of output k of a request, which steps have led
      to, is that of the output on its own but for a unit or two of 2^-15 source samples. */
  lemma StepsStayClose(f: Factor, start: nat, k: nat)
    requires ValidFactor(f) && k <= ONE31
    ensures -2 <= Advance(f, k) - (SrcPos(f, start + k) - SrcPos(f, start)) <= 1
  {
    StepsBound(f, k);
    StepsAtLeast(f, k);
    SrcPosNearest(f, start);
    SrcPosNearest(f, start + k);
    PeriodsAdd(start, k, Period(f));
    WithinTwo(f.num, Advance(f, k), SrcPos(f, start), SrcPos(f, start + k), start * Period(f), k * Period(f));
  }

  lemma TapRange(pos: nat, low: nat, xoff: nat, steps: nat, span: int, j: nat)
    requires low < PHASE && pos == low + xoff * PHASE + steps && steps <= span + 1 && j + 10 <= xoff
    ensures 0 <= pos / PHASE - j
    ensures pos / PHASE + 1 + j < span / PHASE + 2 * xoff + 1
  {
    DivIsAtLeast(pos, PHASE, xoff);
    DivFloor(span, PHASE);
    DivIsAtMost(pos, PHASE, xoff + span / PHASE + 1);
  }

  lemma OutputRange(f: Factor, start: nat, count: nat, k: nat, j: nat)
    requires ValidFactor(f) && j + 10 <= Xoff(f) && Advance(f, k) <= Span(f, start, count) + 1
    ensures 0 <= PosAt(f, start, k) / PHASE - j
    ensures PosAt(f, start, k) / PHASE + 1 + j < SourceSamples(f, start, count)
  {
    TapRange(PosAt(f, start, k), SrcPos(f, start) % PHASE, Xoff(f), Advance(f, k), Span(f, start, count), j);
  }

  /** Every sample that either filter wing reads for any output of a request was fetched for that request. */
  lemma ReadsInRange(f: Factor, start: nat, count: nat, k: nat, j: nat)
    requires ValidFactor(f) && k < count <= ONE31 && j * Dhb(f) < NWING * NA_SIZE
    ensures 0 <= PosAt(f, start, k) / PHASE - j
    ensures PosAt(f, start, k) / PHASE + 1 + j < SourceSamples(f, start, count)
  {
    WingReach(f, j);
    PositionInSpan(f, start, count, k);
    OutputRange(f, start, count, k, j);
  }

  // ----- One wing of the filter -----

  /** Filter coefficient at step `ho`, interpolated between two table entries. */
  function Coefficient(imp: seq<int>, ho: nat): (c: int)
    requires ho / NA_SIZE + 1 < |imp|
  {
    imp[ho / NA_SIZE] + ((imp[ho / NA_SIZE + 1] - imp[ho / NA_SIZE]) * (ho % NA_SIZE) + NA_SIZE / 2) / NA_SIZE
  }

  /** The inner product of the filter from step `ho` on with the samples w(x), w(x + inc), ... */
  function Wing(imp: seq<int>, w: int -> int, x: int, inc: int, ho: nat, end: nat, dhb: nat): (v: int)
    requires dhb > 0 && end < |imp|
    decreases end * NA_SIZE - ho
  {
    if ho / NA_SIZE >= end then 0
    else Coefficient(imp, ho) * w(x) + Wing(imp, w, x + inc, inc, ho + dhb, end, dhb)
  }

  lemma ProductWithin(d: int, a: nat)
    requires a < NA_SIZE
    ensures d >= 0 ==> 0 <= (d * a + NA_SIZE / 2) / NA_SIZE <= d
    ensures d <= 0 ==> d <= (d * a + NA_SIZE / 2) / NA_SIZE <= 0
  {
    if d >= 0 {
      MulMonotone(a, NA_SIZE - 1, d);
    } else {
      MulMonotone(a, NA_SIZE - 1, -d);
      assert d * a == -(-d * a);
    }
  }

  /** Coefficients are the table's entries, and between two of them lie between them. */
  lemma CoefficientInterpolates(imp: seq<int>, ho: nat)
    requires ho / NA_SIZE + 1 < |imp|
    ensures var a, b := imp[ho / NA_SIZE], imp[ho / NA_SIZE + 1];
      && (ho % NA_SIZE == 0 ==> Coefficient(imp, ho) == a)
      && (a <= b ==> a <= Coefficient(imp, ho) <= b) && (b <= a ==> b <= Coefficient(imp, ho) <= a)
      && -NA_SIZE < 2 * (NA_SIZE * (Coefficient(imp, ho) - a) - (b - a) * (ho % NA_SIZE)) <= NA_SIZE
  {
    var d := imp[ho / NA_SIZE + 1] - imp[ho / NA_SIZE];
    ProductWithin(d, ho % NA_SIZE);
    DivFloor(d * (ho % NA_SIZE) + NA_SIZE / 2, NA_SIZE);
  }

  lemma WingUnfolds(imp: seq<int>, w: int -> int, x: int, inc: int, ho: nat, end: nat, dhb: nat)
    requires dhb > 0 && end < |imp| && ho / NA_SIZE < end
    ensures Wing(imp, w, x, inc, ho, end, dhb) == Coefficient(imp, ho) * w(x) + Wing(imp, w, x + inc, inc, ho + dhb, end, dhb)
  {
  }

  /** First filter step of a wing: the right one drops a coefficient, and skips one if the phase is zero. */
  function FirstStep(ph: nat, dhb: nat, right: bool): (ho: nat) {
    ph * dhb / PHASE + if right && ph == 0 then dhb else 0
  }

  /** Tap j of the left wing lies ph / 2^15 + j source samples before the position, tap j of the right wing, whose phase
      is the complement, j + 1 behind that; each is weighted with the filter at its distance. */
  lemma StepsAreDistances(ph: int, dhb: nat, j: nat)
    requires 0 <= ph < PHASE
    ensures FirstStep(ph, dhb, false) + j * dhb == (j * PHASE + ph) * dhb / PHASE
    ensures FirstStep(-ph % PHASE, dhb, true) + j * dhb == ((j + 1) * PHASE - ph) * dhb / PHASE
  {
    StepAtDistance(ph, dhb, j);
    if ph == 0 {
      StepAtDistance(0, dhb, j + 1);
      assert (j + 1) * dhb == j * dhb + dhb;
    } else {
      assert -ph % PHASE == PHASE - ph;
      StepAtDistance(PHASE - ph, dhb, j);
    }
  }

  lemma StepAtDistance(ph: nat, dhb: nat, j: nat)
    ensures ph * dhb / PHASE + j * dhb == (j * PHASE + ph) * dhb / PHASE
  {
    assert (j * PHASE + ph) * dhb == j * dhb * PHASE + ph * dhb;
    DivFloor(ph * dhb, PHASE);
    DivIsAtLeast((j * PHASE + ph) * dhb, PHASE, ph * dhb / PHASE + j * dhb);
    DivIsAtMost((j * PHASE + ph) * dhb, PHASE, ph * dhb / PHASE + j * dhb);
  }

  function WingEnd(right: bool): (end: nat) {
    if right then NWING - 1 else NWING
  }

  /** All reads of a wing that starts at x fall among the first n samples of the buffer. */
  ghost predicate ReadsWithin(x: int, inc: int, ho: nat, end: nat, dhb: nat, n: int) {
    forall j: nat {:trigger Tap(x, inc, j)} :: ho + j * dhb < end * NA_SIZE ==> 0 <= Tap(x, inc, j) < n
  }

  function Tap(x: int, inc: int, j: nat): (i: int) {
    x + j * inc
  }

  lemma NextReads(x: int, inc: int, ho: nat, end: nat, dhb: nat, n: int)
    requires ReadsWithin(x, inc, ho, end, dhb, n)
    ensures ho < end * NA_SIZE ==> 0 <= x < n
    ensures ReadsWithin(x + inc, inc, ho + dhb, end, dhb, n)
  {
    assert Tap(x, inc, 0) == x;
    forall j: nat | ho + dhb + j * dhb < end * NA_SIZE ensures 0 <= Tap(x + inc, inc, j) < n {
      assert Tap(x + inc, inc, j) == Tap(x, inc, j + 1);
      assert (j + 1) * dhb == j * dhb + dhb;
    }
  }

  /** `FilterUD`: no bound is checked at run time; every read is inside the buffer and the coefficient table. */
  method FilterUD(imp: array<int>, buf: array<int>, xp: int, ph: nat, inc: int, dhb: nat, ghost w: int -> int, ghost n: nat)
    returns (v: int)
    requires imp.Length == NWING + 1 && dhb > 0 && ph < PHASE && n <= buf.Length
    requires forall i :: 0 <= i < n ==> buf[i] == w(i)
    requires ReadsWithin(xp, inc, FirstStep(ph, dhb, inc > 0), WingEnd(inc > 0), dhb, n)
    ensures v == Wing(imp[..], w, xp, inc, FirstStep(ph, dhb, inc > 0), WingEnd(inc > 0), dhb)
  {
    v := 0;
    var ho, end, x := ph * dhb / PHASE, NWING, xp;
    if inc > 0 {
      end := end - 1;
      if ph == 0 {
        ho := ho + dhb;
      }
    }
    while ho / NA_SIZE < end
      invariant 0 <= ho && end == WingEnd(inc > 0)
      invariant ReadsWithin(x, inc, ho, end, dhb, n)
      invariant v + Wing(imp[..], w, x, inc, ho, end, dhb)
             == Wing(imp[..], w, xp, inc, FirstStep(ph, dhb, inc > 0), WingEnd(inc > 0), dhb)
      decreases end * NA_SIZE - ho
    {
      NextReads(x, inc, ho, end, dhb, n);
      WingUnfolds(imp[..], w, x, inc, ho, end, dhb);
      var t := imp[ho / NA_SIZE];
      var a := ho % NA_SIZE;
      t := t + ((imp[ho / NA_SIZE + 1] - t) * a + NA_SIZE / 2) / NA_SIZE;
      v := v + t * buf[x];
      ho := ho + dhb;
      x := x + inc;
    }
  }

  // ----- Phase accumulation -----

  /** The error accumulator after k outputs; it stays below 2^31 and never wraps. */
  function ErrorAt(f: Factor, k: nat): (e: nat)
    requires ValidFactor(f)
    ensures e < ONE31
  {
    k * Dtbe(f) % ONE31
  }

  /** One step of the two accumulators is one step of the closed form. */
  lemma AccumulatorsStep(f: Factor, start: nat, k: nat)
    requires ValidFactor(f)
    ensures var carry := ErrorAt(f, k) + Dtbe(f) >= ONE31;
      && ErrorAt(f, k) + Dtbe(f) < 2 * ONE31
      && ErrorAt(f, k + 1) == ErrorAt(f, k) + Dtbe(f) - (if carry then ONE31 else 0)
      && PosAt(f, start, k + 1) == PosAt(f, start, k) + Dtb(f) + (if carry then 1 else 0)
  {
    DtbeBound(f);
    assert (k + 1) * Dtb(f) == k * Dtb(f) + Dtb(f);
    assert (k + 1) * Dtbe(f) == k * Dtbe(f) + Dtbe(f);
    AddDivMod(k * Dtbe(f), Dtbe(f));
  }

  lemma AddDivMod(a: nat, b: nat)
    requires b <= ONE31
    ensures var carry := a % ONE31 + b >= ONE31;
      && (a + b) % ONE31 == a % ONE31 + b - (if carry then ONE31 else 0)
      && (a + b) / ONE31 == a / ONE31 + (if carry then 1 else 0)
  {
  }

  // ----- The window kept between requests -----

  /** A cast to a 32-bit int. */
  function ToInt32(x: int): (r: int)
    ensures -ONE31 <= r < ONE31
  {
    (x + ONE31) % (2 * ONE31) - ONE31
  }

  /** How many samples of the old window the new one keeps. */
  function Overlap(oldStart: int, oldSamples: nat, newStart: int): (n: nat) {
    var offset := ToInt32(newStart - oldStart);
    if offset < 0 || oldSamples - offset <= 0 then 0 else oldSamples - offset
  }

  /** What ends up in place i of the buffer: a sample moved down from the old window, or a newly fetched one. */
  function WindowSample(child: int -> int, ch: nat, oldStart: int, oldSamples: nat, newStart: int, i: nat): (v: int) {
    if i < Overlap(oldStart, oldSamples, newStart) * ch then child((oldStart + ToInt32(newStart - oldStart)) * ch + i)
    else child(newStart * ch + i)
  }

  /** The kept samples are the right ones for every source exactly when nothing is kept or the distance between the
      windows survives its cast to 32 bits. */
  lemma ReuseIsRightExactly(ch: nat, oldStart: int, oldSamples: nat, newStart: int)
    requires ch > 0
    ensures (forall child: int -> int, i: nat :: WindowSample(child, ch, oldStart, oldSamples, newStart, i) == child(newStart * ch + i))
      <==> Overlap(oldStart, oldSamples, newStart) == 0 || ToInt32(newStart - oldStart) == newStart - oldStart
  {
    var offset := ToInt32(newStart - oldStart);
    if Overlap(oldStart, oldSamples, newStart) > 0 && offset != newStart - oldStart {
      var child := (n: int) => n;
      MulMonotone(1, Overlap(oldStart, oldSamples, newStart), ch);
      assert WindowSample(child, ch, oldStart, oldSamples, newStart, 0) == (oldStart + offset) * ch;
      if (oldStart + offset) * ch == newStart * ch {
        SameProduct(oldStart + offset, newStart, ch);
      }
      assert WindowSample(child, ch, oldStart, oldSamples, newStart, 0) != child(newStart * ch + 0);
    }
  }

  lemma SameProduct(a: int, b: int, c: int)
    requires c > 0 && a * c == b * c
    ensures a == b
  {
    if a < b { MulMonotone(a + 1, b, c); } else if b < a { MulMonotone(b + 1, a, c); }
  }

  /** Seeking forward by 2^32 samples makes it go wrong: the whole old window is taken for the new one. */
  lemma FarSeekReusesWrongly()
    ensures Overlap(0, 100, 2 * ONE31) == 100
    ensures exists child: int -> int, i: nat :: WindowSample(child, 1, 0, 100, 2 * ONE31, i) != child(2 * ONE31 * 1 + i)
  {
    ReuseIsRightExactly(1, 0, 100, 2 * ONE31);
  }

  // ----- The window over any sequence of requests -----

  datatype Request = Request(start: nat, count: nat)

  /** The window of the source a request needs, and the bytes its buffer takes. */
  datatype Wanted = Wanted(start: int, samples: nat, bytes: int)

  function Wants(f: Factor, ch: nat, r: Request): (w: Wanted)
    requires ValidFactor(f)
    ensures w.samples > 0
  {
    SourceSamplesPositive(f, r.start, r.count);
    Wanted(SrcPos(f, r.start) / PHASE - Xoff(f), SourceSamples(f, r.start, r.count), SourceSamples(f, r.start, r.count) * ch * 2)
  }

  /** No output lags or leads, whatever request it is part of and however long that is: in the source, it is read within
      two units of 2^-15 samples of its own rounded position. */
  lemma ReadWhereItBelongs(f: Factor, ch: nat, r: Request, k: nat)
    requires ValidFactor(f) && k <= ONE31
    ensures -2 <= Wants(f, ch, r).start * PHASE + PosAt(f, r.start, k) - SrcPos(f, r.start + k) <= 1
  {
    StepsStayClose(f, r.start, k);
    var p := SrcPos(f, r.start);
    assert (p / PHASE - Xoff(f)) * PHASE == p / PHASE * PHASE - Xoff(f) * PHASE;
  }

  function WantsAll(f: Factor, ch: nat, requests: seq<Request>): (ws: seq<Wanted>)
    requires ValidFactor(f)
  {
    seq(|requests|, i requires 0 <= i < |requests| => Wants(f, ch, requests[i]))
  }

  /** The buffer's size in bytes, and what of the source it holds. */
  datatype Kept = NoBuffer | Kept(size: int, start: int, samples: nat)

  /** A buffer too small for the request is replaced, and what it held forgotten. */
  function Provided(k: Kept, bytes: int): (p: Kept)
    ensures p.Kept?
  {
    if k.NoBuffer? || bytes > k.size then Kept(bytes, 0, 0) else k
  }

  function Moved(k: Kept, w: Wanted): (p: Kept)
    ensures p.Kept?
  {
    var p := Provided(k, w.bytes);
    var overlap := Overlap(p.start, p.samples, w.start);
    Kept(p.size, w.start, if overlap > w.samples then overlap else w.samples)
  }

  /** Nothing is kept of the old window, or its distance to the new one survives the cast to 32 bits. */
  predicate MoveRight(k: Kept, w: Wanted) {
    var p := Provided(k, w.bytes);
    Overlap(p.start, p.samples, w.start) == 0 || ToInt32(w.start - p.start) == w.start - p.start
  }

  function KeptAfter(ws: seq<Wanted>): (k: Kept)
    ensures ws != [] ==> k.Kept? && k.start == ws[|ws| - 1].start
    decreases |ws|
  {
    if ws == [] then NoBuffer else Moved(KeptAfter(ws[..|ws| - 1]), ws[|ws| - 1])
  }

  predicate AllMovesRight(ws: seq<Wanted>) {
    forall i :: 0 <= i < |ws| ==> MoveRight(KeptAfter(ws[..i]), ws[i])
  }

  /** What the buffer holds in place i after all requests: a sample moved down, or a newly fetched one. */
  ghost function Content(child: int -> int, ch: nat, ws: seq<Wanted>, i: int): (v: int)
    decreases |ws|
  {
    if ws == [] then 0
    else
      var before, w := ws[..|ws| - 1], ws[|ws| - 1];
      var p := Provided(KeptAfter(before), w.bytes);
      if 0 <= i < Overlap(p.start, p.samples, w.start) * ch then Content(child, ch, before, i + ToInt32(w.start - p.start) * ch)
      else child(w.start * ch + i)
  }

  /** The buffer holds the source where its window says. */
  ghost predicate WindowRight(child: int -> int, ch: nat, ws: seq<Wanted>)
    requires ws != []
  {
    var k := KeptAfter(ws);
    forall i :: 0 <= i < k.samples * ch ==> Content(child, ch, ws, i) == child(k.start * ch + i)
  }

  lemma OldPlace(overlap: nat, offset: nat, samples: nat, ch: nat, start: int, i: nat)
    requires overlap + offset == samples && i < overlap * ch
    ensures 0 <= i + offset * ch < samples * ch
    ensures start * ch + (i + offset * ch) == (start + offset) * ch + i
  {
    KeptFits(overlap, offset, samples, ch, start);
    MulMonotone(0, offset, ch);
  }

  lemma ContentMoved(child: int -> int, ch: nat, before: seq<Wanted>, w: Wanted, i: nat)
    requires before != [] ==> WindowRight(child, ch, before)
    ensures var p := Provided(KeptAfter(before), w.bytes);
      Content(child, ch, before + [w], i) == WindowSample(child, ch, p.start, p.samples, w.start, i)
  {
    var k := KeptAfter(before);
    var p := Provided(k, w.bytes);
    var offset, overlap := ToInt32(w.start - p.start), Overlap(p.start, p.samples, w.start);
    assert (before + [w])[..|before|] == before;
    if i < overlap * ch {
      assert overlap > 0 && p == k;
      OldPlace(overlap, offset, p.samples, ch, p.start, i);
      assert Content(child, ch, before, i + offset * ch) == child(k.start * ch + (i + offset * ch));
    }
  }

  lemma MovedWindowRight(child: int -> int, ch: nat, before: seq<Wanted>, w: Wanted)
    requires ch > 0 && MoveRight(KeptAfter(before), w)
    requires before != [] ==> WindowRight(child, ch, before)
    ensures WindowRight(child, ch, before + [w])
  {
    var p := Provided(KeptAfter(before), w.bytes);
    ReuseIsRightExactly(ch, p.start, p.samples, w.start);
    forall i | 0 <= i < KeptAfter(before + [w]).samples * ch
      ensures Content(child, ch, before + [w], i) == child(w.start * ch + i)
    {
      ContentMoved(child, ch, before, w, i);
    }
  }

  /** A wrong move spoils the window for some source. */
  lemma WrongMoveSpoils(ch: nat, before: seq<Wanted>, w: Wanted)
    requires ch > 0 && !MoveRight(KeptAfter(before), w)
    requires before != [] ==> forall child: int -> int :: WindowRight(child, ch, before)
    ensures exists child: int -> int :: !WindowRight(child, ch, before + [w])
  {
    var p := Provided(KeptAfter(before), w.bytes);
    var overlap, k := Overlap(p.start, p.samples, w.start), KeptAfter(before + [w]);
    assert (before + [w])[..|before|] == before;
    ReuseIsRightExactly(ch, p.start, p.samples, w.start);
    var child: int -> int, i: nat :| WindowSample(child, ch, p.start, p.samples, w.start, i) != child(w.start * ch + i);
    ContentMoved(child, ch, before, w, i);
    MulMonotone(overlap, k.samples, ch);
    assert !WindowRight(child, ch, before + [w]);
  }

  lemma AllButLastMoveRight(ws: seq<Wanted>, n: nat)
    requires AllMovesRight(ws) && n <= |ws|
    ensures AllMovesRight(ws[..n])
  {
    forall i | 0 <= i < n ensures MoveRight(KeptAfter(ws[..n][..i]), ws[..n][i]) {
      assert ws[..n][..i] == ws[..i];
    }
  }

  lemma {:induction false} RightMovesKeepWindow(child: int -> int, ch: nat, ws: seq<Wanted>)
    requires ch > 0 && ws != [] && AllMovesRight(ws)
    ensures WindowRight(child, ch, ws)
    decreases |ws|
  {
    var last := |ws| - 1;
    if last > 0 {
      AllButLastMoveRight(ws, last);
      RightMovesKeepWindow(child, ch, ws[..last]);
    }
    NextMove(ws, last);
    assert ws == ws[..last] + [ws[last]];
    MovedWindowRight(child, ch, ws[..last], ws[last]);
  }

  lemma NextMove(ws: seq<Wanted>, n: nat)
    requires AllMovesRight(ws) && n < |ws|
    ensures MoveRight(KeptAfter(ws[..n]), ws[n])
    ensures KeptAfter(ws[..n + 1]) == Moved(KeptAfter(ws[..n]), ws[n])
  {
    assert ws[..n + 1][..n] == ws[..n];
  }

  /** Over any sequence of requests the window is right after each of them, for every source, exactly when every move
      either keeps nothing or goes a distance that fits an int. */
  lemma ServedRightExactly(ch: nat, ws: seq<Wanted>)
    requires ch > 0
    ensures (forall child: int -> int, n :: 0 < n <= |ws| ==> WindowRight(child, ch, ws[..n])) <==> AllMovesRight(ws)
  {
    if AllMovesRight(ws) {
      forall child: int -> int, n | 0 < n <= |ws| ensures WindowRight(child, ch, ws[..n]) {
        AllButLastMoveRight(ws, n);
        RightMovesKeepWindow(child, ch, ws[..n]);
      }
    } else {
      var i :| 0 <= i < |ws| && !MoveRight(KeptAfter(ws[..i]), ws[i]);
      SpoiltAt(ch, ws, i);
    }
  }

  lemma SpoiltAt(ch: nat, ws: seq<Wanted>, i: nat)
    requires ch > 0 && i < |ws| && !MoveRight(KeptAfter(ws[..i]), ws[i])
    ensures exists child: int -> int, n :: 0 < n <= |ws| && !WindowRight(child, ch, ws[..n])
  {
    assert ws[..i + 1] == ws[..i] + [ws[i]];
    if i == 0 || forall child: int -> int :: WindowRight(child, ch, ws[..i]) {
      WrongMoveSpoils(ch, ws[..i], ws[i]);
    }
  }

  /** Sequential playback, overlapping requests and seeks by less than 2^31 source samples, from wherever, are such. */
  lemma NearMovesAreRight(ws: seq<Wanted>)
    requires forall i :: 0 < i < |ws| ==> -ONE31 <= ws[i].start - ws[i - 1].start < ONE31
    ensures AllMovesRight(ws)
  {
    forall i | 0 <= i < |ws| ensures MoveRight(KeptAfter(ws[..i]), ws[i]) {
      if i > 0 {
        assert KeptAfter(ws[..i]).start == ws[i - 1].start;
      }
    }
  }

  // ----- A whole request -----

  const INT_MAX := ONE31 - 1

  /** Rounds, shifts and saturates. */
  function IntToShort(v: int, scl: int): (r: int)
    requires scl > 0
    ensures -32768 <= r <= 32767
  {
    var rounded := (v + scl / 2) / scl;
    if rounded > 32767 then 32767 else if rounded < -32768 then -32768 else rounded
  }

  /** To the nearest 16-bit value, halves upwards; what lies beyond the range ends at its border. */
  lemma IntToShortNearest(v: int, scl: int)
    requires scl > 0 && scl % 2 == 0
    ensures var r := IntToShort(v, scl);
      && (-32768 < r < 32767 ==> -scl <= 2 * (v - scl * r) < scl)
      && (r == 32767 ==> 2 * v >= (2 * 32767 - 1) * scl)
      && (r == -32768 ==> 2 * v < (-2 * 32768 + 1) * scl)
  {
    var q := (v + scl / 2) / scl;
    DivFloor(v + scl / 2, scl);
    assert q * scl == scl * q;
    if q >= 32767 { MulMonotone(32767, q, scl); }
    if q <= -32768 { MulMonotone(q, -32768, scl); }
  }

  /** The buffer place of channel q of a frame. */
  function Place(frame: int, ch: int, q: int): (i: int) {
    frame * ch + q
  }

  /** The wings around a position: the left one runs down from its sample, the right one up from the next. */
  function Interpolated(imp: seq<int>, w: int -> int, pos: int, ch: int, q: int, dhb: nat): (v: int)
    requires |imp| == NWING + 1 && dhb > 0
  {
    var x, left, right := Place(pos / PHASE, ch, q), pos % PHASE, -pos % PHASE;
    Wing(imp, w, x, -ch, FirstStep(left, dhb, false), NWING, dhb) + Wing(imp, w, x + ch, ch, FirstStep(right, dhb, true), NWING - 1, dhb)
  }

  /** Guard bits are rounded off once, the filter gain undone, and the result saturated to 16 bits. */
  function Rounded(imp: seq<int>, w: int -> int, pos: int, ch: int, q: int, dhb: nat, lpScl: int): (v: int)
    requires |imp| == NWING + 1 && dhb > 0
  {
    IntToShort((Interpolated(imp, w, pos, ch, q, dhb) + 32768) / 65536 * lpScl, 8192)
  }

  /** The source from the interleaved sample `first` on. */
  function FromSource(child: int -> int, first: int): (w: int -> int) {
    i => child(first + i)
  }

  /** The first n channels at a position. */
  function Channels(imp: seq<int>, w: int -> int, pos: int, ch: int, dhb: nat, lpScl: int, n: nat): (out: seq<int>)
    requires |imp| == NWING + 1 && dhb > 0
    ensures |out| == n
  {
    if n == 0 then [] else Channels(imp, w, pos, ch, dhb, lpScl, n - 1) + [Rounded(imp, w, pos, ch, n - 1, dhb, lpScl)]
  }

  /** The first k outputs of a request, straight from the source. */
  function Outputs(child: int -> int, imp: seq<int>, lpScl: int, f: Factor, ch: nat, start: nat, k: nat): (out: seq<int>)
    requires ValidFactor(f) && |imp| == NWING + 1 && Dhb(f) > 0
    ensures |out| == k * ch
    decreases k
  {
    if k == 0 then []
    else
      Outputs(child, imp, lpScl, f, ch, start, k - 1)
      + Channels(imp, FromSource(child, (SrcPos(f, start) / PHASE - Xoff(f)) * ch), PosAt(f, start, k - 1), ch, Dhb(f), lpScl, ch)
  }

  /** Sample by sample: channel q of output i is filtered around the position of output i. */
  lemma {:induction false} OutputAt(child: int -> int, imp: seq<int>, lpScl: int, f: Factor, ch: nat, start: nat, k: nat, i: nat, q: nat)
    requires ValidFactor(f) && |imp| == NWING + 1 && Dhb(f) > 0 && i < k && q < ch
    ensures i * ch + q < k * ch
    ensures Outputs(child, imp, lpScl, f, ch, start, k)[i * ch + q]
      == Rounded(imp, FromSource(child, (SrcPos(f, start) / PHASE - Xoff(f)) * ch), PosAt(f, start, i), ch, q, Dhb(f), lpScl)
    decreases k
  {
    FrameIndex(i, k, ch, q);
    var before := Outputs(child, imp, lpScl, f, ch, start, k - 1);
    var w := FromSource(child, (SrcPos(f, start) / PHASE - Xoff(f)) * ch);
    var last := Channels(imp, w, PosAt(f, start, k - 1), ch, Dhb(f), lpScl, ch);
    JoinAt(before, last, k - 1, ch, i, q);
    if i < k - 1 {
      OutputAt(child, imp, lpScl, f, ch, start, k - 1, i, q);
    } else {
      ChannelAt(imp, w, PosAt(f, start, i), ch, Dhb(f), lpScl, ch, q);
    }
  }

  lemma JoinAt(a: seq<int>, b: seq<int>, k: nat, ch: nat, i: nat, q: nat)
    requires |a| == k * ch && |b| == ch && i <= k && q < ch
    ensures 0 <= i * ch + q < |a + b|
    ensures i < k ==> i * ch + q < |a|
    ensures (a + b)[i * ch + q] == if i < k then a[i * ch + q] else b[q]
  {
    if i < k {
      FrameIndex(i, k, ch, q);
    } else {
      MulMonotone(0, i, ch);
    }
  }

  lemma {:induction false} ChannelAt(imp: seq<int>, w: int -> int, pos: int, ch: int, dhb: nat, lpScl: int, n: nat, q: nat)
    requires |imp| == NWING + 1 && dhb > 0 && q < n
    ensures Channels(imp, w, pos, ch, dhb, lpScl, n)[q] == Rounded(imp, w, pos, ch, q, dhb, lpScl)
    decreases n
  {
    if q < n - 1 {
      ChannelAt(imp, w, pos, ch, dhb, lpScl, n - 1, q);
    }
  }

  lemma FrameIndex(n: int, size: int, ch: int, q: int)
    requires 0 <= n < size && 0 <= q < ch
    ensures 0 <= n * ch + q < size * ch
  {
    MulMonotone(n + 1, size, ch);
    assert (n + 1) * ch == n * ch + ch;
    MulMonotone(0, n, ch);
  }

  lemma LeftTap(x: int, ch: int, q: int, j: nat, n: int)
    requires 0 <= x - j < n && 0 <= q < ch
    ensures 0 <= Tap(x * ch + q, -ch, j) < n * ch
  {
    FrameIndex(x - j, n, ch, q);
    assert (x - j) * ch == x * ch + j * (-ch);
  }

  lemma RightTap(x: int, ch: int, q: int, j: nat, n: int)
    requires 0 <= x + 1 + j < n && 0 <= q < ch
    ensures 0 <= Tap(x * ch + q + ch, ch, j) < n * ch
  {
    FrameIndex(x + 1 + j, n, ch, q);
    assert (x + 1 + j) * ch == x * ch + ch + j * ch;
  }

  lemma LeftWingReads(f: Factor, start: nat, count: nat, k: nat, ch: int, q: int, ho: nat)
    requires ValidFactor(f) && k < count <= ONE31 && 0 <= q < ch
    ensures ReadsWithin(Place(PosAt(f, start, k) / PHASE, ch, q), -ch, ho, NWING, Dhb(f), SourceSamples(f, start, count) * ch)
  {
    forall j: nat | ho + j * Dhb(f) < NWING * NA_SIZE
      ensures 0 <= Tap(Place(PosAt(f, start, k) / PHASE, ch, q), -ch, j) < SourceSamples(f, start, count) * ch
    {
      ReadsInRange(f, start, count, k, j);
      LeftTap(PosAt(f, start, k) / PHASE, ch, q, j, SourceSamples(f, start, count));
    }
  }

  lemma RightWingReads(f: Factor, start: nat, count: nat, k: nat, ch: int, q: int, ho: nat)
    requires ValidFactor(f) && k < count <= ONE31 && 0 <= q < ch
    ensures ReadsWithin(Place(PosAt(f, start, k) / PHASE, ch, q) + ch, ch, ho, NWING - 1, Dhb(f), SourceSamples(f, start, count) * ch)
  {
    forall j: nat | ho + j * Dhb(f) < (NWING - 1) * NA_SIZE
      ensures 0 <= Tap(Place(PosAt(f, start, k) / PHASE, ch, q) + ch, ch, j) < SourceSamples(f, start, count) * ch
    {
      ReadsInRange(f, start, count, k, j);
      RightTap(PosAt(f, start, k) / PHASE, ch, q, j, SourceSamples(f, start, count));
    }
  }

  class ResampleAudio {
    const f: Factor
    const ch: nat
    const imp: array<int>
    const lpScl: int
    const child: int -> int         // the interleaved samples of the source
    var srcbuffer: array?<int>
    var srcbufferSize: int          // in bytes
    var lastStart: int
    var lastSamples: int

    ghost predicate Shape()
      reads this, srcbuffer
    {
      && ValidFactor(f) && ch > 0 && imp.Length == NWING + 1
      && (srcbuffer != null ==>
            && srcbuffer != imp && 0 <= srcbufferSize <= INT_MAX && srcbuffer.Length == srcbufferSize / 2
            && 0 <= lastSamples && lastSamples * ch <= srcbuffer.Length)
    }

    /** The front of the buffer holds the source from `lastStart` on. */
    ghost predicate Window()
      requires Shape()
      reads this, srcbuffer
    {
      srcbuffer != null ==> forall i :: 0 <= i < lastSamples * ch ==> srcbuffer[i] == child(lastStart * ch + i)
    }

    constructor (f: Factor, ch: nat, imp: array<int>, lpScl: int, child: int -> int)
      requires ValidFactor(f) && ch > 0 && imp.Length == NWING + 1
      ensures Shape() && Window() && srcbuffer == null
      ensures this.f == f && this.ch == ch && this.imp == imp && this.lpScl == lpScl && this.child == child
    {
      this.f, this.ch, this.imp, this.lpScl, this.child := f, ch, imp, lpScl, child;
      srcbuffer, srcbufferSize, lastStart, lastSamples := null, 0, 0, 0;
    }

    ghost function State(): (k: Kept)
      requires Shape()
      reads this, srcbuffer
    {
      if srcbuffer == null then NoBuffer else Kept(srcbufferSize, lastStart, lastSamples)
    }

    /** A buffer too small for the request is replaced, and what it held forgotten. */
    method Reserve(sourceBytes: int)
      requires Shape() && Window() && 0 <= sourceBytes <= INT_MAX
      modifies this
      ensures Shape() && Window() && srcbuffer != null && srcbuffer.Length >= sourceBytes / 2
      ensures (srcbuffer == old(srcbuffer) || fresh(srcbuffer))
      ensures State() == Provided(old(State()), sourceBytes)
    {
      if srcbuffer == null || sourceBytes > srcbufferSize {
        srcbuffer := new int[sourceBytes / 2];
        srcbufferSize := sourceBytes;
        lastSamples := 0;
        lastStart := 0;
      }
    }

    /** Moves the window to `newStart`: keeps what overlaps, asks the child for the rest. */
    method Slide(newStart: int, sourceSamples: int)
      requires Shape() && Window() && srcbuffer != null
      requires 0 < sourceSamples && sourceSamples * ch <= srcbuffer.Length
      modifies this, srcbuffer
      ensures Shape() && srcbuffer == old(srcbuffer) && srcbufferSize == old(srcbufferSize)
      ensures lastStart == newStart
      ensures var overlap := Overlap(old(lastStart), old(lastSamples), newStart);
        lastSamples == if overlap > sourceSamples then overlap else sourceSamples
      ensures forall i :: 0 <= i < lastSamples * ch ==>
                srcbuffer[i] == WindowSample(child, ch, old(lastStart), old(lastSamples), newStart, i)
    {
      var offset := ToInt32(newStart - lastStart);
      var overlap := lastSamples - offset;
      if offset < 0 || overlap <= 0 {
        overlap := 0;
      } else {
        KeptFits(overlap, offset, lastSamples, ch, lastStart);
        MoveDown(srcbuffer, overlap * ch, offset * ch);
      }
      assert forall i :: 0 <= i < overlap * ch ==>
        srcbuffer[i] == WindowSample(child, ch, lastStart, lastSamples, newStart, i);
      ghost var oldStart, oldSamples := lastStart, lastSamples;
      lastStart := newStart;
      lastSamples := if overlap > sourceSamples then overlap else sourceSamples;
      if sourceSamples - overlap > 0 {
        MulMonotone(overlap, sourceSamples, ch);
        FetchSamples(srcbuffer, overlap * ch, sourceSamples * ch, child, newStart * ch);
      }
    }

    /** Gets the window of the source that a request wants into the buffer. */
    method Load(w: Wanted)
      requires Shape() && Window() && w.samples > 0 && w.bytes == w.samples * ch * 2 <= INT_MAX
      requires MoveRight(State(), w)
      modifies this, srcbuffer
      ensures Shape() && Window() && srcbuffer != null && (srcbuffer == old(srcbuffer) || fresh(srcbuffer))
      ensures State() == Moved(old(State()), w)
    {
      MulMonotone(0, w.samples, ch);
      Reserve(w.bytes);
      ReuseIsRightExactly(ch, lastStart, lastSamples, w.start);
      Slide(w.start, w.samples);
    }

    /** One channel of one output, from the loaded window. */
    method Sample(start: nat, count: nat, k: nat, q: nat, pos: int, ghost w: int -> int) returns (v: int)
      requires Shape() && srcbuffer != null && k < count <= ONE31 && q < ch && pos == PosAt(f, start, k)
      requires 0 <= SourceSamples(f, start, count) * ch <= srcbuffer.Length
      requires forall i :: 0 <= i < SourceSamples(f, start, count) * ch ==> srcbuffer[i] == w(i)
      ensures Dhb(f) > 0
      ensures v == Rounded(imp[..], w, pos, ch, q, Dhb(f), lpScl)
    {
      DhbAtLeast(f);
      LeftWingReads(f, start, count, k, ch, q, FirstStep(pos % PHASE, Dhb(f), false));
      RightWingReads(f, start, count, k, ch, q, FirstStep(-pos % PHASE, Dhb(f), true));
      var v64 := BothWings(imp, srcbuffer, pos, ch, q, Dhb(f), w, SourceSamples(f, start, count) * ch);
      v := IntToShort((v64 + 32768) / 65536 * lpScl, 8192);
    }

    /** All channels of one output, written from place d on. */
    method OutputFrame(out: array<int>, d: nat, start: nat, count: nat, k: nat, pos: int, ghost w: int -> int)
      requires Shape() && srcbuffer != null && k < count <= ONE31 && pos == PosAt(f, start, k)
      requires 0 <= SourceSamples(f, start, count) * ch <= srcbuffer.Length
      requires forall i :: 0 <= i < SourceSamples(f, start, count) * ch ==> srcbuffer[i] == w(i)
      requires out != srcbuffer && out != imp && d + ch <= out.Length
      modifies out
      ensures Dhb(f) > 0
      ensures out[..d + ch] == old(out[..d]) + Channels(imp[..], w, pos, ch, Dhb(f), lpScl, ch)
    {
      DhbAtLeast(f);
      for q := 0 to ch
        invariant out[..d + q] == old(out[..d]) + Channels(imp[..], w, pos, ch, Dhb(f), lpScl, q)
      {
        var v := Sample(start, count, k, q, pos, w);
        ghost var before := out[..d + q];
        out[d + q] := v;
        assert out[..d + q + 1] == before + [v];
      }
    }

    /** The buffer holds the whole source window of a request. */
    ghost predicate Loaded(start: nat, count: nat)
      requires Shape()
      reads this, srcbuffer
    {
      && srcbuffer != null
      && 0 <= SourceSamples(f, start, count) * ch <= srcbuffer.Length
      && forall i :: 0 <= i < SourceSamples(f, start, count) * ch ==> srcbuffer[i] == FromSource(child, Wants(f, ch, Request(start, count)).start * ch)(i)
    }

    /** One output: all its channels, and the way to the next. */
    method Turn(out: array<int>, d: nat, start: nat, count: nat, k: nat, pos: int, dtberror: nat) returns (next: int, error: nat)
      requires Shape() && Loaded(start, count) && k < count <= ONE31 && Dhb(f) > 0
      requires pos == PosAt(f, start, k) && dtberror == ErrorAt(f, k)
      requires out != srcbuffer && out != imp && d + ch <= out.Length
      requires out[..d] == Outputs(child, imp[..], lpScl, f, ch, start, k)
      modifies out
      ensures out[..d + ch] == Outputs(child, imp[..], lpScl, f, ch, start, k + 1)
      ensures next == PosAt(f, start, k + 1) && error == ErrorAt(f, k + 1)
    {
      OutputFrame(out, d, start, count, k, pos, FromSource(child, Wants(f, ch, Request(start, count)).start * ch));
      next, error := NextPosition(start, k, pos, dtberror);
    }

    /** The loop over the outputs, from a loaded window. */
    method Resample(out: array<int>, start: nat, count: nat)
      requires Shape() && Loaded(start, count) && count <= ONE31 && Dhb(f) > 0
      requires out != srcbuffer && out != imp && out.Length == count * ch
      modifies out
      ensures out[..] == Outputs(child, imp[..], lpScl, f, ch, start, count)
    {
      var pos: int, dtberror, d := Pos0(f, start), 0, 0;
      AccumulatorsStart(f, start);
      for k := 0 to count
        invariant pos == PosAt(f, start, k) && dtberror == ErrorAt(f, k) && d == k * ch && d <= out.Length
        invariant out[..d] == Outputs(child, imp[..], lpScl, f, ch, start, k)
      {
        NextFits(k, count, ch);
        pos, dtberror := Turn(out, d, start, count, k, pos, dtberror);
        d := d + ch;
      }
      assert out[..] == out[..d];
    }

    /** To the next output, by a time increment and now and then an error adjustment. */
    method NextPosition(start: nat, k: nat, pos: int, dtberror: nat) returns (next: int, error: nat)
      requires ValidFactor(f) && pos == PosAt(f, start, k) && dtberror == ErrorAt(f, k)
      ensures next == PosAt(f, start, k + 1) && error == ErrorAt(f, k + 1)
    {
      AccumulatorsStep(f, start, k);
      error := dtberror + Dtbe(f);
      if error >= ONE31 {
        error := error - ONE31;
        next := pos + Dtb(f) + 1;
      } else {
        next := pos + Dtb(f);
      }
    }

    /** A request: every output sample is the filtered source around its exact position, whatever was asked for before. */
    method GetAudio(out: array<int>, start: nat, count: nat)
      requires Shape() && Window() && count <= ONE31 && Wants(f, ch, Request(start, count)).bytes <= INT_MAX
      requires MoveRight(State(), Wants(f, ch, Request(start, count)))
      requires out != srcbuffer && out != imp && out.Length == count * ch
      modifies this, srcbuffer, out
      ensures Shape() && Window() && srcbuffer != null && (srcbuffer == old(srcbuffer) || fresh(srcbuffer))
      ensures State() == Moved(old(State()), Wants(f, ch, Request(start, count)))
      ensures Dhb(f) > 0 && out[..] == Outputs(child, imp[..], lpScl, f, ch, start, count)
    {
      DhbAtLeast(f);
      Load(Wants(f, ch, Request(start, count)));
      LoadedWindow(start, count);
      Resample(out, start, count);
    }

    lemma LoadedWindow(start: nat, count: nat)
      requires Shape() && Window() && srcbuffer != null
      requires lastStart == Wants(f, ch, Request(start, count)).start && lastSamples >= SourceSamples(f, start, count)
      ensures Loaded(start, count)
    {
      SourceSamplesPositive(f, start, count);
      MulMonotone(SourceSamples(f, start, count), lastSamples, ch);
      MulMonotone(0, SourceSamples(f, start, count), ch);
    }
  }

  lemma NextFits(k: nat, count: nat, ch: nat)
    requires k < count
    ensures k * ch + ch <= count * ch && (k + 1) * ch == k * ch + ch
  {
    MulMonotone(k + 1, count, ch);
  }

  lemma AccumulatorsStart(f: Factor, start: nat)
    requires ValidFactor(f)
    ensures PosAt(f, start, 0) == Pos0(f, start) && ErrorAt(f, 0) == 0
  {
  }

  method BothWings(imp: array<int>, buf: array<int>, pos: int, ch: int, q: int, dhb: nat, ghost w: int -> int, ghost n: int)
    returns (v: int)
    requires imp.Length == NWING + 1 && dhb > 0 && ch > 0 && 0 <= n <= buf.Length
    requires forall i :: 0 <= i < n ==> buf[i] == w(i)
    requires ReadsWithin(Place(pos / PHASE, ch, q), -ch, FirstStep(pos % PHASE, dhb, false), NWING, dhb, n)
    requires ReadsWithin(Place(pos / PHASE, ch, q) + ch, ch, FirstStep(-pos % PHASE, dhb, true), NWING - 1, dhb, n)
    ensures v == Interpolated(imp[..], w, pos, ch, q, dhb)
  {
    var x := Place(pos / PHASE, ch, q);
    v := FilterUD(imp, buf, x, pos % PHASE, -ch, dhb, w, n);
    var u := FilterUD(imp, buf, x + ch, -pos % PHASE, ch, dhb, w, n);
    v := v + u;
  }

  lemma SourceSamplesPositive(f: Factor, start: nat, count: nat)
    requires ValidFactor(f)
    ensures SourceSamples(f, start, count) > 0
  {
    var a, b := 2 * PHASE * start * f.den + f.num, 2 * PHASE * (start + count) * f.den + f.num;
    MulMonotone(start, start + count, f.den);
    assert a <= b;
    DivFloor(a, 2 * f.num);
    DivIsAtLeast(b, 2 * f.num, SrcPos(f, start));
  }

  lemma KeptFits(overlap: int, offset: int, samples: int, ch: int, start: int)
    requires overlap + offset == samples
    ensures overlap * ch + offset * ch == samples * ch && (start + offset) * ch == start * ch + offset * ch
  {
  }

  /** `memmove` within the buffer. */
  method MoveDown(buf: array<int>, n: int, dist: int)
    requires 0 <= n && 0 <= dist && n + dist <= buf.Length
    modifies buf
    ensures forall i :: 0 <= i < n ==> buf[i] == old(buf[i + dist])
  {
    if dist > 0 {
      forall i | 0 <= i < n {
        buf[i] := buf[i + dist];
      }
    }
  }

  /** The child's `GetAudio`. */
  method FetchSamples(buf: array<int>, from: int, to: int, child: int -> int, base: int)
    requires 0 <= from <= to <= buf.Length
    modifies buf
    ensures forall i :: from <= i < to ==> buf[i] == child(base + i)
    ensures forall i :: 0 <= i < from ==> buf[i] == old(buf[i])
  {
    forall i | from <= i < to {
      buf[i] := child(base + i);
    }
  }

  // ----- Any sequence of requests -----

  /** What each request is answered, straight from the source. */
  function Answers(child: int -> int, imp: seq<int>, lpScl: int, f: Factor, ch: nat, requests: seq<Request>): (a: seq<seq<int>>)
    requires ValidFactor(f) && |imp| == NWING + 1 && Dhb(f) > 0
    ensures |a| == |requests|
    decreases |requests|
  {
    if requests == [] then []
    else
      var last := requests[|requests| - 1];
      Answers(child, imp, lpScl, f, ch, requests[..|requests| - 1])
      + [Outputs(child, imp, lpScl, f, ch, last.start, last.count)]
  }

  method ServeNext(filter: ResampleAudio, r: Request) returns (answer: seq<int>)
    requires filter.Shape() && filter.Window() && r.count <= ONE31 && Dhb(filter.f) > 0
    requires Wants(filter.f, filter.ch, r).bytes <= INT_MAX && MoveRight(filter.State(), Wants(filter.f, filter.ch, r))
    modifies filter, filter.srcbuffer
    ensures filter.Shape() && filter.Window() && filter.srcbuffer != null
    ensures filter.srcbuffer == old(filter.srcbuffer) || fresh(filter.srcbuffer)
    ensures filter.State() == Moved(old(filter.State()), Wants(filter.f, filter.ch, r))
    ensures filter.imp[..] == old(filter.imp[..])
    ensures answer == Outputs(filter.child, filter.imp[..], filter.lpScl, filter.f, filter.ch, r.start, r.count)
  {
    var out := new int[r.count * filter.ch];
    filter.GetAudio(out, r.start, r.count);
    answer := out[..];
  }

  /** Forward, overlapping or seeking: no answer depends on what was asked for before, as long as all moves are right. */
  method Serve(f: Factor, ch: nat, imp: array<int>, lpScl: int, child: int -> int, requests: seq<Request>)
    returns (answers: seq<seq<int>>)
    requires ValidFactor(f) && ch > 0 && imp.Length == NWING + 1 && Dhb(f) > 0
    requires forall i :: 0 <= i < |requests| ==> requests[i].count <= ONE31 && Wants(f, ch, requests[i]).bytes <= INT_MAX
    requires AllMovesRight(WantsAll(f, ch, requests))
    ensures answers == Answers(child, imp[..], lpScl, f, ch, requests)
  {
    var filter := new ResampleAudio(f, ch, imp, lpScl, child);
    ghost var ws := WantsAll(f, ch, requests);
    answers := [];
    for n := 0 to |requests|
      invariant fresh(filter) && (filter.srcbuffer == null || fresh(filter.srcbuffer))
      invariant filter.f == f && filter.ch == ch && filter.imp == imp && filter.lpScl == lpScl && filter.child == child
      invariant filter.Shape() && filter.Window() && imp[..] == old(imp[..])
      invariant filter.State() == KeptAfter(ws[..n])
      invariant answers == Answers(child, imp[..], lpScl, f, ch, requests[..n])
    {
      NextMove(ws, n);
      var out := ServeNext(filter, requests[n]);
      assert requests[..n + 1][..n] == requests[..n];
      answers := answers + [out];
    }
    assert requests[..|requests|] == requests;
  }
}
