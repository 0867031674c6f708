/** The air-quality node: a warm-up gate on the 32-bit millisecond clock, an
    ADC-to-ppm conversion, a four-band classification and a two-field
    telemetry document. */
module Mq135Node {

  import opened UInt32
  import opened FloatSample
  import opened Telemetry

  /** Milliseconds the MQ-135 must settle after boot before it is read. */
  const WarmupTimeMs: int := 20000

  /** Milliseconds slept at the end of every cycle. */
  const LoopDelayMs: nat := 2000

  /* ---------------- ADC to ppm ---------------- */

  /** The conversion of a 12-bit ADC sample: a voltage against a 3.3 V full
      scale of 4095 counts, then times 100 and times 10. */
  function ReadPpm(raw: int): (ppm: real)
    ensures ppm * 4095.0 == (raw as real) * 3300.0
    ensures 0 <= raw <= 4095 ==> 0.0 <= ppm <= 3300.0
  {
    var voltage := (raw as real) * (3.3 / 4095.0);
    10.0 * (voltage * 100.0)
  }

  lemma ReadPpmEndpoints()
    ensures ReadPpm(0) == 0.0
    ensures ReadPpm(4095) == 3300.0
  {
  }

  lemma ReadPpmMonotone(a: int, b: int)
    requires a <= b
    ensures ReadPpm(a) <= ReadPpm(b)
  {
  }

  /* ---------------- Classification ---------------- */

  datatype AirQuality = Good | Moderate | Poor | Unhealthy

  /** The bands are tried in ascending order and the first match wins. */
  function Classify(ppm: real): (q: AirQuality)
    ensures q == Good <==> ppm < 700.0
    ensures q == Moderate <==> 700.0 <= ppm < 1000.0
    ensures q == Poor <==> 1000.0 <= ppm < 1500.0
    ensures q == Unhealthy <==> 1500.0 <= ppm
  {
    if ppm < 700.0 then Good
    else if ppm < 1000.0 then Moderate
    else if ppm < 1500.0 then Poor
    else Unhealthy
  }

  /** How bad a band is: Good is 0, Unhealthy is 3. */
  function Severity(q: AirQuality): nat {
    match q
    case Good => 0
    case Moderate => 1
    case Poor => 2
    case Unhealthy => 3
  }

  /** A higher concentration never gets a better band. */
  lemma ClassifyMonotone(a: real, b: real)
    requires a <= b
    ensures Severity(Classify(a)) <= Severity(Classify(b))
  {
  }

  /** Each band edge belongs to the band above it. */
  lemma BandEdges()
    ensures Classify(700.0) == Moderate
    ensures Classify(1000.0) == Poor
    ensures Classify(1500.0) == Unhealthy
  {
  }

  function StatusText(q: AirQuality): (text: string)
    ensures text in {"Good", "Moderate", "Poor", "Unhealthy"}
  {
    match q
    case Good => "Good"
    case Moderate => "Moderate"
    case Poor => "Poor"
    case Unhealthy => "Unhealthy"
  }

  /** Distinct bands get distinct names. */
  lemma StatusTextInjective(p: AirQuality, q: AirQuality)
    requires StatusText(p) == StatusText(q)
    ensures p == q
  {
  }

  const DocumentKeys: set<string> := {"airQualityPPM", "airQualityStatus"}

  /** The document handed to the serializer: the reading and its band name. */
  function PublishDocument(ppm: real): (d: Document)
    ensures d.Keys == DocumentKeys
    ensures d["airQualityPPM"] == Number(Num(ppm))
    ensures d["airQualityStatus"] == Text("Good") <==> ppm < 700.0
    ensures d["airQualityStatus"] == Text("Moderate") <==> 700.0 <= ppm < 1000.0
    ensures d["airQualityStatus"] == Text("Poor") <==> 1000.0 <= ppm < 1500.0
    ensures d["airQualityStatus"] == Text("Unhealthy") <==> 1500.0 <= ppm
  {
    map["airQualityPPM" := Number(Num(ppm)), "airQualityStatus" := Text(StatusText(Classify(ppm)))]
  }

  /* ---------------- Warm-up gate ---------------- */

  /** `sensor_warmup_time` and `sensor_ready`. */
  datatype NodeState = NodeState(warmupStart: U32, sensorReady: bool)

  /** setup() records the clock and starts warming. */
  function Boot(now: U32): (s: NodeState)
    ensures s.warmupStart == now && !s.sensorReady
  {
    NodeState(now, false)
  }

  /** The gate condition: strictly more than the warm-up time has elapsed,
      measured with unsigned 32-bit subtraction. */
  predicate GateOpens(start: U32, now: U32) {
    Sub(now, start) > WarmupTimeMs
  }

  /** The gate check at the top of loop(): the flag is set once the warm-up
      time has passed and is never cleared. */
  function Gate(s: NodeState, now: U32): (s': NodeState)
    ensures s'.warmupStart == s.warmupStart
    ensures s.sensorReady ==> s'.sensorReady
    ensures !s.sensorReady ==> (s'.sensorReady <==> GateOpens(s.warmupStart, now))
  {
    if !s.sensorReady && GateOpens(s.warmupStart, now) then
      NodeState(s.warmupStart, true)
    else
      s
  }

  /** The gate opens as soon as the clock is more than the warm-up time past
      the start, even when the clock wrapped past 2^32 in between. */
  lemma GateOpensAfterWarmup(start: U32, d: int)
    requires 0 <= d < Modulus
    ensures Gate(Boot(start), (start + d) % Modulus).sensorReady <==> d > WarmupTimeMs
  {
  }

  /** A start just below the wrap point and a clock sample that has wrapped. */
  lemma GateOpensAcrossWrapExample()
    ensures !Gate(Boot(0xFFFF_F000), 15904).sensorReady
    ensures Gate(Boot(0xFFFF_F000), 15905).sensorReady
  {
  }

  /* ---------------- Countdown ---------------- */

  /** The countdown expression exactly as the firmware evaluates it: the int
      20000 is converted to `unsigned long`, so the subtraction wraps modulo
      2^32 whenever the elapsed time exceeds the warm-up time. */
  function SecondsRemainingAsWritten(elapsed: U32): (secs: U32)
    ensures elapsed <= WarmupTimeMs ==> secs * 1000 <= WarmupTimeMs - elapsed < secs * 1000 + 1000
  {
    Sub(WarmupTimeMs, elapsed) / 1000
  }

  /** One millisecond past the warm-up time the as-written countdown reports
      more than four million seconds. */
  lemma SecondsRemainingAsWrittenWraps()
    ensures SecondsRemainingAsWritten(WarmupTimeMs + 1) == 4294967
  {
  }

  /** The countdown of whole seconds left, never negative: zero once the
      warm-up time has elapsed. */
  function SecondsRemaining(elapsed: U32): (secs: nat)
    ensures secs <= WarmupTimeMs / 1000
    ensures elapsed <= WarmupTimeMs ==> secs == SecondsRemainingAsWritten(elapsed)
    ensures elapsed >= WarmupTimeMs ==> secs == 0
  {
    if elapsed <= WarmupTimeMs then (WarmupTimeMs - elapsed) / 1000 else 0
  }

  /** The countdown never goes up as time passes. */
  lemma SecondsRemainingNonIncreasing(e1: U32, e2: U32)
    requires e1 <= e2
    ensures SecondsRemaining(e2) <= SecondsRemaining(e1)
  {
  }

  /* ---------------- One loop() iteration ---------------- */

  /** The values the cycle takes from the hardware: the clock at the gate
      check, the ADC sample, and the clock read again by the countdown. */
  datatype Inputs = Inputs(gateClock: U32, raw: int, countdownClock: U32)

  datatype Report = Published(doc: Document) | Countdown(secondsRemaining: nat)

  /** The externally visible effects of one cycle: what it reported, whether
      the MQTT client was serviced, and how long it slept. */
  datatype Effects = Effects(report: Report, serviced: bool, delayMs: nat)

  datatype StepResult = StepResult(next: NodeState, effects: Effects)

  /** One loop() iteration: the gate check, then either a read and a publish
      or the countdown exactly as the firmware prints it, then client
      servicing and the delay in both cases. */
  function Step(s: NodeState, inp: Inputs): (out: StepResult)
    ensures out.next.warmupStart == s.warmupStart
    ensures out.next.sensorReady <==> s.sensorReady || GateOpens(s.warmupStart, inp.gateClock)
    ensures out.effects.report.Published? <==> out.next.sensorReady
    ensures out.effects.report.Published? ==> out.effects.report.doc == PublishDocument(ReadPpm(inp.raw))
    ensures out.effects.report.Countdown? ==>
      out.effects.report.secondsRemaining == SecondsRemainingAsWritten(Sub(inp.countdownClock, s.warmupStart))
    ensures out.effects.report.Countdown? && Sub(inp.countdownClock, s.warmupStart) <= WarmupTimeMs ==>
      out.effects.report.secondsRemaining <= 20
    ensures out.effects.serviced && out.effects.delayMs == LoopDelayMs
  {
    var next := Gate(s, inp.gateClock);
    var report :=
      if next.sensorReady then Published(PublishDocument(ReadPpm(inp.raw)))
      else Countdown(SecondsRemainingAsWritten(Sub(inp.countdownClock, s.warmupStart)));
    StepResult(next, Effects(report, true, LoopDelayMs))
  }

  /** The cycle of a boot at clock 0 whose gate check sees exactly the warm-up
      time and whose countdown clock has ticked once more. */
  lemma StepCountdownWrapsExample()
    ensures Step(Boot(0), Inputs(20000, 0, 20001)).effects.report == Countdown(4294967)
  {
  }

  /** The cycle with the countdown saturating at zero: identical to `Step`
      except that the reported countdown is never above 20 seconds. */
  function StepCorrected(s: NodeState, inp: Inputs): (out: StepResult)
    ensures out.next == Step(s, inp).next
    ensures out.effects.serviced && out.effects.delayMs == LoopDelayMs
    ensures out.effects.report.Published? <==> Step(s, inp).effects.report.Published?
    ensures out.effects.report.Published? ==> out.effects.report == Step(s, inp).effects.report
    ensures out.effects.report.Countdown? ==> out.effects.report.secondsRemaining <= 20
    ensures Sub(inp.countdownClock, s.warmupStart) <= WarmupTimeMs ==> out == Step(s, inp)
  {
    var out := Step(s, inp);
    if out.effects.report.Countdown? then
      var secs := SecondsRemaining(Sub(inp.countdownClock, s.warmupStart));
      StepResult(out.next, out.effects.(report := Countdown(secs)))
    else
      out
  }

  /* ---------------- Sequences of cycles ---------------- */

  /** The final state and the per-cycle effects of running the loop over a
      sequence of inputs. */
  function Run(s: NodeState, ins: seq<Inputs>): (out: (NodeState, seq<Effects>))
    ensures |out.1| == |ins|
    ensures out.0.warmupStart == s.warmupStart
    ensures s.sensorReady ==> out.0.sensorReady
    ensures forall i :: 0 <= i < |ins| ==> out.1[i].serviced
    decreases |ins|
  {
    if |ins| == 0 then
      (s, [])
    else
      var before := Run(s, ins[..|ins| - 1]);
      var last := Step(before.0, ins[|ins| - 1]);
      (last.next, before.1 + [last.effects])
  }

  /** Some gate check among the first `n` cycles saw the warm-up time passed. */
  predicate OpenedWithin(start: U32, ins: seq<Inputs>, n: nat)
    requires n <= |ins|
  {
    exists j :: 0 <= j < n && GateOpens(start, ins[j].gateClock)
  }

  lemma OpenedWithinPrefix(start: U32, ins: seq<Inputs>, m: nat, n: nat)
    requires n <= m <= |ins|
    ensures OpenedWithin(start, ins[..m], n) <==> OpenedWithin(start, ins, n)
  {
  }

  /** The node is ready after a run exactly when it was ready before or one of
      the run's gate checks saw the warm-up time passed. */
  lemma {:induction false} ReadyIffGateOpened(s: NodeState, ins: seq<Inputs>)
    ensures Run(s, ins).0.sensorReady <==> s.sensorReady || OpenedWithin(s.warmupStart, ins, |ins|)
    decreases |ins|
  {
    if |ins| > 0 {
      var n := |ins| - 1;
      ReadyIffGateOpened(s, ins[..n]);
      OpenedWithinPrefix(s.warmupStart, ins, n, n);
      if OpenedWithin(s.warmupStart, ins, |ins|) && !OpenedWithin(s.warmupStart, ins, n) {
        var j :| 0 <= j < |ins| && GateOpens(s.warmupStart, ins[j].gateClock);
        assert j == n;
      }
    }
  }

  /** Cycle `i` of a run publishes exactly when it or an earlier gate check saw
      the warm-up time passed (or the node started ready); every other cycle
      reports a countdown. */
  lemma {:induction false} PublishesIffGateOpened(s: NodeState, ins: seq<Inputs>, i: nat)
    requires i < |ins|
    ensures Run(s, ins).1[i].report.Published? <==> s.sensorReady || OpenedWithin(s.warmupStart, ins, i + 1)
    decreases |ins|
  {
    var n := |ins| - 1;
    if i < n {
      PublishesIffGateOpened(s, ins[..n], i);
      OpenedWithinPrefix(s.warmupStart, ins, n, i + 1);
    } else {
      ReadyIffGateOpened(s, ins);
    }
  }

}
