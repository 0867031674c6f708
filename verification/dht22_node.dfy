/** The temperature/humidity node: one DHT22 reading per cycle, a plausibility
    check, a three-LED alert pattern and a four-field telemetry document. */
module Dht22Node {

  import opened Wrappers
  import opened FloatSample
  import opened Telemetry

  /** Alert thresholds, in degrees Celsius and percent relative humidity. */
  const TempMaxThreshold: real := 30.0
  const HumidityMaxThreshold: real := 70.0

  /** Plausibility bounds applied before a reading is used. */
  const HumidityCeiling: real := 100.0
  const TempFloor: real := -40.0
  const TempCeiling: real := 80.0

  /** Milliseconds slept at the end of an accepted cycle. */
  const LoopDelayMs: nat := 2000

  datatype Reading = Reading(humidity: Sample, temperature: Sample)

  /* ---------------- Plausibility ---------------- */

  /** The reading passes the early-exit check of the main loop. Both temperature
      bounds and the humidity ceiling are inclusive; humidity has no floor. */
  predicate Plausible(r: Reading)
    ensures Plausible(r) <==>
      && r.humidity.Num? && r.temperature.Num?
      && r.humidity.value <= HumidityCeiling
      && TempFloor <= r.temperature.value <= TempCeiling
  {
    !(|| IsNaN(r.humidity)
      || IsNaN(r.temperature)
      || Exceeds(r.humidity, HumidityCeiling)
      || Below(r.temperature, TempFloor)
      || Exceeds(r.temperature, TempCeiling))
  }

  /** Negative humidity is let through: only the ceiling is checked. */
  lemma NegativeHumidityIsPlausible(h: real, t: real)
    requires h < 0.0 && TempFloor <= t <= TempCeiling
    ensures Plausible(Reading(Num(h), Num(t)))
  {
  }

  /* ---------------- LED policy ---------------- */

  datatype Leds = Leds(green: bool, red: bool, blue: bool)

  const AllOff: Leds := Leds(false, false, false)

  /** The LED pattern written for a temperature and a humidity. A NaN input
      switches everything off; otherwise RED flags a temperature strictly above
      its threshold, BLUE a humidity strictly above its threshold, and GREEN is
      lit exactly when neither alert is. */
  function UpdateLeds(temperature: Sample, humidity: Sample): (l: Leds)
    ensures temperature.NaN? || humidity.NaN? ==> l == AllOff
    ensures temperature.Num? && humidity.Num? ==>
      && (l.red <==> temperature.value > TempMaxThreshold)
      && (l.blue <==> humidity.value > HumidityMaxThreshold)
    ensures l.green <==> temperature.Num? && humidity.Num? && !l.red && !l.blue
    ensures !(l.green && (l.red || l.blue))
  {
    if IsNaN(temperature) || IsNaN(humidity) then
      AllOff
    else
      var tempAlert := Exceeds(temperature, TempMaxThreshold);
      var humidityAlert := Exceeds(humidity, HumidityMaxThreshold);
      Leds(!tempAlert && !humidityAlert, tempAlert, humidityAlert)
  }

  /** The thresholds are strict: a reading exactly at both leaves only GREEN on. */
  lemma ThresholdsAreStrict()
    ensures UpdateLeds(Num(TempMaxThreshold), Num(HumidityMaxThreshold)) == Leds(true, false, false)
  {
  }

  /* ---------------- Published document ---------------- */

  datatype Status = Normal | Alert

  /** The status string of one metric against its maximum. */
  function StatusOf(x: Sample, max: real): (s: Status)
    ensures s == Alert <==> x.Num? && x.value > max
  {
    if Exceeds(x, max) then Alert else Normal
  }

  function StatusText(s: Status): (text: string)
    ensures text == "Alert" || text == "Normal"
    ensures text == "Alert" <==> s == Alert
  {
    match s
    case Alert => "Alert"
    case Normal => "Normal"
  }

  const DocumentKeys: set<string> :=
    {"humidity", "temperature", "temperatureStatus", "humidityStatus"}

  /** The document handed to the serializer: the two readings and a status
      string for each, computed with the same thresholds as the LEDs. */
  function PublishDocument(h: Sample, t: Sample): (d: Document)
    ensures d.Keys == DocumentKeys
    ensures d["humidity"] == Number(h) && d["temperature"] == Number(t)
    ensures d["temperatureStatus"] == Text("Alert") || d["temperatureStatus"] == Text("Normal")
    ensures d["humidityStatus"] == Text("Alert") || d["humidityStatus"] == Text("Normal")
    ensures d["temperatureStatus"] == Text("Alert") <==> t.Num? && t.value > TempMaxThreshold
    ensures d["humidityStatus"] == Text("Alert") <==> h.Num? && h.value > HumidityMaxThreshold
  {
    map[
      "humidity" := Number(h),
      "temperature" := Number(t),
      "temperatureStatus" := Text(StatusText(StatusOf(t, TempMaxThreshold))),
      "humidityStatus" := Text(StatusText(StatusOf(h, HumidityMaxThreshold)))
    ]
  }

  /* ---------------- One loop() iteration ---------------- */

  /** What the node keeps between cycles: the LED outputs as last written. */
  datatype NodeState = NodeState(leds: Leds)

  /** The externally visible effects of one cycle: the LED pattern written (if
      any), the document published (if any), whether the MQTT client was
      serviced, and how long the cycle slept. */
  datatype Effects = Effects(ledWrite: Option<Leds>, published: Option<Document>,
                             serviced: bool, delayMs: nat)

  /** The effects of a cycle that returned early. */
  const Abandoned: Effects := Effects(None, None, false, 0)

  datatype StepResult = StepResult(next: NodeState, effects: Effects)

  /** One loop() iteration for a reading taken from the sensor. */
  function Step(s: NodeState, r: Reading): (out: StepResult)
    ensures !Plausible(r) ==> out.next == s && out.effects == Abandoned
    ensures Plausible(r) ==>
      && out.effects.ledWrite == Some(out.next.leds)
      && out.effects.published.Some?
      && out.effects.published.value.Keys == DocumentKeys
      && out.effects.serviced
      && out.effects.delayMs == LoopDelayMs
    ensures Plausible(r) ==>
      && out.next.leds == UpdateLeds(r.temperature, r.humidity)
      && out.effects.published == Some(PublishDocument(r.humidity, r.temperature))
    ensures Plausible(r) ==>
      && (out.next.leds.red <==> r.temperature.value > TempMaxThreshold)
      && (out.next.leds.blue <==> r.humidity.value > HumidityMaxThreshold)
      && out.effects.published.value["temperature"] == Number(r.temperature)
      && out.effects.published.value["humidity"] == Number(r.humidity)
    ensures Plausible(r) ==>
      && (out.effects.published.value["temperatureStatus"] == Text("Alert") <==> out.next.leds.red)
      && (out.effects.published.value["humidityStatus"] == Text("Alert") <==> out.next.leds.blue)
      && (out.next.leds.green <==>
            && out.effects.published.value["temperatureStatus"] == Text("Normal")
            && out.effects.published.value["humidityStatus"] == Text("Normal"))
  {
    if !Plausible(r) then
      StepResult(s, Abandoned)
    else
      var leds := UpdateLeds(r.temperature, r.humidity);
      var doc := PublishDocument(r.humidity, r.temperature);
      StepResult(NodeState(leds), Effects(Some(leds), Some(doc), true, LoopDelayMs))
  }

  /** The cycle for t = 32.5 and h = 65.0: a temperature alert only. */
  lemma TemperatureAlertExample(s: NodeState)
    ensures var out := Step(s, Reading(Num(65.0), Num(32.5)));
      && out.next.leds == Leds(false, true, false)
      && out.effects.published == Some(map[
           "humidity" := Number(Num(65.0)),
           "temperature" := Number(Num(32.5)),
           "temperatureStatus" := Text("Alert"),
           "humidityStatus" := Text("Normal")])
  {
  }

  /* ---------------- Sequences of cycles ---------------- */

  /** The final state and the per-cycle effects of running the loop over a
      sequence of readings. */
  function Run(s: NodeState, rs: seq<Reading>): (out: (NodeState, seq<Effects>))
    ensures |out.1| == |rs|
    ensures forall i :: 0 <= i < |rs| ==> (out.1[i].published.Some? <==> Plausible(rs[i]))
    ensures forall i :: 0 <= i < |rs| ==> (out.1[i].serviced <==> Plausible(rs[i]))
    ensures forall i :: 0 <= i < |rs| ==> (out.1[i].ledWrite.Some? <==> Plausible(rs[i]))
    decreases |rs|
  {
    if |rs| == 0 then
      (s, [])
    else
      var before := Run(s, rs[..|rs| - 1]);
      var last := Step(before.0, rs[|rs| - 1]);
      (last.next, before.1 + [last.effects])
  }

  /** The most recent plausible reading of a sequence, if there is one. */
  function LastPlausible(rs: seq<Reading>): (o: Option<Reading>)
    ensures o.None? <==> forall i :: 0 <= i < |rs| ==> !Plausible(rs[i])
    ensures o.Some? ==> Plausible(o.value) && o.value in rs
    decreases |rs|
  {
    if |rs| == 0 then None
    else if Plausible(rs[|rs| - 1]) then Some(rs[|rs| - 1])
    else LastPlausible(rs[..|rs| - 1])
  }

  /** The LEDs always show the pattern of the most recent plausible reading;
      implausible readings never touch them. */
  lemma {:induction false} LedsFollowLastPlausible(s: NodeState, rs: seq<Reading>)
    ensures Run(s, rs).0.leds ==
      match LastPlausible(rs)
      case None => s.leds
      case Some(r) => UpdateLeds(r.temperature, r.humidity)
    decreases |rs|
  {
    if |rs| > 0 {
      LedsFollowLastPlausible(s, rs[..|rs| - 1]);
    }
  }

  /** A run of implausible readings leaves the LEDs as they were and publishes,
      services and sleeps nothing. */
  lemma {:induction false} ImplausibleRunIsInert(s: NodeState, rs: seq<Reading>)
    requires forall i :: 0 <= i < |rs| ==> !Plausible(rs[i])
    ensures Run(s, rs).0 == s
    ensures forall i :: 0 <= i < |rs| ==> Run(s, rs).1[i] == Abandoned
    decreases |rs|
  {
    if |rs| > 0 {
      ImplausibleRunIsInert(s, rs[..|rs| - 1]);
      var before := Run(s, rs[..|rs| - 1]);
      assert Run(s, rs).1 == before.1 + [Abandoned];
    }
  }

}
