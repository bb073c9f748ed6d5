/**
 * The sensor-data hook: telemetry readings, the fixed pressure-drop alert
 * rule, the two bounded stores (readings and alerts) that every tick
 * replaces, and the KPI block derived from them.
 *
 * Every value the hook draws from Math.random() or the clock is a
 * parameter here: a reading arrives whole, the draws an alert consumes come
 * in an AlertDraws value, the connectivity flag is passed to the tick and
 * the current time is passed to the KPIs.
 */
module Telemetry {
  import opened Wrappers

  /** Readings kept by the hook: `slice(-50)`. */
  const ReadingCapacity: nat := 50
  /** Alerts kept by the hook: `slice(0, 20)`. */
  const AlertCapacity: nat := 20
  /** Readings the KPIs look at: `slice(-10)`. */
  const KpiWindow: nat := 10
  /** Pressure (kPa) below which a reading raises an alert. */
  const AlertThreshold: real := 450.0
  /** Pressure (kPa) below which that alert is critical. */
  const CriticalThreshold: real := 400.0
  /** Horizon of the alert rate: one hour in milliseconds. */
  const HourMs: int := 3600000
  /** The evidence window every alert reports, in seconds. */
  const EvidenceWindowS: int := 30
  const AlertType: string := "pressure_drop_anomaly"
  const AlertIdPrefix: string := "ALT-"
  const ValveIdPrefix: string := "VALV-"
  const PrescribedAction: string := "close_valve_partial"
  const PrescribedRationale: string := "Sustained pressure drop with constant flow detected"
  const ZScoreFeature: string := "zscore_pressure"
  const SlopeFeature: string := "dP_dt"
  const UptimeConnected: real := 99.8
  const UptimeDisconnected: real := 98.5

  function Min(a: int, b: int): int { if a <= b then a else b }
  function Max(a: int, b: int): int { if a >= b then a else b }

  // ------------------------------------------------------------------ data

  datatype Severity = Low | Medium | High | Critical

  datatype Sensors = Sensors(pressureKpa: real, flowLpm: real, temperatureC: real)

  datatype Meta = Meta(fwVersion: string, rssi: real, batteryV: real)

  /** One sample of one node; `timestamp` is the reading's time in milliseconds. */
  datatype SensorReading = SensorReading(
    timestamp: int,
    hospitalId: string,
    plantaId: string,
    nodeId: string,
    sensors: Sensors,
    meta: Meta)

  datatype AlertContext = AlertContext(hospitalId: string, plantaId: string, nodeId: string)

  datatype Evidence = Evidence(score: real, windowS: int, features: map<string, real>)

  datatype Prescription = Prescription(action: string, actuatorId: string, rationale: string)

  datatype AnomalyAlert = AnomalyAlert(
    id: string,
    timestamp: int,
    severity: Severity,
    alertType: string,
    context: AlertContext,
    evidence: Evidence,
    prescription: Option<Prescription>)

  // ------------------------------------------------------------ alert rule

  /**
   * The random values one generated alert consumes: the base-36 id suffix
   * (`Math.random().toString(36).substr(2, 4)`, so at most four digits) and
   * four uniform draws in [0, 1) for the score, the two features and the
   * valve number.
   */
  datatype AlertDraws = AlertDraws(idSuffix: string, score: real, zscore: real, slope: real, valve: real)

  predicate IsUnitDraw(u: real) { 0.0 <= u < 1.0 }

  predicate IsBase36Digit(c: char) { '0' <= c <= '9' || 'a' <= c <= 'z' }

  predicate ValidDraws(d: AlertDraws) {
    && |d.idSuffix| <= 4
    && (forall i :: 0 <= i < |d.idSuffix| ==> IsBase36Digit(d.idSuffix[i]))
    && IsUnitDraw(d.score) && IsUnitDraw(d.zscore) && IsUnitDraw(d.slope) && IsUnitDraw(d.valve)
  }

  function DigitChar(d: nat): (c: char)
    requires d < 10
    ensures '0' <= c <= '9' && c as int - '0' as int == d
  {
    ('0' as int + d) as char
  }

  /** The decimal text a template literal gives a natural number. */
  function DecimalString(n: nat): (s: string)
    ensures |s| >= 1
    ensures forall i :: 0 <= i < |s| ==> '0' <= s[i] <= '9'
    ensures n > 0 ==> s[0] != '0'
    ensures |s| == 1 <==> n < 10
  {
    if n < 10 then [DigitChar(n)] else DecimalString(n / 10) + [DigitChar(n % 10)]
  }

  /** The value of a string of decimal digits, read most significant first. */
  function DecimalValue(s: string): nat
    requires forall i :: 0 <= i < |s| ==> '0' <= s[i] <= '9'
  {
    if s == [] then 0
    else DecimalValue(s[..|s| - 1]) * 10 + (s[|s| - 1] as int - '0' as int)
  }

  /** Reading the printed number back gives the number. */
  lemma {:induction false} DecimalRoundTrip(n: nat)
    ensures DecimalValue(DecimalString(n)) == n
  {
    var s := DecimalString(n);
    if n >= 10 {
      DecimalRoundTrip(n / 10);
      assert s[..|s| - 1] == DecimalString(n / 10);
    }
  }

  /** `Math.floor(u * 10) + 1` for a draw u: a valve number from 1 to 10. */
  function ValveNumber(u: real): (k: int)
    requires IsUnitDraw(u)
    ensures 1 <= k <= 10
  {
    (u * 10.0).Floor + 1
  }

  /**
   * `VALV-${k}`: the prefix, then the digits of k, which read back as k and
   * have no leading zero.
   */
  function ValveId(k: nat): (id: string)
    ensures |id| > |ValveIdPrefix| && id[..|ValveIdPrefix|] == ValveIdPrefix
    ensures forall i :: |ValveIdPrefix| <= i < |id| ==> '0' <= id[i] <= '9'
    ensures DecimalValue(id[|ValveIdPrefix|..]) == k
    ensures k > 0 ==> id[|ValveIdPrefix|] != '0'
  {
    DecimalRoundTrip(k);
    var id := ValveIdPrefix + DecimalString(k);
    assert id[|ValveIdPrefix|..] == DecimalString(k);
    id
  }

  /** The ten actuator ids a prescription can name. */
  predicate IsPrescribedValve(id: string) {
    exists k :: 1 <= k <= 10 && id == ValveId(k)
  }

  /** What every emitted alert takes from its reading and from the fixed rule. */
  predicate DescribesReading(a: AnomalyAlert, reading: SensorReading) {
    && a.timestamp == reading.timestamp
    && a.context == AlertContext(reading.hospitalId, reading.plantaId, reading.nodeId)
    && a.alertType == AlertType
    && a.evidence.windowS == EvidenceWindowS
    && a.prescription.Some?
    && a.prescription.value.action == PrescribedAction
    && a.prescription.value.rationale == PrescribedRationale
    && IsPrescribedValve(a.prescription.value.actuatorId)
    && |a.id| >= |AlertIdPrefix| && a.id[..|AlertIdPrefix|] == AlertIdPrefix
  }

  /** The ranges the random evidence values fall in. */
  predicate EvidenceInRange(e: Evidence) {
    && 0.85 <= e.score < 1.0
    && e.features.Keys == {ZScoreFeature, SlopeFeature}
    && -4.5 < e.features[ZScoreFeature] <= -2.5
    && -18.0 < e.features[SlopeFeature] <= -8.0
  }

  /**
   * `generateAlert`: an alert exactly for a pressure below 450 kPa, critical
   * exactly below 400 kPa and high otherwise, never low or medium.
   */
  function GenerateAlert(reading: SensorReading, d: AlertDraws): (r: Option<AnomalyAlert>)
    requires ValidDraws(d)
    ensures r.Some? <==> reading.sensors.pressureKpa < AlertThreshold
    ensures r.Some? ==> (r.value.severity == Critical <==> reading.sensors.pressureKpa < CriticalThreshold)
    ensures r.Some? ==> r.value.severity != Low && r.value.severity != Medium
    ensures r.Some? ==> DescribesReading(r.value, reading)
    ensures r.Some? ==> EvidenceInRange(r.value.evidence)
  {
    var p := reading.sensors.pressureKpa;
    if p < AlertThreshold then
      var k := ValveNumber(d.valve);
      Some(AnomalyAlert(
        AlertIdPrefix + d.idSuffix,
        reading.timestamp,
        if p < CriticalThreshold then Critical else High,
        AlertType,
        AlertContext(reading.hospitalId, reading.plantaId, reading.nodeId),
        Evidence(
          0.85 + d.score * 0.15,
          EvidenceWindowS,
          map[ZScoreFeature := -2.5 - d.zscore * 2.0, SlopeFeature := -8.0 - d.slope * 10.0]),
        Some(Prescription(PrescribedAction, ValveId(k), PrescribedRationale))))
    else
      None
  }

  // --------------------------------------------------------- bounded stores

  /** `s.slice(-n)` for a positive n: the last min(n, |s|) elements. */
  function TakeLast<T>(s: seq<T>, n: nat): (r: seq<T>)
    requires n > 0
    ensures |r| == Min(n, |s|)
    ensures r == s[|s| - |r|..]
  {
    if |s| <= n then s else s[|s| - n..]
  }

  /** `s.slice(0, n)`: the first min(n, |s|) elements. */
  function TakeFirst<T>(s: seq<T>, n: nat): (r: seq<T>)
    ensures |r| == Min(n, |s|)
    ensures r == s[..|r|]
  {
    if |s| <= n then s else s[..n]
  }

  /**
   * The readings buffer after one tick: the new reading is last, the buffer
   * grows until it holds 50 readings and then drops its oldest one.
   */
  function AppendReading(buffer: seq<SensorReading>, reading: SensorReading): (b: seq<SensorReading>)
    ensures |b| == Min(|buffer| + 1, ReadingCapacity)
    ensures b[|b| - 1] == reading
    ensures |buffer| < ReadingCapacity ==> b == buffer + [reading]
    ensures |buffer| >= ReadingCapacity ==> b == buffer[|buffer| - (ReadingCapacity - 1)..] + [reading]
  {
    TakeLast(buffer + [reading], ReadingCapacity)
  }

  /**
   * The alert list after one emitted alert: the new alert first, the list
   * grows until it holds 20 alerts, and the survivors keep their order.
   */
  function PushAlert(alerts: seq<AnomalyAlert>, alert: AnomalyAlert): (r: seq<AnomalyAlert>)
    ensures |r| == Min(|alerts| + 1, AlertCapacity)
    ensures r[0] == alert
    ensures r[1..] == alerts[..|r| - 1]
  {
    TakeFirst([alert] + alerts, AlertCapacity)
  }

  /** The alert branch of the tick: no alert leaves the list as it was. */
  function RecordAlert(alerts: seq<AnomalyAlert>, alert: Option<AnomalyAlert>): (r: seq<AnomalyAlert>)
    ensures alert.None? ==> r == alerts
    ensures alert.Some? ==> r == PushAlert(alerts, alert.value)
  {
    match alert
    case None => alerts
    case Some(a) => PushAlert(alerts, a)
  }

  /** The readings buffer after a run of ticks, one reading each. */
  function FeedReadings(buffer: seq<SensorReading>, rs: seq<SensorReading>): seq<SensorReading>
    decreases |rs|
  {
    if rs == [] then buffer else FeedReadings(AppendReading(buffer, rs[0]), rs[1..])
  }

  /** The alert list after a run of emitted alerts, oldest emitted first. */
  function FeedAlerts(alerts: seq<AnomalyAlert>, xs: seq<AnomalyAlert>): seq<AnomalyAlert>
    decreases |xs|
  {
    if xs == [] then alerts else FeedAlerts(PushAlert(alerts, xs[0]), xs[1..])
  }

  /** The elements of s, last first. */
  function Reversed<T>(s: seq<T>): (r: seq<T>)
    ensures |r| == |s|
  {
    if s == [] then [] else Reversed(s[1..]) + [s[0]]
  }

  /** Position i of the reversal holds the element i places from the end. */
  lemma {:induction false} ReversedAt<T>(s: seq<T>, i: int)
    requires 0 <= i < |s|
    ensures Reversed(s)[i] == s[|s| - 1 - i]
    decreases |s|
  {
    assert Reversed(s) == Reversed(s[1..]) + [s[0]];
    if i < |s| - 1 {
      ReversedAt(s[1..], i);
    }
  }

  lemma TakeLastOfTakeLast<T>(x: seq<T>, y: seq<T>, n: nat)
    requires n > 0
    ensures TakeLast(TakeLast(x, n) + y, n) == TakeLast(x + y, n)
  {
    if |x| > n {
      var t := x[|x| - n..];
      assert x + y == x[..|x| - n] + (t + y);
      if |t + y| > n {
        assert (x + y)[|x + y| - n..] == (t + y)[|t + y| - n..];
      }
    }
  }

  lemma TakeFirstOfTakeFirst<T>(p: seq<T>, q: seq<T>, n: nat)
    ensures TakeFirst(p + TakeFirst(q, n), n) == TakeFirst(p + q, n)
  {
    if |q| > n {
      var t := q[..n];
      if |p + t| > n {
        assert (p + t)[..n] == (p + q)[..n];
      } else {
        assert p + t == (p + q)[..|p + t|];
      }
    }
  }

  /**
   * However many readings arrive, the buffer holds the last
   * min(50, |buffer + rs|) of them in arrival order.
   */
  lemma {:induction false} FeedReadingsKeepsNewest(buffer: seq<SensorReading>, rs: seq<SensorReading>)
    requires |buffer| <= ReadingCapacity
    ensures FeedReadings(buffer, rs) == TakeLast(buffer + rs, ReadingCapacity)
    ensures |FeedReadings(buffer, rs)| <= ReadingCapacity
    decreases |rs|
  {
    if rs == [] {
      assert buffer + rs == buffer;
    } else {
      var b := AppendReading(buffer, rs[0]);
      FeedReadingsKeepsNewest(b, rs[1..]);
      TakeLastOfTakeLast(buffer + [rs[0]], rs[1..], ReadingCapacity);
      assert buffer + [rs[0]] + rs[1..] == buffer + rs;
    }
  }

  /**
   * However many alerts are emitted, the list holds the last
   * min(20, |xs| + |alerts|) of them, newest first.
   */
  lemma {:induction false} FeedAlertsKeepsNewest(alerts: seq<AnomalyAlert>, xs: seq<AnomalyAlert>)
    requires |alerts| <= AlertCapacity
    ensures FeedAlerts(alerts, xs) == TakeFirst(Reversed(xs) + alerts, AlertCapacity)
    decreases |xs|
  {
    if xs == [] {
      assert Reversed(xs) + alerts == alerts;
    } else {
      var a := PushAlert(alerts, xs[0]);
      FeedAlertsKeepsNewest(a, xs[1..]);
      TakeFirstOfTakeFirst(Reversed(xs[1..]), [xs[0]] + alerts, AlertCapacity);
      assert Reversed(xs[1..]) + ([xs[0]] + alerts) == Reversed(xs) + alerts;
    }
  }

  /** Feeding K + 5 alerts into an empty list leaves exactly the K newest, newest first. */
  lemma FeedAlertsOverflow(xs: seq<AnomalyAlert>)
    requires |xs| == AlertCapacity + 5
    ensures FeedAlerts([], xs) == Reversed(xs)[..AlertCapacity]
    ensures forall i :: 0 <= i < AlertCapacity ==> FeedAlerts([], xs)[i] == xs[|xs| - 1 - i]
  {
    FeedAlertsKeepsNewest([], xs);
    assert Reversed(xs) + [] == Reversed(xs);
    forall i | 0 <= i < AlertCapacity ensures Reversed(xs)[i] == xs[|xs| - 1 - i] {
      ReversedAt(xs, i);
    }
  }

  // ------------------------------------------------------------------ KPIs

  /** The readings the KPIs are computed over. */
  function RecentReadings(readings: seq<SensorReading>): (w: seq<SensorReading>)
    ensures |w| == Min(KpiWindow, |readings|)
    ensures w == readings[|readings| - |w|..]
  {
    TakeLast(readings, KpiWindow)
  }

  /** `new Set(s.map(r => r.nodeId))`. */
  function NodeIds(s: seq<SensorReading>): (ids: set<string>)
    ensures forall i :: 0 <= i < |s| ==> s[i].nodeId in ids
    ensures forall id :: id in ids ==> exists i :: 0 <= i < |s| && s[i].nodeId == id
  {
    set i | 0 <= i < |s| :: s[i].nodeId
  }

  lemma {:induction false} NodeIdsBound(s: seq<SensorReading>)
    ensures |NodeIds(s)| <= |s|
  {
    if s != [] {
      var t := s[..|s| - 1];
      NodeIdsBound(t);
      assert NodeIds(s) == NodeIds(t) + {s[|s| - 1].nodeId} by {
        forall id | id in NodeIds(s) ensures id in NodeIds(t) + {s[|s| - 1].nodeId} {
          var i :| 0 <= i < |s| && s[i].nodeId == id;
          if i < |s| - 1 { assert t[i] == s[i]; }
        }
      }
    }
  }

  /** `activeNodes`: the number of distinct node ids among the last ten readings. */
  function ActiveNodes(readings: seq<SensorReading>): (n: nat)
    ensures n <= Min(KpiWindow, |readings|)
    ensures n == 0 <==> readings == []
  {
    var w := RecentReadings(readings);
    NodeIdsBound(w);
    assert w != [] ==> w[0].nodeId in NodeIds(w);
    |NodeIds(w)|
  }

  /** The `reduce` over the pressures, folded from the left starting at 0. */
  function SumPressure(s: seq<SensorReading>): real {
    if s == [] then 0.0 else SumPressure(s[..|s| - 1]) + s[|s| - 1].sensors.pressureKpa
  }

  /** The sum over two consecutive windows is the sum of their sums: the fold's order does not matter. */
  lemma {:induction false} SumPressureConcat(s: seq<SensorReading>, t: seq<SensorReading>)
    ensures SumPressure(s + t) == SumPressure(s) + SumPressure(t)
    decreases |t|
  {
    if t == [] {
      assert s + t == s;
    } else {
      var t' := t[..|t| - 1];
      assert (s + t)[..|s + t| - 1] == s + t';
      SumPressureConcat(s, t');
    }
  }

  function MinPressure(s: seq<SensorReading>): (m: real)
    requires s != []
    ensures forall i :: 0 <= i < |s| ==> m <= s[i].sensors.pressureKpa
    ensures exists i :: 0 <= i < |s| && m == s[i].sensors.pressureKpa
  {
    var last := s[|s| - 1].sensors.pressureKpa;
    if |s| == 1 then last
    else
      var m := MinPressure(s[..|s| - 1]);
      assert forall i :: 0 <= i < |s| - 1 ==> s[..|s| - 1][i] == s[i];
      if m <= last then m else last
  }

  function MaxPressure(s: seq<SensorReading>): (m: real)
    requires s != []
    ensures forall i :: 0 <= i < |s| ==> s[i].sensors.pressureKpa <= m
    ensures exists i :: 0 <= i < |s| && m == s[i].sensors.pressureKpa
  {
    var last := s[|s| - 1].sensors.pressureKpa;
    if |s| == 1 then last
    else
      var m := MaxPressure(s[..|s| - 1]);
      assert forall i :: 0 <= i < |s| - 1 ==> s[..|s| - 1][i] == s[i];
      if m >= last then m else last
  }

  /** A sum of pressures that all lie in [lo, hi] lies between |s| * lo and |s| * hi. */
  lemma {:induction false} SumPressureBounds(s: seq<SensorReading>, lo: real, hi: real)
    requires forall i :: 0 <= i < |s| ==> lo <= s[i].sensors.pressureKpa <= hi
    ensures (|s| as real) * lo <= SumPressure(s) <= (|s| as real) * hi
  {
    if s != [] {
      var t := s[..|s| - 1];
      assert forall i :: 0 <= i < |t| ==> t[i] == s[i];
      SumPressureBounds(t, lo, hi);
    }
  }

  /** The mean pressure of a non-empty window. */
  function MeanPressure(w: seq<SensorReading>): real
    requires w != []
  {
    SumPressure(w) / (|w| as real)
  }

  /** When every pressure of a non-empty window lies in [lo, hi], so does their mean. */
  lemma MeanWithin(w: seq<SensorReading>, lo: real, hi: real)
    requires w != []
    requires forall i :: 0 <= i < |w| ==> lo <= w[i].sensors.pressureKpa <= hi
    ensures lo <= MeanPressure(w) <= hi
  {
    SumPressureBounds(w, lo, hi);
    DivideBounds(SumPressure(w), |w| as real, lo, hi);
  }

  /** The mean of a non-empty window lies between its least and greatest pressure. */
  lemma MeanBetweenExtremes(w: seq<SensorReading>)
    requires w != []
    ensures MinPressure(w) <= MeanPressure(w) <= MaxPressure(w)
  {
    MeanWithin(w, MinPressure(w), MaxPressure(w));
  }

  lemma DivideBounds(sum: real, n: real, lo: real, hi: real)
    requires n > 0.0
    requires n * lo <= sum <= n * hi
    ensures lo <= sum / n <= hi
  {
    assert sum == (sum / n) * n;
  }

  /**
   * `avgPressure`: the mean pressure of the last ten readings, with the count
   * floored at 1 so that an empty buffer gives 0.
   */
  function AvgPressure(readings: seq<SensorReading>): (avg: real)
    ensures readings == [] ==> avg == 0.0
    ensures readings != [] ==> avg == MeanPressure(RecentReadings(readings))
    ensures readings != [] ==>
      MinPressure(RecentReadings(readings)) <= avg <= MaxPressure(RecentReadings(readings))
  {
    var w := RecentReadings(readings);
    if w == [] then 0.0 / 1.0
    else
      MeanBetweenExtremes(w);
      SumPressure(w) / (Max(|w|, 1) as real)
  }

  /** An alert counts toward the rate when it is less than an hour older than `now`. */
  predicate WithinLastHour(a: AnomalyAlert, now: int) {
    now - a.timestamp < HourMs
  }

  /** The `filter` of the alert rate, keeping order. */
  function AlertsWithinHour(alerts: seq<AnomalyAlert>, now: int): (r: seq<AnomalyAlert>)
    ensures |r| <= |alerts|
    ensures forall a :: a in r <==> a in alerts && WithinLastHour(a, now)
    ensures (forall i :: 0 <= i < |alerts| ==> WithinLastHour(alerts[i], now)) ==> r == alerts
  {
    if alerts == [] then []
    else
      var last := alerts[|alerts| - 1];
      var kept := AlertsWithinHour(alerts[..|alerts| - 1], now);
      assert alerts == alerts[..|alerts| - 1] + [last];
      if WithinLastHour(last, now) then kept + [last] else kept
  }

  /** The positions of the alerts of the last hour. */
  function IndicesWithinHour(alerts: seq<AnomalyAlert>, now: int): set<int> {
    set i | 0 <= i < |alerts| && WithinLastHour(alerts[i], now)
  }

  /** Adding an alert at the end adds its position exactly when it is of the last hour. */
  lemma IndicesWithinHourStep(alerts: seq<AnomalyAlert>, now: int)
    requires alerts != []
    ensures |IndicesWithinHour(alerts, now)|
         == |IndicesWithinHour(alerts[..|alerts| - 1], now)| + if WithinLastHour(alerts[|alerts| - 1], now) then 1 else 0
  {
    var n := |alerts| - 1;
    var prefix := alerts[..n];
    var before, after := IndicesWithinHour(prefix, now), IndicesWithinHour(alerts, now);
    var added: set<int> := if WithinLastHour(alerts[n], now) then {n} else {};
    assert after == before + added by {
      forall i ensures i in after <==> i in before + added {
        if 0 <= i < n { assert prefix[i] == alerts[i]; }
      }
    }
    assert n !in before;
  }

  /** The filter keeps one entry per alert of the last hour, duplicates included. */
  lemma {:induction false} AlertsWithinHourCounts(alerts: seq<AnomalyAlert>, now: int)
    ensures |AlertsWithinHour(alerts, now)| == |IndicesWithinHour(alerts, now)|
  {
    if alerts != [] {
      AlertsWithinHourCounts(alerts[..|alerts| - 1], now);
      IndicesWithinHourStep(alerts, now);
    }
  }

  /** `alertRate`: the number of alerts of the last hour. */
  function AlertRate(alerts: seq<AnomalyAlert>, now: int): (n: nat)
    ensures n == |IndicesWithinHour(alerts, now)|
    ensures n <= |alerts|
    ensures (forall i :: 0 <= i < |alerts| ==> WithinLastHour(alerts[i], now)) ==> n == |alerts|
    ensures (forall i :: 0 <= i < |alerts| ==> !WithinLastHour(alerts[i], now)) ==> n == 0
  {
    var r := AlertsWithinHour(alerts, now);
    assert r != [] ==> r[0] in r;
    AlertsWithinHourCounts(alerts, now);
    |r|
  }

  /** `systemUptime`: a two-valued mapping of the current connectivity flag. */
  function SystemUptime(connected: bool): (u: real)
    ensures connected <==> u == UptimeConnected
    ensures !connected <==> u == UptimeDisconnected
  {
    if connected then UptimeConnected else UptimeDisconnected
  }

  datatype KpiSnapshot = KpiSnapshot(activeNodes: nat, avgPressure: real, alertRate: nat, systemUptime: real)

  /** The `kpis` block over the hook's state and the current time. */
  function ComputeKpis(readings: seq<SensorReading>, alerts: seq<AnomalyAlert>, connected: bool, now: int): (k: KpiSnapshot)
    ensures k.activeNodes <= Min(KpiWindow, |readings|)
    ensures k.alertRate <= |alerts|
    ensures readings == [] ==> k.activeNodes == 0 && k.avgPressure == 0.0
    ensures k.systemUptime == if connected then UptimeConnected else UptimeDisconnected
  {
    KpiSnapshot(ActiveNodes(readings), AvgPressure(readings), AlertRate(alerts, now), SystemUptime(connected))
  }

  // ----------------------------------------------------------- hook state

  /** The hook's state: the readings and alerts buffers and the connectivity flag. */
  class SensorData {
    var readings: seq<SensorReading>
    var alerts: seq<AnomalyAlert>
    var isConnected: bool

    ghost predicate Valid()
      reads this
    {
      |readings| <= ReadingCapacity && |alerts| <= AlertCapacity
    }

    constructor ()
      ensures Valid()
      ensures readings == [] && alerts == [] && isConnected
    {
      readings := [];
      alerts := [];
      isConnected := true;
    }

    /**
     * One interval tick: append the reading, record the alert the rule
     * generates for it (if any) and store the connectivity flag.
     */
    method Tick(reading: SensorReading, draws: AlertDraws, connected: bool)
      requires Valid()
      requires ValidDraws(draws)
      modifies this
      ensures Valid()
      ensures readings == AppendReading(old(readings), reading)
      ensures alerts == RecordAlert(old(alerts), GenerateAlert(reading, draws))
      ensures isConnected == connected
    {
      readings := AppendReading(readings, reading);
      var alert := GenerateAlert(reading, draws);
      if alert.Some? {
        alerts := PushAlert(alerts, alert.value);
      }
      isConnected := connected;
    }

    /** The `kpis` block of the hook at time `now`. */
    function Kpis(now: int): (k: KpiSnapshot)
      reads this
      requires Valid()
      ensures k.activeNodes <= KpiWindow
      ensures k.alertRate <= AlertCapacity
      ensures k == ComputeKpis(readings, alerts, isConnected, now)
    {
      ComputeKpis(readings, alerts, isConnected, now)
    }
  }

  // -------------------------------------------------------------- scenario

  function NodeOneReading(t: int, pressure: real): SensorReading {
    SensorReading(t, "HSP-001", "OXI-A", "N1", Sensors(pressure, 20.0, 22.0), Meta("1.2.0", -70.0, 3.6))
  }

  /**
   * Three readings of node N1, two seconds apart, at 480, 478 and 395 kPa
   * into empty stores: three buffered readings, one critical alert that
   * prescribes closing a valve partially, one active node and a mean
   * pressure of 451 kPa.
   */
  lemma PressureDropScenario(d: AlertDraws)
    requires ValidDraws(d)
    ensures
      var r1, r2, r3 := NodeOneReading(0, 480.0), NodeOneReading(2000, 478.0), NodeOneReading(4000, 395.0);
      var rs := AppendReading(AppendReading(AppendReading([], r1), r2), r3);
      var xs := RecordAlert(RecordAlert(RecordAlert([], GenerateAlert(r1, d)), GenerateAlert(r2, d)), GenerateAlert(r3, d));
      var k := ComputeKpis(rs, xs, true, 4000);
      && rs == [r1, r2, r3]
      && |xs| == 1
      && xs[0].severity == Critical
      && xs[0].prescription.Some? && xs[0].prescription.value.action == PrescribedAction
      && k.avgPressure == 451.0
      && k.activeNodes == 1
      && k.alertRate == 1
  {
    var r1, r2, r3 := NodeOneReading(0, 480.0), NodeOneReading(2000, 478.0), NodeOneReading(4000, 395.0);
    var rs := [r1, r2, r3];
    assert AppendReading(AppendReading(AppendReading([], r1), r2), r3) == rs;
    assert RecentReadings(rs) == rs;
    assert [r1][..0] == [];
    assert [r1] + [r2] == [r1, r2] && [r1, r2] + [r3] == rs;
    SumPressureConcat([r1], [r2]);
    SumPressureConcat([r1, r2], [r3]);
    assert SumPressure(rs) == 1353.0;
    assert NodeIds(rs) == {"N1"};
  }
}
