/**
 * The recent-alerts panel: at most five rows, each with a title-cased type
 * label, the node badge, a rationale with a default, an optional
 * prescription line and a severity badge; an empty list shows the
 * all-clear message instead.
 *
 * JavaScript's `\w` (without the `u` flag) is the ASCII class
 * [A-Za-z0-9_], and `toUpperCase` on such a character only changes a-z,
 * so the character functions below are exact for every character.
 */
module AlertPanel {
  import opened Wrappers
  import opened Telemetry

  /** Rows shown: `alerts.slice(0, 5)`. */
  const MaxRows: nat := 5
  const DefaultRationale: string := "Anomaly detected in sensor data"
  const AllClearMessage: string := "All systems operating normally"

  // ------------------------------------------------------- severity badge

  datatype BadgeColor = StatusInfo | StatusWarning | StatusCritical

  datatype SeverityIcon = InfoIcon | AlertTriangleIcon | XCircleIcon

  datatype SeverityStyle = SeverityStyle(color: BadgeColor, icon: SeverityIcon, caption: string)

  /** The severity as the alert type spells it. */
  function SeverityName(s: Severity): string {
    match s
    case Low => "low"
    case Medium => "medium"
    case High => "high"
    case Critical => "critical"
  }

  /** `severityConfig`. */
  function SeverityConfig(s: Severity): (style: SeverityStyle)
    ensures (s == Medium || s == High) <==> style.color == StatusWarning
    ensures style.color == StatusCritical <==> s == Critical
    ensures style.color == StatusInfo <==> s == Low
  {
    match s
    case Low => SeverityStyle(StatusInfo, InfoIcon, "Low")
    case Medium => SeverityStyle(StatusWarning, AlertTriangleIcon, "Medium")
    case High => SeverityStyle(StatusWarning, AlertTriangleIcon, "High")
    case Critical => SeverityStyle(StatusCritical, XCircleIcon, "Critical")
  }

  /** Each badge label is its severity's name with the first letter capitalised. */
  lemma SeverityLabelIsTitleCasedName(s: Severity)
    ensures SeverityConfig(s).caption == TitleCase(SeverityName(s))
  {
  }

  /** Different severities get different labels. */
  lemma SeverityLabelsDistinct(s: Severity, t: Severity)
    requires s != t
    ensures SeverityConfig(s).caption != SeverityConfig(t).caption
  {
  }

  // ------------------------------------------------------ character level

  /** A character of the regular-expression class `\w`. */
  predicate IsWordChar(c: char) {
    'a' <= c <= 'z' || 'A' <= c <= 'Z' || '0' <= c <= '9' || c == '_'
  }

  /** `toUpperCase` of a one-character match of `\w`. */
  function ToUpper(c: char): (u: char)
    ensures IsWordChar(u) <==> IsWordChar(c)
    ensures 'a' <= c <= 'z' ==> 'A' <= u <= 'Z' && u as int == c as int - 32
    ensures !('a' <= c <= 'z') ==> u == c
  {
    if 'a' <= c <= 'z' then (c as int - 32) as char else c
  }

  /** `s.replace(/_/g, ' ')`. */
  function ReplaceUnderscores(s: string): (r: string)
    ensures |r| == |s|
    ensures forall i :: 0 <= i < |s| ==> r[i] == if s[i] == '_' then ' ' else s[i]
    ensures forall i :: 0 <= i < |r| ==> r[i] != '_'
  {
    seq(|s|, i requires 0 <= i < |s| => if s[i] == '_' then ' ' else s[i])
  }

  /** Position i starts a word of s: a word character at the start or after a non-word character. */
  predicate StartsWord(s: string, i: int)
    requires 0 <= i < |s|
  {
    IsWordChar(s[i]) && (i == 0 || !IsWordChar(s[i - 1]))
  }

  /** Every character that starts a word upper-cased, every other character left as it is. */
  function TitleCase(s: string): (r: string)
    ensures |r| == |s|
  {
    seq(|s|, i requires 0 <= i < |s| => if StartsWord(s, i) then ToUpper(s[i]) else s[i])
  }

  /**
   * `s.replace(/\b\w/g, l => l.toUpperCase())` as the regular-expression
   * engine scans it, left to right: a word character matches `\b\w` exactly
   * when the character before it (`afterWord` tells whether there is a word
   * character there) is not a word character.
   */
  function TitleCaseScan(s: string, afterWord: bool): (r: string)
    ensures |r| == |s|
    decreases |s|
  {
    if s == [] then []
    else
      var c := if IsWordChar(s[0]) && !afterWord then ToUpper(s[0]) else s[0];
      [c] + TitleCaseScan(s[1..], IsWordChar(s[0]))
  }

  lemma {:induction false} TitleCaseScanAt(s: string, afterWord: bool, i: int)
    requires 0 <= i < |s|
    ensures |TitleCaseScan(s, afterWord)| == |s|
    ensures TitleCaseScan(s, afterWord)[i] ==
      if IsWordChar(s[i]) && !(if i == 0 then afterWord else IsWordChar(s[i - 1]))
      then ToUpper(s[i]) else s[i]
    decreases |s|
  {
    if |s| == 1 {
    } else if i == 0 {
      TitleCaseScanAt(s[1..], IsWordChar(s[0]), 0);
    } else {
      TitleCaseScanAt(s[1..], IsWordChar(s[0]), i - 1);
    }
  }

  /**
   * The regular-expression scan from the start of the string upper-cases
   * exactly the characters that start a word: it is TitleCase.
   */
  lemma TitleCaseScanIsTitleCase(s: string)
    ensures TitleCaseScan(s, false) == TitleCase(s)
  {
    if s != [] {
      TitleCaseScanAt(s, false, 0);
      forall i | 0 <= i < |s| ensures TitleCaseScan(s, false)[i] == TitleCase(s)[i] {
        TitleCaseScanAt(s, false, i);
      }
    }
  }

  /** Title-casing twice is title-casing once. */
  lemma TitleCaseIdempotent(s: string)
    ensures TitleCase(TitleCase(s)) == TitleCase(s)
  {
    var t := TitleCase(s);
    assert forall i :: 0 <= i < |s| ==> IsWordChar(t[i]) == IsWordChar(s[i]);
    assert forall i :: 0 <= i < |s| ==> TitleCase(t)[i] == t[i];
  }

  // ------------------------------------------------------------ row texts

  /** The type label: underscores to spaces, then every word capitalised. */
  function TypeLabel(alertType: string): (caption: string)
    ensures |caption| == |alertType|
    ensures forall i :: 0 <= i < |caption| ==> caption[i] != '_'
  {
    TitleCase(ReplaceUnderscores(alertType))
  }

  /** The type label is what the two regular-expression replacements give, in that order. */
  lemma TypeLabelIsRegexReplace(alertType: string)
    ensures TypeLabel(alertType) == TitleCaseScan(ReplaceUnderscores(alertType), false)
  {
    TitleCaseScanIsTitleCase(ReplaceUnderscores(alertType));
  }

  /** A string without underscores is left alone by the underscore replacement. */
  lemma ReplaceUnderscoresNoop(s: string)
    requires forall i :: 0 <= i < |s| ==> s[i] != '_'
    ensures ReplaceUnderscores(s) == s
  {
  }

  /** Formatting a type label twice is formatting it once. */
  lemma TypeLabelIdempotent(alertType: string)
    ensures TypeLabel(TypeLabel(alertType)) == TypeLabel(alertType)
  {
    var caption := TypeLabel(alertType);
    ReplaceUnderscoresNoop(caption);
    TitleCaseIdempotent(ReplaceUnderscores(alertType));
  }

  /** The type every generated alert carries, as the panel shows it. */
  lemma PressureDropTypeLabel()
    ensures TypeLabel(AlertType) == "Pressure Drop Anomaly"
  {
    var spaced := ReplaceUnderscores(AlertType);
    assert spaced == "pressure drop anomaly";
  }

  /** The action label: underscores to spaces. */
  function ActionLabel(action: string): (caption: string)
    ensures |caption| == |action|
    ensures forall i :: 0 <= i < |action| ==> caption[i] == if action[i] == '_' then ' ' else action[i]
  {
    ReplaceUnderscores(action)
  }

  /** The action every generated alert prescribes, as the panel shows it. */
  lemma PrescribedActionLabel()
    ensures ActionLabel(PrescribedAction) == "close valve partial"
  {
    var spaced := ActionLabel(PrescribedAction);
    forall i | 0 <= i < |spaced| ensures spaced[i] == "close valve partial"[i] {
    }
  }

  /** `alert.prescription?.rationale || 'Anomaly detected in sensor data'`. */
  function RationaleText(p: Option<Prescription>): (text: string)
    ensures p.Some? && p.value.rationale != "" ==> text == p.value.rationale
    ensures p.None? || p.value.rationale == "" ==> text == DefaultRationale
    ensures text != ""
  {
    if p.Some? && p.value.rationale != "" then p.value.rationale else DefaultRationale
  }

  // ---------------------------------------------------------------- panel

  datatype PrescriptionLine = PrescriptionLine(actionLabel: string, actuatorId: string)

  /** What one alert row shows; `timestamp` is what the time label formats. */
  datatype AlertRow = AlertRow(
    key: string,
    typeLabel: string,
    nodeBadge: string,
    rationale: string,
    prescription: Option<PrescriptionLine>,
    badge: SeverityStyle,
    timestamp: int)

  datatype PanelView = AllClear(message: string) | Rows(rows: seq<AlertRow>)

  /** The first five alerts, in order. */
  function ShownAlerts(alerts: seq<AnomalyAlert>): (shown: seq<AnomalyAlert>)
    ensures |shown| == Min(MaxRows, |alerts|)
    ensures shown == alerts[..|shown|]
  {
    TakeFirst(alerts, MaxRows)
  }

  /** One alert's row. */
  function RenderRow(a: AnomalyAlert): (row: AlertRow)
    ensures row.key == a.id && row.nodeBadge == a.context.nodeId && row.timestamp == a.timestamp
    ensures row.prescription.Some? <==> a.prescription.Some?
    ensures a.prescription.Some? ==>
      row.prescription.value.actuatorId == a.prescription.value.actuatorId &&
      row.prescription.value.actionLabel == ActionLabel(a.prescription.value.action)
    ensures row.typeLabel == TypeLabel(a.alertType)
    ensures row.rationale == RationaleText(a.prescription)
    ensures row.badge == SeverityConfig(a.severity)
    ensures row.badge.caption == TitleCase(SeverityName(a.severity))
  {
    SeverityLabelIsTitleCasedName(a.severity);
    AlertRow(
      a.id,
      TypeLabel(a.alertType),
      a.context.nodeId,
      RationaleText(a.prescription),
      match a.prescription
      case None => None
      case Some(p) => Some(PrescriptionLine(ActionLabel(p.action), p.actuatorId)),
      SeverityConfig(a.severity),
      a.timestamp)
  }

  /**
   * The panel: the all-clear message exactly when there is no alert,
   * otherwise one row for each of the first min(5, |alerts|) alerts, in order.
   */
  function Render(alerts: seq<AnomalyAlert>): (view: PanelView)
    ensures view.AllClear? <==> alerts == []
    ensures view.AllClear? ==> view.message == AllClearMessage
    ensures view.Rows? ==> |view.rows| == Min(MaxRows, |alerts|) && |view.rows| <= MaxRows
    ensures view.Rows? ==> forall i :: 0 <= i < |view.rows| ==> view.rows[i] == RenderRow(alerts[i])
  {
    if |alerts| == 0 then AllClear(AllClearMessage)
    else
      var shown := ShownAlerts(alerts);
      Rows(seq(|shown|, i requires 0 <= i < |shown| => RenderRow(shown[i])))
  }

  /** Every row of an alert the sensor hook generated shows the fixed texts. */
  lemma GeneratedAlertRow(reading: SensorReading, d: AlertDraws)
    requires ValidDraws(d)
    requires reading.sensors.pressureKpa < AlertThreshold
    ensures
      var row := RenderRow(GenerateAlert(reading, d).value);
      && row.typeLabel == "Pressure Drop Anomaly"
      && row.rationale == PrescribedRationale
      && row.prescription.Some?
      && row.prescription.value.actionLabel == "close valve partial"
      && row.nodeBadge == reading.nodeId
      && (row.badge.caption == "Critical" <==> reading.sensors.pressureKpa < CriticalThreshold)
  {
    PressureDropTypeLabel();
    PrescribedActionLabel();
  }
}
