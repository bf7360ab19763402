/**
  The CSV export of the dashboard (`exportToCSV` in Frontend/src/components/DataExport.tsx): three
  tables (sensors, actuators, activity log), each rendered by `createCSV`, stacked under section
  titles. Number and date rendering (`toString`, `toISOString`, `toFixed(1)`) are opaque functions
  passed in.
*/
module DataExport {
  import opened Wrappers
  import opened Seqs
  import opened Text
  import opened Entities

  /** The platform's renderings: `Number.prototype.toString`, `Date.prototype.toISOString` on milliseconds, `toFixed(1)`. */
  datatype Formatters = Formatters(number: real -> string, isoTime: int -> string, fixed1: real -> string)

  /** A CSV cell as the exporter writes it: in double quotes, with nothing inside escaped. */
  function Quote(cell: string): (r: string)
    ensures |r| == |cell| + 2 && r[0] == '"' && r[|r| - 1] == '"' && r[1..|r| - 1] == cell
  {
    "\"" + cell + "\""
  }

  function QuoteAll(row: seq<string>): (r: seq<string>)
    ensures |r| == |row|
    ensures forall i :: 0 <= i < |row| ==> r[i] == Quote(row[i])
  {
    if |row| == 0 then [] else [Quote(row[0])] + QuoteAll(row[1..])
  }

  /** The inverse of `Quote` on quoted cells: drop the first and last character. */
  function Unquote(q: string): string {
    if |q| >= 2 then q[1..|q| - 1] else q
  }

  function UnquoteAll(qs: seq<string>): (r: seq<string>)
    ensures |r| == |qs|
    ensures forall i :: 0 <= i < |qs| ==> r[i] == Unquote(qs[i])
  {
    if |qs| == 0 then [] else [Unquote(qs[0])] + UnquoteAll(qs[1..])
  }

  /** The header line: the header cells joined by commas, not quoted. */
  function HeaderLine(headers: seq<string>): string {
    Join(headers, ",")
  }

  /** A data line: every cell quoted, joined by commas. */
  function RowLine(row: seq<string>): string {
    Join(QuoteAll(row), ",")
  }

  function RowLines(rows: seq<seq<string>>): (r: seq<string>)
    ensures |r| == |rows|
    ensures forall i :: 0 <= i < |rows| ==> r[i] == RowLine(rows[i])
  {
    if |rows| == 0 then [] else [RowLine(rows[0])] + RowLines(rows[1..])
  }

  /** `createCSV`: the header line, then one line per row, separated by newlines. */
  function CreateCSV(headers: seq<string>, rows: seq<seq<string>>): string {
    Join([HeaderLine(headers)] + RowLines(rows), "\n")
  }

  predicate RowLacks(row: seq<string>, c: char) {
    forall j :: 0 <= j < |row| ==> c !in row[j]
  }

  predicate TableLacks(rows: seq<seq<string>>, c: char) {
    forall i :: 0 <= i < |rows| ==> RowLacks(rows[i], c)
  }

  /**
    When no cell holds a comma, splitting a data line at commas and unquoting each field gives the
    row back.
  */
  lemma RowLineRoundTrip(row: seq<string>)
    requires |row| > 0 && RowLacks(row, ',')
    ensures UnquoteAll(Split(RowLine(row), ',')) == row
  {
    var q := QuoteAll(row);
    forall k | 0 <= k < |q| ensures ',' !in q[k] {
      assert q[k] == "\"" + row[k] + "\"";
    }
    SplitJoin(q, ',');
  }

  /**
    Nothing inside a cell is escaped, so a cell holding `","` reads as a cell boundary: the one-cell
    row `a","b` and the two-cell row `a`, `b` are written as the same line.
  */
  lemma QuotesNotEscaped()
    ensures RowLine(["a\",\"b"]) == RowLine(["a", "b"])
  {
  }

  /** A character that no header, no cell and neither separator holds is not in the table's text. */
  lemma CSVLacksChar(headers: seq<string>, rows: seq<seq<string>>, c: char)
    requires RowLacks(headers, c) && TableLacks(rows, c) && c != ',' && c != '"'
    ensures forall k :: 0 <= k < |rows| ==> c !in RowLines(rows)[k]
    ensures c !in HeaderLine(headers)
  {
    JoinLacksChar(headers, ",", c);
    forall k | 0 <= k < |rows| ensures c !in RowLines(rows)[k] {
      var q := QuoteAll(rows[k]);
      forall j | 0 <= j < |q| ensures c !in q[j] {
        assert q[j] == "\"" + rows[k][j] + "\"";
      }
      JoinLacksChar(q, ",", c);
    }
  }

  /** When no cell holds a newline, the table's lines are its header line and one line per row: |rows| + 1. */
  lemma CSVLines(headers: seq<string>, rows: seq<seq<string>>)
    requires RowLacks(headers, '\n') && TableLacks(rows, '\n')
    ensures Split(CreateCSV(headers, rows), '\n') == [HeaderLine(headers)] + RowLines(rows)
    ensures |Split(CreateCSV(headers, rows), '\n')| == |rows| + 1
  {
    CSVLacksChar(headers, rows, '\n');
    SplitJoin([HeaderLine(headers)] + RowLines(rows), '\n');
  }

  // ----- The three tables -----

  const SensorHeaders: seq<string> := ["ID", "Name", "Unit", "Data Type", "Last Value", "Last Updated"]
  const ActuatorHeaders: seq<string> := ["ID", "Name", "Unit", "Data Type", "State"]
  const ActivityHeaders: seq<string> := ["Timestamp", "Type", "Severity", "Message"]

  /** `x || "N/A"` on a rendered string. */
  function OrNA(t: string): string {
    if t == "" then "N/A" else t
  }

  /**
    A sensor's row: its four fields, then its last value and the time of its last sample. The value
    is "N/A" without a sample; the time is "N/A" without a sample or when the sample's timestamp
    (seconds) is 0, and otherwise its milliseconds in ISO form.
  */
  function SensorRow(s: Sensor, fmt: Formatters): (r: seq<string>)
    ensures |r| == 6 && r[..4] == [s.id, s.name, s.unit, s.dataType]
    ensures s.lastSample.None? ==> r[4] == "N/A" && r[5] == "N/A"
    ensures s.lastSample.Some? ==> r[4] == OrNA(fmt.number(s.lastSample.value.value))
    ensures s.lastSample.Some? && s.lastSample.value.timestamp == 0 ==> r[5] == "N/A"
    ensures s.lastSample.Some? && s.lastSample.value.timestamp != 0 ==> r[5] == fmt.isoTime(s.lastSample.value.timestamp * 1000)
  {
    var value := match s.lastSample
      case Some(sample) => OrNA(fmt.number(sample.value))
      case None => "N/A";
    var time := match s.lastSample
      case Some(sample) => if sample.timestamp != 0 then fmt.isoTime(sample.timestamp * 1000) else "N/A"
      case None => "N/A";
    [s.id, s.name, s.unit, s.dataType, value, time]
  }

  /** `state.toString()`: "true"/"false", the number's rendering; an undefined state throws. */
  function StateText(st: ActuatorState, fmt: Formatters): (r: Option<string>)
    ensures r.None? <==> st == Undefined
  {
    match st
    case Bool(b) => Some(if b then "true" else "false")
    case Num(n) => Some(fmt.number(n))
    case Undefined => None
  }

  /** An actuator's row: its four fields and its state; none when the state is undefined. */
  function ActuatorRow(a: Actuator, fmt: Formatters): (r: Option<seq<string>>)
    ensures r.None? <==> a.state == Undefined
    ensures r.Some? ==> |r.value| == 5 && r.value[..4] == [a.id, a.name, a.unit, a.dataType]
  {
    match StateText(a.state, fmt)
    case Some(t) => Some([a.id, a.name, a.unit, a.dataType, t])
    case None => None
  }

  /** An activity event's row: ISO time, type, severity, message text. */
  function ActivityRow(e: ActivityEvent, fmt: Formatters): (r: seq<string>)
    ensures |r| == 4
  {
    [fmt.isoTime(e.timestamp), EventTypeText(e.kind), SeverityText(e.severity), MessageText(e.message, fmt.fixed1)]
  }

  function SensorRows(sensors: seq<Sensor>, fmt: Formatters): (r: seq<seq<string>>)
    ensures |r| == |sensors|
    ensures forall i :: 0 <= i < |sensors| ==> r[i] == SensorRow(sensors[i], fmt)
  {
    if |sensors| == 0 then [] else [SensorRow(sensors[0], fmt)] + SensorRows(sensors[1..], fmt)
  }

  /** The actuator rows, or none when some actuator's state is undefined (the export throws). */
  function ActuatorRows(actuators: seq<Actuator>, fmt: Formatters): (r: Option<seq<seq<string>>>)
    ensures r.None? <==> exists i :: 0 <= i < |actuators| && actuators[i].state == Undefined
    ensures r.Some? ==> |r.value| == |actuators|
                        && forall i :: 0 <= i < |actuators| ==> Some(r.value[i]) == ActuatorRow(actuators[i], fmt)
  {
    if |actuators| == 0 then Some([])
    else
      var rest := ActuatorRows(actuators[1..], fmt);
      assert forall i :: 1 <= i < |actuators| ==> actuators[i] == actuators[1..][i - 1];
      match (ActuatorRow(actuators[0], fmt), rest)
      case (Some(row), Some(rows)) => Some([row] + rows)
      case _ => None
  }

  function ActivityRows(events: seq<ActivityEvent>, fmt: Formatters): (r: seq<seq<string>>)
    ensures |r| == |events|
    ensures forall i :: 0 <= i < |events| ==> r[i] == ActivityRow(events[i], fmt)
  {
    if |events| == 0 then [] else [ActivityRow(events[0], fmt)] + ActivityRows(events[1..], fmt)
  }

  const SensorsTitle := "SENSORS"
  const ActuatorsTitle := "ACTUATORS"
  const ActivityTitle := "ACTIVITY LOG"

  /** The sections of the combined file, before they are joined by newlines. */
  function Sections(sensorCSV: string, actuatorCSV: string, activityCSV: string): seq<string> {
    [SensorsTitle, sensorCSV, "", ActuatorsTitle, actuatorCSV, "", ActivityTitle, activityCSV]
  }

  /** The combined CSV file; none when the export throws on an undefined actuator state. */
  function ExportCSV(sensors: seq<Sensor>, actuators: seq<Actuator>, events: seq<ActivityEvent>, fmt: Formatters): Option<string> {
    match ActuatorRows(actuators, fmt)
    case Some(actuatorRows) =>
      Some(Join(Sections(CreateCSV(SensorHeaders, SensorRows(sensors, fmt)),
                         CreateCSV(ActuatorHeaders, actuatorRows),
                         CreateCSV(ActivityHeaders, ActivityRows(events, fmt))), "\n"))
    case None => None
  }

  /** A singleton group followed by a list group, at the head of a concatenation. */
  lemma ConcatBlock<T>(x: T, l: seq<T>, rest: seq<seq<T>>)
    ensures Concat([[x], l] + rest) == [x] + l + Concat(rest)
  {
    assert [[x], l] + rest == [[x]] + ([l] + rest);
    ConcatCons([x], [l] + rest);
    ConcatCons(l, rest);
  }

  lemma LayoutConcat<T>(a: T, b: T, c: T, e: T, l1: seq<T>, l2: seq<T>, l3: seq<T>)
    ensures Concat([[a], l1, [e], [b], l2, [e], [c], l3]) == [a] + l1 + [e, b] + l2 + [e, c] + l3
  {
    var x1: seq<seq<T>> := [];
    var x2 := [[c], l3] + x1;
    var x3 := [[e]] + x2;
    var x4 := [[b], l2] + x3;
    var x5 := [[e]] + x4;
    ConcatBlock(c, l3, x1);
    ConcatCons([e], x2);
    ConcatBlock(b, l2, x3);
    ConcatCons([e], x4);
    ConcatBlock(a, l1, x5);
    assert [[a], l1, [e], [b], l2, [e], [c], l3] == [[a], l1] + x5;
  }

  lemma LayoutJoinEach(a: string, b: string, c: string, e: string, l1: seq<string>, l2: seq<string>, l3: seq<string>, n: string)
    ensures JoinEach([[a], l1, [e], [b], l2, [e], [c], l3], n) == [a, Join(l1, n), e, b, Join(l2, n), e, c, Join(l3, n)]
  {
  }

  /** Three titled tables separated by blank lines, as one list of lines. */
  lemma LayoutFlatten(a: string, b: string, c: string, e: string, l1: seq<string>, l2: seq<string>, l3: seq<string>, n: string)
    requires |l1| > 0 && |l2| > 0 && |l3| > 0
    ensures Join([a, Join(l1, n), e, b, Join(l2, n), e, c, Join(l3, n)], n)
         == Join([a] + l1 + [e, b] + l2 + [e, c] + l3, n)
  {
    JoinOfJoins([[a], l1, [e], [b], l2, [e], [c], l3], n);
    LayoutJoinEach(a, b, c, e, l1, l2, l3, n);
    LayoutConcat(a, b, c, e, l1, l2, l3);
  }

  /**
    The combined file is one newline-separated list of lines: the title "SENSORS", the sensor table,
    an empty line, "ACTUATORS", the actuator table, an empty line, "ACTIVITY LOG", the activity table.
  */
  lemma SectionsFlatten(l1: seq<string>, l2: seq<string>, l3: seq<string>)
    requires |l1| > 0 && |l2| > 0 && |l3| > 0
    ensures Join(Sections(Join(l1, "\n"), Join(l2, "\n"), Join(l3, "\n")), "\n")
         == Join([SensorsTitle] + l1 + ["", ActuatorsTitle] + l2 + ["", ActivityTitle] + l3, "\n")
  {
    LayoutFlatten(SensorsTitle, ActuatorsTitle, ActivityTitle, "", l1, l2, l3, "\n");
  }

  lemma LacksAppend(xs: seq<string>, ys: seq<string>, c: char)
    requires RowLacks(xs, c) && RowLacks(ys, c)
    ensures RowLacks(xs + ys, c)
  {
  }

  lemma LayoutLacks(a: string, b: string, c: string, e: string, l1: seq<string>, l2: seq<string>, l3: seq<string>, nl: char)
    requires nl !in a && nl !in b && nl !in c && nl !in e
    requires RowLacks(l1, nl) && RowLacks(l2, nl) && RowLacks(l3, nl)
    ensures RowLacks([a] + l1 + [e, b] + l2 + [e, c] + l3, nl)
  {
    LacksAppend([a], l1, nl);
    LacksAppend([a] + l1, [e, b], nl);
    LacksAppend([a] + l1 + [e, b], l2, nl);
    LacksAppend([a] + l1 + [e, b] + l2, [e, c], nl);
    LacksAppend([a] + l1 + [e, b] + l2 + [e, c], l3, nl);
  }

  /** Splitting the stacked tables at newlines gives back every title, blank line and table line. */
  lemma LayoutLines(a: string, b: string, c: string, e: string, l1: seq<string>, l2: seq<string>, l3: seq<string>, nl: char)
    requires |l1| > 0 && |l2| > 0 && |l3| > 0
    requires nl !in a && nl !in b && nl !in c && nl !in e
    requires RowLacks(l1, nl) && RowLacks(l2, nl) && RowLacks(l3, nl)
    ensures Split(Join([a, Join(l1, [nl]), e, b, Join(l2, [nl]), e, c, Join(l3, [nl])], [nl]), nl)
         == [a] + l1 + [e, b] + l2 + [e, c] + l3
  {
    LayoutFlatten(a, b, c, e, l1, l2, l3, [nl]);
    LayoutLacks(a, b, c, e, l1, l2, l3, nl);
    SplitJoin([a] + l1 + [e, b] + l2 + [e, c] + l3, nl);
  }

  /** No header cell and no section title holds a newline. */
  lemma FixedTextLacksNewline()
    ensures RowLacks(SensorHeaders, '\n') && RowLacks(ActuatorHeaders, '\n') && RowLacks(ActivityHeaders, '\n')
    ensures '\n' !in SensorsTitle && '\n' !in ActuatorsTitle && '\n' !in ActivityTitle
  {
  }

  /** The export fails, as `state.toString()` throws, exactly when some actuator's state is undefined. */
  lemma ExportFails(sensors: seq<Sensor>, actuators: seq<Actuator>, events: seq<ActivityEvent>, fmt: Formatters)
    ensures ExportCSV(sensors, actuators, events, fmt).None? <==> exists i :: 0 <= i < |actuators| && actuators[i].state == Undefined
  {
  }

  /** Three titled tables stacked with blank lines between, as lines: titles, header lines and row lines. */
  lemma TablesLines(t1: string, t2: string, t3: string, h1: seq<string>, h2: seq<string>, h3: seq<string>,
                    sr: seq<seq<string>>, ar: seq<seq<string>>, er: seq<seq<string>>)
    requires '\n' !in t1 && '\n' !in t2 && '\n' !in t3
    requires RowLacks(h1, '\n') && RowLacks(h2, '\n') && RowLacks(h3, '\n')
    requires TableLacks(sr, '\n') && TableLacks(ar, '\n') && TableLacks(er, '\n')
    ensures Split(Join([t1, CreateCSV(h1, sr), "", t2, CreateCSV(h2, ar), "", t3, CreateCSV(h3, er)], "\n"), '\n')
        == [t1, HeaderLine(h1)] + RowLines(sr) + ["", t2, HeaderLine(h2)] + RowLines(ar) + ["", t3, HeaderLine(h3)] + RowLines(er)
  {
    var l1 := [HeaderLine(h1)] + RowLines(sr);
    var l2 := [HeaderLine(h2)] + RowLines(ar);
    var l3 := [HeaderLine(h3)] + RowLines(er);
    CSVLacksChar(h1, sr, '\n');
    CSVLacksChar(h2, ar, '\n');
    CSVLacksChar(h3, er, '\n');
    assert RowLacks(l1, '\n') && RowLacks(l2, '\n') && RowLacks(l3, '\n');
    LayoutLines(t1, t2, t3, "", l1, l2, l3, '\n');
    LinesRegroup(t1, t2, t3, "", HeaderLine(h1), RowLines(sr), HeaderLine(h2), RowLines(ar), HeaderLine(h3), RowLines(er));
  }

  lemma LinesRegroup<T>(a: T, b: T, c: T, e: T, h1: T, r1: seq<T>, h2: T, r2: seq<T>, h3: T, r3: seq<T>)
    ensures [a] + ([h1] + r1) + [e, b] + ([h2] + r2) + [e, c] + ([h3] + r3)
         == [a, h1] + r1 + [e, b, h2] + r2 + [e, c, h3] + r3
  {
  }

  /**
    When the export exists and no cell holds a newline, its lines are exactly the section titles,
    blank separators and table lines in order: one line per sensor, actuator and event, in input order.
  */
  lemma ExportLines(sensors: seq<Sensor>, actuators: seq<Actuator>, events: seq<ActivityEvent>, fmt: Formatters)
    requires ExportCSV(sensors, actuators, events, fmt).Some?
    requires TableLacks(SensorRows(sensors, fmt), '\n') && TableLacks(ActivityRows(events, fmt), '\n')
    requires TableLacks(ActuatorRows(actuators, fmt).value, '\n')
    ensures Split(ExportCSV(sensors, actuators, events, fmt).value, '\n')
        == [SensorsTitle, HeaderLine(SensorHeaders)] + RowLines(SensorRows(sensors, fmt))
         + ["", ActuatorsTitle, HeaderLine(ActuatorHeaders)] + RowLines(ActuatorRows(actuators, fmt).value)
         + ["", ActivityTitle, HeaderLine(ActivityHeaders)] + RowLines(ActivityRows(events, fmt))
  {
    FixedTextLacksNewline();
    TablesLines(SensorsTitle, ActuatorsTitle, ActivityTitle, SensorHeaders, ActuatorHeaders, ActivityHeaders,
                SensorRows(sensors, fmt), ActuatorRows(actuators, fmt).value, ActivityRows(events, fmt));
  }
}
