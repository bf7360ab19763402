/**
  The energy card of the dashboard (Frontend/src/components/EnergyMetrics.tsx): the number of
  enabled actuators, the selection of power sensors, the power figure shown, and the uptime text.
*/
module EnergyMetrics {
  import opened Wrappers
  import opened Text
  import opened Entities

  /** A BOOLEAN actuator is enabled when its state is exactly true; any other when its state is a positive number. */
  predicate IsEnabled(a: Actuator) {
    if a.dataType == BOOLEAN then a.state == Bool(true) else a.state.Num? && a.state.n > 0.0
  }

  /** `actuators.filter(isEnabled).length`. */
  function EnabledCount(actuators: seq<Actuator>): (n: nat)
    ensures n <= |actuators|
  {
    if |actuators| == 0 then 0 else (if IsEnabled(actuators[0]) then 1 else 0) + EnabledCount(actuators[1..])
  }

  /** The count is 0 exactly when no actuator is enabled, and |actuators| exactly when all are. */
  lemma {:induction false} EnabledCountExtremes(actuators: seq<Actuator>)
    ensures EnabledCount(actuators) == 0 <==> forall i :: 0 <= i < |actuators| ==> !IsEnabled(actuators[i])
    ensures EnabledCount(actuators) == |actuators| <==> forall i :: 0 <= i < |actuators| ==> IsEnabled(actuators[i])
  {
    if |actuators| > 0 {
      EnabledCountExtremes(actuators[1..]);
      assert forall i :: 1 <= i < |actuators| ==> actuators[i] == actuators[1..][i - 1];
    }
  }

  /** The count over two lists is the sum of the counts. */
  lemma {:induction false} EnabledCountAppend(xs: seq<Actuator>, ys: seq<Actuator>)
    ensures EnabledCount(xs + ys) == EnabledCount(xs) + EnabledCount(ys)
  {
    if |xs| > 0 {
      assert (xs + ys)[0] == xs[0];
      assert (xs + ys)[1..] == xs[1..] + ys;
      EnabledCountAppend(xs[1..], ys);
    } else {
      assert xs + ys == ys;
    }
  }

  /** A power sensor: unit "W", or a name that mentions "power" or "current" in any letter case. */
  predicate IsPowerSensor(s: Sensor) {
    s.unit == "W" || Contains(ToLower(s.name), "power") || Contains(ToLower(s.name), "current")
  }

  /** `sensors.filter(isPowerSensor)`. */
  function PowerSensors(sensors: seq<Sensor>): (r: seq<Sensor>)
    ensures |r| <= |sensors|
    ensures forall i :: 0 <= i < |r| ==> IsPowerSensor(r[i]) && r[i] in sensors
    ensures forall i :: 0 <= i < |sensors| && IsPowerSensor(sensors[i]) ==> sensors[i] in r
  {
    if |sensors| == 0 then []
    else if IsPowerSensor(sensors[0]) then [sensors[0]] + PowerSensors(sensors[1..])
    else PowerSensors(sensors[1..])
  }

  /** `Math.round`: the nearest integer, halves rounded up. */
  function Round(x: real): int {
    (x + 0.5).Floor
  }

  /**
    The figure on the card. `total` is the watts summed over the power sensors' readings, which
    the component accumulates in floating point: the rounded total when there is a power sensor
    and the total is positive, else 100 W per enabled actuator.
  */
  function ShownPower(actuators: seq<Actuator>, sensors: seq<Sensor>, total: real): int {
    if |PowerSensors(sensors)| > 0 && total > 0.0 then Round(total) else EnabledCount(actuators) * 100
  }

  /**
    Without a power sensor, or with a non-positive total, the card shows 100 W per enabled
    actuator; otherwise the total rounded to the nearest watt. The figure is never negative.
  */
  lemma ShownPowerCases(actuators: seq<Actuator>, sensors: seq<Sensor>, total: real)
    ensures ((forall i :: 0 <= i < |sensors| ==> !IsPowerSensor(sensors[i])) || total <= 0.0) ==>
              ShownPower(actuators, sensors, total) == 100 * EnabledCount(actuators)
    ensures (exists i :: 0 <= i < |sensors| && IsPowerSensor(sensors[i])) && total > 0.0 ==>
              total - 0.5 < ShownPower(actuators, sensors, total) as real <= total + 0.5
    ensures 0 <= ShownPower(actuators, sensors, total)
  {
    var power := PowerSensors(sensors);
    if |power| > 0 {
      assert IsPowerSensor(power[0]) && power[0] in sensors;
    }
  }

  // ----- The uptime text -----

  /** Hours, minutes and seconds of an uptime, as `formatUptime` computes them. */
  function Hours(seconds: nat): nat { seconds / 3600 }
  function Minutes(seconds: nat): nat { (seconds % 3600) / 60 }
  function Seconds(seconds: nat): nat { seconds % 60 }

  /** Minutes and seconds are below 60, and the fields add back up to the count. */
  lemma UptimeFieldsExact(seconds: nat)
    ensures Minutes(seconds) < 60 && Seconds(seconds) < 60
    ensures Hours(seconds) * 3600 + Minutes(seconds) * 60 + Seconds(seconds) == seconds
  {
    var h, r := seconds / 3600, seconds % 3600;
    var m, s := r / 60, r % 60;
    assert seconds == 60 * (60 * h + m) + s;
    assert seconds % 60 == s;
  }

  /** A field as `n.toString().padStart(2, '0')`. */
  function Field(n: nat): (r: string)
    ensures |r| >= 2 && AllDigits(r) && DigitsValue(r) == n
  {
    NatToStringRoundTrip(n);
    PadStartZerosValue(NatToString(n), 2);
    PadStart(NatToString(n), 2, '0')
  }

  /** `formatUptime`: "hh:mm:ss", every field at least two digits, hours never cut short. */
  function FormatUptime(seconds: nat): string {
    UptimeText(Hours(seconds), Minutes(seconds), Seconds(seconds))
  }

  /** The template `${hh}:${mm}:${ss}` over the padded fields. */
  function UptimeText(h: nat, m: nat, s: nat): string {
    Field(h) + ":" + Field(m) + ":" + Field(s)
  }

  /** Reading an uptime text back: three colon-separated digit fields. */
  function ParseUptime(t: string): Option<nat> {
    var parts := Split(t, ':');
    if |parts| == 3 && AllDigits(parts[0]) && AllDigits(parts[1]) && AllDigits(parts[2])
    then Some(DigitsValue(parts[0]) * 3600 + DigitsValue(parts[1]) * 60 + DigitsValue(parts[2]))
    else None
  }

  lemma DigitsLackColon(s: string)
    requires AllDigits(s)
    ensures ':' !in s
  {
    forall i | 0 <= i < |s| ensures s[i] != ':' {
      assert IsDigit(s[i]);
    }
  }

  /** Three colon-free fields joined by colons split back into those fields. */
  lemma SplitThreeFields(a: string, b: string, c: string)
    requires ':' !in a && ':' !in b && ':' !in c
    ensures Split(a + ":" + b + ":" + c, ':') == [a, b, c]
  {
    var rest := b + [':'] + c;
    assert a + ":" + b + ":" + c == a + [':'] + rest;
    SplitAcrossSeparator(a, rest, ':');
    SplitAcrossSeparator(b, c, ':');
    SplitNoSeparator(c, ':');
  }

  /** Three digit fields joined by colons parse back to their weighted sum. */
  lemma ParseThreeFields(a: string, b: string, c: string)
    requires AllDigits(a) && AllDigits(b) && AllDigits(c)
    ensures Split(a + ":" + b + ":" + c, ':') == [a, b, c]
    ensures ParseUptime(a + ":" + b + ":" + c) == Some(DigitsValue(a) * 3600 + DigitsValue(b) * 60 + DigitsValue(c))
  {
    DigitsLackColon(a);
    DigitsLackColon(b);
    DigitsLackColon(c);
    SplitThreeFields(a, b, c);
  }

  /** The text of given hours, minutes and seconds splits into their fields and parses back to their sum. */
  lemma FieldsRoundTrip(h: nat, m: nat, s: nat)
    ensures var parts := Split(UptimeText(h, m, s), ':');
      && |parts| == 3
      && (forall k :: 0 <= k < 3 ==> |parts[k]| >= 2 && AllDigits(parts[k]))
      && DigitsValue(parts[0]) == h && DigitsValue(parts[1]) == m && DigitsValue(parts[2]) == s
    ensures ParseUptime(UptimeText(h, m, s)) == Some(h * 3600 + m * 60 + s)
  {
    ParseThreeFields(Field(h), Field(m), Field(s));
  }

  /**
    The uptime text is three fields of at least two digits each, separated by colons, the minutes
    and seconds below 60, and reading it back gives the number of seconds: nothing is lost.
  */
  lemma FormatUptimeRoundTrip(seconds: nat)
    ensures var parts := Split(FormatUptime(seconds), ':');
      && |parts| == 3
      && (forall k :: 0 <= k < 3 ==> |parts[k]| >= 2 && AllDigits(parts[k]))
      && DigitsValue(parts[1]) < 60 && DigitsValue(parts[2]) < 60
    ensures ParseUptime(FormatUptime(seconds)) == Some(seconds)
  {
    UptimeFieldsExact(seconds);
    FieldsRoundTrip(Hours(seconds), Minutes(seconds), Seconds(seconds));
  }
}
