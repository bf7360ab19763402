/**
  The display unit the dashboard gives a sensor, from its name and declared data type
  (`getUnitForDataType` in Frontend/src/pages/Index.tsx). Name keywords are tried in a
  fixed order and the first that occurs in the lower-cased name decides.
*/
module Units {
  import opened Wrappers
  import opened Text

  /** The unit for a sensor, by the source's chain of keyword tests. */
  function UnitForDataType(dataType: string, sensorName: string): string {
    var nameLower := ToLower(sensorName);
    if Contains(nameLower, "temp") || Contains(nameLower, "temperature") then "°F"
    else if Contains(nameLower, "power") || Contains(nameLower, "watt") then "W"
    else if Contains(nameLower, "voltage") || Contains(nameLower, "volt") then "V"
    else if Contains(nameLower, "current") || Contains(nameLower, "amp") then "A"
    else if Contains(nameLower, "energy") || Contains(nameLower, "kwh") then "kWh"
    else if Contains(nameLower, "humidity") then "%"
    else if Contains(nameLower, "light") || Contains(nameLower, "lux") then "lux"
    else if Contains(nameLower, "co2") || Contains(nameLower, "carbon") then "ppm"
    else FallbackUnit(dataType)
  }

  /** The unit when no name keyword matches: "units" for FLOAT and INT, otherwise the data type itself. */
  function FallbackUnit(dataType: string): string {
    if dataType == "FLOAT" || dataType == "INT" then "units" else dataType
  }

  /** The same classification written as a table: keywords and the unit they select, in priority order. */
  datatype UnitRule = UnitRule(keywords: seq<string>, unit: string)

  const UnitRules: seq<UnitRule> := [
    UnitRule(["temp", "temperature"], "°F"),
    UnitRule(["power", "watt"], "W"),
    UnitRule(["voltage", "volt"], "V"),
    UnitRule(["current", "amp"], "A"),
    UnitRule(["energy", "kwh"], "kWh"),
    UnitRule(["humidity"], "%"),
    UnitRule(["light", "lux"], "lux"),
    UnitRule(["co2", "carbon"], "ppm")
  ]

  /** Some keyword of the rule occurs in `name`. */
  predicate RuleMatches(rule: UnitRule, name: string) {
    exists k :: 0 <= k < |rule.keywords| && Contains(name, rule.keywords[k])
  }

  /** The unit of the first rule at or after index `i` that matches `name`, if any. */
  function FirstMatchFrom(rules: seq<UnitRule>, name: string, i: nat): Option<string>
    decreases |rules| - i
  {
    if i >= |rules| then None
    else if RuleMatches(rules[i], name) then Some(rules[i].unit)
    else FirstMatchFrom(rules, name, i + 1)
  }

  /** The unit of the first rule that matches `name`, if any. */
  function FirstMatch(rules: seq<UnitRule>, name: string): Option<string> {
    FirstMatchFrom(rules, name, 0)
  }

  lemma {:induction false} FirstMatchFromIsFirst(rules: seq<UnitRule>, name: string, i: nat)
    ensures FirstMatchFrom(rules, name, i).None? <==> forall j :: i <= j < |rules| ==> !RuleMatches(rules[j], name)
    ensures FirstMatchFrom(rules, name, i).Some? ==>
      exists j :: i <= j < |rules| && RuleMatches(rules[j], name) && FirstMatchFrom(rules, name, i).value == rules[j].unit
        && forall l :: i <= l < j ==> !RuleMatches(rules[l], name)
    decreases |rules| - i
  {
    if i < |rules| && !RuleMatches(rules[i], name) {
      FirstMatchFromIsFirst(rules, name, i + 1);
    }
  }

  /** FirstMatch finds a rule exactly when one matches, and the rule it picks has no matching rule before it. */
  lemma FirstMatchIsFirst(rules: seq<UnitRule>, name: string)
    ensures FirstMatch(rules, name).None? <==> forall i :: 0 <= i < |rules| ==> !RuleMatches(rules[i], name)
    ensures FirstMatch(rules, name).Some? ==>
      exists i :: 0 <= i < |rules| && RuleMatches(rules[i], name) && FirstMatch(rules, name).value == rules[i].unit
        && forall j :: 0 <= j < i ==> !RuleMatches(rules[j], name)
  {
    FirstMatchFromIsFirst(rules, name, 0);
  }

  lemma OneKeyword(name: string, rule: UnitRule)
    requires |rule.keywords| == 1
    ensures RuleMatches(rule, name) <==> Contains(name, rule.keywords[0])
  {
  }

  lemma TwoKeywords(name: string, rule: UnitRule)
    requires |rule.keywords| == 2
    ensures RuleMatches(rule, name) <==> Contains(name, rule.keywords[0]) || Contains(name, rule.keywords[1])
  {
  }

  /** The keyword chain is exactly first-match-wins over the rule table, falling back on the data type. */
  lemma UnitIsFirstMatchingRule(dataType: string, sensorName: string)
    ensures UnitForDataType(dataType, sensorName) == FirstMatch(UnitRules, ToLower(sensorName)).GetOr(FallbackUnit(dataType))
  {
    var n := ToLower(sensorName);
    var rules := UnitRules;
    TwoKeywords(n, rules[0]);
    TwoKeywords(n, rules[1]);
    TwoKeywords(n, rules[2]);
    TwoKeywords(n, rules[3]);
    TwoKeywords(n, rules[4]);
    OneKeyword(n, rules[5]);
    TwoKeywords(n, rules[6]);
    TwoKeywords(n, rules[7]);
  }
}
