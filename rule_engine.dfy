/** The threshold rule engine of the fish-pond backend.

    Four independent threshold tests on one sensor reading each contribute one
    advisory record, always in the same order (ammonia, oxygen, pH,
    temperature); when none fires, a single "all parameters acceptable"
    advisory is emitted instead. Readings are reals: the engine only compares
    them against constants. */
module RuleEngine {

  /** One sensor reading. The fields follow the classifier's column order. */
  datatype Reading = Reading(temperature: real, ph: real, ammonia: real, oxygen: real)

  /** An advisory record, the JSON object {"issue": ..., "recommendation": ...}. */
  datatype Recommendation = Recommendation(issue: string, recommendation: string)

  /** The four threshold rules. */
  datatype Rule = AmmoniaRule | OxygenRule | PhRule | TemperatureRule {
    /** Position of the rule in the fixed evaluation order. */
    function Rank(): nat {
      match this
      case AmmoniaRule => 0
      case OxygenRule => 1
      case PhRule => 2
      case TemperatureRule => 3
    }
  }

  /** The rules in evaluation order. */
  const Rules: seq<Rule> := [AmmoniaRule, OxygenRule, PhRule, TemperatureRule]

  // Thresholds. Ammonia and oxygen are strict bounds; the pH range is inclusive;
  // the temperature range is inclusive as well (10 and 35 are acceptable).
  const AmmoniaMax: real := 3.0
  const OxygenMin: real := 5.0
  const PhMin: real := 6.5
  const PhMax: real := 8.5
  const TemperatureMin: real := 10.0
  const TemperatureMax: real := 35.0

  /** Whether `rule` reports a problem with `reading`. */
  predicate Fires(rule: Rule, reading: Reading) {
    match rule
    case AmmoniaRule => reading.ammonia > AmmoniaMax
    case OxygenRule => reading.oxygen < OxygenMin
    case PhRule => !(PhMin <= reading.ph <= PhMax)
    case TemperatureRule => reading.temperature < TemperatureMin || reading.temperature > TemperatureMax
  }

  const HighAmmonia := Recommendation(
    "High ammonia level detected.",
    "Consider adding biological filters or reducing organic waste input.")
  const LowOxygen := Recommendation(
    "Low dissolved oxygen detected.",
    "Install aerators to improve oxygen levels.")
  const PhOutOfRange := Recommendation(
    "pH level is outside the optimal range.",
    "Adjust pH using buffers like sodium carbonate or acidic solutions.")
  const TemperatureOutOfRange := Recommendation(
    "Temperature is outside the optimal range.",
    "Control temperature using cooling or heating systems.")
  const AllAcceptable := Recommendation(
    "All parameters are within acceptable ranges.",
    "Continue monitoring to maintain optimal conditions.")

  /** The advisory a firing rule contributes. */
  function Advice(rule: Rule): Recommendation {
    match rule
    case AmmoniaRule => HighAmmonia
    case OxygenRule => LowOxygen
    case PhRule => PhOutOfRange
    case TemperatureRule => TemperatureOutOfRange
  }

  /** Where an advisory stands in the output order: the rule's rank for a rule's
      advisory, and 4 (after every rule) for anything else, the fallback included. */
  function Position(rec: Recommendation): (p: nat)
    ensures forall rule :: rec == Advice(rule) ==> p == rule.Rank()
    ensures p <= 4
  {
    if rec == HighAmmonia then 0
    else if rec == LowOxygen then 1
    else if rec == PhOutOfRange then 2
    else if rec == TemperatureOutOfRange then 3
    else 4
  }

  /** The rules of `rules` that fire on `reading`, in the order given. */
  function Triggered(rules: seq<Rule>, reading: Reading): (fired: seq<Rule>)
    ensures |fired| <= |rules|
  {
    if rules == [] then []
    else (if Fires(rules[0], reading) then [rules[0]] else []) + Triggered(rules[1..], reading)
  }

  /** The advisories of a list of rules, one each, in the same order. */
  function Advices(rules: seq<Rule>): seq<Recommendation> {
    seq(|rules|, i requires 0 <= i < |rules| => Advice(rules[i]))
  }

  /** Reference definition of the engine: the advisories of the rules that
      fire, in rule order, or the fallback alone when none fires. */
  function Recommend(reading: Reading): (recs: seq<Recommendation>)
    ensures 1 <= |recs| <= |Rules|
  {
    var fired := Triggered(Rules, reading);
    if fired == [] then [AllAcceptable] else Advices(fired)
  }

  /** Strictly increasing in rank: ordered and free of repetitions. */
  predicate RankIncreasing(rules: seq<Rule>) {
    forall i, j :: 0 <= i < j < |rules| ==> rules[i].Rank() < rules[j].Rank()
  }

  /** A rule is kept exactly when it is in the list and fires. */
  lemma {:induction false} TriggeredMembers(rules: seq<Rule>, reading: Reading)
    ensures forall rule :: rule in Triggered(rules, reading) <==> rule in rules && Fires(rule, reading)
  {
    if rules != [] {
      TriggeredMembers(rules[1..], reading);
      assert forall rule :: rule in rules <==> rule == rules[0] || rule in rules[1..];
    }
  }

  /** Filtering keeps the relative order of the rules it keeps. */
  lemma {:induction false} TriggeredKeepsOrder(rules: seq<Rule>, reading: Reading)
    requires RankIncreasing(rules)
    ensures RankIncreasing(Triggered(rules, reading))
  {
    if rules != [] {
      var tail := rules[1..];
      assert RankIncreasing(tail) by {
        forall i, j | 0 <= i < j < |tail| ensures tail[i].Rank() < tail[j].Rank() {
          assert tail[i] == rules[i + 1] && tail[j] == rules[j + 1];
        }
      }
      TriggeredKeepsOrder(tail, reading);
      TriggeredMembers(tail, reading);
      var rest := Triggered(tail, reading);
      if Fires(rules[0], reading) {
        var fired := [rules[0]] + rest;
        forall i, j | 0 <= i < j < |fired| ensures fired[i].Rank() < fired[j].Rank() {
          if i == 0 {
            assert fired[j] in tail;
            var k :| 0 <= k < |tail| && tail[k] == fired[j];
            assert rules[k + 1] == fired[j];
          } else {
            assert fired[i] == rest[i - 1] && fired[j] == rest[j - 1];
          }
        }
      }
    }
  }

  /** Filtering a concatenation filters each part. */
  lemma {:induction false} TriggeredAppend(a: seq<Rule>, b: seq<Rule>, reading: Reading)
    ensures Triggered(a + b, reading) == Triggered(a, reading) + Triggered(b, reading)
  {
    if a == [] {
      assert a + b == b;
    } else {
      assert (a + b)[0] == a[0] && (a + b)[1..] == a[1..] + b;
      TriggeredAppend(a[1..], b, reading);
    }
  }

  /** Filtering the rule table is filtering each rule on its own, in order. */
  lemma TriggeredRulesSplit(reading: Reading)
    ensures Triggered(Rules, reading) ==
      Triggered([AmmoniaRule], reading) + Triggered([OxygenRule], reading) +
      Triggered([PhRule], reading) + Triggered([TemperatureRule], reading)
  {
    TriggeredAppend([AmmoniaRule], [OxygenRule, PhRule, TemperatureRule], reading);
    TriggeredAppend([OxygenRule], [PhRule, TemperatureRule], reading);
    TriggeredAppend([PhRule], [TemperatureRule], reading);
    assert Rules == [AmmoniaRule] + ([OxygenRule] + ([PhRule] + [TemperatureRule]));
  }

  /** What one rule contributes when tested on its own. */
  function Step(rule: Rule, reading: Reading): seq<Recommendation> {
    if Fires(rule, reading) then [Advice(rule)] else []
  }

  /** A single rule's advisories are that rule's step. */
  lemma StepIsAdvicesOfSingle(rule: Rule, reading: Reading)
    ensures Advices(Triggered([rule], reading)) == Step(rule, reading)
  {
  }

  /** Advisories of a concatenation are the concatenated advisories. */
  lemma AdvicesAppend(a: seq<Rule>, b: seq<Rule>)
    ensures Advices(a + b) == Advices(a) + Advices(b)
  {
  }

  /** The reference definition agrees with testing the rules one after the
      other, appending each advisory, and falling back when nothing was
      appended. */
  lemma RecommendStepwise(reading: Reading)
    ensures var steps := Step(AmmoniaRule, reading) + Step(OxygenRule, reading) +
                         Step(PhRule, reading) + Step(TemperatureRule, reading);
            Recommend(reading) == if steps == [] then [AllAcceptable] else steps
  {
    var a, o, p, t := Triggered([AmmoniaRule], reading), Triggered([OxygenRule], reading),
                      Triggered([PhRule], reading), Triggered([TemperatureRule], reading);
    TriggeredRulesSplit(reading);
    AdvicesAppend(a + o + p, t);
    AdvicesAppend(a + o, p);
    AdvicesAppend(a, o);
    StepIsAdvicesOfSingle(AmmoniaRule, reading);
    StepIsAdvicesOfSingle(OxygenRule, reading);
    StepIsAdvicesOfSingle(PhRule, reading);
    StepIsAdvicesOfSingle(TemperatureRule, reading);
  }

  /** The fallback advisory appears exactly when no rule fires, and it is then
      the only advisory. */
  lemma FallbackExactlyWhenNothingFires(reading: Reading)
    ensures AllAcceptable in Recommend(reading) <==> forall rule :: !Fires(rule, reading)
    ensures AllAcceptable in Recommend(reading) ==> Recommend(reading) == [AllAcceptable]
  {
    var fired := Triggered(Rules, reading);
    TriggeredMembers(Rules, reading);
    if fired != [] {
      var recs := Advices(fired);
      forall i | 0 <= i < |recs| ensures recs[i] != AllAcceptable {
        assert recs[i] == Advice(fired[i]);
      }
      assert fired[0] in Rules && Fires(fired[0], reading);
    } else {
      forall rule ensures !Fires(rule, reading) {
        assert Rules[rule.Rank()] == rule;
      }
    }
  }

  /** Each rule's advisory appears exactly when the rule fires. */
  lemma AdviceIffFires(rule: Rule, reading: Reading)
    ensures Advice(rule) in Recommend(reading) <==> Fires(rule, reading)
  {
    var fired := Triggered(Rules, reading);
    TriggeredMembers(Rules, reading);
    assert Rules[rule.Rank()] == rule;
    if fired == [] {
      assert Advice(rule) != AllAcceptable;
    } else {
      var recs := Advices(fired);
      if Advice(rule) in recs {
        var i :| 0 <= i < |recs| && recs[i] == Advice(rule);
        assert Advice(fired[i]) == Advice(rule);
        assert fired[i] == rule;
      }
      if Fires(rule, reading) {
        var i :| 0 <= i < |fired| && fired[i] == rule;
        assert recs[i] == Advice(rule);
      }
    }
  }

  /** The advisories keep the fixed rule order, so none appears twice. */
  lemma RecommendOrder(reading: Reading)
    ensures forall i, j :: 0 <= i < j < |Recommend(reading)| ==>
      Position(Recommend(reading)[i]) < Position(Recommend(reading)[j])
    ensures forall i, j :: 0 <= i < j < |Recommend(reading)| ==>
      Recommend(reading)[i] != Recommend(reading)[j]
  {
    var fired := Triggered(Rules, reading);
    assert RankIncreasing(Rules);
    TriggeredKeepsOrder(Rules, reading);
    if fired != [] {
      var recs := Advices(fired);
      forall i, j | 0 <= i < j < |recs| ensures Position(recs[i]) < Position(recs[j]) {
        assert recs[i] == Advice(fired[i]) && recs[j] == Advice(fired[j]);
      }
    }
  }

  /** The ammonia advisory appears iff the ammonia level exceeds 3.0 (so 3.0
      itself does not trigger it). */
  lemma AmmoniaThreshold(reading: Reading)
    ensures HighAmmonia in Recommend(reading) <==> reading.ammonia > 3.0
  {
    AdviceIffFires(AmmoniaRule, reading);
  }

  /** The oxygen advisory appears iff dissolved oxygen is below 5.0 (so 5.0
      itself does not trigger it). */
  lemma OxygenThreshold(reading: Reading)
    ensures LowOxygen in Recommend(reading) <==> reading.oxygen < 5.0
  {
    AdviceIffFires(OxygenRule, reading);
  }

  /** The pH advisory appears iff pH lies outside [6.5, 8.5]; both bounds are
      acceptable values. */
  lemma PhThreshold(reading: Reading)
    ensures PhOutOfRange in Recommend(reading) <==> reading.ph < 6.5 || reading.ph > 8.5
  {
    AdviceIffFires(PhRule, reading);
  }

  /** The temperature advisory appears iff temperature is below 10 or above 35;
      both bounds are acceptable values. */
  lemma TemperatureThreshold(reading: Reading)
    ensures TemperatureOutOfRange in Recommend(reading) <==>
      reading.temperature < 10.0 || reading.temperature > 35.0
  {
    AdviceIffFires(TemperatureRule, reading);
  }

  /** A reading with every parameter in range gets the fallback advisory alone. */
  lemma InRangeReadingIsAcceptable()
    ensures Recommend(Reading(25.0, 7.2, 1.0, 6.0)) == [AllAcceptable]
  {
  }

  // ---------------------------------------------------------------------------
  // The engine as it reads the request body: a dictionary from field name to
  // value, whose lookups raise KeyError for a missing field.

  const AmmoniaField := "Ammonia Level"
  const OxygenField := "Dissolved Oxygen"
  const PhField := "pH Level"
  const TemperatureField := "Temperature"

  /** The fields in the order the engine looks them up. */
  const LookupOrder: seq<string> := [AmmoniaField, OxygenField, PhField, TemperatureField]

  /** Outcome of a dictionary-reading computation: a value, or the KeyError
      of the first lookup that failed. */
  datatype Result<T> = Ok(value: T) | KeyError(key: string)

  predicate HasAllFields(data: map<string, real>) {
    AmmoniaField in data && OxygenField in data && PhField in data && TemperatureField in data
  }

  /** The reading a complete request body describes. */
  function ReadingOf(data: map<string, real>): Reading
    requires HasAllFields(data)
  {
    Reading(data[TemperatureField], data[PhField], data[AmmoniaField], data[OxygenField])
  }

  /** `LookupOrder[k]` is the first field, in lookup order, missing from `data`. */
  predicate FirstMissing(data: map<string, real>, k: nat) {
    k < |LookupOrder| && LookupOrder[k] !in data &&
    forall j :: 0 <= j < k ==> LookupOrder[j] in data
  }

  /** The rule engine: runs the four tests in order, appending an advisory for
      each that fires, then appends the fallback if nothing was appended. A
      missing field stops it with a KeyError naming the first field missing. */
  method GetRecommendation(sensorData: map<string, real>) returns (result: Result<seq<Recommendation>>)
    ensures result.Ok? <==> HasAllFields(sensorData)
    ensures result.Ok? ==> result.value == Recommend(ReadingOf(sensorData))
    ensures result.KeyError? ==>
      exists k: nat :: FirstMissing(sensorData, k) && result.key == LookupOrder[k]
  {
    var recommendations: seq<Recommendation> := [];
    // The reading the body describes, with 0.0 for fields not known to be present.
    ghost var reading := Reading(
      if TemperatureField in sensorData then sensorData[TemperatureField] else 0.0,
      if PhField in sensorData then sensorData[PhField] else 0.0,
      if AmmoniaField in sensorData then sensorData[AmmoniaField] else 0.0,
      if OxygenField in sensorData then sensorData[OxygenField] else 0.0);

    if AmmoniaField !in sensorData {
      assert FirstMissing(sensorData, 0);
      return KeyError(AmmoniaField);
    }
    if sensorData[AmmoniaField] > AmmoniaMax {
      recommendations := recommendations + [HighAmmonia];
    }
    assert recommendations == Step(AmmoniaRule, reading);

    if OxygenField !in sensorData {
      assert FirstMissing(sensorData, 1);
      return KeyError(OxygenField);
    }
    if sensorData[OxygenField] < OxygenMin {
      recommendations := recommendations + [LowOxygen];
    }
    assert recommendations == Step(AmmoniaRule, reading) + Step(OxygenRule, reading);

    if PhField !in sensorData {
      assert FirstMissing(sensorData, 2);
      return KeyError(PhField);
    }
    if !(PhMin <= sensorData[PhField] <= PhMax) {
      recommendations := recommendations + [PhOutOfRange];
    }
    assert recommendations ==
      Step(AmmoniaRule, reading) + Step(OxygenRule, reading) + Step(PhRule, reading);

    if TemperatureField !in sensorData {
      assert FirstMissing(sensorData, 3);
      return KeyError(TemperatureField);
    }
    if sensorData[TemperatureField] < TemperatureMin || sensorData[TemperatureField] > TemperatureMax {
      recommendations := recommendations + [TemperatureOutOfRange];
    }
    assert recommendations ==
      Step(AmmoniaRule, reading) + Step(OxygenRule, reading) + Step(PhRule, reading) + Step(TemperatureRule, reading);
    assert reading == ReadingOf(sensorData);
    RecommendStepwise(reading);

    if recommendations == [] {
      recommendations := recommendations + [AllAcceptable];
    }
    return Ok(recommendations);
  }
}
