# Fish-pond water-quality backend: rule engine and prediction endpoint

This project models the decision logic of a small HTTP backend that judges
fish-pond water quality. A request carries four sensor readings (temperature,
pH, ammonia, dissolved oxygen).

- An opaque trained classifier turns the readings into a class id.
- A fixed table maps the class id to a label ("Poor", "Average", "Good").
- A threshold rule engine turns the same readings into an ordered list of
  issue/recommendation advisories.

The model is in two Dafny modules.

- `RuleEngine` (`rule_engine.dfy`) covers the rule engine.
  - `Recommend` is the reference definition: filter the four rules in their
    fixed order down to those that fire, map each to its advisory, and fall
    back to the single "all parameters acceptable" advisory when none fires.
  - `GetRecommendation` is the engine as the source writes it. It reads the
    request body (a map from field name to value) one field at a time and
    appends to a local sequence. A missing field stops it with a `KeyError`
    naming the first absent field in lookup order (ammonia, oxygen, pH,
    temperature). Its contract ties the result to `Recommend`.
  - Lemmas about `Recommend` state the properties: the result has one to four
    entries, the iff condition of each rule at its exact thresholds, the fixed
    order with no repetition, and when the fallback appears.
- `Endpoint` (`endpoint.dfy`) covers the prediction endpoint. It runs the
  classifier step, then the label lookup, then the rule engine. It answers
  with `Success(label, advisories)`, or with `Error` for the first step that
  failed. It never returns a partial result.

Readings are `real`. The engine only compares them against constants.

A class id outside {0, 1, 2} is an error, not a label.
- The lookup `classes[...]` (app.py:55) raises `KeyError` for such an id.
- The exception handler (app.py:61-62) answers with an error response.
- `Endpoint.Predict` returns `Error(UnknownClass(id))` for it.

## Model

| member | source | states |
|---|---|---|
| `RuleEngine.Recommend` | app.py:17-45 | the result is never empty and has at most 4 entries (that no entry repeats is `RecommendOrder`'s contract) |
| `RuleEngine.GetRecommendation` | app.py:16-45 | the step-by-step engine succeeds exactly when all four fields are present, and then returns exactly the reference advisories of the reading; otherwise it raises KeyError for the first missing field in lookup order |
| `RuleEngine.RecommendStepwise` | app.py:17-43 | the reference definition (filter the rules that fire, map them to advisories, use the fallback when none fires) equals testing the four rules one after another, appending each advisory, and then appending the fallback if nothing was appended |
| `RuleEngine.FallbackExactlyWhenNothingFires` | app.py:39-43 | the "All parameters are within acceptable ranges." advisory appears exactly when no rule fires, and it is then the only advisory |
| `RuleEngine.AdviceIffFires` | app.py:18-37 | each rule's advisory appears exactly when that rule fires |
| `RuleEngine.RecommendOrder` | app.py:18-37 | the advisories appear in the fixed order ammonia, oxygen, pH, temperature, and no advisory appears twice |
| `RuleEngine.TriggeredKeepsOrder` | app.py:18-37 | picking out the rules that fire keeps their evaluation order |
| `RuleEngine.AmmoniaThreshold` | app.py:18-22 | the ammonia advisory appears iff ammonia > 3.0; 3.0 itself does not trigger it |
| `RuleEngine.OxygenThreshold` | app.py:23-27 | the low-oxygen advisory appears iff dissolved oxygen < 5.0; 5.0 itself does not trigger it |
| `RuleEngine.PhThreshold` | app.py:28-32 | the pH advisory appears iff pH < 6.5 or pH > 8.5; both bounds are acceptable |
| `RuleEngine.TemperatureThreshold` | app.py:33-37 | the temperature advisory appears iff temperature < 10 or > 35; both bounds are acceptable |
| `RuleEngine.InRangeReadingIsAcceptable` | app.py:39-43 | the reading (temperature 25, pH 7.2, ammonia 1.0, oxygen 6.0) gets the fallback advisory and nothing else |
| `Endpoint.ClassesTable` | app.py:54 | the label table maps exactly 0, 1, 2 to "Poor", "Average", "Good"; different ids get different labels |
| `Endpoint.Predict` | app.py:49-62 | success exactly when the classifier produced an id in the label table and all four fields are present; a success carries that id's label and the reference advisories; a classifier exception, an unknown id, or a missing field (the first one in lookup order) each give an error and never a success |

## Left out

- HTTP and JSON plumbing: the Flask application, routing, `request.json` parsing and `jsonify` serialisation (app.py:1, 7, 48-51, 57-60). The request body is a map from field name to real.
- Non-numeric field values and bodies that are not JSON objects are not modelled, because a `map<string, real>` cannot express them. `request.json` (app.py:51) accepts any JSON value.
  - A string or null reading makes `model.predict` (app.py:53) raise, or makes a comparison in app.py:18-33 raise `TypeError`. Line 61 turns either into an error response.
  - A JSON `true`/`false` reading compares as 1/0 and can succeed.
  - A body that is not an object fails at the DataFrame construction (app.py:52) or at the subscript on app.py:18.
- CORS configuration (app.py:10): framework configuration.
- Loading the model artifact with `joblib.load` (app.py:13): file I/O and deserialisation.
- The pandas `DataFrame` construction and `model.predict` (app.py:52-53): a foreign library and a trained model. The classifier's outcome is an input `Inference`, either a class id or an exception message. `Inference` also covers indexing the result with `prediction[0]` and the truncating `int(...)` of app.py:55. A failure in either becomes a `Raised` outcome. A missing column becomes NaN in the DataFrame, and what the classifier does with it belongs to that input. Either way a missing field never yields a success, because the rule engine then raises `KeyError`.
- Endpoint.Predict: the error message text (`str(e)`) is not rendered. The failure is kept as a structured value: the classifier's message, the unknown class id, or the missing field name.
- IEEE-754 floating point, NaN included: readings are exact reals. Under NaN every Python comparison is false, which would change which rules fire.
- The health route `home` (app.py:65-67): it returns a constant string.
- `app.run` (app.py:69-70): process startup.
