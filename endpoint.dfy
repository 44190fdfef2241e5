/** The prediction endpoint: maps the classifier's class id to a water-quality
    label, runs the rule engine on the same request body, and answers with
    both, or with an error when any step fails. The classifier itself is
    opaque: its outcome on the request is an input here. */
module Endpoint {
  import opened RuleEngine

  /** What the opaque classifier did with the request's feature vector: it
      produced a class id, or it raised an exception with a message. */
  datatype Inference = Predicted(classId: int) | Raised(message: string)

  /** Why a request failed; the endpoint answers each with an error response. */
  datatype Failure =
    | ClassifierRaised(message: string)  // the classifier call raised
    | UnknownClass(classId: int)         // the class id is not in the label table
    | MissingField(field: string)        // the rule engine looked up an absent field

  /** The endpoint's answer: a label with its advisories, or an error. */
  datatype Response =
    | Success(waterQuality: string, recommendations: seq<Recommendation>)
    | Error(failure: Failure)

  /** The fixed label table for the classifier's class ids. */
  const Classes: map<int, string> := map[0 := "Poor", 1 := "Average", 2 := "Good"]

  /** The label table knows exactly the ids 0, 1 and 2, gives each its own
      label, and has no other label. */
  lemma ClassesTable()
    ensures Classes.Keys == {0, 1, 2}
    ensures Classes[0] == "Poor" && Classes[1] == "Average" && Classes[2] == "Good"
    ensures forall i, j :: i in Classes && j in Classes && Classes[i] == Classes[j] ==> i == j
    ensures Classes.Values == {"Poor", "Average", "Good"}
  {
  }

  /** Handle one prediction request: inference first, then the label lookup,
      then the rule engine; the first step that fails decides the error, and
      no partial result is ever returned. */
  method Predict(data: map<string, real>, inference: Inference) returns (response: Response)
    ensures response.Success? <==>
      inference.Predicted? && inference.classId in Classes && HasAllFields(data)
    ensures response.Success? ==>
      && response.waterQuality == Classes[inference.classId]
      && response.recommendations == Recommend(ReadingOf(data))
    ensures inference.Raised? ==> response == Error(ClassifierRaised(inference.message))
    ensures inference.Predicted? && inference.classId !in Classes ==>
      response == Error(UnknownClass(inference.classId))
    ensures inference.Predicted? && inference.classId in Classes && !HasAllFields(data) ==>
      exists k: nat :: FirstMissing(data, k) && response == Error(MissingField(LookupOrder[k]))
  {
    if inference.Raised? {
      return Error(ClassifierRaised(inference.message));
    }
    var prediction := inference.classId;
    if prediction !in Classes {
      return Error(UnknownClass(prediction));
    }
    var result := Classes[prediction];
    var recommendations := GetRecommendation(data);
    if recommendations.KeyError? {
      return Error(MissingField(recommendations.key));
    }
    return Success(result, recommendations.value);
  }
}
