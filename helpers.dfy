/** The payload validators of the questions blueprint. Each one walks a fixed
    list of field names and clears a flag when a field fails its test. */
module Helpers {
  import opened Payload

  /** The fields a question-creation body must carry, in checking order. */
  const QuestionFields: seq<string> := ["question", "answer", "category", "difficulty"]

  /** The fields a quiz request body must carry, in checking order. */
  const QuizFields: seq<string> := ["previous_questions", "quiz_category"]

  /** `key` is present in `data` and its value is not the empty string. */
  predicate Filled(data: Data, key: string) {
    key in data && !IsEmptyString(data[key])
  }

  /** Every key of `keys` is filled in `data`. */
  predicate AllFilled(data: Data, keys: seq<string>) {
    forall j :: 0 <= j < |keys| ==> Filled(data, keys[j])
  }

  /** Every key of `keys` is present in `data`, whatever its value. */
  predicate AllPresent(data: Data, keys: seq<string>) {
    forall j :: 0 <= j < |keys| ==> keys[j] in data
  }

  /** Reference reading of a valid question body, field by field: each of the
      four fields is present and is not the empty string. Other keys are not
      looked at. */
  predicate ValidQuestion(data: Data) {
    && Filled(data, "question")
    && Filled(data, "answer")
    && Filled(data, "category")
    && Filled(data, "difficulty")
  }

  /** Reference reading of a valid quiz request: both fields are present. */
  predicate ValidQuizRequest(data: Data) {
    "previous_questions" in data && "quiz_category" in data
  }

  /** isValidQuestion: a flag starts true and is cleared by every expected
      field that is missing or maps to the empty string. */
  method IsValidQuestion(data: Data) returns (isValid: bool)
    ensures isValid <==> ValidQuestion(data)
  {
    var expected := QuestionFields;
    isValid := true;
    for i := 0 to |expected|
      invariant isValid <==> AllFilled(data, expected[..i])
    {
      var item := expected[i];
      if item !in data || IsEmptyString(data[item]) {
        isValid := false;
      }
      assert expected[..i + 1] == expected[..i] + [item];
    }
    assert expected[..|expected|] == QuestionFields;
    AllFilledIsValidQuestion(data);
  }

  /** isValidQuizRequest: a flag starts true and is cleared by every expected
      field that is missing; values are never inspected. */
  method IsValidQuizRequest(data: Data) returns (isValid: bool)
    ensures isValid <==> ValidQuizRequest(data)
  {
    var expected := QuizFields;
    isValid := true;
    for i := 0 to |expected|
      invariant isValid <==> AllPresent(data, expected[..i])
    {
      var key := expected[i];
      if key !in data {
        isValid := false;
      }
      assert expected[..i + 1] == expected[..i] + [key];
    }
    assert expected[..|expected|] == QuizFields;
    assert QuizFields[0] == "previous_questions" && QuizFields[1] == "quiz_category";
  }

  /** Filling every field of the checking list is the field-by-field
      reading of a valid question body. */
  lemma AllFilledIsValidQuestion(data: Data)
    ensures AllFilled(data, QuestionFields) <==> ValidQuestion(data)
  {
    assert QuestionFields[0] == "question" && QuestionFields[1] == "answer";
    assert QuestionFields[2] == "category" && QuestionFields[3] == "difficulty";
  }

  /** The loop's verdict does not depend on the order in which the four
      fields are checked: any ordering of them gives the same answer. */
  lemma QuestionCheckOrderIrrelevant(data: Data, keys: seq<string>)
    requires multiset(keys) == multiset(QuestionFields)
    ensures AllFilled(data, keys) <==> ValidQuestion(data)
  {
    forall k | k in QuestionFields
      ensures k in keys
    {
      assert k in multiset(QuestionFields);
    }
    forall k | k in keys
      ensures k in QuestionFields
    {
      assert k in multiset(keys);
    }
    if AllFilled(data, keys) {
      forall k | k in QuestionFields
        ensures Filled(data, k)
      {
        var j :| 0 <= j < |keys| && keys[j] == k;
      }
      assert QuestionFields[0] == "question" && QuestionFields[3] == "difficulty";
    }
    if ValidQuestion(data) {
      forall j | 0 <= j < |keys|
        ensures Filled(data, keys[j])
      {
        assert keys[j] in keys;
      }
    }
  }

  /** A body missing one of the four fields is rejected. */
  lemma MissingFieldRejected(data: Data, key: string)
    requires key in QuestionFields && key !in data
    ensures !ValidQuestion(data)
  {
  }

  /** A body in which one of the four fields, text or not, is the empty
      string is rejected. */
  lemma EmptyFieldRejected(data: Data, key: string)
    requires key in QuestionFields && key in data && data[key] == Str("")
    ensures !ValidQuestion(data)
  {
  }

  /** Only the four fields are inspected: two bodies that agree on them get
      the same verdict, whatever other keys either carries. */
  lemma QuestionOnlyInspectsFields(d1: Data, d2: Data)
    requires forall k :: k in QuestionFields ==> (k in d1 <==> k in d2)
    requires forall k :: k in QuestionFields && k in d1 ==> d1[k] == d2[k]
    ensures ValidQuestion(d1) <==> ValidQuestion(d2)
  {
    assert "question" in QuestionFields && "answer" in QuestionFields;
    assert "category" in QuestionFields && "difficulty" in QuestionFields;
  }

  /** Adding a key that is not one of the four never changes the verdict. */
  lemma ExtraKeyIgnored(data: Data, key: string, v: Value)
    requires key !in QuestionFields
    ensures ValidQuestion(data[key := v]) <==> ValidQuestion(data)
  {
    QuestionOnlyInspectsFields(data, data[key := v]);
  }

  /** Only the presence of the two fields matters to the quiz validator. */
  lemma QuizOnlyInspectsKeys(d1: Data, d2: Data)
    requires forall k :: k in QuizFields ==> (k in d1 <==> k in d2)
    ensures ValidQuizRequest(d1) <==> ValidQuizRequest(d2)
  {
    assert "previous_questions" in QuizFields && "quiz_category" in QuizFields;
  }

  /** Empty-string values and a quiz category without an `id` still pass. */
  lemma QuizValuesNotInspected()
    ensures ValidQuizRequest(map["previous_questions" := Str(""), "quiz_category" := Str("")])
    ensures ValidQuizRequest(map["previous_questions" := Array([]), "quiz_category" := Object(map[])])
  {
  }
}
