/** The request-body checks of the profile update: each of `name`,
    `addressLine1`, `city` and `country` must be a string (`isString`) and
    not empty (`notEmpty`, whose message the rule sets); then
    `handleValidationErrors` answers 400 with every error found, or passes
    the request on. */
module Validation {
  import opened Http

  /** A body field as the validators see it. A value that is neither a
      string nor null carries the text `notEmpty` reads off it. */
  datatype FieldValue = Missing | Null | Str(s: string) | NonString(rendered: string)

  /** One entry of `validationResult(req).array()`. */
  datatype FieldError = FieldError(path: string, msg: string, value: FieldValue)

  /** The message of a failed `isString`, which the rules leave as is. */
  const DefaultMessage: string := "Invalid value"

  /** `validateMyUserRequest`: each field with the message of its `notEmpty`. */
  const MyUserRules: seq<(string, string)> := [
    ("name", "Name must be a string"),
    ("addressLine1", "AddressLine1 must be a string"),
    ("city", "City must be a string"),
    ("country", "Country must be a string")
  ]

  function FieldOf(body: map<string, FieldValue>, path: string): FieldValue
  {
    if path in body then body[path] else Missing
  }

  /** The text `notEmpty` tests: "" for a missing or null value. */
  function TextOf(v: FieldValue): string
  {
    match v
    case Missing => ""
    case Null => ""
    case Str(s) => s
    case NonString(rendered) => rendered
  }

  /** The errors of one rule: both validators run, so a missing field fails
      twice. */
  function CheckField(body: map<string, FieldValue>, path: string, message: string): (errors: seq<FieldError>)
    ensures |errors| == 0 <==> NonEmptyString(FieldOf(body, path))
    ensures forall e :: e in errors ==> e.path == path && e.value == FieldOf(body, path)
    ensures message != DefaultMessage ==>
      && (FieldError(path, DefaultMessage, FieldOf(body, path)) in errors <==> !FieldOf(body, path).Str?)
      && (FieldError(path, message, FieldOf(body, path)) in errors <==> TextOf(FieldOf(body, path)) == "")
  {
    var v := FieldOf(body, path);
    (if v.Str? then [] else [FieldError(path, DefaultMessage, v)])
    + (if TextOf(v) != "" then [] else [FieldError(path, message, v)])
  }

  /** The errors of a list of rules, rule by rule. */
  function CheckAll(body: map<string, FieldValue>, rules: seq<(string, string)>): seq<FieldError>
  {
    if |rules| == 0 then [] else CheckField(body, rules[0].0, rules[0].1) + CheckAll(body, rules[1..])
  }

  /** Every rule runs: an error is in the result exactly when one of the
      rules reports it, so failures on several fields come together. */
  lemma {:induction false} CheckAllCollects(body: map<string, FieldValue>, rules: seq<(string, string)>, e: FieldError)
    ensures e in CheckAll(body, rules) <==>
      exists i :: 0 <= i < |rules| && e in CheckField(body, rules[i].0, rules[i].1)
  {
    if |rules| > 0 {
      CheckAllCollects(body, rules[1..], e);
      if e in CheckAll(body, rules[1..]) {
        var i :| 0 <= i < |rules[1..]| && e in CheckField(body, rules[1..][i].0, rules[1..][i].1);
        assert rules[1..][i] == rules[i + 1];
      }
      if exists i :: 0 <= i < |rules| && e in CheckField(body, rules[i].0, rules[i].1) {
        var i :| 0 <= i < |rules| && e in CheckField(body, rules[i].0, rules[i].1);
        if i > 0 {
          assert rules[1..][i - 1] == rules[i];
        }
      }
    }
  }

  /** `handleValidationErrors`: 400 with the errors when there are any,
      otherwise `next`. */
  function HandleValidationErrors(errors: seq<FieldError>): (o: Outcome<seq<FieldError>>)
    ensures o == CallNext <==> |errors| == 0
    ensures o.Halt? ==> o.reply == Reply(BadRequest, Json(errors))
  {
    if |errors| > 0 then Halt(Reply(BadRequest, Json(errors))) else CallNext
  }

  function ValidateMyUserRequest(body: map<string, FieldValue>): Outcome<seq<FieldError>>
  {
    HandleValidationErrors(CheckAll(body, MyUserRules))
  }

  predicate NonEmptyString(v: FieldValue)
  {
    v.Str? && |v.s| > 0
  }

  /** No errors at all exactly when every rule finds none. */
  lemma {:induction false} CheckAllEmpty(body: map<string, FieldValue>, rules: seq<(string, string)>)
    ensures |CheckAll(body, rules)| == 0 <==>
      forall i :: 0 <= i < |rules| ==> |CheckField(body, rules[i].0, rules[i].1)| == 0
  {
    if |rules| > 0 {
      CheckAllEmpty(body, rules[1..]);
      assert forall i :: 1 <= i < |rules| ==> rules[i] == rules[1..][i - 1];
    }
  }

  /** When the rules name distinct fields, the errors about one field are
      exactly those its own rule reports. */
  lemma CheckAllReportsRule(body: map<string, FieldValue>, rules: seq<(string, string)>, i: int, e: FieldError)
    requires forall j, k :: 0 <= j < k < |rules| ==> rules[j].0 != rules[k].0
    requires 0 <= i < |rules| && e.path == rules[i].0
    ensures e in CheckAll(body, rules) <==> e in CheckField(body, rules[i].0, rules[i].1)
  {
    CheckAllCollects(body, rules, e);
  }

  /** A body passes exactly when the four fields are non-empty strings. */
  lemma MyUserRequestPasses(body: map<string, FieldValue>)
    ensures ValidateMyUserRequest(body) == CallNext <==>
      && NonEmptyString(FieldOf(body, "name"))
      && NonEmptyString(FieldOf(body, "addressLine1"))
      && NonEmptyString(FieldOf(body, "city"))
      && NonEmptyString(FieldOf(body, "country"))
  {
    CheckAllEmpty(body, MyUserRules);
    assert MyUserRules[0].0 == "name" && MyUserRules[1].0 == "addressLine1";
    assert MyUserRules[2].0 == "city" && MyUserRules[3].0 == "country";
  }

  /** Every field that fails is reported, with its rule's message when it
      is empty and with the default message when it is not a string; no
      other field is. */
  lemma MyUserRequestReportsEveryField(body: map<string, FieldValue>, i: int)
    requires 0 <= i < |MyUserRules|
    ensures var (path, message) := MyUserRules[i];
      var errors := CheckAll(body, MyUserRules);
      && (FieldError(path, message, FieldOf(body, path)) in errors <==> TextOf(FieldOf(body, path)) == "")
      && (FieldError(path, DefaultMessage, FieldOf(body, path)) in errors <==> !FieldOf(body, path).Str?)
      && (forall e :: e in errors ==> e.path in {"name", "addressLine1", "city", "country"})
  {
    var rules := MyUserRules;
    assert rules[0].0 == "name" && rules[1].0 == "addressLine1" && rules[2].0 == "city" && rules[3].0 == "country";
    assert forall j :: 0 <= j < |rules| ==> rules[j].1 != DefaultMessage;
    var (path, message) := rules[i];
    CheckAllReportsRule(body, rules, i, FieldError(path, message, FieldOf(body, path)));
    CheckAllReportsRule(body, rules, i, FieldError(path, DefaultMessage, FieldOf(body, path)));
    forall e | e in CheckAll(body, rules)
      ensures e.path in {"name", "addressLine1", "city", "country"}
    {
      CheckAllCollects(body, rules, e);
      var j :| 0 <= j < |rules| && e in CheckField(body, rules[j].0, rules[j].1);
      assert e.path == rules[j].0;
    }
  }
}
