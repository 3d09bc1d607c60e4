/** The part of the `validator` crate the request bodies use: rules attached to fields,
    each with its message, and the per-field failures a failed validation reports. */
module Validator {
  import opened Wrappers

  /** One rule on one field, already evaluated: whether it holds, and its message. */
  datatype Rule = Rule(holds: bool, message: string)

  /** `ValidationErrors::field_errors()` for one field: the messages of the rules that failed,
      in the order the rules are declared. A rule may carry no message. */
  datatype FieldFailures = FieldFailures(field: string, messages: seq<Option<string>>)

  /** `length(min = .., max = ..)`: bounds on the number of characters. */
  predicate LengthWithin(s: string, min: nat, max: Option<nat>) {
    min <= |s| && (max.None? || |s| <= max.value)
  }

  /** A rule on an `Option` field holds when the field is absent. */
  function OnPresent(value: Option<string>, check: string -> bool, message: string): Rule {
    Rule(value.None? || check(value.value), message)
  }

  /** The messages of the rules that fail. */
  function FailedMessages(rules: seq<Rule>): (ms: seq<Option<string>>)
    ensures |ms| <= |rules|
    ensures ms == [] <==> forall i :: 0 <= i < |rules| ==> rules[i].holds
    ensures forall m :: m in ms ==> exists i :: 0 <= i < |rules| && !rules[i].holds && m == Some(rules[i].message)
    ensures forall i :: 0 <= i < |rules| && !rules[i].holds ==> Some(rules[i].message) in ms
    decreases |rules|
  {
    if rules == [] then []
    else
      var rest := FailedMessages(rules[1..]);
      assert forall i :: 1 <= i < |rules| ==> rules[i] == rules[1..][i - 1];
      if rules[0].holds then rest else [Some(rules[0].message)] + rest
  }

  /** `Validate::validate`: success when every rule of every field holds; otherwise the
      fields that have a failing rule, each with the messages of its failing rules. */
  function Validate(fields: seq<(string, seq<Rule>)>): (r: Result<(), seq<FieldFailures>>)
    ensures r.Success? <==> forall i, j :: 0 <= i < |fields| && 0 <= j < |fields[i].1| ==> fields[i].1[j].holds
    ensures r.Failure? ==> |r.error| >= 1 && forall f :: f in r.error ==> f.messages != []
  {
    var failures := Failing(fields);
    if failures == [] then Success(()) else Failure(failures)
  }

  /** The fields with a failing rule, in declaration order. */
  function Failing(fields: seq<(string, seq<Rule>)>): (fs: seq<FieldFailures>)
    ensures fs == [] <==> forall i, j :: 0 <= i < |fields| && 0 <= j < |fields[i].1| ==> fields[i].1[j].holds
    ensures forall f :: f in fs ==> f.messages != [] && exists i :: 0 <= i < |fields| && f == FieldFailures(fields[i].0, FailedMessages(fields[i].1))
    decreases |fields|
  {
    if fields == [] then []
    else
      var rest := Failing(fields[1..]);
      assert forall i :: 1 <= i < |fields| ==> fields[i] == fields[1..][i - 1];
      var ms := FailedMessages(fields[0].1);
      if ms == [] then rest else [FieldFailures(fields[0].0, ms)] + rest
  }

  /** The failure reports `message` for `field`. */
  predicate Reported(r: Result<(), seq<FieldFailures>>, field: string, message: string) {
    r.Failure? && exists f :: f in r.error && f.field == field && Some(message) in f.messages
  }

  /** Every failing rule is reported under its field, with its message. */
  lemma {:induction false} FailingRuleReported(fields: seq<(string, seq<Rule>)>, i: nat, j: nat)
    requires i < |fields| && j < |fields[i].1| && !fields[i].1[j].holds
    ensures FieldFailures(fields[i].0, FailedMessages(fields[i].1)) in Failing(fields)
    ensures Reported(Validate(fields), fields[i].0, fields[i].1[j].message)
    decreases i
  {
    var ms := FailedMessages(fields[i].1);
    assert Some(fields[i].1[j].message) in ms;
    if i == 0 {
      assert Failing(fields) == [FieldFailures(fields[0].0, ms)] + Failing(fields[1..]);
    } else {
      assert fields[1..][i - 1] == fields[i];
      FailingRuleReported(fields[1..], i - 1, j);
      var rest := Failing(fields[1..]);
      assert Failing(fields) == rest || Failing(fields) == [FieldFailures(fields[0].0, FailedMessages(fields[0].1))] + rest;
    }
  }

  predicate AllHold(rules: seq<Rule>) {
    forall j :: 0 <= j < |rules| ==> rules[j].holds
  }

  /** A body with two validated fields passes exactly when both fields' rules all hold. */
  lemma ValidateTwoFields(f1: string, r1: seq<Rule>, f2: string, r2: seq<Rule>)
    ensures Validate([(f1, r1), (f2, r2)]).Success? <==> AllHold(r1) && AllHold(r2)
  {
    var fields: seq<(string, seq<Rule>)> := [(f1, r1), (f2, r2)];
    if AllHold(r1) && AllHold(r2) {
      forall i, j | 0 <= i < |fields| && 0 <= j < |fields[i].1|
        ensures fields[i].1[j].holds
      {
        if i == 0 { assert fields[i].1 == r1; } else { assert fields[i].1 == r2; }
      }
    } else if !AllHold(r1) {
      var j :| 0 <= j < |r1| && !r1[j].holds;
      assert !fields[0].1[j].holds;
    } else {
      var j :| 0 <= j < |r2| && !r2[j].holds;
      assert !fields[1].1[j].holds;
    }
  }
}
