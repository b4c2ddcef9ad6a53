/** The error list of a validation: one entry per field, in order of first failure, each with its latest messages. */
module FieldErrors {
  import opened Wrappers

  datatype FieldError = FieldError(field: string, conditions: map<string, string>)
  datatype Report = Report(field: string, item: string, message: string)

  function Added(errors: seq<FieldError>, r: Report): seq<FieldError> {
    if errors == [] then [FieldError(r.field, map[r.item := r.message])]
    else if errors[0].field == r.field
    then [FieldError(r.field, errors[0].conditions[r.item := r.message])] + errors[1..]
    else [errors[0]] + Added(errors[1..], r)
  }

  class Validator {
    var errors: seq<FieldError>

    constructor ()
      ensures errors == []
    {
      errors := [];
    }

    /** The first entry of the field is updated in place; a new field is appended. */
    method AddError(r: Report)
      modifies this
      ensures errors == Added(old(errors), r)
    {
      for i := 0 to |errors|
        invariant errors == old(errors) && forall j | 0 <= j < i :: errors[j].field != r.field
      {
        if errors[i].field == r.field {
          AddedAt(errors, r, i);
          errors := errors[i := errors[i].(conditions := errors[i].conditions[r.item := r.message])];
          return;
        }
      }
      AddedAt(errors, r, |errors|);
      errors := errors + [FieldError(r.field, map[r.item := r.message])];
    }
  }

  lemma {:induction false} AddedAt(errors: seq<FieldError>, r: Report, i: nat)
    requires i <= |errors| && (forall j | 0 <= j < i :: errors[j].field != r.field)
    requires i < |errors| ==> errors[i].field == r.field
    ensures Added(errors, r) ==
            if i == |errors| then errors + [FieldError(r.field, map[r.item := r.message])]
            else errors[i := errors[i].(conditions := errors[i].conditions[r.item := r.message])]
    decreases |errors|
  {
    if i > 0 {
      AddedAt(errors[1..], r, i - 1);
    }
  }

  function AddAll(reports: seq<Report>): seq<FieldError> {
    if reports == [] then [] else Added(AddAll(reports[..|reports| - 1]), reports[|reports| - 1])
  }

  function Fields(errors: seq<FieldError>): seq<string> {
    if errors == [] then [] else [errors[0].field] + Fields(errors[1..])
  }

  function Lookup(errors: seq<FieldError>, field: string, item: string): Option<string> {
    if errors == [] then None
    else if errors[0].field == field then
      if item in errors[0].conditions then Some(errors[0].conditions[item]) else None
    else Lookup(errors[1..], field, item)
  }

  /// What the reports themselves say

  function FirstFields(reports: seq<Report>): seq<string> {
    if reports == [] then []
    else
      var before, field := FirstFields(reports[..|reports| - 1]), reports[|reports| - 1].field;
      if field in before then before else before + [field]
  }

  function LastMessage(reports: seq<Report>, field: string, item: string): Option<string> {
    if reports == [] then None
    else
      var last := reports[|reports| - 1];
      if last.field == field && last.item == item then Some(last.message)
      else LastMessage(reports[..|reports| - 1], field, item)
  }

  lemma {:induction false} AddedOne(errors: seq<FieldError>, r: Report, field: string, item: string)
    ensures Lookup(Added(errors, r), field, item) ==
            if field == r.field && item == r.item then Some(r.message) else Lookup(errors, field, item)
    ensures Fields(Added(errors, r)) == if r.field in Fields(errors) then Fields(errors) else Fields(errors) + [r.field]
    decreases |errors|
  {
    var added := Added(errors, r);
    if errors == [] {
      assert added[1..] == [];
    } else if errors[0].field == r.field {
      assert added[1..] == errors[1..];
    } else {
      assert added[1..] == Added(errors[1..], r);
      AddedOne(errors[1..], r, field, item);
    }
  }

  /** Each field is listed once, in the order of first reports, and each condition holds its last message. */
  lemma {:induction false} ListSaysWhatWasReported(reports: seq<Report>, field: string, item: string)
    ensures Fields(AddAll(reports)) == FirstFields(reports)
    ensures Lookup(AddAll(reports), field, item) == LastMessage(reports, field, item)
    decreases |reports|
  {
    if reports != [] {
      ListSaysWhatWasReported(reports[..|reports| - 1], field, item);
      AddedOne(AddAll(reports[..|reports| - 1]), reports[|reports| - 1], field, item);
    }
  }
}
