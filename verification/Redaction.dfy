/**
 Keeping submitted secrets out of validation errors (backend/app/main.py).
 */
module Redaction {
  import opened Options

  // An object is its fields in order.
  datatype Json =
    | Null
    | Bool(b: bool)
    | Number(n: int)
    | Str(s: string)
    | Array(items: seq<Json>)
    | Object(fields: seq<(string, Json)>)

  const SENSITIVE_FIELD_NAMES: set<string> := {
    "password", "new_password", "current_password", "confirm_password", "token", "refresh_token",
    "mfa_token", "email_token", "recovery_code", "code"
  }

  const REDACTED := Str("<redacted>")

  function Redact(value: Json): Json {
    match value
    case Object(fields) =>
      Object(seq(|fields|, i requires 0 <= i < |fields| =>
        (fields[i].0, if fields[i].0 in SENSITIVE_FIELD_NAMES then REDACTED else Redact(fields[i].1))))
    case Array(items) => Array(seq(|items|, i requires 0 <= i < |items| => Redact(items[i])))
    case _ => value
  }

  // No sensitive key, at any depth, holds anything but the marker.
  predicate Clean(value: Json) {
    match value
    case Object(fields) =>
      forall i :: 0 <= i < |fields| ==>
        if fields[i].0 in SENSITIVE_FIELD_NAMES then fields[i].1 == REDACTED else Clean(fields[i].1)
    case Array(items) => forall i :: 0 <= i < |items| ==> Clean(items[i])
    case _ => true
  }

  lemma {:induction false} RedactedIsClean(value: Json)
    ensures Clean(Redact(value))
  {
    match value
    case Object(fields) =>
      forall i | 0 <= i < |fields| && fields[i].0 !in SENSITIVE_FIELD_NAMES
        ensures Clean(Redact(fields[i].1))
      {
        RedactedIsClean(fields[i].1);
      }
    case Array(items) =>
      forall i | 0 <= i < |items|
        ensures Clean(Redact(items[i]))
      {
        RedactedIsClean(items[i]);
      }
    case _ =>
  }

  // The walk changes nothing that is clean, and only that.
  lemma {:induction false} RedactFixesExactlyTheClean(value: Json)
    ensures Redact(value) == value <==> Clean(value)
  {
    match value
    case Object(fields) =>
      forall i | 0 <= i < |fields| && fields[i].0 !in SENSITIVE_FIELD_NAMES
        ensures Redact(fields[i].1) == fields[i].1 <==> Clean(fields[i].1)
      {
        RedactFixesExactlyTheClean(fields[i].1);
      }
      var after := Redact(value).fields;
      assert after == fields <==> forall i :: 0 <= i < |fields| ==> after[i] == fields[i];
    case Array(items) =>
      forall i | 0 <= i < |items|
        ensures Redact(items[i]) == items[i] <==> Clean(items[i])
      {
        RedactFixesExactlyTheClean(items[i]);
      }
      var after := Redact(value).items;
      assert after == items <==> forall i :: 0 <= i < |items| ==> after[i] == items[i];
    case _ =>
  }

  lemma RedactIsIdempotent(value: Json)
    ensures Redact(Redact(value)) == Redact(value)
  {
    RedactedIsClean(value);
    RedactFixesExactlyTheClean(Redact(value));
  }

  // The ten names the handler knows, and the text that takes the place of what they hold.
  lemma TheseFieldsAreHidden(name: string, value: Json)
    requires || name == "password" || name == "new_password" || name == "current_password"
             || name == "confirm_password" || name == "token" || name == "refresh_token" || name == "mfa_token"
             || name == "email_token" || name == "recovery_code" || name == "code"
    ensures Redact(Object([(name, value)])) == Object([(name, Str("<redacted>"))])
  {
    assert Redact(Object([(name, value)])).fields == [(name, REDACTED)];
  }

  // ---------- what is kept ----------

  // The value at a path of positions, if the path leads anywhere.
  function At(value: Json, path: seq<nat>): Option<Json> {
    if path == [] then Some(value)
    else if value.Object? && path[0] < |value.fields| then At(value.fields[path[0]].1, path[1..])
    else if value.Array? && path[0] < |value.items| then At(value.items[path[0]], path[1..])
    else None
  }

  // Whether some step of the path enters a sensitive field.
  predicate Secret(value: Json, path: seq<nat>) {
    if path == [] then false
    else if value.Object? && path[0] < |value.fields| then
      value.fields[path[0]].0 in SENSITIVE_FIELD_NAMES || Secret(value.fields[path[0]].1, path[1..])
    else if value.Array? && path[0] < |value.items| then Secret(value.items[path[0]], path[1..])
    else false
  }

  // Scalars stay, keys stay in place, lengths stay.
  predicate SameOutline(a: Json, b: Json) {
    match a
    case Object(fields) =>
      b.Object? && |b.fields| == |fields| && forall i :: 0 <= i < |fields| ==> b.fields[i].0 == fields[i].0
    case Array(items) => b.Array? && |b.items| == |items|
    case _ => a == b
  }

  // Outside sensitive fields every path leads where it led, to a value with the same outline; inside one
  // it leads to the marker or nowhere.
  lemma {:induction false} RedactKeepsTheRest(value: Json, path: seq<nat>)
    ensures !Secret(value, path) ==>
              && (At(Redact(value), path).Some? <==> At(value, path).Some?)
              && (At(value, path).Some? ==> SameOutline(At(value, path).value, At(Redact(value), path).value))
    ensures Secret(value, path) ==> At(Redact(value), path) in {None, Some(REDACTED)}
    decreases |path|
  {
    if path != [] {
      if value.Object? && path[0] < |value.fields| {
        RedactKeepsTheRest(value.fields[path[0]].1, path[1..]);
      } else if value.Array? && path[0] < |value.items| {
        RedactKeepsTheRest(value.items[path[0]], path[1..]);
      }
    }
  }

  // ---------- the handler ----------

  datatype LocPart = Name(name: string) | Position(index: int)

  // `loc` is absent when it is not a list; `rest` stands for the members the handler copies.
  datatype ValidationError = ValidationError(loc: Option<seq<LocPart>>, input: Option<Json>, rest: Json)

  predicate LocTargetsSensitiveField(loc: Option<seq<LocPart>>) {
    loc.Some? && exists i :: 0 <= i < |loc.value| && loc.value[i].Name? && loc.value[i].name in SENSITIVE_FIELD_NAMES
  }

  // Position i of a location is the name of a sensitive field.
  predicate NamesASecret(loc: Option<seq<LocPart>>, i: int) {
    loc.Some? && 0 <= i < |loc.value| && loc.value[i].Name? && loc.value[i].name in SENSITIVE_FIELD_NAMES
  }

  lemma SecretsAreFound(loc: Option<seq<LocPart>>)
    ensures LocTargetsSensitiveField(loc) <==> exists i :: NamesASecret(loc, i)
  {
    if LocTargetsSensitiveField(loc) {
      var i :| 0 <= i < |loc.value| && loc.value[i].Name? && loc.value[i].name in SENSITIVE_FIELD_NAMES;
      assert NamesASecret(loc, i);
    }
  }

  function Sanitized(err: ValidationError): ValidationError {
    if err.input.None? then err
    else if LocTargetsSensitiveField(err.loc) then err.(input := Some(REDACTED))
    else err.(input := Some(Redact(err.input.value)))
  }

  method RequestValidationHandler(errors: seq<ValidationError>) returns (detail: seq<ValidationError>)
    ensures |detail| == |errors|
    ensures forall k :: 0 <= k < |errors| ==>
              detail[k].loc == errors[k].loc && detail[k].rest == errors[k].rest
              && (detail[k].input.Some? <==> errors[k].input.Some?)
    ensures forall k, i :: 0 <= k < |errors| && errors[k].input.Some? && NamesASecret(errors[k].loc, i) ==>
              detail[k].input == Some(REDACTED)
    ensures forall k :: 0 <= k < |errors| && errors[k].input.Some? ==>
              Clean(detail[k].input.value)
              && ((forall i :: !NamesASecret(errors[k].loc, i)) ==>
                  detail[k].input == Some(Redact(errors[k].input.value)))
  {
    detail := [];
    for k := 0 to |errors|
      invariant |detail| == k
      invariant forall i :: 0 <= i < k ==> detail[i] == Sanitized(errors[i])
    {
      var newErr := errors[k];
      if newErr.input.Some? {
        if LocTargetsSensitiveField(newErr.loc) {
          newErr := newErr.(input := Some(REDACTED));
        } else {
          newErr := newErr.(input := Some(Redact(newErr.input.value)));
        }
      }
      detail := detail + [newErr];
    }
    forall i | 0 <= i < |errors|
      ensures detail[i].input.Some? ==> Clean(detail[i].input.value)
      ensures LocTargetsSensitiveField(errors[i].loc) <==> exists p :: NamesASecret(errors[i].loc, p)
    {
      SanitizedErrorsAreClean(errors[i]);
      SecretsAreFound(errors[i].loc);
    }
  }

  // Nothing leaves with an unclean input; an input is gone altogether if any position of its location names a
  // secret, and otherwise comes back redacted, so unchanged if it was clean; all else is as it came.
  lemma SanitizedErrorsAreClean(err: ValidationError)
    ensures Sanitized(err).loc == err.loc && Sanitized(err).rest == err.rest
    ensures Sanitized(err).input.Some? <==> err.input.Some?
    ensures Sanitized(err).input.Some? ==> Clean(Sanitized(err).input.value)
    ensures err.input.Some? && (exists i :: NamesASecret(err.loc, i)) ==> Sanitized(err).input == Some(REDACTED)
    ensures err.input.Some? && (forall i :: !NamesASecret(err.loc, i)) ==>
              (Sanitized(err).input == err.input <==> Clean(err.input.value))
  {
    SecretsAreFound(err.loc);
    if err.input.Some? {
      RedactedIsClean(err.input.value);
      RedactFixesExactlyTheClean(err.input.value);
    }
  }
}
