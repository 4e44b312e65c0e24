/** Validation of a creation request: four independent field checks whose
    errors accumulate in order instead of stopping at the first. */
module Validator {
  import opened Wrappers
  import opened Entity

  /** A field-scoped validation failure. */
  datatype Error = Error(message: string)

  const UserIdMessage: string := "userId is invalid"
  const NameMessage: string := "name is invalid"
  const ProviderMessage: string := "provider is invalid"
  const ExpirationDateMessage: string := "expirationDate is invalid"

  /** userId must be present. */
  predicate UserIdOk(dto: CreateSubscriptionDto) {
    dto.userId.Some?
  }

  /** name must be present and non-empty. */
  predicate NameOk(dto: CreateSubscriptionDto) {
    dto.name.Some? && dto.name.value != ""
  }

  /** provider must be present and name a known provider. */
  predicate ProviderOk(dto: CreateSubscriptionDto) {
    dto.provider.Some? && ParseProvider(dto.provider.value).Some?
  }

  /** expirationDate must be present and strictly after `now`. */
  predicate ExpirationDateOk(dto: CreateSubscriptionDto, now: Instant) {
    dto.expirationDate.Some? && dto.expirationDate.value > now
  }

  predicate AllOk(dto: CreateSubscriptionDto, now: Instant) {
    UserIdOk(dto) && NameOk(dto) && ProviderOk(dto) && ExpirationDateOk(dto, now)
  }

  /** The four messages, in the order the checks run. */
  function KnownErrors(): seq<Error> {
    [Error(UserIdMessage), Error(NameMessage), Error(ProviderMessage), Error(ExpirationDateMessage)]
  }

  /** No two checks share a message. */
  lemma MessagesDistinct()
    ensures UserIdMessage != NameMessage && UserIdMessage != ProviderMessage && UserIdMessage != ExpirationDateMessage
    ensures NameMessage != ProviderMessage && NameMessage != ExpirationDateMessage
    ensures ProviderMessage != ExpirationDateMessage
  {
    assert UserIdMessage[0] == 'u' && NameMessage[0] == 'n';
    assert ProviderMessage[0] == 'p' && ExpirationDateMessage[0] == 'e';
  }

  /** The errors `validate` reports for `dto` at time `now`: one per failed
      check, each with its check's fixed message, no error twice. */
  function Errors(dto: CreateSubscriptionDto, now: Instant): (r: seq<Error>)
    ensures Error(UserIdMessage) in r <==> !UserIdOk(dto)
    ensures Error(NameMessage) in r <==> !NameOk(dto)
    ensures Error(ProviderMessage) in r <==> !ProviderOk(dto)
    ensures Error(ExpirationDateMessage) in r <==> !ExpirationDateOk(dto, now)
    ensures forall e :: e in r ==> e in KnownErrors()
    ensures forall i, j :: 0 <= i < j < |r| ==> r[i] != r[j]
    ensures r == [] <==> AllOk(dto, now)
  {
    MessagesDistinct();
    (if UserIdOk(dto) then [] else [Error(UserIdMessage)])
    + (if NameOk(dto) then [] else [Error(NameMessage)])
    + (if ProviderOk(dto) then [] else [Error(ProviderMessage)])
    + (if ExpirationDateOk(dto, now) then [] else [Error(ExpirationDateMessage)])
  }

  /** The mutable, ordered error list a validation call fills in. */
  class ValidationResult {
    var errors: seq<Error>

    constructor ()
      ensures errors == []
    {
      errors := [];
    }

    method Add(e: Error)
      modifies this
      ensures errors == old(errors) + [e]
    {
      errors := errors + [e];
    }

    method HasErrors() returns (b: bool)
      ensures b <==> |errors| > 0
    {
      b := errors != [];
    }

    method GetErrors() returns (es: seq<Error>)
      ensures es == errors
    {
      es := errors;
    }
  }

  /** Runs the four checks in order, appending one error per failed check. */
  method Validate(dto: CreateSubscriptionDto, now: Instant) returns (result: ValidationResult)
    ensures fresh(result)
    ensures result.errors == Errors(dto, now)
  {
    result := new ValidationResult();
    if !UserIdOk(dto) {
      result.Add(Error(UserIdMessage));
    }
    if !NameOk(dto) {
      result.Add(Error(NameMessage));
    }
    if !ProviderOk(dto) {
      result.Add(Error(ProviderMessage));
    }
    if !ExpirationDateOk(dto, now) {
      result.Add(Error(ExpirationDateMessage));
    }
  }

  /** A request that passes every check validates with no errors. */
  lemma ValidRequestHasNoErrors(dto: CreateSubscriptionDto, now: Instant)
    requires dto.userId.Some? && dto.name.Some? && dto.name.value != ""
    requires dto.provider == Some(ProviderName(GOOGLE)) || dto.provider == Some(ProviderName(APPLE))
    requires dto.expirationDate.Some? && dto.expirationDate.value > now
    ensures Errors(dto, now) == []
  {
  }

  /** A single failed check gives exactly that check's error and no other. */
  lemma SingleViolation(dto: CreateSubscriptionDto, now: Instant, e: Error)
    requires e in KnownErrors()
    requires (e == Error(UserIdMessage)) != UserIdOk(dto)
    requires (e == Error(NameMessage)) != NameOk(dto)
    requires (e == Error(ProviderMessage)) != ProviderOk(dto)
    requires (e == Error(ExpirationDateMessage)) != ExpirationDateOk(dto, now)
    ensures Errors(dto, now) == [e]
  {
  }

  /** All four checks failing give exactly four errors carrying all four messages. */
  lemma AllViolations(dto: CreateSubscriptionDto, now: Instant)
    requires !UserIdOk(dto) && !NameOk(dto) && !ProviderOk(dto) && !ExpirationDateOk(dto, now)
    ensures |Errors(dto, now)| == 4
    ensures forall e :: e in KnownErrors() ==> e in Errors(dto, now)
  {
  }

  /** The checks are independent: whether a field's error is reported depends on
      that field (and `now`) alone, never on the other fields. */
  lemma ChecksIndependent(a: CreateSubscriptionDto, b: CreateSubscriptionDto, now: Instant)
    ensures a.userId == b.userId ==> (Error(UserIdMessage) in Errors(a, now) <==> Error(UserIdMessage) in Errors(b, now))
    ensures a.name == b.name ==> (Error(NameMessage) in Errors(a, now) <==> Error(NameMessage) in Errors(b, now))
    ensures a.provider == b.provider ==> (Error(ProviderMessage) in Errors(a, now) <==> Error(ProviderMessage) in Errors(b, now))
    ensures a.expirationDate == b.expirationDate ==>
      (Error(ExpirationDateMessage) in Errors(a, now) <==> Error(ExpirationDateMessage) in Errors(b, now))
  {
  }
}
