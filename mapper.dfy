/** Mapping of a validated creation request to a new, not yet persisted Subscription. */
module Mapper {
  import opened Wrappers
  import opened Entity
  import opened Validator

  /** What `map` needs of a request: the fields it copies are present and the
      provider text names a provider. Every request that validates has it. */
  predicate Mappable(dto: CreateSubscriptionDto) {
    && dto.userId.Some?
    && dto.name.Some?
    && dto.provider.Some? && ParseProvider(dto.provider.value).Some?
    && dto.expirationDate.Some?
  }

  /** A new subscription for the request: no id yet, status ACTIVE, the other
      fields copied, the provider text parsed to its enum value. */
  function Map(dto: CreateSubscriptionDto): (s: Subscription)
    requires Mappable(dto)
    ensures s.id == None
    ensures s.status == ACTIVE
    ensures Some(s.userId) == dto.userId
    ensures Some(s.name) == dto.name
    ensures Some(ProviderName(s.provider)) == dto.provider
    ensures Some(s.expirationDate) == dto.expirationDate
  {
    var p := ParseProvider(dto.provider.value).value;
    ProviderRoundTrip(dto.provider.value, p);
    Subscription(None, dto.userId.value, dto.name.value, p, dto.expirationDate.value, ACTIVE)
  }

  /** Every request that passes validation can be mapped, and the subscription
      it maps to is ACTIVE with an expiration date after the validation time. */
  lemma ValidIsMappable(dto: CreateSubscriptionDto, now: Instant)
    requires Errors(dto, now) == []
    ensures Mappable(dto)
    ensures Map(dto).status == ACTIVE && Map(dto).expirationDate > now && Map(dto).name != ""
  {
  }
}
