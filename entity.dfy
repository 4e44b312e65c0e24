/** The entities of the subscription system: the persisted Subscription, its
    two enumerations, and the transient creation request. */
module Entity {
  import opened Wrappers

  /** Lifecycle status of a subscription. */
  datatype Status = ACTIVE | CANCELED | EXPIRED

  /** The payment providers a subscription can be bought through. */
  datatype Provider = GOOGLE | APPLE

  /** The enum constant's name, as Java's `Provider.name()` gives it. */
  function ProviderName(p: Provider): string
  {
    match p
    case GOOGLE => "GOOGLE"
    case APPLE => "APPLE"
  }

  /** Lookup of a provider by its enum name (exact match); None for an unknown name. */
  function ParseProvider(s: string): Option<Provider>
  {
    if s == "GOOGLE" then Some(GOOGLE)
    else if s == "APPLE" then Some(APPLE)
    else None
  }

  /** Parsing and naming are inverse: a text parses to `p` exactly when it is `p`'s name. */
  lemma ProviderRoundTrip(s: string, p: Provider)
    ensures ParseProvider(s) == Some(p) <==> s == ProviderName(p)
  {
  }

  /** Times are instants in whole seconds since the epoch. */
  type Instant = int

  /** A subscription record. `id` is None until storage assigns one on insert. */
  datatype Subscription = Subscription(
    id: Option<int>,
    userId: int,
    name: string,
    provider: Provider,
    expirationDate: Instant,
    status: Status)

  /** A request to create a subscription. Every field may be null (None);
      the provider is raw text that still has to be parsed. */
  datatype CreateSubscriptionDto = CreateSubscriptionDto(
    userId: Option<int>,
    name: Option<string>,
    provider: Option<string>,
    expirationDate: Option<Instant>)
}
