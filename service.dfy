/** The subscription service: upsert of a creation request (validate, map,
    look up the user's records, insert or update), and the cancel and expire
    status transitions, over a repository whose calls are logged. */
module Service {
  import opened Wrappers
  import opened Entity
  import opened Validator
  import opened Mapper
  import opened Lifecycle
  import opened Dao

  /** The failures the service reports to its caller. */
  datatype ServiceError =
    | ValidationException(errors: seq<Error>)
    | NotFound(id: int)
    | SubscriptionException(id: int, attempted: Transition)

  /** The upsert match key: an existing record of the same user with the same
      name and the same provider stands for the requested subscription. */
  predicate Matches(existing: Subscription, candidate: Subscription) {
    && existing.userId == candidate.userId
    && existing.name == candidate.name
    && existing.provider == candidate.provider
  }

  /** The record to persist for `candidate`: it takes over the id of the first
      matching existing record, and stays id-less when none matches. */
  function Resolve(candidate: Subscription, existing: seq<Subscription>): (r: Subscription)
    ensures r.(id := candidate.id) == candidate
    decreases |existing|
  {
    if existing == [] then candidate
    else if Matches(existing[0], candidate) then candidate.(id := existing[0].id)
    else Resolve(candidate, existing[1..])
  }

  /** With no matching record the candidate is persisted as it is (insert path). */
  lemma {:induction false} ResolveUnmatched(candidate: Subscription, existing: seq<Subscription>)
    requires forall i :: 0 <= i < |existing| ==> !Matches(existing[i], candidate)
    ensures Resolve(candidate, existing) == candidate
    decreases |existing|
  {
    if existing != [] {
      assert !Matches(existing[0], candidate);
      ResolveUnmatched(candidate, existing[1..]);
    }
  }

  /** With some matching record the candidate takes over a matching record's id. */
  lemma {:induction false} ResolveMatched(candidate: Subscription, existing: seq<Subscription>, i: nat)
    requires i < |existing| && Matches(existing[i], candidate)
    ensures exists j ::
      0 <= j <= i && Matches(existing[j], candidate) && Resolve(candidate, existing) == candidate.(id := existing[j].id)
    decreases i
  {
    if !Matches(existing[0], candidate) {
      ResolveMatched(candidate, existing[1..], i - 1);
      var j :| 0 <= j <= i - 1 && Matches(existing[1..][j], candidate)
        && Resolve(candidate, existing[1..]) == candidate.(id := existing[1..][j].id);
      assert existing[1..][j] == existing[j + 1];
    }
  }

  /** Among several matches the first one in the lookup's order wins. */
  lemma {:induction false} ResolveFirstMatch(candidate: Subscription, existing: seq<Subscription>, i: nat)
    requires i < |existing| && Matches(existing[i], candidate)
    requires forall j :: 0 <= j < i ==> !Matches(existing[j], candidate)
    ensures Resolve(candidate, existing) == candidate.(id := existing[i].id)
    decreases i
  {
    if i > 0 {
      ResolveFirstMatch(candidate, existing[1..], i - 1);
    }
  }

  /** Handing the candidate the matched record's id is the same as handing back
      the matched record itself with the request's expiration date and status. */
  lemma MatchedRecordKept(e: Subscription, candidate: Subscription)
    requires Matches(e, candidate)
    ensures candidate.(id := e.id) == e.(expirationDate := candidate.expirationDate, status := candidate.status)
  {
  }

  /** Resolved against the user's stored records, the candidate carries an id
      only when that id holds a matching record. */
  lemma ResolvedIdIsStored(store: map<int, Subscription>, n: int, candidate: Subscription)
    requires WellKeyed(store)
    requires candidate.id.None?
    ensures var arg := Resolve(candidate, Owned(Rows(store, n), candidate.userId));
      arg.id.Some? ==> arg.id.value in store && Matches(store[arg.id.value], arg)
  {
    var existing := Owned(Rows(store, n), candidate.userId);
    var arg := Resolve(candidate, existing);
    if arg.id.Some? {
      if forall i :: 0 <= i < |existing| ==> !Matches(existing[i], candidate) {
        ResolveUnmatched(candidate, existing);
      }
      var i :| 0 <= i < |existing| && Matches(existing[i], candidate);
      ResolveMatched(candidate, existing, i);
      var j :| 0 <= j <= i && Matches(existing[j], candidate) && arg == candidate.(id := existing[j].id);
      OwnedMembership(Rows(store, n), candidate.userId, existing[j]);
      RowsMembership(store, n, existing[j]);
    }
  }

  /** When the table holds a record matching the candidate, the candidate is
      resolved to an existing id, so upsert updates instead of inserting. */
  lemma StoredMatchIsFound(store: map<int, Subscription>, n: int, candidate: Subscription, k: int)
    requires WellKeyed(store) && forall key :: key in store ==> FirstId <= key < n
    requires k in store && Matches(store[k], candidate)
    ensures Resolve(candidate, Owned(Rows(store, n), candidate.userId)).id.Some?
  {
    var rows := Rows(store, n);
    var existing := Owned(rows, candidate.userId);
    RowsMembership(store, n, store[k]);
    OwnedMembership(rows, candidate.userId, store[k]);
    var i :| 0 <= i < |existing| && existing[i] == store[k];
    ResolveMatched(candidate, existing, i);
    var j :| 0 <= j <= i && Matches(existing[j], candidate)
      && Resolve(candidate, existing) == candidate.(id := existing[j].id);
    OwnedMembership(rows, candidate.userId, existing[j]);
    RowsMembership(store, n, existing[j]);
  }

  /** What cancel or expire does with record `id` of `store`: the record to
      write back, or the error that stops it before any write. */
  function TransitionOutcome(store: map<int, Subscription>, id: int, t: Transition): (r: Result<Subscription, ServiceError>)
    ensures r.Success? <==> id in store && Allowed(t, store[id].status)
    ensures id !in store ==> r == Failure(NotFound(id))
    ensures id in store && !Allowed(t, store[id].status) ==> r == Failure(SubscriptionException(id, t))
    ensures r.Success? ==>
      && r.value.(status := store[id].status) == store[id]
      && Step(t, store[id].status) == Some(r.value.status)
  {
    if id !in store then Failure(NotFound(id))
    else
      match Step(t, store[id].status)
      case None => Failure(SubscriptionException(id, t))
      case Some(s) => Success(store[id].(status := s))
  }

  /** cancel succeeds exactly on a stored ACTIVE record and writes it back as
      CANCELED; expire succeeds exactly on a stored record that is not EXPIRED
      and writes it back as EXPIRED. Nothing else of the record changes. */
  lemma TransitionRules(store: map<int, Subscription>, id: int)
    ensures TransitionOutcome(store, id, Cancel).Success? <==> id in store && store[id].status == ACTIVE
    ensures TransitionOutcome(store, id, Expire).Success? <==> id in store && store[id].status in {ACTIVE, CANCELED}
    ensures TransitionOutcome(store, id, Cancel).Success? ==>
      TransitionOutcome(store, id, Cancel).value == store[id].(status := CANCELED)
    ensures TransitionOutcome(store, id, Expire).Success? ==>
      TransitionOutcome(store, id, Expire).value == store[id].(status := EXPIRED)
  {
  }

  class SubscriptionService {
    const dao: SubscriptionDao

    constructor (dao: SubscriptionDao)
      ensures this.dao == dao
    {
      this.dao := dao;
    }

    /** Validates the request (failing with every error and touching nothing),
        maps it, looks up the user's subscriptions, and upserts the candidate,
        which inherits the id of a matching existing record. */
    method Upsert(dto: CreateSubscriptionDto, now: Instant) returns (r: Result<Subscription, ServiceError>)
      requires dao.Valid()
      modifies dao
      ensures dao.Valid()
      ensures Errors(dto, now) != [] ==>
        && r == Failure(ValidationException(Errors(dto, now)))
        && dao.store == old(dao.store) && dao.nextId == old(dao.nextId) && dao.log == old(dao.log)
      ensures Errors(dto, now) == [] ==>
        var arg := Resolve(Map(dto), Owned(Rows(old(dao.store), old(dao.nextId)), dto.userId.value));
        && (arg.id.Some? ==>
             && r == Success(arg)
             && arg.id.value in old(dao.store)
             && Matches(old(dao.store)[arg.id.value], arg)
             && dao.store == old(dao.store)[arg.id.value := arg]
             && dao.nextId == old(dao.nextId)
             && dao.log == old(dao.log) + [Call.FindByUserId(dto.userId.value), Call.Upsert(arg), Call.Update(arg)])
        && (arg.id.None? ==>
             && arg == Map(dto)
             && r == Success(arg.(id := Some(old(dao.nextId))))
             && dao.store == old(dao.store)[old(dao.nextId) := r.value]
             && dao.nextId == old(dao.nextId) + 1
             && dao.log == old(dao.log) + [Call.FindByUserId(dto.userId.value), Call.Upsert(arg), Call.Insert(arg)])
      ensures r.Success? ==> r.value.status == ACTIVE && r.value.expirationDate > now && r.value.id.Some?
      ensures Errors(dto, now) == [] && (exists k :: k in old(dao.store) && Matches(old(dao.store)[k], Map(dto))) ==>
        dao.store.Keys == old(dao.store).Keys
    {
      var validation := Validate(dto, now);
      var invalid := validation.HasErrors();
      if invalid {
        var errors := validation.GetErrors();
        r := Failure(ValidationException(errors));
        return;
      }
      ValidIsMappable(dto, now);
      var stored := Persist(Map(dto));
      r := Success(stored);
    }

    /** The steps of upsert after validation and mapping: findByUserId for the
        candidate's user, then the repository's upsert of the resolved record. */
    method Persist(candidate: Subscription) returns (stored: Subscription)
      requires dao.Valid()
      requires candidate.id.None?
      modifies dao
      ensures dao.Valid()
      ensures var arg := Resolve(candidate, Owned(Rows(old(dao.store), old(dao.nextId)), candidate.userId));
        && (arg.id.Some? ==>
             && stored == arg
             && arg.id.value in old(dao.store)
             && Matches(old(dao.store)[arg.id.value], arg)
             && dao.store == old(dao.store)[arg.id.value := arg]
             && dao.nextId == old(dao.nextId)
             && dao.log == old(dao.log) + [Call.FindByUserId(candidate.userId), Call.Upsert(arg), Call.Update(arg)])
        && (arg.id.None? ==>
             && arg == candidate
             && stored == arg.(id := Some(old(dao.nextId)))
             && dao.store == old(dao.store)[old(dao.nextId) := stored]
             && dao.nextId == old(dao.nextId) + 1
             && dao.log == old(dao.log) + [Call.FindByUserId(candidate.userId), Call.Upsert(arg), Call.Insert(arg)])
      ensures stored.(id := candidate.id) == candidate && stored.id.Some?
      ensures (exists k :: k in old(dao.store) && Matches(old(dao.store)[k], candidate)) ==>
        dao.store.Keys == old(dao.store).Keys
    {
      var existing := dao.FindByUserId(candidate.userId);
      var arg := Resolve(candidate, existing);
      if exists k :: k in dao.store && Matches(dao.store[k], candidate) {
        var k :| k in dao.store && Matches(dao.store[k], candidate);
        StoredMatchIsFound(dao.store, dao.nextId, candidate, k);
      }
      if arg.id.Some? {
        ResolvedIdIsStored(dao.store, dao.nextId, candidate);
      }
      stored := dao.Upsert(arg);
    }

    /** Looks the record up and, when `t` is allowed from its status, writes it
        back once with the new status; otherwise fails with no update. */
    method Apply(id: int, t: Transition) returns (r: Outcome<ServiceError>)
      requires dao.Valid()
      modifies dao
      ensures dao.Valid()
      ensures dao.nextId == old(dao.nextId)
      ensures var out := TransitionOutcome(old(dao.store), id, t);
        && (out.Success? ==>
             && r == Pass
             && dao.store == old(dao.store)[id := out.value]
             && dao.log == old(dao.log) + [Call.FindById(id), Call.Update(out.value)])
        && (out.Failure? ==>
             && r == Fail(out.error)
             && dao.store == old(dao.store)
             && dao.log == old(dao.log) + [Call.FindById(id)])
      ensures Updates(dao.log) == Updates(old(dao.log)) + (if r.Pass? then 1 else 0)
    {
      ghost var before := dao.log;
      var found := dao.FindById(id);
      UpdatesAppendOne(before, Call.FindById(id));
      match found
      case None =>
        r := Fail(NotFound(id));
      case Some(subscription) =>
        match Step(t, subscription.status)
        case None =>
          r := Fail(SubscriptionException(id, t));
        case Some(status) =>
          ghost var looked := dao.log;
          var _ := dao.Update(subscription.(status := status));
          UpdatesAppendOne(looked, Call.Update(subscription.(status := status)));
          r := Pass;
    }

    /** cancel: allowed only from ACTIVE. */
    method Cancel(id: int) returns (r: Outcome<ServiceError>)
      requires dao.Valid()
      modifies dao
      ensures dao.Valid()
      ensures dao.nextId == old(dao.nextId)
      ensures var out := TransitionOutcome(old(dao.store), id, Transition.Cancel);
        && (out.Success? ==>
             && r == Pass
             && dao.store == old(dao.store)[id := out.value]
             && dao.log == old(dao.log) + [Call.FindById(id), Call.Update(out.value)])
        && (out.Failure? ==>
             && r == Fail(out.error)
             && dao.store == old(dao.store)
             && dao.log == old(dao.log) + [Call.FindById(id)])
      ensures Updates(dao.log) == Updates(old(dao.log)) + (if r.Pass? then 1 else 0)
    {
      r := Apply(id, Transition.Cancel);
    }

    /** expire: allowed from every status except EXPIRED. */
    method Expire(id: int) returns (r: Outcome<ServiceError>)
      requires dao.Valid()
      modifies dao
      ensures dao.Valid()
      ensures dao.nextId == old(dao.nextId)
      ensures var out := TransitionOutcome(old(dao.store), id, Transition.Expire);
        && (out.Success? ==>
             && r == Pass
             && dao.store == old(dao.store)[id := out.value]
             && dao.log == old(dao.log) + [Call.FindById(id), Call.Update(out.value)])
        && (out.Failure? ==>
             && r == Fail(out.error)
             && dao.store == old(dao.store)
             && dao.log == old(dao.log) + [Call.FindById(id)])
      ensures Updates(dao.log) == Updates(old(dao.log)) + (if r.Pass? then 1 else 0)
    {
      r := Apply(id, Transition.Expire);
    }
  }

  /** A valid request upserted into an empty table is inserted ACTIVE under
      the first id; cancel then expire both succeed, the table ends up holding
      the record EXPIRED, and a further cancel is refused. */
  method CreateCancelExpire(dto: CreateSubscriptionDto, now: Instant)
    returns (created: Subscription, cancelled: Outcome<ServiceError>, expired: Outcome<ServiceError>,
             again: Outcome<ServiceError>, final: Option<Subscription>)
    requires Errors(dto, now) == []
    ensures created.id == Some(FirstId) && created.status == ACTIVE
    ensures created.(id := None) == Map(dto)
    ensures cancelled == Pass && expired == Pass
    ensures again == Fail(SubscriptionException(FirstId, Cancel))
    ensures final == Some(created.(status := EXPIRED))
  {
    var dao := new SubscriptionDao();
    var service := new SubscriptionService(dao);
    var result := service.Upsert(dto, now);
    created := result.value;
    cancelled := service.Cancel(FirstId);
    expired := service.Expire(FirstId);
    again := service.Cancel(FirstId);
    final := dao.FindById(FirstId);
  }

  /** Upsert resolves a request to a matching existing record whatever that
      record's status, and maps every request to ACTIVE: a matching EXPIRED
      record is written back ACTIVE under the same id. Cancel and expire never
      lead back to ACTIVE; upsert does. */
  method UpsertRevivesExpired(existing: Subscription, dto: CreateSubscriptionDto, now: Instant)
    returns (result: Result<Subscription, ServiceError>, final: Option<Subscription>)
    requires existing.status == EXPIRED
    requires Errors(dto, now) == [] && Matches(existing, Map(dto))
    ensures result == Success(Map(dto).(id := Some(FirstId)))
    ensures final.Some? && final.value.id == Some(FirstId) && final.value.status == ACTIVE
  {
    var dao := new SubscriptionDao();
    var stored := dao.Insert(existing);
    assert Rows(dao.store, dao.nextId) == [stored];
    assert Owned([stored], stored.userId) == [stored];
    var service := new SubscriptionService(dao);
    result := service.Upsert(dto, now);
    final := dao.FindById(FirstId);
  }
}
