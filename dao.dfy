/** The subscription repository: the generic DAO contract (findAll, findById,
    delete, update, insert, and the derived upsert) over an in-memory table
    keyed by id, with every call recorded in a ghost log. */
module Dao {
  import opened Wrappers
  import opened Entity

  /** One call made on the repository. */
  datatype Call =
    | FindAll
    | FindById(id: int)
    | FindByUserId(userId: int)
    | Insert(entity: Subscription)
    | Update(entity: Subscription)
    | Delete(id: int)
    | Upsert(entity: Subscription)

  /** How many `update` calls a log holds. */
  function Updates(calls: seq<Call>): nat
    decreases |calls|
  {
    if calls == [] then 0
    else (if calls[0].Update? then 1 else 0) + Updates(calls[1..])
  }

  lemma {:induction false} UpdatesAppend(a: seq<Call>, b: seq<Call>)
    ensures Updates(a + b) == Updates(a) + Updates(b)
    decreases |a|
  {
    if a == [] {
      assert a + b == b;
    } else {
      assert (a + b)[1..] == a[1..] + b;
      UpdatesAppend(a[1..], b);
    }
  }

  lemma UpdatesAppendOne(a: seq<Call>, c: Call)
    ensures Updates(a + [c]) == Updates(a) + (if c.Update? then 1 else 0)
  {
    UpdatesAppend(a, [c]);
    assert [c][1..] == [];
  }

  /** The first id the store hands out. */
  const FirstId: int := 1

  /** Every stored record carries the id it is stored under. */
  ghost predicate WellKeyed(store: map<int, Subscription>) {
    forall k :: k in store ==> store[k].id == Some(k)
  }

  /** The stored records with ids in [FirstId, n), in ascending id order. */
  function Rows(store: map<int, Subscription>, n: int): seq<Subscription>
    decreases n
  {
    if n <= FirstId then []
    else Rows(store, n - 1) + (if n - 1 in store then [store[n - 1]] else [])
  }

  /** The records of `rows` that belong to user `uid`, in their order. */
  function Owned(rows: seq<Subscription>, uid: int): seq<Subscription>
    decreases |rows|
  {
    if rows == [] then []
    else
      var last := rows[|rows| - 1];
      Owned(rows[..|rows| - 1], uid) + (if last.userId == uid then [last] else [])
  }

  /** A record is listed exactly when it is stored under its own id below `n`. */
  lemma {:induction false} RowsMembership(store: map<int, Subscription>, n: int, s: Subscription)
    requires WellKeyed(store)
    ensures s in Rows(store, n) <==>
      s.id.Some? && FirstId <= s.id.value < n && s.id.value in store && store[s.id.value] == s
    decreases n
  {
    if n > FirstId {
      RowsMembership(store, n - 1, s);
    }
  }

  lemma {:induction false} RowsCountBelow(store: map<int, Subscription>, n: int)
    requires forall k :: k in store ==> FirstId <= k
    ensures |Rows(store, n)| == |set k | k in store && k < n|
    decreases n
  {
    if n <= FirstId {
      assert (set k | k in store && k < n) == {};
    } else {
      RowsCountBelow(store, n - 1);
      var below := set k | k in store && k < n - 1;
      if n - 1 in store {
        assert (set k | k in store && k < n) == below + {n - 1};
      } else {
        assert (set k | k in store && k < n) == below;
      }
    }
  }

  /** When every key lies in [FirstId, n), the listing has one entry per stored record. */
  lemma RowsCount(store: map<int, Subscription>, n: int)
    requires forall k :: k in store ==> FirstId <= k < n
    ensures |Rows(store, n)| == |store|
  {
    RowsCountBelow(store, n);
    assert (set k | k in store && k < n) == store.Keys;
  }

  /** The user filter keeps exactly the rows of that user. */
  lemma {:induction false} OwnedMembership(rows: seq<Subscription>, uid: int, s: Subscription)
    ensures s in Owned(rows, uid) <==> s in rows && s.userId == uid
    decreases |rows|
  {
    if rows != [] {
      var init := rows[..|rows| - 1];
      OwnedMembership(init, uid, s);
      assert rows == init + [rows[|rows| - 1]];
    }
  }

  /** The subscription table: records keyed by id and the next id to assign. */
  class SubscriptionDao {
    var store: map<int, Subscription>
    var nextId: int
    /** Every call made on this repository, oldest first. */
    ghost var log: seq<Call>

    ghost predicate Valid()
      reads this
    {
      && FirstId <= nextId
      && WellKeyed(store)
      && forall k :: k in store ==> FirstId <= k < nextId
    }

    /** An empty table. */
    constructor ()
      ensures Valid()
      ensures store == map[] && nextId == FirstId && log == []
    {
      store := map[];
      nextId := FirstId;
      log := [];
    }

    /** The id-less entity stored under a freshly assigned id, which is returned with it. */
    method Insert(entity: Subscription) returns (r: Subscription)
      requires Valid()
      modifies this
      ensures Valid()
      ensures r == entity.(id := Some(old(nextId)))
      ensures old(nextId) !in old(store)
      ensures store == old(store)[old(nextId) := r]
      ensures nextId == old(nextId) + 1
      ensures log == old(log) + [Call.Insert(entity)]
    {
      r := entity.(id := Some(nextId));
      store := store[nextId := r];
      nextId := nextId + 1;
      log := log + [Call.Insert(entity)];
    }

    /** Replaces the whole record stored under the entity's id (a missing id
        changes nothing) and returns the entity. */
    method Update(entity: Subscription) returns (r: Subscription)
      requires Valid()
      modifies this`store, this`log
      ensures Valid()
      ensures r == entity
      ensures store == if entity.id.Some? && entity.id.value in old(store)
                       then old(store)[entity.id.value := entity] else old(store)
      ensures log == old(log) + [Call.Update(entity)]
    {
      if entity.id.Some? && entity.id.value in store {
        store := store[entity.id.value := entity];
      }
      r := entity;
      log := log + [Call.Update(entity)];
    }

    /** Removes the record with this id; true when there was one. */
    method Delete(id: int) returns (removed: bool)
      requires Valid()
      modifies this`store, this`log
      ensures Valid()
      ensures removed <==> id in old(store)
      ensures store == old(store) - {id}
      ensures log == old(log) + [Call.Delete(id)]
    {
      removed := id in store;
      store := store - {id};
      log := log + [Call.Delete(id)];
    }

    /** The record with this id, or None: absence is a value, never a failure. */
    method FindById(id: int) returns (r: Option<Subscription>)
      modifies this`log
      ensures r == if id in store then Some(store[id]) else None
      ensures log == old(log) + [Call.FindById(id)]
    {
      r := if id in store then Some(store[id]) else None;
      log := log + [Call.FindById(id)];
    }

    /** Every stored record, in ascending id order. */
    method FindAll() returns (rs: seq<Subscription>)
      requires Valid()
      modifies this`log
      ensures rs == Rows(store, nextId)
      ensures |rs| == |store|
      ensures forall s :: s in rs <==> s.id.Some? && s.id.value in store && store[s.id.value] == s
      ensures log == old(log) + [Call.FindAll]
    {
      rs := [];
      var i := FirstId;
      while i < nextId
        invariant FirstId <= i <= nextId
        invariant rs == Rows(store, i)
      {
        if i in store {
          rs := rs + [store[i]];
        }
        i := i + 1;
      }
      RowsCount(store, nextId);
      forall s | true
        ensures s in rs <==> s.id.Some? && s.id.value in store && store[s.id.value] == s
      {
        RowsMembership(store, nextId, s);
      }
      log := log + [Call.FindAll];
    }

    /** The records of one user, in ascending id order. */
    method FindByUserId(userId: int) returns (rs: seq<Subscription>)
      requires Valid()
      modifies this`log
      ensures rs == Owned(Rows(store, nextId), userId)
      ensures forall s :: s in rs <==>
        s.userId == userId && s.id.Some? && s.id.value in store && store[s.id.value] == s
      ensures log == old(log) + [Call.FindByUserId(userId)]
    {
      rs := [];
      var i := FirstId;
      while i < nextId
        invariant FirstId <= i <= nextId
        invariant rs == Owned(Rows(store, i), userId)
      {
        var before := Rows(store, i);
        if i in store {
          var after := before + [store[i]];
          assert Rows(store, i + 1) == after;
          assert after[..|after| - 1] == before;
          assert Owned(after, userId) == Owned(before, userId) + (if store[i].userId == userId then [store[i]] else []);
          if store[i].userId == userId {
            rs := rs + [store[i]];
          }
        } else {
          assert Rows(store, i + 1) == before;
        }
        i := i + 1;
      }
      forall s | true
        ensures s in rs <==> s.userId == userId && s.id.Some? && s.id.value in store && store[s.id.value] == s
      {
        OwnedMembership(Rows(store, nextId), userId, s);
        RowsMembership(store, nextId, s);
      }
      log := log + [Call.FindByUserId(userId)];
    }

    /** `update` when the entity already has an id, `insert` otherwise:
        exactly one of the two, whose result it returns. */
    method Upsert(entity: Subscription) returns (r: Subscription)
      requires Valid()
      modifies this
      ensures Valid()
      ensures entity.id.Some? ==>
        && r == entity
        && store == (if entity.id.value in old(store) then old(store)[entity.id.value := entity] else old(store))
        && nextId == old(nextId)
        && log == old(log) + [Call.Upsert(entity), Call.Update(entity)]
      ensures entity.id.None? ==>
        && r == entity.(id := Some(old(nextId)))
        && old(nextId) !in old(store)
        && store == old(store)[old(nextId) := r]
        && nextId == old(nextId) + 1
        && log == old(log) + [Call.Upsert(entity), Call.Insert(entity)]
    {
      log := log + [Call.Upsert(entity)];
      if entity.id.Some? {
        r := Update(entity);
      } else {
        r := Insert(entity);
      }
    }
  }
}
