/** The repository's integration scenarios, each on a freshly emptied table,
    stated for arbitrary records instead of the fixed ones the scenarios use. */
module DaoScenarios {
  import opened Wrappers
  import opened Entity
  import opened Dao

  /** Three inserts into an empty table: findAll lists exactly three records,
      among them the three inserted ones, whose ids are pairwise distinct. */
  method FindAllAfterThreeInserts(a: Subscription, b: Subscription, c: Subscription)
    returns (r1: Subscription, r2: Subscription, r3: Subscription, all: seq<Subscription>)
    ensures |all| == 3
    ensures r1 in all && r2 in all && r3 in all
    ensures r1.id.Some? && r2.id.Some? && r3.id.Some?
    ensures r1.id != r2.id && r1.id != r3.id && r2.id != r3.id
  {
    var dao := new SubscriptionDao();
    r1 := dao.Insert(a);
    r2 := dao.Insert(b);
    r3 := dao.Insert(c);
    all := dao.FindAll();
  }

  /** findById of a just-inserted record's id returns that record. */
  method FindByIdAfterInsert(entity: Subscription) returns (inserted: Subscription, found: Option<Subscription>)
    ensures inserted.id.Some?
    ensures found == Some(inserted)
  {
    var dao := new SubscriptionDao();
    inserted := dao.Insert(entity);
    found := dao.FindById(inserted.id.value);
  }

  /** delete of a just-inserted record's id reports a removal. */
  method DeleteAfterInsert(entity: Subscription) returns (removed: bool)
    ensures removed
  {
    var dao := new SubscriptionDao();
    var inserted := dao.Insert(entity);
    removed := dao.Delete(inserted.id.value);
  }

  /** update of an inserted record with a new name and status returns the
      changed record, and the table then holds it. */
  method UpdateAfterInsert(entity: Subscription, name: string, status: Status)
    returns (expected: Subscription, actual: Subscription, found: Option<Subscription>)
    ensures expected.id.Some? && expected.name == name && expected.status == status
    ensures expected.(name := entity.name, status := entity.status, id := entity.id) == entity
    ensures actual == expected
    ensures found == Some(expected)
  {
    var dao := new SubscriptionDao();
    var inserted := dao.Insert(entity);
    expected := inserted.(name := name, status := status);
    actual := dao.Update(expected);
    found := dao.FindById(expected.id.value);
  }

  /** insert returns the input with an id assigned and every other field unchanged. */
  method InsertAssignsId(entity: Subscription) returns (inserted: Subscription)
    ensures inserted.id.Some?
    ensures inserted.(id := entity.id) == entity
  {
    var dao := new SubscriptionDao();
    inserted := dao.Insert(entity);
  }

  /** findByUserId of the user of the only stored record returns just that record. */
  method FindByUserIdAfterInsert(entity: Subscription) returns (inserted: Subscription, found: seq<Subscription>)
    ensures found == [inserted]
    ensures inserted.userId == entity.userId
  {
    var dao := new SubscriptionDao();
    inserted := dao.Insert(entity);
    found := dao.FindByUserId(inserted.userId);
  }
}
