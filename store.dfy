/** The handlers that change the two collections: create, update and delete
    of a catalog record, and purchase. The collections are fields of one
    store object; each handler is a method that either answers an error and
    leaves everything as it was, or performs the inserts and updates the
    route performs, in the same order. `now` is the server clock at the time
    of the request and `newId` the identifier the driver generates for an
    insert. */
module Store {
  import opened Wrappers
  import opened ObjectIds
  import opened Domain
  import opened Catalog
  import opened Seqs

  class ModelStore {
    /** The `models` collection, in insertion order. */
    var models: seq<Model>
    /** The `purchases` collection, in insertion order. */
    var purchases: seq<Purchase>
    /** The latest time stamp written to either collection. */
    var clock: nat

    /** What every handler preserves: identifiers are unique; time stamps
        increase with insertion order and none lies in the future; user
        fields hold no system key and no null; and each record's
        `purchased` counter equals the number of purchases referencing it
        that were made after the record was created. */
    ghost predicate Valid()
      reads this
    {
      Consistent(models, purchases, clock)
    }

    /** No stored record has `id`. Purchases may already reference it: a
        purchase of a well-formed id is recorded whether or not a record
        has that id. */
    ghost predicate Fresh(id: ObjectId)
      reads this
    {
      forall i :: 0 <= i < |models| ==> models[i].id != id
    }

    constructor ()
      ensures Valid()
      ensures models == [] && purchases == [] && clock == 0
    {
      models, purchases, clock := [], [], 0;
    }

    /** `POST /`: build the draft from the body, reject it naming the first
        blank required field, otherwise insert it with the caller as
        creator, the current time and no purchases. */
    method Create(user: Option<Identity>, body: map<string, Value>, newId: ObjectId, now: nat)
      returns (out: Outcome<Model>)
      requires Valid()
      requires now > clock && Fresh(newId)
      modifies this
      ensures Valid()
      ensures purchases == old(purchases)
      ensures out.Ok? <==> forall i :: 0 <= i < |RequiredKeys| ==> !IsBlank(Draft(body), RequiredKeys[i])
      ensures out.Error? ==>
        && models == old(models) && clock == old(clock)
        && out.status == BadRequest
        && exists k :: out.message == MissingFieldPrefix + k && FirstBlank(Draft(body), k)
      ensures out.Ok? ==>
        && out.value == Model(newId, CreatedFields(Draft(body)), Attribution(user), now, 0)
        && models == old(models) + [out.value]
        && clock == now
    {
      var doc := Draft(body);
      var missing := FirstMissing(doc);
      if missing.Some? {
        return Error(BadRequest, MissingFieldPrefix + missing.value);
      }
      var m := Model(newId, CreatedFields(doc), Attribution(user), now, 0);
      CreatedFieldsWellFormed(doc);
      Insert(m);
      return Ok(m);
    }

    /** `insertOne` of a new record. */
    method Insert(m: Model)
      requires Valid()
      requires m.createdAt > clock && m.purchased == 0 && WellFormedFields(m.fields) && Fresh(m.id)
      modifies this
      ensures Valid()
      ensures models == old(models) + [m] && purchases == old(purchases) && clock == m.createdAt
    {
      CreateKeepsConsistent(models, purchases, clock, m);
      models, clock := models + [m], m.createdAt;
    }

    /** `PUT /:id`: after the id, existence and ownership checks, set every
        key the sanitised patch keeps and answer the updated record. */
    method Update(user: Option<Identity>, idText: string, body: map<string, Value>)
      returns (out: Outcome<Model>)
      requires Valid()
      modifies this
      ensures Valid()
      ensures purchases == old(purchases) && clock == old(clock)
      ensures LocateOwned(old(models), idText, user).Error? ==>
        out == Error(LocateOwned(old(models), idText, user).status, LocateOwned(old(models), idText, user).message) &&
        models == old(models)
      ensures LocateOwned(old(models), idText, user).Ok? ==>
        var i := LocateOwned(old(models), idText, user).value;
        var before := old(models)[i];
        && |models| == |old(models)|
        && (forall j :: 0 <= j < |models| && j != i ==> models[j] == old(models)[j])
        && out == Ok(models[i])
        && models[i].id == before.id && models[i].createdBy == before.createdBy
        && models[i].createdAt == before.createdAt && models[i].purchased == before.purchased
        && (forall k :: k in models[i].fields <==> k in before.fields || Applies(body, k))
        && (forall k :: Applies(body, k) ==> models[i].fields[k] == body[k])
        && (forall k :: k in before.fields && !Applies(body, k) ==> models[i].fields[k] == before.fields[k])
    {
      var target := LocateOwned(models, idText, user);
      if target.Error? {
        return Error(target.status, target.message);
      }
      var i := target.value;
      var updates := Sanitize(body);
      var updated := models[i].(fields := Merge(models[i].fields, updates));
      models := models[i := updated];
      return Ok(updated);
    }

    /** `DELETE /:id`: after the same checks as update, remove the record;
        purchases that reference it stay. */
    method Delete(user: Option<Identity>, idText: string) returns (out: Outcome<bool>)
      requires Valid()
      modifies this
      ensures Valid()
      ensures purchases == old(purchases) && clock == old(clock)
      ensures LocateOwned(old(models), idText, user).Error? ==>
        out == Error(LocateOwned(old(models), idText, user).status, LocateOwned(old(models), idText, user).message) &&
        models == old(models)
      ensures LocateOwned(old(models), idText, user).Ok? ==>
        var i := LocateOwned(old(models), idText, user).value;
        out == Ok(true) && models == old(models)[..i] + old(models)[i + 1..]
    {
      var target := LocateOwned(models, idText, user);
      if target.Error? {
        return Error(target.status, target.message);
      }
      var i := target.value;
      RemoveKeepsOrder(models, i);
      models := models[..i] + models[i + 1..];
      return Ok(true);
    }

    /** `POST /:id/purchase`: record the purchase, then add one to the
        record's counter, then answer the record, or 404 if there is none;
        the purchase is recorded either way. */
    method Purchase(user: Option<Identity>, idText: string, now: nat) returns (out: Outcome<Model>)
      requires Valid()
      requires now > clock
      modifies this
      ensures Valid()
      ensures !ValidId(idText) ==>
        out == Error(BadRequest, InvalidId) && models == old(models) && purchases == old(purchases) && clock == old(clock)
      ensures ValidId(idText) ==>
        var id := ParseId(idText).value;
        var i := IndexOfId(old(models), id);
        && purchases == old(purchases) + [Domain.Purchase(id, Attribution(user), now)]
        && clock == now
        && (i < 0 ==> out == Error(NotFound, NotFoundMessage) && models == old(models))
        && (i >= 0 ==>
              models == old(models)[i := old(models)[i].(purchased := old(models)[i].purchased + 1)] &&
              out == Ok(models[i]))
    {
      var parsed := ParseId(idText);
      if parsed.None? {
        return Error(BadRequest, InvalidId);
      }
      var id := parsed.value;
      // The increment matches the record with this id, if any; the lookup
      // that follows finds the same record.
      var i := IndexOfId(models, id);
      Record(Domain.Purchase(id, Attribution(user), now));
      if i < 0 {
        return Error(NotFound, NotFoundMessage);
      }
      return Ok(models[i]);
    }

    /** `insertOne` of the purchase, then `$inc` of the counter of the
        record it references, if there is one. */
    method Record(p: Domain.Purchase)
      requires Valid()
      requires p.purchasedAt > clock
      modifies this
      ensures Valid()
      ensures purchases == old(purchases) + [p] && clock == p.purchasedAt
      ensures var i := IndexOfId(old(models), p.modelId);
        && (i < 0 ==> models == old(models))
        && (i >= 0 ==> models == old(models)[i := old(models)[i].(purchased := old(models)[i].purchased + 1)])
    {
      PurchaseKeepsConsistent(models, purchases, clock, p);
      BumpAt(models, p.modelId);
      purchases, models, clock := purchases + [p], Bump(models, p.modelId), p.purchasedAt;
    }
  }

  /** The store invariant over the two collections and the clock:
      identifiers are unique; time stamps increase with insertion order and
      none lies in the future; user fields hold no system key and no null;
      and each record's `purchased` counter equals the number of purchases
      referencing it that were made after it was created. */
  ghost predicate Consistent(models: seq<Model>, purchases: seq<Purchase>, clock: nat)
  {
    && UniqueIds(models)
    && StrictlyIncreasing(models, CreatedAt)
    && StrictlyIncreasing(purchases, PurchasedAt)
    && (forall i :: 0 <= i < |models| ==> models[i].createdAt <= clock)
    && (forall i :: 0 <= i < |purchases| ==> purchases[i].purchasedAt <= clock)
    && (forall i :: 0 <= i < |models| ==> WellFormedFields(models[i].fields))
    && (forall i :: 0 <= i < |models| ==> models[i].purchased == PurchaseCount(purchases, models[i].id, models[i].createdAt))
  }

  /** Inserting a record with an unused id, a later time stamp, well-formed
      fields and a zero counter keeps the store consistent, even when older
      purchases already reference that id. */
  lemma CreateKeepsConsistent(models: seq<Model>, purchases: seq<Purchase>, clock: nat, m: Model)
    requires Consistent(models, purchases, clock)
    requires m.createdAt > clock && m.purchased == 0 && WellFormedFields(m.fields)
    requires forall i :: 0 <= i < |models| ==> models[i].id != m.id
    ensures Consistent(models + [m], purchases, m.createdAt)
  {
    PurchaseCountZero(purchases, m.id, m.createdAt);
  }

  /** `updateOne({ _id: id }, { $inc: { purchased: 1 } })`. */
  function Bump(models: seq<Model>, id: ObjectId): (r: seq<Model>)
    ensures |r| == |models|
    // Only a record with that id can change, and only by one more purchase.
    ensures forall j :: 0 <= j < |models| ==>
      r[j] == models[j] || (models[j].id == id && r[j] == models[j].(purchased := models[j].purchased + 1))
    ensures (forall j :: 0 <= j < |models| ==> models[j].id != id) ==> r == models
  {
    var i := IndexOfId(models, id);
    if i < 0 then models else models[i := models[i].(purchased := models[i].purchased + 1)]
  }

  /** The increment changes the counter of the record with that id, if
      there is one, and nothing else. */
  lemma BumpAt(models: seq<Model>, id: ObjectId)
    ensures var i := IndexOfId(models, id);
      && (i < 0 ==> Bump(models, id) == models)
      && (i >= 0 ==> Bump(models, id) == models[i := models[i].(purchased := models[i].purchased + 1)])
  {
  }

  /** With unique identifiers the increment adds one to the counter of the
      record with that id, and changes nothing else in any record. */
  lemma BumpPointwise(models: seq<Model>, id: ObjectId)
    requires UniqueIds(models)
    ensures |Bump(models, id)| == |models|
    ensures forall j :: 0 <= j < |models| ==>
      Bump(models, id)[j] == models[j].(purchased := models[j].purchased + if models[j].id == id then 1 else 0)
  {
    BumpAt(models, id);
  }

  /** Recording a later purchase and adding one to the counter of the
      record it references, if there is one, keeps the store consistent. */
  lemma PurchaseKeepsConsistent(models: seq<Model>, purchases: seq<Purchase>, clock: nat, p: Purchase)
    requires Consistent(models, purchases, clock)
    requires p.purchasedAt > clock
    ensures Consistent(Bump(models, p.modelId), purchases + [p], p.purchasedAt)
  {
    var after := Bump(models, p.modelId);
    var ps := purchases + [p];
    BumpPointwise(models, p.modelId);
    forall j | 0 <= j < |after|
      ensures after[j].purchased == PurchaseCount(ps, after[j].id, after[j].createdAt)
    {
      PurchaseCountAppend(purchases, p, models[j].id, models[j].createdAt);
    }
    assert StrictlyIncreasing(after, CreatedAt) by {
      assert forall j :: 0 <= j < |after| ==> CreatedAt(after[j]) == CreatedAt(models[j]);
    }
    assert StrictlyIncreasing(ps, PurchasedAt) by {
      assert forall j :: 0 <= j < |purchases| ==> ps[j] == purchases[j] && PurchasedAt(ps[j]) < PurchasedAt(p);
    }
  }

  /** Removing one record keeps the others unique and in order. */
  lemma RemoveKeepsOrder(models: seq<Model>, i: nat)
    requires i < |models|
    requires UniqueIds(models) && StrictlyIncreasing(models, CreatedAt)
    ensures var rest := models[..i] + models[i + 1..];
      UniqueIds(rest) && StrictlyIncreasing(rest, CreatedAt) &&
      forall j :: 0 <= j < |rest| ==> rest[j] == models[if j < i then j else j + 1]
  {
  }
}
