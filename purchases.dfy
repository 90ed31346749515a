/** The two read-only purchase queries: the caller's purchases joined with
    the records they reference (match, lookup, unwind, sort, project), and
    the raw purchases of one record. Purchases are kept in insertion order
    with strictly increasing `purchasedAt`, so `sort({ purchasedAt: -1 })`
    is the reverse of that order. */
module Purchases {
  import opened Wrappers
  import opened ObjectIds
  import opened Domain
  import opened Seqs
  import opened Catalog

  /** One row of `GET /purchases/mine`: `{ purchasedAt, purchasedBy, model }`. */
  datatype Row = Row(purchasedAt: nat, purchasedBy: string, model: Model)

  function RowAt(r: Row): int { r.purchasedAt }

  /** The row a purchase and a record it references project to. */
  function RowOf(p: Purchase, m: Model): (r: Row)
    // The projection drops `modelId`, but a joined row still determines
    // its purchase: the record's id stands for it.
    ensures m.id == p.modelId ==> Purchase(r.model.id, r.purchasedBy, r.purchasedAt) == p
  {
    Row(p.purchasedAt, p.purchasedBy, m)
  }

  /** `{ $match: { purchasedBy: email } }`; with no email the stage's filter
      is empty (undefined values are dropped from queries) and keeps all. */
  function ByBuyer(purchases: seq<Purchase>, email: Option<string>): (r: seq<Purchase>)
    ensures email.Some? ==> forall p :: p in r <==> p in purchases && p.purchasedBy == email.value
    ensures email.None? ==> r == purchases
    ensures StrictlyIncreasing(purchases, PurchasedAt) ==> StrictlyIncreasing(r, PurchasedAt)
  {
    if email.None? then purchases
    else
      FilterIncreasing(purchases, (p: Purchase) => p.purchasedBy == email.value, PurchasedAt);
      Filter(purchases, (p: Purchase) => p.purchasedBy == email.value)
  }

  /** `$lookup` of one purchase: the records whose `_id` is its `modelId`. */
  function Lookup(models: seq<Model>, id: ObjectId): (r: seq<Model>)
    ensures forall m :: m in r <==> m in models && m.id == id
  {
    Filter(models, (m: Model) => m.id == id)
  }

  /** Identifiers being unique, a lookup finds at most one record, and
      finds one exactly when some record has that id. */
  lemma {:induction false} LookupAtMostOne(models: seq<Model>, id: ObjectId)
    requires UniqueIds(models)
    ensures |Lookup(models, id)| <= 1
    ensures |Lookup(models, id)| == 1 <==> IndexOfId(models, id) >= 0
    decreases |models|
  {
    if models != [] {
      var rest := models[1..];
      assert UniqueIds(rest) by {
        assert forall i :: 0 <= i < |rest| ==> rest[i] == models[i + 1];
      }
      LookupAtMostOne(rest, id);
      assert Lookup(models, id) == (if models[0].id == id then [models[0]] else []) + Lookup(rest, id);
      if models[0].id == id {
        assert forall m :: m in rest ==> m.id != id by {
          forall m | m in rest
            ensures m.id != id
          {
            var k :| 0 <= k < |rest| && rest[k] == m;
            assert models[k + 1] == m;
          }
        }
        assert Lookup(rest, id) == [];
      } else {
        assert forall j :: 0 <= j < |models| && models[j].id == id ==> j >= 1 && rest[j - 1].id == id;
      }
    }
  }

  /** `$unwind: '$model'` after the lookup: one row per purchase and
      referenced record; a purchase whose record is gone gives none. */
  function Unwound(p: Purchase, models: seq<Model>): (rows: seq<Row>)
    ensures |rows| == |Lookup(models, p.modelId)|
    ensures forall r :: r in rows <==> r.model in models && r.model.id == p.modelId && r == RowOf(p, r.model)
  {
    RowsOf(p, Lookup(models, p.modelId))
  }

  /** One row per record found, in the order found. */
  function RowsOf(p: Purchase, found: seq<Model>): (rows: seq<Row>)
    ensures |rows| == |found|
    ensures forall r :: r in rows <==> r.model in found && r == RowOf(p, r.model)
    decreases |found|
  {
    if found == [] then []
    else
      assert forall m :: m in found <==> m == found[0] || m in found[1..] by {
        assert found == [found[0]] + found[1..];
      }
      [RowOf(p, found[0])] + RowsOf(p, found[1..])
  }

  /** The lookup and unwind stages over a sequence of purchases, in order. */
  function Joined(purchases: seq<Purchase>, models: seq<Model>): (rows: seq<Row>)
    // Every purchase joined with every record it references is a row ...
    ensures forall p, m :: p in purchases && m in models && m.id == p.modelId ==> RowOf(p, m) in rows
    // ... and every row is such a pair: the join is an inner join.
    ensures forall r :: r in rows ==>
      r.model in models && exists p :: p in purchases && r.model.id == p.modelId && r == RowOf(p, r.model)
    decreases |purchases|
  {
    if purchases == [] then []
    else
      var p := purchases[0];
      var rest := purchases[1..];
      var rows := Unwound(p, models) + Joined(rest, models);
      assert forall q :: q in purchases <==> q == p || q in rest by {
        assert purchases == [p] + rest;
      }
      rows
  }

  /** With unique identifiers the join yields one row for each purchase
      whose record still exists, and none for the others. */
  lemma {:induction false} JoinedCount(purchases: seq<Purchase>, models: seq<Model>)
    requires UniqueIds(models)
    ensures |Joined(purchases, models)| ==
            |Filter(purchases, (p: Purchase) => IndexOfId(models, p.modelId) >= 0)|
    decreases |purchases|
  {
    if purchases != [] {
      LookupAtMostOne(models, purchases[0].modelId);
      JoinedCount(purchases[1..], models);
    }
  }

  /** Joining ascending purchases against unique records gives ascending rows. */
  lemma {:induction false} JoinedIncreasing(purchases: seq<Purchase>, models: seq<Model>)
    requires UniqueIds(models)
    requires StrictlyIncreasing(purchases, PurchasedAt)
    ensures StrictlyIncreasing(Joined(purchases, models), RowAt)
    decreases |purchases|
  {
    if purchases != [] {
      var p := purchases[0];
      var rest := purchases[1..];
      assert StrictlyIncreasing(rest, PurchasedAt) by {
        assert forall k :: 0 <= k < |rest| ==> rest[k] == purchases[k + 1];
      }
      JoinedIncreasing(rest, models);
      LookupAtMostOne(models, p.modelId);
      assert [p] + rest == purchases;
      LaterRows(p, rest, models);
      assert forall r :: r in Unwound(p, models) ==> RowAt(r) == p.purchasedAt;
      ConcatIncreasing(Unwound(p, models), Joined(rest, models), RowAt);
    }
  }

  /** The rows joined from purchases later than `p` are all later than `p`. */
  lemma LaterRows(p: Purchase, rest: seq<Purchase>, models: seq<Model>)
    requires StrictlyIncreasing([p] + rest, PurchasedAt)
    ensures forall r :: r in Joined(rest, models) ==> p.purchasedAt < RowAt(r)
  {
    forall r | r in Joined(rest, models)
      ensures p.purchasedAt < RowAt(r)
    {
      var q :| q in rest && r == RowOf(q, r.model);
      var k :| 0 <= k < |rest| && rest[k] == q;
      assert ([p] + rest)[0] == p && ([p] + rest)[k + 1] == q;
      assert PurchasedAt(([p] + rest)[0]) < PurchasedAt(([p] + rest)[k + 1]);
      assert r == RowOf(q, r.model);
      assert r.purchasedAt == q.purchasedAt;
      assert RowAt(r) == q.purchasedAt;
    }
  }

  /** `GET /purchases/mine`: the caller's purchases joined with their
      records, newest purchase first. */
  function Mine(purchases: seq<Purchase>, models: seq<Model>, email: Option<string>): (rows: seq<Row>)
    // Only the caller's purchases, and only those whose record exists.
    ensures email.Some? ==> forall r :: r in rows ==> r.purchasedBy == email.value
    ensures forall r :: r in rows ==>
      r.model in models && exists p :: p in purchases && r.model.id == p.modelId && r == RowOf(p, r.model)
    // Every such purchase is there, with its record.
    ensures forall p, m ::
      p in purchases && m in models && m.id == p.modelId && (email.None? || p.purchasedBy == email.value)
      ==> RowOf(p, m) in rows
  {
    var rows := Joined(ByBuyer(purchases, email), models);
    assert forall r :: r in Reverse(rows) <==> r in rows by {
      forall r
        ensures r in Reverse(rows) <==> r in rows
      {
        assert r in Reverse(rows) <==> r in multiset(Reverse(rows));
      }
    }
    Reverse(rows)
  }

  /** The rows of `Mine` are newest first, and there is one per purchase of
      the caller whose record still exists. */
  lemma MineOrderAndCount(purchases: seq<Purchase>, models: seq<Model>, email: Option<string>)
    requires UniqueIds(models)
    requires StrictlyIncreasing(purchases, PurchasedAt)
    ensures StrictlyDecreasing(Mine(purchases, models, email), RowAt)
    ensures |Mine(purchases, models, email)| ==
            |Filter(ByBuyer(purchases, email), (p: Purchase) => IndexOfId(models, p.modelId) >= 0)|
  {
    var mine := ByBuyer(purchases, email);
    JoinedIncreasing(mine, models);
    ReverseDecreasing(Joined(mine, models), RowAt);
    JoinedCount(mine, models);
  }

  /** `GET /purchases/by-model/:id`: 400 for a malformed id, otherwise every
      purchase of that record, newest first, whoever made it. */
  function ByModel(purchases: seq<Purchase>, idText: string): (r: Outcome<seq<Purchase>>)
    ensures !ValidId(idText) <==> r == Error(BadRequest, InvalidId)
    ensures ValidId(idText) ==> r.Ok?
    ensures r.Ok? ==> forall p :: p in r.value <==> p in purchases && Some(p.modelId) == ParseId(idText)
    ensures r.Ok? && StrictlyIncreasing(purchases, PurchasedAt) ==> StrictlyDecreasing(r.value, PurchasedAt)
  {
    match ParseId(idText)
    case None => Error(BadRequest, InvalidId)
    case Some(id) =>
      var found := Filter(purchases, (p: Purchase) => p.modelId == id);
      FilterIncreasing(purchases, (p: Purchase) => p.modelId == id, PurchasedAt);
      ReverseDecreasing(found, PurchasedAt);
      assert forall p :: p in Reverse(found) <==> p in found by {
        forall p
          ensures p in Reverse(found) <==> p in found
        {
          assert p in Reverse(found) <==> p in multiset(Reverse(found));
        }
      }
      Ok(Reverse(found))
  }
}
