/** The private routes: the token gate runs first and either answers 401 or
    hands the request, with the identity it attached, to the handler. The
    public routes (`GET /`, `GET /latest`, `GET /:id`) are the catalog
    functions themselves. */
module Routes {
  import opened Wrappers
  import opened ObjectIds
  import opened Domain
  import opened Auth
  import opened Seqs
  import Catalog
  import Purchases
  import Store

  // ---------------------------------------------------------------------
  // Private reads

  /** `GET /api/models/mine`. */
  function MyModels(g: Gate, header: string, verify: string -> Option<Identity>, models: seq<Model>)
    : (r: Outcome<seq<Model>>)
    ensures r.Error? <==> Authenticate(g, header, verify).Reject?
    ensures r.Error? ==> r.status == Unauthorized && r.message in {MissingToken, InvalidToken}
    ensures Authenticate(g, header, verify).Reject? ==> r == Error(Unauthorized, Authenticate(g, header, verify).message)
    // The records listed are those whose creator is the caller's email, or
    // all of them when the request carries no email.
    ensures r.Ok? ==> var email := CallerEmail(Authenticate(g, header, verify).user);
      forall m :: m in r.value <==> m in models && (email.None? || m.createdBy == email.value)
    ensures r.Ok? && StrictlyIncreasing(models, CreatedAt) ==> StrictlyDecreasing(r.value, CreatedAt)
  {
    match Authenticate(g, header, verify)
    case Reject(message) => Error(Unauthorized, message)
    case Admit(user) =>
      var mine := Catalog.Mine(models, CallerEmail(user));
      assert forall m :: m in mine <==> m in multiset(mine);
      assert forall m :: m in models <==> m in multiset(models);
      Ok(mine)
  }

  /** `GET /api/purchases/mine`. */
  function MyPurchases(g: Gate, header: string, verify: string -> Option<Identity>,
                       purchases: seq<Purchase>, models: seq<Model>)
    : (r: Outcome<seq<Purchases.Row>>)
    ensures r.Error? <==> Authenticate(g, header, verify).Reject?
    ensures r.Error? ==> r.status == Unauthorized && r.message in {MissingToken, InvalidToken}
    ensures Authenticate(g, header, verify).Reject? ==> r == Error(Unauthorized, Authenticate(g, header, verify).message)
    // Each row pairs one of the caller's purchases with the record it
    // references, and every such pair is listed.
    ensures r.Ok? ==> var email := CallerEmail(Authenticate(g, header, verify).user);
      && (forall row :: row in r.value ==>
            && row.model in models
            && (email.None? || row.purchasedBy == email.value)
            && exists p :: p in purchases && row.model.id == p.modelId && row == Purchases.RowOf(p, row.model))
      && (forall p, m ::
            p in purchases && m in models && m.id == p.modelId && (email.None? || p.purchasedBy == email.value)
            ==> Purchases.RowOf(p, m) in r.value)
    ensures r.Ok? ==> r.value == Purchases.Mine(purchases, models, CallerEmail(Authenticate(g, header, verify).user))
  {
    match Authenticate(g, header, verify)
    case Reject(message) => Error(Unauthorized, message)
    case Admit(user) => Ok(Purchases.Mine(purchases, models, CallerEmail(user)))
  }

  /** In a consistent store the rows of `/purchases/mine` are newest purchase
      first, one for each of the caller's purchases whose record exists. */
  lemma MyPurchasesOrderAndCount(g: Gate, header: string, verify: string -> Option<Identity>,
                                 purchases: seq<Purchase>, models: seq<Model>)
    requires UniqueIds(models) && StrictlyIncreasing(purchases, PurchasedAt)
    requires Authenticate(g, header, verify).Admit?
    ensures var r := MyPurchases(g, header, verify, purchases, models);
      var email := CallerEmail(Authenticate(g, header, verify).user);
      && r.Ok?
      && StrictlyDecreasing(r.value, Purchases.RowAt)
      && |r.value| == |Filter(Purchases.ByBuyer(purchases, email), (p: Purchase) => IndexOfId(models, p.modelId) >= 0)|
  {
    Purchases.MineOrderAndCount(purchases, models, CallerEmail(Authenticate(g, header, verify).user));
  }

  /** `GET /api/purchases/by-model/:id`: any signed-in caller may read the
      purchases of any record. */
  function PurchasesOf(g: Gate, header: string, verify: string -> Option<Identity>,
                       purchases: seq<Purchase>, idText: string)
    : (r: Outcome<seq<Purchase>>)
    ensures Authenticate(g, header, verify).Reject? ==>
      r == Error(Unauthorized, Authenticate(g, header, verify).message)
    ensures Authenticate(g, header, verify).Admit? ==>
      (!ValidId(idText) <==> r == Error(BadRequest, Catalog.InvalidId))
    ensures Authenticate(g, header, verify).Admit? && ValidId(idText) ==> r.Ok?
    ensures r.Ok? ==> forall p :: p in r.value <==> p in purchases && Some(p.modelId) == ParseId(idText)
    ensures r.Ok? && StrictlyIncreasing(purchases, PurchasedAt) ==> StrictlyDecreasing(r.value, PurchasedAt)
  {
    match Authenticate(g, header, verify)
    case Reject(message) => Error(Unauthorized, message)
    case Admit(_) => Purchases.ByModel(purchases, idText)
  }

  // ---------------------------------------------------------------------
  // Private writes

  /** `POST /api/models`. */
  method CreateModel(g: Gate, header: string, verify: string -> Option<Identity>, store: Store.ModelStore,
                     body: map<string, Value>, newId: ObjectId, now: nat)
    returns (out: Outcome<Model>)
    requires store.Valid() && now > store.clock && store.Fresh(newId)
    modifies store
    ensures store.Valid()
    ensures store.purchases == old(store.purchases)
    ensures out == Error(Unauthorized, MissingToken) || out == Error(Unauthorized, InvalidToken)
        <==> Authenticate(g, header, verify).Reject?
    ensures Authenticate(g, header, verify).Reject? ==> out == Error(Unauthorized, Authenticate(g, header, verify).message)
    ensures out.Error? ==> store.models == old(store.models) && store.clock == old(store.clock)
    // Past the gate, the create rules: 400 naming the first blank field, or
    // the new record with the six trimmed fields.
    ensures Authenticate(g, header, verify).Admit? ==>
      (out.Ok? <==> forall i :: 0 <= i < |Catalog.RequiredKeys| ==> !Catalog.IsBlank(Catalog.Draft(body), Catalog.RequiredKeys[i]))
    ensures Authenticate(g, header, verify).Admit? && out.Error? ==>
      && out.status == BadRequest
      && exists k :: out.message == Catalog.MissingFieldPrefix + k && Catalog.FirstBlank(Catalog.Draft(body), k)
    ensures out.Ok? ==>
      && out.value == Model(newId, Catalog.CreatedFields(Catalog.Draft(body)),
                            Attribution(Authenticate(g, header, verify).user), now, 0)
      && store.models == old(store.models) + [out.value]
      && store.clock == now
  {
    var d := Authenticate(g, header, verify);
    if d.Reject? {
      return Error(Unauthorized, d.message);
    }
    out := store.Create(d.user, body, newId, now);
  }

  /** `PUT /api/models/:id`. */
  method UpdateModel(g: Gate, header: string, verify: string -> Option<Identity>, store: Store.ModelStore,
                     idText: string, body: map<string, Value>)
    returns (out: Outcome<Model>)
    requires store.Valid()
    modifies store
    ensures store.Valid()
    ensures store.purchases == old(store.purchases) && store.clock == old(store.clock)
    ensures out.Error? && out.status == Unauthorized <==> Authenticate(g, header, verify).Reject?
    ensures Authenticate(g, header, verify).Reject? ==> out == Error(Unauthorized, Authenticate(g, header, verify).message)
    ensures out.Error? ==> store.models == old(store.models)
    // Only the verified creator of the record changes it.
    ensures out.Ok? ==>
      && Authenticate(g, header, verify).Admit?
      && exists i :: 0 <= i < |old(store.models)| && Some(old(store.models)[i].id) == ParseId(idText) &&
           IsOwner(old(store.models)[i], Authenticate(g, header, verify).user) &&
           i < |store.models| && out == Ok(store.models[i])
    // Past the gate, the checks of `LocateOwned` answer in source order ...
    ensures Authenticate(g, header, verify).Admit? ==>
      var target := Catalog.LocateOwned(old(store.models), idText, Authenticate(g, header, verify).user);
      target.Error? ==> out == Error(target.status, target.message)
    // ... and a success changes only the target's user fields, as the patch says.
    ensures Authenticate(g, header, verify).Admit? ==>
      var target := Catalog.LocateOwned(old(store.models), idText, Authenticate(g, header, verify).user);
      target.Ok? ==>
        var i := target.value;
        var before := old(store.models)[i];
        && |store.models| == |old(store.models)|
        && (forall j :: 0 <= j < |store.models| && j != i ==> store.models[j] == old(store.models)[j])
        && out == Ok(store.models[i])
        && store.models[i] == before.(fields := store.models[i].fields)
        && (forall k :: k in store.models[i].fields <==> k in before.fields || Catalog.Applies(body, k))
        && (forall k :: Catalog.Applies(body, k) ==> store.models[i].fields[k] == body[k])
        && (forall k :: k in before.fields && !Catalog.Applies(body, k) ==> store.models[i].fields[k] == before.fields[k])
  {
    var d := Authenticate(g, header, verify);
    if d.Reject? {
      return Error(Unauthorized, d.message);
    }
    out := store.Update(d.user, idText, body);
  }

  /** `DELETE /api/models/:id`. */
  method DeleteModel(g: Gate, header: string, verify: string -> Option<Identity>, store: Store.ModelStore,
                     idText: string)
    returns (out: Outcome<bool>)
    requires store.Valid()
    modifies store
    ensures store.Valid()
    ensures store.purchases == old(store.purchases) && store.clock == old(store.clock)
    ensures out.Error? && out.status == Unauthorized <==> Authenticate(g, header, verify).Reject?
    ensures Authenticate(g, header, verify).Reject? ==> out == Error(Unauthorized, Authenticate(g, header, verify).message)
    ensures out.Error? ==> store.models == old(store.models)
    // Only the verified creator of the record removes it, and nothing else goes.
    ensures out.Ok? ==>
      && Authenticate(g, header, verify).Admit?
      && exists i :: 0 <= i < |old(store.models)| && Some(old(store.models)[i].id) == ParseId(idText) &&
           IsOwner(old(store.models)[i], Authenticate(g, header, verify).user) &&
           store.models == old(store.models)[..i] + old(store.models)[i + 1..]
    // Past the gate, the checks of `LocateOwned` answer in source order, and
    // the owner's delete removes exactly the target.
    ensures Authenticate(g, header, verify).Admit? ==>
      var target := Catalog.LocateOwned(old(store.models), idText, Authenticate(g, header, verify).user);
      target.Error? ==> out == Error(target.status, target.message)
    ensures Authenticate(g, header, verify).Admit? ==>
      var target := Catalog.LocateOwned(old(store.models), idText, Authenticate(g, header, verify).user);
      target.Ok? ==>
        out == Ok(true) && store.models == old(store.models)[..target.value] + old(store.models)[target.value + 1..]
  {
    var d := Authenticate(g, header, verify);
    if d.Reject? {
      return Error(Unauthorized, d.message);
    }
    out := store.Delete(d.user, idText);
  }

  /** `POST /api/models/:id/purchase`. */
  method PurchaseModel(g: Gate, header: string, verify: string -> Option<Identity>, store: Store.ModelStore,
                       idText: string, now: nat)
    returns (out: Outcome<Model>)
    requires store.Valid() && now > store.clock
    modifies store
    ensures store.Valid()
    ensures out.Error? && out.status == Unauthorized <==> Authenticate(g, header, verify).Reject?
    ensures Authenticate(g, header, verify).Reject? ==> out == Error(Unauthorized, Authenticate(g, header, verify).message)
    // A refused request or a malformed id records nothing; any other
    // request records exactly one purchase, even of a missing record.
    ensures Authenticate(g, header, verify).Reject? || !ValidId(idText) ==>
      store.models == old(store.models) && store.purchases == old(store.purchases)
    ensures Authenticate(g, header, verify).Admit? && ValidId(idText) ==>
      |store.purchases| == |old(store.purchases)| + 1 &&
      store.purchases[..|old(store.purchases)|] == old(store.purchases) &&
      store.purchases[|old(store.purchases)|].purchasedBy == Attribution(Authenticate(g, header, verify).user)
    ensures out.Ok? ==> out.value in store.models && Some(out.value.id) == ParseId(idText)
    // Past the gate: 400 for a malformed id; otherwise the purchase of that
    // id at `now`, then the increment, then the record or 404.
    ensures Authenticate(g, header, verify).Admit? && !ValidId(idText) ==>
      out == Error(BadRequest, Catalog.InvalidId) && store.clock == old(store.clock)
    ensures Authenticate(g, header, verify).Admit? && ValidId(idText) ==>
      var id := ParseId(idText).value;
      var i := IndexOfId(old(store.models), id);
      && store.purchases == old(store.purchases) + [Purchase(id, Attribution(Authenticate(g, header, verify).user), now)]
      && store.clock == now
      && (i < 0 ==> out == Error(NotFound, Catalog.NotFoundMessage) && store.models == old(store.models))
      && (i >= 0 ==>
            store.models == old(store.models)[i := old(store.models)[i].(purchased := old(store.models)[i].purchased + 1)] &&
            out == Ok(store.models[i]))
  {
    var d := Authenticate(g, header, verify);
    if d.Reject? {
      return Error(Unauthorized, d.message);
    }
    out := store.Purchase(d.user, idText, now);
  }

  // ---------------------------------------------------------------------
  // Consequences of the gate for the owner-only routes

  /** When enforcing, an update or delete that passes the ownership check
      was made by a caller whose verified token carries the creator's email. */
  lemma OwnerIsVerified(g: Gate, header: string, verify: string -> Option<Identity>,
                        models: seq<Model>, idText: string)
    requires g.enabled
    requires Authenticate(g, header, verify).Admit?
    requires Catalog.LocateOwned(models, idText, Authenticate(g, header, verify).user).Ok?
    ensures BearerToken(header).Some?
    ensures verify(BearerToken(header).value).Some?
    ensures verify(BearerToken(header).value).value.email ==
            Some(models[Catalog.LocateOwned(models, idText, Authenticate(g, header, verify).user).value].createdBy)
  {
  }

  /** With the gate bypassed no identity is attached, so update and delete
      answer 403 for every existing record. */
  lemma BypassForbidsOwnerRoutes(g: Gate, header: string, verify: string -> Option<Identity>,
                                 models: seq<Model>, idText: string)
    requires !g.enabled
    requires Catalog.Locate(models, idText).Ok?
    ensures Catalog.LocateOwned(models, idText, Authenticate(g, header, verify).user) ==
            Error(Forbidden, Catalog.ForbiddenMessage)
  {
  }
}
