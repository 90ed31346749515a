/** The records the service keeps, the JSON values a request body carries,
    the caller identity the token gate attaches, and the outcome every route
    handler produces. */
module Domain {
  import opened Wrappers
  import opened ObjectIds
  import opened Text

  /** A JSON value as it can appear in a request body. `Undefined` is a key
      present with no value. Fractional numbers, arrays and objects are not
      modelled. */
  datatype Value = Undefined | Null | Bool(b: bool) | Num(n: int) | Str(s: string)

  /** `v === undefined || v === null`. */
  predicate Nullish(v: Value)
  {
    v.Undefined? || v.Null?
  }

  /** JavaScript truthiness of `v`. */
  predicate Truthy(v: Value)
  {
    match v
    case Undefined => false
    case Null => false
    case Bool(b) => b
    case Num(n) => n != 0
    case Str(s) => s != ""
  }

  /** `String(v || '')`: the text of a truthy value, else the empty string. */
  function ToText(v: Value): (t: string)
    ensures t == "" <==> !Truthy(v)
    ensures v.Str? ==> t == v.s
  {
    match v
    case Undefined => ""
    case Null => ""
    case Bool(b) => if b then "true" else ""
    case Num(n) => if n == 0 then "" else Decimal(n)
    case Str(s) => s
  }

  /** One catalog listing. The system-managed fields are named; the
      user-supplied ones (name, framework, useCase, dataset, description,
      image, and whatever else an owner sets later) live in `fields`. */
  datatype Model = Model(
    id: ObjectId,
    fields: map<string, Value>,
    createdBy: string,
    createdAt: nat,
    purchased: nat)

  /** One purchase event. */
  datatype Purchase = Purchase(modelId: ObjectId, purchasedBy: string, purchasedAt: nat)

  function CreatedAt(m: Model): int { m.createdAt }

  function PurchasedAt(p: Purchase): int { p.purchasedAt }

  /** The decoded token the gate attaches to a request (`req.user`); only
      its email claim is used. */
  datatype Identity = Identity(email: Option<string>)

  /** What a route handler answers: a success body, or a status code with a
      `{ message }` body. */
  datatype Outcome<T> = Ok(value: T) | Error(status: nat, message: string)

  const BadRequest: nat := 400
  const Unauthorized: nat := 401
  const Forbidden: nat := 403
  const NotFound: nat := 404

  /** `req.user?.email`: absent when no identity is attached. */
  function CallerEmail(user: Option<Identity>): Option<string>
  {
    if user.Some? then user.value.email else None
  }

  const Unknown: string := "unknown"

  /** `req.user?.email || 'unknown'`: the name a new record is attributed to. */
  function Attribution(user: Option<Identity>): (who: string)
    ensures who != ""
    ensures CallerEmail(user).Some? && CallerEmail(user).value != "" ==> Some(who) == CallerEmail(user)
    ensures who == Unknown || Some(who) == CallerEmail(user)
  {
    var email := CallerEmail(user);
    if email.Some? && email.value != "" then email.value else Unknown
  }

  /** `existing.createdBy === req.user?.email`: the exact-match ownership rule. */
  function IsOwner(m: Model, user: Option<Identity>): (owns: bool)
    // No identity, or an identity without an email claim, owns nothing.
    ensures owns ==> user.Some? && user.value.email.Some?
    // An owner is the name the caller's own new records are attributed to.
    ensures owns && m.createdBy != "" ==> Attribution(user) == m.createdBy
  {
    CallerEmail(user) == Some(m.createdBy)
  }

  /** A caller owns the records it creates exactly when its identity
      carries a non-empty email: records attributed to `unknown` can be
      changed by nobody who lacks one. */
  lemma CreatorOwnsIff(m: Model, user: Option<Identity>)
    requires m.createdBy == Attribution(user)
    ensures IsOwner(m, user) <==> CallerEmail(user).Some? && CallerEmail(user).value != ""
  {
  }

  predicate UniqueIds(models: seq<Model>)
  {
    forall i, j :: 0 <= i < j < |models| ==> models[i].id != models[j].id
  }

  /** `findOne({ _id: id })`: the position of the record with that id, or -1. */
  function IndexOfId(models: seq<Model>, id: ObjectId): (i: int)
    ensures -1 <= i < |models|
    ensures 0 <= i ==> models[i].id == id
    ensures i < 0 <==> forall j :: 0 <= j < |models| ==> models[j].id != id
    decreases |models|
  {
    if models == [] then -1
    else if models[|models| - 1].id == id then |models| - 1
    else IndexOfId(models[..|models| - 1], id)
  }

  /** How many purchase events reference `id` and were made after `since`:
      what the `purchased` counter of a record created at `since` is meant
      to hold. Earlier purchases of the same id (made before the record
      existed) never reached its counter. */
  function PurchaseCount(purchases: seq<Purchase>, id: ObjectId, since: nat): (n: nat)
    ensures n <= |purchases|
    decreases |purchases|
  {
    if purchases == [] then 0
    else
      var last := purchases[|purchases| - 1];
      PurchaseCount(purchases[..|purchases| - 1], id, since) + if last.modelId == id && last.purchasedAt > since then 1 else 0
  }

  /** The count is zero exactly when no purchase of `id` is later than `since`. */
  lemma {:induction false} PurchaseCountZero(purchases: seq<Purchase>, id: ObjectId, since: nat)
    ensures PurchaseCount(purchases, id, since) == 0 <==>
      forall i :: 0 <= i < |purchases| ==> purchases[i].modelId != id || purchases[i].purchasedAt <= since
    decreases |purchases|
  {
    if purchases != [] {
      var rest := purchases[..|purchases| - 1];
      PurchaseCountZero(rest, id, since);
      assert forall i :: 0 <= i < |rest| ==> rest[i] == purchases[i];
    }
  }

  /** Recording one more purchase adds one to the count of its model, if
      it is later than `since`, and to no other. */
  lemma PurchaseCountAppend(purchases: seq<Purchase>, p: Purchase, id: ObjectId, since: nat)
    ensures PurchaseCount(purchases + [p], id, since) ==
            PurchaseCount(purchases, id, since) + if p.modelId == id && p.purchasedAt > since then 1 else 0
  {
    assert (purchases + [p])[..|purchases|] == purchases;
  }
}
