/** The model catalog's request rules that do not change the store: the
    draft a create request builds and the order in which it is validated,
    the sanitising of an update patch, the lookups the `:id` routes share,
    and the read-only listings (filtered page, latest six, mine). The store
    keeps records in insertion order with strictly increasing `createdAt`,
    so the store's `sort({ createdAt: -1 })` is the reverse of that order. */
module Catalog {
  import opened Wrappers
  import opened ObjectIds
  import opened Text
  import opened Domain
  import opened Seqs

  // ---------------------------------------------------------------------
  // Create: the draft document and its validation

  /** The user-supplied fields, in the order they are validated. */
  const RequiredKeys: seq<string> := ["name", "framework", "useCase", "dataset", "description", "image"]

  const MissingFieldPrefix: string := "Missing field: "

  /** `String(b[k] || '').trim()`: a key absent from the body reads as undefined. */
  function FieldText(body: map<string, Value>, k: string): (t: string)
    ensures t == "" <==> AllSpace(ToText(if k in body then body[k] else Undefined))
    ensures k in body && body[k].Str? ==> t == Trim(body[k].s)
  {
    Trim(ToText(if k in body then body[k] else Undefined))
  }

  /** The text fields of the document a create request builds. */
  function Draft(body: map<string, Value>): (doc: map<string, string>)
    ensures forall k :: k in doc <==> k in RequiredKeys
    ensures forall k :: k in doc ==> doc[k] == FieldText(body, k)
  {
    map k | k in RequiredKeys :: FieldText(body, k)
  }

  /** `!doc[k]`: the key is missing or its text is empty. */
  predicate IsBlank(doc: map<string, string>, k: string)
  {
    k !in doc || doc[k] == ""
  }

  /** `k` is the first required key, in validation order, that is blank. */
  predicate FirstBlank(doc: map<string, string>, k: string)
  {
    exists i :: 0 <= i < |RequiredKeys| && RequiredKeys[i] == k && IsBlank(doc, RequiredKeys[i]) &&
      forall j :: 0 <= j < i ==> !IsBlank(doc, RequiredKeys[j])
  }

  /** The validation loop of a create request: the first required key whose
      text is blank, or nothing when all six are filled in. */
  method FirstMissing(doc: map<string, string>) returns (missing: Option<string>)
    ensures missing.None? <==> forall i :: 0 <= i < |RequiredKeys| ==> !IsBlank(doc, RequiredKeys[i])
    ensures missing.Some? ==> FirstBlank(doc, missing.value)
  {
    var i := 0;
    while i < |RequiredKeys|
      invariant 0 <= i <= |RequiredKeys|
      invariant forall j :: 0 <= j < i ==> !IsBlank(doc, RequiredKeys[j])
    {
      var k := RequiredKeys[i];
      if IsBlank(doc, k) {
        return Some(k);
      }
      i := i + 1;
    }
    return None;
  }

  /** The user fields of a newly created record: the six trimmed texts. */
  function CreatedFields(doc: map<string, string>): (fields: map<string, Value>)
    ensures forall k :: k in fields <==> k in RequiredKeys && k in doc
    ensures forall k :: k in fields ==> fields[k] == Str(doc[k])
  {
    map k | k in RequiredKeys && k in doc :: Str(doc[k])
  }

  // ---------------------------------------------------------------------
  // Update: the patch sanitiser

  /** The keys a patch may never set. */
  const ReservedKeys: set<string> := {"_id", "purchased", "createdBy", "createdAt"}

  /** Invariant of every stored record's user fields: no system key, and no
      null or undefined value. */
  predicate WellFormedFields(fields: map<string, Value>)
  {
    forall k :: k in fields ==> k !in ReservedKeys && !Nullish(fields[k])
  }

  /** A newly created record's fields are well formed: no required key is
      a reserved one, and every value is a string. */
  lemma CreatedFieldsWellFormed(doc: map<string, string>)
    ensures WellFormedFields(CreatedFields(doc))
  {
    forall k | k in RequiredKeys
      ensures k !in ReservedKeys
    {
      assert k[0] !in {'_', 'p', 'c'};
    }
  }

  /** The patch sets key `k`: it is present, not a reserved key, and its
      value is neither null nor undefined. */
  predicate Applies(body: map<string, Value>, k: string)
  {
    k in body && k !in ReservedKeys && !Nullish(body[k])
  }

  /** The patch an update applies: the body without the reserved keys
      (taken apart by destructuring), then without every key whose value is
      null or undefined (deleted one by one). */
  method Sanitize(body: map<string, Value>) returns (updates: map<string, Value>)
    ensures forall k :: k in updates <==> Applies(body, k)
    ensures forall k :: k in updates ==> k in body && updates[k] == body[k]
    ensures WellFormedFields(updates)
  {
    updates := body - ReservedKeys;
    var pending := updates.Keys;
    while pending != {}
      invariant pending <= updates.Keys
      invariant forall k :: k in updates ==> k in body && k !in ReservedKeys && updates[k] == body[k]
      invariant forall k :: k in body && k !in ReservedKeys && k !in pending ==> (k in updates <==> !Nullish(body[k]))
      decreases pending
    {
      var k :| k in pending;
      if Nullish(updates[k]) {
        updates := updates - {k};
      }
      pending := pending - {k};
    }
  }

  /** `$set: updates`: every patch key takes its new value, every other
      field keeps its old one. */
  function Merge(fields: map<string, Value>, updates: map<string, Value>): (r: map<string, Value>)
    ensures forall k :: k in r <==> k in fields || k in updates
    ensures forall k :: k in updates ==> r[k] == updates[k]
    ensures forall k :: k in fields && k !in updates ==> r[k] == fields[k]
    ensures WellFormedFields(fields) && WellFormedFields(updates) ==> WellFormedFields(r)
  {
    fields + updates
  }

  // ---------------------------------------------------------------------
  // The `:id` routes: shared lookup and ownership checks

  const InvalidId: string := "Invalid id"
  const NotFoundMessage: string := "Not found"
  const ForbiddenMessage: string := "Forbidden"

  /** Validate the id text, then find the record: the position of the
      record, 400 for a malformed id (before any lookup), 404 for an id no
      record has. */
  function Locate(models: seq<Model>, idText: string): (r: Outcome<nat>)
    ensures !ValidId(idText) <==> r == Error(BadRequest, InvalidId)
    ensures r.Ok? ==> r.value < |models| && Some(models[r.value].id) == ParseId(idText)
    ensures ValidId(idText) && r.Error? ==>
      r == Error(NotFound, NotFoundMessage) && forall j :: 0 <= j < |models| ==> Some(models[j].id) != ParseId(idText)
  {
    match ParseId(idText)
    case None => Error(BadRequest, InvalidId)
    case Some(id) =>
      var i := IndexOfId(models, id);
      if i < 0 then Error(NotFound, NotFoundMessage) else Ok(i)
  }

  /** `GET /:id`. */
  function GetById(models: seq<Model>, idText: string): (r: Outcome<Model>)
    ensures r.Ok? <==> Locate(models, idText).Ok?
    ensures r.Ok? ==> r.value in models && Some(r.value.id) == ParseId(idText)
    ensures !ValidId(idText) <==> r == Error(BadRequest, InvalidId)
    ensures ValidId(idText) && r.Error? ==>
      r == Error(NotFound, NotFoundMessage) && forall m :: m in models ==> Some(m.id) != ParseId(idText)
  {
    match Locate(models, idText)
    case Ok(i) => Ok(models[i])
    case Error(status, message) => Error(status, message)
  }

  /** The checks update and delete make before touching anything: those of
      `Locate`, then 403 unless the caller's email is exactly `createdBy`. */
  function LocateOwned(models: seq<Model>, idText: string, user: Option<Identity>): (r: Outcome<nat>)
    ensures Locate(models, idText).Error? ==> r == Locate(models, idText)
    ensures r.Ok? ==> r == Locate(models, idText) && IsOwner(models[r.value], user)
    // The creator gets through.
    ensures Locate(models, idText).Ok? && IsOwner(models[Locate(models, idText).value], user) ==>
      r == Locate(models, idText)
    ensures Locate(models, idText).Ok? && !IsOwner(models[Locate(models, idText).value], user) ==>
      r == Error(Forbidden, ForbiddenMessage)
  {
    match Locate(models, idText)
    case Ok(i) => if IsOwner(models[i], user) then Ok(i) else Error(Forbidden, ForbiddenMessage)
    case Error(status, message) => Error(status, message)
  }

  // ---------------------------------------------------------------------
  // Listings

  /** `sort({ createdAt: -1 })` over records kept in ascending `createdAt`. */
  function NewestFirst(models: seq<Model>): (r: seq<Model>)
    ensures multiset(r) == multiset(models)
    ensures forall m :: m in r <==> m in models
    ensures StrictlyIncreasing(models, CreatedAt) ==> StrictlyDecreasing(r, CreatedAt)
  {
    ReverseDecreasing(models, CreatedAt);
    ReverseMembers(models);
    Reverse(models)
  }

  lemma ReverseMembers(models: seq<Model>)
    ensures forall m :: m in Reverse(models) <==> m in models
  {
    forall m
      ensures m in Reverse(models) <==> m in models
    {
      assert m in Reverse(models) <==> m in multiset(Reverse(models));
    }
  }

  /** The descending order is the only one: any arrangement of the same
      records that is newest first is `NewestFirst`. */
  lemma NewestFirstIsTheSort(models: seq<Model>, sorted: seq<Model>)
    requires StrictlyIncreasing(models, CreatedAt)
    requires multiset(sorted) == multiset(models)
    requires StrictlyDecreasing(sorted, CreatedAt)
    ensures sorted == NewestFirst(models)
  {
    DecreasingUnique(sorted, NewestFirst(models), CreatedAt);
  }

  const DefaultPage: int := 1
  const DefaultLimit: int := 12
  const MaxLimit: int := 48
  const LatestCount: nat := 6

  /** `Math.max(1, parseInt(page))`, page defaulting to 1. */
  function PageNumber(page: Option<int>): (p: int)
    ensures p >= 1
    ensures page.Some? && page.value >= 1 ==> p == page.value
    ensures page.None? || page.value < 1 ==> p == 1
  {
    var n := if page.Some? then page.value else DefaultPage;
    if n < 1 then 1 else n
  }

  /** `Math.max(1, Math.min(48, parseInt(limit)))`, limit defaulting to 12. */
  function PageSize(limit: Option<int>): (l: int)
    ensures 1 <= l <= MaxLimit
    ensures limit.None? ==> l == DefaultLimit
    ensures limit.Some? && 1 <= limit.value <= MaxLimit ==> l == limit.value
    ensures limit.Some? && limit.value > MaxLimit ==> l == MaxLimit
    ensures limit.Some? && limit.value < 1 ==> l == 1
  {
    var n := if limit.Some? then limit.value else DefaultLimit;
    if n > MaxLimit then MaxLimit else if n < 1 then 1 else n
  }

  /** The query-string parameters of `GET /`; page and limit as parsed integers. */
  datatype ListQuery = ListQuery(q: Option<string>, frameworks: Option<string>, page: Option<int>, limit: Option<int>)

  /** The listing body `{ items, total, page, pages }`. */
  datatype Listing = Listing(items: seq<Model>, total: nat, page: int, pages: nat)

  /** A query parameter takes part in the filter only when it is a
      non-empty string. */
  predicate Given(param: Option<string>)
  {
    param.Some? && param.value != ""
  }

  /** The filter document: `name` matches `q`, and `framework` is one of the
      comma-separated `frameworks`. A field that is missing or not a string
      matches neither. */
  predicate Matches(m: Model, q: Option<string>, frameworks: Option<string>)
  {
    && (Given(q) ==> "name" in m.fields && m.fields["name"].Str? && NameMatches(q.value, m.fields["name"].s))
    && (Given(frameworks) ==>
          "framework" in m.fields && m.fields["framework"].Str? && m.fields["framework"].s in Split(frameworks.value, ','))
  }

  /** Every record the filter document selects, in store order. */
  function Matching(models: seq<Model>, q: Option<string>, frameworks: Option<string>): (r: seq<Model>)
    ensures forall m :: m in r <==> m in models && Matches(m, q, frameworks)
    ensures StrictlyIncreasing(models, CreatedAt) ==> StrictlyIncreasing(r, CreatedAt)
  {
    FilterIncreasing(models, (m: Model) => Matches(m, q, frameworks), CreatedAt);
    Filter(models, (m: Model) => Matches(m, q, frameworks))
  }

  /** `Math.ceil(total / l)`. */
  function PageCount(total: nat, l: int): (pages: nat)
    requires l >= 1
    ensures pages * l >= total
    ensures total > 0 ==> (pages - 1) * l < total
    ensures total == 0 <==> pages == 0
  {
    var pages := (total + l - 1) / l;
    assert pages * l + (total + l - 1) % l == total + l - 1;
    pages
  }

  /** `GET /`: the `l` matching records from position `(p - 1) * l` of the
      newest-first order, with the count of all matching records. */
  function List(models: seq<Model>, query: ListQuery): (r: Listing)
    ensures r.page == PageNumber(query.page)
    ensures r.total == |Matching(models, query.q, query.frameworks)|
    ensures r.pages == PageCount(r.total, PageSize(query.limit))
    ensures |r.items| == if Skip(query) >= r.total then 0
                         else if r.total - Skip(query) < PageSize(query.limit) then r.total - Skip(query)
                         else PageSize(query.limit)
    ensures forall i :: 0 <= i < |r.items| ==>
      Skip(query) + i < r.total && r.items[i] == NewestFirst(Matching(models, query.q, query.frameworks))[Skip(query) + i]
  {
    var l := PageSize(query.limit);
    var sorted := NewestFirst(Matching(models, query.q, query.frameworks));
    Listing(Window(sorted, Skip(query), l), |sorted|, PageNumber(query.page), PageCount(|sorted|, l))
  }

  /** `(p - 1) * l`: how many matching records precede the requested page. */
  function Skip(query: ListQuery): (n: nat)
    // Exactly the `p - 1` whole pages before page `p`.
    ensures n % PageSize(query.limit) == 0 && n / PageSize(query.limit) == PageNumber(query.page) - 1
  {
    MulDiv(PageNumber(query.page) - 1, PageSize(query.limit));
    (PageNumber(query.page) - 1) * PageSize(query.limit)
  }

  lemma MulDiv(a: nat, l: int)
    requires l >= 1
    ensures (a * l) % l == 0 && (a * l) / l == a
  {
    var q, r := (a * l) / l, (a * l) % l;
    assert q * l + r == a * l && 0 <= r < l;
    if q > a {
      MulMonotone(a + 1, q, l);
    } else if q < a {
      MulMonotone(q + 1, a, l);
    }
  }

  lemma MulMonotone(a: int, b: int, l: int)
    requires a <= b && l >= 0
    ensures a * l <= b * l
  {
    assert b * l - a * l == (b - a) * l;
  }

  /** The arithmetic of paging: with `pages = ceil(total / l)`, the page
      `p` starts before the end exactly when `p <= pages`, and a page before
      the last has a full `l` records after its start. */
  lemma PagingArithmetic(total: nat, p: int, l: int)
    requires p >= 1 && l >= 1
    ensures (p - 1) * l < total <==> p <= PageCount(total, l)
    ensures p < PageCount(total, l) ==> total - (p - 1) * l > l
  {
    var pages := PageCount(total, l);
    if p <= pages {
      MulMonotone(p - 1, pages - 1, l);
    } else {
      MulMonotone(pages, p - 1, l);
    }
    if p < pages {
      MulMonotone(p, pages - 1, l);
      assert (p - 1) * l + l == p * l;
    }
  }

  /** A page holds something exactly when its number is at most `pages`,
      and then it is full unless it is the last one. */
  lemma PageFilledIff(models: seq<Model>, query: ListQuery)
    ensures var r := List(models, query);
      |r.items| > 0 <==> r.page <= r.pages
    ensures var r := List(models, query);
      r.page < r.pages ==> |r.items| == PageSize(query.limit)
  {
    var r := List(models, query);
    PagingArithmetic(r.total, r.page, PageSize(query.limit));
  }

  /** Paging loses nothing: the `j`-th matching record, newest first, is on
      page `j / l + 1` at position `j % l`, for any page size `l` in range. */
  lemma EveryMatchOnItsPage(models: seq<Model>, q: Option<string>, frameworks: Option<string>, l: int, j: nat)
    requires 1 <= l <= MaxLimit
    requires j < |Matching(models, q, frameworks)|
    ensures var r := List(models, ListQuery(q, frameworks, Some(j / l + 1), Some(l)));
      j % l < |r.items| && r.items[j % l] == NewestFirst(Matching(models, q, frameworks))[j]
  {
    var query := ListQuery(q, frameworks, Some(j / l + 1), Some(l));
    var sorted := NewestFirst(Matching(models, q, frameworks));
    SkipOfPage(query, l, j);
    WindowAt(sorted, Skip(query), l, j % l);
  }

  /** Page `j / l + 1` starts `j % l` records before the `j`-th. */
  lemma SkipOfPage(query: ListQuery, l: int, j: nat)
    requires 1 <= l <= MaxLimit
    requires query.page == Some(j / l + 1) && query.limit == Some(l)
    ensures Skip(query) + j % l == j && j % l < l && PageSize(query.limit) == l
  {
    assert PageNumber(query.page) == j / l + 1;
    DivSplit(j, l);
  }

  lemma DivSplit(j: nat, l: int)
    requires l >= 1
    ensures (j / l) * l + j % l == j && 0 <= j % l < l
  {
  }

  lemma WindowAt<T>(s: seq<T>, n: nat, l: nat, m: nat)
    requires m < l && n + m < |s|
    ensures m < |Window(s, n, l)| && Window(s, n, l)[m] == s[n + m]
  {
  }

  /** The worked example: 25 matches, 12 per page, page 3 holds one record
      and there are 3 pages. */
  lemma ThirdPageOfTwentyFive(models: seq<Model>, q: Option<string>, frameworks: Option<string>)
    requires |Matching(models, q, frameworks)| == 25
    ensures var r := List(models, ListQuery(q, frameworks, Some(3), None));
      |r.items| == 1 && r.pages == 3 && r.total == 25
  {
  }

  /** `GET /latest`: the six most recent records (fewer if the store holds
      fewer), newest first. */
  function Latest(models: seq<Model>): (r: seq<Model>)
    ensures |r| == if |models| < LatestCount then |models| else LatestCount
    ensures forall k :: 0 <= k < |r| ==> r[k] == models[|models| - 1 - k]
  {
    var sorted := NewestFirst(models);
    sorted[..if |sorted| < LatestCount then |sorted| else LatestCount]
  }

  /** No record left out of `Latest` is newer than one it returns, and what
      it returns is newest first. */
  lemma LatestAreNewest(models: seq<Model>)
    requires StrictlyIncreasing(models, CreatedAt)
    ensures StrictlyDecreasing(Latest(models), CreatedAt)
    ensures forall i, k :: 0 <= i < |models| - |Latest(models)| && 0 <= k < |Latest(models)| ==>
      models[i].createdAt < Latest(models)[k].createdAt
  {
    var r := Latest(models);
    forall i, k | 0 <= i < |models| - |r| && 0 <= k < |r|
      ensures models[i].createdAt < r[k].createdAt
    {
      assert r[k] == models[|models| - 1 - k];
      assert i < |models| - 1 - k;
    }
  }

  /** The records created by `email`; with no email the filter is the empty
      document (undefined values are dropped from queries) and selects all. */
  function CreatedBy(models: seq<Model>, email: Option<string>): (r: seq<Model>)
    ensures email.Some? ==> forall m :: m in r <==> m in models && m.createdBy == email.value
    ensures email.None? ==> r == models
    ensures StrictlyIncreasing(models, CreatedAt) ==> StrictlyIncreasing(r, CreatedAt)
  {
    if email.None? then models
    else
      FilterIncreasing(models, (m: Model) => m.createdBy == email.value, CreatedAt);
      Filter(models, (m: Model) => m.createdBy == email.value)
  }

  /** `GET /mine`: the caller's records, newest first. */
  function Mine(models: seq<Model>, email: Option<string>): (r: seq<Model>)
    ensures email.Some? ==> forall m :: m in r <==> m in models && m.createdBy == email.value
    ensures email.None? ==> multiset(r) == multiset(models)
    ensures StrictlyIncreasing(models, CreatedAt) ==> StrictlyDecreasing(r, CreatedAt)
  {
    NewestFirst(CreatedBy(models, email))
  }
}
