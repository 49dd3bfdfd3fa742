/** The API-key repository over one database context. The context tracks
    `ApiKey` objects (loaded or added in this scope; changes made to them
    stay in memory) and `saved` is the ApiKeys table as of the last
    SaveChanges. Listing and counting run as SQL against the table. */
module Repository {
  import opened Common
  import opened ApiKeys
  import KeyService
  import Paging
  import Sequences

  /** The property values of a sequence of tracked keys. */
  function Snapshots(ks: seq<ApiKey>): (r: seq<ApiKeyRecord>)
    reads ks
    ensures |r| == |ks|
    ensures forall i | 0 <= i < |ks| :: r[i] == ks[i].Snapshot()
  {
    if |ks| == 0 then [] else [ks[0].Snapshot()] + Snapshots(ks[1..])
  }

  /** The first index whose record has the given id (FirstOrDefault). */
  function FirstWithId(rows: seq<ApiKeyRecord>, id: Guid): (r: Option<nat>)
    ensures r.Some? ==> r.value < |rows| && rows[r.value].id == id
    ensures r.Some? ==> forall j | 0 <= j < r.value :: rows[j].id != id
    ensures r.None? ==> forall j | 0 <= j < |rows| :: rows[j].id != id
  {
    if |rows| == 0 then None
    else if rows[0].id == id then Some(0)
    else
      var r := FirstWithId(rows[1..], id);
      if r.Some? then Some(r.value + 1) else None
  }

  /** The three optional filters of GetAllAsync and GetCountAsync. */
  datatype KeyFilter = KeyFilter(ownerId: Option<Guid>, plan: Option<Plan>, isActive: Option<bool>)

  predicate Admits(f: KeyFilter, k: ApiKeyRecord) {
    && (f.ownerId.Some? ==> k.ownerId == f.ownerId.value)
    && (f.plan.Some? ==> k.plan == f.plan.value)
    && (f.isActive.Some? ==> k.isActive == f.isActive.value)
  }

  function AdmittedBy(f: KeyFilter): ApiKeyRecord -> bool {
    (k: ApiKeyRecord) => Admits(f, k)
  }

  /** The query after its conditional Where calls, applied one after another
      as the source composes them. */
  function Filtered(rows: seq<ApiKeyRecord>, f: KeyFilter): seq<ApiKeyRecord> {
    var byOwner := if f.ownerId.Some? then Sequences.Filter(rows, OwnerIs(f.ownerId.value)) else rows;
    var byPlan := if f.plan.Some? then Sequences.Filter(byOwner, PlanIs(f.plan.value)) else byOwner;
    if f.isActive.Some? then Sequences.Filter(byPlan, ActiveIs(f.isActive.value)) else byPlan
  }

  function OwnerIs(ownerId: Guid): ApiKeyRecord -> bool {
    (k: ApiKeyRecord) => k.ownerId == ownerId
  }

  function PlanIs(plan: Plan): ApiKeyRecord -> bool {
    (k: ApiKeyRecord) => k.plan == plan
  }

  function ActiveIs(isActive: bool): ApiKeyRecord -> bool {
    (k: ApiKeyRecord) => k.isActive == isActive
  }

  /** The composed filters keep exactly the records that pass every supplied
      filter, in table order; an unsupplied filter restricts nothing. */
  lemma FilteredIsOneFilter(rows: seq<ApiKeyRecord>, f: KeyFilter)
    ensures Filtered(rows, f) == Sequences.Filter(rows, AdmittedBy(f))
  {
    var pOwner := (k: ApiKeyRecord) => f.ownerId.Some? ==> k.ownerId == f.ownerId.value;
    var pPlan := (k: ApiKeyRecord) => f.plan.Some? ==> k.plan == f.plan.value;
    var pActive := (k: ApiKeyRecord) => f.isActive.Some? ==> k.isActive == f.isActive.value;
    var pOwnerPlan := (k: ApiKeyRecord) => pOwner(k) && pPlan(k);
    var owner := if f.ownerId.Some? then OwnerIs(f.ownerId.value) else OwnerIs(0);
    Sequences.FilterWhen(rows, f.ownerId.Some?, owner, pOwner);
    var byOwner := Sequences.Filter(rows, pOwner);
    var plan := if f.plan.Some? then PlanIs(f.plan.value) else PlanIs(0);
    Sequences.FilterWhen(byOwner, f.plan.Some?, plan, pPlan);
    Sequences.FilterFilter(rows, pOwner, pPlan, pOwnerPlan);
    var byPlan := Sequences.Filter(rows, pOwnerPlan);
    var active := if f.isActive.Some? then ActiveIs(f.isActive.value) else ActiveIs(false);
    Sequences.FilterWhen(byPlan, f.isActive.Some?, active, pActive);
    Sequences.FilterFilter(rows, pOwnerPlan, pActive, AdmittedBy(f));
  }

  /** A filter every element passes changes nothing. */
  lemma {:induction false} FilterAll<T>(s: seq<T>, p: T -> bool)
    ensures (forall x | x in s :: p(x)) ==> Sequences.Filter(s, p) == s
  {
    if |s| > 0 {
      FilterAll(s[1..], p);
    }
  }

  /** OrderByDescending(x => x.CreatedAt). */
  function NewestFirst(rows: seq<ApiKeyRecord>): seq<ApiKeyRecord> {
    Sequences.SortBy(rows, Age)
  }

  /** The sort key that puts later CreatedAt values first. */
  const Age: ApiKeyRecord -> int := (k: ApiKeyRecord) => -k.createdAt

  /** GetAllAsync: filter, newest first, then the requested page. */
  function GetAll(rows: seq<ApiKeyRecord>, page: int, pageSize: int, f: KeyFilter): seq<ApiKeyRecord> {
    Paging.Page(NewestFirst(Filtered(rows, f)), page, pageSize)
  }

  /** GetCountAsync: the same filters, no paging. */
  function GetCount(rows: seq<ApiKeyRecord>, f: KeyFilter): (n: nat)
    ensures n <= |rows|
    ensures n == |rows| <==> forall k | k in rows :: Admits(f, k)
  {
    FilteredIsOneFilter(rows, f);
    FilterAll(rows, AdmittedBy(f));
    FilterShorter(rows, AdmittedBy(f));
    |Filtered(rows, f)|
  }

  /** A filter that rejects some element shortens the sequence. */
  lemma {:induction false} FilterShorter<T>(s: seq<T>, p: T -> bool)
    ensures (exists x | x in s :: !p(x)) ==> |Sequences.Filter(s, p)| < |s|
  {
    if |s| > 0 {
      FilterShorter(s[1..], p);
      assert s == [s[0]] + s[1..];
    }
  }

  /** Every listed key passes every supplied filter and is in the table. */
  lemma GetAllSound(rows: seq<ApiKeyRecord>, page: int, pageSize: int, f: KeyFilter)
    ensures |GetAll(rows, page, pageSize, f)| <= Max(0, pageSize)
    ensures forall k | k in GetAll(rows, page, pageSize, f) :: k in rows && Admits(f, k)
  {
    FilteredIsOneFilter(rows, f);
    var sorted := NewestFirst(Filtered(rows, f));
    forall k | k in GetAll(rows, page, pageSize, f) ensures k in rows && Admits(f, k) {
      Paging.PageElementsFromSource(sorted, page, pageSize, k);
      assert k in multiset(sorted);
    }
  }

  /** A page lists keys newest first. */
  lemma GetAllNewestFirst(rows: seq<ApiKeyRecord>, page: int, pageSize: int, f: KeyFilter)
    requires page >= 1 && pageSize >= 1
    ensures var r := GetAll(rows, page, pageSize, f);
      forall i, j | 0 <= i < j < |r| :: r[i].createdAt >= r[j].createdAt
  {
    var sorted := NewestFirst(Filtered(rows, f));
    Paging.PageKeepsOrder(sorted, page, pageSize, Age);
    var r := Paging.Page(sorted, page, pageSize);
    forall i, j | 0 <= i < j < |r| ensures r[i].createdAt >= r[j].createdAt {
      assert Age(r[i]) <= Age(r[j]);
    }
  }

  /** Reading page after page up to the count's last page lists every
      admitted key exactly as often as the table holds it, and nothing else. */
  lemma AllPagesListEveryMatch(rows: seq<ApiKeyRecord>, pageSize: int, f: KeyFilter)
    requires pageSize >= 1
    ensures var sorted := NewestFirst(Filtered(rows, f));
      && |sorted| == GetCount(rows, f)
      && multiset(Paging.Pages(sorted, Paging.TotalPages(GetCount(rows, f), pageSize).value, pageSize))
         == multiset(Sequences.Filter(rows, AdmittedBy(f)))
  {
    var filtered := Filtered(rows, f);
    var sorted := NewestFirst(filtered);
    assert multiset(sorted) == multiset(filtered);
    FilteredIsOneFilter(rows, f);
    Paging.AllPagesCoverSource(sorted, pageSize);
  }

  class ApiKeyRepository {
    /** The keys this context tracks, in the order they were loaded or added. */
    var keys: seq<ApiKey>
    /** The ApiKeys table as of the last SaveChanges. */
    var saved: seq<ApiKeyRecord>

    /** Each tracked key is one object, and every key keeps its invariant. */
    ghost predicate Valid()
      reads this, keys
    {
      && (forall i, j | 0 <= i < j < |keys| :: keys[i] != keys[j])
      && (forall i | 0 <= i < |keys| :: keys[i].Valid())
    }

    function Rows(): seq<ApiKeyRecord>
      reads this, keys
    {
      Snapshots(keys)
    }

    constructor ()
      ensures keys == [] && saved == []
      ensures Valid()
    {
      keys := [];
      saved := [];
    }

    /** GetByKeyHashAsync: the first tracked key with the hash, if any. */
    method GetByKeyHashAsync(keyHash: string) returns (r: Option<ApiKey>)
      ensures r.None? <==> forall i | 0 <= i < |keys| :: keys[i].keyHash != keyHash
      ensures r.Some? ==> exists i | 0 <= i < |keys| :: r.value == keys[i] && r.value.keyHash == keyHash
                            && forall j | 0 <= j < i :: keys[j].keyHash != keyHash
    {
      var found := KeyService.FirstWithHash(Rows(), keyHash);
      r := if found.Some? then Some(keys[found.value]) else None;
    }

    /** GetByIdAsync: the first tracked key with the id, if any. */
    method GetByIdAsync(id: Guid) returns (r: Option<ApiKey>)
      ensures var found := FirstWithId(Rows(), id);
              r == if found.Some? then Some(keys[found.value]) else None
      ensures r.None? <==> forall i | 0 <= i < |keys| :: keys[i].id != id
      ensures r.Some? ==> r.value in keys && r.value.id == id
    {
      var found := FirstWithId(Rows(), id);
      r := if found.Some? then Some(keys[found.value]) else None;
    }

    method GetAllAsync(page: int, pageSize: int, f: KeyFilter) returns (r: seq<ApiKeyRecord>)
      ensures r == GetAll(saved, page, pageSize, f)
    {
      r := Paging.Page(NewestFirst(Filtered(saved, f)), page, pageSize);
    }

    method GetCountAsync(f: KeyFilter) returns (n: nat)
      ensures n == GetCount(saved, f)
    {
      n := |Filtered(saved, f)|;
    }

    /** AddAsync: the context starts tracking the new key; the table is
        unchanged until SaveChanges. */
    method AddAsync(apiKey: ApiKey)
      requires Valid() && apiKey.Valid() && apiKey !in keys
      modifies this
      ensures Valid()
      ensures keys == old(keys) + [apiKey] && saved == old(saved)
      ensures Rows() == old(Rows()) + [apiKey.Snapshot()]
    {
      keys := keys + [apiKey];
    }

    /** SaveChangesAsync: the table becomes the tracked keys' current values. */
    method SaveChangesAsync()
      modifies this
      ensures keys == old(keys) && saved == Rows()
      ensures Rows() == old(Rows()) && (old(Valid()) ==> Valid())
    {
      saved := Rows();
    }
  }
}
