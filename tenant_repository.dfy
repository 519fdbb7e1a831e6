/** The tenants table (infrastructure/repository/tenant.go) as an in-memory
    map from id to row, with the schema's constraints: id, name and slug are
    non-empty, id is the primary key and slug is unique. Tenants are never
    updated. */
module TenantRepository {
  import opened Common
  import opened Model
  import opened Table

  const CreateFailed := "failed to create tenant"
  const FindBySlugFailed := "failed to find tenant by slug"

  ghost predicate KeyedById(rows: map<string, Tenant>)
  {
    forall id :: id in rows ==> rows[id].id == id
  }

  ghost predicate UniqueSlugs(rows: map<string, Tenant>)
  {
    forall a, b :: a in rows && b in rows && a != b ==> rows[a].slug != rows[b].slug
  }

  /** WHERE slug = slug. */
  function SlugFilter(slug: string): Tenant -> bool
  {
    (t: Tenant) => t.slug == slug
  }

  /** What FindBySlug answers on the table. */
  ghost function SlugLookup(rows: map<string, Tenant>, slug: string): Result<Option<Tenant>>
  {
    Reported(OnlyOf(rows, SlugFilter(slug)), FindBySlugFailed)
  }

  /** Create sets ID, Name and Slug as given; the timestamps are defaulted. */
  function Created(t: Tenant, now: int): (row: Tenant)
    ensures row.id == t.id && row.name == t.name && row.slug == t.slug
    ensures row.createdAt == now && row.updatedAt == now
  {
    Tenant(t.id, t.name, t.slug, now, now)
  }

  predicate CanCreate(rows: map<string, Tenant>, t: Tenant)
  {
    && t.id != "" && t.name != "" && t.slug != ""
    && t.id !in rows
    && forall id :: id in rows ==> rows[id].slug != t.slug
  }

  class TenantRepository {
    var rows: map<string, Tenant>

    ghost predicate Valid()
      reads this
    {
      KeyedById(rows) && UniqueSlugs(rows)
    }

    constructor ()
      ensures Valid() && rows == map[]
    {
      rows := map[];
    }

    /** Create: a storage failure (an empty column, a taken id or slug) is
        reported as an error and nothing is stored. */
    method Create(t: Tenant, now: int) returns (r: Result<Tenant>)
      requires Valid()
      modifies this
      ensures Valid()
      ensures r.Ok? <==> CanCreate(old(rows), t)
      ensures r.Ok? ==> r.value == Created(t, now) && rows == old(rows)[t.id := r.value]
      ensures r.Err? ==> r.error == Storage(CreateFailed) && rows == old(rows)
    {
      if !CanCreate(rows, t) {
        return Err(Storage(CreateFailed));
      }
      var row := Created(t, now);
      rows := rows[t.id := row];
      r := Ok(row);
    }

    /** FindByID: the row with that id, or nil without an error. */
    function FindByID(id: string): (r: Option<Tenant>)
      reads this
      requires Valid()
      ensures r.Some? <==> id in rows
      ensures r.Some? ==> r.value == rows[id] && r.value.id == id
    {
      if id in rows then Some(rows[id]) else None
    }

    /** FindBySlug: the tenant with that slug or nil; since slugs are unique
        it never fails. */
    method FindBySlug(slug: string) returns (r: Result<Option<Tenant>>)
      requires Valid()
      ensures r == SlugLookup(rows, slug)
      ensures r.Ok?
      ensures r.value.Some? <==> exists id :: id in rows && rows[id].slug == slug
      ensures r.value.Some? ==> r.value.value.slug == slug && r.value.value.id in rows
    {
      var l := Only(rows, SlugFilter(slug));
      r := Reported(l, FindBySlugFailed);
    }
  }
}
