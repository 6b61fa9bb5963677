/** Organizations and their partial-update builder (database/src/organization.rs).
    The logo and website are optional columns, so a pending change to either is
    itself optional: `Some(None)` clears the column. The outcome of the UPDATE
    statement is a parameter. */
module Organizations {
  import opened Common
  import Database

  datatype OrganizationRow = OrganizationRow(
    id: I32,
    name: string,
    logo: Option<string>,
    website: Option<string>,
    ownerId: I32,
    createdAt: int,
    updatedAt: int)

  class Organization {
    var id: I32
    var name: string
    var logo: Option<string>
    var website: Option<string>
    var ownerId: I32
    var createdAt: int
    var updatedAt: int

    /** An organization as read from the database. */
    constructor(row: OrganizationRow)
      ensures Row() == row
    {
      id, name, logo, website, ownerId := row.id, row.name, row.logo, row.website, row.ownerId;
      createdAt, updatedAt := row.createdAt, row.updatedAt;
    }

    function Row(): OrganizationRow
      reads this
    {
      OrganizationRow(id, name, logo, website, ownerId, createdAt, updatedAt)
    }
  }

  datatype Pending = Pending(
    name: Option<string>,
    logo: Option<Option<string>>,
    website: Option<Option<string>>,
    ownerId: Option<I32>)

  const NoChanges: Pending := Pending(None, None, None, None)

  predicate NothingToWrite(p: Pending) {
    p.name.None? && p.logo.None? && p.website.None? && p.ownerId.None?
  }

  /** The row after a successful write: each pending field replaces its column,
      a pending `None` logo or website clearing it; the id and the timestamps
      never change. */
  function Applied(row: OrganizationRow, p: Pending): (r: OrganizationRow)
    ensures r.id == row.id && r.createdAt == row.createdAt && r.updatedAt == row.updatedAt
    ensures NothingToWrite(p) ==> r == row
    ensures p.name.Some? ==> r.name == p.name.value
    ensures p.name.None? ==> r.name == row.name
    ensures p.logo == Some(None) ==> r.logo == None
    ensures p.logo.Some? && p.logo.value.Some? ==> r.logo == p.logo.value
    ensures p.logo.None? ==> r.logo == row.logo
    ensures p.website == Some(None) ==> r.website == None
    ensures p.website.Some? && p.website.value.Some? ==> r.website == p.website.value
    ensures p.website.None? ==> r.website == row.website
    ensures p.ownerId.Some? ==> r.ownerId == p.ownerId.value
    ensures p.ownerId.None? ==> r.ownerId == row.ownerId
  {
    row.(name := Override(p.name, row.name),
         logo := Override(p.logo, row.logo),
         website := Override(p.website, row.website),
         ownerId := Override(p.ownerId, row.ownerId))
  }

  /** Writing the same changes twice is writing them once. */
  lemma AppliedIdempotent(row: OrganizationRow, p: Pending)
    ensures Applied(Applied(row, p), p) == Applied(row, p)
  {
  }

  class OrganizationUpdater {
    const organization: Organization
    var name: Option<string>
    var logo: Option<Option<string>>
    var website: Option<Option<string>>
    var ownerId: Option<I32>

    /** `Organization::update`: an updater with nothing pending. */
    constructor(organization: Organization)
      ensures this.organization == organization && Changes() == NoChanges
    {
      this.organization := organization;
      name, logo, website, ownerId := None, None, None, None;
    }

    function Changes(): Pending
      reads this
    {
      Pending(name, logo, website, ownerId)
    }

    method Name(v: string)
      modifies this
      ensures Changes() == old(Changes()).(name := Some(v))
    {
      name := Some(v);
    }

    method OverrideName(o: Option<string>)
      modifies this
      ensures Changes() == old(Changes()).(name := o)
    {
      name := o;
    }

    method Logo(v: Option<string>)
      modifies this
      ensures Changes() == old(Changes()).(logo := Some(v))
    {
      logo := Some(v);
    }

    method OverrideLogo(o: Option<Option<string>>)
      modifies this
      ensures Changes() == old(Changes()).(logo := o)
    {
      logo := o;
    }

    method Website(v: Option<string>)
      modifies this
      ensures Changes() == old(Changes()).(website := Some(v))
    {
      website := Some(v);
    }

    method OverrideWebsite(o: Option<Option<string>>)
      modifies this
      ensures Changes() == old(Changes()).(website := o)
    {
      website := o;
    }

    method Owner(id: I32)
      modifies this
      ensures Changes() == old(Changes()).(ownerId := Some(id))
    {
      ownerId := Some(id);
    }

    method OverrideOwner(o: Option<I32>)
      modifies this
      ensures Changes() == old(Changes()).(ownerId := o)
    {
      ownerId := o;
    }

    /** `OrganizationUpdater::save`: nothing pending is no write; a failed UPDATE
        leaves the organization as it was; a successful one applies the changes. */
    method Save(outcome: Option<Database.Error>) returns (r: Result<(), Database.Error>)
      modifies organization
      ensures NothingToWrite(Changes()) ==> r == Ok(()) && organization.Row() == old(organization.Row())
      ensures !NothingToWrite(Changes()) && outcome.Some? ==>
        r == Err(outcome.value) && organization.Row() == old(organization.Row())
      ensures !NothingToWrite(Changes()) && outcome.None? ==>
        r == Ok(()) && organization.Row() == Applied(old(organization.Row()), Changes())
    {
      if name.None? && logo.None? && website.None? && ownerId.None? {
        return Ok(());
      }
      if outcome.Some? {
        return Err(outcome.value);
      }
      if name.Some? {
        organization.name := name.value;
      }
      if logo.Some? {
        organization.logo := logo.value;
      }
      if website.Some? {
        organization.website := website.value;
      }
      if ownerId.Some? {
        organization.ownerId := ownerId.value;
      }
      r := Ok(());
    }
  }
}
