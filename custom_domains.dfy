/** Custom domains and their partial-update builder
    (database/src/custom_domain.rs). A custom domain is keyed by the slug of the
    event it serves; only its name can be updated. The outcome of the UPDATE
    statement is a parameter. */
module CustomDomains {
  import opened Common
  import Database

  datatype CustomDomainRow = CustomDomainRow(event: string, name: string, createdAt: int, updatedAt: int)

  class CustomDomain {
    var event: string
    var name: string
    var createdAt: int
    var updatedAt: int

    /** A custom domain as read from the database. */
    constructor(row: CustomDomainRow)
      ensures Row() == row
    {
      event, name, createdAt, updatedAt := row.event, row.name, row.createdAt, row.updatedAt;
    }

    function Row(): CustomDomainRow
      reads this
    {
      CustomDomainRow(event, name, createdAt, updatedAt)
    }
  }

  /** The row after a successful write of a pending name; the event key and the
      timestamps never change. */
  function Applied(row: CustomDomainRow, pending: Option<string>): (r: CustomDomainRow)
    ensures r.event == row.event && r.createdAt == row.createdAt && r.updatedAt == row.updatedAt
    ensures pending.None? ==> r == row
    ensures pending.Some? ==> r.name == pending.value
  {
    row.(name := Override(pending, row.name))
  }

  class CustomDomainUpdater {
    const customDomain: CustomDomain
    var name: Option<string>

    /** `CustomDomain::update`: an updater with nothing pending. */
    constructor(customDomain: CustomDomain)
      ensures this.customDomain == customDomain && name == None
    {
      this.customDomain := customDomain;
      name := None;
    }

    method Name(v: string)
      modifies this
      ensures name == Some(v)
    {
      name := Some(v);
    }

    method OverrideName(o: Option<string>)
      modifies this
      ensures name == o
    {
      name := o;
    }

    /** `CustomDomainUpdater::save`: no pending name is no write; a failed UPDATE
        leaves the record as it was; a successful one renames it. */
    method Save(outcome: Option<Database.Error>) returns (r: Result<(), Database.Error>)
      modifies customDomain
      ensures name.None? ==> r == Ok(()) && customDomain.Row() == old(customDomain.Row())
      ensures name.Some? && outcome.Some? ==>
        r == Err(outcome.value) && customDomain.Row() == old(customDomain.Row())
      ensures name.Some? && outcome.None? ==>
        r == Ok(()) && customDomain.Row() == Applied(old(customDomain.Row()), name)
    {
      if name.None? {
        return Ok(());
      }
      if outcome.Some? {
        return Err(outcome.value);
      }
      customDomain.name := name.value;
      r := Ok(());
    }
  }
}
