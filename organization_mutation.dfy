/** The organization mutations (graphql/src/mutation/organization.rs). Each
    database answer is a parameter and the statements issued are returned in
    order; the organization itself is updated in place through its builder. */
module OrganizationMutation {
  import opened Common
  import Database
  import Organizations
  import opened Validators
  import opened Mutation

  /** GraphQL's three-way optional input: left out, given as null, or given a
      value. */
  datatype MaybeUndefined<T> = Undefined | Null | Value(value: T)

  /** `MaybeUndefined` into the builder's "change to" form: left out is no
      change, null clears the field, a value sets it. */
  function Into<T>(m: MaybeUndefined<T>): Option<Option<T>> {
    match m
    case Undefined => None
    case Null => Some(None)
    case Value(v) => Some(Some(v))
  }

  datatype CreateOrganizationInput = CreateOrganizationInput(name: string, ownerId: I32)

  datatype UpdateOrganizationInput = UpdateOrganizationInput(
    id: I32,
    name: Option<string>,
    logo: MaybeUndefined<string>,
    website: MaybeUndefined<string>)

  datatype TransferOwnershipInput = TransferOwnershipInput(id: I32, newOwnerId: I32)

  const NoSuchOwner := UserError(["owner_id"], "owner does not exist")
  const LogoNotUrl := UserError(["logo"], "must be a URL")
  const WebsiteNotUrl := UserError(["website"], "must be a URL")
  const NoSuchOrganization := UserError(["id"], "organization does not exist")
  const NoSuchNewOwner := UserError(["new_owner_id"], "new owner does not exist")

  /** `create_organization`. `ownerExists` answers `User::exists` and `created`
      answers `Organization::create`; a failed insert is an error, with no
      unique-violation case. */
  method CreateOrganization(input: CreateOrganizationInput,
                            ownerExists: Result<bool, Database.Error>,
                            created: Result<Organizations.OrganizationRow, Database.Error>)
    returns (r: Result<MutationResult<Organizations.OrganizationRow>, Database.Error>, queries: seq<Query>)
    ensures input.name == [] ==> r == Ok(FromError(Empty("name"))) && queries == []
    ensures input.name != [] && ownerExists.Err? ==>
      r == Err(ownerExists.error) && queries == [UserExists(input.ownerId)]
    ensures input.name != [] && ownerExists == Ok(false) ==>
      r == Ok(FromError(NoSuchOwner)) && queries == [UserExists(input.ownerId)]
    ensures input.name != [] && ownerExists == Ok(true) ==> (
      queries == [UserExists(input.ownerId), InsertOrganization(input.name, input.ownerId)] &&
      r == match created
           case Ok(organization) => Ok(FromValue(organization))
           case Err(e) => Err(e))
  {
    if input.name == [] {
      return Ok(FromError(Empty("name"))), [];
    }

    queries := [UserExists(input.ownerId)];
    if ownerExists.Err? {
      return Err(ownerExists.error), queries;
    }
    if !ownerExists.value {
      return Ok(FromError(NoSuchOwner)), queries;
    }

    queries := queries + [InsertOrganization(input.name, input.ownerId)];
    if created.Err? {
      return Err(created.error), queries;
    }
    r := Ok(FromValue(created.value));
  }

  /** The input errors `update_organization` reports, in the order it checks. */
  function UpdateErrors(input: UpdateOrganizationInput, parse: UrlParser): seq<UserError> {
    Check(input.name == Some(""), Empty("name"))
    + Check(input.logo == Value(""), Empty("logo"))
    + Check(input.logo.Value? && !Url(input.logo.value, parse), LogoNotUrl)
    + Check(input.website == Value(""), Empty("website"))
    + Check(input.website.Value? && !Url(input.website.value, parse), WebsiteNotUrl)
  }

  /** `update_organization` checks the logo and the website only when given a
      value (not when left out or null); the name only when given. */
  lemma UpdateChecks(input: UpdateOrganizationInput, parse: UrlParser)
    ensures var errors := UpdateErrors(input, parse);
      && (Empty("name") in errors <==> input.name == Some(""))
      && (Empty("logo") in errors <==> input.logo == Value(""))
      && (LogoNotUrl in errors <==> input.logo.Value? && !Url(input.logo.value, parse))
      && (Empty("website") in errors <==> input.website == Value(""))
      && (WebsiteNotUrl in errors <==> input.website.Value? && !Url(input.website.value, parse))
      && (input.name.None? && !input.logo.Value? && !input.website.Value? ==> errors == [])
  {
    // The five errors are distinct: by field, then by message.
    assert "name"[0] != "logo"[0] && "name"[0] != "website"[0] && "logo"[0] != "website"[0];
    assert CannotBeEmpty[0] != LogoNotUrl.message[0];
    assert Empty("name") != Empty("logo") && Empty("name") != LogoNotUrl;
    assert Empty("name") != Empty("website") && Empty("name") != WebsiteNotUrl;
    assert Empty("logo") != LogoNotUrl && Empty("logo") != Empty("website") && Empty("logo") != WebsiteNotUrl;
    assert LogoNotUrl != Empty("website") && LogoNotUrl != WebsiteNotUrl;
    assert Empty("website") != WebsiteNotUrl;
  }

  /** An empty logo is reported twice, as empty and as not a URL, since the
      empty text does not parse. */
  lemma EmptyLogoReportedTwice(input: UpdateOrganizationInput, parse: UrlParser)
    requires input.logo == Value("") && parse("").None?
    ensures Empty("logo") in UpdateErrors(input, parse)
    ensures LogoNotUrl in UpdateErrors(input, parse)
  {
    UpdateChecks(input, parse);
  }

  /** The changes `update_organization` hands to the builder. */
  function UpdateChanges(input: UpdateOrganizationInput): Organizations.Pending {
    Organizations.NoChanges.(name := input.name, logo := Into(input.logo), website := Into(input.website))
  }

  /** The checks `update_organization` runs before touching the database,
      each pushing its error when it fails. */
  method CheckUpdate(input: UpdateOrganizationInput, parse: UrlParser) returns (userErrors: seq<UserError>)
    ensures userErrors == UpdateErrors(input, parse)
  {
    userErrors := [];
    if input.name.Some? && input.name.value == [] {
      userErrors := userErrors + [Empty("name")];
    }
    if input.logo.Value? {
      if input.logo.value == [] {
        userErrors := userErrors + [Empty("logo")];
      }
      if !Url(input.logo.value, parse) {
        userErrors := userErrors + [LogoNotUrl];
      }
    }
    assert userErrors == Check(input.name == Some(""), Empty("name"))
      + Check(input.logo == Value(""), Empty("logo"))
      + Check(input.logo.Value? && !Url(input.logo.value, parse), LogoNotUrl);
    if input.website.Value? {
      if input.website.value == [] {
        userErrors := userErrors + [Empty("website")];
      }
      if !Url(input.website.value, parse) {
        userErrors := userErrors + [WebsiteNotUrl];
      }
    }
  }

  /** `update_organization`. `loaded` answers the organization loader;
      `saveOutcome` is the failure of the UPDATE statement, if any. */
  method UpdateOrganization(input: UpdateOrganizationInput, parse: UrlParser,
                            loaded: Result<Option<Organizations.Organization>, Database.Error>,
                            saveOutcome: Option<Database.Error>)
    returns (r: Result<MutationResult<Organizations.OrganizationRow>, Database.Error>, queries: seq<Query>)
    modifies if loaded.Ok? && loaded.value.Some? then {loaded.value.value} else {}
    ensures UpdateErrors(input, parse) != [] ==>
      r == Ok(FromErrors(UpdateErrors(input, parse))) && queries == []
    ensures UpdateErrors(input, parse) != [] && loaded.Ok? && loaded.value.Some? ==>
      loaded.value.value.Row() == old(loaded.value.value.Row())
    ensures UpdateErrors(input, parse) == [] ==> queries == [LoadOrganization(input.id)]
    ensures UpdateErrors(input, parse) == [] && loaded.Err? ==> r == Err(loaded.error)
    ensures UpdateErrors(input, parse) == [] && loaded == Ok(None) ==> r == Ok(FromError(NoSuchOrganization))
    ensures UpdateErrors(input, parse) == [] && loaded.Ok? && loaded.value.Some? ==> (
      var organization := loaded.value.value;
      if !Organizations.NothingToWrite(UpdateChanges(input)) && saveOutcome.Some? then
        r == Err(saveOutcome.value) && organization.Row() == old(organization.Row())
      else
        organization.Row() == Organizations.Applied(old(organization.Row()), UpdateChanges(input)) &&
        r == Ok(FromValue(organization.Row())))
  {
    var userErrors := CheckUpdate(input, parse);
    if userErrors != [] {
      return Ok(FromErrors(userErrors)), [];
    }

    queries := [LoadOrganization(input.id)];
    if loaded.Err? {
      return Err(loaded.error), queries;
    }
    if loaded.value.None? {
      return Ok(FromError(NoSuchOrganization)), queries;
    }
    var organization := loaded.value.value;

    var updater := new Organizations.OrganizationUpdater(organization);
    updater.OverrideName(input.name);
    updater.OverrideLogo(Into(input.logo));
    updater.OverrideWebsite(Into(input.website));
    var saved := updater.Save(saveOutcome);
    if saved.Err? {
      return Err(saved.error), queries;
    }
    r := Ok(FromValue(organization.Row()));
  }

  /** `transfer_organization_ownership`: the new owner must exist, and is
      looked up before the organization is. */
  method TransferOwnership(input: TransferOwnershipInput,
                           ownerExists: Result<bool, Database.Error>,
                           loaded: Result<Option<Organizations.Organization>, Database.Error>,
                           saveOutcome: Option<Database.Error>)
    returns (r: Result<MutationResult<Organizations.OrganizationRow>, Database.Error>, queries: seq<Query>)
    modifies if loaded.Ok? && loaded.value.Some? then {loaded.value.value} else {}
    ensures |queries| >= 1 && queries[0] == UserExists(input.newOwnerId)
    ensures ownerExists.Err? ==> r == Err(ownerExists.error) && |queries| == 1
    ensures ownerExists == Ok(false) ==> r == Ok(FromError(NoSuchNewOwner)) && |queries| == 1
    ensures ownerExists == Ok(true) ==> queries == [UserExists(input.newOwnerId), LoadOrganization(input.id)]
    ensures ownerExists == Ok(true) && loaded.Err? ==> r == Err(loaded.error)
    ensures ownerExists == Ok(true) && loaded == Ok(None) ==> r == Ok(FromError(NoSuchOrganization))
    ensures ownerExists == Ok(true) && loaded.Ok? && loaded.value.Some? ==> (
      var organization := loaded.value.value;
      if saveOutcome.Some? then
        r == Err(saveOutcome.value) && organization.Row() == old(organization.Row())
      else
        organization.Row() == old(organization.Row()).(ownerId := input.newOwnerId) &&
        r == Ok(FromValue(organization.Row())))
    ensures ownerExists != Ok(true) && loaded.Ok? && loaded.value.Some? ==>
      loaded.value.value.Row() == old(loaded.value.value.Row())
  {
    queries := [UserExists(input.newOwnerId)];
    if ownerExists.Err? {
      return Err(ownerExists.error), queries;
    }
    if !ownerExists.value {
      return Ok(FromError(NoSuchNewOwner)), queries;
    }

    queries := queries + [LoadOrganization(input.id)];
    if loaded.Err? {
      return Err(loaded.error), queries;
    }
    if loaded.value.None? {
      return Ok(FromError(NoSuchOrganization)), queries;
    }
    var organization := loaded.value.value;

    var updater := new Organizations.OrganizationUpdater(organization);
    updater.Owner(input.newOwnerId);
    var saved := updater.Save(saveOutcome);
    if saved.Err? {
      return Err(saved.error), queries;
    }
    r := Ok(FromValue(organization.Row()));
  }
}
