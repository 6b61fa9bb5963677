/** The event mutations (graphql/src/mutation/event.rs). Input checks push onto
    a list of user errors and the mutation stops before touching the database
    when any was found; each database answer is a parameter, and the statements
    actually issued are returned in order. `validators::dns_segment` is a
    parameter too. */
module EventMutation {
  import opened Common
  import Utf8
  import Database
  import Events
  import opened Mutation

  datatype CreateEventInput = CreateEventInput(slug: string, name: string, organizationId: I32)

  datatype UpdateEventInput = UpdateEventInput(slug: string, name: Option<string>)

  const SlugTooLong := UserError(["slug"], "must be less than 63 characters")
  const SlugNotDnsSegment := UserError(["slug"], "must be a valid dns segment")
  const NoSuchOrganization := UserError(["organization_id"], "organization does not exist")
  const SlugInUse := UserError(["slug"], "already in use")
  const NoSuchEvent := UserError(["slug"], "event does not exist")

  /** The input errors `create_event` reports, in the order it checks. */
  function CreateErrors(input: CreateEventInput, dnsSegment: string -> bool): seq<UserError> {
    Check(input.slug == [], Empty("slug"))
    + Check(Utf8.ByteLength(input.slug) > 63, SlugTooLong)
    + Check(!dnsSegment(input.slug), SlugNotDnsSegment)
    + Check(input.name == [], Empty("name"))
  }

  /** Every failing check of `create_event` contributes its error, whatever
      the others found: empty slug, slug over 63 bytes, slug not a DNS
      segment, empty name; nothing else is reported. */
  lemma CreateChecks(input: CreateEventInput, dnsSegment: string -> bool)
    ensures var errors := CreateErrors(input, dnsSegment);
      && (Empty("slug") in errors <==> input.slug == [])
      && (SlugTooLong in errors <==> Utf8.ByteLength(input.slug) > 63)
      && (SlugNotDnsSegment in errors <==> !dnsSegment(input.slug))
      && (Empty("name") in errors <==> input.name == [])
      && (forall e :: e in errors ==> e in [Empty("slug"), SlugTooLong, SlugNotDnsSegment, Empty("name")])
      && |errors| <= 4
  {
    CreateErrorsDistinct();
    var slugEmpty := Check(input.slug == [], Empty("slug"));
    var slugLong := Check(Utf8.ByteLength(input.slug) > 63, SlugTooLong);
    var slugDns := Check(!dnsSegment(input.slug), SlugNotDnsSegment);
    var nameEmpty := Check(input.name == [], Empty("name"));
    assert CreateErrors(input, dnsSegment) == slugEmpty + slugLong + slugDns + nameEmpty;
  }

  /** The four errors `create_event` can report are distinct. */
  lemma CreateErrorsDistinct()
    ensures Empty("slug") != SlugTooLong && Empty("slug") != SlugNotDnsSegment && Empty("slug") != Empty("name")
    ensures SlugTooLong != SlugNotDnsSegment && SlugTooLong != Empty("name") && SlugNotDnsSegment != Empty("name")
  {
    // By field, then by message.
    assert "slug"[0] != "name"[0];
    assert CannotBeEmpty[0] != SlugTooLong.message[0] && SlugTooLong.message[8] != SlugNotDnsSegment.message[8];
  }

  /** `create_event`. `organizationExists` answers `Organization::exists` and
      `created` answers `Event::create`. */
  method CreateEvent(input: CreateEventInput, dnsSegment: string -> bool,
                     organizationExists: Result<bool, Database.Error>,
                     created: Result<Events.EventRow, Database.Error>)
    returns (r: Result<MutationResult<Events.EventRow>, Database.Error>, queries: seq<Query>)
    ensures CreateErrors(input, dnsSegment) != [] ==>
      r == Ok(FromErrors(CreateErrors(input, dnsSegment))) && queries == []
    ensures CreateErrors(input, dnsSegment) == [] ==>
      |queries| >= 1 && queries[0] == OrganizationExists(input.organizationId)
    ensures CreateErrors(input, dnsSegment) == [] && organizationExists.Err? ==>
      r == Err(organizationExists.error) && |queries| == 1
    ensures CreateErrors(input, dnsSegment) == [] && organizationExists == Ok(false) ==>
      r == Ok(FromError(NoSuchOrganization)) && |queries| == 1
    ensures CreateErrors(input, dnsSegment) == [] && organizationExists == Ok(true) ==> (
      queries == [OrganizationExists(input.organizationId),
                  InsertEvent(input.slug, input.name, input.organizationId)] &&
      r == match created
           case Ok(event) => Ok(FromValue(event))
           case Err(e) => if Database.IsUniqueViolation(e) then Ok(FromError(SlugInUse)) else Err(e))
  {
    var userErrors: seq<UserError> := [];
    if input.slug == [] {
      userErrors := userErrors + [Empty("slug")];
    }
    if Utf8.ByteLength(input.slug) > 63 {
      userErrors := userErrors + [SlugTooLong];
    }
    if !dnsSegment(input.slug) {
      userErrors := userErrors + [SlugNotDnsSegment];
    }
    if input.name == [] {
      userErrors := userErrors + [Empty("name")];
    }
    assert userErrors == CreateErrors(input, dnsSegment);
    if userErrors != [] {
      return Ok(FromErrors(userErrors)), [];
    }

    queries := [OrganizationExists(input.organizationId)];
    if organizationExists.Err? {
      return Err(organizationExists.error), queries;
    }
    if !organizationExists.value {
      return Ok(FromError(NoSuchOrganization)), queries;
    }

    queries := queries + [InsertEvent(input.slug, input.name, input.organizationId)];
    if created.Ok? {
      r := Ok(FromValue(created.value));
    } else if Database.IsUniqueViolation(created.error) {
      r := Ok(FromError(SlugInUse));
    } else {
      r := Err(created.error);
    }
  }

  /** A slug of at most 63 ASCII characters passes the length check: `len`
      counts bytes, and ASCII text has one byte per character. */
  lemma AsciiSlugFits(input: CreateEventInput, dnsSegment: string -> bool)
    requires |input.slug| <= 63
    requires forall i :: 0 <= i < |input.slug| ==> Utf8.IsAscii(input.slug[i])
    ensures SlugTooLong !in CreateErrors(input, dnsSegment)
  {
    Utf8.EncodeAscii(input.slug);
    CreateChecks(input, dnsSegment);
  }

  /** `update_event`. `loaded` answers the event loader; `saveOutcome` is the
      failure of the UPDATE statement, if any. */
  method UpdateEvent(input: UpdateEventInput,
                     loaded: Result<Option<Events.Event>, Database.Error>,
                     saveOutcome: Option<Database.Error>)
    returns (r: Result<MutationResult<Events.EventRow>, Database.Error>, queries: seq<Query>)
    modifies if loaded.Ok? && loaded.value.Some? then {loaded.value.value} else {}
    ensures input.name == Some("") ==> r == Ok(FromError(Empty("name"))) && queries == []
    ensures input.name == Some("") && loaded.Ok? && loaded.value.Some? ==>
      loaded.value.value.Row() == old(loaded.value.value.Row())
    ensures input.name != Some("") ==> queries == [LoadEvent(input.slug)]
    ensures input.name != Some("") && loaded.Err? ==> r == Err(loaded.error)
    ensures input.name != Some("") && loaded == Ok(None) ==> r == Ok(FromError(NoSuchEvent))
    ensures input.name != Some("") && loaded.Ok? && loaded.value.Some? ==> (
      var event := loaded.value.value;
      if input.name.Some? && saveOutcome.Some? then
        r == Err(saveOutcome.value) && event.Row() == old(event.Row())
      else
        event.Row() == Events.Applied(old(event.Row()), Events.NoChanges.(name := input.name)) &&
        r == Ok(FromValue(event.Row())))
  {
    if input.name.Some? && input.name.value == [] {
      return Ok(FromError(Empty("name"))), [];
    }

    queries := [LoadEvent(input.slug)];
    if loaded.Err? {
      return Err(loaded.error), queries;
    }
    if loaded.value.None? {
      return Ok(FromError(NoSuchEvent)), queries;
    }
    var event := loaded.value.value;

    var updater := new Events.EventUpdater(event);
    updater.OverrideName(input.name);
    var saved := updater.Save(saveOutcome);
    if saved.Err? {
      return Err(saved.error), queries;
    }
    r := Ok(FromValue(event.Row()));
  }
}
