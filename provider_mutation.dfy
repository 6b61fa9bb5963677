/** The authentication-provider mutations (graphql/src/mutation/providers.rs).
    Input checks accumulate user errors before any database access; each
    database answer is a parameter and the statements issued are returned in
    order. database/src/provider.rs defines only the `Provider` record, not the
    `find` and update builder the mutations call: the update is modelled as one
    issued statement carrying exactly the input's overrides, issued even when
    none is given (whether that builder skips an empty update is not known),
    and a successful update as every given override replacing its field. */
module ProviderMutation {
  import opened Common
  import Database
  import opened Providers
  import opened Validators
  import opened Mutation

  datatype CreateProviderInput = CreateProviderInput(
    slug: string, name: string, icon: string, config: ProviderConfiguration)

  datatype UpdateProviderInput = UpdateProviderInput(
    slug: string,
    enabled: Option<bool>,
    name: Option<string>,
    icon: Option<string>,
    config: Option<ProviderConfiguration>)

  const SlugNotIdentifier := UserError(["slug"], "must be a valid identifier")
  const IconNotUrl := UserError(["icon"], "must be a URL")
  const SlugInUse := UserError(["slug"], "already in use")
  const NoSuchProvider := UserError(["slug"], "provider does not exist")

  /** The input errors `create_provider` reports, in the order it checks. */
  function CreateErrors(input: CreateProviderInput, parse: UrlParser): seq<UserError> {
    Check(input.slug == [], Empty("slug"))
    + Check(!Identifier(input.slug), SlugNotIdentifier)
    + Check(input.name == [], Empty("name"))
    + Check(input.icon == [], Empty("icon"))
    + Check(!Url(input.icon, parse), IconNotUrl)
  }

  /** Every failing check of `create_provider` contributes its error, whatever
      the others found: empty slug, slug not an identifier, empty name, empty
      icon, icon not a URL; nothing else is reported. */
  lemma CreateChecks(input: CreateProviderInput, parse: UrlParser)
    ensures var errors := CreateErrors(input, parse);
      && (Empty("slug") in errors <==> input.slug == [])
      && (SlugNotIdentifier in errors <==> !Identifier(input.slug))
      && (Empty("name") in errors <==> input.name == [])
      && (Empty("icon") in errors <==> input.icon == [])
      && (IconNotUrl in errors <==> !Url(input.icon, parse))
      && (forall e :: e in errors ==>
            e in [Empty("slug"), SlugNotIdentifier, Empty("name"), Empty("icon"), IconNotUrl])
  {
  }

  /** An empty slug is reported once, as empty: the empty string is an
      identifier. */
  lemma EmptySlugReportedOnce(input: CreateProviderInput, parse: UrlParser)
    requires input.slug == []
    ensures Empty("slug") in CreateErrors(input, parse)
    ensures SlugNotIdentifier !in CreateErrors(input, parse)
  {
    CreateChecks(input, parse);
  }

  /** `create_provider`. `created` answers `Provider::create`. */
  method CreateProvider(input: CreateProviderInput, parse: UrlParser,
                        created: Result<Provider, Database.Error>)
    returns (r: Result<MutationResult<Provider>, Database.Error>, queries: seq<Query>)
    ensures CreateErrors(input, parse) != [] ==>
      r == Ok(FromErrors(CreateErrors(input, parse))) && queries == []
    ensures CreateErrors(input, parse) == [] ==> (
      queries == [InsertProvider(input.slug, input.name, input.icon, input.config)] &&
      r == match created
           case Ok(provider) => Ok(FromValue(provider))
           case Err(e) => if Database.IsUniqueViolation(e) then Ok(FromError(SlugInUse)) else Err(e))
  {
    var userErrors: seq<UserError> := [];
    if input.slug == [] {
      userErrors := userErrors + [Empty("slug")];
    }
    if !Identifier(input.slug) {
      userErrors := userErrors + [SlugNotIdentifier];
    }
    if input.name == [] {
      userErrors := userErrors + [Empty("name")];
    }
    if input.icon == [] {
      userErrors := userErrors + [Empty("icon")];
    }
    if !Url(input.icon, parse) {
      userErrors := userErrors + [IconNotUrl];
    }
    assert userErrors == CreateErrors(input, parse);
    if userErrors != [] {
      return Ok(FromErrors(userErrors)), [];
    }

    queries := [InsertProvider(input.slug, input.name, input.icon, input.config)];
    if created.Ok? {
      r := Ok(FromValue(created.value));
    } else if Database.IsUniqueViolation(created.error) {
      r := Ok(FromError(SlugInUse));
    } else {
      r := Err(created.error);
    }
  }

  /** The input errors `update_provider` reports, in the order it checks. */
  function UpdateErrors(input: UpdateProviderInput, parse: UrlParser): seq<UserError> {
    Check(input.name == Some(""), Empty("name"))
    + Check(input.icon == Some(""), Empty("icon"))
    + Check(input.icon.Some? && !Url(input.icon.value, parse), IconNotUrl)
  }

  /** `update_provider` checks the name and the icon only when they are given:
      an empty one is reported, and so is an icon that is not a URL. */
  lemma UpdateChecks(input: UpdateProviderInput, parse: UrlParser)
    ensures var errors := UpdateErrors(input, parse);
      && (Empty("name") in errors <==> input.name == Some(""))
      && (Empty("icon") in errors <==> input.icon == Some(""))
      && (IconNotUrl in errors <==> input.icon.Some? && !Url(input.icon.value, parse))
      && (input.name.None? && input.icon.None? ==> errors == [])
  {
  }

  /** The provider once every given override has replaced its field; the slug
      never changes. */
  function Overridden(p: Provider, input: UpdateProviderInput): (r: Provider)
    ensures r.slug == p.slug
    ensures input.enabled.None? && input.name.None? && input.icon.None? && input.config.None? ==> r == p
    ensures input.enabled.Some? ==> r.enabled == input.enabled.value
    ensures input.enabled.None? ==> r.enabled == p.enabled
    ensures input.name.Some? ==> r.name == input.name.value
    ensures input.name.None? ==> r.name == p.name
    ensures input.icon.Some? ==> r.icon == input.icon.value
    ensures input.icon.None? ==> r.icon == p.icon
    ensures input.config.Some? ==> r.config == input.config.value
    ensures input.config.None? ==> r.config == p.config
  {
    p.(enabled := Override(input.enabled, p.enabled),
       name := Override(input.name, p.name),
       icon := Override(input.icon, p.icon),
       config := Override(input.config, p.config))
  }

  /** `update_provider`. `found` answers `Provider::find`; `saveOutcome` is
      the failure of the update, if any. */
  method UpdateProvider(input: UpdateProviderInput, parse: UrlParser,
                        found: Result<Option<Provider>, Database.Error>,
                        saveOutcome: Option<Database.Error>)
    returns (r: Result<MutationResult<Provider>, Database.Error>, queries: seq<Query>)
    ensures UpdateErrors(input, parse) != [] ==>
      r == Ok(FromErrors(UpdateErrors(input, parse))) && queries == []
    ensures UpdateErrors(input, parse) == [] && found.Err? ==>
      r == Err(found.error) && queries == [LoadProvider(input.slug)]
    ensures UpdateErrors(input, parse) == [] && found == Ok(None) ==>
      r == Ok(FromError(NoSuchProvider)) && queries == [LoadProvider(input.slug)]
    ensures UpdateErrors(input, parse) == [] && found.Ok? && found.value.Some? ==> (
      queries == [LoadProvider(input.slug),
                  Query.UpdateProvider(input.slug, input.enabled, input.name, input.icon, input.config)] &&
      r == if saveOutcome.Some? then Err(saveOutcome.value)
           else Ok(FromValue(Overridden(found.value.value, input))))
  {
    var userErrors: seq<UserError> := [];
    if input.name.Some? && input.name.value == [] {
      userErrors := userErrors + [Empty("name")];
    }
    if input.icon.Some? {
      if input.icon.value == [] {
        userErrors := userErrors + [Empty("icon")];
      }
      if !Url(input.icon.value, parse) {
        userErrors := userErrors + [IconNotUrl];
      }
    }
    assert userErrors == UpdateErrors(input, parse);
    if userErrors != [] {
      return Ok(FromErrors(userErrors)), [];
    }

    queries := [LoadProvider(input.slug)];
    if found.Err? {
      return Err(found.error), queries;
    }
    if found.value.None? {
      return Ok(FromError(NoSuchProvider)), queries;
    }

    queries := queries + [Query.UpdateProvider(input.slug, input.enabled, input.name, input.icon, input.config)];
    if saveOutcome.Some? {
      return Err(saveOutcome.value), queries;
    }
    r := Ok(FromValue(Overridden(found.value.value, input)));
  }
}
