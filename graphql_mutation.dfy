/** The shape every GraphQL mutation returns (graphql/src/mutation/mod.rs):
    either the affected record or the input errors found, plus the log of
    database statements a mutation issues, which the mutation modules use to
    say what runs before what. */
module Mutation {
  import opened Common
  import Providers

  /** `UserError`: the path of the offending input field and a message.
      `UserError::new` is this constructor; the message's `to_string` is the
      identity on text. */
  datatype UserError = UserError(field: seq<string>, message: string)

  /** The struct the `results!` macro generates: the record, when the mutation
      produced one, and the input errors. */
  datatype MutationResult<T> = MutationResult(value: Option<T>, userErrors: seq<UserError>)

  /** `From<T>`. */
  function FromValue<T>(v: T): MutationResult<T> {
    MutationResult(Some(v), [])
  }

  /** `From<UserError>`. */
  function FromError<T>(e: UserError): MutationResult<T> {
    MutationResult(None, [e])
  }

  /** `From<Vec<UserError>>`. */
  function FromErrors<T>(es: seq<UserError>): MutationResult<T> {
    MutationResult(None, es)
  }

  /** The three conversions: a record comes with no errors; errors, one or
      many, come with no record and are kept as given. */
  lemma Conversions<T>(v: T, e: UserError, es: seq<UserError>)
    ensures FromValue(v).value == Some(v) && FromValue(v).userErrors == []
    ensures FromError<T>(e).value.None? && FromError<T>(e).userErrors == [e]
    ensures FromErrors<T>(es).value.None? && FromErrors<T>(es).userErrors == es
    ensures FromError<T>(e) == FromErrors<T>([e])
  {
  }

  /** A database statement a mutation issues. Writes made through a record's
      partial-update builder are described by the record's new state instead. */
  datatype Query =
    | OrganizationExists(organizationId: I32)
    | UserExists(userId: I32)
    | InsertEvent(slug: string, name: string, organizationId: I32)
    | LoadEvent(slug: string)
    | InsertProvider(slug: string, name: string, icon: string, config: Providers.ProviderConfiguration)
    | LoadProvider(slug: string)
    | UpdateProvider(slug: string, overrideEnabled: Option<bool>, overrideName: Option<string>,
                     overrideIcon: Option<string>, overrideConfig: Option<Providers.ProviderConfiguration>)
    | InsertOrganization(name: string, ownerId: I32)
    | LoadOrganization(id: I32)
    | LoadUser(id: I32)
    | IdentitiesOf(userId: I32)
    | Unlink(provider: string, userId: I32)

  /** The message every emptiness check reports. */
  const CannotBeEmpty := "cannot be empty"

  function Empty(field: string): UserError {
    UserError([field], CannotBeEmpty)
  }

  /** The error a check pushes when it fails: one error or none. */
  function Check(failed: bool, e: UserError): (pushed: seq<UserError>)
    ensures failed ==> pushed == [e]
    ensures !failed ==> pushed == []
  {
    if failed then [e] else []
  }
}
