/** The identity mutation (graphql/src/mutation/identity.rs): unlinking a
    provider from a user, refused when it would leave the user without any. */
module IdentityMutation {
  import opened Common
  import Database
  import opened Identities
  import opened Mutation

  datatype UnlinkIdentityInput = UnlinkIdentityInput(userId: I32, provider: string)

  const LastIdentity := UserError(["provider"], "must have one identity linked")

  /** `unlink_identity`. `identities` answers `Identity::for_user` and
      `unlinkOutcome` is the failure of `Identity::unlink`, if any. Only a user
      with exactly one identity is refused; with none the unlink still runs. */
  method UnlinkIdentity(input: UnlinkIdentityInput,
                        identities: Result<seq<Identity>, Database.Error>,
                        unlinkOutcome: Option<Database.Error>)
    returns (r: Result<MutationResult<string>, Database.Error>, queries: seq<Query>)
    ensures identities.Err? ==> r == Err(identities.error) && queries == [IdentitiesOf(input.userId)]
    ensures identities.Ok? && |identities.value| == 1 ==>
      r == Ok(FromError(LastIdentity)) && queries == [IdentitiesOf(input.userId)]
    ensures identities.Ok? && |identities.value| != 1 ==> (
      queries == [IdentitiesOf(input.userId), Unlink(input.provider, input.userId)] &&
      r == if unlinkOutcome.Some? then Err(unlinkOutcome.value) else Ok(FromValue(input.provider)))
    ensures Unlink(input.provider, input.userId) in queries <==> identities.Ok? && |identities.value| != 1
  {
    queries := [IdentitiesOf(input.userId)];
    if identities.Err? {
      return Err(identities.error), queries;
    }
    if |identities.value| == 1 {
      return Ok(FromError(LastIdentity)), queries;
    }

    queries := queries + [Unlink(input.provider, input.userId)];
    if unlinkOutcome.Some? {
      return Err(unlinkOutcome.value), queries;
    }
    r := Ok(FromValue(input.provider));
  }
}
