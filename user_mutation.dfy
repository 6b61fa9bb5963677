/** The user mutation (graphql/src/mutation/user.rs). Each database answer is
    a parameter and the statements issued are returned in order; the user is
    updated in place through its builder. */
module UserMutation {
  import opened Common
  import Database
  import Users
  import opened Identities
  import opened Mutation

  datatype UpdateUserInput = UpdateUserInput(
    id: I32,
    givenName: Option<string>,
    familyName: Option<string>,
    primaryEmail: Option<string>,
    isAdmin: Option<bool>)

  const NoSuchUser := UserError(["id"], "user does not exist")
  const EmailNotLinked := UserError(["primary_email"], "primary email must be linked to an identity")

  /** The input errors `update_user` reports, in the order it checks. */
  function UpdateErrors(input: UpdateUserInput): seq<UserError> {
    Check(input.givenName == Some(""), Empty("given_name"))
    + Check(input.familyName == Some(""), Empty("family_name"))
  }

  /** The names are checked only when given, and both errors accumulate. */
  lemma UpdateChecks(input: UpdateUserInput)
    ensures var errors := UpdateErrors(input);
      && (Empty("given_name") in errors <==> input.givenName == Some(""))
      && (Empty("family_name") in errors <==> input.familyName == Some(""))
      && (errors == [] <==> input.givenName != Some("") && input.familyName != Some(""))
  {
  }

  /** The changes `update_user` hands to the builder: all four overrides. */
  function UpdateChanges(input: UpdateUserInput): Users.Pending {
    Users.Pending(input.givenName, input.familyName, input.primaryEmail, input.isAdmin)
  }

  /** `update_user`. `loaded` answers the user loader, `identities` answers
      `Identity::for_user` and `saveOutcome` is the failure of the UPDATE
      statement, if any. A new primary email must be the email of one of the
      user's identities. */
  method UpdateUser(input: UpdateUserInput,
                    loaded: Result<Option<Users.User>, Database.Error>,
                    identities: Result<seq<Identity>, Database.Error>,
                    saveOutcome: Option<Database.Error>)
    returns (r: Result<MutationResult<Users.UserRow>, Database.Error>, queries: seq<Query>)
    modifies if loaded.Ok? && loaded.value.Some? then {loaded.value.value} else {}
    ensures UpdateErrors(input) != [] ==> r == Ok(FromErrors(UpdateErrors(input))) && queries == []
    ensures UpdateErrors(input) != [] && loaded.Ok? && loaded.value.Some? ==>
      loaded.value.value.Row() == old(loaded.value.value.Row())
    ensures UpdateErrors(input) == [] ==> |queries| >= 1 && queries[0] == LoadUser(input.id)
    ensures UpdateErrors(input) == [] && loaded.Err? ==> r == Err(loaded.error) && |queries| == 1
    ensures UpdateErrors(input) == [] && loaded == Ok(None) ==>
      r == Ok(FromError(NoSuchUser)) && |queries| == 1
    ensures UpdateErrors(input) == [] && loaded.Ok? && loaded.value.Some? ==> (
      var user := loaded.value.value;
      queries == [LoadUser(input.id), IdentitiesOf(old(user.id))] &&
      if identities.Err? then
        r == Err(identities.error) && user.Row() == old(user.Row())
      else if input.primaryEmail.Some? && !Linked(identities.value, input.primaryEmail.value) then
        r == Ok(FromError(EmailNotLinked)) && user.Row() == old(user.Row())
      else if !Users.NothingToWrite(UpdateChanges(input)) && saveOutcome.Some? then
        r == Err(saveOutcome.value) && user.Row() == old(user.Row())
      else
        user.Row() == Users.Applied(old(user.Row()), UpdateChanges(input)) &&
        r == Ok(FromValue(user.Row())))
  {
    var userErrors: seq<UserError> := [];
    if input.givenName.Some? && input.givenName.value == [] {
      userErrors := userErrors + [Empty("given_name")];
    }
    if input.familyName.Some? && input.familyName.value == [] {
      userErrors := userErrors + [Empty("family_name")];
    }
    assert userErrors == UpdateErrors(input);
    if userErrors != [] {
      return Ok(FromErrors(userErrors)), [];
    }

    queries := [LoadUser(input.id)];
    if loaded.Err? {
      return Err(loaded.error), queries;
    }
    if loaded.value.None? {
      return Ok(FromError(NoSuchUser)), queries;
    }
    var user := loaded.value.value;

    queries := queries + [IdentitiesOf(user.id)];
    if identities.Err? {
      return Err(identities.error), queries;
    }
    if input.primaryEmail.Some? && !Linked(identities.value, input.primaryEmail.value) {
      return Ok(FromError(EmailNotLinked)), queries;
    }

    var updater := new Users.UserUpdater(user);
    updater.OverrideGivenName(input.givenName);
    updater.OverrideFamilyName(input.familyName);
    updater.OverridePrimaryEmail(input.primaryEmail);
    updater.OverrideIsAdmin(input.isAdmin);
    var saved := updater.Save(saveOutcome);
    if saved.Err? {
      return Err(saved.error), queries;
    }
    r := Ok(FromValue(user.Row()));
  }
}
