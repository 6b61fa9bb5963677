/** The link between a user and an authentication provider
    (database/src/identity.rs). Only the row is modelled; its queries are
    parameters of the mutations that run them. */
module Identities {
  import opened Common

  datatype Identity = Identity(
    provider: string,
    userId: I32,
    remoteId: string,
    email: string,
    createdAt: int,
    updatedAt: int)

  /** Some identity in the list carries the email. */
  predicate Linked(identities: seq<Identity>, email: string) {
    exists i :: 0 <= i < |identities| && identities[i].email == email
  }
}
