/** Authentication providers as the database stores them (database/src/provider.rs). */
module Providers {

  /** The kind of a provider and its client credentials. The stored record
      keeps this as text; the handlers and the client read it as one of three
      kinds, which is what is modelled. */
  datatype ProviderConfiguration =
    | Google(clientId: string, clientSecret: string)
    | GitHub(clientId: string, clientSecret: string)
    | Discord(clientId: string, clientSecret: string)

  /** A provider row. */
  datatype Provider = Provider(slug: string, enabled: bool, name: string, icon: string,
                               config: ProviderConfiguration)
}
