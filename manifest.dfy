// The `[setup.secret_stores]` block of the package manifest, as the
// provisioner reads it. The manifest's maps (store name -> store, entry key
// -> entry) are given here as sequences in the order they are iterated.
module Manifest {

  datatype SetupSecretStoreItem = SetupSecretStoreItem(key: string, description: string)

  datatype SetupSecretStore = SetupSecretStore(
    name: string,
    description: string,
    items: seq<SetupSecretStoreItem>)
}
