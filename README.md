# Secret-store setup provisioner

This project models the secret-store provisioner of the compute setup, `SecretStores` in
`pkg/commands/compute/setup/secret_store.go`. Deploying a compute service with a `[setup]` block
in its manifest hands the declared secret stores to this provisioner. It has three operations:

- `Predefined` says whether any store is declared.
- `Configure` resolves each declared entry to a secret and builds the private `required` list of
  stores to create. It prompts the operator only in interactive mode (neither accept-defaults nor
  non-interactive). It rejects a blank value and stops on a prompt read error.
- `Create` walks `required` in order. For each store it creates the store, then each entry
  against the store ID the API returned, then the link between the store and the service version.
  It announces every call with a progress step and stops at the first refused call, reporting one
  failure. Nothing already created is undone.

Layout:

- `common.dfy` (module `Common`): `Option`, `Drop`.
- `effects.dfy` (module `Effects`): the progress notices, the remote calls, and the `Journal` that
  records both, interleaved, in the order they happen.
- `manifest.dfy` (module `Manifest`): the declared stores and entries of the manifest.
- `text.dfy` (module `Text`): the prompt reader `Stdin` (a queue of prompt outcomes) and the progress
  sink `Progress`, which appends each step and failure to its journal.
- `api.dfy` (module `Api`): the API client `Client`. It answers each call with the next reply of a
  script and appends the call to its journal.
- `secret_store.dfy` (module `Setup`):
  - The class `SecretStores`, with the source's fields.
  - `Configure` and `Create` as methods with loops.
  - The pure functions `ConfigureRun` and `CreateRun`, which the methods are proved against.
- `configure_properties.dfy` (module `ConfigureProperties`): what a run of `Configure` completes,
  where it stops and why.
- `create_properties.dfy` (module `CreateProperties`): the reference script `Plan` of the calls
  `Create` makes when every call succeeds, and the proof that `Create` runs along that script and
  stops at the first refusal.

The `Setup` field is a Go map from store name to declared store, and each store's items are a map
from key to declared item. Both are modelled as sequences in one iteration order. Every property
below is stated for an arbitrary sequence, so it holds whatever order the map yields.

The progress sink and the API client report into one shared ghost `Journal`. `Create` states the
journal's new contents: the old contents followed by the record `CreateRun` gives, so the order
between each progress step and the call it announces is part of what is proved. The projections
`CallsIn` and `NoticesIn` of that record are the calls the client received and the notices the
operator saw.

## Model

| member | source | states |
|---|---|---|
| ConfigureProperties.PredefinedMeansWork | pkg/commands/compute/setup/secret_store.go:51-53 | `Predefined` (which reads only `setup`) is true exactly when Configure either completes a store or fails; with no store declared, Configure succeeds, completes nothing and reads no prompt |
| Setup.SecretStores.Configure | pkg/commands/compute/setup/secret_store.go:56-106 | the error is the run's error; `required` becomes its old value followed by the stores completed (never cleared); the prompt input is consumed up to the last entry looked at in interactive mode, and not at all otherwise |
| Setup.SecretStores.ResolveEntries | pkg/commands/compute/setup/secret_store.go:71-100 | the inner loop over one store's entries yields the outcome, the resolved entries and the next answer position of `ResolveItems`, and consumes exactly the prompts it read |
| Setup.Rejection | pkg/commands/compute/setup/secret_store.go:86-94 | an unreadable prompt gives a prompt-input error carrying the read error's cause, and a blank line gives the blank-value error |
| ConfigureProperties.ResolveItemsKept | pkg/commands/compute/setup/secret_store.go:92-99 | the entries kept for a store are a prefix of its declared entries, each under its declared key with its answer as secret |
| ConfigureProperties.ResolveItemsEnds | pkg/commands/compute/setup/secret_store.go:77-100 | every kept answer was accepted; either every entry resolved, or the run stopped right after the first rejected answer, with the error that answer calls for |
| ConfigureProperties.ConfigureStores | pkg/commands/compute/setup/secret_store.go:57-103 | the completed stores are the first declared stores, in order, each with its name and every entry resolved from its own answer |
| ConfigureProperties.ConfigureEnds | pkg/commands/compute/setup/secret_store.go:57-105 | on success every store is completed and every answer was accepted; on failure the failing answer lies in the first store not completed, all answers before it were accepted, and the error is that answer's |
| ConfigureProperties.ConfigureOutcome | pkg/commands/compute/setup/secret_store.go:56-106 | both of the above for one run: which stores it completes, where it stops and why |
| ConfigureProperties.ConfigureSucceedsIff | pkg/commands/compute/setup/secret_store.go:86-94 | Configure succeeds if and only if every declared entry gets a readable, non-blank answer |
| ConfigureProperties.NonInteractiveStaysBlank | pkg/commands/compute/setup/secret_store.go:72-94 | outside interactive mode Configure succeeds if and only if no store declares an entry; its only error is the blank value; every store it completes has no entries |
| ConfigureProperties.InteractiveKeepsAnswers | pkg/commands/compute/setup/secret_store.go:85-99 | in interactive mode each completed store keeps all its entries, and each entry holds, under its key, the non-blank line typed for it, verbatim |
| ConfigureProperties.CompletedAccepted | pkg/commands/compute/setup/secret_store.go:92-102 | every answer used by a completed store was accepted |
| ConfigureProperties.TokensNonInteractive | pkg/commands/compute/setup/secret_store.go:77-94 | outside interactive mode a store with one entry fails with the blank-value error, completes no store and reads no prompt |
| ConfigureProperties.TokensTyped | pkg/commands/compute/setup/secret_store.go:85-102 | interactively, the typed line `abc123` becomes the secret of `api-key` and the store is completed |
| ConfigureProperties.TokensUnreadable | pkg/commands/compute/setup/secret_store.go:85-89 | interactively, an unreadable prompt fails the run with that read error and completes no store |
| Setup.SecretStores.Create | pkg/commands/compute/setup/secret_store.go:109-158 | without a progress sink: the bug error, and the client and journal unchanged; otherwise the error and the replies consumed are those of `CreateRun`, and the journal gains exactly `CreateRun`'s record of steps, calls and failure, in that order |
| Setup.SecretStores.CreateStore | pkg/commands/compute/setup/secret_store.go:117-155 | one pass of the outer loop: the journal gains the steps, calls and failure of the store, its entries and its link, as `CreateOne` gives them |
| Setup.SecretStores.CreateSecrets | pkg/commands/compute/setup/secret_store.go:128-140 | the inner loop: the journal gains the entries' steps and calls, against the given store ID, as `CreateEntries` gives them |
| Setup.SecretStores.StepAndCall | pkg/commands/compute/setup/secret_store.go:129-135 | the journal gains one progress step and then the call it announces; the call receives the next scripted reply |
| Setup.SecretStores.ReportFailure | pkg/commands/compute/setup/secret_store.go:136-139 | the journal gains one failure notice and no call |
| CreateProperties.FailureOf | pkg/commands/compute/setup/secret_store.go:123-154 | a refused store creation, entry creation or link gives the store, entry or link error, the link error naming the service and the returned store name |
| CreateProperties.CreateEntriesRuns | pkg/commands/compute/setup/secret_store.go:128-140 | the entry loop follows the entries' script and stops at the first refusal |
| CreateProperties.CreateOneRuns | pkg/commands/compute/setup/secret_store.go:117-155 | one store follows its script (store, entries, link) and stops at the first refusal |
| CreateProperties.CreateFollowsPlan | pkg/commands/compute/setup/secret_store.go:109-158 | Create's record is a prefix of the plan: the whole plan with every reply granted, or up to the first refused call, then one failure and that call's error; nothing after it is issued |
| CreateProperties.CreateSucceedsIff | pkg/commands/compute/setup/secret_store.go:117-157 | Create succeeds if and only if the API grants every one of the plan's calls, one per store, one per entry and one per link |
| CreateProperties.StorePlanOrder | pkg/commands/compute/setup/secret_store.go:118-150 | a store's script alternates a progress step with the call it announces, and its calls are exactly: create the store; then each entry in order, against the returned store ID, with its name and secret; then the link of the returned store name and ID to the service ID and version |
| CreateProperties.PlanAlternates | pkg/commands/compute/setup/secret_store.go:117-155 | in the plan every call is announced by a progress step just before it |
| CreateProperties.CreateCallsAndSteps | pkg/commands/compute/setup/secret_store.go:117-155 | Create issues one call per reply it consumes; its notices are one step per call, with no failure among them, followed by exactly one failure notice if and only if it returns an error |
| CreateProperties.OneEntryScenario | pkg/commands/compute/setup/secret_store.go:117-157 | one store with one entry, every call granted: exactly three calls, in order, using the returned store ID |
| CreateProperties.FirstStoreRefused | pkg/commands/compute/setup/secret_store.go:118-126 | a refused first store creation: the store error, that single call, one step and one failure |
| Text.Stdin.InputSecure | pkg/commands/compute/setup/secret_store.go:86 | reading the prompt consumes the next pending outcome; with none left it is a read error |
| Api.Client.CreateSecretStore | pkg/commands/compute/setup/secret_store.go:120-122 | the call is appended to the journal and receives the next scripted reply |
| Api.Client.CreateSecret | pkg/commands/compute/setup/secret_store.go:131-135 | the call is appended to the journal and receives the next scripted reply |
| Api.Client.CreateResource | pkg/commands/compute/setup/secret_store.go:145-150 | the call is appended to the journal and receives the next scripted reply |

## Left out

- Terminal output in `Configure` (`text.Break`, `text.Output`, `text.BoldYellow`, the descriptions) and the `Stdout` field: output only, with no effect on the state modelled.
- Masking of the secret prompt: `text.InputSecure` is modelled only as returning a line or an error.
- Error texts and wrapping (`fmt.Errorf` with `%w`, `RemediationError` with `BugRemediation`): errors are distinguished by kind (`SetupError`), carrying the remote cause and, for a link, the service ID and store name.
- Setup.SecretStores.Create: requires that the progress sink and the API client share one journal. The journal is ghost instrumentation that records the order of their effects; the source has no such object, and any caller can meet the requirement.
- The real API client, the go-fastly input structs and the network: `Api.Client` replays a script of replies. A script that runs out gives a refusal.
- A prompt input that runs out gives a read error (`EndOfInput`).
- The conversion of the secret to `[]byte` for the entry call: the secret is kept as a string.
- Go map iteration order: `Setup` and each store's items are a sequence in one fixed order. Uniqueness of names and keys is not assumed, because no property needs it.
- `Predefined` is a one-expression function without a contract of its own. Its row names the lemma that states what it means for `Configure`.
- `Configure` and `Create` are split into helper methods (`ResolveEntries`, `CreateStore`, `CreateSecrets`, `StepAndCall`, `ReportFailure`), one per nested loop or repeated step. The order of effects is the source's.
- Any orchestrator that drives several provisioners in turn is not part of this model.
- `pkg/commands/configstore/delete.go` and `pkg/commands/secretstore/getstore.go` are not part of this model: they are thin command wrappers around one remote call.
- An entry has no configured literal value: its value starts empty and only the prompt sets it, as in the code.
