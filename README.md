# Snapshot and reconcile for the bitbank contract deployments

This project models the two Hardhat tasks that guard the ExchangeDeposit and
ProxyFactory deployments of the four bitbank environments (production,
staging, yokohama, dev):

- `bitbank` builds a **snapshot**. For every environment of the address
  table it deploys a fresh ExchangeDeposit and ProxyFactory with that
  environment's constructor arguments and checks four configuration getters
  for exact equality, stopping at the first difference. It then reads back
  the bytecode of both fresh instances and the deposit contract's storage
  slots 0 and 1. It records two entries under the **canonical** addresses:
  the deposit entry first, then the factory entry.
- `bitbankVerify` **reconciles** a snapshot with a live network. For every
  environment of the fixed list it selects that environment's entries. It
  stops unless they are exactly two, one of each role. It then re-reads
  bytecode and the two slots at the **recorded** addresses, and reports
  every value that differs without stopping.

The chain is abstracted as a read-only state: bytecode per address and one
word per (address, slot). Deployment is abstracted as a pair of functions
from constructor arguments to the values the fresh instance's getters
report, together with its deployed address. Both tasks also return the
sequence of JSON-RPC reads they issue, so that the block tag, addresses and
order of the reads can be stated.

Modules:

| module | file | models |
|---|---|---|
| `Wrappers` | wrappers.dfy | Option / Result / Outcome |
| `Registry` | registry.dfy | `tasks/sharedTypes.ts`: environments, roles, `Code` record, both constant tables, `blockTag` |
| `Rpc` | rpc.dfy | the chain state and the two reads `eth_getCode` and `eth_getStorageAt` |
| `Builder` | builder.dfy | `tasks/bitbank.ts`: `assertVariable` and the build loop, as a method proved against the function `Build` |
| `Verifier` | verifier.dfy | `tasks/bitbankVerify.ts`: `logAssert`, the selection and integrity check (`Select`, `Find`, `Locate`), and the verify loop, as a method proved against the function `Verify` |
| `Reconcile` | reconcile.dfy | the two tasks together: a built snapshot verified against live state |

The verify task computes no aggregated mismatch flag; it only writes log
lines. The model exposes the list of reports, and "any mismatch" is that
list being non-empty (`Verifier.VerifyReportsAll`,
`Reconcile.VerifyAfterBuild`). Likewise, `hardhat.config.ts` imports only
the build task. This model treats the verify task as a peer of the build
task all the same, because both task files define their logic
independently of that registration.

## Model

| member | source | states |
|---|---|---|
| Registry.EnvironmentsExact | tasks/sharedTypes.ts:1-2 | the environment list is exactly production, staging, yokohama, dev, in that order and without duplicates; it covers every environment; the four labels are pairwise distinct |
| Registry.ContractsExact | tasks/sharedTypes.ts:4 | every role is named ExchangeDeposit or ProxyFactory, and the two names differ |
| Registry.ContractAddressesTotal | tasks/sharedTypes.ts:14-33 | the address table has an entry for every environment |
| Registry.CanonicalAddressesWellFormed | tasks/sharedTypes.ts:17-32 | both canonical addresses of every table entry have the 42-character length of a written address |
| Registry.ConstructorArgsOf | tasks/sharedTypes.ts:35-57 | no contract of its own: the `constructorArgs` table, the cold and admin address of each environment; stated by `ConstructorArgsTotal` |
| Registry.ConstructorArgsTotal | tasks/sharedTypes.ts:35-57 | every environment has a cold address and an admin address, each 42 characters long |
| Registry.ContractAddressesFollowEnvironments | tasks/sharedTypes.ts:1-33 | the address table's keys are the environment list, in the same order and without repeats, so the builder and the verifier visit environments in the same order |
| Registry.CanonicalAddressesDistinct | tasks/sharedTypes.ts:18-31 | the eight canonical addresses are pairwise distinct over environment and role |
| Rpc.Send | tasks/bitbankVerify.ts:26-45 | no contract of its own: the chain's answer to a read, the code at the address or the word at the address and slot; the block tag names the one chain state modelled |
| Builder.AssertVariable | tasks/bitbank.ts:8-13 | passes exactly when the fetched value equals the expected string; otherwise fails with an error carrying both values |
| Builder.Deploy | tasks/bitbank.ts:27-32 | no contract of its own: the deposit contract is deployed from the environment's cold and admin addresses and its canonical deposit address, the factory from the canonical deposit address (never from the fresh instance's address); `CheckDeployment` compares the getters against exactly these |
| Builder.CheckDeployment | tasks/bitbank.ts:35-38 | passes exactly when cold address, admin address, self address and factory main address equal the configured values; otherwise fails with the first of the four mismatches, in source order |
| Builder.CaptureRequests | tasks/bitbank.ts:45-68 | no contract of its own: the four reads of one environment, in source order; stated by `CaptureReadsFresh` |
| Builder.CaptureReadsFresh | tasks/bitbank.ts:45-68 | one environment makes four reads, all at block "latest" and at the fresh instances, and reads storage only of the fresh deposit contract |
| Builder.Capture | tasks/bitbank.ts:41-70 | no contract of its own: the two entries pushed for one environment; stated by `CaptureRecordsFresh` |
| Builder.CaptureRecordsFresh | tasks/bitbank.ts:41-70 | the deposit entry then the factory entry, each under the environment and its canonical address, holding the code read at the fresh instance; the deposit entry holds slots 0x0 and 0x1 under keys 0x00 and 0x01, the factory entry no storage |
| Builder.Build | tasks/bitbank.ts:20-71 | no contract of its own: the loop as a function over the table, stopping at the first failed check; its properties are the `Build*` and `Snapshot*` lemmas, and `BuildSnapshot` is proved equal to it |
| Builder.BuildSnapshot | tasks/bitbank.ts:20-71 | the loop's outcome and reads equal `Build` over the table: deploy, the four checks with an early exit before any read of that environment, then the reads and the two entries appended to the snapshot |
| Builder.BuildStopsAtFailure | tasks/bitbank.ts:35-38 | once the run over a prefix of the table has failed, the run over the whole table is that failure, so no partial snapshot is produced |
| Builder.BuildSucceedsIff | tasks/bitbank.ts:22-38 | the build succeeds exactly when every environment's fresh deployment reports its configured values |
| Builder.BuildFailsAtFirstMismatch | tasks/bitbank.ts:22-38 | a build whose first misconfigured environment is k fails with that environment's first mismatch, after exactly the reads of the environments before k |
| Builder.SnapshotShape | tasks/bitbank.ts:41-70 | a built snapshot holds exactly two entries per environment, in table order, deposit first; each entry is recorded under the canonical address, with code and slots read at the freshly deployed instance; the deposit entry holds exactly keys 0x00 and 0x01, read from slots 0x0 and 0x1, and the factory entry holds no slot |
| Builder.SnapshotRequests | tasks/bitbank.ts:45-68 | a successful build makes exactly four reads per environment, in table order: deposit code, deposit slots 0x0 and 0x1, factory code, all at the fresh instances and at block "latest" |
| Builder.BuildReadsLatest | tasks/bitbank.ts:45-68 | every read of any build, failed or not, is made at block tag "latest" |
| Builder.BuildIgnoresDeployedAddresses | tasks/bitbank.ts:44-68 | deployed addresses are never compared: two deployers whose instances report the same configuration give the same verdict and, on success, the same roles, environments, recorded addresses and storage keys |
| Builder.SnapshotFollowsEnvironments | tasks/bitbank.ts:22-70 | for a table keyed by the environment list, the snapshot has 8 entries, and entries 2i and 2i+1 are the ExchangeDeposit and ProxyFactory of environment i |
| Builder.RegistrySnapshot | tasks/bitbank.ts:22-70 | with the registry's own address table, a built snapshot has 8 entries; entries 2i and 2i+1 are the deposit and factory entries of the i-th listed environment, recorded under that environment's canonical addresses |
| Verifier.Truncate | tasks/bitbankVerify.ts:10 | the result is the longest prefix of the value with at most 66 characters |
| Verifier.LogAssert | tasks/bitbankVerify.ts:8-12 | one report exactly when the live value differs from the recorded one, carrying environment, role and both values truncated to 66 characters; never stops |
| Verifier.Select | tasks/bitbankVerify.ts:19 | the selection is no longer than the snapshot; what it keeps is stated by `SelectMembers` and `SelectCounts` |
| Verifier.SelectMembers | tasks/bitbankVerify.ts:19 | the selection holds exactly the snapshot entries of the environment, so entries of every other environment are ignored |
| Verifier.SelectCounts | tasks/bitbankVerify.ts:19 | the selection keeps every entry of the environment as many times as the snapshot holds it, duplicates included, and no entry of any other environment |
| Verifier.Find | tasks/bitbankVerify.ts:20-21 | a found entry is an entry of the list and has the role looked for |
| Verifier.FindFirst | tasks/bitbankVerify.ts:20-21 | a found entry is the first one with that role: every earlier entry has another role |
| Verifier.FindNone | tasks/bitbankVerify.ts:20-21 | the role lookup finds nothing exactly when no selected entry has that role |
| Verifier.Locate | tasks/bitbankVerify.ts:19-25 | no contract of its own: the integrity check, giving the deposit and factory entries or nothing; stated by `LocateIff`, `LocateFacts`, `LocateExactlyOne` and `LocateOccursOnce` |
| Verifier.LocateIff | tasks/bitbankVerify.ts:19-25 | the integrity check passes exactly when the selection has length 2 and contains an entry of each role |
| Verifier.LocateFacts | tasks/bitbankVerify.ts:19-25 | located entries are snapshot entries of the environment, with the deposit and factory roles |
| Verifier.LocateExactlyOne | tasks/bitbankVerify.ts:19-25 | passing the integrity check means the selection is exactly the located deposit and factory entries, one of each, in either order |
| Verifier.LocateOccursOnce | tasks/bitbankVerify.ts:19-25 | passing the integrity check means each located entry occurs exactly once in the snapshot and every snapshot entry of the environment is one of the two, so a duplicated entry fails the check |
| Verifier.VerifyRequests | tasks/bitbankVerify.ts:26-45 | one environment makes four reads, all at block "latest" and at the recorded deposit or factory address, and reads storage only at the deposit address |
| Verifier.CheckEnvironment | tasks/bitbankVerify.ts:26-47 | each of the four positions (deposit code, factory code, deposit slots 0x0 and 0x1) whose live value differs from the recorded one has its own report, with environment, role and both truncated values; the number of reports is the number of differing positions; every report is one of these; no report exactly when all four match; a factory report appears exactly when the factory's live code differs, so factory storage is never compared |
| Verifier.CompareEnvironment | tasks/bitbankVerify.ts:26-47 | the reads and comparisons of the loop body are those of `CheckEnvironment` |
| Verifier.Probe | tasks/bitbankVerify.ts:19-47 | one environment's step exists exactly when the environment passes the integrity check |
| Verifier.ProbeAll | tasks/bitbankVerify.ts:18-47 | holds one step per listed environment, in list order |
| Verifier.Run | tasks/bitbankVerify.ts:18-48 | no contract of its own: the loop over the steps, stopping at the first environment without one; stated by the `Run*` lemmas |
| Verifier.Verify | tasks/bitbankVerify.ts:18-48 | no contract of its own: the loop over the snapshot's environments; stated by the `Verify*` lemmas, and `VerifySnapshot` is proved equal to it |
| Verifier.VerifySnapshot | tasks/bitbankVerify.ts:17-48 | the loop's abort, reports and reads equal `Verify` over the fixed environment list |
| Verifier.RunStopsAtAbort | tasks/bitbankVerify.ts:23-25 | once the run over a prefix of the list has stopped, the whole run is that prefix's |
| Verifier.RunExtends | tasks/bitbankVerify.ts:18-47 | a run that has not stopped, extended by one environment, either stops on that environment or appends its reports and reads |
| Verifier.RunCompletesIff | tasks/bitbankVerify.ts:18-25 | the run stops at no environment exactly when every environment passes the integrity check |
| Verifier.RunAbortsAtFirst | tasks/bitbankVerify.ts:18-26 | a run whose first failing environment is k stops there, with the reports and reads of the completed run over the environments before k |
| Verifier.RunCollectsFromSteps | tasks/bitbankVerify.ts:18-47 | every report and every read of a run comes from the step of a listed environment that passed the integrity check |
| Verifier.RunKeepsAllReports | tasks/bitbankVerify.ts:34-47 | a completed run keeps every report of every environment, and has none exactly when no environment has any |
| Verifier.RunReadsInOrder | tasks/bitbankVerify.ts:26-45 | a completed run issues four reads per environment, environment by environment in list order |
| Verifier.ProbeFound | tasks/bitbankVerify.ts:19-47 | an environment that passes the integrity check takes the comparison step of its two located entries |
| Verifier.VerifyCompletesIff | tasks/bitbankVerify.ts:18-25 | verification stops at no environment exactly when every listed environment passes the integrity check |
| Verifier.VerifyAbortsAtFirstIncomplete | tasks/bitbankVerify.ts:18-26 | verification stopping at environment k has fully read (four reads each) and compared every earlier environment, and makes no read for k or later |
| Verifier.VerifyReads | tasks/bitbankVerify.ts:26-45 | a completed verification reads, per environment in list order, the code at the recorded deposit and factory addresses, then deposit slots 0x0 and 0x1, all at block "latest" |
| Verifier.ProbeReadsRecorded | tasks/bitbankVerify.ts:26-45 | the reads of one environment are at block "latest" and at addresses the snapshot records for the role read |
| Verifier.VerifyReadsRecordedAddresses | tasks/bitbankVerify.ts:26-45 | every read of any verification is at block "latest" and at an address the snapshot records for the role read; storage is read only at deposit addresses and only slots 0x0 and 0x1; the registry tables play no part |
| Verifier.ProbeReports | tasks/bitbankVerify.ts:34-47 | one environment reports nothing exactly when its live state matches its entries, and reports only under its own name |
| Verifier.VerifyReportsAll | tasks/bitbankVerify.ts:34-47 | every report names a listed environment; in a completed verification every environment whose live state differs is reported, and there are no reports exactly when live state matches at every compared position |
| Verifier.ProbeMismatches | tasks/bitbankVerify.ts:34-47 | one environment's step reports each of its differing positions, and every report it makes is one of them |
| Verifier.VerifyReportsEachMismatch | tasks/bitbankVerify.ts:18-48 | every report is the mismatch of one listed environment at one compared position; in a completed verification, every differing position of every environment has its report, whatever else differs there or elsewhere |
| Reconcile.BuiltSnapshotWellFormed | tasks/bitbank.ts:49-62 | every deposit entry of a built snapshot holds both slots the verifier compares |
| Reconcile.BuiltSnapshotPaired | tasks/bitbank.ts:41-70 | entries 2i and 2i+1 of a built snapshot are the deposit and factory entries of the table's environment i |
| Reconcile.SelectPairedPrefix | tasks/bitbankVerify.ts:19 | selecting an environment from a prefix of a paired snapshot with distinct keys gives the part of that environment's pair within the prefix |
| Reconcile.LocatePaired | tasks/bitbankVerify.ts:19-25 | in a paired snapshot with distinct keys, every environment passes the integrity check and locates exactly its own pair |
| Reconcile.CapturedPairMatchesLive | tasks/bitbankVerify.ts:34-47 | a captured pair matches live state exactly when the live contracts at the canonical addresses hold what the fresh instances held |
| Reconcile.BuiltEntryMatchesLive | tasks/bitbankVerify.ts:19-47 | each environment of a built snapshot passes the integrity check, and it matches live state exactly when the live chain mirrors its captured instances |
| Reconcile.BuiltAllMatchLive | tasks/bitbankVerify.ts:19-47 | the same, for every environment of the table at once |
| Reconcile.VerifyAllLocated | tasks/bitbankVerify.ts:18-47 | a verification over environments that all pass the integrity check completes, reports nothing exactly when each matches live state, and reports every environment that does not |
| Reconcile.VerifyAfterBuild | tasks/bitbankVerify.ts:18-48 | verifying a built snapshot over its table's environments never stops early, and reports nothing exactly when the live chain is unchanged at every canonical address |
| Reconcile.DriftIsReported | tasks/bitbankVerify.ts:34-47 | verifying a built snapshot reports, under its own name, every environment whose live contracts drifted from the captured instances |
| Reconcile.RegistryRoundTrip | tasks/bitbank.ts:22-71 | with the registry's own address table: a built snapshot passes the verifier's integrity check for all four environments, and the verifier reports nothing exactly when no contract at a canonical address drifted |

## Left out

- Hardhat task registration, CLI parameters and compiler settings (`hardhat.config.ts`, the `task(...)` headers): wiring, not logic.
- Writing and parsing the snapshot file (`writeFileSync`/`JSON.stringify`, `readFileSync`/`JSON.parse`): the snapshot is a sequence of typed `Code` records handed from one task to the other; there is no JSON encoder.
- The JSON-RPC transport and contract compilation: reads are the total functions of `Rpc.Chain`, and deployment is the pair of total functions of `Builder.Deployer`. These are deterministic, and a deployment's effect on the chain is not modelled. The builder reads a given chain state (the state after the deployments); the verifier reads another (the live network).
- async/await and the un-awaited `logAssert` calls: everything is sequential. Reports and reads are kept as two separate sequences, so their interleaving is not modelled.
- Console message text beyond the 66-character truncation: a report is the record (environment, role, truncated expected, truncated actual).
- Environments and roles are closed datatypes, so a snapshot entry naming an unknown environment cannot be written. The property that such entries are ignored is stated as `Verifier.SelectMembers`: the selection for one environment ignores entries of every other.
- Verifier.VerifySnapshot: requires every deposit entry of the snapshot to hold the storage keys 0x00 and 0x01 (`Verifier.WellFormed`). The code demands no such thing; a file lacking them is malformed and outside this model. `Reconcile.BuiltSnapshotWellFormed` shows every built snapshot meets it.
- Builder.BuildSnapshot: takes the address table as a parameter instead of reading the constant `contractAddresses`. The results are stated for any table; `Builder.RegistrySnapshot` and `Reconcile.RegistryRoundTrip` instantiate them with the registry's own table.
- Verifier.Truncate: counts characters as Unicode scalar values, while JavaScript's `slice(0, 66)` counts UTF-16 code units. The two agree on the ASCII hexadecimal strings a snapshot and the chain hold and differ only on text outside the Basic Multilingual Plane.
- Registry.CanonicalAddressesWellFormed: states only the 42-character length of each address, not that its characters are "0x" and hexadecimal digits.
- Registry.ConstructorArgsTotal: states only the 42-character length of each argument, not its hexadecimal form.
- The storage encoding of the cold address and of the minimum input (how a 20-byte address or a number becomes a 32-byte slot word): the abstract chain hands back the words as strings.
