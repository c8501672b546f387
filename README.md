# Algo vaults on Soroban, with the backend execution engine

This project models the core of a Stellar/Soroban platform on which
creators publish trading algorithms and investors fund vaults that a backend
executes against. It has three layers:

- **The five Soroban contracts.**
  - `CreatorVault` is a per-creator vault with a paused flag and an optional backend executor.
  - `Vault` moves tokens and can log each spend to an `AlgoHistory`.
  - `AlgoRegistry` holds algorithm metadata under sequential ids.
  - `AlgoHistory` is an append-only log of execution records for each algorithm.
  - `CreatorVaultFactory` is a one-vault-per-creator registry.

  Each contract is a class. Its instance-storage keys are fields: a key that
  may be unset is an `Option`, and keyed entries are a `map`. Every
  entrypoint is a method that returns `Done`/`Ok` or the reason it panicked.
  A panic leaves all storage as it was, because Soroban rolls the
  transaction back.
- **The backend execution engine.** `BackendExecutionEngine` is a class.
  - Its strategy map is a sequence in insertion order with distinct algo ids.
  - Its interval timer is a flag.
  - The price and threshold readings and the clock come in through an
    `Env` value. A reading that throws is `None`.
- **The strategy-save conversion.** `convertFlowToExecutionFormat` turns
  flow-builder nodes into a `StrategyExecution`.
- **The hexadecimal step of `sha256Hex`.**

The JavaScript value semantics these rely on are modelled in module `Js`:
- `||`;
- `Number(v)`, for decimal literals;
- `String(v)`, for numbers in positional notation.

Numbers are exact decimals `Dec(digits, scale)` or `NaN`. The module proves
that `Number(String(n))` gives back the value of n.

Modules: `Soroban` (integer widths, `Option`, `Outcome`, `Result`),
`Token` (the token contract as the vault sees it), `CreatorVaultContract`,
`VaultContract`, `AlgoRegistryContract`, `AlgoHistoryContract`,
`CreatorVaultFactoryContract`, `Js`, `ExecutionEngine`, `SaveRoute`, `Hash`.

## Model

| member | source | states |
|---|---|---|
| CreatorVaultContract.CreatorVault.constructor | contracts/creator_vault/src/lib.rs:8-14 | a fresh vault has every storage key unset and satisfies the non-negative-balance invariant |
| CreatorVaultContract.CreatorVault.Initialize | contracts/creator_vault/src/lib.rs:22-33 | refuses a second initialization and then changes nothing; otherwise sets creator, token, a zero balance and an unpaused flag; no authorization is needed |
| CreatorVaultContract.CreatorVault.Deposit | contracts/creator_vault/src/lib.rs:36-63 | aborts on a non-positive amount, then on a paused vault, then on i128 overflow; otherwise the balance grows by exactly the amount; anyone may deposit; the balance stays non-negative |
| CreatorVaultContract.CreatorVault.Withdraw | contracts/creator_vault/src/lib.rs:66-100 | checks, in the source's order, a positive amount, a set creator, the creator's authorization and a sufficient balance; on success the balance drops by exactly the amount; the pause flag is not consulted |
| CreatorVaultContract.CreatorVault.Spender | contracts/creator_vault/src/lib.rs:125-138 | the backend executor when one is set, else the creator |
| CreatorVaultContract.CreatorVault.SpendForExecution | contracts/creator_vault/src/lib.rs:103-160 | checks a positive amount, then pause, then a set creator (even when an executor is set), then the spender's authorization, then the balance; on success the balance drops by exactly the amount |
| CreatorVaultContract.CreatorVault.SetBackendExecutor | contracts/creator_vault/src/lib.rs:163-174 | needs a set creator and its authorization; only the executor key changes |
| CreatorVaultContract.CreatorVault.SetPaused | contracts/creator_vault/src/lib.rs:177-186 | needs a set creator and its authorization; only the paused key changes |
| CreatorVaultContract.CreatorVault.GetVaultInfo | contracts/creator_vault/src/lib.rs:189-215 | fails when the creator, then when the token, is unset; otherwise gives creator, token, the balance (0 if unset) and the flag (false if unset) |
| CreatorVaultContract.CreatorVault.GetBackendExecutor | contracts/creator_vault/src/lib.rs:218-220 | the executor key, present exactly when set |
| CreatorVaultContract.PausedVaultScenario | contracts/creator_vault/src/lib.rs:42-48 | after pausing, deposit and spend abort with "paused", withdraw still succeeds, and the info shows the paused flag |
| CreatorVaultContract.ExecutorSpendScenario | contracts/creator_vault/src/lib.rs:133-138 | once an executor is set, the creator alone can no longer spend; the executor can, and the balance reaches 0 |
| Token.Ledger.Transfer | contracts/vault/src/lib.rs:96 | the token's transfer: refuses a negative amount, a missing authorization from `from`, an insufficient balance or an overflow; on success exactly `amount` moves from `from` to `to` and no other balance changes; balances stay non-negative |
| VaultContract.Vault.constructor | contracts/vault/src/lib.rs:5-12 | a fresh vault at a given address has owner, token, executor and history unset |
| VaultContract.Vault.Owner | contracts/vault/src/lib.rs:14-19 | the owner when set, else the "owner not set" failure |
| VaultContract.Vault.TokenAddress | contracts/vault/src/lib.rs:21-26 | the token when set, else the "token not set" failure |
| VaultContract.Vault.Executor | contracts/vault/src/lib.rs:60-62 | the optional executor key |
| VaultContract.Vault.History | contracts/vault/src/lib.rs:64-66 | the optional history key |
| VaultContract.Vault.Init | contracts/vault/src/lib.rs:41-50 | refuses a second init, needs the owner's authorization, then stores owner and token |
| VaultContract.Vault.OwnerCheck | contracts/vault/src/lib.rs:68-70 | succeeds exactly when the owner is set and has authorized; otherwise it fails with the reason |
| VaultContract.Vault.SetExecutor | contracts/vault/src/lib.rs:68-72 | owner-only; only the executor key changes |
| VaultContract.Vault.ClearExecutor | contracts/vault/src/lib.rs:74-78 | owner-only; the executor key becomes unset |
| VaultContract.Vault.SetHistory | contracts/vault/src/lib.rs:80-84 | owner-only; only the history key changes |
| VaultContract.Vault.TransferOwnership | contracts/vault/src/lib.rs:146-150 | owner-only; only the owner key changes |
| VaultContract.Vault.Balance | contracts/vault/src/lib.rs:113-117 | the token's balance of the vault's own address, or "token not set" |
| VaultContract.Vault.Deposit | contracts/vault/src/lib.rs:86-97 | checks a positive amount, then `from`'s authorization, then a set token; then the token transfer from `from` to the vault decides; on success only those two balances move, by exactly the amount |
| VaultContract.Vault.Withdraw | contracts/vault/src/lib.rs:99-111 | checks a positive amount, then the owner's check, then a set token; then the transfer from the vault to `to` decides; a failed call leaves the ledger as it was |
| VaultContract.Vault.SpendForAlgo | contracts/vault/src/lib.rs:119-144 | checks a positive amount, then a set executor, then its authorization, then a set token; then the transfer decides, and a history record is added when a history contract is set; any failure rolls back both ledger and history; the history's record invariant is kept |
| VaultContract.InitAndSetExecutor | contracts/vault/src/lib.rs:161-174 | init, set an executor, read it back, clear it: the executor reads `Some(e)` and then `None`, and the owner reads back |
| AlgoRegistryContract.AlgoRegistry.constructor | contracts/algo_registry/src/lib.rs:15-21 | a fresh registry is empty and satisfies the dense-ids invariant |
| AlgoRegistryContract.AlgoRegistry.Admin | contracts/algo_registry/src/lib.rs:23-28 | the admin when set, else "admin not set" |
| AlgoRegistryContract.AlgoRegistry.TotalAlgos | contracts/algo_registry/src/lib.rs:30-35 | `total_algos`: the id counter, 0 while it is unset |
| AlgoRegistryContract.AlgoRegistry.GetAlgo | contracts/algo_registry/src/lib.rs:114-116 | `get_algo`: the stored algo, present exactly when its id has an entry |
| AlgoRegistryContract.AlgoRegistry.InitAsWritten | contracts/algo_registry/src/lib.rs:46-53 | refuses a second init and needs the admin's authorization; then stores the admin and sets the id counter to 0 whatever it was |
| AlgoRegistryContract.AlgoRegistry.Init | contracts/algo_registry/src/lib.rs:46-53 | the same checks, but keeps a counter that `create_algo` already advanced; the dense-ids invariant is kept |
| AlgoRegistryContract.AlgoRegistry.CreateAlgo | contracts/algo_registry/src/lib.rs:59-80 | needs the owner's authorization; stores an active algo under the next id and returns that id; the total becomes id + 1; u32 overflow aborts; ids stay dense |
| AlgoRegistryContract.AlgoRegistry.SetActive | contracts/algo_registry/src/lib.rs:82-92 | a missing id aborts with "algo not found", then the owner's authorization is needed; only that algo's flag changes; the set of ids is unchanged |
| AlgoRegistryContract.AlgoRegistry.UpdateMetadata | contracts/algo_registry/src/lib.rs:94-112 | a missing id aborts, then the owner must authorize; name, metadata URI and params hash change and owner and flag stay |
| AlgoRegistryContract.AlgoRegistry.TransferAdmin | contracts/algo_registry/src/lib.rs:122-126 | admin-only; only the admin key changes |
| AlgoRegistryContract.CreateAndReadAlgo | contracts/algo_registry/src/lib.rs:137-158 | after init, the first algo gets id 0, reads back with its owner and active, and the total is 1 |
| AlgoRegistryContract.InitAfterCreateAsWritten | contracts/algo_registry/src/lib.rs:46-53 | with the source's init, create, init, create gives id 0 twice, and the second algo overwrites the first |
| AlgoRegistryContract.InitAfterCreate | contracts/algo_registry/src/lib.rs:59-80 | with the corrected init, the same sequence gives ids 0 and 1, and the first algo survives |
| AlgoHistoryContract.AlgoHistory.constructor | contracts/algo_history/src/lib.rs:14-21 | a fresh log is empty and dense |
| AlgoHistoryContract.AlgoHistory.Count | contracts/algo_history/src/lib.rs:37-42 | `count`: an algorithm's record count, 0 when it has never been written |
| AlgoHistoryContract.AlgoHistory.Get | contracts/algo_history/src/lib.rs:101-103 | `get`: the record at (algo, idx), present exactly when stored |
| AlgoHistoryContract.AlgoHistory.Admin | contracts/algo_history/src/lib.rs:23-28 | the admin when set, else "admin not set" |
| AlgoHistoryContract.AlgoHistory.Writer | contracts/algo_history/src/lib.rs:30-35 | the writer when set, else whatever reading the admin gives; it fails exactly when both are unset |
| AlgoHistoryContract.AlgoHistory.Init | contracts/algo_history/src/lib.rs:55-62 | refuses a second init, needs the admin's authorization, then makes the admin also the writer |
| AlgoHistoryContract.AlgoHistory.SetWriter | contracts/algo_history/src/lib.rs:72-76 | admin-only; only the writer key changes |
| AlgoHistoryContract.AlgoHistory.TransferAdmin | contracts/algo_history/src/lib.rs:119-123 | admin-only; only the admin key changes |
| AlgoHistoryContract.AlgoHistory.AddRecord | contracts/algo_history/src/lib.rs:78-95 | needs the writer's authorization; stores the record (with the ledger time) at index count and returns that index; the count grows by one; u32 overflow aborts; the log stays dense |
| AlgoHistoryContract.AlgoHistory.PresentPrefix | contracts/algo_history/src/lib.rs:105-117 | the records present from lo up to mid are a prefix of those present from lo up to hi |
| AlgoHistoryContract.AlgoHistory.PresentDense | contracts/algo_history/src/lib.rs:105-117 | in a dense log, the records present in [lo, hi) are exactly the records at lo, lo+1, ..., hi-1 |
| AlgoHistoryContract.AlgoHistory.List | contracts/algo_history/src/lib.rs:105-117 | returns at most `limit` records. They are a prefix of the records present from `start` up to the count, and all of them when fewer than `limit` come back. A start at or past the count gives nothing. In a dense log, entry k is record start+k |
| AlgoHistoryContract.AddAndListRecords | contracts/algo_history/src/lib.rs:134-159 | two records give count 2, and the list returns both, first "txhash1" |
| CreatorVaultFactoryContract.CreatorVaultFactory.constructor | contracts/creator_vault_factory/src/lib.rs:5-10 | a fresh factory has no admin, no token and no vaults |
| CreatorVaultFactoryContract.CreatorVaultFactory.Initialize | contracts/creator_vault_factory/src/lib.rs:18-27 | refuses a second initialization, otherwise stores admin and token; no authorization is needed |
| CreatorVaultFactoryContract.CreatorVaultFactory.CreateCreatorVault | contracts/creator_vault_factory/src/lib.rs:31-54 | refuses a creator that already has a vault, then needs the token to be set; records and returns the creator's own address; every recorded vault is its creator's address |
| CreatorVaultFactoryContract.CreatorVaultFactory.GetCreatorVault | contracts/creator_vault_factory/src/lib.rs:57-61 | the recorded vault, present exactly when recorded |
| CreatorVaultFactoryContract.CreatorVaultFactory.IsCreatorRegistered | contracts/creator_vault_factory/src/lib.rs:64-68 | true exactly when `get_creator_vault` finds a vault |
| CreatorVaultFactoryContract.CreatorVaultFactory.GetRegisteredCreators | contracts/creator_vault_factory/src/lib.rs:71-74 | always the empty list |
| CreatorVaultFactoryContract.CreatorVaultFactory.AdminCheck | contracts/creator_vault_factory/src/lib.rs:77-86 | succeeds exactly when the admin is set and has authorized; otherwise it fails with the reason |
| CreatorVaultFactoryContract.CreatorVaultFactory.UpdateAdmin | contracts/creator_vault_factory/src/lib.rs:77-86 | admin-only; only the admin key changes |
| CreatorVaultFactoryContract.CreatorVaultFactory.UpdateTokenContract | contracts/creator_vault_factory/src/lib.rs:89-100 | admin-only; only the token key changes |
| CreatorVaultFactoryContract.CreatorVaultFactory.GetFactoryInfo | contracts/creator_vault_factory/src/lib.rs:103-117 | fails when the admin, then when the token, is unset; otherwise gives both |
| CreatorVaultFactoryContract.OneVaultPerCreator | contracts/creator_vault_factory/src/lib.rs:31-54 | a second vault for the same creator is refused, another creator's vault succeeds, and the first mapping stays |
| Js.Or | platform/app/api/strategies/save/route.ts:131-133 | `a \|\| b` is a or b; it is truthy exactly when a or b is, so a truthy default makes it truthy |
| Js.ToNumber | platform/lib/execution-engine.ts:153 | `Number(v)`: a number is itself, undefined is NaN, null is 0, booleans are 0 and 1, and strings are parsed |
| Js.ToJsString | platform/app/api/strategies/save/route.ts:143 | `String(v)`: a string is itself, and the result is empty only for the empty string |
| Js.Normalize | platform/app/api/strategies/save/route.ts:143 | the decimal `String` prints has no trailing fractional zero |
| Js.NormalizeValue | platform/app/api/strategies/save/route.ts:143 | dropping trailing zeros keeps the value |
| Js.DigitsValueAppend | platform/lib/execution-engine.ts:153 | the value of concatenated digit strings is the first part's value shifted by the second's length, plus the second's |
| Js.NatToDigitsValue | platform/lib/execution-engine.ts:215 | the decimal digits of n read back as n |
| Js.UnsignedRoundTrip | platform/lib/execution-engine.ts:153 | the positional text of d·10^-scale parses back to exactly d and scale |
| Js.NumberStringRoundTrip | platform/lib/execution-engine.ts:153 | `Number(String(n))` is n with trailing zeros dropped, and so has n's value |
| ExecutionEngine.CompareValues | platform/lib/execution-engine.ts:184-193 | each of `>`, `<`, `=`, `>=`, `<=` compares the two values; any other operator, or a NaN operand, gives false |
| ExecutionEngine.CompareLaws | platform/lib/execution-engine.ts:184-193 | `>` and `<=` are complements, and so are `<` and `>=`; `=` holds exactly when both `>=` and `<=` do; NaN satisfies no operator |
| ExecutionEngine.EvaluateTimeCondition | platform/lib/execution-engine.ts:160-165 | false when the target is NaN or the operator unknown |
| ExecutionEngine.TimeConditionSeconds | platform/lib/execution-engine.ts:160-165 | with a numeric target, each of `>`, `<`, `=`, `>=` and `<=` holds exactly when the clock's whole seconds stand in that relation to the target |
| ExecutionEngine.TimeConditionStays | platform/lib/execution-engine.ts:160-165 | once a `>=` time condition holds, it holds at every later time |
| ExecutionEngine.TimeConditionReached | platform/lib/execution-engine.ts:160-165 | with whole seconds, `>= t` holds exactly from millisecond 1000·t on and `< t` exactly before it |
| ExecutionEngine.EvaluateCondition | platform/lib/execution-engine.ts:123-140 | an unknown type, or a price or threshold reading that throws, gives false; price and threshold compare the reading with `Number(value)`; time compares the clock's seconds; true needs a known operator |
| ExecutionEngine.DueMembers | platform/lib/execution-engine.ts:88-105 | a strategy is executed by a check exactly when it is registered, active and all its conditions hold |
| ExecutionEngine.SpendRequest | platform/lib/execution-engine.ts:211-217 | the `spend_for_execution` call goes to the strategy's vault. The recipient is the first action's, unless it is missing or empty, and then the executor. The amount is the first action's, unless empty, and then "0". The purpose is the fixed prefix followed by text that parses back to the algo id |
| ExecutionEngine.PurposeNamesAlgo | platform/lib/execution-engine.ts:215 | the purpose text starts with the prefix, and its rest parses to the algo id |
| ExecutionEngine.Position | platform/lib/execution-engine.ts:243 | the index of the first entry with that id, or the length when there is none |
| ExecutionEngine.Find | platform/lib/execution-engine.ts:243 | `Map.get`: present exactly when some entry has the id; the found entry has that id |
| ExecutionEngine.FindAfterReplace | platform/lib/execution-engine.ts:243 | replacing an entry in place keeps ids distinct and every other id's lookup |
| ExecutionEngine.FindAfterAppend | platform/lib/execution-engine.ts:243 | appending a new id keeps ids distinct and every other id's lookup |
| ExecutionEngine.Without | platform/lib/execution-engine.ts:251 | `Map.delete`: exactly the entries with other ids remain; their order and multiplicity by WithoutAppend and WithoutOne |
| ExecutionEngine.WithoutCons | platform/lib/execution-engine.ts:251 | deleting from a map with one more entry in front keeps that entry in front unless it has the id |
| ExecutionEngine.WithoutOne | platform/lib/execution-engine.ts:251 | deleting from a one-entry map leaves it empty when the id matches, and unchanged otherwise |
| ExecutionEngine.WithoutAppend | platform/lib/execution-engine.ts:251 | deleting from two maps placed one after the other deletes from each, keeping their order |
| ExecutionEngine.WithoutSplice | platform/lib/execution-engine.ts:251 | in a map with distinct ids, deleting a present id cuts out exactly its entry; the entries before and after it stay in order |
| ExecutionEngine.WithoutAround | platform/lib/execution-engine.ts:251 | deleting the id of an entry between two runs that lack the id leaves the two runs joined, in order |
| ExecutionEngine.WithoutFree | platform/lib/execution-engine.ts:251 | deleting an id that no entry carries changes nothing |
| ExecutionEngine.WithoutDistinct | platform/lib/execution-engine.ts:251 | deleting keeps ids distinct |
| ExecutionEngine.WithoutAbsent | platform/lib/execution-engine.ts:251 | deleting an absent id changes nothing |
| ExecutionEngine.WithoutLength | platform/lib/execution-engine.ts:251 | deleting shrinks the map by one exactly when the id was present |
| ExecutionEngine.BackendExecutionEngine.constructor | platform/lib/execution-engine.ts:32-35 | the executor is the configured address when non-empty, else the built-in default; the engine is not monitoring and the map is empty |
| ExecutionEngine.BackendExecutionEngine.StartMonitoring | platform/lib/execution-engine.ts:40-55 | starts only when not already monitoring, and says which; monitoring afterwards; the map is untouched |
| ExecutionEngine.BackendExecutionEngine.StopMonitoring | platform/lib/execution-engine.ts:60-66 | stops only when monitoring, and says which; not monitoring afterwards |
| ExecutionEngine.BackendExecutionEngine.AddStrategy | platform/lib/execution-engine.ts:242-245 | afterwards the id finds the new strategy and every other id finds what it found before. A new id is appended; an existing one is replaced where it stands. Ids stay distinct |
| ExecutionEngine.BackendExecutionEngine.RemoveStrategy | platform/lib/execution-engine.ts:250-253 | afterwards the id finds nothing, every other id is unchanged and the order is kept (the new map is `Without` of the old, so WithoutAppend, WithoutOne and WithoutSplice apply); an absent id is a no-op; the size drops by one exactly when the id was present |
| ExecutionEngine.BackendExecutionEngine.GetStatus | platform/lib/execution-engine.ts:258-264 | the monitoring flag, the map's size and its values in insertion order |
| ExecutionEngine.BackendExecutionEngine.EvaluateStrategyConditions | platform/lib/execution-engine.ts:110-118 | true exactly when all conditions hold. On false it stops at the first failing condition, having evaluated exactly the conditions up to it |
| ExecutionEngine.BackendExecutionEngine.CheckAndExecuteStrategies | platform/lib/execution-engine.ts:88-105 | prepares one spend call per due strategy, in map order, each being that strategy's `SpendRequest` |
| ExecutionEngine.DueSnoc | platform/lib/execution-engine.ts:91-104 | the due strategies of a map grown by one entry are the old ones followed by the new entry if it is due |
| ExecutionEngine.StartTwiceScenario | platform/lib/execution-engine.ts:40-66 | starting twice starts once, stopping twice stops once, and the status reports not monitoring with no strategies |
| ExecutionEngine.AddScenario | platform/lib/execution-engine.ts:242-245 | adding a and b gives [a, b]; re-adding b's id replaces b in place and keeps the size |
| ExecutionEngine.RemoveScenario | platform/lib/execution-engine.ts:250-253 | removing an absent id keeps [a, b]; removing a leaves [b] |
| ExecutionEngine.RemoveFirst | platform/lib/execution-engine.ts:251 | deleting the first of two ids leaves the second |
| ExecutionEngine.ConditionScenario | platform/lib/execution-engine.ts:110-118 | an unknown condition type first fails after one evaluation; a price of 0.1 is above 0 but not above 1000 |
| SaveRoute.FindNode | platform/app/api/strategies/save/route.ts:106-110 | `find` by node type: absent exactly when no node has the type, else the first one that does |
| SaveRoute.Select | platform/app/api/strategies/save/route.ts:113-118 | `filter` by node type: a node is kept exactly when its type is one of the given types, and the result is empty exactly when no node has one; order and repeats are fixed by SelectAppend and SelectOne |
| SaveRoute.SelectAppend | platform/app/api/strategies/save/route.ts:113-118 | `filter` of two parts joined is the filter of the first part followed by that of the second, so node order and repeats are kept |
| SaveRoute.SelectOne | platform/app/api/strategies/save/route.ts:113-118 | a single node is kept exactly when its type is selected |
| SaveRoute.ConditionOf | platform/app/api/strategies/save/route.ts:127-135 | a price condition on the trigger's symbol or "XLM", with the node's operator or ">" and its value or 0; symbol and operator are truthy |
| SaveRoute.ActionOf | platform/app/api/strategies/save/route.ts:138-146 | the node's type with the asset or "XLM", and `String(amount \|\| 0)`, which is never empty; no recipient |
| SaveRoute.AmountReadsBack | platform/app/api/strategies/save/route.ts:143 | a numeric amount, once stringified, reads back to the same value |
| SaveRoute.ConvertConditions | platform/app/api/strategies/save/route.ts:126-135 | fails exactly when a node lacks params, or when there are conditions but the trigger lacks params (the property access throws); otherwise there is one condition per node, in order |
| SaveRoute.ConvertActions | platform/app/api/strategies/save/route.ts:138-146 | fails exactly when a node lacks params; otherwise there is one action per node, in order |
| SaveRoute.NameDigits | platform/app/api/strategies/save/route.ts:149 | `replace(/\D/g, '')`: the name's digits, and only those, in order |
| SaveRoute.AlgoIdOf | platform/app/api/strategies/save/route.ts:149 | a name without digits, or whose digits read 0, gives the current time in milliseconds mod 1000; otherwise the digits' value |
| SaveRoute.NameDigitsAppend | platform/app/api/strategies/save/route.ts:149 | stripping non-digits works piecewise over concatenation |
| SaveRoute.AlgoIdFromName | platform/app/api/strategies/save/route.ts:149 | a digit-free prefix followed by the decimal digits of n > 0 gives algo id n |
| SaveRoute.ConvertFlowToExecutionFormat | platform/app/api/strategies/save/route.ts:103-160 | null without a trigger, null without buy/sell nodes, and null when a conversion throws; otherwise an active strategy for the backend executor, on the configured vault or the default, whose conditions are the conversion of the condition nodes and whose actions are the conversion of the buy and sell nodes, one per node, in node order, with at least one action |
| SaveRoute.ConvertedShape | platform/app/api/strategies/save/route.ts:126-146 | every converted condition is a price condition on one shared truthy symbol; every action is a buy or a sell with a non-empty amount and no recipient |
| SaveRoute.ConvertedConditionsReadPrice | platform/app/api/strategies/save/route.ts:130 | once added to the engine, a saved strategy's conditions all hold exactly when every price reading succeeds and compares true |
| SaveRoute.ConvertThreeNodes | platform/app/api/strategies/save/route.ts:103-160 | a trigger, a condition and a buy node convert to one condition and one action built from their params |
| SaveRoute.ConvertScenario | platform/app/api/strategies/save/route.ts:103-160 | "Strategy 7" with a BTC < 30000 condition and a buy of "10" gives algo id 7, that condition, and a buy of "10" XLM |
| Hash.HexDigitValue | platform/lib/hash.ts:5 | each lowercase hex digit reads back as its index |
| Hash.ToString16 | platform/lib/hash.ts:5 | `b.toString(16)`: one digit below 16, else two with no leading zero; the digits read back, in base 16, as b |
| Hash.PadStart2 | platform/lib/hash.ts:5 | `padStart(2, "0")`: a text of two or more characters is returned unchanged; a shorter one is filled on the left with '0' up to length 2 and ends with the original |
| Hash.ByteToHex | platform/lib/hash.ts:5 | a byte becomes two digits, with a leading '0' below 16 |
| Hash.ByteToHexPadded | platform/lib/hash.ts:5 | those two digits are exactly `b.toString(16).padStart(2, "0")` |
| Hash.PairValue | platform/lib/hash.ts:5 | the two digits read back, in base 16, as the byte |
| Hash.ToHex | platform/lib/hash.ts:4-6 | two characters per byte |
| Hash.ToHexCharset | platform/lib/hash.ts:4-6 | the text holds only 0-9 and a-f |
| Hash.Sha256Hex | platform/lib/hash.ts:1-7 | 64 lowercase hex characters for a 32-byte digest |
| Hash.ToHexPairs | platform/lib/hash.ts:4-6 | characters 2k and 2k+1 are the two digits of byte k |
| Hash.FromHexToHex | platform/lib/hash.ts:4-6 | reading the text two digits at a time recovers the bytes in order |
| Hash.ToHexInjective | platform/lib/hash.ts:4-6 | different digests give different texts |

## Left out

- Events (`env.events().publish`) are not modelled; no entrypoint's storage depends on them.
- `CreatorVaultContract.CreatorVault.Deposit` credits the stored balance only, as the contract does; no token moves.
- Transaction-level authorization is an explicit set of signers. Soroban's auth trees and nonces are not modelled.
- A Soroban call to an address holding no contract (a wrong token or history address) traps. Here the token and history are objects passed in, so that trap and the binding of an address to its contract are not modelled.
- `VaultContract.Vault.SpendForAlgo`: the record's `ts` is a parameter standing for the ledger timestamp.
- `Js.ToNumber`: JavaScript numbers are binary floating point. The model uses exact decimals, so rounding, `Infinity`, exponent forms, hexadecimal literals and the white-space trimming of `Number(s)` are not modelled. Such strings read as NaN.
- `SaveRoute.ConvertFlowToExecutionFormat`: a node without `data` (route.ts lines 106-118) and a non-string `flow.name` (line 149) make the source throw and return null. The route's types exclude both, and the model's node and request types cannot express them.
- `Js.ToJsString`: positional notation only. JavaScript switches to exponent notation outside 1e-6 ≤ |x| < 1e21, and objects and arrays are not JsValues.
- `SaveRoute.AlgoIdOf`: `parseInt` loses precision above 2^53; the model keeps the exact value.
- `ExecutionEngine.EvaluateCondition`: the placeholder prices `Math.random() * 100` and `Math.random() * 1000` are oracle readings in `Env`. A reading that throws is `None`.
- `ExecutionEngine.BackendExecutionEngine.CheckAndExecuteStrategies` returns the spend calls that `executeStrategy` would prepare. The following are not modelled:
  - fetching the executor account;
  - building, preparing and logging the transaction;
  - the `tx_${Date.now()}` hash argument;
  - the i128 parsing of the amount by `nativeToScVal`.

  A failure there is caught and logged, and does not stop the loop.
- `loadActiveStrategies` only logs, so starting the engine leaves the map unchanged.
- `ExecutionEngine.Env`: one clock reading and one price and threshold oracle serve a whole check. The source calls `Date.now()` and `Math.random()` afresh for each condition, so two conditions in one check may see different readings there.
- `ExecutionEngine.StrategyExecution`: `algoId` is an integer. The HTTP route rejects only a falsy id, so a fractional id such as 1.5 can reach `addStrategy` in the source; such ids are not modelled.
- The `setInterval` timer is the `monitoring` flag. Asynchronous interleaving of overlapping checks is not modelled: each check is one atomic call.
- The save route's POST handler and its module-level store are not part of this model. Neither are the flow's edges and description, or node parameters other than the ones read.
- `Hash.Sha256Hex`: the SHA-256 digest and the UTF-8 encoding are inputs; only the hexadecimal rendering is modelled.

## Findings

| source | as written | input that shows it | evidently intended | confidence | as-written member | corrected member |
|---|---|---|---|---|---|---|
| contracts/algo_registry/src/lib.rs:46-53 | `init` writes NextId = 0 unconditionally, and `create_algo` needs no prior `init` | `create_algo(first)` returns 0; then `init(admin)`; then `create_algo(second)` returns 0 again and overwrites algo 0 | `init` keeps a counter already advanced, so ids stay unique | not executed | AlgoRegistryContract.InitAfterCreateAsWritten | AlgoRegistryContract.InitAfterCreate |
