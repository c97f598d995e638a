# Guild configuration and user-record stores, modelled in Dafny

The repository has two thin data-access wrappers for a Discord bot:

- `src/configManager.js` keeps one JSON configuration document per guild at
  `<module dir>/../databases/<guildId>/config.json`. `ensureConfigStructure`
  fills in four top-level sections (`streakSystem`, `messageLeaderSystem`,
  `levelSystem`, `reportSettings`) in place, each with a fixed default.
- `src/dynamoDB.js` keeps user records in a DynamoDB table through the
  document client. It gets, saves, lists (following the scan cursor) and
  partially updates records, and it increments a `messageLeaderWins` counter.

The model keeps the logic that sits between the library calls. The file
system and the DynamoDB client are parameters: an abstract store of
documents, and the reply each call would receive.

- `wrappers.dfy`: `Option`, `Result` and `Fault`. A fault is the error object
  that the code logs and then rethrows or swallows.
- `json.dfy`: JSON values and JavaScript truthiness. Numbers are exact
  decimals `mantissa * 10^-exponent`, so `levelMultiplier: 1.5` is
  `Num(15, 1)` and no floating point appears.
- `config_manager.dfy` (module `ConfigManager`):
  - `EnsureConfigStructure` is a method on a mutable `ConfigObject`. It is
    proved equal to the declarative `WithDefaults`.
  - `ConfigPath` derives the path, and `GetConfig`/`SaveConfig` act on a
    `FileStore` that maps paths to documents or unreadable files.
- `dynamo_db.dfy` (module `DynamoDB`):
  - Each exported function builds the request it sends and maps the reply to
    its own result.
  - `UpdateUserData` and `ListUserData` are methods with the source's loops.
  - `IncrementEffect` and `ApplyAssignments` give DynamoDB's documented
    semantics for the two update expressions, applied to one stored item.

Three behaviours of the code worth knowing:

- `ensureConfigStructure` tests truthiness (`!config.x`), not whether the key
  exists. A section holding `null`, `false`, `0` or `""` is replaced, and `{}`
  is kept. A section holding another truthy non-object, such as `true` or
  `"x"`, is also kept, so after the call a section is always truthy but not
  always an object (`WithDefaults` states exactly when it is one).
- `getUserData` always reads the table `"DiscordAccounts"`. It does not use
  the configured table name that the other functions use
  (`GetMissesConfiguredTable`).
- `getConfig` returns `null` for a missing file. A stored document that is
  itself `null` gives the same result.

## Model

Some definitions stand for language and library semantics rather than for
source functions, and so have no row: `Json.Truthy` is JavaScript truthiness
(`!x`, `||`, `if (x)`), `DynamoDB.Join` is `Array.prototype.join`, and
`DynamoDB.ApplyAssignments` is DynamoDB's `SET` action.

| member | source | states |
|---|---|---|
| `ConfigManager.DefaultOf` | src/configManager.js:44-66 | every section default is a truthy object, so filling never leaves a falsy section |
| `ConfigManager.FillSectionFrame` | src/configManager.js:43-48 | one guarded assignment adds only its own section, keeps a truthy section's value, installs the default for a falsy one, and leaves every other key alone |
| `ConfigManager.WithDefaults` | src/configManager.js:42-67 | after filling: the keys are the old keys plus the four sections; each section is truthy; a section that was truthy keeps its exact value (even `{}` or a partial object); a falsy or missing one holds its default; a section is an object iff it was replaced or already was one; every other key is unchanged |
| `ConfigManager.FillInOrder` | src/configManager.js:43-67 | the four guarded statements, run in source order, compute `WithDefaults` |
| `ConfigManager.EnsureConfigStructure` | src/configManager.js:42-68 | the in-place update leaves the object's properties equal to `WithDefaults` of the old properties |
| `ConfigManager.WithDefaultsIdempotent` | src/configManager.js:42-68 | a second application changes nothing |
| `ConfigManager.ConfigPath` | src/configManager.js:9 | the path is the module directory, then `..`, `databases`, the guild id and `config.json` |
| `ConfigManager.ConfigPathInjective` | src/configManager.js:30 | two guilds share a path only if their ids are equal |
| `ConfigManager.GetConfig` | src/configManager.js:8-22 | a missing file gives `null` without failing; a stored document is returned as it is; a read or parse failure is rethrown unchanged |
| `ConfigManager.MissingConfigIsNull` | src/configManager.js:11-17 | a guild with no file reads as `null` |
| `ConfigManager.SaveConfig` | src/configManager.js:29-37 | a write failure is rethrown unchanged; otherwise exactly the guild's path is written |
| `ConfigManager.SaveThenGet` | src/configManager.js:8-37 | both functions use one path, so `getConfig` returns what a successful `saveConfig` wrote |
| `ConfigManager.SaveIsolatesGuilds` | src/configManager.js:29-32 | saving one guild's configuration does not change what is read for another guild |
| `DynamoDB.TableName` | src/dynamoDB.js:11 | `TABLE_NAME` is never empty: it is `DYNAMODB_TABLE` when that is set and non-empty, and `"DiscordAccounts"` otherwise |
| `DynamoDB.KeyOf` | src/dynamoDB.js:24 | the key holds exactly the attribute `DiscordId`, set to the user id as a string |
| `DynamoDB.GetUserData` | src/dynamoDB.js:21-34 | targets `"DiscordAccounts"` whatever the environment says; never throws; returns the item exactly when the reply has one, and `null` when the reply has none or the call failed |
| `DynamoDB.GetConflatesAbsentAndFailure` | src/dynamoDB.js:27-33 | a failed lookup and a lookup that finds nothing give the same result |
| `DynamoDB.SavedItem` | src/dynamoDB.js:44-47 | the item has every field of `userData`, with `userData`'s values, and also `DiscordId`; `DiscordId` is the user id only when `userData` has none |
| `DynamoDB.SaveUserData` | src/dynamoDB.js:41-55 | one Put of `SavedItem` on `TABLE_NAME`; a failure is rethrown unchanged |
| `DynamoDB.SavedUnderUserId` | src/dynamoDB.js:44-47 | the record is keyed by `userId` exactly when `userData` has no different `DiscordId` |
| `DynamoDB.GetMissesConfiguredTable` | src/dynamoDB.js:11-24 | when `DYNAMODB_TABLE` names another table, `getUserData` reads a different table from the one `saveUserData` writes |
| `DynamoDB.AttributeNames` | src/dynamoDB.js:133-135 | `ExpressionAttributeNames` has exactly one `#k` per key, and `#k` maps to `k` |
| `DynamoDB.UpdateUserData` | src/dynamoDB.js:120-145 | the expression is `"SET "` followed by the clauses `#k = :k`, one per key in key order, joined by `", "`; both placeholder maps resolve exactly the keys of `updates`, with `:k` mapped to `updates[k]`; an empty `updates` gives `"SET "` and two empty maps; a failure is rethrown unchanged |
| `DynamoDB.UpdateSetsOnlyNamedFields` | src/dynamoDB.js:115-137 | applying that `SET` expression through its placeholder maps sets each key of `updates` to its value and leaves every other attribute unchanged |
| `DynamoDB.IncrementMessageLeaderWins` | src/dynamoDB.js:97-113 | one Update on `TABLE_NAME` with the `if_not_exists` expression, `:inc` = 1, `:zero` = 0 and no name map; a failure is rethrown unchanged |
| `DynamoDB.IncrementEffect` | src/dynamoDB.js:101-105 | the counter becomes its old value, or 0 when it is absent, plus one; no other attribute changes; a non-numeric counter is rejected |
| `DynamoDB.IncrementsAdd` | src/dynamoDB.js:101 | `n` increments of an integer counter add `n` to it and change nothing else |
| `DynamoDB.CountsFromAbsent` | src/dynamoDB.js:101-105 | starting with no record, `n` increments give a record holding the key and `messageLeaderWins = n` |
| `DynamoDB.FirstEnd` | src/dynamoDB.js:73-84 | the loop ends at the first reply that is a failure or a page without `LastEvaluatedKey` |
| `DynamoDB.ListUserData` | src/dynamoDB.js:64-91 | one scan per page up to that reply, all on `TABLE_NAME`; the first scan has no `ExclusiveStartKey` and each later one uses the previous page's `LastEvaluatedKey`; the result is the in-order concatenation of the pages' `Items`, or the failure rethrown unchanged |
| `DynamoDB.CollectedMembership` | src/dynamoDB.js:79-81 | an item is in the result exactly when one of the pages read holds it; a page without `Items` adds nothing |
| `DynamoDB.CollectedPrefix` | src/dynamoDB.js:79-81 | the items collected after `m` pages are a prefix of those collected after `n >= m` pages |

## Left out

- The AWS SDK client, `dotenv` and the `ddbDocClient.send` transport are not modelled. Each call takes the reply it receives as a parameter.
- fs-extra (`pathExists`, `readJson`, `writeJson`) is replaced by the abstract `FileStore`. The model does not cover JSON text, its 2-space formatting or whether `writeJson` creates missing directories. It also does not cover `pathExists` turning its own errors into `false`.
- `path.join` normalisation is not modelled. Paths are segment sequences, so `ConfigPathInjective` does not cover any id that `path.join` normalises (empty, `.`, or containing `/` or `..`).
- `console.*` logging is not modelled, because it has no effect on results.
- The state of `config.json` after a failed write is not modelled. `SaveConfig` returns only the fault, and a write that fails after opening the file may leave it truncated.
- Atomicity of the increment under concurrent callers is a DynamoDB server guarantee. `IncrementsAdd` covers sequential increments only.
- Numbers are exact decimals, not IEEE doubles. `1.5` is an opaque decimal constant, and `Num(15, 1)` and `Num(150, 2)` count as different values.
- User ids are strings, so `String(userId)` in `getUserData` is the identity. Numeric ids are not modelled.
- `updates` is given as its entries in `Object.keys` order. JavaScript's ordering of integer-like keys is not modelled.
- DynamoDB validation of the requests is not modelled. This covers invalid placeholder characters in keys, an empty `ExpressionAttributeNames`, the expression `"SET "` with no clauses, and an update of the key attribute `DiscordId`.
- UpdateSetsOnlyNamedFields: states the effect assuming DynamoDB accepts the request.
- ListUserData: requires that some reply eventually fails or lacks `LastEvaluatedKey`. A backend that returns a cursor forever, which would make the source loop run forever, is not modelled.
- A `TypeError` thrown for a `null` argument to `ensureConfigStructure` or `updateUserData` is not modelled. Nor are section names inherited through the prototype chain.
- The model has no shared record table across calls, so "save, then get" for user records is not modelled as one scenario. Each function is modelled against its own reply.
