# radstack configuration resolver and database identifier, in Dafny

This project models the configuration core of the radstack Go client.

- **`Config`** (`config/config.go`) resolves a named value. It looks first in a cache keyed by the lower-cased name. Next it looks in the process environment, unless the object was built to use only the file. Last it looks in a permission-restricted configuration file, which is parsed lazily, at most once. Every hit is cached.
- **The configuration file grammar** has single-line `key=value` records and backtick-delimited multi-line blocks. It is parsed in one pass by a two-state line parser.
- **Identifier sanitisation** (`db/db-utils.go`, `db/db.go`) lower-cases a name and keeps only `a`..`z`. It refuses a result shorter than three letters. It builds the database id `org-name-stage`, unless `RADSTACK_DB_ID` is configured.

## Layout

| file | module | contents |
|---|---|---|
| `wrappers.dfy` | `Wrappers` | `Option`, `Result`, `Outcome` |
| `text.dfy` | `Text` | the Go string functions used: ASCII `ToLower`, `strings.Split`/`Join`, the `[^a-z]*` removal, and their laws |
| `filemodes.dfy` | `FileModes` | the mode string Go prints for a file mode, and which modes the permission gate admits |
| `config_parser.dfy` | `ConfigParser` | the line grammar as pure functions (`Step`, `ScanFrom`, `Parse`) and its properties, including a write/read round trip |
| `config.dfy` | `Config` | the `Config` class (the Go struct, updated in place). Value-level specification functions `Load`, `FromFile`, `Resolve` and `ResolveOrDefault` describe its methods. Lemmas about lookup order, caching and the one-shot load. |
| `db_utils.dfy` | `DbUtils` | `sanitizedName`, `mustSanitizedName`, the id built in `newDocumentSession` |
| `db.dfy` | `Db` | the lazily created package resolver (`Package.c`), `configVal`, `sanitizedConfigValue`, `mustSanitizedConfigValue`, `Id` |

The outside world is a `Config.Host` value. It holds the environment as a map. It holds the files as a map from path to either "cannot be stat'ed" or a file with its mode, whether this process can open it, and its lines; a path missing from the map does not exist. It also holds the user's home directory. A Go `panic` or `log.Fatal` becomes a `Failure`/`Fail` result. This includes the runtime slice panics of the parser.

The state-changing Go code is modelled as methods that change state:

- `Config.Config.GetValue` updates `valCache` in place.
- `LoadConfigFileVals` fills `configFileVals` in a loop. The loop carries `isInMultiLineString`, `multiLineKey` and the value buffer.
- `Db.Package.ConfigVal` creates the shared resolver on first use.

Each method's `ensures` equates the new state and result with a specification function of the old state. The properties are lemmas about those functions.

Behaviour follows the code where it departs from what its comments, names and error messages suggest:

- The existence and permission check looks at the object's `configFileName`. The loader always opens the default path `~/.radstack/config` (config.go:106). See `ReadPathIsDefaultPath`.
- A line is accepted only if it holds exactly one `=`. It does not split at the first `=`.
- When a load stops at a malformed line, the entries parsed before that line stay in the table, and the flag stays false. The lookup then panics.
- A block still open at end of file is accepted. Its key keeps the provisional, backtick-prefixed token.
- A block's opening line is never tested for a closing backtick.

## Model

| member | source | states |
|---|---|---|
| `Config.Config.constructor` | config/config.go:29-36 | a new resolver has an empty cache, an empty file table, the flag false, and the given file name and env switch |
| `Config.DefaultConfigFileName` | config/config.go:12-14 | the default file lies under the user's home directory: the home directory is a proper prefix of the path |
| `Config.NewConfig` | config/config.go:25-27 | the default resolver reads `DefaultConfigFileName(home)` and consults the environment |
| `Config.Config.GetValue` | config/config.go:40-56 | new state and result are exactly `Resolve` of the old state |
| `Config.Resolve` | config/config.go:40-56 | existing cache entries are never overwritten; at most the lower-cased name is added; a value found is cached under the lower-cased name; absence and panics are never cached |
| `Config.LookupOrder` | config/config.go:40-56 | a successful result is the first present of: cache under `ToLower(name)`, environment under `name` (none when only the file is used), file table under `name` |
| `Config.CacheHitIgnoresHost` | config/config.go:41-44 | a cache hit returns the cached value, leaves the state unchanged, and gives the same outcome for every host |
| `Config.EnvironmentBeforeFile` | config/config.go:46-49 | an environment value wins: it is returned, the file table and flag are untouched, and the outcome does not depend on the files |
| `Config.OnlyFileIgnoresEnvironment` | config/config.go:46-49 | with only the file in use, the outcome is the same for every environment |
| `Config.AnyCasingHitsCache` | config/config.go:41-55 | after a name resolves, any casing of it resolves later to the identical value with no state change, whatever the host |
| `Config.AbsenceIsRetried` | config/config.go:51-55 | a lookup that finds nothing leaves the cache unchanged, and a value appearing later in the environment is then found |
| `Config.Config.GetValueOrDefault` | config/config.go:58-65 | new state and result are exactly `ResolveOrDefault` of the old state |
| `Config.ResolveOrDefault` | config/config.go:58-65 | panics exactly when the lookup panics, and leaves the state that the lookup leaves |
| `Config.DefaultNeverCached` | config/config.go:58-65 | the result is the resolved value or else the default, and the default never enters the cache |
| `Config.Config.ValFromConfigFile` | config/config.go:75-84 | new state and result are exactly `FromFile` of the old state |
| `Config.FromFile` | config/config.go:75-84 | never touches the cache; changes nothing once loaded; a successful answer is the file-table entry under the original-case name |
| `Config.LoadedTableIsFinal` | config/config.go:76-83 | once loaded, the file is not checked or read again and the answer comes from the table |
| `Config.MissingFileLeavesUnloaded` | config/config.go:86-91 | a missing file gives the (empty) table's answer and leaves the flag false |
| `Config.ConfigFileExists` | config/config.go:86-100 | false exactly when the path does not exist; a stat panic for an unstat-able path; true exactly for a plain file with bits 0600 or 0400; otherwise the permission panic |
| `Config.PermissionGate` | config/config.go:95-97 | an existing file is refused, with the state unchanged, exactly when it is not a plain file with bits 0600 or 0400 |
| `Config.WorldReadableFileRefused` | config/config.go:95-97 | a 0644 file is refused whatever it holds |
| `FileModes.ModeString` | config/config.go:95 | the mode string has one leading `-` for a plain file (or the type letters otherwise) followed by nine permission characters, and starts with `-` exactly for a plain file |
| `FileModes.Admitted` | config/config.go:95 | an admitted mode string belongs to a plain file that its owner can read and that no one else can read, write or execute |
| `FileModes.AdmittedModes` | config/config.go:95 | the mode string is `-rw-------` or `-r--------` exactly when the file is plain with permission bits 0600 or 0400 |
| `FileModes.WorldReadableRefused` | config/config.go:95 | the mode string of a 0644 plain file is not admitted |
| `Config.Config.LoadConfigFileVals` | config/config.go:102-150 | the loop leaves the table, the flag and the result given by `Load` of the old state, that is, by `Parse` of the default file's lines |
| `Config.Load` | config/config.go:102-150 | never touches the cache; a second load is refused as already loaded with the state unchanged; the flag is set exactly when the load passes |
| `Config.SecondLoadRefused` | config/config.go:103-105 | after a successful load the flag is set, and another load is refused with nothing changed |
| `Config.LoadConsumesWholeFile` | config/config.go:116-149 | for a default file that can be opened, the loaded table is what the parse of the whole file leaves, and the flag is set exactly when the parse did not stop |
| `Config.ReadPathIsDefaultPath` | config/config.go:106 | a correctly permissioned configured file does not help if the default path is missing or cannot be opened (open failure); when the default file can be opened, its lines fill the table |
| `Config.MalformedFileKeepsPartialTable` | config/config.go:76-80 | a malformed line makes the lookup panic, keeps the entries parsed before it, and leaves the flag false |
| `Config.RunKeepsCacheAndTable` | config/config.go:40-84 | over any run of lookups, cache entries are never overwritten, and a loaded table and flag never change again |
| `Config.FileAndEnvironmentExample` | config/config_test.go:21-52 | a fresh resolver reads `KEY2=Value2` from a 0600 file, and an environment value for the same name wins over the file |
| `ConfigParser.Parse` | config/config.go:112-149 | parsing a file starting in single-line mode never removes a key from the table; a parse that completes accepted the file's first line |
| `ConfigParser.ScanFrom` | config/config.go:116-146 | the scanner loop never removes a key; once stopped it reads no further; it completes only from a state that had not stopped |
| `ConfigParser.Step` | config/config.go:116-146 | a malformed line changes nothing; inside a block, a line that neither stops nor closes the block changes neither the table nor the key |
| `ConfigParser.MalformedIffNotOneEq` | config/config.go:118-121 | a single-line-mode line is malformed exactly when it does not hold exactly one `=`, and then the table is unchanged |
| `ConfigParser.SingleLineAccepted` | config/config.go:118-130 | an accepted line is `key=value` with `=`-free parts; the raw key maps to the raw value; a block opens exactly when the value starts with a backtick |
| `ConfigParser.StepPair` | config/config.go:118-130 | `key=value` maps key to value, stops on an empty value, and otherwise opens a block with buffer `value[1..] + "\n"` exactly when the value starts with a backtick |
| `ConfigParser.EmptyValueStops` | config/config.go:123-124 | `key=` writes the empty value and then stops the load |
| `ConfigParser.EmptyBlockLineStops` | config/config.go:134 | an empty line inside a block stops the load with the table unchanged |
| `ConfigParser.UnterminatedBlockKeepsToken` | config/config.go:123-130 | at end of file with a block open, the key holds its provisional token, which starts with a backtick |
| `ConfigParser.MalformedKeepsEarlierEntries` | config/config.go:119-121 | a malformed line stops the parse with exactly the entries read before it |
| `ConfigParser.MiddleLinesBuffered` | config/config.go:141-144 | block lines that are non-empty and do not end with a backtick are appended verbatim, each followed by a newline, with the table unchanged |
| `ConfigParser.RecordRoundTrip` | config/config.go:124-143 | a well-formed plain or block record, written out and parsed, sets its key to its value and returns to single-line mode |
| `ConfigParser.RenderRoundTrip` | config/config.go:116-146 | a file written from well-formed records parses to the end, in single-line mode, to the table with the records applied in order |
| `ConfigParser.OpeningLineNotClosed` | config/config.go:124-130 | ``K=`abc` `` opens a block whose first fragment is ``abc` ``; a following ``def` `` gives ``abc`\ndef`` |
| `Text.Split` | config/config.go:118 | `strings.Split` on one character gives at least one piece, and no piece holds the separator |
| `Text.SplitLength` | config/config.go:118-119 | `strings.Split` gives one more piece than there are separators |
| `Text.JoinSplit` | config/config.go:118 | joining the pieces of a split gives the line back |
| `Text.SplitJoin` | config/config.go:118 | splitting a join of separator-free pieces gives the pieces back |
| `Text.KeepLowerAlphaCount` | db/db-utils.go:89-92 | removing `[^a-z]*` keeps every `a`..`z` letter as often as it occurs and drops all else |
| `Text.KeepLowerAlphaAppend` | db/db-utils.go:89-92 | the removal respects concatenation, so kept letters stay in order |
| `Text.KeepLowerAlphaFixed` | db/db-utils.go:89-92 | the removal leaves a string unchanged exactly when it is all `a`..`z` |
| `Text.ToLower` | config/config.go:41 | lower-casing keeps the length and lower-cases each character on its own: an ASCII capital becomes its small letter, every other character is kept |
| `Text.KeepLowerAlpha` | db/db-utils.go:89-92 | removing `[^a-z]*` leaves a string no longer than the input and made of `a`..`z` only |
| `Text.ToLowerIdempotent` | config/config.go:41 | lower-casing twice is lower-casing once |
| `DbUtils.SanitizedName` | db/db-utils.go:91-97 | a success holds only `a`..`z`, has length at least 3, and equals the filtered lower-cased name; an error exactly when fewer than 3 letters remain |
| `DbUtils.SanitizedNameLetters` | db/db-utils.go:92 | a success keeps each `a`..`z` letter of the lower-cased name as often as it occurs, and nothing else |
| `DbUtils.SanitizedNameIdempotent` | db/db-utils.go:91-96 | sanitising a sanitised name returns it unchanged |
| `DbUtils.MustSanitizedName` | db/db-utils.go:99-105 | returns `sanitizedName`'s value on success; its error ends the process |
| `DbUtils.DocumentSessionId` | db/db-utils.go:26 | succeeds exactly when all three names sanitise; the first refusal is the error; the id splits on `-` into the three sanitised names |
| `DbUtils.JoinedIdSplits` | db/db-utils.go:26 | three `a`..`z` words joined by `-` split back into those words |
| `Db.SanitizedValue` | db/db.go:112-119 | an absent value is refused; otherwise a success exactly when at least 3 letters remain, and then it is all `a`..`z` and the filtered lower-cased value |
| `Db.SanitizedLookup` | db/db.go:110-120 | leaves the state of the lookup; an absent value is refused; a success is all `a`..`z` with length at least 3 |
| `Db.DatabaseId` | db/db.go:40-46 | the lookups only add to the cache; without a configured id, a successful id is at least 11 characters long |
| `Db.ConfiguredIdVerbatim` | db/db.go:40-43 | a resolved `RADSTACK_DB_ID` is returned verbatim, unsanitised; a panic resolving it ends `Id` |
| `Db.ComposedIdSplits` | db/db.go:44 | otherwise a successful id is the sanitised organisation id, database name and stage, looked up in that order, joined by `-`, and it splits on `-` into exactly those three words |
| `Db.Package.ConfigVal` | db/db.go:90-98 | creates the resolver only when there is none (fresh, default file, environment consulted), reuses it otherwise, and resolves through it |
| `Db.Package.SanitizedConfigValue` | db/db.go:110-120 | new resolver state and result are `SanitizedLookup` of the old state |
| `Db.Package.MustSanitizedConfigValue` | db/db.go:122-128 | same as `sanitizedConfigValue`; its error ends the process |
| `Db.Package.Id` | db/db.go:40-46 | new resolver state and result are `DatabaseId` of the old state, with the resolver created on first use |

## Left out

- Operating-system and library calls: `os.Stat`, `os.Open`, `os.LookupEnv`, `user.Current` and `bufio.Scanner` become the `Host` value. The scanner's line splitting, CR stripping and token size limit are not modelled; a file is given as its lines. Closing the file (`defer f.Close()`) has no counterpart.
- `Text.ToLower` models `strings.ToLower` on ASCII letters only. So `DbUtils.SanitizedName` and `Db.SanitizedValue` drop non-ASCII letters that Go lower-cases into `a`..`z`: Go turns the Kelvin sign U+212A into `k` and U+0130 into `i`, so Go sanitises three Kelvin signs to `kkk` where the model refuses the name. Strings are sequences of characters, not bytes, so `v[0:1]` and `v[len(v)-1:]` are read as the first and last character.
- Go's `FileMode.String` is modelled as its type letters, or `-` for a plain file, followed by the nine `rwx` permission characters.
- Error values carry their kind, not Go's message text. A returned error, a `panic` and a `log.Fatal` all become a failure result. Process termination itself is not modelled.
- `addrOf` and Go pointers: an absent value is `None`, so taking an address has no counterpart.
- `mustConfigVal` (db/db.go:100-106) calls `MustGetValue`, which `config/config.go` does not define.
- The document store and TLS wiring (`newDocumentStore`, `OpenSession`, `X509KeyPair`, `ParseCertificate`), the package-level `DocumentSession` initialisers, and `PrintRQL`/`printRQL` (stdout only) are not modelled. They are calls into a database driver and output.
- `mustEnvVar` (db/db-utils.go:81-87) is an environment lookup that is fatal on absence. The values it produces are the inputs of `DbUtils.DocumentSessionId`.
- `cors/cors.go`, `id/generator.go` and `conversion/conversion.go` are not part of this model.
- Concurrency: the source has none, and none is modelled.
