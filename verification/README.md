# Verified models of the p8 server

This project models the parts of the p8 agent server that have real state, ordering or
arithmetic, and proves what they promise. A table is a map and a SQL statement is one
atomic step; clocks, randomness, the network, the JSON codec and cryptography are
parameters with the laws that are stated where they are used (`Crypto.dfy`,
`JsonText.dfy`); `PlainPrimitives.dfy` and `PlainCodec.dfy` have parameters that meet them,
a valid repository and runs over them. Code that changes things step by step is modelled as classes and loops,
proved against functions on values; the theorems are about those functions, or about
whole runs of the methods.

| files | subject |
|---|---|
| `Multiplexer.dfy` | the generator that merges a parent's event stream with child events |
| `Schema.dfy`, `SchemaDiff.dfy`, `Migration.dfy` | snapshot diff, migration statements, convergence |
| `TextLines.dfy`, `SqlSplit.dfy`, `SqlScript.dfy`, `SqlReader.dfy` | the dollar-quote splitter, the printer it undoes, and a reader of the printed statements |
| `Crypto.dfy`, `KeyTable.dfy`, `Encryption.dfy`, `EncryptionRuns.dfy` | envelope encryption: caches against the key table |
| `FieldCrypto.dfy`, `UpsertSql.dfy`, `Repository.dfy`, `RoundTrip.dfy`, `Binding.dfy` | field formats, bulk upsert, write/read round trips, values bound to their rows |
| `PlainPrimitives.dfy`, `PlainCodec.dfy` | primitives and a codec that meet the assumed laws |
| `AuthCodes.dfy` | authorization codes under any interleaving of statements |
| `Quota.dfy`, `Billing.dfy` | token quota under concurrency; the webhook ledger |
| `AudioPacking.dfy`, `Embeddings.dfy` | greedy packing of audio; one embedding batch |
| `GraphEdges.dfy`, `Reading.dfy` | edge merging; the daily reading tracker |
| `Router.dfy`, `Sse.dfy` | lazy routing; server-sent events printed, parsed and printed again |

## What the code does not do

Each of these is proved here, with the exact condition where there is one.

- A migration converges exactly when everything that it creates or changes finds what it
  needs in the remote database (`Migration.ConvergesIffMigratable`): every new table has a
  column and no remote view has its name; types, sequences and other objects that the diff
  does not compare are there already; a default or an index calls only functions that the
  remote has, since functions come later in the script, and they already offer what it
  relies on, such as being immutable; a change of type has a conversion, and nothing that
  depends on the column stands against it; a column that becomes nullable is in no primary
  key; a function calls only functions that the remote has or that come before it; every
  trigger to be created or replaced had its definition captured and finds its function; and
  whatever an index or a trigger is on is there by then, views and ignored tables included,
  which the diff does not create.
- Types are printed without dimensions, precision and the like, so an index that needs them
  on a new or retyped column fails: a local-only table of embeddings with its HNSW index
  cannot be migrated (`Migration.ModifiedColumnFails`). `Migration.WholeTypeIff` says which
  columns end with their whole local type.
- The diff knows a function by its name and its parameters with their names, the database by
  the types alone. A renamed parameter fails (`Migration.RenamedParameterFails`); what only
  the remote has is kept exactly unless a local function has the identity of a remote one
  under another key (the last part of `Migration.ConvergesIffMigratable`), as when the
  remote parameters have no names (`Migration.UnnamedParameterIsOverwritten`).
- A local-only table with a SERIAL column fails (`Migration.SerialTableFails`), and so does
  an index on a function that only the local schema has (`Migration.LaterFunctionFails`).
  Column defaults do not migrate: a default-only difference is an operation without a
  statement.
- With several dollar tags on a line the splitter can end a statement inside a quote
  (`SqlSplit.SplitsInsideQuote`). It splits a script as a lexer's quotes do exactly when at
  every line that ends with a semicolon it has counted its tag shut if and only if each tag
  delimits an even number of times in the statement (`SqlSplit.SplitsAsLexedIff`); after a
  single line the two agree exactly when every tag but the counted one delimits an even
  number of times and that one occurs an even number of times without delimiting
  (`SqlSplit.SplitterAgreesIff`).
- `configure_tenant` leaves the caches in disagreement with the table exactly if it stores
  an own key with mode "sealed", or changes the system tenant while a cached tenant without
  a row of its own does not hold the new key; `Encryption.EncryptionService.ConfigureTenant`
  says so for what lives in the caches at any time. A later answer can differ from the
  table's exactly if such an entry has not expired: then the next one does
  (`EncryptionRuns.StaleEntryAnswers`), and otherwise none ever does
  (`EncryptionRuns.NoStaleEntry`). Runs of both kinds are
  `EncryptionRuns.SealedOwnKeyIsStale` and `EncryptionRuns.NewSystemKeyIsStale`.
- A sealed tenant's row is sealed exactly if the cached public key lives at the clock
  reading of its encryption; `RoundTrip.WriteSealed` says what that means for the caches
  before the call: while the sealed mark lives, an expired key is not fetched again, and
  the row is written in the clear (`RoundTrip.ExpiredKeyWritesPlain`).
- A bulk upsert equals single upserts exactly when no explicit value meets a column that
  another entity of the batch left unset (`UpsertSql.BulkIsEachIff`).
- Two tenants can share the associated data of two rows if a name has a colon in it
  (`Binding.ColonsCollide`); otherwise a value that is moved to another row stays closed.
- Add-on credit is stored for the first day of the month, but quotas are checked by day or
  by week: it counts only on days whose period starts on that day (`Quota.AddonCounts`),
  for chats on the first of the month alone (`Quota.AddonIsSeenIff`).
- A chat at exactly the limit is still admitted, and the overshoot bound is attained
  (`Quota.BoundIsAttained`).
- Add-on credit is conserved throughout a run exactly if no refund of a payment from before
  the run or from another month is handled while the month has credit
  (`Billing.CreditIsConservedIff`): such a refund takes what another purchase has added
  (`Billing.RefundTakesOtherPurchase`) and nothing from the month of its own
  (`Billing.LateRefundTakesNothingBack`). `Billing.CreditAfterDeliveries` gives the amount
  for all deliveries.
- What a failed webhook handler did not do is never done, however often Stripe sends the
  event again (`Billing.FailedDeliveryIsLost`); a purchase that was credited but not
  recorded cannot be refunded (`Billing.UnrecordedPaymentIsNotRefunded`). A checkout with a
  user and a payment intent but without anything to credit raises, because the name its
  second statement uses is imported in the branch of the first.
- A provider that returns too few vectors leaves jobs claimed for ever
  (`Embeddings.UnansweredStayClaimed`), and then the counters do not add up.
- An agent with an empty name is classified again with the next message
  (`Router.NamelessAgentIsAskedAgain`).

The module documentation of `encryption.py` lists the fallback chain from the own key to
the disabled marker. The code asks for the disabled marker and for sealed mode first, and
answers "platform" as the mode of a disabled tenant, so its rows are stamped that way; the
model follows the code.

## Model

| member | source | states |
|---|---|---|
| Multiplexer.MergedEventStream | p8/api/routers/chat.py:95-159 | For every stream, every script of what producers and tasks do at the suspensions and either order of the done set: yielded parent and child events are prefixes of the stream and of what was put, complete on return; at every wait all that was taken before the previous wait resumed has been yielded; an exception only from the parent; a fair script is used up within a bound |
| Multiplexer.Multiplexer.Run | p8/api/routers/chat.py:109-159 | Returns only with the parent ended, the queue empty and no event in the child task |
| Multiplexer.Multiplexer.HandleDone | p8/api/routers/chat.py:125-144 | A pass yields exactly the events of the tasks that had finished when the wait resumed, in the order of the done set, schedules each of them again, after a timeout as well, and ends the loop exactly if the parent had ended; cut short it has yielded a beginning of that |
| Multiplexer.Multiplexer.Pass | p8/api/routers/chat.py:118-144 | One wait and one pass: nothing that was taken before is held back at the next wait |
| Multiplexer.Multiplexer.HandleParent | p8/api/routers/chat.py:126-135 | Yields the fetched event once and schedules the next fetch, or marks the end, or raises |
| Multiplexer.Multiplexer.HandleChild | p8/api/routers/chat.py:137-144 | Yields a taken event once, and schedules the next get, after a timeout as well |
| Multiplexer.Multiplexer.Drain | p8/api/routers/chat.py:153-159 | Empties the queue, including events put while it yields |
| Multiplexer.Multiplexer.CompleteParent | p8/api/routers/chat.py:165-170 | The task fetches the next event or the sentinel; emitted ++ held ++ unread stays the whole stream |
| Multiplexer.Multiplexer.CompleteChild | p8/api/routers/chat.py:73-84 | The task takes the head of the queue; emitted ++ held ++ queued stays everything put |
| Multiplexer.WholeIsConcat | p8/api/routers/chat.py:118-159 | The invariant, said position by position, is that the three parts concatenate to the whole |
| SchemaDiff.DiffSnapshots | p8/api/cli/db.py:255-392 | The operations are those of the five comparisons, in their order, each over a complete enumeration of its keys |
| SchemaDiff.DiffColumns | p8/api/cli/db.py:278-306 | Columns of common tables only: new ones are added, those with another type, nullability or default altered |
| SchemaDiff.DiffEntries | p8/api/cli/db.py:313-371 | Indexes, functions and triggers: local-only ones created, different ones replaced, remote-only ones left alone |
| Schema.ExecuteConcat | p8/api/cli/db.py:756-761 | Running two scripts one after the other is running their concatenation; the first failure ends both |
| Migration.ScriptReaches | p8/api/cli/db.py:398-488 | Under that condition the generated script succeeds and leaves exactly the merged snapshot: local entries over remote ones, columns as they are printed, altered columns with their remote default, one function for each identity |
| Migration.ConvergesIffMigratable | p8/api/cli/db.py:255-488 | The script succeeds and converges if and only if everything that it creates or changes finds the objects, functions, type modifiers and conversions it needs at its place in the script; then a second diff gives no statement, and what only the remote has is unchanged if and only if no local function has the identity of a remote one under another key |
| Migration.EveryPrefixSucceeds | p8/api/cli/db.py:263-486 | Under that condition no prefix of the script needs a table, column, object, modifier or function that does not exist yet |
| Migration.NothingLeftToDo | p8/api/cli/db.py:255-488 | On a converged database the plan is empty, default-only differences included |
| Migration.UnreadyIsMissing | p8/api/cli/db.py:398-488 | When the script does not fail, every table, column, type, nullability or trigger that did not find what it needs is missing at its end, and every index found it |
| Migration.UnreadyIndexEndsScript | p8/api/cli/db.py:444-448 | An index that lacks an object, a function or a type modifier, or replaces one that a constraint relies on, ends the script |
| Migration.UnreadyRoutineEndsScript | p8/api/cli/db.py:450-466 | A function that calls one which neither the remote has nor comes before it, or that cannot replace the remote function of its identity, ends the script |
| Migration.UnreadyTriggerEndsScript | p8/api/cli/db.py:468-486 | A trigger with a definition that lacks its function ends the script |
| Migration.WholeTypeIff | p8/api/cli/db.py:421-441 | A column ends with the local length and modifier if and only if it is new or retyped and has no modifier, or kept and the remote has the same |
| Migration.SerialTableFails | p8/api/cli/db.py:227-247 | A local-only table with a SERIAL column: its sequence is never created, and the whole script fails |
| Migration.ModifiedColumnFails | p8/api/cli/db.py:238-244 | A local-only table with an index that needs a type modifier, such as HNSW on vector(1536): the printed column has none, and the whole script fails |
| Migration.RenamedParameterFails | p8/api/cli/db.py:192-197 | Two keys of one identity with different parameter names: the diff creates a function, and the whole script fails |
| Migration.UnnamedParameterIsOverwritten | p8/api/cli/db.py:192-197 | A remote-only key of the same identity without names is replaced by the local function |
| Migration.LaterFunctionFails | p8/api/cli/db.py:444-466 | An index that relies on what only the local functions offer fails, since functions come after indexes |
| SqlSplit.SplitSql | p8/api/cli/db.py:770-819 | The loop returns the texts of the scanned statements and of left-over lines; the all-comments filter drops none of them |
| SqlSplit.TrackQuote | p8/api/cli/db.py:788-802 | One line's effect on the open tag: the first tag on the line, toggled by the parity of its occurrences |
| SqlSplit.SplitIffPrinted | p8/api/cli/db.py:770-819 | Lines split into exactly these statements with nothing left over if and only if they are a printing of them with blank and comment lines between |
| SqlSplit.SplitsWhatIsPrinted | p8/api/cli/db.py:770-819 | Splitting undoes printing for every list of well-formed statements |
| SqlSplit.ScanReads | p8/api/cli/db.py:770-819 | For any input, what the splitter has is a reading of the lines so far: nothing is invented, lost or reordered |
| SqlSplit.SplitterAgreesIff | p8/api/cli/db.py:788-802 | For every line with any number of tags: the tag counting leaves the quote of a character lexer if and only if the other tags delimit an even number of times each, and the counted one as often as it occurs, up to an even number |
| SqlSplit.QuotesAreLexedIff | p8/api/cli/db.py:780-804 | Over the lines of a statement the splitter has the lexer's quote after every line if and only if that holds on each line |
| SqlSplit.SplitterAgreesWithLexer | p8/api/cli/db.py:788-802 | In particular it does when all quotes on the line have one tag and no comment contains it |
| SqlSplit.SplitsAsLexedIff | p8/api/cli/db.py:770-819 | For every input the splitter finds the statements of a splitter with a lexer's quotes if and only if each of its cuts, made or not, falls where every tag of the statement delimits an even number of times; once they split differently they never agree again |
| SqlSplit.SplitsOutsideQuotes | p8/api/cli/db.py:806-811 | In particular, if the quotes are counted right on each line of a statement, it ends at the first line that ends with a semicolon outside dollar quotes, as the lexer sees them, and at no other |
| SqlSplit.TwoTagsMisread | p8/api/cli/db.py:790-796 | One line with two tags after which the splitter takes the quote for closed and the lexer for open |
| SqlSplit.SplitsInsideQuote | p8/api/cli/db.py:788-811 | Two lines that the splitter takes for two statements although the first ends inside a dollar quote that the second closes |
| SqlSplit.TextOfStatement | p8/api/cli/db.py:807-811 | A collected statement has text and is not made of comments only |
| SqlScript.GenerateSql | p8/api/cli/db.py:398-488 | The generated text is the pieces of the file, joined line by line |
| SqlScript.SectionIsPieces | p8/api/cli/db.py:409-486 | The section of each operation, written branch by branch, is its title, its rendered statements and nothing else |
| SqlScript.FileSplitsIntoPlan | p8/api/cli/db.py:398-488 | Splitting the generated file gives exactly the statements of the plan, in order |
| SqlScript.SecondFileIsEmpty | p8/api/cli/db.py:488 | After a migration that converged the generator returns the empty text |
| SqlScript.PlainStatement | p8/api/cli/db.py:421-448 | One-line statements without a dollar sign, such as those on columns, are well formed |
| SqlScript.TableStatement | p8/api/cli/db.py:237-247 | The printed definition of a table, over several lines, is one statement when its name and column texts are plain |
| SqlScript.FunctionIsStatement | p8/api/cli/db.py:450-466 | So is a function whose dollar-quoted body closes on the last line, whatever semicolons the body has |
| SqlReader.ReadsBack | p8/api/cli/db.py:398-488 | A reader of SQL words, written without the printer, reads every printed statement with plain names back to that statement |
| SqlReader.ScriptReads | p8/api/cli/db.py:398-488 | The same for the texts of a whole script |
| SqlReader.FileIsPlan | p8/api/cli/db.py:756-819 | Splitting the generated file, reading and executing its statements is executing the plan |
| SqlReader.FileConvergesIff | p8/api/cli/db.py:255-819 | From two schemas over the text of the file to the database: it converges if and only if the migration is feasible, and then reaches the merged schema |
| SqlReader.TidySchemaIsWritable | p8/api/cli/db.py:398-488 | Conditions on the local schema alone under which every difference can be written and read so |
| TextLines.JoinSplit | p8/api/cli/db.py:780-808 | Joining the lines of a text gives the text back |
| TextLines.SplitJoin | p8/api/cli/db.py:488 | Splitting a joined text gives the lines of its parts, in order |
| KeyTable.UnwrapUndoesWrap | p8/services/kms.py:74-97 | A key that was wrapped for a tenant unwraps for it to the same key |
| KeyTable.WrappedKeyIsBound | p8/services/kms.py:74-97 | In another tenant's row it does not open |
| KeyTable.LocalFileKMS.WrapAndStoreDek | p8/services/kms.py:74-86 | The tenant's row becomes the wrapped key, active, with the mode; other rows stay |
| KeyTable.LocalFileKMS.UnwrapDek | p8/services/kms.py:88-97 | The unwrapped key of an active row, nothing otherwise |
| KeyTable.LocalFileKMS.SetDisabled | p8/services/kms.py:106-113 | The row is marked disabled; its mode stays |
| KeyTable.LocalFileKMS.QueryMode | p8/services/kms.py:120-125 | The mode of an active row only |
| Encryption.EncryptionService.GetDek | p8/services/encryption.py:51-87 | From coherent caches the answer is the resolution over the table: disabled or sealed none, own key, else system key, made if missing; caches stay coherent |
| Encryption.EncryptionService.GetTenantMode | p8/services/encryption.py:89-103 | The mode of the table row, platform without an active row |
| Encryption.EncryptionService.ConfigureTenant | p8/services/encryption.py:110-136 | The new table, and for every time: what lives in the caches then is right if and only if the call gives no own key that lives then the sealed mode and, for the system tenant, the cached tenants without a row hold the new key (none may be cached when it gets none) |
| Encryption.EncryptionService.ConfigureTenantSealed | p8/services/encryption.py:140-173 | The public key is stored and all three caches agree with it; for the system tenant exactly if no tenant without a row is cached |
| Encryption.EncryptionService.GetSealedPubkey | p8/services/encryption.py:175-185 | The stored public key, from the cache or the table |
| Encryption.RowsDecide | p8/services/encryption.py:57-87 | A tenant's resolution depends only on its own row, or else on the system's |
| Encryption.OwnKeyEntry | p8/services/encryption.py:127-131 | A stored own key resolves to itself unless its mode is sealed |
| Encryption.ChangeKeepsRight | p8/services/encryption.py:110-173 | Whatever changes one tenant's row and entries leaves what lives later in the caches right exactly if the new entries are, and, for the system tenant, if the tenants that depend on its key hold the new one |
| Encryption.KeyLives | p8/services/encryption.py:175-185 | Whether a sealed tenant's key lives at a later moment, from the two cache entries and the clock before the call; an equivalence when the clock stands still |
| EncryptionRuns.ResolvesAsConfigured | p8/services/encryption.py:51-173 | Over any calls, by the calls alone: a tenant that was last disabled has no key, one with an own key has that and its mode, a sealed one its public key, any other the system key |
| EncryptionRuns.CachedRun | p8/services/encryption.py:51-185 | Over every run of calls, whatever the clock does between its readings and whatever the time to live, answers and table equal those of the run without caches |
| EncryptionRuns.PerformAll | p8/services/encryption.py:51-185 | The same from any state in which only expired entries may be wrong |
| EncryptionRuns.StaleEntryAnswers | p8/services/encryption.py:110-136 | Right after a reconfiguration, a sealed own key or an older system key that has not expired answers differently from the table |
| EncryptionRuns.NoStaleEntry | p8/services/encryption.py:51-185 | Without such an entry no later answer differs, in any run and however the clock goes on |
| EncryptionRuns.SealedOwnKeyIsStale | p8/services/encryption.py:127-131 | The run that shows why sealed own keys are excluded |
| EncryptionRuns.NewSystemKeyIsStale | p8/services/encryption.py:83-87 | A run in which a tenant keeps the old system key; ConfigureTenant has the exact condition |
| FieldCrypto.EncryptRow | p8/services/encryption.py:204-220 | Each listed, non-null field becomes its encryption with tenant and id bound, all other columns stay |
| FieldCrypto.DecryptRow | p8/services/encryption.py:272-286 | Each listed field is opened, or left as it is when that fails |
| FieldCrypto.DecryptRowUndoesEncryptRow | p8/services/encryption.py:189-286 | Decrypting with the same key, tenant and id gives every field back |
| FieldCrypto.DeterministicFieldsRepeat | p8/services/encryption.py:213-214 | A deterministic field encrypts equal texts of one row equally |
| FieldCrypto.UnpackUndoesPack | p8/services/encryption.py:253-319 | For every wrapped key shorter than 65536 bytes the packed parts come back |
| FieldCrypto.SealRow | p8/services/encryption.py:222-257 | Each listed field is sealed under the public key, all others stay |
| FieldCrypto.OpenRowUndoesSealRow | p8/services/encryption.py:222-327 | The private key recovers every sealed field and changes no other |
| UpsertSql.ApplyAt | p8/services/repository.py:91-109 | What a bulk statement does to each single row: the batch's entity for it is merged by COALESCE under the batch's column lists, all others stay |
| UpsertSql.BulkIsEachIff | p8/services/repository.py:71-109 | For distinct existing ids the bulk statement equals single upserts if and only if no explicit value meets a column that others left unset and that holds another value |
| UpsertSql.AgreeingBatchIsEach | p8/services/repository.py:76-109 | It does when the entities agree on what is unset |
| UpsertSql.MixedBatchLosesValue | p8/services/repository.py:76-101 | A mixed batch in which an explicit value is lost |
| UpsertSql.AnyOrder | p8/services/repository.py:53-119 | Single upserts of distinct ids commute |
| UpsertSql.NothingBecomesNull | p8/services/repository.py:91-101 | No batch makes a stored non-null column null |
| Repository.Repository.EncryptFields | p8/services/encryption.py:189-220 | By what the cache has for the tenant: plain, encrypted, sealed, or plain when the public key has expired |
| Repository.Repository.EncryptSealed | p8/services/encryption.py:222-257 | Sealed under the cached public key if that lives at the clock reading, and as it is otherwise |
| Repository.Repository.PrepareAll | p8/services/repository.py:74-85 | Every entity is encrypted by its tenant's resolution and stamped with its mode; a sealed tenant's is sealed or left plain by whether the cached key lives at the clock reading of that moment |
| Repository.Repository.Upsert | p8/services/repository.py:53-119 | The table becomes the bulk upsert of the prepared entities; for each sealed one a flag that is set exactly if the cached key lives at its encryption, and what the caches before the call say about that |
| Repository.Repository.GetForTenant | p8/services/repository.py:144-152 | None for missing and deleted rows, otherwise the row read by its stamp: decrypted when stamped platform, as stored otherwise |
| RoundTrip.WriteThenRead | p8/services/repository.py:53-152 | Writing, then any calls that do not reconfigure the tenant, then reading: platform, disabled and tenant-less rows come back as written; client rows come back as stored, encrypted under the tenant's own key; sealed rows as stored, sealed if the key lived when they were written |
| RoundTrip.ReadsWhatWasWritten | p8/services/repository.py:339-356 | What a stored row reads as under an unchanged configuration: the fields in platform mode, the stored ciphertext in client and sealed mode |
| RoundTrip.WriteSealed | p8/services/encryption.py:222-257 | In every run a sealed tenant's row is sealed if and only if the cached key lives at the clock reading of its encryption, and before the call: never while a living mark hides an expired key, always when the key outlives the call or must be fetched |
| RoundTrip.ClientOpensStored | p8/services/encryption.py:209-218 | The tenant's own key opens every encrypted field of a stored client row |
| RoundTrip.OwnerOpensStored | p8/services/encryption.py:240-255 | The private key opens every sealed field of a stored sealed row |
| RoundTrip.ExpiredKeyWritesPlain | p8/services/encryption.py:227-229 | A run in which a sealed tenant's row is written as it is, between two expiries; WriteSealed has the condition |
| Binding.OtherRowsApart | p8/services/encryption.py:207 | The associated data tell the rows of a tenant apart, and those of different tenants without a colon in their names |
| Binding.ColonsCollide | p8/services/encryption.py:207 | With a colon in a name two tenants share the data of two rows |
| Binding.StoredRowsDiffer | p8/services/encryption.py:209-218 | Two rows never store the same ciphertext under one key, not even of equal texts in a deterministic field |
| Binding.NoncesApart | p8/services/encryption.py:213-214 | The nonce of a deterministic field changes with the text, short of a collision of the digest |
| Binding.RandomFieldsVary | p8/services/encryption.py:215-218 | A field that is not deterministic shows another ciphertext with each nonce |
| Binding.ReadMovedField | p8/services/repository.py:144-152 | A value encrypted for another row comes back as it is stored |
| Binding.OpenMovedField | p8/services/encryption.py:290-327 | So does a sealed one, even for the owner of the private key |
| PlainPrimitives.PlainIsLawful | p8/services/encryption.py:222-257 | The laws of the primitives and the bound on wrapped keys can be met together |
| PlainPrimitives.NewRepository | p8/services/repository.py:53-85 | A valid repository over them |
| PlainPrimitives.SealedTextComesBack | p8/services/encryption.py:222-327 | A run in which a sealed tenant's text is sealed and the private key opens it |
| PlainPrimitives.PlatformTextComesBack | p8/services/repository.py:53-152 | A run in which a text is written and read in platform mode |
| PlainPrimitives.ExpiredKeyIsReached | p8/services/encryption.py:227-229 | The run in which the key has expired and the row is written as it is |
| PlainCodec.PlainIsLawful | p8/agentic/streaming.py:22-92 | The laws of the JSON codec can be met: a one-line code of all values, and its inverse |
| AuthCodes.ParseCodeRecord | p8/services/auth.py:73-105 | Objects as they are, arrays merged element by element with doubly encoded elements decoded, anything else empty |
| AuthCodes.DoubleEncodingRecovered | p8/services/auth.py:73-105 | An original object followed by a doubly encoded patch reads as the merged record |
| AuthCodes.StepKeepsBinding | p8/services/auth.py:648-730 | Every statement of every request keeps client, redirect URI and challenge of each row and of each callback under way |
| AuthCodes.EveryRunIsSafe | p8/services/auth.py:648-769 | Over every interleaving: consumed codes are gone, none is consumed twice, tokens match what the code was created for |
| AuthCodes.SingleUse | p8/services/auth.py:694-758 | Of two exchanges of one code at most one gets past consumption, and no callback brings the code back (section 4.1.2 of RFC 6749) |
| AuthCodes.TokensMatchGrant | p8/services/auth.py:760-769 | Tokens only for the client, redirect URI and S256 challenge fixed at creation (section 4.6 of RFC 7636), and for a user offered for that code |
| AuthCodes.ExchangeDecides | p8/services/auth.py:732-769 | After any interleaving the verdict follows from what the code was created for: tokens if and only if the code was created and not yet consumed and client, redirect URI and challenge match, and otherwise the first rejection in the program's order |
| AuthCodes.IssuedForLastUser | p8/services/auth.py:648-772 | Over every interleaving, by the statements alone: the record that is issued has everything of the grant and names entirely the user of the last callback whose update came before, and nobody without one |
| AuthCodes.CodeStore.CreateAuthorizationCode | p8/services/auth.py:648-677 | The step of the creation in every run: the row holds the record of the grant |
| AuthCodes.CodeStore.GetAuthorizationCode | p8/services/auth.py:679-692 | The parsed record of the row, which stays |
| AuthCodes.CodeStore.ReadForUser | p8/services/auth.py:716-725 | The step of a callback's SELECT: the record it goes on with, or none |
| AuthCodes.CodeStore.WriteUser | p8/services/auth.py:725-730 | The step of a callback's UPDATE: the row becomes the record read before with the user, if the row is still there |
| AuthCodes.CodeStore.ExchangeAuthorizationCode | p8/services/auth.py:732-769 | The step of an exchange: the code is deleted whatever the verdict; the checks reject in the program's order |
| Quota.UsageTable.CheckQuota | p8/services/usage.py:124-158 | Exceeded exactly when what was used is above limit plus extra; usage at exactly the limit is not |
| Quota.UsageTable.IncrementUsage | sql/04_payments.sql:125-150 | One atomic increment of the period's row; exceeded when above the effective limit |
| Quota.UsageIsSum | p8/api/routers/chat.py:305-308 | Over every run a day's usage is the sum of the tokens, input and output, of the chats completed on it, at least 1 for each; its credit is what was added and not taken back |
| Quota.PeriodsStartWhereTheyShould | p8/services/usage.py:146-153 | A daily period is the day, any other the Monday on or before it, and no other day |
| Quota.LimitsByResource | p8/services/usage.py:146-147 | Each resource is checked against its own limit of the plan |
| Quota.PlansAreOrdered | p8/services/usage.py:74-79 | Each higher plan allows at least as much; an unknown plan is the free one |
| Quota.AddonCounts | p8/services/stripe.py:280-285 | Credit stored for the first of the month counts in the checks of exactly the days whose period starts then |
| Quota.AddonIsSeenIff | p8/services/usage.py:146-153 | For daily resources that is the first itself, for weekly ones the first week if the first is a Monday |
| Quota.EveryRunIsBounded | p8/api/routers/chat.py:232-309 | Over every interleaving of checks, completions, day changes, credits and refunds the bound holds with the cost of the running chats reserved |
| Quota.Overshoot | p8/services/usage.py:124-185 | On every day usage is at most limit + highest extra + k times the cost, and recorded completions at most limit + highest extra + k |
| Quota.BoundIsAttained | p8/services/usage.py:124-158 | For every width and every cost of at least the limit there is a run that uses exactly limit + k times the cost |
| Billing.BillingService.HandleWebhook | p8/services/stripe.py:232-358 | The new tables by event kind, and duplicate, failed or processed as the answer; a checkout that has nothing to credit but an intent fails |
| Billing.BillingService.UpdateSubscription | p8/services/stripe.py:211-230 | An existing customer's plan, status and period; an unknown price is the free plan |
| Billing.CustomersFollowDeliveries | p8/services/stripe.py:211-330 | Over any deliveries, repeated and failed ones included, by the deliveries alone: each customer's plan, subscription and period are those of the last event that did something to the subscription, the status too unless an active one has had a failed invoice since; customers are neither added nor removed |
| Billing.EventsFollowDeliveries | p8/services/stripe.py:236-356 | Every delivered event is recorded, and processed exactly if its first delivery did not fail |
| Billing.DuplicatesHaveNoEffect | p8/services/stripe.py:236-244 | Any sequence with repeated or already recorded deliveries ends like that of the first deliveries |
| Billing.FailedDeliveryIsLost | p8/services/stripe.py:236-356 | After a handler that failed at any of its statements the tables stay as if there had been its first statements and no such event, whatever is delivered later, the event again included |
| Billing.CreditAfterDeliveries | p8/services/stripe.py:232-358 | From any ledger, over any deliveries in any months: the credit at a key is its start plus net purchases minus refunds of other payments plus the shortfall that GREATEST cut off, so the loss is the difference of the last two |
| Billing.CreditIsConservedIff | p8/services/stripe.py:268-345 | With one checkout and at most one refund event for each intent the credit is conserved after every delivery if and only if no refund of a payment from before the run or from another month is handled in the key's month while it has credit |
| Billing.OtherMonthsKeepCredit | p8/services/stripe.py:280-344 | From any ledger, a delivery that is handled in another month leaves the credit at a key unchanged |
| Billing.RefundTakesOtherPurchase | p8/services/stripe.py:336-343 | An earlier payment's refund takes the credit of a purchase that nobody refunded |
| Billing.CreditIsConserved | p8/services/stripe.py:268-345 | At the end of any deliveries, repeated ones included, a key's credit is its start plus the purchases not refunded after their checkout, when no refund of another payment finds credit |
| Billing.NetIsNotNegative | p8/services/stripe.py:321-345 | Refunds of a month's purchases never exceed them when each intent has one checkout and at most one refund |
| Billing.UnrecordedPaymentIsNotRefunded | p8/services/stripe.py:276-301 | From any ledger and after any deliveries: a checkout that fails between its two statements leaves its credit, and its refund changes no key |
| Billing.LateRefundTakesNothingBack | p8/services/stripe.py:336-343 | From any ledger and after any deliveries: a refund in another month leaves the credit of the purchase and takes the grant from its own month, as far as there is any |
| AudioPacking.MergeSegments | p8/services/content.py:118-131 | The chunks are the groups of the greedy packing joined, the last one dropped if it is under 500 ms |
| AudioPacking.PackingIffGreedy | p8/services/content.py:118-131 | The rule that a group ends only when it has 500 ms and the next segment does not fit determines the groups: the loop's groups satisfy it and no others do |
| AudioPacking.NothingButAShortTailIsLost | p8/services/content.py:118-131 | Chunks and a dropped tail under 500 ms are the segments in order; each chunk has at least 500 ms |
| AudioPacking.ChunkIsBounded | p8/services/content.py:120-129 | No chunk is longer than the target or than 499 ms plus the longest segment, whichever is more |
| AudioPacking.NeighboursExceedTarget | p8/services/content.py:121-127 | Two chunks in a row are longer than the target |
| AudioPacking.ChunksAreFew | p8/services/content.py:118-131 | Half the number of chunks, times the target, is at most the length of the recording |
| Embeddings.EmbeddingService.ProcessBatch | p8/services/embeddings.py:211-288 | Fates of all claimed items, the queue and the index after them, and the counters, which add up to the batch exactly if the provider raised or returned a vector for each text |
| Embeddings.EmbeddingService.UpsertEmbedding | sql/02_install.sql:249-271 | Stores the vector with its hash and unqueues the item, or does neither |
| Embeddings.EmbeddingService.FailItem | sql/02_install.sql:275-289 | The item's job waits again, or is given up if it had three attempts; attempts and all other jobs stay |
| Embeddings.EmbeddingService.ClaimBatch | p8/services/embeddings.py:322-336 | Exactly the pending jobs with fewer pending ones before them than the batch size are marked and counted, all others stay, and the batch has their items in order |
| Embeddings.ClaimedItemsAreCurrent | p8/services/embeddings.py:224-288 | With an injective hash and one vector for each text every claimed item has a fate, and unless it failed, an item with text has the vector of its own text, stored or skipped alike |
| Embeddings.IndexStaysSound | p8/services/embeddings.py:233-286 | A batch leaves an index that the next batch can skip by |
| Embeddings.CollisionKeepsOldVector | p8/services/embeddings.py:233-244 | Without injectivity the skip keeps the vector of an earlier text |
| Embeddings.BatchIsDistinct | p8/services/embeddings.py:322-336 | A batch has no item twice |
| Embeddings.ClaimedAt | p8/services/embeddings.py:322-336 | The claim position by position |
| Embeddings.BatchAt | p8/services/embeddings.py:322-336 | The batch has each claimed item at the place that its job has among the pending ones |
| Embeddings.TriedThreeTimes | sql/02_install.sql:275-289 | A new job that fails in every batch that claims it is tried three times and then given up |
| Embeddings.BatchFailsJob | p8/services/embeddings.py:264-288 | What such a batch makes of a claimed job whose item fails |
| Embeddings.UnansweredStayClaimed | p8/services/embeddings.py:264-286 | An item for which the provider returned no vector has no fate, and its job stays claimed |
| GraphEdges.MergeGraphEdges | p8/services/graph.py:6-34 | The two loops compute the merge of the concatenated lists |
| GraphEdges.MergeKeepsFirstHeaviest | p8/services/graph.py:22-34 | One edge for each target and relation, the first of the heaviest, in the order of first occurrence |
| GraphEdges.MergeInSteps | p8/services/graph.py:22-34 | Merging in two steps is merging at once |
| Reading.ReadingTracker.RecordReading | p8/api/routers/resources.py:123-301 | The new tables and the reply, branch by branch |
| Reading.RepliesFollowCalls | p8/api/routers/resources.py:133-301 | The reply to a call by the calls before: duplicate exactly if the last read of the resource that day had the same action, else updated, or added with the number of distinct reads, or created |
| Reading.MomentFollowsItems | p8/api/routers/resources.py:181-252 | The day has one read edge of weight 1 for each title and the tags of the items, both in the order of the items |
| Reading.EveryRunIsValid | p8/api/routers/resources.py:142-301 | Over every run: one item for each resource, the count is the number of items, tags and read edges are those of the items, edge keys and bookmarks distinct |
| Reading.BookmarkedIffLastMark | p8/api/routers/resources.py:142-165 | A user is in `bookmarked_by` exactly if the user's last bookmark or unbookmark was a bookmark |
| Reading.ItemsAreFirstReads | p8/api/routers/resources.py:195-301 | The moment lists what was read that day, each resource once, in the order of the first reads |
| Reading.ItemsShowLastAction | p8/api/routers/resources.py:201-229 | Each item shows the last click or bookmark of its resource, and that resource's title and tags |
| Router.Router.Route | p8/agentic/routing.py:87-123 | Keeps the active agent or asks the classifier, and stores the new routing state |
| Router.RoutingState.IncrementTurn | p8/agentic/types.py:256-260 | One more turn; at the limit the state asks for evaluation |
| Router.CallsAreExpected | p8/agentic/routing.py:103-123 | Over any messages and completions the classifier is asked once at the start of each period of max_turns + 1 messages since the last completion |
| Router.CallsAreCeil | p8/agentic/routing.py:103-123 | Without completions n messages need ceil(n / (max_turns + 1)) classifications |
| Router.AgentKeepsPeriod | p8/agentic/routing.py:107-123 | Every message is answered by the agent chosen at the start of its period |
| Router.TurnsAreBounded | p8/agentic/types.py:238-260 | The turn count stays between 0 and max_turns |
| Router.NamelessAgentIsAskedAgain | p8/agentic/routing.py:107-110 | Why agent names must not be empty |
| Sse.FormatContentChunk | p8/agentic/streaming.py:36-66 | The printed chunk, the role in the first one only, and the text that the state accumulates |
| Sse.ChunkReads | p8/agentic/streaming.py:36-66 | A reader of a printed chunk finds the request's id, model and time, one choice, the role in the first delta only, the content where there is some, and the reason to finish or null |
| Sse.FormatChildEvent | p8/agentic/streaming.py:74-128 | What is forwarded for any raw text, the cases that raise included |
| Sse.ContentSurvives | p8/agentic/streaming.py:36-128 | Forwarding the chunks of any deltas raises nothing and gives content events whose contents make up the text exactly; empty deltas give none |
| Sse.ContentSurvivesWithDone | p8/agentic/streaming.py:69-82 | The final marker gives none either |
| Sse.StreamContent | p8/agentic/types.py:383-390 | The accumulated text of a response is the concatenation of its deltas |
| Sse.ToolCallSurvives | p8/agentic/streaming.py:104-115 | A started call is forwarded with its arguments, a completed one with its result, tool and id unchanged, and parses back to that |
| Sse.EventParses | p8/agentic/streaming.py:22-92 | A printed named event parses to its name and its text |

## Left out

- The HTTP layer, authentication of requests, email, Slack, S3, Whisper, images, the command line and its display lines and row counts: input, output and presentation.
- pydantic-ai agents, tools, prompts and the adapter around the multiplexer: library plumbing.
- Vault key management: network calls with the same interface as the local key file.
- AES-GCM, RSA-OAEP, SHA-256, base64, UTF-8 and JSON are functions with inverse laws, and where a theorem needs it, injectivity or one-line text; malformed public keys are not modelled.
- Multiplexer.MergedEventStream: cancellation of the generator itself, and the exceptions a consumer may throw into it, are not modelled; a cancelled get that is not finished leaves the queue alone.
- Migration.ConvergesIffMigratable: statements that fail because of the stored data (type changes, SET NOT NULL, NOT NULL columns without a default, unique indexes) or of permissions are not modelled, nor are names that need quoting (of tables, columns and types: they are printed bare), names with dots, a name that a table shares with an index, a sequence or a type, columns whose type is the row type of a table, aggregates and the functions and indexes that the diff ignores, and the choice among overloaded functions in a call. Which changes of type something depending on a column survives does not change during the script.
- KeyTable.LocalFileKMS.UnwrapDek: a stored key that does not open raises in the program and is None here; no run of the modelled calls stores one.
- SqlReader.ReadsBack: what the database makes of the definitions that its catalog printed, and of default expressions, is a parameter; only the statements that the program writes itself are read word by word.
- SqlSplit.SplitterAgreesIff: the lexer knows dollar quotes and comments that run to the end of the line; string literals, block comments, tags with digits and dollar signs within names are not modelled.
- SqlSplit.SplitterAgreesWithLexer: a sufficient condition that can be seen at a glance; the exact one is SqlSplit.SplitterAgreesIff.
- SqlSplit.SplitsOutsideQuotes: a sufficient condition for one statement; the exact one for a script is SqlSplit.SplitsAsLexedIff.
- EncryptionRuns.StaleEntryAnswers: the clock stands still during the call and the time to live is above 0; with 0 nothing is ever taken from a cache.
- EncryptionRuns.CachedRun: one service instance whose calls do not overlap; other instances and awaits inside one call are not modelled.
- RoundTrip.WriteThenRead: rows without an encryption level, written before it existed, and `find`, `get` and the JSON columns' own parsing are not modelled.
- UpsertSql.BulkIsEachIff: it is about existing rows; for new rows the statement inserts NULL in columns that only other entities have, where single upserts take the default.
- AuthCodes.SingleUse: one step for each SQL statement; the user lookup and the signing of tokens after the checks, client registration and callbacks' own provider exchange are not modelled.
- Quota.Overshoot: the plan of the user is fixed; storage quotas and the plan cache are not modelled.
- Billing.CreditIsConserved: one checkout and at most one refund event for each payment intent, as add-on sales are meant; without that there is Billing.CreditAfterDeliveries.
- AudioPacking.MergeSegments: audio is a sequence of milliseconds, so lengths add up exactly; splitting at silence and the single-buffer case are not modelled.
- Embeddings.ClaimedItemsAreCurrent: the texts do not change while the batch runs; a change after the text was read is unqueued together with it.
- Embeddings.EmbeddingService.ClaimBatch: the claimed items come back in the order of their creation, which SQL does not promise.
- Reading.ReadingTracker.RecordReading: timestamps, the mosaic image and the companion session are not modelled, and calls do not overlap.
- Sse.ContentSurvives: the text of an event is the model's JSON object; the loop of the caller that puts forwarded events on a queue is the function `AllSent`.
- The worker queue, memory and search are SQL functions of their own and are not part of this model.
- Magic links, refresh tokens, users and tenants: easy compared with the code store.
