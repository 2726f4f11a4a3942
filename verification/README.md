# A verified model of the API's limits, migrations and settings

This project models, in Dafny, the parts of the trading-intelligence API whose correctness is not
visible from one function body, and proves what holds of them over every input, run or
interleaving.

- **Rate limiting.** `RateLimit` models the in-memory limiter (bucket objects updated in place) and
  the Redis limiter (an atomic script on a store that several workers share). `Windows` defines a
  reference that knows neither a store nor a limit: the windows of a timed run and the place of each
  call in its window. Both limiters are proved to allow exactly the calls whose place is within the
  limit, and `LimiterLaws` derives their laws from that: agreement, exact counts per window,
  monotonicity, independence of keys, and the bound on sliding intervals.
- **The middleware.** `Middleware` models one dispatch; `Interleaving` models any number of requests
  in flight, each moving one step at a time over one limiter, with backend faults and cancellation at
  any point; `Dispatching` states what holds in every reachable state, and that the one-dispatch
  model is one of its runs.
- **Migrations.** `Schema` is a database with tables, columns, indexes, keys, checks and rows, on which
  every statement can fail. `Naming` gives constraints the names they get in the database from the
  convention of the metadata. `SchemaUndo` and `SchemaShape` prove that the reversed inverses of a
  program of creating statements undo it, also after any change to the rows; `Narrowing` treats checks
  that are widened and narrowed again; `SchemaReady` says when the usual statements succeed.
  `CredentialRefs` and `ChartScreenshots` apply this to three migrations, statement by statement;
  `CredentialRefsReady` and `ChartScreenshotsReady` say on exactly which databases these succeed, and
  `CredentialRefsResult` and `ChartScreenshotsResult` what they leave there: which rows the new tables
  accept (`RowChecks`), what they refer to, and what stays as it was.
- **Settings.** `SettingsText` (API prefix, comma lists, timeframe targets, horizons), and
  `DatabaseUrl` with its codecs `FormEncoding` and `Utf8` (the URL given to asyncpg).
- **Names, seeds and caches.** `Alias` (camel-case aliases), `Seeding` (default strategy profiles) and
  `Caches` (environment, cached settings and cached engine).

`Wrappers` and `Text` hold the result types and the string operations of Python that the code calls.
`dafny verify dfyconfig.toml` checks everything.

## What the proofs show about the code

- The bound on allowed calls in an interval of k minutes is (k + 1) * limit - 1, one less than the
  count of windows suggests, and it is sharp.
- The two limiters agree on every run exactly when the limit is at least 1, which the settings
  require: below that, memory still admits the call that opens a window and Redis does not.
- `validate_api_prefix` does not always accept its own result unchanged: `"/ /"` becomes `"/ "`, and
  that becomes the empty prefix. The exact condition is that no white space comes right before the
  slashes at the end of the trimmed value.
- A request id sent back as a header resolves to itself exactly when the trimmed header has at most 128
  characters or no white space as its 128th; from the second application on it always does.
- Two different requests share a key of the rate limiter exactly when the host of one is the host of the
  other followed by the other's method and a non-empty beginning of its path, and the rest of that path
  is made of the one's method and path. That takes a slash in a host; without one the key is
  unambiguous, colons included. Clients without a host, with an empty one and with the host "unknown"
  share one budget.
- A request escapes the key check and the rate check exactly when its method is GET, HEAD or OPTIONS,
  or when its path, after the API prefix if it begins with that, is `/health` or begins with `/health/`.
- The hardening migration for chart screenshots names its check in full, but not through `op.f`, so that
  the naming convention is applied to it once more. The name it drops is not the one that the earlier
  migration makes: as long as the table has no other checks than that migration's, its upgrade and its
  downgrade both fail. On a consistent database the upgrade succeeds exactly when a check exists under
  the expanded name, the status column does, and every status is within the widened set. The downgrade
  succeeds exactly when a check exists under the expanded name, the rewriting of the rows is itself
  accepted, and every status is within the widened set.
- A body length declared in decimal is held against its limit, unless it has more than 4300 digits: that
  is no integer to Python, and a length that is none passes the check.
- `build_async_database_url` is idempotent on every text. The two slashes after the scheme are lost
  exactly when neither an authority nor two more slashes follow them, as in `postgresql:///db`, because
  urllib does not know the scheme; the result is then no longer recognised.
- `configure_database_url` clears the settings but not the engine: an engine that was built before
  stays, and agrees with the new environment exactly when it already connects to the same URL. The
  variable that is named decides; TEST_DATABASE_URL counts only when that one is absent.
- After the credential upgrade a row of credentials satisfies the checks exactly when its type, its
  status and the result of its last test are null or among the listed ones; a null passes, as in SQL,
  and it is the columns that are required. Credentials go with their workspace; the five referring
  tables and the connection tests outlive them.
- A field name can be recovered from its alias exactly when every underscore is followed by a letter;
  every other name shares its alias with one of those.

## Model

| member | source | states |
|---|---|---|
| RateLimit.InMemoryRateLimiter.constructor | apps/api/app/core/rate_limit.py:40-41 | a new limiter has no bucket |
| RateLimit.InMemoryRateLimiter.Allow | apps/api/app/core/rate_limit.py:43-52 | on bucket objects updated in place: no two keys share a bucket, and buckets and answer are one step of the window automaton |
| RateLimit.InMemoryRateLimiter.Close | apps/api/app/core/rate_limit.py:54-55 | closing forgets every bucket |
| RateLimit.RedisStore.Eval | apps/api/app/core/rate_limit.py:61-65 | the script increments and, on the first count, sets the expiry, in one atomic step |
| RateLimit.RedisRateLimiter.Allow | apps/api/app/core/rate_limit.py:71-77 | the answer compares the count with the limit; a fault is reported as unavailable, and a lost reply still counts |
| Windows.MemoryExact | apps/api/app/core/rate_limit.py:43-52 | in every run the in-memory limiter allows a call exactly when its place in its window is within the limit |
| Windows.RedisExact | apps/api/app/core/rate_limit.py:61-77 | so does the Redis limiter, whichever workers made the calls and although it counts refused ones |
| Windows.MemoryCoupling | apps/api/app/core/rate_limit.py:43-52 | every bucket of every reachable state holds the start of the key's window and its calls capped at the limit |
| Windows.RedisCoupling | apps/api/app/core/rate_limit.py:61-77 | every counter holds the uncapped number of calls and expires one window after its start |
| LimiterLaws.LimitersAgree | apps/api/app/core/rate_limit.py:23-77 | behind the one protocol, both limiters decide every call of every timed run alike |
| LimiterLaws.AgreementNeedsPositiveLimit | apps/api/app/config.py:207 | they agree on all runs if and only if the limit is at least 1, as the settings require |
| LimiterLaws.StatesCoupled | apps/api/app/core/rate_limit.py:43-77 | after any run both know the same windows, and the memory count is the Redis count capped at the limit |
| LimiterLaws.MonotoneInLimit | apps/api/app/core/rate_limit.py:46-52 | a higher limit allows every call that a lower one allows |
| LimiterLaws.WindowExact | apps/api/app/core/rate_limit.py:43-77 | of the calls in a window exactly min(calls, limit) are allowed, the same ones by both limiters |
| LimiterLaws.EarliestAllowed | apps/api/app/core/rate_limit.py:49-52 | the allowed calls of a window are its earliest |
| LimiterLaws.KeysDoNotInterfere | apps/api/app/core/rate_limit.py:45-52 | a call is decided as in the run without the other keys |
| LimiterLaws.MemoryCallsCommute | apps/api/app/core/rate_limit.py:43-52 | calls with different keys at one instant can be swapped, with the same answers and the same buckets |
| LimiterLaws.RedisCallsCommute | apps/api/app/core/rate_limit.py:61-77 | so can they on the shared store |
| LimiterLaws.NoPermanentCounter | apps/api/app/core/rate_limit.py:61-65 | every counter of every reachable store has an expiry, the one set by the call that opened its window |
| LimiterLaws.ExpiresSoon | apps/api/app/core/rate_limit.py:61-65 | and it expires after the key's last call, at most a window later |
| LimiterLaws.IdleKeyAllowed | apps/api/app/core/rate_limit.py:46-48 | a key idle for a minute is allowed next, by both limiters |
| LimiterLaws.SlidingBound | apps/api/app/core/rate_limit.py:43-77 | over every ordered run, an interval of k minutes holds at most (k + 1) * limit - 1 allowed calls of one key |
| LimiterLaws.SlidingBoundAttained | apps/api/app/core/rate_limit.py:43-77 | for every limit and k some run reaches that bound, with both limiters |
| RateLimitKey.KeyText | apps/api/app/core/rate_limit.py:122-124 | the key is the prefix, the host, the method and the path, with colons between them; a missing host, an empty one and "unknown" have the same key |
| RateLimitKey.ParseOfKey | apps/api/app/core/rate_limit.py:122-124 | for every non-empty host without a slash, every method without a colon or a slash and every path that starts with a slash, host, method and path can be read back from the key |
| RateLimitKey.KeysAgreeExactly | apps/api/app/core/rate_limit.py:122-124 | two requests from hosts without slashes share a budget exactly when client, method and path agree, where a missing host, an empty one and "unknown" are one client |
| RateLimitKey.HostsKeptApart | apps/api/app/core/rate_limit.py:122-124 | two different non-empty hosts without slashes never share a key |
| RateLimitKey.KeysCollideExactly | apps/api/app/core/rate_limit.py:122-124 | for all non-empty hosts: two requests share a key if and only if they are the same, or the host of one is that of the other with its method and a non-empty beginning of its path, whose rest gives the one's method and path |
| RateLimitKey.CollisionNeedsSlash | apps/api/app/core/rate_limit.py:122-124 | so different requests that share a key need a slash in one host and a colon in the other's path |
| RateLimitKey.SlashInHostCollides | apps/api/app/core/rate_limit.py:122-124 | two such requests |
| Text.StripOfPadded | apps/api/app/core/middleware.py:51-53 | whatever white space surrounds a text that neither begins nor ends with any, stripping gives the text |
| Middleware.ResolveRequestId | apps/api/app/core/middleware.py:49-53 | every request gets an id of 1 to 128 characters |
| Middleware.RequestIdMeans | apps/api/app/core/middleware.py:49-53 | without a header or with a blank one the id is the fresh one, else the header without the white space around it, cut to 128 characters |
| Middleware.ResolvedIdFixed | apps/api/app/core/middleware.py:49-53 | an id sent back resolves to itself exactly when the trimmed header has at most 128 characters or no white space as its 128th |
| Middleware.CutIdNotFixed | apps/api/app/core/middleware.py:49-53 | headers on which it does not |
| Middleware.ResolvedTwiceIsFixed | apps/api/app/core/middleware.py:49-53 | from the second application on, resolving an id is a fixed point |
| Middleware.SizeCheckMeans | apps/api/app/core/middleware.py:67-87 | the size check refuses with 413, and the code of the kind of body, exactly the headers that read as an integer over the limit of that kind |
| Middleware.DecimalLength | apps/api/app/core/middleware.py:71-84 | a length written in decimal passes exactly when it is within the limit or has more than 4300 digits, uploads being the bodies whose type begins with "multipart/form-data" |
| Integers.ReadDecimal | apps/api/app/core/middleware.py:71-74 | a number written in decimal is read back exactly when it has at most 4300 digits |
| Integers.DecimalDigits | apps/api/app/core/middleware.py:71-74 | the decimal form of a number, digit by digit |
| Integers.SignedDecimal | apps/api/app/core/middleware.py:71-74 | a sign may stand before it |
| Integers.BlanksSkipped | apps/api/app/core/middleware.py:71-74 | and blanks around it make no difference |
| Integers.UnderscoreBetweenDigits | apps/api/app/core/middleware.py:71-74 | nor does an underscore between two digits |
| Integers.NumbersExactly | apps/api/app/core/middleware.py:71-74 | a text without a sign is a number exactly when it is made of digits and of underscores between two of them |
| Middleware.OpenRequests | apps/api/app/core/middleware.py:92-93 | a request is exempt exactly when its method is GET, HEAD or OPTIONS, or its path, without the prefix it may begin with, is /health or begins with /health/; it is limited exactly when limiting is on and it is not exempt |
| Middleware.OneKeySupplied | apps/api/app/core/middleware.py:103-105 | every request supplies exactly one key: the configured header unless it is missing or empty, then the standard one, then the empty key |
| Middleware.NoKeyAsked | apps/api/app/core/middleware.py:89-93 | the key check lets pass every request of those methods and paths, and every request unless authentication is on in dev mode |
| Middleware.KeyAsked | apps/api/app/core/middleware.py:89-113 | of every other request: 500 without a configured key, an exception exactly when one of the two keys holds a character over 127, otherwise it passes exactly when they are equal, with 401 for the rest |
| Middleware.NoLimitAsked | apps/api/app/core/middleware.py:115-119 | a request that passed both checks makes no limiter call when limiting is off, its method only reads, or its path is a health path |
| Middleware.LimitAsked | apps/api/app/core/middleware.py:115-141 | every other one makes exactly one call under its own key: allowed it passes, refused it gets 429, and 503 when the store cannot be reached, which leaves the counters alone, or when its reply is lost, which counts |
| Middleware.OperationsMiddleware.constructor | apps/api/app/core/rate_limit.py:116-119 | the middleware uses Redis exactly when a store is configured, and starts with an empty log |
| Middleware.OperationsMiddleware.EnforceRateLimit | apps/api/app/core/middleware.py:115-141 | the limiter is called exactly for requests that are not exempt while limiting is on; 429 for a refusal, 503 for an unavailable backend |
| Middleware.OperationsMiddleware.Guard | apps/api/app/core/middleware.py:55-65 | size, then key, then rate; the first refusal ends it, and an earlier one leaves the limiter alone |
| Middleware.OperationsMiddleware.Dispatch | apps/api/app/core/middleware.py:25-47 | reply, handler call, limiter and log of one dispatch on the mutable limiter are those of the pure pipeline: a response is logged with its status, as failed from 400 on, an exception as a failed 500, a cancellation not at all |
| Interleaving.KeepsStep | apps/api/app/core/middleware.py:25-65 | every step of every request keeps the invariant of the whole system: passed checks, tickets, limiter history and log |
| Interleaving.KeepsRun | apps/api/app/core/middleware.py:25-65 | so does every interleaving of any length |
| Dispatching.HandlerRunsOnlyWhenAdmitted | apps/api/app/core/middleware.py:34-37 | in every reachable state a handler that ran had passed size and key check and, unless its method only reads, its path is a health path or limiting is off, holds its own limiter call with a place within the limit |
| Dispatching.UnavailableNeverRuns | apps/api/app/core/middleware.py:125-141 | a request refused by the limiter, or for which the backend was unavailable, never reaches its handler |
| Dispatching.LimiterSeesOnlyCheckedRequests | apps/api/app/core/middleware.py:55-65 | the limiter state is that of its recorded calls, each made under its own key by one request that had passed both checks, with a method that does not only read and no health path; others leave no trace |
| Dispatching.HandlerRunsBounded | apps/api/app/core/middleware.py:25-65 | for every interleaving, every client host, every method but GET, HEAD and OPTIONS and every path that is no health path: at most (k + 1) * limit - 1 of its requests admitted within k minutes run their handler |
| Dispatching.DecidedByOwnScope | apps/api/app/core/middleware.py:120-130 | what a limited request is told depends only on the earlier limiter calls with its own key |
| Dispatching.OwnCallsAreOwnScope | apps/api/app/core/middleware.py:120-124 | and those are the calls of the same client, method and path, for hosts without slashes |
| Dispatching.RequestsAreAccountedFor | apps/api/app/core/middleware.py:31-47 | in every reachable state the requests that are over and were answered are exactly those with a log record, one each, with their own id and status, failed from 400 on, or as a failed 500 for an exception; the failed records are as many as those requests |
| Dispatching.DispatchIsARun | apps/api/app/core/middleware.py:25-47 | one dispatch is the run in which a request arrives and makes all its moves: the same limiter, the same log, the same reply, and the handler runs in the same cases |
| Naming.Shortened | apps/api/app/db/base.py:4-10 | names made by the convention fit the database: short ones stay, long ones keep 55 characters |
| Naming.ShortNames | apps/api/app/db/base.py:4-10 | names of up to 63 characters are the convention applied to table, columns and given name; a name marked as final is kept |
| Naming.LongName | apps/api/app/db/base.py:4-10 | a longer one is its first 55 characters, an underscore and the last four of its digest |
| SchemaLaws.KeepsWf | apps/api/alembic/versions/202605032100_add_provider_credential_refs.py:21-181 | every accepted statement keeps the database consistent: constraints hold, references and indexes resolve, keys have their index, names stay distinct |
| SchemaLaws.RowsStayConsistent | apps/api/alembic/versions/202605032100_add_provider_credential_refs.py:21-181 | after any accepted program on a consistent database every row has the columns of its table, satisfies all its checks, and refers with each foreign key to nothing or to a row that is there |
| SchemaUndo.InverseUndoes | apps/api/alembic/versions/202605032100_add_provider_credential_refs.py:158-181 | after any accepted creating statement its inverse is accepted and restores the database |
| SchemaUndo.UndoRestores | apps/api/alembic/versions/202605032100_add_provider_credential_refs.py:136-155 | wherever a program of creating statements succeeds, the reversed inverses succeed at every step and restore the database |
| SchemaShape.SameShapeExactly | apps/api/alembic/versions/202605032100_add_provider_credential_refs.py:136-155 | two databases have the same schema exactly when they have the same indexes and tables, and the tables the same columns, keys and checks |
| SchemaShape.UndoAfterAnyData | apps/api/alembic/versions/202605032100_add_provider_credential_refs.py:136-155 | the same when the rows changed in any way in between, up to the rows |
| Migrations.Operations.Execute | apps/api/alembic/versions/202605032100_add_provider_credential_refs.py:159-175 | a statement takes effect or raises and changes nothing |
| CredentialRefs.AddNullableCredentialRef | apps/api/alembic/versions/202605032100_add_provider_credential_refs.py:158-175 | column, foreign key, index, in this order; it raises exactly when one of them is refused |
| CredentialRefs.DropNullableCredentialRef | apps/api/alembic/versions/202605032100_add_provider_credential_refs.py:178-181 | index, foreign key, column, in this order; it raises exactly when one of them is refused |
| CredentialRefs.Upgrade | apps/api/alembic/versions/202605032100_add_provider_credential_refs.py:21-133 | the upgrade runs its program in one transaction: all of it, or nothing when a statement fails |
| CredentialRefs.Downgrade | apps/api/alembic/versions/202605032100_add_provider_credential_refs.py:136-155 | the downgrade does the same with its own program |
| CredentialRefs.UndoOfAddRef | apps/api/alembic/versions/202605032100_add_provider_credential_refs.py:158-181 | for every table name, the drop helper issues the reversed inverses of the add helper |
| CredentialRefs.DowngradeIsUndo | apps/api/alembic/versions/202605032100_add_provider_credential_refs.py:129-155 | the downgrade is the reversed program of inverses of the upgrade |
| CredentialRefs.DowngradeUndoesUpgrade | apps/api/alembic/versions/202605032100_add_provider_credential_refs.py:21-155 | wherever the upgrade succeeds the downgrade succeeds at every step, after any change to the rows, and restores the schema; the whole database when no row changed |
| CredentialRefs.DowngradeSparesOtherRows | apps/api/alembic/versions/202605032100_add_provider_credential_refs.py:136-155 | and keeps the rows of every table the migration does not touch |
| SchemaReady.BlockSucceedsExactly | apps/api/alembic/versions/202605032100_add_provider_credential_refs.py:22-74 | a new table with its indexes is created exactly when their names and that of its key are free and the tables it refers to exist |
| SchemaReady.ReferenceSucceedsExactly | apps/api/alembic/versions/202605032100_add_provider_credential_refs.py:158-175 | a referring column with its foreign key and index is added exactly when the table exists, has no such column, and the two names are free and not too long |
| CredentialRefsReady.AddRefSucceedsExactly | apps/api/alembic/versions/202605032100_add_provider_credential_refs.py:158-175 | adding a reference succeeds exactly when the table exists and the names it needs are free |
| CredentialRefsReady.RefsChecksApart | apps/api/alembic/versions/202605032100_add_provider_credential_refs.py:53-66 | the first table has its three checks, whatever the digest |
| CredentialRefsReady.TestsChecksApart | apps/api/alembic/versions/202605032100_add_provider_credential_refs.py:102-110 | the second table has its two checks exactly when the digest tells their shortened names apart |
| CredentialRefsReady.UpgradeSucceedsExactly | apps/api/alembic/versions/202605032100_add_provider_credential_refs.py:21-133 | the upgrade succeeds exactly when the workspaces exist, its names, those of its keys included, are free, and each referring table can take its column |
| CredentialRefsReady.NeededTablesSuffice | apps/api/alembic/versions/202605032100_add_provider_credential_refs.py:21-133 | it succeeds on the consistent database that holds just the tables it refers to |
| CredentialRefsResult.CredentialRows | apps/api/alembic/versions/202605032100_add_provider_credential_refs.py:53-66 | wherever the upgrade succeeded, all checks of the credentials hold on a row exactly when its type, its status and the result of its last test are null or among the listed values |
| CredentialRefsResult.CredentialTable | apps/api/alembic/versions/202605032100_add_provider_credential_refs.py:22-69 | the credentials have these columns and one foreign key, to their workspace, with which they go |
| CredentialRefsResult.ConnectionTestRows | apps/api/alembic/versions/202605032100_add_provider_credential_refs.py:102-110 | the same for the type and the result of a connection test, when the digest tells the names of the two checks apart |
| CredentialRefsResult.ConnectionTestTable | apps/api/alembic/versions/202605032100_add_provider_credential_refs.py:75-118 | the connection tests have these columns; they go with their workspace and lose the reference to a credential that goes |
| CredentialRefsResult.ReferringTables | apps/api/alembic/versions/202605032100_add_provider_credential_refs.py:129-170 | each of the five tables gets a nullable column, null in all rows, and a foreign key to the credentials that is set to null with them; its other columns, constraints and values stay |
| CredentialRefsResult.ReferringIndexes | apps/api/alembic/versions/202605032100_add_provider_credential_refs.py:171-175 | and an index on that column |
| CredentialRefsResult.NewIndexes | apps/api/alembic/versions/202605032100_add_provider_credential_refs.py:70-128 | the new tables have three indexes, on these columns |
| CredentialRefsResult.OtherTablesStay | apps/api/alembic/versions/202605032100_add_provider_credential_refs.py:21-133 | every other table is as it was |
| Narrowing.ReplaceSucceedsExactly | apps/api/alembic/versions/202604301900_chart_screenshot_hardening.py:35-41 | replacing a check succeeds exactly when no row holds a value outside the new set |
| Narrowing.SafeNarrowing | apps/api/alembic/versions/202604301900_chart_screenshot_hardening.py:31-41 | after the rewriting, narrowing never fails, whatever rows the widened check let in, and ends with exactly the narrow check |
| Narrowing.RewriteKeepsNarrowRows | apps/api/alembic/versions/202604301900_chart_screenshot_hardening.py:32-34 | rows within the narrow set are not rewritten |
| Narrowing.NarrowingUndoesWidening | apps/api/alembic/versions/202604301900_chart_screenshot_hardening.py:21-41 | whatever rows a widened table came to hold, narrowing it restores the schema from before |
| Narrowing.WidenCreateRoundTrip | apps/api/alembic/versions/202604291430_chart_screenshot_runs.py:21-236 | any migration that widens a check and then creates things is taken back by dropping them, rewriting the rows and narrowing the check |
| ChartScreenshots.UpgradeHardening | apps/api/alembic/versions/202604301900_chart_screenshot_hardening.py:21-28 | the hardening upgrade runs its program, on the name the convention makes, in one transaction |
| ChartScreenshots.DowngradeHardening | apps/api/alembic/versions/202604301900_chart_screenshot_hardening.py:31-41 | so does its downgrade |
| ChartScreenshots.HardeningRoundTrip | apps/api/alembic/versions/202604301900_chart_screenshot_hardening.py:21-41 | where the statuses are checked under the expanded name, the upgrade succeeds, and after it, on any rows that satisfy the widened check, the downgrade succeeds and restores the schema |
| ChartScreenshotsReady.HardeningSucceedsExactly | apps/api/alembic/versions/202604301900_chart_screenshot_hardening.py:18-28 | on a consistent database the upgrade succeeds if and only if a check exists under the expanded name and the statuses are within the widened set |
| ChartScreenshotsReady.RewriteReadyExactly | apps/api/alembic/versions/202604301900_chart_screenshot_hardening.py:31-41 | on a consistent database, rewriting rows and then replacing a check succeeds if and only if the check exists, the rewriting is accepted, and every value is in the narrow set or the removed one |
| ChartScreenshotsReady.HardeningDowngradeSucceedsExactly | apps/api/alembic/versions/202604301900_chart_screenshot_hardening.py:31-41 | on a consistent database the downgrade succeeds if and only if a check exists under the expanded name, the rewriting is accepted, and the statuses are within the widened set |
| ChartScreenshotsReady.HardeningFailsOnOwnChecks | apps/api/alembic/versions/202604301900_chart_screenshot_hardening.py:18-41 | on any database whose table has no checks but those of the earlier migration, both directions fail |
| ChartScreenshotsReady.HardeningFailsAfterRuns | apps/api/alembic/versions/202604301900_chart_screenshot_hardening.py:18-41 | so they do on the database that the earlier migration leaves, whatever rows have come since |
| ChartScreenshots.UpgradeRuns | apps/api/alembic/versions/202604291430_chart_screenshot_runs.py:21-198 | the chart-screenshot upgrade runs its program in one transaction |
| ChartScreenshots.DowngradeRuns | apps/api/alembic/versions/202604291430_chart_screenshot_runs.py:201-236 | so does its downgrade |
| ChartScreenshots.UndoOfCreate | apps/api/alembic/versions/202604291430_chart_screenshot_runs.py:33-222 | its drops are the reversed inverses of what the upgrade creates |
| ChartScreenshots.RunsRoundTrip | apps/api/alembic/versions/202604291430_chart_screenshot_runs.py:21-236 | after the upgrade, on any rows that satisfy its constraints, the downgrade succeeds at every step, restores the schema, rewrites only the removed source type and keeps the rows of other tables |
| ChartScreenshotsReady.RunsSucceedsExactly | apps/api/alembic/versions/202604291430_chart_screenshot_runs.py:21-198 | on a consistent database the upgrade succeeds if and only if the source types are checked and within the widened set, its names are free, the tables it refers to exist, and candles can take the reference |
| ChartScreenshotsReady.NeededTablesSuffice | apps/api/alembic/versions/202604291430_chart_screenshot_runs.py:21-198 | it succeeds on the consistent database that holds just the tables it needs |
| ChartScreenshotsResult.ScreenshotRows | apps/api/alembic/versions/202604291430_chart_screenshot_runs.py:94-129 | wherever the upgrade succeeded, all checks of the runs hold on a row exactly when its status and hypothesis are among the listed values, its confidences between 0 and 1 and its counts not negative, nulls aside |
| ChartScreenshotsResult.ScreenshotKeys | apps/api/alembic/versions/202604291430_chart_screenshot_runs.py:130-160 | what a run refers to, and whether it goes, stays or keeps the other from going when that is deleted |
| ChartScreenshotsResult.ScreenshotColumns | apps/api/alembic/versions/202604291430_chart_screenshot_runs.py:33-93 | the columns of the new table, in order |
| ChartScreenshotsResult.ScreenshotIndexes | apps/api/alembic/versions/202604291430_chart_screenshot_runs.py:162-198 | its indexes, and that of the candles |
| ChartScreenshotsResult.CandlesTable | apps/api/alembic/versions/202604291430_chart_screenshot_runs.py:182-193 | the candles get a nullable column, null in all rows, and a foreign key to the runs that is set to null with them; nothing else about them changes |
| ChartScreenshotsResult.SourcesWidened | apps/api/alembic/versions/202604291430_chart_screenshot_runs.py:22-32 | the check of the sources allows the six types, and nothing else about them changes |
| ChartScreenshotsResult.OtherTablesStay | apps/api/alembic/versions/202604291430_chart_screenshot_runs.py:21-198 | every other table is as it was |
| ChartScreenshotsResult.SourcesNarrowed | apps/api/alembic/versions/202604291430_chart_screenshot_runs.py:223-236 | wherever the downgrade succeeded the check allows the other five types, rows from a screenshot have become manual seeds, and all other rows are as they were |
| ChartScreenshotsResult.HardeningName | apps/api/alembic/versions/202604301900_chart_screenshot_hardening.py:18-22 | the name under which the hardening migration looks for its check: the convention applied twice, cut to 55 characters, with the end of its digest |
| ChartScreenshotsResult.StatusesWidened | apps/api/alembic/versions/202604301900_chart_screenshot_hardening.py:21-28 | wherever the hardening upgrade succeeds it allows the eight statuses, and changes nothing else in the database |
| ChartScreenshotsResult.StatusesNarrowed | apps/api/alembic/versions/202604301900_chart_screenshot_hardening.py:31-41 | wherever its downgrade succeeds the seven statuses are allowed, runs that waited for a review are completed, and all other rows are as they were |
| SettingsText.ValidateApiPrefix | apps/api/app/config.py:464-473 | refused exactly when the trimmed value starts with something else than a slash; otherwise a prefix that is empty or starts with, and does not end with, a slash, and differs from the trimmed value by slashes only |
| SettingsText.PrefixWithoutSlashes | apps/api/app/config.py:464-473 | and it is the trimmed value without the slashes at its end |
| SettingsText.ValidationFixed | apps/api/app/config.py:464-473 | a validated prefix validates to itself exactly when no white space comes right before the slashes at the end of the trimmed value |
| SettingsText.ValidationNotFixed | apps/api/app/config.py:464-473 | a value on which it does not |
| SettingsText.PrefixTransparent | apps/api/app/core/middleware.py:143-147 | for every prefix, a route is public under it exactly when it is public without one |
| SettingsText.ParseByParts | apps/api/app/config.py:475-480 | a comma list is read part by part: each counts without the white space around it, and not at all when it is blank |
| SettingsText.ParseUndoesJoin | apps/api/app/config.py:475-480 | parsing a comma list undoes joining exactly for items that are trimmed, non-empty and comma-free |
| SettingsText.ValidateTargets | apps/api/app/config.py:878-889 | the loop refuses exactly the lists in which every target is blank, and returns the first occurrence of every other target |
| SettingsText.TargetsCanonical | apps/api/app/config.py:878-889 | the targets are trimmed, non-empty, distinct, in first-occurrence order, cover the whole input, and validate to themselves |
| SettingsText.HorizonsCanonical | apps/api/app/config.py:811-818 | the horizons are strictly increasing, hold exactly the positive inputs, depend only on which they are, and validate to themselves; refused exactly when none is positive |
| Utf8.RoundTrip | apps/api/app/config.py:1113-1121 | every text survives the UTF-8 encoding that the query codec uses |
| Utf8.EncodedForm | apps/api/app/config.py:1113-1121 | how many bytes a character takes, and that they carry its value six bits each |
| Utf8.DecodedExactly | apps/api/app/config.py:1101 | a character is read exactly when the bytes begin with its encoding, and U+FFFD in all other cases |
| Utf8.SubpartAgrees | apps/api/app/config.py:1101 | a replacement takes more than one byte only when these begin the encoding of some character |
| Utf8.SubpartIsLongest | apps/api/app/config.py:1101 | and then as many as agree with the encoding of any character (section 3.9 of the Unicode Standard) |
| FormEncoding.ParseUndoesEncode | apps/api/app/config.py:1099-1121 | parsing a printed query gives back its pairs, for all pairs of texts (section 5 of the WHATWG URL Standard) |
| FormEncoding.PrintedByte | apps/api/app/config.py:1118 | which bytes are printed as they are, and how the others are |
| FormEncoding.EscapeRead | apps/api/app/config.py:1101 | a percent sign and two hexadecimal digits of either case are one byte |
| FormEncoding.RunsRead | apps/api/app/config.py:1101 | escapes between characters that are not ASCII are decoded together |
| FormEncoding.FieldsRead | apps/api/app/config.py:1101 | a query is read field by field |
| FormEncoding.FieldRead | apps/api/app/config.py:1101 | a field is divided at its first equals sign; blank values are kept, empty fields are not |
| DatabaseUrl.NormalizeAsyncpgQuery | apps/api/app/config.py:1099-1121 | the loop with its flag computes the normal pairs, where encryption is required exactly when the last sslmode asks for it |
| DatabaseUrl.EncryptionAsked | apps/api/app/config.py:1103-1112 | for every list without an ssl pair, the result asks for encryption if and only if there is an sslmode pair and the last of them is "require", "prefer", "verify-ca" or "verify-full" |
| DatabaseUrl.LastModeDecides | apps/api/app/config.py:1105-1107 | so the last mode decides, whatever came before it |
| DatabaseUrl.OthersOfConcat | apps/api/app/config.py:1104-1110 | filtering distributes over concatenation and drops exactly the keys sslmode and channel_binding: the pairs it keeps stay in order and as often as they were there |
| DatabaseUrl.PairsMeaning | apps/api/app/config.py:1104-1112 | no sslmode and no channel_binding is left, the other pairs come first, at most one pair is added and none when an ssl pair was given, and normal pairs stay as they are |
| DatabaseUrl.BuiltText | apps/api/app/config.py:1084-1121 | the text that is built of authority, path, query and fragment, for all of them: refused exactly for one kind of bracket alone or by the other checks of the authority; the scheme is that of asyncpg, the query printed from the normal pairs, an empty query or fragment left out, and the slashes lost exactly without an authority and without a path of two slashes |
| DatabaseUrl.SchemesAlike | apps/api/app/config.py:1086-1095 | the three schemes of PostgreSQL give the same result |
| DatabaseUrl.OtherSchemes | apps/api/app/config.py:1096 | texts that begin otherwise are returned as they are |
| DatabaseUrl.RemovedCharacters | apps/api/app/config.py:1100 | tabs and line ends make no difference |
| DatabaseUrl.BuiltUrl | apps/api/app/config.py:1084-1121 | a PostgreSQL URL is refused exactly when its authority is; otherwise authority, path and fragment are kept and the query holds the normal pairs, but the slashes after the scheme are lost exactly when neither an authority nor two more slashes follow |
| DatabaseUrl.PathAlone | apps/api/app/config.py:1084-1121 | they are lost for every path alone that does not begin with two slashes |
| DatabaseUrl.SlashesLost | apps/api/app/config.py:1084-1121 | a URL on which they are lost |
| DatabaseUrl.BuildTwice | apps/api/app/config.py:1084-1121 | building is idempotent on every text |
| DatabaseUrl.PrintedUrl | apps/api/app/config.py:1084-1121 | a URL with a printed query becomes the same URL with the asyncpg scheme and the normal pairs printed |
| DatabaseUrl.PoolerPairs | apps/api/app/config.py:1104-1112 | the pairs of a managed pooler become the single pair that asyncpg understands |
| Alias.FirstWordKept | apps/api/app/core/schemas.py:4-6 | the first word of a name is kept as it is |
| Alias.LaterWordCapitalized | apps/api/app/core/schemas.py:4-6 | every later word loses its underscore, gets a capital if it starts with a small letter, and small letters for its later capitals |
| Alias.NameReadBackExactly | apps/api/app/core/schemas.py:4-6 | a field name can be read back from its alias exactly when every underscore is followed by a letter |
| Alias.AliasesCorrespond | apps/api/app/core/schemas.py:4-6 | aliases of such names never collide, and every alphanumeric text is the alias of one |
| Alias.AliasAlphanumeric | apps/api/app/core/schemas.py:4-6 | no alias of a field name holds an underscore |
| Alias.OtherNamesCollide | apps/api/app/core/schemas.py:4-6 | every other name shares its alias with one of those |
| Seeding.StrategyProfiles.Insert | apps/api/alembic/versions/202604291030_strategy_profiles_signals.py:478-508 | an insert skips a key and version already present, raises on a duplicate id alone, and otherwise appends one row; the unique keys hold |
| Seeding.InsertedExactly | apps/api/alembic/versions/202604291030_strategy_profiles_signals.py:478-511 | an insert is skipped exactly when a row has the same key and version, raises exactly when one has the same id only, and else appends an active row |
| Seeding.StrategyProfiles.SeedStrategyProfiles | apps/api/alembic/versions/202604291030_strategy_profiles_signals.py:476-530 | the loop inserts the profiles in order and stops at the first insert that raises |
| Seeding.SeededExactly | apps/api/alembic/versions/202604291030_strategy_profiles_signals.py:476-530 | seeding succeeds exactly when the added rows have ids of their own, and appends exactly the missing profiles |
| Seeding.SeededResult | apps/api/alembic/versions/202604291030_strategy_profiles_signals.py:229-530 | key and version, and ids, stay unique, earlier rows stay, every profile is present, and only absent profiles of the list were added, as active ones |
| Seeding.SeededTwice | apps/api/alembic/versions/202604291030_strategy_profiles_signals.py:476-530 | seeding again changes nothing and cannot fail |
| Caches.Process.ConfigureDatabaseUrl | apps/api/app/cli.py:147-157 | the value of the named variable is stored whatever TEST_DATABASE_URL holds; that one is stored when the named one is absent and the fallback allowed; the settings cache is cleared; otherwise it raises, naming the variable last looked up, and changes nothing |
| Caches.Process.GetSettings | apps/api/app/config.py:1124-1126 | the settings are read once and cached; an exception is not cached |
| Caches.Process.GetAsyncEngine | apps/api/app/db/session.py:15-23 | a cached engine is returned whatever the settings are; otherwise it is built from them and cached |
| Caches.Process.GetAsyncSessionFactory | apps/api/app/db/session.py:26-30 | sessions connect to the URL of that engine |
| Caches.UncachedRead | apps/api/app/db/session.py:15-23 | a process without caches reads the variable DATABASE_URL before the file, and connects to that URL as rewritten for asyncpg |
| Caches.ReadsKeep | apps/api/app/db/session.py:15-23 | reading settings and engine any number of times never changes what is read |
| Caches.ConfiguredAgreesExactly | apps/api/app/cli.py:147-157 | when the configuration was the last change, the settings read after any reads have the configured URL, and the engine is the one for that URL when none had been built, otherwise the one built before |
| Caches.FreshProcessAgrees | apps/api/app/cli.py:24-34 | from a fresh process, whatever was done before the first engine, the engine read after configuring connects to the configured URL as rewritten |
| Caches.EngineIsKept | apps/api/app/db/session.py:15-23 | a built engine is returned for good, through every later change |
| Caches.StaleEngine | apps/api/app/cli.py:155-157 | a configuration after the first engine does not reach it: the settings have the new URL, the engine the old one |

## Left out

Rate limiting and the middleware

- Limiters on two clocks: both limiters are given the same non-decreasing real clock; rounding of floating-point times, and a Redis server whose clock differs or that evicts keys, are not modelled. A counter is taken to be absent once 60 seconds have passed since its expiry was set.
- Workers with the in-memory limiter: each process has its own buckets, so the bounds hold per process; with Redis they hold for all workers together.
- Varying the limit between calls: the settings fix one value for a process.
- Redis connections: creating the client, ping and close are left out; a call that fails is either never carried out or loses its reply.
- Integers.ReadDecimal: `int()` is modelled on Latin-1 text, as headers are decoded; digits of other scripts do not occur there. The limit of 4300 digits is Python's default.
- Dispatch with failing bookkeeping: setting the response header, building the error body and writing the log record are taken not to raise; observability records, durations and error codes in the request state are left out.
- Cancellation: `Interleaving` lets a request be abandoned at every point before it has an answer, with or without the call to Redis that it awaits being carried out, which covers the awaits of the code and more; the results hold for all of these.
- Dispatching.HandlerRunsBounded: the interval is that of the moments at which the limiter admitted the requests, since the code does not bound the time from there to the handler.

Migrations

- CredentialRefsReady.UpgradeSucceedsExactly: the md5 digest in shortened names is a parameter; it must give different endings to the names of the two checks of the second table, which agree in the characters that are kept. Names are counted in characters, and over-long names of tables and columns are not refused.
- CredentialRefsResult.ConnectionTestRows: for digests that give the two checks one name, the table has one check only, and the lemma says nothing of its rows.
- Row constraints: types, NOT NULL, uniqueness and keys over several columns are not checked on rows; a database also refuses statements for them. Foreign keys refer to the one-column primary key, and dropping that column is refused.
- Row changes between upgrade and downgrade: they may be any that leave a consistent database of the same schema; the statements that make them are not modelled.
- Whole-history claims: parallel branches of the revisions create the same tables, so neither an upgrade from empty nor every order of revisions succeeds.
- Downgrades that narrow a check without rewriting rows: `Narrowing.ReplaceSucceedsExactly` says when they succeed, but they are not modelled one by one.
- The other table-creating migrations would be further instances of `SchemaUndo.UndoRestores`.

Settings, names, seeds and caches

- The integers of a comma-separated horizon list, and the many range and non-empty validators of the settings.
- DatabaseUrl.BuiltUrl: the checks that urlsplit makes of a bracketed host and of characters that normalise to delimiters are a parameter, used alike on every call; one kind of bracket without the other is modelled. The URL functions are those of Python 3.12.4 and later, which keep an empty authority before a path of two slashes. Texts with unpaired surrogates, which raise, have no counterpart.
- Alias.NameReadBackExactly: names of small ASCII letters, digits and underscores; the case mapping of other characters is not modelled.
- Seeding.StrategyProfiles.SeedStrategyProfiles: works on any list of profiles, whose other columns are one map; the four default profiles are not spelled out, and identifiers are parameters. The rollback of the migration after an insert that raises is left to its caller.
- Caches.Process.GetSettings: only the database URL is modelled; variable names are compared exactly, although the settings ignore case, and the `.env` file is a constant. Which environments, authorities and URLs make the settings and the engine raise are parameters.
- Job queue, live feeds, signal scoring, FastAPI routes, authentication flows and the web application are not part of this model.
