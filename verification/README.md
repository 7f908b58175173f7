# go-gluons HTTP and logging core, modelled in Dafny

This project models the core of go-gluons, a Go toolkit of HTTP handler plumbing and structured
logging, and proves properties of that model. It covers these parts:

- **Host router** (`hostrouter.dfy`). `HostRouter` keeps its host→handler entries in a list while
  there are few, and in a map once the list would exceed `Threshold`. `HandleHost` and
  `HandlePattern` update it in place. `Build` dispatches by exact host, then by the first matching
  glob pattern, then to the not-found handler. `Clone` copies it.
- **Handler chains of the neo app layer** (`builder.dfy`, `mconv.dfy`, `hconv.dfy`).
  `ChainBuilder` collects middlewares in place. `Build` nests them around the terminal handler.
  The converters move between neo handlers, simple middlewares and `http.Handler`s.
- **Prefix helpers** (`chainutils.dfy`, `hutils.dfy`, `stripprefix.dfy`, `handlerutils.dfy`).
  They run a handler on a path prefix, strip the prefix, record every stripped prefix and rebuild
  the original path.
- **Middlewares** (`reqid.dfy`, `common.dfy`, `hsts.dfy`, `errorhandlers.dfy`,
  `logmiddleware.dfy`): request ids, panic recovery, error-to-status mapping,
  Strict-Transport-Security, the error handlers and the request logger with its colour rules.
- **File servers** (`fileserver.dfy`, `fileserver_local.dfy`). Both cover the serveFile decisions
  (redirects, index.html, directory errors). The first also covers If-Modified-Since (section 3.3
  of RFC 7232) and the 304 header rules (section 4.1 of RFC 7232). The second covers its own
  ordering of these checks and its own error answers.
- **Reverse-proxy directors** (`reverseproxy.dfy`) and **client-IP extraction** (`iputils.dfy`).
- **Logging** (`loglevels.dfy`, `logcore.dfy`, `formatter.dfy`, `logconfig.dfy`, `ansicode.dfy`):
  - level encodings, filters and name round trips;
  - loggers as values, and sink fan-out;
  - level colours and the field-name colour hash;
  - verbosity mapping and log-file naming.

`http.dfy` holds the request/response world the handlers act on. A handler is a function from an
exchange to an outcome. The exchange is the request plus the state Go shares by reference during
one request: the response writer, the request context record and the observable side effects. A
panic is an explicit outcome. `wrappers.dfy` holds `Option`/`Result`. `gostrings.dfy` holds the Go
string functions the core uses.

Operations that loop in the source are methods with loop invariants, proved against a
specification function: `ListToMap`, `MapToList`, `PutHost`, `RemoveHost`, `ScanRightToLeft`,
`HashColoredText`, `MultiSinkLog`, `ClampedLimitIndex`, `LogErrorStack`, `LogError` and others.
Objects whose fields the source updates in place are classes: `HostRouter`, `ChainBuilder` and
`LogInitResult`.

## Model

| member | source | states |
|---|---|---|
| HostRouter.HostRouter.New | http/hostrouter/router.go:27-29 | a new router has Threshold 7, no host container and no patterns |
| HostRouter.StripPort | http/hostrouter/router.go:36-45 | without ':' the input is returned; with ':' and no ']' the result is the text before the first ':'; with ']' the result has no ']' and is the text before it, with a leading '[' removed |
| HostRouter.HostName | http/hostrouter/router.go:31-34 | the host name is the port-stripped host lower-cased character by character, of the same length and with no upper-case ASCII letter |
| HostRouter.HostIndex | http/hostrouter/router.go:119-134 | the index of the first item with the host, or -1 exactly when no item has it |
| HostRouter.ListMap | http/hostrouter/router.go:97-100 | the map built from a list holds exactly the hosts the list holds |
| HostRouter.ListMapAt | http/hostrouter/router.go:97-100 | for a list with unique hosts, each item's host maps to that item's handler |
| HostRouter.ListMapSize | http/hostrouter/router.go:97-100 | for a list with unique hosts, the map has as many entries as the list |
| HostRouter.SizeIsEntryCount | http/hostrouter/router.go:88-96 | the container size the threshold tests use is its number of entries |
| HostRouter.LookupFindsEntries | http/hostrouter/router.go:48-73 | exact lookup, in a list or a map, finds a host exactly when it is an entry, with the entry's handler |
| HostRouter.ListPut | http/hostrouter/router.go:127-135 | a known host is replaced in place (same length, other slots unchanged); an unknown host is appended |
| HostRouter.ListDelete | http/hostrouter/router.go:119-125 | a known host's slot is removed and the order of the rest kept; otherwise the list is unchanged |
| HostRouter.ListPutEntries | http/hostrouter/router.go:127-135 | putting keeps hosts unique and the entries become the old ones with host := handler |
| HostRouter.ListDeleteEntries | http/hostrouter/router.go:119-125 | deleting keeps hosts unique and the entries become the old ones without the host |
| HostRouter.PutHost | http/hostrouter/router.go:127-135 | the replace-or-append loop computes ListPut |
| HostRouter.RemoveHost | http/hostrouter/router.go:118-125 | the find-and-remove loop computes ListDelete |
| HostRouter.ListToMap | http/hostrouter/router.go:96-101 | the list-to-map loop yields exactly the list's entries |
| HostRouter.MapToList | http/hostrouter/router.go:88-94 | the map-to-list loop, in any iteration order, yields a list with unique hosts, the same entries and the map's size |
| HostRouter.HostRouter.ResolveContainer | http/hostrouter/router.go:85-106 | nil becomes an empty list; a map becomes a list when len < Threshold+1; a list becomes a map when len+1 > Threshold; every entry is kept; an unswitched container is untouched |
| HostRouter.HostRouter.HandleHost | http/hostrouter/router.go:108-138 | after resolving, a handler is set (replaced in place in a list, appended when new) and nil removes the host; threshold and patterns unchanged |
| HostRouter.HostAdded | http/hostrouter/router.go:108-138 | setting a host adds it to the entries and grows the size by one only when it was new; the container kind follows the threshold rule |
| HostRouter.HostRemoved | http/hostrouter/router.go:108-138 | removing a host drops it from the entries and shrinks the size by one only when it was there |
| HostRouter.PatternIndex | http/hostrouter/router.go:156-157 | the index of the first pattern item with that pattern, or -1 when there is none |
| HostRouter.FirstMatch | http/hostrouter/router.go:55-60 | the index of the first pattern whose matcher accepts the host, or -1 when none does |
| HostRouter.PatternPutRules | http/hostrouter/router.go:154-167 | patterns stay unique; an unknown pattern is appended even with a nil handler; a known one with nil is removed keeping order; a known one with a handler is replaced in place |
| HostRouter.HostRouter.HandlePattern | http/hostrouter/router.go:140-168 | a pattern without '*' is handled as a host; one with '*' updates only the pattern list, as PatternPut |
| HostRouter.DispatchPrecedence | http/hostrouter/router.go:47-83 | an exact host entry wins; otherwise the first matching pattern runs, and a nil handler there panics with the nil-handler value; otherwise the not-found handler |
| HostRouter.HostRouter.Build | http/hostrouter/router.go:47-83 | building a router without a host container fails with the interface-conversion panic; otherwise the handler is the dispatch over the current entries and patterns |
| HostRouter.HostRouter.Clone | http/hostrouter/router.go:170-211 | the clone is a new router with the same threshold, patterns and entries; an empty container becomes nil; a non-empty container keeps its form and, for a list, its order |
| HostRouter.ReplaceArrayItem | http/hostrouter/router_test.go:11-21 | with Threshold 3, setting host1, host2, host2 leaves a list of two items |
| HostRouter.SwitchToMap | http/hostrouter/router_test.go:43-54 | with Threshold 3, four hosts switch the container to a map of four |
| HostRouter.SwitchBackToArray | http/hostrouter/router_test.go:23-41 | removing two of the four hosts switches back to a list of two |
| HostRouter.PatternsOnlyBuildFails | http/hostrouter/router.go:65 | a router with only patterns cannot be built |
| HostRouter.CloneOfEmptiedBuildFails | http/hostrouter/router.go:178-199 | the clone of a router whose hosts were all removed has a nil container and cannot be built |
| Builder.ChainBuilder.Create | app/neo/builder/builder.go:17-19 | the builder holds the given middlewares in order and no handler |
| Builder.ChainBuilder.Add | app/neo/builder/builder.go:21-24 | middlewares are appended in order; the same builder is returned |
| Builder.ChainBuilder.AddSimple | app/neo/builder/builder.go:26-33 | each simple middleware is wrapped with FromSimple and appended in order |
| Builder.ChainBuilder.Handler | app/neo/builder/builder.go:35-38 | sets the terminal handler, replacing an earlier one |
| Builder.ChainBuilder.Build | app/neo/builder/builder.go:40-52 | the loop from the last middleware to the first yields M0(M1(…(terminal))) |
| Builder.ChainBuilder.BuildHttpFactory | app/neo/builder/builder.go:54-56 | the factory is ToHttpFactory of the built handler |
| Builder.Terminal | app/neo/builder/builder.go:41-44 | the terminal is the handler set, or the default mux adapted with FromHttp |
| Builder.ComposeAppend | app/neo/builder/builder.go:48-50 | composing a concatenated chain nests the second part inside the first |
| Builder.ChainOrder | app/neo/builder/builder.go:48-50 | traced middlewares run in chain order on the way in and in reverse order on the way out |
| Builder.ShortCircuitIgnoresRest | app/neo/builder/builder.go:48-50 | a middleware that never calls next makes everything after it, terminal included, irrelevant |
| Builder.ShortCircuitTrace | app/neo/builder/builder.go:48-50 | the traces of such a chain show only the middlewares before the short circuit |
| MiddlewareConv.SimpleConversions | app/neo/mconv/mconv.go:9-24 | FromSimple and ToSimple are mutually inverse |
| MiddlewareConv.FromHttpHidesErrors | app/neo/mconv/mconv.go:26-52 | a FromHttp middleware never returns an error; the recoverable one never panics |
| HandlerConv.ToHttpFactory | app/neo/hconv/conv.go:21-28 | ToHttpFactory is FuncToHttpFactory of the handler's Run |
| HandlerConv.ErrorSinkCalledIffError | app/neo/hconv/conv.go:8-19 | the error sink is called once exactly when the handler errs and a sink is given |
| HandlerConv.NilErrorHandlerDrops | app/neo/hconv/conv.go:8-19 | without a sink the error is dropped and the state is what the handler left |
| HandlerConv.FromHttpNeverErrs | app/neo/hconv/conv.go:30-36 | a handler made from an http handler returns nil or panics, with the http handler's state |
| HandlerConv.FromHttpRecoverableNeverPanics | app/neo/hconv/conv.go:38-46 | the recoverable adapter never panics, and errs exactly when the http handler panicked |
| ChainUtils.MountDispatch | http/chainutils/utils.go:11-24 | on a prefix match the stripped run's result is returned whatever next is; otherwise next runs |
| ChainUtils.MountRedirectDispatch | http/chainutils/utils.go:26-39 | a path equal to the prefix is redirected with nil error; a longer match runs the stripped handler; otherwise next runs |
| HUtils.StripRequest | http/hutils/utils.go:54-67 | the copy differs only in its path, which is the old one without the prefix |
| HUtils.StripPrefixRuns | http/hutils/utils.go:54-67 | a non-empty prefix runs h on the stripped copy with the same shared state |
| HUtils.StripPrefix | http/hutils/utils.go:55-57 | the empty prefix gives h itself |
| HUtils.RunOnPrefix | http/hutils/utils.go:11-16 | done exactly when the path has the prefix, and then the result is the stripped run |
| HUtils.RunOnPrefixAndRedirectToSlash | http/hutils/utils.go:18-27 | done exactly on a prefix match; the exact prefix gets a 301 to prefix + "/"; a longer path runs stripped |
| HUtils.MountBehaviour | http/hutils/utils.go:29-35 | Mount is the stripped run on a match and nil with nothing changed otherwise |
| HUtils.MountAndRedirectToSlashTrims | http/hutils/utils.go:37-44 | one trailing '/' of the prefix is trimmed before matching |
| StripPrefixes.StrippedPrefixesFromRequest | http/handlerutils/stripprefix.go:15-21 | the recorded list, or empty when none is attached |
| StripPrefixes.WithStrippedPrefixes | http/handlerutils/stripprefix.go:23-26 | the new request carries exactly the given list and the same URL |
| StripPrefixes.ConstructPathFromStripped | http/handlerutils/stripprefix.go:28-36 | the loop yields the recorded prefixes in order followed by the current path |
| StripPrefixes.StripRequest | http/handlerutils/stripprefix.go:42-48 | the prefix is appended to the record and trimmed from the path |
| StripPrefixes.StripRoundTrip | http/handlerutils/stripprefix.go:28-48 | after stripping a prefix the path has, the constructed path is the original one |
| StripPrefixes.StripRecordsUnmatched | http/handlerutils/stripprefix.go:42-48 | an unmatched prefix is still recorded, so the constructed path gains it |
| StripPrefixes.NestedStripRoundTrip | http/handlerutils/stripprefix.go:28-48 | two nested strips record outer then inner and still reconstruct the original path |
| HandlerUtils.OnPrefix | http/handlerutils/handlerutils.go:10-15 | done exactly on a prefix match, running h on the unchanged request |
| HandlerUtils.OnPrefixStripped | http/handlerutils/handlerutils.go:21-26 | done exactly on a prefix match, running h behind the recording StripPrefix |
| HandlerUtils.OnPrefixStrippedRoundTrip | http/handlerutils/handlerutils.go:21-26 | the handler run by OnPrefixStripped can rebuild the original path |
| HandlerUtils.AsWrittenAlwaysPanics | http/handlerutils/handlerutils.go:32-54 | as written, every call panics on the index one past the prefix's end |
| HandlerUtils.TrimmedPrefix | http/handlerutils/handlerutils.go:33-40 | one trailing '/' is removed, otherwise the prefix is kept |
| HandlerUtils.OnPrefixStrippedAndRedirectToSlash | http/handlerutils/handlerutils.go:32-54 | as intended: done exactly when the path has the trimmed prefix; the exact trimmed prefix is redirected; longer paths run with the untrimmed prefix stripped |
| HandlerUtils.RedirectVariantRoundTrip | http/handlerutils/handlerutils.go:50-51 | with a slashed prefix, the handler sees the slashed prefix recorded and can rebuild the path |
| HandlerUtils.MountAndRedirectToSlashPanics | http/handlerutils/handlerutils.go:70-76 | as written, the mounted handler panics with index out of range on every request |
| HandlerUtils.MountAndRedirectToSlashIntendedRuns | http/handlerutils/handlerutils.go:70-76 | as intended, a path under a slashed prefix reaches h stripped and recorded |
| HandlerUtils.MountedHandlers | http/handlerutils/handlerutils.go:62-92 | Mount and HandlerOnPrefix return h's result on a match and nil with nothing changed otherwise |
| RequestId.ParseFromHeaders | http/middleware/reqid.go:68-76 | absent header, no values, a parsed first value or its parse error; only the first value is parsed |
| RequestId.OnlyFirstValueParsed | http/middleware/reqid.go:68-76 | headers with the same first X-Request-Id value parse alike |
| RequestId.WithRequestId | http/middleware/reqid.go:50-51 | the context gets the id and a logger extended with the "reqid" field; stacks unchanged |
| RequestId.InitOrFailHandler | http/middleware/reqid.go:45-53 | fails with a 400 "illegal header" error exactly when the header is present; otherwise a fresh id |
| RequestId.InitOrReuseHandler | http/middleware/reqid.go:55-66 | a parseable first value is adopted, an absent header gets a fresh id, a parse error is a 400 "malformed header" with the cause; an empty value list panics |
| RequestId.RequestIDMiddleware | http/middleware/reqid.go:16-21 | true selects init-or-reuse, false init-or-fail |
| RequestId.InitOrFailRules | http/middleware/reqid.go:23-32 | with the header the error is returned and next never runs; otherwise next runs with the updated context |
| RequestId.InitOrReuseRules | http/middleware/reqid.go:34-43 | next runs with the adopted or fresh id unless parsing failed |
| RequestId.MissingContextPanics | http/middleware/reqid.go:25 | without a request context both middlewares panic before anything else |
| CommonMiddleware.PanicRecoveryRules | http/middleware/common.go:12-19 | the middleware never panics; a panic of next becomes the returned error, with next's state |
| CommonMiddleware.ErrorHandlerRules | http/middleware/common.go:21-44 | a panic of next passes through; a writer that is not the tracking writer panics; a hijacked writer, no error or a written status leave the state alone; otherwise an HttpError writes its code then its header text, another error 500; the error is returned |
| CommonMiddleware.ErrorHandlerWritesAtMostOnce | http/middleware/common.go:28-40 | once a status is written the middleware writes no other |
| Hsts.MaxAgeNameMissing | http/middleware/hsts.go:21-27 | as written, the value is the bare number and the directives, with no "max-age=" in front |
| Hsts.HstsValueParses | http/middleware/hsts.go:10-15 | as intended, the value starts with "max-age=", the number runs to the first ';' and the requested directives follow in order |
| Hsts.HstsSetBeforeNext | http/middleware/hsts.go:18-36 | next sees Strict-Transport-Security set to the one value as written (the bare number and the directives), other headers, status and body untouched, and its result is returned |
| ErrorHandlers.LogError | http/handlerutils/errorhandlers.go:15-18 | the request logger gets one "error-handler: %v" record if it accepts errors; a missing context aborts |
| ErrorHandlers.StatusOnce | http/handlerutils/errorhandlers.go:19-26 | the tracking writer is written only when no status was; any other writer always |
| ErrorHandlers.StatusErrorHandlerWritesOnce | http/handlerutils/errorhandlers.go:13-27 | unless logging aborts, on the tracking writer a fresh response gets exactly the status and one that has a status is not written to |
| ErrorHandlers.StatusErrorHandlerPlainWriter | http/handlerutils/errorhandlers.go:13-27 | unless logging aborts, any other writer gets the status on every call |
| ErrorHandlers.StatusErrorHandlerLogs | http/handlerutils/errorhandlers.go:15-18 | exactly one record is added when logErrors is set, a context is attached and its logger accepts errors, none otherwise |
| ErrorHandlers.StatusErrorHandlerNeedsContext | http/handlerutils/errorhandlers.go:15-18 | the handler aborts exactly when logErrors is set and no request context is attached, and then before anything is written |
| ErrorHandlers.HttpErrorHandlerRules | http/handlerutils/errorhandlers.go:29-47 | an HttpError aborts exactly when it is logged (5xx and logErrors) without a context; otherwise its code and headers are written only when no status was written on the tracking writer |
| ErrorHandlers.HttpErrorHandlerFallback | http/handlerutils/errorhandlers.go:47-48 | other errors go to StatusErrorHandler with the fallback status |
| RequestLogger.StatusColorIndex | http/middleware/logger.go:158-159 | the status colour slot is always inside the colour table |
| RequestLogger.ColoredStatus | http/middleware/logger.go:153-161 | below 100 only the first colour, without the number; otherwise colour, the decimal code, then Reset |
| RequestLogger.StatusClassColors | http/middleware/logger.go:143-160 | 1xx cyan, 2xx green, 3xx magenta, 4xx yellow, 5xx red; the slot is the class minus one |
| RequestLogger.StatusColorsWrap | http/middleware/logger.go:159 | colours repeat every five classes |
| RequestLogger.LeadingExceeded | http/middleware/logger.go:103-109 | the count of leading limits strictly exceeded before the first that is not |
| RequestLogger.ClampedLimitIndex | http/middleware/logger.go:101-112 | the counting loop and clamp compute the leading count, capped at the clamp |
| RequestLogger.SizeColorIndex | http/middleware/logger.go:83-114 | size colour 0 up to 80000, 1 up to 400000, 2 above; the clamp to len(statusColors)−1 never acts |
| RequestLogger.Quo | http/middleware/logger.go:183-184 | Go's truncating division of the nanoseconds |
| RequestLogger.TimeColorIndexAsWritten | http/middleware/logger.go:178-194 | as written the index is clamped to 4 and never reaches the last time colour |
| RequestLogger.TimeColorIndex | http/middleware/logger.go:169-194 | as intended the index is the count of time limits exceeded, 0 to 5 |
| RequestLogger.LeadingExceededBand | http/middleware/logger.go:179-191 | over ascending limits, the count is m exactly when limit m−1 is exceeded and limit m is not |
| RequestLogger.TimeColorBands | http/middleware/logger.go:179-191 | up to 80 ms colour 0; 500–1000 ms colour 3; 1000–2000 ms colour 4; above 2000 ms colour 5 |
| RequestLogger.SlowRequestsShareColor | http/middleware/logger.go:178-194 | a 3 s and a 1.5 s request give the same as-written colour although their bands differ |
| RequestLogger.SizeUnitAsWritten | http/middleware/logger.go:118-135 | as written the unit lookup fails exactly for sizes above 10^12; otherwise the unit's divisor d has d < size ≤ 1000·d |
| RequestLogger.SizeUnitClamped | http/middleware/logger.go:118-135 | as intended the unit is clamped to "gb" with divisor 10^9 |
| RequestLogger.TwoTerabytes | http/middleware/logger.go:128-134 | 2·10^12 bytes makes the as-written lookup fail, and gives gigabytes as intended |
| RequestLogger.NonEmpty | http/middleware/logger.go:75-76 | only non-empty stacks are kept |
| RequestLogger.NonEmptyKeepsEvery | http/middleware/logger.go:75-76 | a stack is kept exactly when it is one of the stacks and non-empty |
| RequestLogger.LogErrorStack | http/middleware/logger.go:73-81 | the loop sends one error record per non-empty stack, numbered by the counter |
| RequestLogger.StackNumbering | http/middleware/logger.go:73-81 | record k carries number k and the k-th non-empty stack |
| RequestLogger.Chain | http/middleware/logger.go:58 | at most ten errors, starting with the error itself |
| RequestLogger.LogError | http/middleware/logger.go:56-71 | the loop logs a "cause" record for each error of the chain that has a message |
| RequestLogger.CauseRecordsShape | http/middleware/logger.go:59-67 | no more records than chain errors, all at the error level with the cause format |
| RequestLogger.RequestLine | http/middleware/logger.go:27-49 | one record at the request level if accepted, with six arguments when bytes were written and five otherwise, the status second |
| RequestLogger.LogMiddlewareRules | http/middleware/logger.go:16-54 | the middleware returns nil even when next errs, keeps next's writer and context, and ends with the request line |
| RequestLogger.LogMiddlewareNeedsTrackingWriter | http/middleware/logger.go:19 | without the status-tracking writer it panics before next runs |
| FileServer.ContainsDotDotIffSegment | http/fileserver/fileserver.go:77-87 | ".." is reported exactly when it is a whole '/'- or '\\'-separated segment; the substring pre-check never changes the answer |
| FileServer.Base | http/fileserver/fileserver.go:120 | path.Base: "." for "", "/" for slashes only, otherwise a non-empty element without '/' |
| FileServer.SplitPath | http/fileserver/fileserver.go:63 | the directory and the file concatenate to the name; the file has no '/' and the directory ends in '/' or is empty |
| FileServer.NewErrDirFound | http/fileserver/fileserver.go:242-246 | 403, kind ErrDirFound, carrying the directory |
| FileServer.NewErrRedirect | http/fileserver/fileserver.go:248-253 | 301, kind ErrRedirect, with the Location header |
| FileServer.ServeFileFsErrors | http/fileserver/fileserver.go:95-104 | an open failure is a 404 and a stat failure a 500, before anything else |
| FileServer.ServeFileIndexRedirect | http/fileserver/fileserver.go:109-111 | a URL ending in /index.html is redirected to "./" once the file opened |
| FileServer.ServeFileCanonicalRedirects | http/fileserver/fileserver.go:113-127 | with redirect on, a directory without a trailing slash goes to Base + "/" and a file with one to "../" + Base |
| FileServer.ServeFileDirectory | http/fileserver/fileserver.go:129-147 | a directory is served through its index.html when that opens and stats, and is a 403 otherwise |
| FileServer.ServedIsFile | http/fileserver/fileserver.go:144-150 | whatever is served is never a directory |
| FileServer.CheckIfModifiedSince | http/fileserver/fileserver.go:163-181 | only GET and HEAD with a non-empty parseable header and a known time are evaluated; unmodified when modtime < t + 1 s |
| FileServer.SubSecondPrecision | http/fileserver/fileserver.go:175-180 | a time later than the header's second but within it is unmodified; a full second later is modified |
| FileServer.WriteNotModified | http/fileserver/fileserver.go:183-196 | Content-Type and Content-Length removed, Last-Modified only when an Etag exists, other headers kept, then 304 |
| FileServer.HandleDirPrelude | http/fileserver/fileserver.go:67-75 | finished exactly when unmodified, with the 304; otherwise Last-Modified is set |
| FileServer.ServeRequestPath | http/fileserver/fileserver.go:45-52 | the path gains a leading '/' when it lacks one, written back into the request, and the cleaned path is served with redirect on |
| FileServer.ServeFile | http/fileserver/fileserver.go:54-65 | a ".." segment is a 400 before anything opens; otherwise the split name is served from its directory with redirect off |
| FileServer.AsWrittenRedirectIs200 | http/fileserver/fileserver.go:29-31 | as written, a redirect on a fresh response ends with status 200 and no Location header |
| FileServer.ServeHTTP | http/fileserver/fileserver.go:24-43 | as intended, a redirect writes 301 with the body untouched; any other error is http.Error with its text and status hint |
| FileServer.RedirectIs301 | http/fileserver/fileserver.go:29-31 | as intended, a fresh response to a redirect has status 301 and the Location header |
| FileServer.MissingFileIs404 | http/fileserver/fileserver.go:16-52 | through the handler as written, a fresh request for a name that does not open is answered 404 |
| LocalFileServer.ErrorText | httputils/fileserver/fileserver.go:266-271 | "application action required" for a zero status hint, otherwise the status text |
| LocalFileServer.IndexRedirectBeforeOpen | httputils/fileserver/fileserver.go:88-93 | the index.html redirect fires before opening, even for missing files |
| LocalFileServer.DirectoryRedirectAlways | httputils/fileserver/fileserver.go:135-144 | a directory URL without a trailing slash is redirected even with redirect off |
| LocalFileServer.DirFoundCarriesFile | httputils/fileserver/fileserver.go:146-168 | a directory without a usable index.html is ErrDirFound with status hint 0 and the open directory |
| LocalFileServer.AgreesOnCanonicalDirectories | httputils/fileserver/fileserver.go:82-172 | both file servers decide alike for a canonical directory URL whose name opens |
| LocalFileServer.LocalRedirect | httputils/fileserver/fileserver.go:176-182 | the query is kept, Location is set and 301 is written |
| LocalFileServer.ServeHTTP | httputils/fileserver/fileserver.go:19-39 | bad request, open and stat errors are answered with their text and hint, a redirect with LocalRedirect, a directory with 403 "Forbidden" |
| LocalFileServer.ServeRequestPath | httputils/fileserver/fileserver.go:41-48 | the path gains a leading '/' and the cleaned path is served with redirect on |
| LocalFileServer.ServeFile | httputils/fileserver/fileserver.go:50-65 | a ".." segment is a 400 "invalid URL path" before anything opens |
| LocalFileServer.ServeFileEmptyPathPanics | httputils/fileserver/fileserver.go:136-138 | an empty request path on a directory panics on the trailing-slash check |
| ReverseProxy.SingleJoiningSlash | http/reverseproxy/reverseproxy.go:37-47 | both slashes: one dropped; neither: one added; otherwise plain concatenation |
| ReverseProxy.JoinSeam | http/reverseproxy/reverseproxy.go:37-47 | the result is a without its trailing '/', one '/', then b without its leading '/'; it starts with a |
| ReverseProxy.AppendQuery | http/reverseproxy/reverseproxy.go:57-63 | the queries are joined with '&' when both are non-empty, otherwise whichever is non-empty |
| ReverseProxy.ClearUserAgentIfNotValid | http/reverseproxy/reverseproxy.go:50-55 | an absent User-Agent is set to ""; a present one is kept |
| ReverseProxy.URLDirector | http/reverseproxy/reverseproxy.go:10-19 | scheme and host of the target, the joined path, the merged query; the header keeps every value and gains User-Agent "" only when absent; the rest of the request unchanged |
| ReverseProxy.HostDirector | http/reverseproxy/reverseproxy.go:21-35 | forceHttp sets "http"; replaceHostHeader moves Host into X-Forwarded-Host and sets the target host; otherwise URL.Host takes Host; other header keys and the rest of the request unchanged |
| IpUtils.Compare | http/handlerutils/iputils.go:17 | bytes.Compare: −1, 0 or 1, and 0 exactly for equal addresses |
| IpUtils.CompareAntisymmetric | http/handlerutils/iputils.go:17 | swapping the arguments negates the comparison |
| IpUtils.CompareTransitive | http/handlerutils/iputils.go:17 | the byte order is transitive |
| IpUtils.IsLanIpAddressAsWritten | http/handlerutils/iputils.go:39-51 | as written: an IPv4-form address whose given bytes fall in one of the ranges |
| IpUtils.FourByteFormMissed | http/handlerutils/iputils.go:41-45 | the 4-byte form of 10.0.0.1 passes the To4 check but is in no range |
| IpUtils.IsLanIpAddress | http/handlerutils/iputils.go:39-51 | as intended: an IPv4 address in either form whose 16-byte form falls in one of the ranges |
| IpUtils.LanAgreesOn16Bytes | http/handlerutils/iputils.go:39-51 | on 16-byte addresses the intended test and the one as written agree |
| IpUtils.TenRange | http/handlerutils/iputils.go:15-27 | 10.b.c.d is in the first range exactly when it is not 10.255.255.255 |
| IpUtils.RangeEndsAreNotLan | http/handlerutils/iputils.go:15-36 | each range's upper bound is outside the half-open range |
| IpUtils.RightmostUsable | http/handlerutils/iputils.go:58-67 | the entry found is a global unicast address that the LAN test as written does not reject |
| IpUtils.ScanRightToLeft | http/handlerutils/iputils.go:58-67 | the right-to-left loop finds the rightmost usable trimmed entry |
| IpUtils.GetClientIPAddress | http/handlerutils/iputils.go:53-70 | X-Forwarded-For then X-Real-Ip, each scanned right to left; "" when nothing qualifies |
| IpUtils.RightmostIsChosen | http/handlerutils/iputils.go:58-67 | the chosen entry is usable and every entry to its right is not |
| IpUtils.ForwardedForFirst | http/handlerutils/iputils.go:54 | a usable X-Forwarded-For entry wins over X-Real-Ip; the result is "" or usable |
| LogLevels.LogLevelFromString | log/utils.go:33-50 | a valid level exactly for the known names; any other name gives ^uint(0) |
| LogLevels.LogLevelString | log/utils.go:52-68 | a valid level's name parses back to it; "msg" exactly for invalid levels |
| LogLevels.NameRoundTrip | log/utils.go:33-68 | every known name but the alias "all" survives the trip through a level |
| LogLevels.LogFilterForLevel | log/utils.go:70-87 | a valid level's filter accepts that level and below; Trace all; Disabled none; an invalid level the Info filter |
| LogLevels.FilterAcceptsOwnLevel | log/utils.go:70-87 | a valid level's filter accepts the level itself, except Disabled |
| LogLevels.PaddedString | log/utils.go:98-106 | the string, then spaces up to the width; never shorter than the string |
| LogCore.MultiSinkLog | log/sinks.go:56-62 | the loop forwards the record to each enabled child in order; disabled children get nothing |
| LogCore.MultiSinkIsEnabled | log/sinks.go:70-77 | enabled exactly when some child is; false with no children |
| LogCore.MultiSinkFlush | log/sinks.go:64-68 | every child is flushed, in order |
| LogCore.New | log/log.go:274-276 | the logger accepts every level and has no fields |
| LogCore.Logf | log/log.go:54-59 | one record with the level, format, arguments and fields exactly when the filter accepts the level |
| LogCore.Log | log/log.go:64-69 | the duplicated Log is Logf with no arguments |
| LogCore.Logv | log/log.go:71-73 | Logf with the empty format |
| LogCore.With | log/log.go:149-154 | one field appended at the end; sink and filter shared |
| LogCore.WithFields | log/log.go:156-161 | the fields appended in order after the old ones |
| LogCore.WithIsWithFields | log/log.go:149-161 | With is WithFields of one field |
| LogCore.SetFilter | log/log.go:286-291 | a nil filter installs the accept-all filter; sink and fields unchanged |
| LogCore.Flush | log/log.go:145-147 | flushing starts with the logger's own sink |
| LogFormatter.GetLogLevelString | log/formatter.go:138-152 | the five named levels by name; Disabled and unknown levels "msg" |
| LogFormatter.GetLogLevelColoredMsg | log/formatter.go:158-172 | the message lies between the level colour and Reset; unknown levels are coloured like Trace |
| LogFormatter.LogLevelColoredString | log/formatter.go:154-156 | the level name padded to five characters, between colour and Reset |
| LogFormatter.HashIndex | log/formatter.go:89-104 | the colour index is always inside the colour map |
| LogFormatter.HashColoredText | log/formatter.go:89-106 | the loop over runes picks the colour HashIndex names and wraps the name with it and Reset |
| LogFormatter.AsciiHash | log/formatter.go:89-100 | for an ASCII name the byte length is the character count and the loop sums the codes of the first 11 characters |
| LogConfig.LogLevelFromVerbosityLevel | logconfig/config.go:104-118 | −1..3 map to Error..Trace; any other verbosity is Trace; never Disabled |
| LogConfig.VerbosityMonotone | logconfig/config.go:104-118 | higher verbosity never gives a lower level |
| LogConfig.GetHumanizeValue | logconfig/config.go:120-128 | Auto means humanize exactly for stdout/stderr; other values pass through |
| LogConfig.AlternateFileName | logconfig/config.go:185-202 | ".pid-N" goes before a trailing ".txt" when a name precedes it, otherwise at the end |
| LogConfig.CheckedLogFileName | logconfig/config.go:172-183 | the name, else the alternate name; when both fail the first error; a success names a file that could be created |
| LogConfig.LogInitResult.Init | logconfig/config.go:47-93 | disabled exactly for the null target; otherwise a stream-sink logger with no fields, the verbosity's filter and the stream's name |
| Http.WriteHeader | http/middleware/common.go:31-37 | the first status sticks; every call is recorded |
| Http.ErrorReply | http/fileserver/fileserver.go:33 | plain-text headers, the status, then the message as the body |
| GoStrings.Itoa | http/middleware/hsts.go:21 | strconv.Itoa: the digits denote the absolute value, '-' precedes them exactly for negatives, and no leading zero except for 0 |
| GoStrings.ItoaRoundTrip | http/middleware/hsts.go:21 | parsing the decimal text back gives the number |

## Left out

- Text is modelled as sequences of characters. Byte lengths equal character counts except in the
  field-name colour hash, which counts UTF-8 bytes explicitly.
- These external pieces are parameters: glob compilation and matching; UUID generation and
  parsing; `path.Clean`; `http.ParseTime`; the HTTP time formatting; the file system;
  `http.ServeContent`; `net.ParseIP`; `IP.IsGlobalUnicast`; `UnsafeRedirectPath`; `os.Getpid`;
  file creation; `errutils.HasMessage`; the `%#v` rendering of an error; the request clock
  (`time.Since`).
- SyncedSink and its mutex, the global logger (`SetLogger`/`GetLogger`), the per-level shorthand
  methods, the std-log bridge and the text layout of the formatters (time stamps, quoting, `fmt`
  verbs) are not modelled; stream writes are recorded as (stream, formatter, record).
- The float formatting in sizeString and Duration.String is not modelled: the request line carries
  the status, duration and size as coloured values, and the colour rules are modelled on their own.
- HostRouter.HostRouter.Build: the Go closure keeps reading the live map and `h.PatternItems`; the
  model snapshots them at build time, so later in-place changes are not seen through a built handler.
- HostRouter.HostRouter.Clone: the copy loops of cloneItems and clonePatternItems are value copies.
- Go's map iteration order is represented by choosing any remaining key; hash ordering itself is not modelled.
- The httperror details (wrapped causes beyond `cause`, `IsServerErrorCode` beyond 5xx) and the
  writer package are not part of this model. The status logged by the request logger is the
  status written, or 0 before any.
- `FromRequest` of package middleware is not part of this model; the request logger treats a
  missing context like `reqcontext.FromRequest`, whose type assertion panics.
- ToLower and IsSpace are ASCII and Latin-1 only, where Go's strings.ToLower and strings.TrimSpace follow Unicode; header values and host names with other letters or spaces are not covered.
- HostRouter.HostName: lower-cases ASCII letters only; Go's strings.ToLower also maps non-ASCII letters.
- LogError's branch for a non-error value is not modelled, because the middleware only passes errors.
- LocalFileServer.ErrorText: http.StatusText covers only the status codes the file servers produce.
- RequestLogger.SizeUnitAsWritten: the int overflow of `i *= 1000` beyond 10^18 is not modelled.
- Redirect targets are not resolved against the request path and redirect bodies are not
  modelled; header names are not canonicalised.
- A Go handler that rewrites `*r` in place is modelled as receiving a new request value, so aliasing
  between caller and callee requests is not captured.

## Findings

| source | as written | input that shows it | evidently intended | confidence | as-written member | corrected member |
|---|---|---|---|---|---|---|
| http/handlerutils/handlerutils.go:34-36 | `prefix[ln]` reads one past the end of the prefix | any call, e.g. prefix "/api/" | test the last character, `prefix[ln-1]` | high, not executed | HandlerUtils.AsWrittenAlwaysPanics | HandlerUtils.OnPrefixStrippedAndRedirectToSlash |
| http/fileserver/fileserver.go:29-31 | the redirect's headers are written into the body before the 301 | a directory requested without its trailing slash | set the Location header, then write 301 | high, not executed | FileServer.AsWrittenRedirectIs200 | FileServer.RedirectIs301 |
| http/handlerutils/iputils.go:41-45 | To4 accepts a 4-byte address, which is then compared with 16-byte ranges | the 4-byte form of 10.0.0.1 | compare the 16-byte form | medium, not executed | IpUtils.FourByteFormMissed | IpUtils.IsLanIpAddress |
| http/middleware/logger.go:178 | the time colour index is clamped to len(statusColors)−1 = 4 | a request taking 3 s | clamp to len(timeColors)−1 = 5 | high, not executed | RequestLogger.TimeColorIndexAsWritten | RequestLogger.TimeColorIndex |
| http/middleware/logger.go:129-130 | past the last suffix `size` is clamped instead of `index`, so `sizeSuffixes[index]` panics | a transfer of 2000000000000 bytes | clamp the index to 3 ("gb") | high, not executed | RequestLogger.SizeUnitAsWritten | RequestLogger.SizeUnitClamped |
| http/middleware/hsts.go:21 | the value starts with the bare number, without "max-age=" | maxAgeSecs 31536000 | "max-age=31536000" | high, not executed | Hsts.MaxAgeNameMissing | Hsts.HstsValueParses |
