# Origami build service: request handling, shrinkwrap URLs and package-host checks, in Dafny

This project models three sequential pieces of the Origami build service, a server
that compiles requested front-end component modules into one CSS or JavaScript bundle:

- **The bundle endpoint's request handling** (`lib/middleware/outputBundle.js`).
  `getBundleDetails` reads the query string into the build options record. The handler
  then acts on how the race between the build and a 20 second timer ended:
  - a timeout increments the `redirects` counter and redirects the client to the same URL
    with a 307, or fails with a `CompileError` once `redirects * 20000 > 60000`;
  - a build that finishes on a redirected request redirects once more to the canonical URL
    without `redirects`;
  - any other finished build is served with headers taken from the bundle;
  - any other error is passed to `next` unchanged.

  `Decide` is the decision as a function. `Handle` is the imperative handler over a
  `Request` object whose query it edits in place, proved equal to `Decide`.
- **The shrinkwrap URL encoder** (`lib/shrinkwrap.js`). It builds the URL that pins a
  finished installation. `modules` lists every requested component. `shrinkwrap` lists
  every other resolved component, as `name@version` or as its explicit source. The
  source's `reduce` is modelled as written (`Reduce`) and proved equal to a plain
  filter-render-join (`FixedVersionsQueryString`). `ShrinkwrapUrlReadBack` shows the
  bundle endpoint reading such a URL back into the intended version locks.
- **Package-host grouping** (`index.js`, the registry health check). Each run groups the
  registry's packages by host into a dictionary that lives across runs, lists at most 25
  names per host plus an `and more…` marker, and adds one TCP/IP check per host the
  first time that host is seen. `PackageHostMonitor.Refresh` is the imperative loop pair.
  `Group` and `NewHosts` specify it, and lemmas prove the properties on them.

Modules: `Common` (Option, Result), `JsStrings` (`split`, whitespace trimming, `join`),
`JsNumbers` (`parseInt(s, 10)` and the decimal rendering of a number), `QueryString`
(a JavaScript object as an ordered key/value list, `delete`, assignment, `querystring.stringify`),
`OutputBundle`, `Shrinkwrap`, `ShrinkwrapRoundTrip` and `PackageHosts`.

Modelling choices:
- Query values are strings. After a timeout the counter is stored the way
  `querystring.stringify` writes the number back: in decimal, or as the empty string
  when it is `NaN`.
- `split(/\s*,\s*/)` is modelled as a split on `,` followed by removing the whitespace
  run that touches each comma (`SplitList`). Whitespace at the very start or end of the
  value is kept.
- `stringToBoolean`'s source is not part of this model. It is modelled by the behaviour
  the unit tests pin: exactly `none`, `0`, `no` and `false` are false.
- `index.js:192` calls `host.url.host.contains(':')`. This is modelled as a substring test.

## Model

The functions without a row (`OnBuilt`, `OnTimeout`, `IncomingRedirects`, `Increment`,
`CounterText`, `StringToBoolean`, `Stringify`) are the steps `Decide` and
`GetBundleDetails` are written from. What they do is stated by the rows for those two
functions and by the lemmas about them.

| member | source | states |
|---|---|---|
| `OutputBundle.GetBundleDetails` | lib/middleware/outputBundle.js:22-40 | fails exactly when `modules` is absent; `babelRuntime` is false iff `polyfills` is one of `none`/`0`/`no`/`false`; `minify` is false iff `minify` is exactly `none`; `exportName` is `export` when defined, `Origami` otherwise; `newerThan` and `versionLocks` are absent iff their parameter is absent or empty; `newerThan` otherwise carries the `newerthan` text to be parsed, and `versionLocks` holds the comma split of `shrinkwrap` |
| `OutputBundle.RequestedModules` | lib/middleware/outputBundle.js:23-30 | the module list is the comma split of `modules`, with `o-autoinit@^1.0.0` appended exactly when `autoinit` is not `0` and no entry starts with `o-autoinit`, and unchanged otherwise |
| `OutputBundle.AutoinitAlwaysRequested` | lib/middleware/outputBundle.js:25-30 | unless `autoinit=0`, the requested module list always holds an entry starting with `o-autoinit`, whether the client listed one or the service appended it |
| `JsStrings.SplitList` | lib/middleware/outputBundle.js:23 | the comma split has as many items as splitting on `,` has parts; no item holds a comma, and no item has whitespace on a side that touches a comma; a value without a comma is its own single item |
| `JsStrings.SplitListItem` | lib/middleware/outputBundle.js:23 | the i-th item is the i-th comma-separated part with only whitespace taken off its sides, and nothing taken off the very start or the very end of the value |
| `JsStrings.SplitCount` | lib/middleware/outputBundle.js:23 | a split has exactly one more part than the string has separators, so the comma split has one more item than there are commas |
| `JsStrings.Split` | index.js:192-193 | a split has at least one part, no part holds the separator, and it has two or more parts exactly when the separator occurs |
| `JsStrings.SplitListJoin` | lib/middleware/outputBundle.js:36 | splitting a comma-joined list of items back gives the same items, when no item has a comma or whitespace at an end |
| `OutputBundle.SelfURL` | lib/middleware/outputBundle.js:98-101 | the URL is the path alone for an empty query, and otherwise the path, `?` and the serialised query |
| `QueryString.StringifyEmpty` | lib/middleware/outputBundle.js:99-100 | the serialised query is empty exactly when the query has no keys, so `?` is added exactly for a non-empty query |
| `OutputBundle.Decide` | lib/middleware/outputBundle.js:50-95 | the request fails with the missing-`modules` error exactly when `modules` is absent; every redirect is a 307 to `selfURL` of the query the handler leaves behind; a served response carries the finished bundle and leaves the query alone; an error passed to `next` is the race's own rejection, never the timer's `'timeout'`, and leaves the query alone |
| `OutputBundle.TimerRejectionTimesOut` | lib/middleware/outputBundle.js:82 | a rejection with the string `'timeout'`, from the timer or from the build, is handled exactly as the timer firing |
| `OutputBundle.BudgetBoundary` | lib/middleware/outputBundle.js:84 | with 20 seconds per attempt and 60 in all, the counters 1 to 3 pass, every count from 4 on is refused, and `NaN` is never refused |
| `JsNumbers.ParseInt` | lib/middleware/outputBundle.js:83 | an empty or all-whitespace string reads as `NaN`; a non-empty string of decimal digits reads as its decimal value |
| `JsNumbers.IntToDecimal` | lib/middleware/outputBundle.js:99 | a number is written as at least one character: digits only when it is not negative, and `-` followed by digits when it is |
| `OutputBundle.Handle` | lib/middleware/outputBundle.js:48-96 | the handler's outcome and the query it leaves behind are those of `Decide` on the incoming query |
| `OutputBundle.TimeoutRedirectsOrFails` | lib/middleware/outputBundle.js:82-89 | on a timeout the new counter is the old one (absent or empty read as 0) plus one, and the next request reads it back; the result is a `CompileError` iff the incoming counter is 3 or more, otherwise a 307 to `selfURL` with the new counter |
| `OutputBundle.FreshTimeout` | lib/middleware/outputBundle.js:83-88 | a timeout on a request without `redirects` redirects to the same URL with `redirects=1` appended as the last parameter |
| `OutputBundle.CounterWrittenBack` | lib/middleware/outputBundle.js:83 | the counter a timeout stores is the incoming count plus one, written in decimal, and the next request reads that count back |
| `OutputBundle.ModulesSurviveRedirects` | lib/middleware/outputBundle.js:64 | deleting or overwriting `redirects` keeps `modules`, so the redirected request can still be read |
| `JsNumbers.ParseIntOfDecimal` | lib/middleware/outputBundle.js:83 | `parseInt` of the decimal rendering of any integer gives that integer back |
| `OutputBundle.UnreadableCounterRestarts` | lib/middleware/outputBundle.js:83-88 | a timeout with a counter `parseInt` cannot read is never refused; it redirects with `redirects` written back empty, which the next request reads as 0 |
| `OutputBundle.MissingModulesFails` | lib/middleware/outputBundle.js:23 | without `modules` every request fails before any build is answered, with its query untouched |
| `OutputBundle.TimeoutKeepsOtherParameters` | lib/middleware/outputBundle.js:83 | a timeout changes no parameter other than `redirects`; it keeps the key order and adds `redirects` last when it was absent |
| `OutputBundle.RedirectBudget` | lib/middleware/outputBundle.js:82-89 | a request without a counter that keeps timing out is redirected with counters 1, 2 and 3, and the fourth attempt fails with `CompileError` |
| `OutputBundle.FirstTimeoutExample` | test/unit/lib/middleware/outputBundle.js:79-92 | a timeout on `modules=<m>` at `/` redirects to `/?modules=<m>&redirects=1` |
| `OutputBundle.RepeatedTimeoutExample` | test/unit/lib/middleware/outputBundle.js:94-129 | a timeout on `modules=<m>&redirects=<c>` redirects to `...&redirects=<c+1>` for c below 3 and fails with `CompileError` from 3 on |
| `OutputBundle.SuccessAfterRedirectIsCanonical` | lib/middleware/outputBundle.js:62-66 | a build finishing on a request with a `redirects` value is not served; it is a 307 to the same path with `redirects` removed and every other key, in order, unchanged |
| `OutputBundle.CanonicalExample` | test/unit/lib/middleware/outputBundle.js:149-164 | a build finishing on `modules=<m>&redirects=1` redirects to `/?modules=<m>` |
| `OutputBundle.ServedOrForwarded` | lib/middleware/outputBundle.js:67-93 | a build finishing without a counter is served with `Content-Type` from `mimeType`, `Last-Modified` from `createdTime` and `Cache-Control` from `expiryTime`; a rejection other than the string `'timeout'` reaches `next` unchanged; neither touches the query |
| `QueryString.Lookup` | lib/middleware/outputBundle.js:33-38 | reading a parameter gives `undefined` exactly when it is absent, and otherwise a value stored under it |
| `QueryString.Remove` | lib/middleware/outputBundle.js:64 | after `delete` the key is absent, every remaining entry was already there, and the object has not grown |
| `QueryString.Assign` | lib/middleware/outputBundle.js:83 | assignment adds one entry exactly when the key was absent, and otherwise keeps the size |
| `QueryString.LookupRemove` | lib/middleware/outputBundle.js:64 | after `delete q[k]`, `k` is absent and every other key has its old value |
| `QueryString.KeysRemove` | lib/middleware/outputBundle.js:64 | `delete` keeps the order of the remaining keys |
| `QueryString.DistinctAfterRemove` | lib/middleware/outputBundle.js:64 | `delete` keeps an object's keys distinct |
| `QueryString.DistinctAfterAssign` | lib/middleware/outputBundle.js:83 | assignment keeps an object's keys distinct: an existing key is overwritten, not added again |
| `QueryString.LookupAssign` | lib/middleware/outputBundle.js:83 | after `q[k] = v`, `k` maps to `v` and every other key has its old value |
| `QueryString.KeysAssign` | lib/middleware/outputBundle.js:83 | an assigned key keeps its place when present and is appended when new |
| `Shrinkwrap.Render` | lib/shrinkwrap.js:39-43 | a rendered component is never empty, so the `reduce` never meets an empty target |
| `Shrinkwrap.Kept` | lib/shrinkwrap.js:45-50 | the filtered components are exactly the components whose names the filter does not exclude |
| `Shrinkwrap.Step` | lib/shrinkwrap.js:45-56 | one step only appends to the running value, and leaves it unchanged exactly when the filter excludes the component |
| `Shrinkwrap.Reduce` | lib/shrinkwrap.js:34-57 | the `reduce` only appends to its starting value, and leaves it unchanged exactly when the filter excludes every component |
| `Shrinkwrap.ReduceJoins` | lib/shrinkwrap.js:34-57 | the `reduce` continuing from a list `acc` yields `acc` followed by the kept targets joined by single commas, without a leading or doubled comma |
| `Shrinkwrap.FixedVersionsQueryString` | lib/shrinkwrap.js:33-58 | the value is the targets of the kept components in key order joined by `,`, and it is empty exactly when nothing is kept |
| `Shrinkwrap.SegmentsAreTargets` | lib/shrinkwrap.js:52-56 | when something is kept and no target contains a comma, splitting the value on commas gives exactly the kept targets, with no empty segment |
| `Shrinkwrap.ToUrl` | lib/shrinkwrap.js:11-30 | the path is `/<endpointVersion>/bundles/<bundleType>`; `modules` lists all requested components; `shrinkwrap` lists all resolved components whose names were not requested; `polyfills=false` is present iff `options.babelRuntime === false`, with missing options behaving as `{}`; the query's keys are exactly `modules`, `shrinkwrap` and that optional `polyfills`, in this order |
| `Shrinkwrap.ModulesUnfiltered` | lib/shrinkwrap.js:14 | no requested component is filtered out of `modules` |
| `Shrinkwrap.ShrinkwrapExcludesRequested` | lib/shrinkwrap.js:15-17 | a resolved component is in the `shrinkwrap` list iff its name is not a requested component's name |
| `ShrinkwrapRoundTrip.ShrinkwrapUrlReadBack` | lib/shrinkwrap.js:11-30 | when every component renders without a comma and without whitespace at an end, the bundle endpoint reading a shrinkwrap URL always succeeds. It gets the unrequested resolved components as version locks, and no version locks when there are none. Its comma split of `modules` is the requested targets, or the single empty name when none were requested; because the URL carries no `autoinit`, the module set it builds is that list followed by the unpinned `o-autoinit@^1.0.0` unless a requested target starts with `o-autoinit`. It gets the Babel runtime off exactly when the options turned it off |
| `ShrinkwrapRoundTrip.RequestedReadBack` | lib/middleware/outputBundle.js:23-35 | the module set built from a shrinkwrap URL is the requested targets (one empty name for none), then `o-autoinit@^1.0.0` unless a requested target starts with `o-autoinit` |
| `ShrinkwrapRoundTrip.WithoutAutoinit` | lib/middleware/outputBundle.js:23-35 | a request without `autoinit` asks for its listed modules followed by `o-autoinit@^1.0.0` exactly when none of them starts with `o-autoinit` |
| `PackageHosts.PackageHostMonitor.constructor` | index.js:159 | the host dictionary starts empty |
| `PackageHosts.PackageHostMonitor.Refresh` | index.js:167-206 | one run keeps the dictionary well formed and leaves it as `Group` of the old one; it returns one check per host in `NewHosts`, in order, built from the host's listed names and its split endpoint; every check is for a real host and lists between 1 and 25 names plus the marker |
| `PackageHosts.ChecksFor` | index.js:187-205 | the second loop yields one check per new host, in `checksToAdd` order, carrying the names the host lists once the first loop is done and its split endpoint |
| `PackageHosts.RecordWellFormed` | index.js:173-184 | each recorded host is non-empty and lists between 1 and 25 names plus the marker, and one package keeps it so |
| `PackageHosts.AddName` | index.js:179-184 | a push keeps the listed names as a prefix and adds one entry exactly when at most 25 are listed: the package name below 25, the marker at 25, nothing after |
| `PackageHosts.Record` | index.js:173-184 | a package with a host adds that host to the dictionary's keys, and one without a host adds none; every other host's entry is untouched, and the host's own list only grows |
| `PackageHosts.NewHosts` | index.js:175-178 | a run adds at most one check per package, and only for non-empty hosts the dictionary did not hold before the run |
| `PackageHosts.GroupKeys` | index.js:173-178 | after a run the dictionary knows exactly the hosts it knew before plus every non-empty host of the run; packages without a host change nothing |
| `PackageHosts.NewHostsExactly` | index.js:175-178 | a host gets a check in a run iff the run serves it and no earlier run has seen it |
| `PackageHosts.NewHostsDistinct` | index.js:175-178 | no host gets two checks in one run |
| `PackageHosts.GroupOtherHosts` | index.js:169-185 | a run leaves the entry of every host it does not serve untouched |
| `PackageHosts.Capped` | index.js:179-184 | a listed-names value has at most 26 entries, the 26th being `and more…`, and its names are a prefix of the names that arrived |
| `PackageHosts.AddNameCapped` | index.js:179-184 | one push in the loop turns the capped list of some names into the capped list of those names plus the new one |
| `PackageHosts.GroupNames` | index.js:179-184 | a host's list is the first 25 names that arrived for it across all runs since it was first seen, then one `and more…` when more came; later names are dropped |
| `PackageHosts.GroupAcrossRuns` | index.js:159-185 | two runs leave the shared dictionary as one run over both package lists would |
| `PackageHosts.HostNamesSinceStart` | index.js:159-185 | from the empty dictionary, after two runs each host lists the capped names served from it over both runs |
| `PackageHosts.Endpoint` | index.js:190-196 | a host without `:` gets port 80; otherwise the host name and port are the first two `:`-separated parts, neither holding a `:`, and together they are the whole host or are followed by another `:` |

## Left out

- Express plumbing is not modelled: `res.redirect`, `res.set`, `bundle.pipe(res)`, the trailing `next()` after a response, and the metrics counters. The response is the returned `Outcome`.
- `Promise.race` and `setTimeout` are concurrency and timers. How the race ended is an input (`RaceResult`), and the build that keeps running after a timeout is not modelled.
- `Bundler`, `InstallationManager`, `ModuleSet`, `cacheControlHeaderFromExpiry`, `compileerror` and `stringToBoolean` are not part of this model. `ModuleSet` is a value holding its list of specifiers. The `Cache-Control` and `Last-Modified` headers carry the `expiryTime` and `createdTime` they are computed from.
- A rejection is modelled by its value as a string: the timer's rejection is the string `'timeout'`, and an error object is never equal to it.
- `Date.parse` is library behaviour. `newerThan` carries the text it would parse.
- `querystring.stringify` is modelled without percent-encoding, and `URL.format` is not modelled at all: `ToUrl` returns the object handed to `URL.format`.
- `URL.parse` is not modelled: a package's URL arrives as its already-parsed host, and the `url.hostname`/`url.port` passed to `addTcpIpCheck` are not modelled. `path.join(req.basePath, req.path)` is not modelled either: the joined path is an input.
- JavaScript object semantics: keys that look like array indices are enumerated first, and inherited keys such as `constructor` answer `in` and property reads. Neither is modelled; objects are ordered lists of distinct string keys. Query values that Express parses into arrays or nested objects are not modelled.
- Number precision is not modelled: the counter is an unbounded integer, and the double-precision rounding and exponent notation of very large counters are left out.
- `JsStrings.IsSpace` lists the ECMAScript whitespace and line terminator code points by hand.
- `registry.refreshPackageList` is I/O: the model starts from the resolved package list, and a rejected refresh changes nothing.
- `healthMonitor.addTcpIpCheck` and the check's text fields are side effects; a check is modelled as its host, `nc` host name and port, and the listed names.
- `lib/democompiler.js`, `lib/registry.js`, the route files, and the rest of `index.js` (command-line flags, directory setup, `.netrc`, privilege dropping, server start) are not part of this model.
