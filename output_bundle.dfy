/**
 * The bundle endpoint's request handling: reading the query into build options,
 * and the decision taken once the race between the build and the 20 second timer
 * is over (serve, redirect to itself, or fail).
 */
module OutputBundle {
  import opened Common
  import opened JsStrings
  import opened JsNumbers
  import opened QueryString

  const TimeoutDurationMSec := 20000
  const MaxBuildTimeMSec := 60000
  const TemporaryRedirect := 307
  const AutoinitModule := "o-autoinit@^1.0.0"
  const AutoinitPrefix := "o-autoinit"
  const DefaultExportName := "Origami"
  const BuildTimeExceeded := "Maximum allowable build time exceeded"

  /** A module set as built by the `ModuleSet` constructor, from its list of specifiers. */
  datatype ModuleSet = ModuleSet(specifiers: seq<string>)

  /** `newerThan`: `false`, or the value `Date.parse` gives for the query text. */
  datatype NewerThan = NotRequested | ParsedDate(text: string)

  /** The options record handed to the installation manager and the bundler. */
  datatype BundleDetails = BundleDetails(
    babelRuntime: bool,
    newerThan: NewerThan,
    modules: ModuleSet,
    versionLocks: Option<ModuleSet>,
    minify: bool,
    exportName: string)

  /** `req.query.modules.split(...)` throws a `TypeError` when `modules` is not given. */
  datatype DetailsError = ModulesMissing

  /** The `polyfills` values that turn the Babel runtime off. */
  predicate IsFalseLike(s: string) {
    s == "none" || s == "0" || s == "no" || s == "false"
  }

  /** `stringToBoolean`, as the service's tests and interface describe it. */
  function StringToBoolean(s: string): bool {
    !IsFalseLike(s)
  }

  predicate AutoinitListed(modules: seq<string>) {
    exists i :: 0 <= i < |modules| && StartsWith(modules[i], AutoinitPrefix)
  }

  /** The requested module list, with `o-autoinit` added unless it is switched off or already there. */
  function RequestedModules(q: Query, modulesParam: string): (modules: seq<string>)
    ensures var listed := SplitList(modulesParam);
      && listed <= modules
      && |modules| <= |listed| + 1
      && (|modules| == |listed| + 1 <==> Lookup(q, "autoinit") != Some("0") && !AutoinitListed(listed))
      && (|modules| == |listed| + 1 ==> modules[|listed|] == AutoinitModule)
  {
    var listed := SplitList(modulesParam);
    if Lookup(q, "autoinit") != Some("0") && !AutoinitListed(listed) then listed + [AutoinitModule]
    else listed
  }

  /** `getBundleDetails(req)` */
  function GetBundleDetails(q: Query): (r: Result<BundleDetails, DetailsError>)
    ensures r.Err? <==> Lookup(q, "modules").None?
    ensures r.Ok? ==> r.value.modules == ModuleSet(RequestedModules(q, Lookup(q, "modules").value))
    ensures r.Ok? ==> (!r.value.babelRuntime <==> Lookup(q, "polyfills").Some? && IsFalseLike(Lookup(q, "polyfills").value))
    ensures r.Ok? ==> (!r.value.minify <==> Lookup(q, "minify") == Some("none"))
    ensures r.Ok? ==> r.value.exportName == (if Lookup(q, "export").None? then DefaultExportName else Lookup(q, "export").value)
    ensures r.Ok? ==> (r.value.newerThan.NotRequested? <==> !Truthy(q, "newerthan"))
    ensures r.Ok? && Truthy(q, "newerthan") ==> r.value.newerThan == ParsedDate(Lookup(q, "newerthan").value)
    ensures r.Ok? ==> (r.value.versionLocks.None? <==> !Truthy(q, "shrinkwrap"))
    ensures r.Ok? && Truthy(q, "shrinkwrap") ==>
      r.value.versionLocks == Some(ModuleSet(SplitList(Lookup(q, "shrinkwrap").value)))
  {
    match Lookup(q, "modules")
    case None => Err(ModulesMissing)
    case Some(modulesParam) =>
      Ok(BundleDetails(
        babelRuntime := if Truthy(q, "polyfills") then StringToBoolean(Lookup(q, "polyfills").value) else true,
        newerThan := if Truthy(q, "newerthan") then ParsedDate(Lookup(q, "newerthan").value) else NotRequested,
        modules := ModuleSet(RequestedModules(q, modulesParam)),
        versionLocks := if Truthy(q, "shrinkwrap") then Some(ModuleSet(SplitList(Lookup(q, "shrinkwrap").value))) else None,
        minify := !(Truthy(q, "minify") && Lookup(q, "minify").value == "none"),
        exportName := if Lookup(q, "export").None? then DefaultExportName else Lookup(q, "export").value))
  }

  /**
   * Unless `autoinit=0`, the requested modules always hold one whose name starts with
   * `o-autoinit`; `GetBundleDetails` builds its module set from exactly this list.
   */
  lemma AutoinitAlwaysRequested(q: Query, modulesParam: string)
    requires Lookup(q, "autoinit") != Some("0")
    ensures AutoinitListed(RequestedModules(q, modulesParam))
  {
    var modules := RequestedModules(q, modulesParam);
    var listed := SplitList(modulesParam);
    if !AutoinitListed(listed) {
      assert modules[|listed|] == AutoinitModule;
      assert StartsWith(AutoinitModule, AutoinitPrefix);
    } else {
      var i :| 0 <= i < |listed| && StartsWith(listed[i], AutoinitPrefix);
      assert modules[i] == listed[i];
    }
  }

  /** The artifact the bundler resolves with. */
  datatype Bundle = Bundle(mimeType: string, createdTime: int, expiryTime: int)

  /** The value the timer rejects with. */
  const TimerRejection := "timeout"

  /**
   * How the race between `bundler.getBundle` and the timer ended: the bundle, the
   * timer's rejection, or a rejection of `getBundle` with the value `error`.
   */
  datatype RaceResult = Built(bundle: Bundle) | TimedOut | Rejected(error: string)

  /** What reaches `next(error)`. */
  datatype Failure =
    | CompileError(message: string)
    | Forwarded(error: string)
    | DetailsFailed(reason: DetailsError)

  /**
   * The headers set before the body is piped: `Last-Modified` is formatted from
   * `createdTime` and `Cache-Control` computed from `expiryTime`.
   */
  datatype Headers = Headers(contentType: string, lastModifiedTime: int, cacheControlExpiry: int)

  datatype Outcome =
    | Served(headers: Headers, body: Bundle)
    | Redirected(status: int, location: string)
    | Failed(failure: Failure)

  /** The outcome of one request and the request's query once the handler is done with it. */
  datatype Response = Response(outcome: Outcome, query: Query)

  /** `selfURL(req)`, `path` being the joined base path and request path. */
  function SelfURL(path: string, q: Query): (url: string)
    ensures q == [] ==> url == path
    ensures q != [] ==> url == path + "?" + Stringify(q)
  {
    StringifyEmpty(q);
    var qs := Stringify(q);
    path + (if qs != "" then "?" + qs else "")
  }

  /** `parseInt(req.query.redirects || 0, 10)`: an absent or empty counter reads as 0. */
  function IncomingRedirects(q: Query): Option<int> {
    if Truthy(q, "redirects") then ParseInt(Lookup(q, "redirects").value) else Some(0)
  }

  /** Adding one; `NaN + 1` stays `NaN`. */
  function Increment(n: Option<int>): Option<int> {
    match n
    case Some(v) => Some(v + 1)
    case None => None
  }

  /** How `querystring.stringify` writes the counter back: a finite number in decimal, `NaN` as nothing. */
  function CounterText(n: Option<int>): string {
    match n
    case Some(v) => IntToDecimal(v)
    case None => ""
  }

  /** `redirects * timeoutDurationMSec > maxBuildTimeMSec`; a comparison with `NaN` is false. */
  predicate BudgetExceeded(n: Option<int>) {
    n.Some? && n.value * TimeoutDurationMSec > MaxBuildTimeMSec
  }

  /** The decision `outputBundle` takes for a request with query `q` once the race is over. */
  function Decide(q: Query, path: string, race: RaceResult): (r: Response)
    ensures r.outcome == Failed(DetailsFailed(ModulesMissing)) <==> !HasKey(q, "modules")
    ensures r.outcome.Redirected? ==>
      r.outcome.status == TemporaryRedirect && r.outcome.location == SelfURL(path, r.query)
    ensures r.outcome.Served? ==> race.Built? && r.outcome.body == race.bundle && r.query == q
    ensures r.outcome.Failed? && r.outcome.failure.Forwarded? ==>
      race == Rejected(r.outcome.failure.error) && r.outcome.failure.error != TimerRejection && r.query == q
  {
    if !HasKey(q, "modules") then Response(Failed(DetailsFailed(ModulesMissing)), q)
    else
      match race
      case Built(bundle) => OnBuilt(q, path, bundle)
      case TimedOut => OnTimeout(q, path)
      case Rejected(error) =>
        if error == TimerRejection then OnTimeout(q, path) else Response(Failed(Forwarded(error)), q)
  }

  /** The callback run when the bundle wins the race. */
  function OnBuilt(q: Query, path: string, bundle: Bundle): Response {
    if Truthy(q, "redirects") then
      var canonical := Remove(q, "redirects");
      Response(Redirected(TemporaryRedirect, SelfURL(path, canonical)), canonical)
    else
      Response(Served(Headers(bundle.mimeType, bundle.createdTime, bundle.expiryTime), bundle), q)
  }

  /** The rejection handler when the timer wins the race. */
  function OnTimeout(q: Query, path: string): Response {
    var redirects := Increment(IncomingRedirects(q));
    var next := Assign(q, "redirects", CounterText(redirects));
    if BudgetExceeded(redirects) then Response(Failed(CompileError(BuildTimeExceeded)), next)
    else Response(Redirected(TemporaryRedirect, SelfURL(path, next)), next)
  }

  /** The Express request: its query object is what the handler edits. */
  class Request {
    var query: Query
    const path: string

    constructor (query: Query, path: string)
      ensures this.query == query && this.path == path
    {
      this.query := query;
      this.path := path;
    }
  }

  /** `outputBundle(req, res, next)` after the race: deletes or overwrites `req.query.redirects` and answers. */
  method Handle(req: Request, race: RaceResult) returns (outcome: Outcome)
    modifies req
    ensures Response(outcome, req.query) == Decide(old(req.query), req.path, race)
  {
    var details := GetBundleDetails(req.query);
    if details.Err? {
      return Failed(DetailsFailed(details.error));
    }
    var error := if race.Rejected? then race.error else TimerRejection;
    if race.Built? {
      if Truthy(req.query, "redirects") {
        req.query := Remove(req.query, "redirects");
        outcome := Redirected(TemporaryRedirect, SelfURL(req.path, req.query));
      } else {
        var bundle := race.bundle;
        outcome := Served(Headers(bundle.mimeType, bundle.createdTime, bundle.expiryTime), bundle);
      }
    } else if error == TimerRejection {
      var redirects := Increment(IncomingRedirects(req.query));
      req.query := Assign(req.query, "redirects", CounterText(redirects));
      if BudgetExceeded(redirects) {
        outcome := Failed(CompileError(BuildTimeExceeded));
      } else {
        outcome := Redirected(TemporaryRedirect, SelfURL(req.path, req.query));
      }
    } else {
      outcome := Failed(Forwarded(error));
    }
  }

  /**
   * Without `modules` the options cannot be read: whatever the race would have
   * given, the request fails and its query is left alone.
   */
  lemma MissingModulesFails(q: Query, path: string, race: RaceResult)
    requires !HasKey(q, "modules")
    ensures Decide(q, path, race) == Response(Failed(DetailsFailed(ModulesMissing)), q)
  {
  }

  /**
   * A counter that `parseInt` cannot read becomes `NaN`: the budget test fails, the
   * counter is written back as the empty string, and the next request reads it as 0.
   */
  lemma UnreadableCounterRestarts(q: Query, path: string)
    requires HasKey(q, "modules")
    requires Truthy(q, "redirects") && ParseInt(Lookup(q, "redirects").value).None?
    ensures var r := Decide(q, path, TimedOut);
      && r.outcome == Redirected(TemporaryRedirect, SelfURL(path, r.query))
      && Lookup(r.query, "redirects") == Some("")
      && IncomingRedirects(r.query) == Some(0)
  {
    var next := Assign(q, "redirects", "");
    assert IncomingRedirects(q).None?;
    LookupAssign(q, "redirects", "", "redirects");
    assert !Truthy(next, "redirects");
  }

  /** The budget check lets the counters 1 to 3 through and stops every count from 4 on, and `NaN`. */
  lemma BudgetBoundary(n: int)
    ensures BudgetExceeded(Some(n)) <==> n >= 4
    ensures !BudgetExceeded(None)
  {
  }

  /** Editing `redirects` keeps `modules`, so the build options stay readable. */
  lemma ModulesSurviveRedirects(q: Query, v: string)
    requires HasKey(q, "modules")
    ensures HasKey(Assign(q, "redirects", v), "modules")
    ensures HasKey(Remove(q, "redirects"), "modules")
  {
    LookupAssign(q, "redirects", v, "modules");
    LookupRemove(q, "redirects", "modules");
  }

  /**
   * On a timeout the counter goes up by one and is written back so that the next
   * request reads it again; the request fails with a `CompileError` exactly when the
   * incoming counter is 3 or more, and otherwise redirects to itself with every other
   * parameter unchanged.
   */
  lemma TimeoutRedirectsOrFails(q: Query, path: string, c: int)
    requires HasKey(q, "modules")
    requires IncomingRedirects(q) == Some(c)
    ensures var r := Decide(q, path, TimedOut);
      && Lookup(r.query, "redirects") == Some(IntToDecimal(c + 1))
      && IncomingRedirects(r.query) == Some(c + 1)
      && HasKey(r.query, "modules")
      && (r.outcome.Failed? <==> c >= 3)
      && (r.outcome.Failed? ==> r.outcome.failure == CompileError(BuildTimeExceeded))
      && (!r.outcome.Failed? ==> r.outcome == Redirected(TemporaryRedirect, SelfURL(path, r.query)))
  {
    var text := IntToDecimal(c + 1);
    CounterWrittenBack(q, c);
    ModulesSurviveRedirects(q, text);
    assert Decide(q, path, TimedOut) == OnTimeout(q, path);
    assert BudgetExceeded(Some(c + 1)) <==> c >= 3;
  }

  /** The counter a timeout writes back is the incoming one plus one, and reads back as such. */
  lemma CounterWrittenBack(q: Query, c: int)
    requires IncomingRedirects(q) == Some(c)
    ensures var next := Assign(q, "redirects", IntToDecimal(c + 1));
      && CounterText(Increment(IncomingRedirects(q))) == IntToDecimal(c + 1)
      && Lookup(next, "redirects") == Some(IntToDecimal(c + 1))
      && IncomingRedirects(next) == Some(c + 1)
  {
    var text := IntToDecimal(c + 1);
    var next := Assign(q, "redirects", text);
    LookupAssign(q, "redirects", text, "redirects");
    ParseIntOfDecimal(c + 1);
    assert Truthy(next, "redirects");
    assert IncomingRedirects(next) == ParseInt(text);
  }

  /** A timeout changes no query parameter other than `redirects`. */
  lemma TimeoutKeepsOtherParameters(q: Query, path: string, k: string)
    requires HasKey(q, "modules")
    requires k != "redirects"
    ensures Lookup(Decide(q, path, TimedOut).query, k) == Lookup(q, k)
    ensures Keys(Decide(q, path, TimedOut).query) ==
      if "redirects" in Keys(q) then Keys(q) else Keys(q) + ["redirects"]
  {
    var v := CounterText(Increment(IncomingRedirects(q)));
    LookupAssign(q, "redirects", v, k);
    KeysAssign(q, "redirects", v);
  }

  /**
   * The redirect budget: a request that arrives without a counter and keeps timing out
   * is redirected with `redirects` 1, 2 and 3, and the fourth attempt fails.
   */
  lemma RedirectBudget(q: Query, path: string)
    requires HasKey(q, "modules")
    requires IncomingRedirects(q) == Some(0)
    ensures var r1 := Decide(q, path, TimedOut);
      var r2 := Decide(r1.query, path, TimedOut);
      var r3 := Decide(r2.query, path, TimedOut);
      var r4 := Decide(r3.query, path, TimedOut);
      && r1.outcome == Redirected(TemporaryRedirect, SelfURL(path, r1.query))
      && r2.outcome == Redirected(TemporaryRedirect, SelfURL(path, r2.query))
      && r3.outcome == Redirected(TemporaryRedirect, SelfURL(path, r3.query))
      && Lookup(r1.query, "redirects") == Some("1")
      && Lookup(r2.query, "redirects") == Some("2")
      && Lookup(r3.query, "redirects") == Some("3")
      && r4.outcome == Failed(CompileError(BuildTimeExceeded))
  {
    var r1 := Decide(q, path, TimedOut);
    TimeoutRedirectsOrFails(q, path, 0);
    var r2 := Decide(r1.query, path, TimedOut);
    TimeoutRedirectsOrFails(r1.query, path, 1);
    var r3 := Decide(r2.query, path, TimedOut);
    TimeoutRedirectsOrFails(r2.query, path, 2);
    TimeoutRedirectsOrFails(r3.query, path, 3);
    assert IntToDecimal(1) == "1" && IntToDecimal(2) == "2" && IntToDecimal(3) == "3";
  }

  /**
   * A build that finishes on a redirected request is not served: the client is sent
   * to the same path with `redirects` removed and every other parameter, in order, unchanged.
   */
  lemma SuccessAfterRedirectIsCanonical(q: Query, path: string, bundle: Bundle, k: string)
    requires HasKey(q, "modules")
    requires Truthy(q, "redirects")
    requires k != "redirects"
    ensures var r := Decide(q, path, Built(bundle));
      && r.outcome == Redirected(TemporaryRedirect, SelfURL(path, r.query))
      && Lookup(r.query, "redirects").None?
      && Lookup(r.query, k) == Lookup(q, k)
      && Keys(r.query) == Filter(Keys(q), "redirects")
  {
    LookupRemove(q, "redirects", k);
    KeysRemove(q, "redirects");
  }

  /**
   * A build that finishes on a request without a counter is served with headers taken
   * from the bundle; a rejection with any value but the timer's reaches `next` unchanged;
   * neither touches the query.
   */
  lemma ServedOrForwarded(q: Query, path: string, race: RaceResult)
    requires HasKey(q, "modules")
    ensures var r := Decide(q, path, race);
      && (race.Built? && !Truthy(q, "redirects") ==>
            && r.query == q
            && r.outcome.Served? && r.outcome.body == race.bundle
            && r.outcome.headers.contentType == race.bundle.mimeType
            && r.outcome.headers.lastModifiedTime == race.bundle.createdTime
            && r.outcome.headers.cacheControlExpiry == race.bundle.expiryTime)
      && (race.Rejected? && race.error != TimerRejection ==>
            r.query == q && r.outcome == Failed(Forwarded(race.error)))
  {
  }

  /** `getBundle` rejecting with the timer's own value is handled exactly as a timeout. */
  lemma TimerRejectionTimesOut(q: Query, path: string)
    ensures Decide(q, path, Rejected(TimerRejection)) == Decide(q, path, TimedOut)
  {
  }

  /** The URL the unit tests expect for the query `modules=<m>&redirects=<counter>` on `/`. */
  lemma ExampleURL(m: string, counter: string)
    ensures SelfURL("/", [("modules", m), ("redirects", counter)]) == "/?modules=" + m + "&redirects=" + counter
    ensures SelfURL("/", [("modules", m)]) == "/?modules=" + m
  {
    StringifySmall("modules", m, "redirects", counter);
  }

  /**
   * A timeout on a request that carries no counter redirects to the same URL with
   * `redirects=1` added as the last parameter.
   */
  lemma FreshTimeout(q: Query, path: string)
    requires HasKey(q, "modules")
    requires !HasKey(q, "redirects")
    ensures var next := q + [("redirects", "1")];
      Decide(q, path, TimedOut) == Response(Redirected(TemporaryRedirect, SelfURL(path, next)), next)
  {
    assert IncomingRedirects(q) == Some(0);
    assert IntToDecimal(1) == "1";
    AssignNewKey(q, "redirects", "1");
    assert !BudgetExceeded(Some(1));
  }

  /** A timeout on the query `modules=<m>`, which carries no counter. */
  lemma FirstTimeoutExample(m: string)
    ensures Decide([("modules", m)], "/", TimedOut).outcome
      == Redirected(307, "/?modules=" + m + "&redirects=1")
  {
    var q := [("modules", m)];
    assert Lookup(q, "modules") == Some(m);
    assert Lookup(q, "redirects").None?;
    FreshTimeout(q, "/");
    assert q + [("redirects", "1")] == [("modules", m), ("redirects", "1")];
    ExampleURL(m, "1");
  }

  /** A timeout on the query `modules=<m>&redirects=<before>`, `before` reading as `c`. */
  lemma RepeatedTimeoutExample(m: string, before: string, c: int)
    requires before != "" && ParseInt(before) == Some(c)
    ensures Decide([("modules", m), ("redirects", before)], "/", TimedOut).outcome
      == if c >= 3 then Failed(CompileError(BuildTimeExceeded))
         else Redirected(307, "/?modules=" + m + "&redirects=" + IntToDecimal(c + 1))
  {
    var q := [("modules", m), ("redirects", before)];
    var after := IntToDecimal(c + 1);
    var next := [("modules", m), ("redirects", after)];
    assert Lookup(q, "modules") == Some(m);
    assert Lookup(q, "redirects") == Some(before);
    assert IncomingRedirects(q) == Some(c);
    assert Assign(q, "redirects", after) == next;
    CounterWrittenBack(q, c);
    assert Decide(q, "/", TimedOut) == OnTimeout(q, "/");
    assert OnTimeout(q, "/").query == Assign(q, "redirects", after);
    TimeoutRedirectsOrFails(q, "/", c);
    ExampleURL(m, after);
  }

  /** The unit test for a build that finishes on a redirected request (`m = "test"` there). */
  lemma CanonicalExample(m: string, bundle: Bundle)
    ensures Decide([("modules", m), ("redirects", "1")], "/", Built(bundle)).outcome
      == Redirected(307, "/?modules=" + m)
  {
    var q := [("modules", m), ("redirects", "1")];
    var canonical := [("modules", m)];
    assert Remove(q, "redirects") == canonical;
    assert Lookup(q, "modules") == Some(m);
    assert Truthy(q, "redirects");
    assert Decide(q, "/", Built(bundle)).outcome == Redirected(307, SelfURL("/", canonical));
    ExampleURL(m, "");
  }
}
