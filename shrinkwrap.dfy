/**
 * The shrinkwrap URL: given the components a request asked for and every component
 * the installation resolved, the bundle URL that pins each of them to the exact
 * version installed.
 */
module Shrinkwrap {
  import opened Common
  import opened JsStrings
  import opened QueryString

  /** What the installation reports for one component. */
  datatype Component = Component(version: string, originalSource: string)

  /** A components object, in the order `Object.keys` lists it. */
  type Components = seq<(string, Component)>

  /** The options object; only `babelRuntime` is read, and it may be absent. */
  datatype Options = Options(babelRuntime: Option<bool>)

  /** The object handed to `URL.format`: no host, a path and a query. */
  datatype UrlParts = UrlParts(host: string, pathname: string, query: Query)

  function Names(cs: Components): (names: set<string>)
    ensures forall i :: 0 <= i < |cs| ==> cs[i].0 in names
    ensures forall n :: n in names ==> exists i :: 0 <= i < |cs| && cs[i].0 == n
  {
    set i | 0 <= i < |cs| :: cs[i].0
  }

  /** A component pinned by its source (a path or URL) is written as that source, any other as `name@version`. */
  function Render(name: string, c: Component): (target: string)
    ensures target != ""
  {
    if '/' in c.originalSource then c.originalSource else name + "@" + c.version
  }

  /** One step of the `reduce`: skip a filtered component, otherwise append its target after a comma. */
  function Step(acc: string, entry: (string, Component), exclude: Option<set<string>>): (r: string)
    ensures acc <= r
    ensures r == acc <==> exclude.Some? && entry.0 in exclude.value
  {
    var target := Render(entry.0, entry.1);
    if exclude.Some? && entry.0 in exclude.value then acc
    else if acc == "" then target
    else acc + "," + target
  }

  /** `Object.keys(components).reduce(step, acc)` */
  function Reduce(acc: string, cs: Components, exclude: Option<set<string>>): (r: string)
    ensures acc <= r
    ensures r == acc <==> Kept(cs, exclude) == []
    decreases |cs|
  {
    if cs == [] then acc
    else
      var next := Step(acc, cs[0], exclude);
      var r := Reduce(next, cs[1..], exclude);
      assert acc <= r by { PrefixTransitive(acc, next, r); }
      r
  }

  lemma PrefixTransitive(a: string, b: string, c: string)
    requires a <= b && b <= c
    ensures a <= c
  {
    assert c[..|a|] == b[..|a|];
  }

  /** The components the filter lets through, in key order. */
  function Kept(cs: Components, exclude: Option<set<string>>): (kept: Components)
    ensures forall e :: e in kept <==> e in cs && (exclude.None? || e.0 !in exclude.value)
    ensures |kept| <= |cs|
  {
    if cs == [] then []
    else if exclude.Some? && cs[0].0 in exclude.value then Kept(cs[1..], exclude)
    else [cs[0]] + Kept(cs[1..], exclude)
  }

  function Targets(cs: Components): (targets: seq<string>)
    ensures |targets| == |cs|
    ensures forall i :: 0 <= i < |cs| ==> targets[i] == Render(cs[i].0, cs[i].1)
  {
    if cs == [] then [] else [Render(cs[0].0, cs[0].1)] + Targets(cs[1..])
  }

  /** The comma-joined list `acc` continued by the comma-joined list `rest`. */
  function Append(acc: string, rest: string): string {
    if acc == "" then rest else if rest == "" then acc else acc + "," + rest
  }

  /** The fold continues a comma-joined list: it equals the list `acc` followed by the kept targets. */
  lemma {:induction false} ReduceJoins(acc: string, cs: Components, exclude: Option<set<string>>)
    decreases |cs|
    ensures Reduce(acc, cs, exclude) == Append(acc, Join(Targets(Kept(cs, exclude)), ","))
  {
    if cs != [] {
      var acc' := Step(acc, cs[0], exclude);
      ReduceJoins(acc', cs[1..], exclude);
      var tail := Targets(Kept(cs[1..], exclude));
      if !(exclude.Some? && cs[0].0 in exclude.value) {
        var t := Render(cs[0].0, cs[0].1);
        assert Targets(Kept(cs, exclude)) == [t] + tail;
        assert acc' == Append(acc, t);
        AppendTarget(acc, t, tail);
      }
    }
  }

  /** Appending one target to the running list, then the rest, is appending all of them. */
  lemma AppendTarget(acc: string, t: string, tail: seq<string>)
    requires t != ""
    requires forall i :: 0 <= i < |tail| ==> tail[i] != ""
    ensures Append(Append(acc, t), Join(tail, ",")) == Append(acc, Join([t] + tail, ","))
  {
    JoinEmpty(tail);
    if tail != [] {
      assert ([t] + tail)[1..] == tail;
      AppendNonEmpty(acc, t, Join(tail, ","));
    }
  }

  /** Continuing a list by a non-empty item and then by a non-empty list is continuing it by both at once. */
  lemma AppendNonEmpty(acc: string, t: string, rest: string)
    requires t != "" && rest != ""
    ensures Append(Append(acc, t), rest) == Append(acc, t + "," + rest)
  {
    if acc != "" {
      assert (acc + "," + t) + "," + rest == acc + "," + (t + "," + rest);
    }
  }

  /** A comma-joined list of non-empty targets is empty exactly when there are none. */
  lemma JoinEmpty(targets: seq<string>)
    requires forall i :: 0 <= i < |targets| ==> targets[i] != ""
    ensures Join(targets, ",") == "" <==> targets == []
  {
    if |targets| > 1 {
      assert Join(targets, ",") == targets[0] + "," + Join(targets[1..], ",");
    }
  }

  /**
   * `_createFixedVersionsQueryString(components, filter)`: the targets of the components
   * the filter does not exclude, in key order, joined by single commas.
   */
  function FixedVersionsQueryString(cs: Components, exclude: Option<set<string>>): (s: string)
    ensures s == Join(Targets(Kept(cs, exclude)), ",")
    ensures s == "" <==> Kept(cs, exclude) == []
  {
    ReduceJoins("", cs, exclude);
    JoinEmpty(Targets(Kept(cs, exclude)));
    assert Append("", Join(Targets(Kept(cs, exclude)), ",")) == Join(Targets(Kept(cs, exclude)), ",");
    Reduce("", cs, exclude)
  }

  /** When no target contains a comma, splitting the list on commas gives the targets back: no empty segment, no leading comma. */
  lemma SegmentsAreTargets(cs: Components, exclude: Option<set<string>>)
    requires Kept(cs, exclude) != []
    requires forall i :: 0 <= i < |cs| ==> ',' !in Render(cs[i].0, cs[i].1)
    ensures Split(FixedVersionsQueryString(cs, exclude), ',') == Targets(Kept(cs, exclude))
  {
    var kept := Kept(cs, exclude);
    forall i | 0 <= i < |kept| ensures ',' !in Targets(kept)[i] {
      assert kept[i] in cs;
    }
    SplitJoin(Targets(kept), ',');
  }

  /** `toUrl(bundleType, requestedComponents, allComponents, endpointVersion, options)` */
  function ToUrl(bundleType: string, requested: Components, all: Components, endpointVersion: string,
                 options: Option<Options>): (url: UrlParts)
    ensures url.host == ""
    ensures url.pathname == "/" + endpointVersion + "/bundles/" + bundleType
    ensures Lookup(url.query, "modules") == Some(FixedVersionsQueryString(requested, None))
    ensures Lookup(url.query, "shrinkwrap") == Some(FixedVersionsQueryString(all, Some(Names(requested))))
    ensures Lookup(url.query, "polyfills") == Some("false") <==> options.Some? && options.value.babelRuntime == Some(false)
    ensures Lookup(url.query, "polyfills").None? <==> !(options.Some? && options.value.babelRuntime == Some(false))
    ensures Keys(url.query) == ["modules", "shrinkwrap"] +
      if options.Some? && options.value.babelRuntime == Some(false) then ["polyfills"] else []
  {
    var opts := if options.Some? then options.value else Options(None);
    var query := UrlQuery(FixedVersionsQueryString(requested, None),
                          FixedVersionsQueryString(all, Some(Names(requested))),
                          opts.babelRuntime == Some(false));
    UrlParts("", "/" + endpointVersion + "/bundles/" + bundleType, query)
  }

  /** The query `toUrl` builds: `modules`, `shrinkwrap`, then `polyfills=false` when asked to leave polyfills out. */
  function UrlQuery(modules: string, shrinkwrap: string, noPolyfills: bool): (query: Query)
    ensures Lookup(query, "modules") == Some(modules)
    ensures Lookup(query, "shrinkwrap") == Some(shrinkwrap)
    ensures Lookup(query, "polyfills") == if noPolyfills then Some("false") else None
    ensures Keys(query) == ["modules", "shrinkwrap"] + if noPolyfills then ["polyfills"] else []
  {
    var query := [("modules", modules), ("shrinkwrap", shrinkwrap)];
    var query := if noPolyfills then query + [("polyfills", "false")] else query;
    assert query[0].0 == "modules" && query[1].0 == "shrinkwrap";
    assert |query| == 3 ==> query[2] == ("polyfills", "false");
    assert "polyfills" != "modules" && "polyfills" != "shrinkwrap" && "modules" != "shrinkwrap";
    assert Keys(query[2..]) == if noPolyfills then ["polyfills"] else [] by {
      if noPolyfills {
        assert query[2..][1..] == [];
      }
    }
    assert query[1..][1..] == query[2..];
    query
  }

  /** `modules` lists every requested component; nothing is filtered from it. */
  lemma {:induction false} ModulesUnfiltered(requested: Components)
    ensures Kept(requested, None) == requested
  {
    if requested != [] {
      ModulesUnfiltered(requested[1..]);
    }
  }

  /** `shrinkwrap` lists exactly the resolved components that were not requested. */
  lemma ShrinkwrapExcludesRequested(requested: Components, all: Components, name: string, c: Component)
    ensures (name, c) in Kept(all, Some(Names(requested))) <==>
            (name, c) in all && forall i :: 0 <= i < |requested| ==> requested[i].0 != name
  {
  }
}
