/**
 * The shrinkwrap URL read back by the bundle endpoint: the options the endpoint
 * derives from the query `toUrl` writes are the ones the URL was meant to pin.
 */
module ShrinkwrapRoundTrip {
  import opened Common
  import opened JsStrings
  import opened QueryString
  import opened Shrinkwrap
  import opened OutputBundle

  /** Every component renders to a list item: no comma and no whitespace at either end. */
  predicate RendersAsListItems(cs: Components) {
    forall i :: 0 <= i < |cs| ==> IsListItem(Render(cs[i].0, cs[i].1))
  }

  lemma KeptTargetsAreListItems(cs: Components, exclude: Option<set<string>>)
    requires RendersAsListItems(cs)
    ensures forall i :: 0 <= i < |Kept(cs, exclude)| ==> IsListItem(Targets(Kept(cs, exclude))[i])
  {
    var kept := Kept(cs, exclude);
    forall i | 0 <= i < |kept| ensures IsListItem(Targets(kept)[i]) {
      assert kept[i] in cs;
    }
  }

  /** A key that is not among the keys is absent. */
  lemma AbsentKey(q: Query, k: string)
    requires k !in Keys(q)
    ensures !HasKey(q, k)
  {
    KeysHas(q);
  }

  /** A query without `autoinit` requests its listed modules plus the `o-autoinit` range unless one is listed. */
  lemma WithoutAutoinit(q: Query, listed: seq<string>)
    requires HasKey(q, "modules") && SplitList(Lookup(q, "modules").value) == listed
    requires !HasKey(q, "autoinit")
    ensures GetBundleDetails(q).Ok?
    ensures GetBundleDetails(q).value.modules == ModuleSet(listed + if AutoinitListed(listed) then [] else [AutoinitModule])
  {
  }

  /**
   * Requesting a shrinkwrap URL pins exactly the resolved components that were not
   * requested (`versionLocks`, absent when every resolved component was requested),
   * requests every requested component (`modules`; an empty request reads as one empty
   * name), and keeps the Babel runtime off exactly when the options turned it off. The URL
   * carries no `autoinit`, so the endpoint appends the unpinned `o-autoinit` range to the
   * modules unless a requested target already starts with `o-autoinit`.
   */
  lemma ShrinkwrapUrlReadBack(bundleType: string, requested: Components, all: Components,
                              endpointVersion: string, options: Option<Options>)
    requires RendersAsListItems(requested) && RendersAsListItems(all)
    ensures var q := ToUrl(bundleType, requested, all, endpointVersion, options).query;
      var pinned := Kept(all, Some(Names(requested)));
      && GetBundleDetails(q).Ok?
      && (pinned == [] ==> GetBundleDetails(q).value.versionLocks.None?)
      && (pinned != [] ==> GetBundleDetails(q).value.versionLocks == Some(ModuleSet(Targets(pinned))))
      && (requested != [] ==> SplitList(Lookup(q, "modules").value) == Targets(requested))
      && (requested == [] ==> SplitList(Lookup(q, "modules").value) == [""])
      && (GetBundleDetails(q).value.babelRuntime <==> !(options.Some? && options.value.babelRuntime == Some(false)))
    ensures var q := ToUrl(bundleType, requested, all, endpointVersion, options).query;
      var listed := if requested == [] then [""] else Targets(requested);
      GetBundleDetails(q).Ok? &&
      GetBundleDetails(q).value.modules == ModuleSet(listed + if AutoinitListed(listed) then [] else [AutoinitModule])
  {
    RequestedReadBack(bundleType, requested, all, endpointVersion, options);
    var q := ToUrl(bundleType, requested, all, endpointVersion, options).query;
    var pinned := Kept(all, Some(Names(requested)));
    if pinned != [] {
      KeptTargetsAreListItems(all, Some(Names(requested)));
      SplitListJoin(Targets(pinned));
    }
    ModulesListed(requested);
  }

  /**
   * The module set the endpoint builds from a shrinkwrap URL: the requested targets (one
   * empty name for an empty request), then the unpinned `o-autoinit` range unless a
   * requested target already starts with `o-autoinit`.
   */
  lemma RequestedReadBack(bundleType: string, requested: Components, all: Components,
                          endpointVersion: string, options: Option<Options>)
    requires RendersAsListItems(requested)
    ensures var q := ToUrl(bundleType, requested, all, endpointVersion, options).query;
      var listed := if requested == [] then [""] else Targets(requested);
      GetBundleDetails(q).Ok? &&
      GetBundleDetails(q).value.modules == ModuleSet(listed + if AutoinitListed(listed) then [] else [AutoinitModule])
  {
    var q := ToUrl(bundleType, requested, all, endpointVersion, options).query;
    ModulesListed(requested);
    NoAutoinit(q, options.Some? && options.value.babelRuntime == Some(false));
    WithoutAutoinit(q, if requested == [] then [""] else Targets(requested));
  }

  /** The `modules` value splits back into the requested targets, or one empty name. */
  lemma ModulesListed(requested: Components)
    requires RendersAsListItems(requested)
    ensures SplitList(FixedVersionsQueryString(requested, None)) ==
      if requested == [] then [""] else Targets(requested)
  {
    ModulesUnfiltered(requested);
    if requested != [] {
      KeptTargetsAreListItems(requested, None);
      SplitListJoin(Targets(requested));
    }
  }

  /** A query holding only `modules`, `shrinkwrap` and perhaps `polyfills` has no `autoinit`. */
  lemma NoAutoinit(q: Query, polyfills: bool)
    requires Keys(q) == ["modules", "shrinkwrap"] + if polyfills then ["polyfills"] else []
    ensures !HasKey(q, "autoinit")
  {
    assert "autoinit" != "modules" && "autoinit" != "shrinkwrap" && "autoinit" != "polyfills";
    AbsentKey(q, "autoinit");
  }
}
