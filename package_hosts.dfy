/**
 * The health check that lists the registry's packages and groups them by the host
 * that serves them, so that one TCP/IP availability check is added per package host.
 * The dictionary of hosts already seen lives as long as the process: a host gets its
 * check the first time any run meets it, and never again.
 */
module PackageHosts {
  import opened JsStrings

  const MaxListedNames := 25
  const AndMore := "and more\U{2026}"
  const DefaultPort := "80"

  /** A registry package: its name and the host part of its URL (`""` when the URL has none). */
  datatype Package = Package(name: string, host: string)

  /** The TCP/IP check added for one host: the host, the name and port given to `nc`, and the names listed. */
  datatype TcpCheck = TcpCheck(host: string, hostName: string, port: string, packageNames: seq<string>)

  /** `seenPackageHosts`: each host's `packageNames`. */
  type Hosts = map<string, seq<string>>

  /** `packageNames.push(...)` as the loop does it: a name while fewer than 25, the marker at 25, nothing after. */
  function AddName(names: seq<string>, name: string): (r: seq<string>)
    ensures names <= r
    ensures |r| == |names| + 1 <==> |names| <= MaxListedNames
    ensures |r| <= |names| + 1
    ensures |names| < MaxListedNames ==> r[|names|] == name
    ensures |names| == MaxListedNames ==> r[|names|] == AndMore
  {
    if |names| < MaxListedNames then names + [name]
    else if |names| == MaxListedNames then names + [AndMore]
    else names
  }

  /** The names a host lists when `names` arrived for it: the first 25, then the marker if there were more. */
  function Capped(names: seq<string>): (listed: seq<string>)
    ensures |listed| <= MaxListedNames + 1
    ensures |listed| == MaxListedNames + 1 ==> listed[MaxListedNames] == AndMore
    ensures listed[..if |listed| <= MaxListedNames then |listed| else MaxListedNames] <= names
  {
    if |names| <= MaxListedNames then names else names[..MaxListedNames] + [AndMore]
  }

  /** Adding a name to a capped list is capping the longer list. */
  lemma AddNameCapped(names: seq<string>, name: string)
    ensures AddName(Capped(names), name) == Capped(names + [name])
  {
    if |names| == MaxListedNames {
      assert (names + [name])[..MaxListedNames] == names;
    } else if |names| > MaxListedNames {
      assert (names + [name])[..MaxListedNames] == names[..MaxListedNames];
    }
  }

  /** One iteration of the first loop. */
  function Record(seen: Hosts, p: Package): (r: Hosts)
    ensures r.Keys == if p.host == "" then seen.Keys else seen.Keys + {p.host}
    ensures forall h :: h in seen && h != p.host ==> r[h] == seen[h]
    ensures p.host in seen ==> seen[p.host] <= r[p.host]
  {
    if p.host == "" then seen
    else seen[p.host := AddName(if p.host in seen then seen[p.host] else [], p.name)]
  }

  /** `seenPackageHosts` after the first loop has gone through `ps`. */
  function Group(seen: Hosts, ps: seq<Package>): Hosts {
    if ps == [] then seen else Record(Group(seen, ps[..|ps| - 1]), ps[|ps| - 1])
  }

  /** `checksToAdd` after the first loop has gone through `ps`. */
  function NewHosts(seen: Hosts, ps: seq<Package>): (r: seq<string>)
    ensures |r| <= |ps|
    ensures forall i :: 0 <= i < |r| ==> r[i] != "" && r[i] !in seen
  {
    if ps == [] then []
    else
      var prefix, p := ps[..|ps| - 1], ps[|ps| - 1];
      if p.host != "" && p.host !in Group(seen, prefix) then
        GroupKeys(seen, prefix, p.host);
        NewHosts(seen, prefix) + [p.host]
      else NewHosts(seen, prefix)
  }

  /** The names of the packages in `ps` served from `host`, in arrival order. */
  function NamesAt(host: string, ps: seq<Package>): seq<string> {
    if ps == [] then []
    else NamesAt(host, ps[..|ps| - 1]) + if ps[|ps| - 1].host == host then [ps[|ps| - 1].name] else []
  }

  predicate ServedBy(ps: seq<Package>, host: string) {
    exists i :: 0 <= i < |ps| && ps[i].host == host
  }

  lemma ServedByLast(ps: seq<Package>, h: string)
    requires ps != []
    ensures ServedBy(ps, h) <==> ServedBy(ps[..|ps| - 1], h) || ps[|ps| - 1].host == h
  {
    var prefix := ps[..|ps| - 1];
    if ServedBy(ps, h) {
      var i :| 0 <= i < |ps| && ps[i].host == h;
      if i < |ps| - 1 {
        assert prefix[i].host == h;
      }
    }
    if ServedBy(prefix, h) {
      var i :| 0 <= i < |prefix| && prefix[i].host == h;
      assert ps[i].host == h;
    }
  }

  /** The hosts known after a run are the ones known before and every non-empty host of the run. */
  lemma {:induction false} GroupKeys(seen: Hosts, ps: seq<Package>, h: string)
    ensures h in Group(seen, ps) <==> h in seen || (h != "" && ServedBy(ps, h))
  {
    if ps != [] {
      GroupKeys(seen, ps[..|ps| - 1], h);
      ServedByLast(ps, h);
    }
  }

  /** A host is added to `checksToAdd` exactly when it is served in this run and was never seen before. */
  lemma {:induction false} NewHostsExactly(seen: Hosts, ps: seq<Package>, h: string)
    ensures h in NewHosts(seen, ps) <==> h !in seen && h != "" && ServedBy(ps, h)
  {
    if ps != [] {
      var prefix := ps[..|ps| - 1];
      NewHostsExactly(seen, prefix, h);
      GroupKeys(seen, prefix, h);
      ServedByLast(ps, h);
    }
  }

  /** No host is added twice. */
  lemma {:induction false} NewHostsDistinct(seen: Hosts, ps: seq<Package>)
    ensures forall i, j :: 0 <= i < j < |NewHosts(seen, ps)| ==> NewHosts(seen, ps)[i] != NewHosts(seen, ps)[j]
  {
    if ps != [] {
      var prefix := ps[..|ps| - 1];
      var p := ps[|ps| - 1];
      NewHostsDistinct(seen, prefix);
      NewHostsExactly(seen, prefix, p.host);
      GroupKeys(seen, prefix, p.host);
    }
  }

  /** A run changes only the entries of the hosts it serves. */
  lemma {:induction false} GroupOtherHosts(seen: Hosts, ps: seq<Package>, h: string)
    requires !ServedBy(ps, h)
    ensures h in Group(seen, ps) <==> h in seen
    ensures h in seen ==> Group(seen, ps)[h] == seen[h]
  {
    if ps != [] {
      ServedByLast(ps, h);
      GroupOtherHosts(seen, ps[..|ps| - 1], h);
    }
  }

  lemma {:induction false} NamesAbsent(h: string, ps: seq<Package>)
    requires !ServedBy(ps, h)
    ensures NamesAt(h, ps) == []
  {
    if ps != [] {
      ServedByLast(ps, h);
      NamesAbsent(h, ps[..|ps| - 1]);
    }
  }

  /**
   * Each host lists the first 25 names that ever arrived for it, across every run since
   * it was first seen, and then one `and more…` marker: `history` is what arrived before.
   */
  lemma {:induction false} GroupNames(seen: Hosts, ps: seq<Package>, h: string, history: seq<string>)
    requires h != ""
    requires h in seen ==> seen[h] == Capped(history)
    requires h !in seen ==> history == []
    ensures h in Group(seen, ps) ==> Group(seen, ps)[h] == Capped(history + NamesAt(h, ps))
  {
    if ps != [] {
      var prefix := ps[..|ps| - 1];
      var p := ps[|ps| - 1];
      GroupNames(seen, prefix, h, history);
      var before := Group(seen, prefix);
      var arrived := history + NamesAt(h, prefix);
      assert Group(seen, ps) == Record(before, p);
      if p.host == h {
        var names := if h in before then before[h] else [];
        assert names == Capped(arrived) by {
          if h !in before {
            GroupKeys(seen, prefix, h);
            NamesAbsent(h, prefix);
            assert arrived == [];
          }
        }
        assert Record(before, p)[h] == AddName(names, p.name);
        AddNameCapped(arrived, p.name);
        assert NamesAt(h, ps) == NamesAt(h, prefix) + [p.name];
        AppendAssociative(history, NamesAt(h, prefix), [p.name]);
      } else {
        assert NamesAt(h, ps) == NamesAt(h, prefix) + [];
        assert h in Record(before, p) ==> h in before && Record(before, p)[h] == before[h];
      }
    }
  }

  lemma AppendAssociative(a: seq<string>, b: seq<string>, c: seq<string>)
    ensures a + (b + c) == a + b + c
  {
  }

  /** Two runs one after the other leave the dictionary as one run over both package lists. */
  lemma {:induction false} GroupAcrossRuns(seen: Hosts, first: seq<Package>, second: seq<Package>)
    ensures Group(Group(seen, first), second) == Group(seen, first + second)
  {
    if second != [] {
      GroupAcrossRuns(seen, first, second[..|second| - 1]);
      assert (first + second)[..|first + second| - 1] == first + second[..|second| - 1];
    } else {
      assert first + second == first;
    }
  }

  /** One more package: the first loop's state after `ps[..i + 1]` from its state after `ps[..i]`. */
  lemma RunStep(seen: Hosts, ps: seq<Package>, i: nat)
    requires i < |ps|
    ensures Group(seen, ps[..i + 1]) == Record(Group(seen, ps[..i]), ps[i])
    ensures NewHosts(seen, ps[..i + 1]) ==
      if ps[i].host != "" && ps[i].host !in Group(seen, ps[..i]) then NewHosts(seen, ps[..i]) + [ps[i].host]
      else NewHosts(seen, ps[..i])
  {
    assert ps[..i + 1][..i] == ps[..i];
  }

  /**
   * Starting from the empty dictionary, after a first and a second run a host lists the
   * first 25 names served from it over both runs, then the marker.
   */
  lemma HostNamesSinceStart(first: seq<Package>, second: seq<Package>, h: string)
    requires h != ""
    ensures var seen := Group(Group(map[], first), second);
      h in seen ==> seen[h] == Capped(NamesAt(h, first + second))
  {
    GroupAcrossRuns(map[], first, second);
    GroupNames(map[], first + second, h, []);
    assert [] + NamesAt(h, first + second) == NamesAt(h, first + second);
  }

  /** The host and port given to `nc`: split at the colon when there is one, port 80 otherwise. */
  function Endpoint(host: string): (endpoint: (string, string))
    ensures ':' !in host ==> endpoint == (host, DefaultPort)
    ensures ':' in host ==> ':' !in endpoint.0 && ':' !in endpoint.1
    ensures ':' in host ==>
      host == endpoint.0 + ":" + endpoint.1 || endpoint.0 + ":" + endpoint.1 + ":" <= host
  {
    if ':' in host then
      var parts := Split(host, ':');
      FirstTwoParts(host, ':');
      (parts[0], parts[1])
    else (host, DefaultPort)
  }

  /** The first two parts of a split, with the separator between them, start the string. */
  lemma FirstTwoParts(s: string, sep: char)
    requires sep in s
    ensures var parts := Split(s, sep);
      s == parts[0] + [sep] + parts[1] || parts[0] + [sep] + parts[1] + [sep] <= s
  {
    var parts := Split(s, sep);
    JoinSplit(s, sep);
    assert s == parts[0] + [sep] + Join(parts[1..], [sep]);
    if |parts| > 2 {
      assert Join(parts[1..], [sep]) == parts[1] + [sep] + Join(parts[2..], [sep]);
    }
  }

  function CheckFor(host: string, names: seq<string>): TcpCheck {
    TcpCheck(host, Endpoint(host).0, Endpoint(host).1, names)
  }

  /** Every host a run adds a check for is in the dictionary after the run. */
  lemma NewHostsRecorded(seen: Hosts, ps: seq<Package>)
    ensures forall k :: 0 <= k < |NewHosts(seen, ps)| ==> NewHosts(seen, ps)[k] in Group(seen, ps)
  {
    forall k | 0 <= k < |NewHosts(seen, ps)| ensures NewHosts(seen, ps)[k] in Group(seen, ps) {
      var h := NewHosts(seen, ps)[k];
      NewHostsExactly(seen, ps, h);
      GroupKeys(seen, ps, h);
    }
  }

  /** Every recorded host is a real host with between 1 and 25 names plus the marker. */
  predicate WellFormed(seen: Hosts) {
    forall h :: h in seen ==> h != "" && 1 <= |seen[h]| <= MaxListedNames + 1
  }

  /** Recording a package keeps the dictionary well formed. */
  lemma RecordWellFormed(seen: Hosts, p: Package)
    requires WellFormed(seen)
    ensures WellFormed(Record(seen, p))
  {
    if p.host != "" {
      var names := if p.host in seen then seen[p.host] else [];
      assert 1 <= |AddName(names, p.name)| <= MaxListedNames + 1;
    }
  }

  /** The second loop: one check per host of `newHosts`, from the names `hosts` lists for it. */
  method ChecksFor(hosts: Hosts, newHosts: seq<string>) returns (checks: seq<TcpCheck>)
    requires forall k :: 0 <= k < |newHosts| ==> newHosts[k] in hosts
    ensures |checks| == |newHosts|
    ensures forall k :: 0 <= k < |checks| ==> checks[k] == CheckFor(newHosts[k], hosts[newHosts[k]])
  {
    checks := [];
    for j := 0 to |newHosts|
      invariant |checks| == j
      invariant forall k :: 0 <= k < j ==> checks[k] == CheckFor(newHosts[k], hosts[newHosts[k]])
    {
      var host := newHosts[j];
      var hostName := host;
      var port := DefaultPort;
      if ':' in host {
        var splitUrl := Split(host, ':');
        hostName := splitUrl[0];
        port := splitUrl[1];
      }
      checks := checks + [TcpCheck(host, hostName, port, hosts[host])];
    }
  }

  /** Writing a key twice leaves the second value. */
  lemma UpdateTwice(m: Hosts, k: string, first: seq<string>, second: seq<string>)
    ensures m[k := first][k := second] == m[k := second]
  {
    assert m[k := first][k := second].Keys == m[k := second].Keys;
  }

  /** The process-wide state the health check's callback closes over. */
  class PackageHostMonitor {
    var seenPackageHosts: Hosts

    ghost predicate Valid()
      reads this
    {
      WellFormed(seenPackageHosts)
    }

    constructor ()
      ensures Valid() && seenPackageHosts == map[]
    {
      seenPackageHosts := map[];
    }

    /** One run of the check: group `packageList` by host, then build a check for each host met for the first time. */
    method Refresh(packageList: seq<Package>) returns (checks: seq<TcpCheck>)
      requires Valid()
      modifies this
      ensures Valid()
      ensures seenPackageHosts == Group(old(seenPackageHosts), packageList)
      ensures |checks| == |NewHosts(old(seenPackageHosts), packageList)|
      ensures forall i :: 0 <= i < |checks| ==>
        var h := NewHosts(old(seenPackageHosts), packageList)[i];
        h in seenPackageHosts && checks[i] == CheckFor(h, seenPackageHosts[h])
      ensures forall i :: 0 <= i < |checks| ==>
        checks[i].host != "" && 1 <= |checks[i].packageNames| <= MaxListedNames + 1
    {
      ghost var seen0 := seenPackageHosts;
      var checksToAdd: seq<string> := [];
      for i := 0 to |packageList|
        invariant WellFormed(seenPackageHosts)
        invariant seenPackageHosts == Group(seen0, packageList[..i])
        invariant checksToAdd == NewHosts(seen0, packageList[..i])
      {
        var p := packageList[i];
        ghost var before := seenPackageHosts;
        RunStep(seen0, packageList, i);
        RecordWellFormed(before, p);
        if p.host == "" {
          continue;
        }
        ghost var added := p.host !in seenPackageHosts;
        if p.host !in seenPackageHosts {
          seenPackageHosts := seenPackageHosts[p.host := []];
          checksToAdd := checksToAdd + [p.host];
        }
        var names := seenPackageHosts[p.host];
        assert names == if p.host in before then before[p.host] else [];
        if |names| < MaxListedNames {
          names := names + [p.name];
        } else if |names| == MaxListedNames {
          names := names + [AndMore];
        }
        assert names == AddName(if p.host in before then before[p.host] else [], p.name);
        seenPackageHosts := seenPackageHosts[p.host := names];
        if added {
          UpdateTwice(before, p.host, [], names);
        }
        assert seenPackageHosts == Record(before, p);
      }
      assert packageList[..|packageList|] == packageList;
      NewHostsRecorded(seen0, packageList);
      checks := ChecksFor(seenPackageHosts, checksToAdd);
    }
  }
}
