/** The dependency index itself (`Db` in index.js): `store` writes one index
    entry per OR-ed comparator group of every dependency of a package, plus
    the package document, in one batch; `query` scans the entries of one
    dependency name and returns the documents of those whose stored interval
    overlaps the queried range. */
module DependencyDb {
  import opened Strings
  import opened Semver
  import opened Results
  import opened RangeEncoder
  import opened IndexKeys
  import opened Backend

  /** One declared dependency: its name and its range string. */
  datatype Dependency = Dependency(name: string, range: string)

  /** A package document. `dependencies` lists the declared dependencies in
      the order `Object.keys` gives them, and is empty when the field is
      missing. */
  datatype Package = Package(name: string, version: string, dependencies: seq<Dependency>)

  /** What the store holds: an index entry holds the dependant's
      `name@version`, a document entry the package itself. */
  datatype Value = Id(id: string) | Doc(pkg: Package)

  /** `pkg.name + '@' + pkg.version`. */
  function PackageId(pkg: Package): string {
    pkg.name + "@" + pkg.version
  }

  // ---------------------------------------------------------------------
  // store: the batch
  // ---------------------------------------------------------------------

  /** How an index key is built from a dependency name and an AND-group;
      `store` uses `genkey` for the dependant being stored (`KeyOf`). */
  type KeyBuilder = (string, seq<Comparator>) -> Result<string>

  function KeyOf(pack: nat -> string, id: string): KeyBuilder {
    (dep, group) => GenKey(pack, id, dep, group)
  }

  /** The index puts for the OR-ed groups of one dependency, in order; the
      first group that does not normalise aborts with its error. */
  function GroupPuts(key: KeyBuilder, id: string, dep: string, groups: seq<seq<Comparator>>)
    : Result<seq<Entry<Value>>>
    decreases |groups|
  {
    if groups == [] then Ok([])
    else
      match GroupPuts(key, id, dep, groups[..|groups| - 1])
      case Err(e) => Err(e)
      case Ok(ps) =>
        match key(dep, groups[|groups| - 1])
        case Err(e) => Err(e)
        case Ok(k) => Ok(ps + [Entry(k, Id(id))])
  }

  /** The index puts for a list of dependencies: a dependency whose range
      does not parse is skipped, any other contributes its groups' puts. */
  function DependencyPuts(key: KeyBuilder, parse: string -> Option<Range>, id: string, deps: seq<Dependency>)
    : Result<seq<Entry<Value>>>
    decreases |deps|
  {
    if deps == [] then Ok([])
    else
      match DependencyPuts(key, parse, id, deps[..|deps| - 1])
      case Err(e) => Err(e)
      case Ok(ps) =>
        var d := deps[|deps| - 1];
        match parse(d.range)
        case None => Ok(ps)
        case Some(r) =>
          match GroupPuts(key, id, d.name, r.groups)
          case Err(e) => Err(e)
          case Ok(qs) => Ok(ps + qs)
  }

  /** The batch `store` hands to the backend: the index puts, then the
      document put under `'!pkg!' + name@version`. */
  function StoreBatch(pack: nat -> string, parse: string -> Option<Range>, pkg: Package)
    : Result<seq<Entry<Value>>>
  {
    var id := PackageId(pkg);
    match DependencyPuts(KeyOf(pack, id), parse, id, pkg.dependencies)
    case Err(e) => Err(e)
    case Ok(ps) => Ok(ps + [Entry(DocKey(id), Doc(pkg))])
  }

  /** The batch construction of `store` (index.js:17-34): a loop over the
      dependencies; each range that parses contributes its groups' puts, and
      the document put comes last. */
  method BuildBatch(pack: nat -> string, parse: string -> Option<Range>, pkg: Package)
    returns (r: Result<seq<Entry<Value>>>)
    ensures r == StoreBatch(pack, parse, pkg)
  {
    var deps := pkg.dependencies;
    var id := PackageId(pkg);
    var batch: seq<Entry<Value>> := [];
    var i := 0;
    while i < |deps|
      invariant 0 <= i <= |deps|
      invariant DependencyPuts(KeyOf(pack, id), parse, id, deps[..i]) == Ok(batch)
    {
      var d := deps[i];
      assert deps[..i + 1][..i] == deps[..i];
      var parsed := parse(d.range);
      if parsed.Some? {
        var puts := BuildGroupPuts(pack, id, d.name, parsed.value.groups);
        if puts.Err? {
          DependencyPutsErrorSticks(KeyOf(pack, id), parse, id, deps, i + 1);
          return Err(puts.error);
        }
        batch := batch + puts.value;
      }
      i := i + 1;
    }
    assert deps[..i] == deps;
    r := Ok(batch + [Entry(DocKey(id), Doc(pkg))]);
  }

  /** The inner loop of `store` (index.js:28-31): one put per OR-ed group,
      keyed by `genkey`, whose error is not caught. */
  method BuildGroupPuts(pack: nat -> string, id: string, dep: string, groups: seq<seq<Comparator>>)
    returns (r: Result<seq<Entry<Value>>>)
    ensures r == GroupPuts(KeyOf(pack, id), id, dep, groups)
  {
    var puts: seq<Entry<Value>> := [];
    var j := 0;
    while j < |groups|
      invariant 0 <= j <= |groups|
      invariant GroupPuts(KeyOf(pack, id), id, dep, groups[..j]) == Ok(puts)
    {
      assert groups[..j + 1][..j] == groups[..j];
      var key := GenKey(pack, id, dep, groups[j]);
      if key.Err? {
        GroupPutsErrorSticks(KeyOf(pack, id), id, dep, groups, j + 1);
        return Err(key.error);
      }
      puts := puts + [Entry(key.value, Id(id))];
      j := j + 1;
    }
    assert groups[..j] == groups;
    r := Ok(puts);
  }

  /** Once a prefix of the groups fails, so do all the groups, with the
      same error. */
  lemma {:induction false} GroupPutsErrorSticks(key: KeyBuilder, id: string, dep: string,
                                                groups: seq<seq<Comparator>>, n: nat)
    requires n <= |groups| && GroupPuts(key, id, dep, groups[..n]).Err?
    ensures GroupPuts(key, id, dep, groups) == GroupPuts(key, id, dep, groups[..n])
    decreases |groups|
  {
    if n < |groups| {
      assert groups[..|groups| - 1][..n] == groups[..n];
      GroupPutsErrorSticks(key, id, dep, groups[..|groups| - 1], n);
    } else {
      assert groups[..n] == groups;
    }
  }

  /** Once a prefix of the dependencies fails, so does the whole list, with
      the same error. */
  lemma {:induction false} DependencyPutsErrorSticks(key: KeyBuilder, parse: string -> Option<Range>,
                                                     id: string, deps: seq<Dependency>, n: nat)
    requires n <= |deps| && DependencyPuts(key, parse, id, deps[..n]).Err?
    ensures DependencyPuts(key, parse, id, deps) == DependencyPuts(key, parse, id, deps[..n])
    decreases |deps|
  {
    if n < |deps| {
      assert deps[..|deps| - 1][..n] == deps[..n];
      DependencyPutsErrorSticks(key, parse, id, deps[..|deps| - 1], n);
    } else {
      assert deps[..n] == deps;
    }
  }

  /** `(i, j)` names the `j`-th OR-ed group of the `i`-th dependency, whose
      range parses. */
  predicate GroupOf(parse: string -> Option<Range>, deps: seq<Dependency>, i: int, j: int) {
    0 <= i < |deps| && parse(deps[i].range).Some? && 0 <= j < |parse(deps[i].range).value.groups|
  }

  function GroupAt(parse: string -> Option<Range>, deps: seq<Dependency>, i: int, j: int): seq<Comparator>
    requires GroupOf(parse, deps, i, j)
  {
    parse(deps[i].range).value.groups[j]
  }

  /** The number of OR-ed groups over the dependencies whose range parses. */
  function GroupCount(parse: string -> Option<Range>, deps: seq<Dependency>): nat
    decreases |deps|
  {
    if deps == [] then 0
    else
      var d := deps[|deps| - 1];
      GroupCount(parse, deps[..|deps| - 1]) + (if parse(d.range).Some? then |parse(d.range).value.groups| else 0)
  }

  /** The groups of one dependency give one put each, in order, keyed by
      `genkey` and holding the dependant, exactly when every group's key can
      be built. */
  lemma {:induction false} GroupPutsExactly(key: KeyBuilder, id: string, dep: string, groups: seq<seq<Comparator>>)
    ensures GroupPuts(key, id, dep, groups).Ok? <==>
      forall j :: 0 <= j < |groups| ==> key(dep, groups[j]).Ok?
    ensures GroupPuts(key, id, dep, groups).Ok? ==>
      |GroupPuts(key, id, dep, groups).value| == |groups|
      && forall j :: 0 <= j < |groups| ==>
           GroupPuts(key, id, dep, groups).value[j] == Entry(key(dep, groups[j]).value, Id(id))
    decreases |groups|
  {
    if groups != [] {
      var n := |groups| - 1;
      var init := groups[..n];
      GroupPutsExactly(key, id, dep, init);
      assert forall j :: 0 <= j < n ==> init[j] == groups[j];
    }
  }

  /** A failure of the groups' puts is the error of some group's key. */
  lemma {:induction false} GroupPutsFailure(key: KeyBuilder, id: string, dep: string, groups: seq<seq<Comparator>>)
    requires GroupPuts(key, id, dep, groups).Err?
    ensures exists j :: 0 <= j < |groups| && key(dep, groups[j]) == Err(GroupPuts(key, id, dep, groups).error)
    decreases |groups|
  {
    var n := |groups| - 1;
    var init := groups[..n];
    if GroupPuts(key, id, dep, init).Err? {
      GroupPutsFailure(key, id, dep, init);
      var j :| 0 <= j < n && key(dep, init[j]) == Err(GroupPuts(key, id, dep, init).error);
      assert init[j] == groups[j];
    } else {
      assert key(dep, groups[n]) == Err(GroupPuts(key, id, dep, groups).error);
    }
  }

  /** The groups of `deps[..n]` are those of `deps` on the first `n`
      dependencies. */
  lemma GroupOfPrefix(parse: string -> Option<Range>, deps: seq<Dependency>, n: int)
    requires 0 <= n <= |deps|
    ensures forall i, j :: GroupOf(parse, deps[..n], i, j) <==> i < n && GroupOf(parse, deps, i, j)
    ensures forall i, j :: GroupOf(parse, deps[..n], i, j) ==>
      deps[..n][i] == deps[i] && GroupAt(parse, deps[..n], i, j) == GroupAt(parse, deps, i, j)
  {
  }

  /** The index puts of a list of dependencies exist exactly when every group
      of every parsing range has a key. */
  lemma {:induction false} DependencyPutsSucceed(key: KeyBuilder, parse: string -> Option<Range>,
                                                 id: string, deps: seq<Dependency>)
    ensures DependencyPuts(key, parse, id, deps).Ok? <==>
      forall i, j :: GroupOf(parse, deps, i, j) ==> key(deps[i].name, GroupAt(parse, deps, i, j)).Ok?
    decreases |deps|
  {
    if deps != [] {
      var n := |deps| - 1;
      var d := deps[n];
      DependencyPutsSucceed(key, parse, id, deps[..n]);
      GroupOfPrefix(parse, deps, n);
      if parse(d.range).Some? {
        var groups := parse(d.range).value.groups;
        GroupPutsExactly(key, id, d.name, groups);
        assert forall j :: 0 <= j < |groups| ==> GroupOf(parse, deps, n, j) && GroupAt(parse, deps, n, j) == groups[j];
      }
    }
  }

  /** A failure of the index puts is the error of some group's key. */
  lemma {:induction false} DependencyPutsFailure(key: KeyBuilder, parse: string -> Option<Range>,
                                                 id: string, deps: seq<Dependency>)
    requires DependencyPuts(key, parse, id, deps).Err?
    ensures exists i, j ::
      GroupOf(parse, deps, i, j) && key(deps[i].name, GroupAt(parse, deps, i, j)) == Err(DependencyPuts(key, parse, id, deps).error)
    decreases |deps|
  {
    var n := |deps| - 1;
    var d := deps[n];
    var e := DependencyPuts(key, parse, id, deps).error;
    GroupOfPrefix(parse, deps, n);
    if DependencyPuts(key, parse, id, deps[..n]).Err? {
      DependencyPutsFailure(key, parse, id, deps[..n]);
      var i, j :| GroupOf(parse, deps[..n], i, j)
        && key(deps[..n][i].name, GroupAt(parse, deps[..n], i, j)) == Err(e);
      assert GroupOf(parse, deps, i, j);
    } else {
      var groups := parse(d.range).value.groups;
      GroupPutsFailure(key, id, d.name, groups);
      var j :| 0 <= j < |groups| && key(d.name, groups[j]) == Err(e);
      assert GroupOf(parse, deps, n, j) && GroupAt(parse, deps, n, j) == groups[j];
    }
  }

  /** There is one index put per group of every parsing range. */
  lemma {:induction false} DependencyPutsCount(key: KeyBuilder, parse: string -> Option<Range>,
                                               id: string, deps: seq<Dependency>)
    requires DependencyPuts(key, parse, id, deps).Ok?
    ensures |DependencyPuts(key, parse, id, deps).value| == GroupCount(parse, deps)
    decreases |deps|
  {
    if deps != [] {
      var n := |deps| - 1;
      var d := deps[n];
      DependencyPutsCount(key, parse, id, deps[..n]);
      if parse(d.range).Some? {
        GroupPutsExactly(key, id, d.name, parse(d.range).value.groups);
      }
    }
  }

  /** Every group of every parsing range has its put, holding the
      dependant. */
  lemma {:induction false} DependencyPutsCover(key: KeyBuilder, parse: string -> Option<Range>,
                                               id: string, deps: seq<Dependency>)
    requires DependencyPuts(key, parse, id, deps).Ok?
    ensures forall i, j :: GroupOf(parse, deps, i, j) ==>
      && key(deps[i].name, GroupAt(parse, deps, i, j)).Ok?
      && Entry(key(deps[i].name, GroupAt(parse, deps, i, j)).value, Id(id)) in DependencyPuts(key, parse, id, deps).value
    decreases |deps|
  {
    if deps != [] {
      var n := |deps| - 1;
      var d := deps[n];
      var prefix := deps[..n];
      var ps := DependencyPuts(key, parse, id, deps).value;
      var pre := DependencyPuts(key, parse, id, prefix).value;
      GroupOfPrefix(parse, deps, n);
      DependencyPutsCover(key, parse, id, prefix);
      var groups := if parse(d.range).Some? then parse(d.range).value.groups else [];
      GroupPutsExactly(key, id, d.name, groups);
      var qs := GroupPuts(key, id, d.name, groups).value;
      assert ps == pre + qs;
      forall i, j | GroupOf(parse, deps, i, j)
        ensures key(deps[i].name, GroupAt(parse, deps, i, j)).Ok?
        ensures Entry(key(deps[i].name, GroupAt(parse, deps, i, j)).value, Id(id)) in ps
      {
        if i == n {
          assert GroupAt(parse, deps, i, j) == groups[j];
          assert ps[|pre| + j] == qs[j];
        } else {
          assert GroupOf(parse, prefix, i, j);
        }
      }
    }
  }

  /** Every index put holds the dependant, under the key of some group of a
      parsing range. */
  lemma {:induction false} DependencyPutsOrigin(key: KeyBuilder, parse: string -> Option<Range>,
                                                id: string, deps: seq<Dependency>)
    requires DependencyPuts(key, parse, id, deps).Ok?
    ensures var ps := DependencyPuts(key, parse, id, deps).value;
      forall k :: 0 <= k < |ps| ==>
        && ps[k].value == Id(id)
        && exists i, j :: GroupOf(parse, deps, i, j) && key(deps[i].name, GroupAt(parse, deps, i, j)) == Ok(ps[k].key)
    decreases |deps|
  {
    if deps != [] {
      var n := |deps| - 1;
      var d := deps[n];
      var prefix := deps[..n];
      var ps := DependencyPuts(key, parse, id, deps).value;
      var pre := DependencyPuts(key, parse, id, prefix).value;
      GroupOfPrefix(parse, deps, n);
      DependencyPutsOrigin(key, parse, id, prefix);
      var groups := if parse(d.range).Some? then parse(d.range).value.groups else [];
      GroupPutsExactly(key, id, d.name, groups);
      var qs := GroupPuts(key, id, d.name, groups).value;
      assert ps == pre + qs;
      forall k | 0 <= k < |ps|
        ensures ps[k].value == Id(id)
        ensures exists i, j :: GroupOf(parse, deps, i, j) && key(deps[i].name, GroupAt(parse, deps, i, j)) == Ok(ps[k].key)
      {
        if k < |pre| {
          assert ps[k] == pre[k];
          var i, j :| GroupOf(parse, prefix, i, j) && key(prefix[i].name, GroupAt(parse, prefix, i, j)) == Ok(pre[k].key);
          assert GroupOf(parse, deps, i, j);
        } else {
          var j := k - |pre|;
          assert ps[k] == qs[j];
          assert GroupOf(parse, deps, n, j) && GroupAt(parse, deps, n, j) == groups[j];
        }
      }
    }
  }

  /** Whether `store` can build its batch: exactly when every group of every
      parsing range has a key; otherwise it fails with some group's error. */
  lemma StoreBatchOutcome(pack: nat -> string, parse: string -> Option<Range>, pkg: Package)
    ensures var deps, id := pkg.dependencies, PackageId(pkg);
      StoreBatch(pack, parse, pkg).Ok? <==>
        forall i, j :: GroupOf(parse, deps, i, j) ==> GenKey(pack, id, deps[i].name, GroupAt(parse, deps, i, j)).Ok?
    ensures var deps, id := pkg.dependencies, PackageId(pkg);
      StoreBatch(pack, parse, pkg).Err? ==>
        exists i, j :: GroupOf(parse, deps, i, j)
          && GenKey(pack, id, deps[i].name, GroupAt(parse, deps, i, j)) == Err(StoreBatch(pack, parse, pkg).error)
  {
    var deps, id := pkg.dependencies, PackageId(pkg);
    var key := KeyOf(pack, id);
    DependencyPutsSucceed(key, parse, id, deps);
    if DependencyPuts(key, parse, id, deps).Err? {
      DependencyPutsFailure(key, parse, id, deps);
    }
  }

  /** The batch of `store`, when it can be built: one index put per group of
      every parsing range, each keyed under `'!index!'` and holding the
      dependant, and then, last, the document put. */
  lemma StoreBatchContents(pack: nat -> string, parse: string -> Option<Range>, pkg: Package)
    requires StoreBatch(pack, parse, pkg).Ok?
    ensures var deps, id := pkg.dependencies, PackageId(pkg);
      var b := StoreBatch(pack, parse, pkg).value;
      && |b| == GroupCount(parse, deps) + 1
      && b[|b| - 1] == Entry(DocKey(id), Doc(pkg))
      && (forall i, j :: GroupOf(parse, deps, i, j) ==>
            && GenKey(pack, id, deps[i].name, GroupAt(parse, deps, i, j)).Ok?
            && Entry(GenKey(pack, id, deps[i].name, GroupAt(parse, deps, i, j)).value, Id(id)) in b)
      && (forall k :: 0 <= k < |b| - 1 ==> b[k].value == Id(id) && IndexPrefix <= b[k].key)
  {
    var deps, id := pkg.dependencies, PackageId(pkg);
    var key := KeyOf(pack, id);
    var ps := DependencyPuts(key, parse, id, deps).value;
    var b := StoreBatch(pack, parse, pkg).value;
    assert b == ps + [Entry(DocKey(id), Doc(pkg))];
    DependencyPutsCount(key, parse, id, deps);
    DependencyPutsCover(key, parse, id, deps);
    DependencyPutsOrigin(key, parse, id, deps);
    forall k | 0 <= k < |b| - 1 ensures b[k].value == Id(id) && IndexPrefix <= b[k].key {
      assert b[k] == ps[k];
      var i, j :| GroupOf(parse, deps, i, j) && key(deps[i].name, GroupAt(parse, deps, i, j)) == Ok(ps[k].key);
      assert GenKey(pack, id, deps[i].name, GroupAt(parse, deps, i, j)) == Ok(ps[k].key);
      assert IndexPrefix <= IndexPrefix + deps[i].name + "!" + id + "!";
    }
    forall i, j | GroupOf(parse, deps, i, j)
      ensures GenKey(pack, id, deps[i].name, GroupAt(parse, deps, i, j)).Ok?
      ensures Entry(GenKey(pack, id, deps[i].name, GroupAt(parse, deps, i, j)).value, Id(id)) in b
    {
      assert key(deps[i].name, GroupAt(parse, deps, i, j)) == GenKey(pack, id, deps[i].name, GroupAt(parse, deps, i, j));
    }
  }

  // ---------------------------------------------------------------------
  // The store's integrity: every index entry points at a stored document
  // ---------------------------------------------------------------------

  const PkgPrefix: string := "!pkg!"

  /** What an entry under key `k` must hold: a document under `'!pkg!'`, and
      under `'!index!'` a dependant whose document is stored. */
  predicate LinkedAt(es: seq<Entry<Value>>, k: string, v: Value) {
    && (PkgPrefix <= k ==> v.Doc?)
    && (IndexPrefix <= k ==> v.Id? && Get(es, DocKey(v.id)).Some?)
  }

  predicate Linked(es: seq<Entry<Value>>) {
    forall i :: 0 <= i < |es| ==> LinkedAt(es, es[i].key, es[i].value)
  }

  /** `store` keeps every index entry pointing at a stored document: the
      document put travels in the same batch as the index puts. */
  lemma StorePreservesLinked(pack: nat -> string, parse: string -> Option<Range>, pkg: Package, es: seq<Entry<Value>>)
    requires Sorted(es) && Linked(es) && StoreBatch(pack, parse, pkg).Ok?
    ensures Linked(ApplyBatch(es, StoreBatch(pack, parse, pkg).value))
  {
    var es' := ApplyBatch(es, StoreBatch(pack, parse, pkg).value);
    forall i | 0 <= i < |es'| ensures LinkedAt(es', es'[i].key, es'[i].value) {
      GetSorted(es', es'[i]);
      StoreKeepsLinkedAt(pack, parse, pkg, es, es'[i].key);
    }
  }

  /** The integrity condition after `store`, one key at a time. */
  lemma StoreKeepsLinkedAt(pack: nat -> string, parse: string -> Option<Range>, pkg: Package,
                           es: seq<Entry<Value>>, k: string)
    requires Sorted(es) && Linked(es) && StoreBatch(pack, parse, pkg).Ok?
    requires Get(ApplyBatch(es, StoreBatch(pack, parse, pkg).value), k).Some?
    ensures var es' := ApplyBatch(es, StoreBatch(pack, parse, pkg).value);
      LinkedAt(es', k, Get(es', k).value)
  {
    var b := StoreBatch(pack, parse, pkg).value;
    var es' := ApplyBatch(es, b);
    var id := PackageId(pkg);
    StoreBatchContents(pack, parse, pkg);
    assert LastPut(b, DocKey(id)) == Some(Doc(pkg));
    assert Get(es', DocKey(id)) == Some(Doc(pkg));
    var lp := LastPut(b, k);
    if lp.Some? {
      if k != DocKey(id) {
        var m :| 0 <= m < |b| && b[m] == Entry(k, lp.value);
        assert m < |b| - 1;
        assert k[1] == 'i';
      }
    } else {
      var v := Get(es, k).value;
      var m :| 0 <= m < |es| && es[m] == Entry(k, v);
      assert LinkedAt(es, k, v);
      if IndexPrefix <= k {
        var d := DocKey(v.id);
        assert Get(es', d) == if LastPut(b, d).Some? then LastPut(b, d) else Get(es, d);
      }
    }
  }

  // ---------------------------------------------------------------------
  // query
  // ---------------------------------------------------------------------

  /** What the filter of `query` accepts: everything for a match-everything
      range, otherwise keys whose stored bounds `match` the encoded query. */
  datatype Plan = Everything | Between(lquery: string, uquery: string)

  /** The range checks of `query` (index.js:40-55): a range that does not
      parse is an error, so is an OR-list of more than one group; a
      match-everything range accepts every key; otherwise the single group is
      normalised, an absent bound becoming a sentinel. */
  function PlanQuery(pack: nat -> string, parsed: Option<Range>): (r: Result<Plan>)
    ensures parsed.None? ==> r == Err(InvalidRange)
    ensures parsed.Some? && |parsed.value.groups| != 1 ==> r == Err(OrRangeUnsupported)
    ensures r == Ok(Everything) <==> parsed.Some? && |parsed.value.groups| == 1 && parsed.value.text == ""
    ensures parsed.Some? && |parsed.value.groups| == 1 && parsed.value.text != "" ==>
      && (r.Ok? <==> Normalize(parsed.value.groups[0]).Ok?)
      && (r.Err? ==> r.error == Normalize(parsed.value.groups[0]).error)
  {
    match parsed
    case None => Err(InvalidRange)
    case Some(range) =>
      if |range.groups| != 1 then Err(OrRangeUnsupported)
      else if range.text == "" then Ok(Everything)
      else
        match Normalize(range.groups[0])
        case Err(e) => Err(e)
        case Ok(b) => Ok(Between(EncodeLower(pack, b.lower), EncodeUpper(pack, b.upper)))
  }

  /** The filter's test on one scanned key (index.js:57-63). */
  predicate Accepts(plan: Plan, key: string) {
    match plan
    case Everything => true
    case Between(lquery, uquery) =>
      var (lower, upper) := StoredBounds(key);
      Match(lower, upper, lquery, uquery)
  }

  /** The entries the filter lets through, in scan order. */
  function Matching(records: seq<Entry<Value>>, plan: Plan): (r: seq<Entry<Value>>)
    ensures forall e :: e in r <==> e in records && Accepts(plan, e.key)
    decreases |records|
  {
    if records == [] then []
    else
      var n := |records| - 1;
      var init := Matching(records[..n], plan);
      assert forall e :: e in records <==> e in records[..n] || e == records[n];
      if Accepts(plan, records[n].key) then init + [records[n]] else init
  }

  /** The filter keeps the scan's key order. */
  lemma {:induction false} MatchingSorted(records: seq<Entry<Value>>, plan: Plan)
    requires Sorted(records)
    ensures Sorted(Matching(records, plan))
    decreases |records|
  {
    if records != [] {
      var n := |records| - 1;
      var prefix := records[..n];
      assert Sorted(prefix) by {
        forall i, j | 0 <= i < j < n ensures Less(prefix[i].key, prefix[j].key) {
          assert prefix[i] == records[i] && prefix[j] == records[j];
        }
      }
      var init := Matching(prefix, plan);
      MatchingSorted(prefix, plan);
      if Accepts(plan, records[n].key) {
        forall i | 0 <= i < |init| ensures Less(init[i].key, records[n].key) {
          assert init[i] in prefix;
          var m :| 0 <= m < n && prefix[m] == init[i];
          assert records[m] == init[i];
        }
      }
    }
  }

  /** The document lookup the filter makes for an accepted entry: the JSON
      document under `'!pkg!' + id`. A missing key, or a value that is not a
      document, fails the lookup. */
  function Fetch(es: seq<Entry<Value>>, v: Value): (r: Result<Package>)
    ensures r.Ok? <==> v.Id? && Get(es, DocKey(v.id)).Some? && Get(es, DocKey(v.id)).value.Doc?
    ensures r.Ok? ==> Get(es, DocKey(v.id)) == Some(Doc(r.value))
  {
    match v
    case Doc(_) => Err(FetchFailed(""))
    case Id(id) =>
      var found := Get(es, DocKey(id));
      if found.Some? && found.value.Doc? then Ok(found.value.pkg)
      else Err(FetchFailed(DocKey(id)))
  }

  /** The collected output of the filter over the scanned records: the
      fetched documents of the accepted records in order, or the first failed
      lookup. */
  function Collect(es: seq<Entry<Value>>, records: seq<Entry<Value>>, plan: Plan): Result<seq<Package>>
    decreases |records|
  {
    if records == [] then Ok([])
    else
      var n := |records| - 1;
      match Collect(es, records[..n], plan)
      case Err(e) => Err(e)
      case Ok(docs) =>
        if !Accepts(plan, records[n].key) then Ok(docs)
        else
          match Fetch(es, records[n].value)
          case Err(e) => Err(e)
          case Ok(p) => Ok(docs + [p])
  }

  /** `query`: plan the range, scan the keys of `name`, filter and fetch. */
  function QuerySpec(pack: nat -> string, es: seq<Entry<Value>>, name: string, parsed: Option<Range>)
    : Result<seq<Package>>
  {
    match PlanQuery(pack, parsed)
    case Err(e) => Err(e)
    case Ok(plan) => Collect(es, Scan(es, ScanLow(name), ScanHigh(name)), plan)
  }

  /** The collected output is the fetched document of every accepted record,
      in order; it fails exactly when one of those lookups fails. */
  lemma {:induction false} CollectFetchesMatching(es: seq<Entry<Value>>, records: seq<Entry<Value>>, plan: Plan)
    ensures var m := Matching(records, plan);
      Collect(es, records, plan).Ok? <==> forall i :: 0 <= i < |m| ==> Fetch(es, m[i].value).Ok?
    ensures var m := Matching(records, plan);
      Collect(es, records, plan).Ok? ==>
        |Collect(es, records, plan).value| == |m|
        && forall i :: 0 <= i < |m| ==> Fetch(es, m[i].value) == Ok(Collect(es, records, plan).value[i])
    ensures var m := Matching(records, plan);
      Collect(es, records, plan).Err? ==>
        exists i :: 0 <= i < |m| && Fetch(es, m[i].value) == Err(Collect(es, records, plan).error)
    decreases |records|
  {
    if records != [] {
      var n := |records| - 1;
      var init := Matching(records[..n], plan);
      CollectFetchesMatching(es, records[..n], plan);
      assert forall i :: 0 <= i < |init| ==> Matching(records, plan)[i] == init[i];
    }
  }

  /** Every record the scan of a linked store visits holds a dependant whose
      document is stored, so its lookup succeeds. */
  lemma ScannedFetchSucceeds(es: seq<Entry<Value>>, name: string, e: Entry<Value>)
    requires Sorted(es) && Linked(es) && e in es && InScan(e.key, name)
    ensures Fetch(es, e.value).Ok?
  {
    ScanRange(e.key, name);
    assert e.key[..|IndexPrefix|] == IndexPrefix;
    var m :| 0 <= m < |es| && es[m] == e;
    assert LinkedAt(es, e.key, e.value);
    var d := DocKey(e.value.id);
    assert d[..|PkgPrefix|] == PkgPrefix;
    var w := Get(es, d).value;
    var m' :| 0 <= m' < |es| && es[m'] == Entry(d, w);
    assert LinkedAt(es, d, w);
  }

  /** What `query` returns on a linked store: it fails only when the range
      does, with the range's error; otherwise it returns, in key order, the
      documents of the dependants whose index entries under `name` the filter
      accepts. */
  lemma QueryReturnsMatchingDocuments(pack: nat -> string, es: seq<Entry<Value>>, name: string, parsed: Option<Range>)
    requires Sorted(es) && Linked(es)
    ensures QuerySpec(pack, es, name, parsed).Ok? <==> PlanQuery(pack, parsed).Ok?
    ensures QuerySpec(pack, es, name, parsed).Err? ==>
      QuerySpec(pack, es, name, parsed).error == PlanQuery(pack, parsed).error
    ensures PlanQuery(pack, parsed).Ok? ==>
      var m := Matching(Scan(es, ScanLow(name), ScanHigh(name)), PlanQuery(pack, parsed).value);
      var docs := QuerySpec(pack, es, name, parsed).value;
      && Sorted(m)
      && (forall e :: e in m <==> e in es && InScan(e.key, name) && Accepts(PlanQuery(pack, parsed).value, e.key))
      && |docs| == |m|
      && forall i :: 0 <= i < |m| ==>
           m[i].value.Id? && Get(es, DocKey(m[i].value.id)) == Some(Doc(docs[i]))
  {
    if PlanQuery(pack, parsed).Ok? {
      var plan := PlanQuery(pack, parsed).value;
      var records := Scan(es, ScanLow(name), ScanHigh(name));
      var m := Matching(records, plan);
      ScanSorted(es, ScanLow(name), ScanHigh(name));
      CollectFetchesMatching(es, records, plan);
      MatchingSorted(records, plan);
      forall i | 0 <= i < |m| ensures Fetch(es, m[i].value).Ok? {
        assert m[i] in m;
        ScannedFetchSucceeds(es, name, m[i]);
      }
    }
  }

  /** For a stored group with a lower bound, the filter accepts its key
      exactly when some version satisfies both the stored group and the
      queried group: the encoded test is version-interval intersection. */
  lemma AcceptsExactlyOverlaps(pack: nat -> string, id: string, dep: string, stored: seq<Comparator>, query: Range)
    requires IsPacker(pack) && '!' !in dep && '!' !in id
    requires Normalize(stored).Ok? && !(|stored| == 1 && stored[0].operator == Absent)
    requires |query.groups| == 1 && query.text != "" && Normalize(query.groups[0]).Ok?
    requires exists v :: SatisfiesAll(v, stored)
    requires exists v :: SatisfiesAll(v, query.groups[0])
    ensures Accepts(PlanQuery(pack, Some(query)).value, GenKey(pack, id, dep, stored).value)
        <==> exists v :: SatisfiesAll(v, stored) && SatisfiesAll(v, query.groups[0])
  {
    var q := query.groups[0];
    var sb, qb := Normalize(stored).value, Normalize(q).value;
    KeySplitRecoversBounds(pack, dep, id, sb);
    NonEmptyIffInhabited(sb);
    NonEmptyIffInhabited(qb);
    var s0 :| SatisfiesAll(s0, stored);
    assert Within(s0, sb);
    var q0 :| SatisfiesAll(q0, q);
    assert Within(q0, qb);
    MatchIsIntersection(pack, sb, qb);
    if Accepts(PlanQuery(pack, Some(query)).value, GenKey(pack, id, dep, stored).value) {
      var v :| Within(v, sb) && Within(v, qb);
      assert SatisfiesAll(v, stored) && SatisfiesAll(v, q);
    }
    if v :| SatisfiesAll(v, stored) && SatisfiesAll(v, q) {
      assert Within(v, sb) && Within(v, qb);
    }
  }

  /** The split quirk seen from the query: a dependant stored with a
      match-everything range is never returned for a query with a lower
      bound, although every version the query admits satisfies the stored
      range. */
  lemma QueryMissesMatchEverythingDependants(pack: nat -> string, id: string, dep: string,
                                             stored: seq<Comparator>, query: Range)
    requires IsPacker(pack) && '!' !in dep && '!' !in id
    requires |stored| == 1 && stored[0].operator == Absent
    requires |query.groups| == 1 && query.text != "" && Normalize(query.groups[0]).Ok?
    requires !(|query.groups[0]| == 1 && query.groups[0][0].operator == Absent)
    requires exists v :: SatisfiesAll(v, query.groups[0])
    ensures exists v :: SatisfiesAll(v, stored) && SatisfiesAll(v, query.groups[0])
    ensures !Accepts(PlanQuery(pack, Some(query)).value, GenKey(pack, id, dep, stored).value)
  {
    var v :| SatisfiesAll(v, query.groups[0]);
    assert Satisfies(v, stored[0]);
    var qb := Normalize(query.groups[0]).value;
    WildcardKeyMisaligned(dep, id);
    WildcardNeverMatchesBoundedQuery(pack, qb.lower.value, qb.upper);
  }

  /** Every group `store` indexes can be looked up afterwards: its key holds
      the dependant, and the dependant's document is stored. */
  lemma StoreIndexesEveryGroup(pack: nat -> string, parse: string -> Option<Range>, pkg: Package,
                               es: seq<Entry<Value>>, i: int, j: int)
    requires Sorted(es) && StoreBatch(pack, parse, pkg).Ok?
    requires GroupOf(parse, pkg.dependencies, i, j)
    ensures var es' := ApplyBatch(es, StoreBatch(pack, parse, pkg).value);
      var deps, id := pkg.dependencies, PackageId(pkg);
      && GenKey(pack, id, deps[i].name, GroupAt(parse, deps, i, j)).Ok?
      && Get(es', GenKey(pack, id, deps[i].name, GroupAt(parse, deps, i, j)).value) == Some(Id(id))
      && Get(es', DocKey(id)) == Some(Doc(pkg))
  {
    var b := StoreBatch(pack, parse, pkg).value;
    var deps, id := pkg.dependencies, PackageId(pkg);
    StoreBatchContents(pack, parse, pkg);
    var key := GenKey(pack, id, deps[i].name, GroupAt(parse, deps, i, j)).value;
    assert Entry(key, Id(id)) in b;
    var lp := LastPut(b, key);
    var m :| 0 <= m < |b| && b[m] == Entry(key, lp.value);
    assert IndexPrefix <= key;
    assert key[1] == 'i';
    assert m < |b| - 1;
    assert LastPut(b, DocKey(id)) == Some(Doc(pkg));
  }

  /** What `store` promises `query`: once a package is stored, a query on
      one of its dependencies returns its document when the range is a
      match-everything range, or when the dependency's group has a lower
      bound and shares a version with the queried range. */
  lemma StoredDependantIsFound(pack: nat -> string, parse: string -> Option<Range>, pkg: Package,
                               es: seq<Entry<Value>>, i: int, j: int, query: Range)
    requires IsPacker(pack) && Sorted(es) && Linked(es) && StoreBatch(pack, parse, pkg).Ok?
    requires GroupOf(parse, pkg.dependencies, i, j)
    requires '!' !in pkg.dependencies[i].name && '!' !in PackageId(pkg)
    requires PackageId(pkg)[0] < HighSentinel[0]
    requires PlanQuery(pack, Some(query)).Ok?
    requires query.text == "" ||
      var group := GroupAt(parse, pkg.dependencies, i, j);
      && !(|group| == 1 && group[0].operator == Absent)
      && exists v :: SatisfiesAll(v, group) && SatisfiesAll(v, query.groups[0])
    ensures var es' := ApplyBatch(es, StoreBatch(pack, parse, pkg).value);
      var found := QuerySpec(pack, es', pkg.dependencies[i].name, Some(query));
      found.Ok? && pkg in found.value
  {
    var es' := ApplyBatch(es, StoreBatch(pack, parse, pkg).value);
    var deps, id := pkg.dependencies, PackageId(pkg);
    var dep, group := deps[i].name, GroupAt(parse, deps, i, j);
    var plan := PlanQuery(pack, Some(query)).value;
    StorePreservesLinked(pack, parse, pkg, es);
    StoreIndexesEveryGroup(pack, parse, pkg, es, i, j);
    var b := Normalize(group).value;
    var key := GenKey(pack, id, dep, group).value;
    assert key == IndexKey(dep, id, EncodeLower(pack, b.lower), EncodeUpper(pack, b.upper));
    var e := Entry(key, Id(id));
    assert e in es';
    ScanSelectsDependency(dep, dep, id, EncodeLower(pack, b.lower), EncodeUpper(pack, b.upper));
    if query.text != "" {
      var v :| SatisfiesAll(v, group) && SatisfiesAll(v, query.groups[0]);
      AcceptsExactlyOverlaps(pack, id, dep, group, query);
    }
    assert Accepts(plan, key);
    AcceptedEntryIsReturned(pack, es', dep, Some(query), e, pkg);
  }

  /** On a linked store, a scanned entry the filter accepts contributes its
      dependant's document to the result. */
  lemma AcceptedEntryIsReturned(pack: nat -> string, es: seq<Entry<Value>>, name: string, parsed: Option<Range>,
                                e: Entry<Value>, doc: Package)
    requires Sorted(es) && Linked(es) && PlanQuery(pack, parsed).Ok?
    requires e in es && InScan(e.key, name) && Accepts(PlanQuery(pack, parsed).value, e.key)
    requires e.value.Id? && Get(es, DocKey(e.value.id)) == Some(Doc(doc))
    ensures QuerySpec(pack, es, name, parsed).Ok? && doc in QuerySpec(pack, es, name, parsed).value
  {
    QueryReturnsMatchingDocuments(pack, es, name, parsed);
    var m := Matching(Scan(es, ScanLow(name), ScanHigh(name)), PlanQuery(pack, parsed).value);
    assert e in m;
    var k :| 0 <= k < |m| && m[k] == e;
    assert QuerySpec(pack, es, name, parsed).value[k] == doc;
  }

  // ---------------------------------------------------------------------
  // The index object
  // ---------------------------------------------------------------------

  /** `Db`: the index over an ordered store, with the version packer and the
      range parser it is built against. */
  class Db {
    const pack: nat -> string
    const parse: string -> Option<Range>
    var entries: seq<Entry<Value>>

    ghost predicate Valid()
      reads this
    {
      IsPacker(pack) && Sorted(entries) && Linked(entries)
    }

    /** Wraps a store that already satisfies the integrity invariant. */
    constructor(pack: nat -> string, parse: string -> Option<Range>, es: seq<Entry<Value>>)
      requires IsPacker(pack) && Sorted(es) && Linked(es)
      ensures Valid()
      ensures this.pack == pack && this.parse == parse && entries == es
    {
      this.pack := pack;
      this.parse := parse;
      entries := es;
    }

    /** `store` (index.js:16-37): build the batch and apply it atomically. A
        group that cannot be normalised aborts before anything is written. */
    method Store(pkg: Package) returns (err: Option<Error>)
      requires Valid()
      modifies this
      ensures Valid()
      ensures StoreBatch(pack, parse, pkg).Err? ==>
        err == Some(StoreBatch(pack, parse, pkg).error) && entries == old(entries)
      ensures StoreBatch(pack, parse, pkg).Ok? ==>
        err == None && entries == ApplyBatch(old(entries), StoreBatch(pack, parse, pkg).value)
    {
      var batch := BuildBatch(pack, parse, pkg);
      if batch.Err? {
        return Some(batch.error);
      }
      StorePreservesLinked(pack, parse, pkg, entries);
      entries := ApplyBatch(entries, batch.value);
      err := None;
    }

    /** `query` (index.js:39-74): check the range, scan the keys of `name`,
        and fetch the document of every entry the filter accepts. */
    method Query(name: string, range: string) returns (r: Result<seq<Package>>)
      ensures r == QuerySpec(pack, entries, name, parse(range))
    {
      var planned := PlanQuery(pack, parse(range));
      if planned.Err? {
        return Err(planned.error);
      }
      var plan := planned.value;
      var records := Scan(entries, ScanLow(name), ScanHigh(name));
      var docs: seq<Package> := [];
      var i := 0;
      while i < |records|
        invariant 0 <= i <= |records|
        invariant Collect(entries, records[..i], plan) == Ok(docs)
      {
        assert records[..i + 1][..i] == records[..i];
        if Accepts(plan, records[i].key) {
          var doc := Fetch(entries, records[i].value);
          if doc.Err? {
            CollectErrorSticks(entries, records, plan, i + 1);
            return Err(doc.error);
          }
          docs := docs + [doc.value];
        }
        i := i + 1;
      }
      assert records[..i] == records;
      r := Ok(docs);
    }
  }

  /** Once a prefix of the records fails, so does the whole scan, with the
      same error. */
  lemma {:induction false} CollectErrorSticks(es: seq<Entry<Value>>, records: seq<Entry<Value>>, plan: Plan, n: nat)
    requires n <= |records| && Collect(es, records[..n], plan).Err?
    ensures Collect(es, records, plan) == Collect(es, records[..n], plan)
    decreases |records|
  {
    if n < |records| {
      assert records[..|records| - 1][..n] == records[..n];
      CollectErrorSticks(es, records[..|records| - 1], plan, n);
    } else {
      assert records[..n] == records;
    }
  }
}
