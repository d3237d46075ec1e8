/** The layout of index keys: how `genkey` builds a key from a dependency, a
    dependant and an AND-group, how the query takes a key apart again, and
    which keys the query's range scan visits. */
module IndexKeys {
  import opened Strings
  import opened Semver
  import opened Results
  import opened RangeEncoder

  const IndexPrefix: string := "!index!"

  /** The key of a package document: `'!pkg!' + name@version`. */
  function DocKey(id: string): (k: string)
    ensures |k| >= 2 && k[1] == 'p'
  {
    "!pkg!" + id
  }

  /** `'!index!' + dep + '!' + id + '!' + lower + '!' + upper`. */
  function IndexKey(dep: string, id: string, lower: string, upper: string): string {
    IndexPrefix + dep + "!" + id + "!" + lower + "!" + upper
  }

  /** `genkey`: the index key of one AND-group of a dependant's range on
      `dep`. It fails exactly when the group does not normalise, with the
      normaliser's error, and every key it builds sits under the dependency's
      prefix `'!index!' + dep + '!'` followed by the dependant. */
  function GenKey(pack: nat -> string, id: string, dep: string, group: seq<Comparator>): (r: Result<string>)
    ensures r.Ok? <==> Normalize(group).Ok?
    ensures r.Err? ==> r.error == Normalize(group).error
    ensures r.Ok? ==> IndexPrefix + dep + "!" + id + "!" <= r.value
  {
    match Normalize(group)
    case Err(e) => Err(e)
    case Ok(b) =>
      var key := IndexKey(dep, id, EncodeLower(pack, b.lower), EncodeUpper(pack, b.upper));
      assert key == (IndexPrefix + dep + "!" + id + "!") + (EncodeLower(pack, b.lower) + "!" + EncodeUpper(pack, b.upper));
      Ok(key)
  }

  /** The query's reading of a key (index.js:59-61): split on `'!'`, the
      pieces 4 to 6 joined again are taken as the lower bound and the pieces
      from 7 on as the upper bound. */
  function StoredBounds(key: string): (string, string) {
    var parts := Split(key, '!');
    (Join(Slice(parts, 4, 7), '!'), Join(SliceFrom(parts, 7), '!'))
  }

  /** No packed number contains the separator. */
  lemma PackNoBang(pack: nat -> string, n: nat)
    requires IsPacker(pack)
    ensures '!' !in pack(n)
  {
  }

  /** An index key written as nested `x + '!' + rest` steps. */
  lemma IndexKeyNested(dep: string, id: string, lower: string, upper: string)
    ensures IndexKey(dep, id, lower, upper)
            == "" + "!" + ("index" + "!" + (dep + "!" + (id + "!" + (lower + "!" + upper))))
  {
    var t3 := lower + "!" + upper;
    var t2 := id + "!" + t3;
    var t1 := dep + "!" + t2;
    assert IndexPrefix + dep + "!" + id + "!" + lower + "!" + upper == IndexPrefix + dep + "!" + id + "!" + t3;
    assert IndexPrefix + dep + "!" + id + "!" + t3 == IndexPrefix + dep + "!" + t2;
    assert IndexPrefix + dep + "!" + t2 == IndexPrefix + t1;
  }

  /** The pieces of a packed lower bound followed by `'!'` and any upper
      bound. */
  lemma {:induction false} BoundPieces(a: string, b: string, c: string, upper: string)
    requires '!' !in a && '!' !in b && '!' !in c
    ensures Split(a + "!" + b + "!" + c + "!" + upper, '!') == [a, b, c] + Split(upper, '!')
  {
    var t6 := c + "!" + upper;
    var t5 := b + "!" + t6;
    var t4 := a + "!" + t5;
    SplitCons(c, '!', upper);
    SplitCons(b, '!', t6);
    assert Split(t5, '!') == [b, c] + Split(upper, '!');
    SplitCons(a, '!', t5);
    assert Split(t4, '!') == [a, b, c] + Split(upper, '!');
    assert a + "!" + b + "!" + c + "!" + upper == t4;
  }

  /** The pieces of a key built from separator-free `dep` and `id`, a packed
      lower bound and any upper bound. */
  lemma {:induction false} IndexKeyPieces(dep: string, id: string, a: string, b: string, c: string, upper: string)
    requires '!' !in dep && '!' !in id && '!' !in a && '!' !in b && '!' !in c
    ensures Split(IndexKey(dep, id, a + "!" + b + "!" + c, upper), '!')
            == ["", "index", dep, id, a, b, c] + Split(upper, '!')
  {
    var t4 := a + "!" + b + "!" + c + "!" + upper;
    var t3 := id + "!" + t4;
    var t2 := dep + "!" + t3;
    var t1 := "index" + "!" + t2;
    var t0 := "" + "!" + t1;
    var s4 := [a, b, c] + Split(upper, '!');
    BoundPieces(a, b, c, upper);
    SplitCons(id, '!', t4);
    assert Split(t3, '!') == [id] + s4;
    SplitCons(dep, '!', t3);
    assert Split(t2, '!') == [dep, id] + s4;
    assert '!' !in "index";
    SplitCons("index", '!', t2);
    assert Split(t1, '!') == ["index", dep, id] + s4;
    SplitCons("", '!', t1);
    assert Split(t0, '!') == ["", "index", dep, id] + s4;
    IndexKeyNested(dep, id, a + "!" + b + "!" + c, upper);
    assert (a + "!" + b + "!" + c) + "!" + upper == t4;
  }

  /** When `dep` and `id` are free of `'!'` and the lower bound is a packed
      triple, the query's split gives back exactly the stored lower and upper
      bounds. */
  lemma KeySplitRecoversBounds(pack: nat -> string, dep: string, id: string, b: Bounds)
    requires IsPacker(pack) && '!' !in dep && '!' !in id && b.lower.Some?
    ensures StoredBounds(IndexKey(dep, id, EncodeLower(pack, b.lower), EncodeUpper(pack, b.upper)))
            == (EncodeLower(pack, b.lower), EncodeUpper(pack, b.upper))
  {
    var t := b.lower.value;
    var upper := EncodeUpper(pack, b.upper);
    PackNoBang(pack, t.major);
    PackNoBang(pack, t.minor);
    PackNoBang(pack, t.patch);
    IndexKeyPieces(dep, id, pack(t.major), pack(t.minor), pack(t.patch), upper);
    var parts := ["", "index", dep, id, pack(t.major), pack(t.minor), pack(t.patch)] + Split(upper, '!');
    assert Slice(parts, 4, 7) == [pack(t.major), pack(t.minor), pack(t.patch)];
    assert SliceFrom(parts, 7) == Split(upper, '!');
    JoinSplit(upper, '!');
    var xs := [pack(t.major), pack(t.minor), pack(t.patch)];
    assert Join(xs, '!') == pack(t.major) + "!" + Join(xs[1..], '!');
    assert Join(xs[1..], '!') == pack(t.minor) + "!" + Join(xs[2..], '!');
    assert Join(xs, '!') == EncodeLower(pack, b.lower);
    assert StoredBounds(IndexKey(dep, id, EncodeLower(pack, b.lower), upper)) == (Join(xs, '!'), Join(Split(upper, '!'), '!'));
  }

  /** The stored form of a match-everything group as the query reads it: the
      lower bound `'\x00'` is one piece, not three, so the two sentinels end up
      together as the "lower bound" and the "upper bound" is empty. */
  lemma WildcardKeyMisaligned(dep: string, id: string)
    requires '!' !in dep && '!' !in id
    ensures StoredBounds(IndexKey(dep, id, LowSentinel, HighSentinel)) == (LowSentinel + "!" + HighSentinel, "")
  {
    var t3 := LowSentinel + "!" + HighSentinel;
    var t2 := id + "!" + t3;
    var t1 := dep + "!" + t2;
    var t0 := "index" + "!" + t1;
    SplitFree(HighSentinel, '!');
    SplitCons(LowSentinel, '!', HighSentinel);
    assert Split(t3, '!') == [LowSentinel, HighSentinel];
    SplitCons(id, '!', t3);
    assert Split(t2, '!') == [id, LowSentinel, HighSentinel];
    SplitCons(dep, '!', t2);
    assert Split(t1, '!') == [dep, id, LowSentinel, HighSentinel];
    assert '!' !in "index";
    SplitCons("index", '!', t1);
    assert Split(t0, '!') == ["index", dep, id, LowSentinel, HighSentinel];
    SplitCons("", '!', t0);
    IndexKeyNested(dep, id, LowSentinel, HighSentinel);
    var parts := ["", "index", dep, id, LowSentinel, HighSentinel];
    assert Split(IndexKey(dep, id, LowSentinel, HighSentinel), '!') == parts;
    assert Slice(parts, 4, 7) == [LowSentinel, HighSentinel];
    assert SliceFrom(parts, 7) == [];
    assert Join([LowSentinel, HighSentinel], '!') == LowSentinel + "!" + Join([HighSentinel], '!');
  }

  /** Consequently a dependant stored with a match-everything range is never
      matched by a query that has a lower bound, whatever its upper bound. */
  lemma WildcardNeverMatchesBoundedQuery(pack: nat -> string, lower: Triple, upper: Option<Triple>)
    requires IsPacker(pack)
    ensures !Match(LowSentinel + "!" + HighSentinel, "", EncodeLower(pack, Some(lower)), EncodeUpper(pack, upper))
  {
    var lq := EncodeLower(pack, Some(lower));
    var uq := EncodeUpper(pack, upper);
    PackNonEmpty(pack, lower.major);
    assert IsHexDigit(lq[0]);
    assert Less(LowSentinel + "!" + HighSentinel, lq);
    if upper.Some? { PackNonEmpty(pack, upper.value.major); }
    assert |uq| > 0;
  }

  /** The range scan of a query for `name`: keys strictly between
      `'!index!' + name + '!'` and that string followed by `'\xff'`. */
  function ScanLow(name: string): string {
    IndexPrefix + name + "!"
  }

  function ScanHigh(name: string): string {
    ScanLow(name) + HighSentinel
  }

  predicate InScan(key: string, name: string) {
    Less(ScanLow(name), key) && Less(key, ScanHigh(name))
  }

  /** A key is in the scan exactly when it starts with `'!index!' + name + '!'`
      and the next character is below `'\xff'`. */
  lemma ScanRange(key: string, name: string)
    ensures InScan(key, name) <==>
      |key| > |ScanLow(name)| && key[..|ScanLow(name)|] == ScanLow(name)
      && key[|ScanLow(name)|] < HighSentinel[0]
  {
    BetweenPrefixAndNext(ScanLow(name), HighSentinel[0], key);
  }

  /** Separator-free names: `name + '!'` begins `dep + '!' + rest` only
      when the two names are equal. */
  lemma {:induction false} NameBeforeSeparator(name: string, dep: string, rest: string)
    requires '!' !in name && '!' !in dep
    ensures name + "!" <= dep + "!" + rest <==> name == dep
    decreases |name|
  {
    if name == dep {
      assert dep + "!" + rest == (name + "!") + rest;
    } else if |name| > 0 && |dep| > 0 && name[0] == dep[0] {
      NameBeforeSeparator(name[1..], dep[1..], rest);
      assert (name + "!")[1..] == name[1..] + "!";
      assert (dep + "!" + rest)[1..] == dep[1..] + "!" + rest;
      assert name == [name[0]] + name[1..];
      assert dep == [dep[0]] + dep[1..];
    } else if |name| > 0 && |dep| > 0 {
      assert (name + "!")[0] != (dep + "!" + rest)[0];
    } else if |name| > 0 {
      assert (name + "!")[0] != (dep + "!" + rest)[0];
    } else {
      assert (name + "!")[0] != (dep + "!" + rest)[0];
    }
  }

  /** The scan for `name` visits an index key exactly when the key belongs to
      `name` (not to another dependency) and the dependant's identifier starts
      below `'\xff'`. */
  lemma ScanSelectsDependency(name: string, dep: string, id: string, lower: string, upper: string)
    requires '!' !in name && '!' !in dep && |id| > 0
    ensures InScan(IndexKey(dep, id, lower, upper), name) <==> dep == name && id[0] < HighSentinel[0]
  {
    var key := IndexKey(dep, id, lower, upper);
    var rest := id + "!" + lower + "!" + upper;
    var p := ScanLow(name);
    ScanRange(key, name);
    assert key == IndexPrefix + (dep + "!" + rest);
    assert p == IndexPrefix + (name + "!");
    NameBeforeSeparator(name, dep, rest);
    if |key| > |p| && key[..|p|] == p {
      assert (name + "!") <= (dep + "!" + rest) by {
        assert key[|IndexPrefix|..|p|] == name + "!";
      }
    }
    if dep == name {
      assert key == p + rest;
      assert key[|p|] == id[0];
    }
  }
}
