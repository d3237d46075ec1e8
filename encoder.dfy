/** The range encoder: it reduces an AND-group of comparators to a half-open
    interval `[lower, upper)` of version triples, packs triples into strings
    whose order is version order, and tests two encoded intervals for overlap. */
module RangeEncoder {
  import opened Strings
  import opened Semver
  import opened Results

  /** A normalised AND-group: an inclusive lower bound and an exclusive upper
      bound, either of which may be absent (unbounded on that side). */
  datatype Bounds = Bounds(lower: Option<Triple>, upper: Option<Triple>)

  /** Whether version `v` lies in the half-open interval `b`. */
  predicate Within(v: Triple, b: Bounds) {
    (b.lower.None? || !Before(v, b.lower.value))
    && (b.upper.None? || Before(v, b.upper.value))
  }

  /** The lower bound of a group whose first comparator is `>` or `>=`, as an
      inclusive bound: a version is at or above it exactly when it satisfies
      the comparator. Any other operator is an error. */
  function NormalizeLower(c: Comparator): (r: Result<Triple>)
    ensures r.Ok? <==> c.operator == Text(">=") || c.operator == Text(">")
    ensures r.Ok? ==> forall v :: !Before(v, r.value) <==> Satisfies(v, c)
    ensures r.Err? ==> r.error == UnexpectedLowerOperator(c.operator)
  {
    match c.operator
    case Text(op) =>
      if op == ">=" then Ok(c.version)
      else if op == ">" then Ok(Bump(c.version))
      else Err(UnexpectedLowerOperator(c.operator))
    case Absent => Err(UnexpectedLowerOperator(c.operator))
  }

  /** The upper bound of a group whose second comparator is `<` or `<=`, as an
      exclusive bound: a version is below it exactly when it satisfies the
      comparator. Any other operator is an error. */
  function NormalizeUpper(c: Comparator): (r: Result<Triple>)
    ensures r.Ok? <==> c.operator == Text("<") || c.operator == Text("<=")
    ensures r.Ok? ==> forall v :: Before(v, r.value) <==> Satisfies(v, c)
    ensures r.Err? ==> r.error == UnexpectedUpperOperator(c.operator)
  {
    match c.operator
    case Text(op) =>
      if op == "<" then Ok(c.version)
      else if op == "<=" then Ok(Bump(c.version))
      else Err(UnexpectedUpperOperator(c.operator))
    case Absent => Err(UnexpectedUpperOperator(c.operator))
  }

  /** The operators a lone comparator may carry. */
  predicate IsSingleOperator(op: Operator) {
    op == Absent || op == Text("") || op == Text("<") || op == Text("<=")
    || op == Text(">") || op == Text(">=")
  }

  /** Reduces an AND-group to one interval. A version lies in the interval
      exactly when it satisfies every comparator of the group; the lower bound
      is absent only for the match-everything comparator, and the upper bound
      only for that one and for a lone `>` or `>=`. */
  function Normalize(group: seq<Comparator>): (r: Result<Bounds>)
    ensures |group| > 2 ==> r == Err(TooManyComparators)
    ensures |group| == 0 ==> r == Err(MissingComparator)
    ensures |group| == 1 ==> (r.Ok? <==> IsSingleOperator(group[0].operator))
    ensures |group| == 1 && r.Err? ==> r.error == UnexpectedOperator(group[0].operator)
    ensures |group| == 2 ==>
      (r.Ok? <==> NormalizeLower(group[0]).Ok? && NormalizeUpper(group[1]).Ok?)
    ensures |group| == 2 && r.Err? ==>
      r.error == if NormalizeLower(group[0]).Err? then NormalizeLower(group[0]).error
                 else NormalizeUpper(group[1]).error
    ensures |group| == 2 && r.Ok? ==>
      r.value == Bounds(Some(NormalizeLower(group[0]).value), Some(NormalizeUpper(group[1]).value))
    ensures |group| == 1 && r.Ok? && group[0].operator in {Text("<"), Text("<=")} ==>
      r.value.lower == Some(Zero)
    ensures r.Ok? ==> forall v :: Within(v, r.value) <==> SatisfiesAll(v, group)
    ensures r.Ok? ==> (r.value.lower.None? <==> |group| == 1 && group[0].operator == Absent)
    ensures r.Ok? ==> (r.value.upper.None? <==>
      |group| == 1 && group[0].operator in {Absent, Text(">"), Text(">=")})
  {
    if |group| > 2 then Err(TooManyComparators)
    else if |group| == 0 then Err(MissingComparator)
    else if |group| == 1 then
      var c := group[0];
      match c.operator
      case Absent => Ok(Bounds(None, None))
      case Text(op) =>
        if op == "" then Ok(Bounds(Some(c.version), Some(Bump(c.version))))
        else if op == "<" then Ok(Bounds(Some(Zero), Some(c.version)))
        else if op == "<=" then Ok(Bounds(Some(Zero), Some(Bump(c.version))))
        else if op == ">" then Ok(Bounds(Some(Bump(c.version)), None))
        else if op == ">=" then Ok(Bounds(Some(c.version), None))
        else Err(UnexpectedOperator(c.operator))
    else
      match NormalizeLower(group[0])
      case Err(e) => Err(e)
      case Ok(lo) =>
        match NormalizeUpper(group[1])
        case Err(e) => Err(e)
        case Ok(hi) => Ok(Bounds(Some(lo), Some(hi)))
  }

  /** The `'hex'` output of `lexi.pack` is treated as an unknown function
      with three properties: it writes only lower-case hexadecimal digits, it
      is strictly increasing in string order, and no output is a prefix of
      another. */
  predicate IsHexDigit(c: char) {
    ('0' <= c <= '9') || ('a' <= c <= 'f')
  }

  ghost predicate IsPacker(pack: nat -> string) {
    && (forall n: nat, i :: 0 <= i < |pack(n)| ==> IsHexDigit(pack(n)[i]))
    && (forall a: nat, b: nat {:trigger Less(pack(a), pack(b))} :: a < b ==> Less(pack(a), pack(b)))
    && (forall a: nat, b: nat {:trigger IsPrefix(pack(a), pack(b))} :: a != b ==> !IsPrefix(pack(a), pack(b)))
  }

  /** A packer meeting the three properties exists: `n` ones then a zero. It
      stands only as evidence that the properties can be met together. */
  function UnaryPack(n: nat): (r: string)
    ensures |r| == n + 1
    ensures forall i :: 0 <= i < n ==> r[i] == '1'
    ensures r[n] == '0'
  {
    seq(n, _ => '1') + "0"
  }

  lemma UnaryPackIsPacker()
    ensures IsPacker(UnaryPack)
  {
    forall a: nat, b: nat | a < b
      ensures Less(UnaryPack(a), UnaryPack(b))
      ensures !IsPrefix(UnaryPack(a), UnaryPack(b)) && !IsPrefix(UnaryPack(b), UnaryPack(a))
    {
      UnaryPackOrdered(a, b);
    }
  }

  lemma UnaryPackOrdered(a: nat, b: nat)
    requires a < b
    ensures Less(UnaryPack(a), UnaryPack(b))
    ensures !(UnaryPack(a) <= UnaryPack(b)) && !(UnaryPack(b) <= UnaryPack(a))
  {
    var x, y := UnaryPack(a), UnaryPack(b);
    assert x[a] != y[a];
    assert x[..a] == y[..a];
    assert x == x[..a] + x[a..] && y == y[..a] + y[a..];
    assert Less(x[a..], y[a..]);
    LessCommonPrefix(x[..a], x[a..], y[a..]);
  }

  /** Every output of a packer is non-empty. */
  lemma PackNonEmpty(pack: nat -> string, n: nat)
    requires IsPacker(pack)
    ensures |pack(n)| > 0
  {
    assert !IsPrefix(pack(n), pack(n + 1));
  }

  /** `lexSemver`: the three packed numbers joined by `!`. */
  function LexSemver(pack: nat -> string, t: Triple): string {
    pack(t.major) + "!" + pack(t.minor) + "!" + pack(t.patch)
  }

  /** One packed component followed by anything: distinct numbers decide the
      comparison by themselves. */
  lemma {:induction false} PackedComponent(pack: nat -> string, x: nat, y: nat, s: string, t: string)
    requires IsPacker(pack) && x != y
    ensures Less(pack(x) + s, pack(y) + t) <==> x < y
  {
    assert !IsPrefix(pack(x), pack(y)) && !IsPrefix(pack(y), pack(x));
    LessDiverge(pack(x), pack(y), s, t);
    if x < y {
      assert Less(pack(x), pack(y));
    } else {
      assert Less(pack(y), pack(x));
      LessAsymmetric(pack(y), pack(x));
    }
  }

  /** Minor and patch packed and joined by `!` compare as the pairs do. */
  lemma {:induction false} PackedPairLess(pack: nat -> string, a: Triple, b: Triple)
    requires IsPacker(pack)
    ensures Less(pack(a.minor) + "!" + pack(a.patch), pack(b.minor) + "!" + pack(b.patch))
        <==> a.minor < b.minor || (a.minor == b.minor && a.patch < b.patch)
  {
    var ta, tb := "!" + pack(a.patch), "!" + pack(b.patch);
    assert pack(a.minor) + "!" + pack(a.patch) == pack(a.minor) + ta;
    assert pack(b.minor) + "!" + pack(b.patch) == pack(b.minor) + tb;
    if a.minor != b.minor {
      PackedComponent(pack, a.minor, b.minor, ta, tb);
    } else {
      var p := pack(a.minor) + "!";
      assert pack(a.minor) + ta == p + pack(a.patch) && pack(b.minor) + tb == p + pack(b.patch);
      LessCommonPrefix(p, pack(a.patch), pack(b.patch));
      if a.patch != b.patch {
        PackedComponent(pack, a.patch, b.patch, "", "");
        assert pack(a.patch) + "" == pack(a.patch) && pack(b.patch) + "" == pack(b.patch);
      } else {
        LessIrreflexive(pack(a.patch));
      }
    }
  }

  /** `lexSemver` orders strings exactly as versions are ordered. */
  lemma {:induction false} LexSemverLess(pack: nat -> string, a: Triple, b: Triple)
    requires IsPacker(pack)
    ensures Less(LexSemver(pack, a), LexSemver(pack, b)) <==> Before(a, b)
  {
    var ra := pack(a.minor) + "!" + pack(a.patch);
    var rb := pack(b.minor) + "!" + pack(b.patch);
    assert LexSemver(pack, a) == pack(a.major) + ("!" + ra);
    assert LexSemver(pack, b) == pack(b.major) + ("!" + rb);
    if a.major != b.major {
      PackedComponent(pack, a.major, b.major, "!" + ra, "!" + rb);
    } else {
      var p := pack(a.major) + "!";
      assert LexSemver(pack, a) == p + ra && LexSemver(pack, b) == p + rb;
      LessCommonPrefix(p, ra, rb);
      PackedPairLess(pack, a, b);
    }
  }

  /** `lexSemver` orders strings exactly as versions are ordered, and it is
      one-to-one: equal strings come from equal triples. */
  lemma LexSemverOrder(pack: nat -> string, a: Triple, b: Triple)
    requires IsPacker(pack)
    ensures Less(LexSemver(pack, a), LexSemver(pack, b)) <==> Before(a, b)
    ensures LexSemver(pack, a) == LexSemver(pack, b) <==> a == b
  {
    LexSemverLess(pack, a, b);
    LexSemverLess(pack, b, a);
    LessIrreflexive(LexSemver(pack, a));
  }

  /** The sentinels that stand for an absent bound: `'\x00'` below every
      packed triple and `'\xff'` above every one. */
  const LowSentinel: string := "\0"
  const HighSentinel: string := "\U{FF}"

  lemma SentinelsBracket(pack: nat -> string, t: Triple)
    requires IsPacker(pack)
    ensures Less(LowSentinel, LexSemver(pack, t))
    ensures Less(LexSemver(pack, t), HighSentinel)
  {
    PackNonEmpty(pack, t.major);
    var s := LexSemver(pack, t);
    assert s[0] == pack(t.major)[0];
    assert IsHexDigit(s[0]);
  }

  /** A lower bound as stored and queried: packed, or `'\x00'` when absent. */
  function EncodeLower(pack: nat -> string, lower: Option<Triple>): string {
    if lower.Some? then LexSemver(pack, lower.value) else LowSentinel
  }

  /** An upper bound as stored and queried: packed, or `'\xff'` when absent. */
  function EncodeUpper(pack: nat -> string, upper: Option<Triple>): string {
    if upper.Some? then LexSemver(pack, upper.value) else HighSentinel
  }

  /** `match`: the query interval `[lquery, uquery)` meets the stored interval
      `[lower, upper)`, by one of three cases (its lower end inside, its upper
      end inside, or it spans the stored interval), written with JavaScript's
      string comparisons. */
  predicate Match(lower: string, upper: string, lquery: string, uquery: string) {
    (!Less(lquery, lower) && Less(lquery, upper))
    || (Less(lower, uquery) && !Less(upper, uquery))
    || (!Less(lower, lquery) && !Less(uquery, upper))
  }

  /** On well-formed intervals the three cases together are exactly the
      half-open intersection test. */
  lemma MatchIsOverlap(lower: string, upper: string, lquery: string, uquery: string)
    requires Less(lower, upper) && Less(lquery, uquery)
    ensures Match(lower, upper, lquery, uquery) <==> Less(lquery, upper) && Less(lower, uquery)
  {
    LessTotal(lquery, lower);
    LessTotal(uquery, upper);
    LessAsymmetric(lquery, lower);
    LessAsymmetric(uquery, upper);
    if !Less(lquery, lower) && Less(lquery, upper) {
      if lquery != lower { LessTransitive(lower, lquery, uquery); }
    } else if Less(lower, uquery) && !Less(upper, uquery) {
      if uquery != upper { LessTransitive(lquery, uquery, upper); }
    } else if !Less(lower, lquery) && !Less(uquery, upper) {
      if lquery != lower { LessTransitive(lquery, lower, upper); }
      if uquery != upper { LessTransitive(lower, upper, uquery); }
    } else if Less(lquery, upper) && Less(lower, uquery) {
      assert false;
    }
  }

  /** The lower bound with absence read as `0.0.0`. */
  function LowerOrZero(b: Bounds): Triple {
    if b.lower.Some? then b.lower.value else Zero
  }

  /** An interval that holds at least one version. */
  predicate NonEmpty(b: Bounds) {
    b.upper.None? || Before(LowerOrZero(b), b.upper.value)
  }

  /** An interval is non-empty exactly when some version lies in it. */
  lemma NonEmptyIffInhabited(b: Bounds)
    ensures NonEmpty(b) <==> exists v :: Within(v, b)
  {
    if NonEmpty(b) {
      assert Within(LowerOrZero(b), b);
    }
  }

  /** Comparing an encoded lower bound with an encoded upper bound is comparing
      the triples, with absence on either side meaning "no constraint". */
  lemma EncodedBelow(pack: nat -> string, lower: Option<Triple>, upper: Option<Triple>)
    requires IsPacker(pack)
    ensures Less(EncodeLower(pack, lower), EncodeUpper(pack, upper)) <==>
      (lower.None? || upper.None? || Before(lower.value, upper.value))
  {
    if lower.Some? && upper.Some? {
      LexSemverOrder(pack, lower.value, upper.value);
    } else if lower.Some? {
      SentinelsBracket(pack, lower.value);
    } else if upper.Some? {
      SentinelsBracket(pack, upper.value);
    } else {
      assert LowSentinel[0] < HighSentinel[0];
    }
  }

  /** `match` on encoded bounds holds exactly when some version lies in both
      intervals. */
  lemma MatchIsIntersection(pack: nat -> string, stored: Bounds, query: Bounds)
    requires IsPacker(pack) && NonEmpty(stored) && NonEmpty(query)
    ensures Match(EncodeLower(pack, stored.lower), EncodeUpper(pack, stored.upper),
                  EncodeLower(pack, query.lower), EncodeUpper(pack, query.upper))
        <==> exists v :: Within(v, stored) && Within(v, query)
  {
    EncodedBelow(pack, stored.lower, stored.upper);
    EncodedBelow(pack, query.lower, query.upper);
    MatchIsOverlap(EncodeLower(pack, stored.lower), EncodeUpper(pack, stored.upper),
                   EncodeLower(pack, query.lower), EncodeUpper(pack, query.upper));
    EncodedBelow(pack, query.lower, stored.upper);
    EncodedBelow(pack, stored.lower, query.upper);
    var a, b := LowerOrZero(stored), LowerOrZero(query);
    var v := if Before(a, b) then b else a;
    if (query.lower.None? || stored.upper.None? || Before(query.lower.value, stored.upper.value))
       && (stored.lower.None? || query.upper.None? || Before(stored.lower.value, query.upper.value))
    {
      assert Within(v, stored) && Within(v, query);
    }
  }
}
