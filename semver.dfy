/** What the index needs from the semver library: version triples with their
    natural order, and the parsed form of a range (an OR-list of AND-ed
    comparators). Pre-release tags and build metadata are not part of it. */
module Semver {

  /** The `major.minor.patch` part of a version. */
  datatype Triple = Triple(major: nat, minor: nat, patch: nat)

  const Zero := Triple(0, 0, 0)

  /** Version order on triples: compare major, then minor, then patch. */
  predicate Before(a: Triple, b: Triple) {
    a.major < b.major
    || (a.major == b.major && a.minor < b.minor)
    || (a.major == b.major && a.minor == b.minor && a.patch < b.patch)
  }

  /** The same triple with its patch number one higher. */
  function Bump(t: Triple): (r: Triple)
    ensures Before(t, r)
  {
    Triple(t.major, t.minor, t.patch + 1)
  }

  /** Because patch numbers are integers, the bumped triple is the smallest one
      after `t`: this is what turns `>v` into `>=Bump(v)` and `<=v` into
      `<Bump(v)`. */
  lemma BumpIsSuccessor(t: Triple, v: Triple)
    ensures Before(t, v) <==> !Before(v, Bump(t))
  {
  }

  /** A comparator's operator as the parser leaves it: absent for the
      match-everything comparator, otherwise a string such as "", "<", ">=". */
  datatype Operator = Absent | Text(s: string)

  datatype Comparator = Comparator(operator: Operator, version: Triple)

  /** A parsed range: `groups` (the parser's `set`) is the OR-list of
      AND-groups of comparators, and `text` is the parser's normalised
      rendering of the whole range, which is empty exactly for the
      match-everything ranges such as `*`, `x` and the empty string. */
  datatype Range = Range(groups: seq<seq<Comparator>>, text: string)

  /** Whether version `v` satisfies comparator `c`, ignoring pre-release tags:
      the meaning the encoder's bounds must capture. An operator the parser
      never produces is satisfied by nothing. */
  predicate Satisfies(v: Triple, c: Comparator) {
    match c.operator
    case Absent => true
    case Text(op) =>
      if op == "" then v == c.version
      else if op == "<" then Before(v, c.version)
      else if op == "<=" then Before(v, c.version) || v == c.version
      else if op == ">" then Before(c.version, v)
      else if op == ">=" then Before(c.version, v) || v == c.version
      else false
  }

  /** Whether `v` satisfies every comparator of an AND-group. */
  predicate SatisfiesAll(v: Triple, group: seq<Comparator>) {
    forall i :: 0 <= i < |group| ==> Satisfies(v, group[i])
  }
}
