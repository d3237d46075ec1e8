# dependency-db, modelled in Dafny

dependency-db indexes npm package documents by their dependencies. It answers
one question: which stored packages depend on `name` with a semver range that
overlaps `range`?

- `store` writes one index entry per OR-ed comparator group of every
  dependency whose range parses, plus the package document, in one atomic
  batch. A dependency whose range does not parse is skipped.
- An index key is `!index!<dep>!<name@version>!<lower>!<upper>`.
  - The bounds come from normalising the comparator group to a half-open
    interval `[lower, upper)` of version triples.
  - Each bound is packed with `lexi.pack`, so that string order is version
    order.
  - An absent bound becomes the sentinel `'\x00'` or `'\xff'`.
- `query` works in three steps:
  1. It rejects OR-ranges.
  2. It scans the keys of one dependency.
  3. It splits every key on `!` to recover the stored bounds, keeps the
     entries whose interval overlaps the queried one, and fetches their
     documents.

The model has seven files.

- `strings.dfy` (module `Strings`): JavaScript's string `<`, `split`, `join`
  and `slice`, with their algebra.
- `semver.dfy` (module `Semver`): version triples, comparators and parsed
  ranges, plus the meaning of a comparator (`Satisfies`).
- `results.dfy` (module `Results`): `Option`, `Result` and the error kinds.
- `encoder.dfy` (module `RangeEncoder`): `normalize`, `normalizeLower`,
  `normalizeUpper`, `lexSemver` and `match`.
- `keys.dfy` (module `IndexKeys`): `genkey`, the key split of `query`, and the
  key range that `query` scans.
- `backend.dfy` (module `Backend`): the ordered key/value store, kept as a
  sorted sequence of entries. It has a point lookup, an atomic batch of puts
  and a strictly-between range scan.
- `db.dfy` (module `DependencyDb`): the batch `store` builds, the filter and
  lookups of `query`, and the class `Db`.
  - `Db` has `Store` and `Query` methods and an integrity invariant: every
    index entry points at a stored document.

`lexi.pack` and the semver range parser are parameters of the model.

- `pack: nat -> string` is constrained by `IsPacker`:
  - it writes only hex digits;
  - it is strictly increasing in string order;
  - no output is a prefix of another.
- `UnaryPack` shows that these three conditions can all be met at once.
- `parse: string -> Option<Range>` returns `None` where `semver.Range` throws.

The model proves the following, among other things.

- Normalising a group gives an interval holding exactly the versions that
  satisfy every comparator of the group.
- `lexSemver` orders strings exactly as versions are ordered.
- For well-formed intervals, `match` is half-open interval intersection.
- On encoded, non-empty bounds, `match` holds exactly when some version lies
  in both intervals.
- The key split inverts `genkey` whenever the stored lower bound is a real
  triple.
- The scan selects exactly the keys of the queried dependency whose
  dependant id starts with a character below `'\xff'`.
- `store` keeps the store's integrity.
- On a linked store, `query` returns, in key order, the documents of exactly
  the scanned entries that the filter accepts.
- After `store`, a query on one of the package's dependencies finds the
  package in two cases: the query matches everything, or the dependency's
  group has a lower bound and shares a version with the query. This holds
  when the names contain no `!` and the id starts below `'\xff'`. A
  dependency stored with a match-everything range is the exception below.

Two behaviours of the code deserve a note.

1. **The key split misaligns for a match-everything dependency range.** Its
   stored lower bound `'\x00'` is one `!`-separated piece, not three. So the
   query reads the lower bound as `'\x00!\xff'` and the upper bound as `""`
   (`WildcardKeyMisaligned`). As a result, a dependant stored with `*` is
   never returned for a query that has a lower bound, even though every
   version satisfies `*` (`QueryMissesMatchEverythingDependants`).
2. **`>v` and `<=v` become `>=` or `<` of the triple with patch + 1.** The
   resulting bounds are modelled as written. The code gets there by
   incrementing the comparator's patch in place; the model returns a fresh
   triple instead, because the mutated object is never reused.

## Model

| member | source | states |
|---|---|---|
| Strings.Split | index.js:59 | `split` on `'!'` always yields at least one piece |
| Strings.SplitPiecesFree | index.js:59 | no piece produced by `split` contains the separator |
| Strings.JoinSplit | index.js:59-61 | joining the pieces of a split with the same separator gives back the string |
| Strings.SplitJoin | index.js:59-61 | splitting a join of separator-free pieces gives back the pieces |
| Strings.Slice | index.js:60 | `slice(from, to)` is the sub-array between the two ends, each clamped to the length: the suffix from `from` when only `to` is past the end, and empty when `from` is past the end or not below `to` |
| Strings.SliceFrom | index.js:61 | `slice(from)` is the suffix from `from`, or empty when `from` is past the end |
| Strings.LessTotal | index.js:77-79 | the string order of the comparisons in `match` is total |
| Strings.LessTransitive | index.js:77-79 | the string order of the comparisons in `match` is transitive |
| Semver.Bump | index.js:148 | the triple with patch + 1 comes after the original |
| Semver.BumpIsSuccessor | index.js:160 | the triple with patch + 1 is the next triple: a version is after `t` exactly when it is not below `Bump(t)` |
| RangeEncoder.NormalizeLower | index.js:143-153 | succeeds exactly for `>=` and `>`; a version is at or above the result exactly when it satisfies the comparator; any other operator is an error naming it |
| RangeEncoder.NormalizeUpper | index.js:155-165 | succeeds exactly for `<` and `<=`; a version is below the result exactly when it satisfies the comparator; any other operator is an error naming it |
| RangeEncoder.Normalize | index.js:92-141 | more than two comparators is an error, and so is an empty group; a lone comparator succeeds exactly for the six known operators; a pair succeeds exactly when its first comparator is a lower and its second an upper comparator, with that comparator's error otherwise; a successful pair is exactly the lower comparator's bound and the upper comparator's bound, and a lone `<` or `<=` has lower bound `0.0.0`; on success a version is in the interval exactly when it satisfies every comparator; the lower bound is absent only for the match-everything comparator, and the upper bound only for that one and a lone `>` or `>=` |
| RangeEncoder.UnaryPackIsPacker | index.js:168-170 | the three conditions assumed of `lexi.pack` can be met together |
| RangeEncoder.PackNonEmpty | index.js:168-170 | every packed number is non-empty |
| RangeEncoder.PackedComponent | index.js:168-170 | two different packed numbers followed by anything compare as the numbers do |
| RangeEncoder.LexSemverLess | index.js:167-171 | `lexSemver(a) < lexSemver(b)` exactly when `a` comes before `b` in (major, minor, patch) order |
| RangeEncoder.LexSemverOrder | index.js:167-171 | `lexSemver` orders as versions order, and equal strings come exactly from equal triples |
| RangeEncoder.SentinelsBracket | index.js:87-88 | `'\x00'` is below and `'\xff'` above every packed triple |
| RangeEncoder.EncodedBelow | index.js:87-88 | an encoded lower bound is below an encoded upper bound exactly when the triples are ordered or either bound is absent |
| RangeEncoder.MatchIsOverlap | index.js:76-80 | on well-formed intervals, the three cases of `match` together hold exactly when `lquery < upper` and `lower < uquery` |
| RangeEncoder.MatchIsIntersection | index.js:76-80 | on encoded non-empty intervals, `match` holds exactly when some version lies in both |
| IndexKeys.DocKey | index.js:34 | a document key has `p` as its second character, so it is never an index key |
| IndexKeys.GenKey | index.js:85-90 | builds a key exactly when the group normalises, else fails with the normaliser's error; the key starts with `'!index!' + dep + '!' + id + '!'` |
| IndexKeys.PackNoBang | index.js:168-170 | no packed number contains `!` |
| IndexKeys.IndexKeyPieces | index.js:59 | a key with separator-free `dep` and `id` and a packed lower bound splits into `'', 'index', dep, id`, the three packed numbers, and the pieces of the upper bound |
| IndexKeys.KeySplitRecoversBounds | index.js:59-61 | when `dep` and `id` have no `!` and the lower bound is a triple, the split gives back exactly the stored lower and upper bounds |
| IndexKeys.WildcardKeyMisaligned | index.js:59-61 | for a match-everything group the split reads `'\x00!\xff'` as the lower bound and `""` as the upper bound |
| IndexKeys.WildcardNeverMatchesBoundedQuery | index.js:76-80 | those misread bounds never `match` a query that has a lower bound |
| IndexKeys.ScanRange | index.js:43-46 | a key is strictly between the scan bounds exactly when it starts with `'!index!' + name + '!'` and the next character is below `'\xff'` |
| IndexKeys.ScanSelectsDependency | index.js:43-46 | the scan for `name` visits an index key exactly when the key's dependency is `name` and the dependant's id starts below `'\xff'` |
| Backend.Get | index.js:65 | a lookup returns a value held under the key, and nothing when no entry has the key |
| Backend.GetSorted | index.js:65 | in a sorted store a lookup finds the entry holding the key |
| Backend.Put | index.js:36 | one put keeps the keys sorted, sets the key's value and leaves every other key's value alone |
| Backend.LastPut | index.js:36 | the last put for a key in a batch is one of the batch's entries, and there is none when no entry has the key |
| Backend.ApplyBatch | index.js:36 | after a batch, a lookup sees the last put for its key in the batch, or the old value when the batch does not touch the key; the store stays sorted |
| Backend.Scan | index.js:43-46 | the scan returns exactly the entries whose keys lie strictly between the bounds |
| Backend.ScanSorted | index.js:43-46 | the scan returns entries in ascending key order |
| DependencyDb.BuildBatch | index.js:17-35 | the loop over the dependencies builds exactly the batch `StoreBatch` describes, or its error |
| DependencyDb.BuildGroupPuts | index.js:28-31 | the loop over the OR-ed groups builds exactly their puts, or the first key error |
| DependencyDb.GroupPutsErrorSticks | index.js:28-31 | the first group whose key fails decides the error of the whole dependency |
| DependencyDb.DependencyPutsErrorSticks | index.js:21-32 | the first failing dependency decides the error of the whole batch |
| DependencyDb.GroupPutsExactly | index.js:28-31 | a dependency's groups give one put each, in order, keyed by `genkey` and holding the dependant, exactly when every group's key can be built |
| DependencyDb.GroupPutsFailure | index.js:28-31 | a failure is the key error of one of the groups |
| DependencyDb.DependencyPutsSucceed | index.js:21-32 | the index puts exist exactly when every group of every parsing range has a key |
| DependencyDb.DependencyPutsFailure | index.js:21-32 | a failure is the key error of some group of a parsing range |
| DependencyDb.DependencyPutsCount | index.js:21-32 | there is one index put per group of every parsing range; dependencies whose range does not parse add none |
| DependencyDb.DependencyPutsCover | index.js:21-32 | every group of every parsing range has its put, holding the dependant |
| DependencyDb.DependencyPutsOrigin | index.js:21-32 | every index put holds the dependant under the key of some group of a parsing range |
| DependencyDb.StoreBatchOutcome | index.js:16-37 | `store` builds its batch exactly when every group's key can be built; otherwise it fails with some group's error |
| DependencyDb.StoreBatchContents | index.js:17-36 | the batch has one index put per group, each under `'!index!'` and holding `name@version`, and then, last, exactly one `'!pkg!' + name@version` document put |
| DependencyDb.StorePreservesLinked | index.js:34-36 | applying the batch keeps every index entry pointing at a stored document |
| DependencyDb.StoreKeepsLinkedAt | index.js:34-36 | the same, for one key |
| DependencyDb.StoreIndexesEveryGroup | index.js:16-37 | after `store`, each group's key holds `name@version` and the document key holds the package |
| DependencyDb.PlanQuery | index.js:40-55 | an unparsable range is an error, so is more than one OR-group; a match-everything range accepts everything; otherwise the single group must normalise, with its error if it does not |
| DependencyDb.Matching | index.js:57-69 | the filter keeps exactly the scanned entries it accepts |
| DependencyDb.MatchingSorted | index.js:57-69 | the filter keeps the scan's key order |
| DependencyDb.Fetch | index.js:65 | the lookup succeeds exactly when the entry holds a dependant whose `'!pkg!'` key holds a document, and returns that document |
| DependencyDb.CollectFetchesMatching | index.js:57-73 | the collected output is the fetched document of every accepted entry, in order, and fails exactly when one of those lookups fails, with that lookup's error |
| DependencyDb.CollectErrorSticks | index.js:65-73 | the first failed lookup decides the query's error |
| DependencyDb.ScannedFetchSucceeds | index.js:65 | on a linked store, every scanned entry's document lookup succeeds |
| DependencyDb.QueryReturnsMatchingDocuments | index.js:39-74 | on a linked store, a query fails only as its range does, with the range's error; otherwise it returns, in key order, the document of each entry under `name` that the filter accepts, and of no other |
| DependencyDb.AcceptsExactlyOverlaps | index.js:57-63 | for a stored group with a lower bound, the filter accepts its key exactly when some version satisfies both the stored and the queried group |
| DependencyDb.QueryMissesMatchEverythingDependants | index.js:57-63 | a dependant stored with a match-everything range is rejected by every query with a lower bound, although they share versions |
| DependencyDb.AcceptedEntryIsReturned | index.js:57-73 | on a linked store, an accepted scanned entry contributes its document to the result |
| DependencyDb.StoredDependantIsFound | index.js:16-74 | after `store`, a query on one of the package's dependencies returns the package when the range matches everything, or when the dependency's group has a lower bound and shares a version with the range |
| DependencyDb.Db.constructor | index.js:11-14 | wraps a sorted, linked store |
| DependencyDb.Db.Store | index.js:16-37 | on success, the entries become the old entries with the batch applied; on a key error, nothing is written and the error is returned; the integrity invariant is kept |
| DependencyDb.Db.Query | index.js:39-74 | the loop over the scanned records returns exactly what `QuerySpec` describes |

## Left out

- Streams and callbacks (`through2`, `pump`, `stream-collector`): `query` is modelled as a filter over an ordered snapshot of the entries, and the callbacks become return values.
- The levelup/memdb backend is modelled as a sorted sequence of entries. A batch is a sequence of puts applied atomically. Failures of the backend's batch or read stream are not modelled.
- `semver.Range` parsing is the parameter `parse`. `Range.text` stands for the parser's `range.range`, and `None` stands for a parse that throws.
- `lexi.pack` is the parameter `pack`, constrained by `IsPacker`.
- Pre-release tags and build metadata: `lexSemver` reads only major, minor and patch, and `Satisfies` ignores them too.
- JSON value encoding is not modelled. Values are the datatype `Value`. A document lookup whose key holds something other than a document fails, standing for a JSON decode failure. An index entry holding a document cannot occur in a linked store, and its lookup is modelled as a failure.
- Error messages: the error kinds keep the offending operator but not the message text.
- Semver.Bump: the patch number is an unbounded natural. JavaScript numbers are exact only up to 2^53.
- DependencyDb.Db.Query: the JavaScript `query` throws synchronously when `semver.Range` rejects the range (index.js:40) or when `normalize` rejects the query's group (index.js:51), and never calls its callback. The model returns `Err(InvalidRange)` or the normaliser's error instead. The OR-range error does go through the callback in both.
- UTF-16: JavaScript's `<`, `split` and `slice` work on UTF-16 code units, while `Strings.Less` compares Dafny characters, which are Unicode scalar values. Key order differs from the store's for names holding characters above U+FFFF.
- DependencyDb.Db.Store: the JavaScript `store` throws synchronously when a group does not normalise, and never calls its callback. The model returns the error instead, with nothing written.
- Key layout with `!` in names: the key split inverts `genkey` only when the dependency name and the dependant's `name@version` contain no `!`. The lemmas about the split require this. New npm package names cannot contain `!`, but older names may; for those the split is not described.
- The in-place `patch++` of `normalizeLower` and `normalizeUpper` is not modelled. They return a fresh triple; the mutated comparator is never read again.
- Devdependency indexes, `latest` entries, pruning and pagination are exercised in test/test.js but have no implementation in index.js, so they are not modelled.
