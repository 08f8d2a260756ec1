# QueryKit query-builder algebra in Dafny

QueryKit is a Swift library for building Core Data queries. This project models its pure part, the query builder, and proves properties of it:

- **Comparisons.** The NSExpression comparison operators build `NSComparisonPredicate`s.
- **Connectives.** The `&&`, `||` and `!` connectives build `NSCompoundPredicate`s.
- **Attributes.** `Attribute` turns a field name into comparisons, `IN`, `BETWEEN` and `LIKE` format predicates, and into sort descriptors.
- **Key paths.** The Swift key-path operators delegate to the attribute operators.
- **PredicateFormat.** This interpolated-string tree has two folds: a display description, and a format string with its ordered argument list.
- **QuerySet.** The immutable QuerySet descriptor has these operations:
  - `orderBy`, `reverse`, `filter` and `exclude`;
  - the range subscript;
  - `==`;
  - `fetchRequest`.

  The model covers both the current file and its older snapshot.
- **Objective-C bridge.** The conversion to and from the Objective-C `QKQuerySet` includes the `Range` ↔ `NSRange` mapping, with `NSNotFound` meaning "no range".

Foundation is represented by value shapes (`FoundationModel`):

- an NSPredicate is a comparison node, a compound node, or a format string with its arguments;
- an NSExpression is a key path or a constant;
- run-time `AnyObject` values form a closed sum (`Value`).

Modules follow the source files:

| module | file |
|---|---|
| `FoundationModel` | `foundation_model.dfy` |
| `Expressions` | `expressions.dfy` |
| `Predicates` | `predicates.dfy` |
| `Attributes` | `attributes.dfy` |
| `PredicateFormats` | `predicate_formats.dfy` |
| `QuerySets` | `query_sets.dfy` |
| `LegacyQuerySets` | `legacy_query_sets.dfy` |
| `KeyPaths` | `key_paths.dfy` |
| `ObjCBridge` | `obj_c_bridge.dfy` |

Three behaviours the model follows exactly as the code has them:

- `reverse()` reverses the *sequence order* of the sort descriptors and keeps each descriptor's direction (QueryKit/QuerySet.swift:62).
- `&&` and `||` never flatten nested compounds (QueryKit/Predicate.swift:12-19).
- `CaseSensitivity.Sensitive` yields `"[c]"`, which is NSPredicate's case-insensitive flag, and `Insensitive` yields no flag (QueryKit/Attribute.swift:15-24).

A QuerySet's fields are all `let`, so it is a datatype. `fetchRequest` builds a fresh NSFetchRequest and sets its fields one after another, so it is a method over a `FetchRequest` class.

## Model

| member | source | states |
|---|---|---|
| FoundationModel.NatDigits | QueryKit/PredicateFormat.swift:18 | the printed form of a natural number is a non-empty string of decimal digits that spells the number, with no leading zero except for 0 itself |
| FoundationModel.ValueDescription | QueryKit/PredicateFormat.swift:18 | `String(v)` of a non-negative integer is exactly its decimal digits (`NatDigits`), of a negative one a minus sign followed by the digits of its magnitude; a string is shown as itself; an array is shown in parentheses |
| FoundationModel.JoinDescriptions | QueryKit/PredicateFormat.swift:18 | the items of an array are shown in order: one item is its own description, with at least two characters per separator |
| FoundationModel.JoinDescriptionsSnoc | QueryKit/PredicateFormat.swift:18 | appending an item to a non-empty array appends `", "` and the item's description: neighbours are separated by `", "` |
| Expressions.Equal | QueryKit/Expression.swift:11-13 | `==` is one comparison node: the two expressions unchanged, direct modifier, EqualTo, options 0 |
| Expressions.NotEqual | QueryKit/Expression.swift:15-17 | `!=` is one comparison node: the operands unchanged, direct modifier, NotEqualTo, options 0 |
| Expressions.Greater | QueryKit/Expression.swift:19-21 | `>` is one comparison node with GreaterThan, the operands unchanged, direct, options 0 |
| Expressions.GreaterOrEqual | QueryKit/Expression.swift:23-25 | `>=` is one comparison node with GreaterThanOrEqualTo, the operands unchanged, direct, options 0 |
| Expressions.Less | QueryKit/Expression.swift:27-29 | `<` is one comparison node with LessThan, the operands unchanged, direct, options 0 |
| Expressions.LessOrEqual | QueryKit/Expression.swift:31-33 | `<=` is one comparison node with LessThanOrEqualTo, the operands unchanged, direct, options 0 |
| Expressions.OperatorsInjective | QueryKit/Expression.swift:11-33 | two operator applications give the same predicate if and only if the operator and both operands are the same |
| Expressions.NotEqualIsNotNegatedEqual | QueryKit/Expression.swift:15-17 | `!=` is a NotEqualTo comparison, not a NOT compound around `==` |
| Expressions.AgeComparedWithTen | QueryKitTests/ExpressionTests.swift:23-46 | key path `age` against constant 10 gives exactly `age == 10`, `age != 10`, `age > 10`, `age >= 10`, `age < 10` and `age <= 10`, each a direct comparison with options 0 |
| Predicates.And | QueryKit/Predicate.swift:12-14 | `a && b` is an AND compound whose subpredicates are exactly `[a, b]` |
| Predicates.Or | QueryKit/Predicate.swift:17-19 | `a OR b` (Swift's or-operator) is an OR compound whose subpredicates are exactly `[a, b]` |
| Predicates.Not | QueryKit/Predicate.swift:22-24 | `!a` is a NOT compound whose only subpredicate is `a` |
| Predicates.ConnectivesAddOneNode | QueryKit/Predicate.swift:12-24 | each connective adds exactly one node to its operands' node counts: nothing is rewritten or dropped |
| Predicates.DoubleNegationKept | QueryKit/Predicate.swift:22-24 | `!!a` is two NOT nodes around `a` and is never `a` |
| Predicates.AndNotFlattened | QueryKit/Predicate.swift:12-14 | `(a && b) && c` keeps the inner AND as its first operand and differs from `a && (b && c)` |
| Predicates.OrNotFlattened | QueryKit/Predicate.swift:17-19 | `(a OR b) OR c` keeps the inner OR compound and differs from `a OR (b OR c)` |
| Attributes.SimpleDescription | QueryKit/Attribute.swift:15-24 | `""` exactly for Insensitive, `"[c]"` exactly for Sensitive, `"[cd]"` exactly for DiacriticSensitive |
| Attributes.Expression | QueryKit/Attribute.swift:36-38 | the attribute's expression is the key-path expression of its name |
| Attributes.Ascending | QueryKit/Attribute.swift:40-42 | an ascending sort descriptor keyed by the name |
| Attributes.Descending | QueryKit/Attribute.swift:44-46 | a descending sort descriptor keyed by the name |
| Attributes.Equal | QueryKit/Attribute.swift:49-51 | `attr == v` is the EqualTo comparison of key path `name` with constant `v` |
| Attributes.NotEqual | QueryKit/Attribute.swift:53-55 | `attr != v` is the NotEqualTo comparison of key path `name` with constant `v` |
| Attributes.Greater | QueryKit/Attribute.swift:57-59 | `attr > v` is the GreaterThan comparison of key path `name` with constant `v` |
| Attributes.GreaterOrEqual | QueryKit/Attribute.swift:61-63 | `attr >= v` is the GreaterThanOrEqualTo comparison of key path `name` with constant `v` |
| Attributes.Less | QueryKit/Attribute.swift:65-67 | `attr < v` is the LessThan comparison of key path `name` with constant `v` |
| Attributes.LessOrEqual | QueryKit/Attribute.swift:69-71 | `attr <= v` is the LessThanOrEqualTo comparison of key path `name` with constant `v` |
| Attributes.RelationalDelegatesToExpression | QueryKit/Attribute.swift:49-71 | each relational attribute operator equals the Expression operator of the same type on `keyPath(name)` and `constant(v)` |
| Attributes.In | QueryKit/Attribute.swift:73-75 | `attr << v` is the format `%K IN %@` with arguments `[name, v]` |
| Attributes.Between | QueryKit/Attribute.swift:77-79 | `attr << (lo, hi)` is `%K BETWEEN %@` with arguments `[name, [lo, hi]]`, with no order check on the bounds |
| Attributes.Like | QueryKit/Attribute.swift:81-83 | `attr ~= v` is `%K LIKE %@` with arguments `[name, v]` |
| Attributes.LikeWith | QueryKit/Attribute.swift:85-89 | `attr ~= (v, cs)` is `"%K LIKE" + simpleDescription(cs) + " %@"` with arguments `[name, v]` |
| Attributes.LikeIsInsensitiveLike | QueryKit/Attribute.swift:81-89 | plain `~=` equals the case-sensitivity form if and only if the case is Insensitive |
| PredicateFormats.Description | QueryKit/PredicateFormat.swift:9-19 | `description` shows a `%K` leaf as its key path, not as `%K`; an empty tree as `""`; a one-child tree as its child |
| PredicateFormats.DescribeFrom | QueryKit/PredicateFormat.swift:12 | the description `reduce` extends its start text and never rewrites it |
| PredicateFormats.Equal | QueryKit/PredicateFormat.swift:53-55 | `==` holds for identical trees, and a one-child tree is equal to exactly what its child describes as |
| PredicateFormats.FromStringLiteral | QueryKit/PredicateFormat.swift:40-42 | a string literal is one literal segment with that text |
| PredicateFormats.FromGraphemeClusterLiteral | QueryKit/PredicateFormat.swift:44-46 | a Character literal, one or more Unicode scalars, is one literal segment holding all of them |
| PredicateFormats.FromUnicodeScalarLiteral | QueryKit/PredicateFormat.swift:48-50 | a Unicode scalar literal is a literal segment of that one scalar |
| PredicateFormats.FromInterpolation | QueryKit/PredicateFormat.swift:22-24 | an interpolation is a tree of exactly its segments, in order |
| PredicateFormats.FromInterpolationSegment | QueryKit/PredicateFormat.swift:26-38 | a format is taken as is, a convertible by its format value, a string as literal text, an object as a `%@` argument, anything else as a `%@` argument holding its printed form |
| PredicateFormats.InterpolationSegments | QueryKit/PredicateFormat.swift:22-24 | the interpolation's segments alternate the literal pieces, including empty ones at either end, with the interpolated values |
| PredicateFormats.Interpolate | QueryKit/PredicateFormat.swift:22-24 | an interpolated literal is a tree of `2n+1` segments that starts and ends with the outer literal pieces |
| PredicateFormats.Key | QueryKit/PredicateFormat.swift:68-70 | `key(k)` is the `%K` leaf of `k` |
| PredicateFormats.Quoted | QueryKit/PredicateFormat.swift:72-74 | `quoted(s)` is the `%@` leaf of the string `s` |
| PredicateFormats.ToPredicate | QueryKit/PredicateFormat.swift:60-66 | `Predicate(format)` holds the format predicate of the tree's format string and argument list |
| PredicateFormats.Plus | QueryKit/PredicateFormat.swift:84-86 | segment `+` puts the left operand's text and arguments first and the right operand's after them |
| PredicateFormats.PlusAssociative | QueryKit/PredicateFormat.swift:84-86 | segment `+` is associative |
| PredicateFormats.PlusIdentity | QueryKit/PredicateFormat.swift:84-86 | `("", [])` is a left and right identity of segment `+` |
| PredicateFormats.Segments | QueryKit/PredicateFormat.swift:93-104 | `formatSegments` has one argument per `%K`/`%@` leaf; a key-path leaf is `%K` and an object leaf `%@` |
| PredicateFormats.SegmentsFrom | QueryKit/PredicateFormat.swift:96 | the `reduce` of `+` extends its start segment and adds one argument per placeholder leaf of the children |
| PredicateFormats.SegmentsFromShift | QueryKit/PredicateFormat.swift:96 | the `reduce` of `+` from any start segment is that segment plus the reduce from the empty one |
| PredicateFormats.DescribeFromShift | QueryKit/PredicateFormat.swift:12 | the description `reduce` from any start text is that text followed by the reduce from `""` |
| PredicateFormats.SegmentsAreLeafwise | QueryKit/PredicateFormat.swift:93-104 | `formatSegments` is the leaves' format texts concatenated left to right, with one argument per `%K`/`%@` leaf in that order |
| PredicateFormats.SegmentsFromAreLeafwise | QueryKit/PredicateFormat.swift:95-96 | the fold over a tree's children equals the leaf-by-leaf serialisation of all their leaves |
| PredicateFormats.DescriptionIsLeafwise | QueryKit/PredicateFormat.swift:9-19 | `description` is the leaves' descriptions concatenated in order: a tree is its children's descriptions in order |
| PredicateFormats.DescribeFromIsLeafwise | QueryKit/PredicateFormat.swift:11-12 | folding the children's descriptions gives the leaf-by-leaf description |
| PredicateFormats.DescriptionOfSplitTree | QueryKit/PredicateFormat.swift:11-12 | the description of a tree over `xs + ys` is the description over `xs` followed by that over `ys` |
| PredicateFormats.ArgumentsMatchPlaceholders | QueryKit/PredicateFormat.swift:93-104 | the argument list has exactly one entry per `%K`/`%@` leaf, in left-to-right order |
| PredicateFormats.RenderedSegmentsAreDescription | QueryKit/PredicateFormat.swift:93-104 | substituting each argument's description into its placeholder of the format string gives back the tree's description whenever no literal text contains `%` |
| PredicateFormats.EqualityIgnoresPlaceholders | QueryKit/PredicateFormat.swift:53-55 | `==` compares descriptions: `Tree(["a","b"]) == "ab"`, and the `%K` leaf `age` equals the literal `age` though they serialise differently |
| PredicateFormats.InterpolatedComparison | QueryKitTests/PredicateFormatTests.swift:35-42 | `"\(key(age)) == \(21)"` is the five-segment tree of the test and serialises to `%K == %@` with `[age, 21]` |
| PredicateFormats.PredicateFromFormatExamples | QueryKitTests/PredicateFormatTests.swift:14-33 | a plain literal gives a format with no arguments; both interpolations of the tests give `%K == %@` with `[name, QueryKit]` |
| QuerySets.Create | QueryKit/QuerySet.swift:31-34 | a fresh QuerySet has the given context and entity, no ordering, no predicate and no range |
| QuerySets.Derive | QueryKit/QuerySet.swift:36-46 | the copying initialiser keeps context and entity, takes predicate and range as given, and an absent sort list becomes `[]` |
| QuerySets.OrderBy | QueryKit/QuerySet.swift:56-58 | `orderBy(ds)` replaces the ordering with `ds` and changes nothing else |
| QuerySets.OrderByOne | QueryKit/QuerySet.swift:51-53 | `orderBy(d)` orders by `[d]` and changes nothing else |
| QuerySets.Reversed | QueryKit/QuerySet.swift:62 | the reversed list has the same length, with element `i` equal to element `n-1-i` of the input |
| QuerySets.Reverse | QueryKit/QuerySet.swift:61-63 | `reverse()` reverses the sequence order of the descriptors and changes nothing else |
| QuerySets.ReverseInvolution | QueryKit/QuerySet.swift:61-63 | reversing twice gives back the same QuerySet |
| QuerySets.ReverseOrderingExample | QueryKitTests/QuerySetTests.swift:50-56 | ordering by `[name, age]` and reversing orders by `[age, name]`, both still ascending |
| QuerySets.OrderByReplaces | QueryKit/QuerySet.swift:56-58 | a second `orderBy` discards the first |
| QuerySets.Filter | QueryKit/QuerySet.swift:68-76 | `filter(p)` sets the predicate to `p` when there is none, otherwise to `existing && p`, and changes nothing else |
| QuerySets.FilterAll | QueryKit/QuerySet.swift:79-82 | `filter(ps)` is `filter` by the AND compound of `ps` |
| QuerySets.Exclude | QueryKit/QuerySet.swift:85-88 | `exclude(p)` is `filter(!p)` |
| QuerySets.ExcludeAll | QueryKit/QuerySet.swift:91-94 | `exclude(ps)` is `filter(!(AND of ps))` |
| QuerySets.FilterTwiceNests | QueryKit/QuerySet.swift:68-76 | two filters nest the earlier AND as the left operand of the later one |
| QuerySets.SequentialFiltersVersusConjunction | QueryKit/QuerySet.swift:68-76 | `filter(p1).filter(p2)` equals `filter(p1 && p2)` exactly when there was no predicate before |
| QuerySets.ExcludeAllIsNotAndOfNots | QueryKit/QuerySet.swift:91-94 | `exclude([p1, p2])` is NOT of the AND, and differs from filtering by `[!p1, !p2]` |
| QuerySets.Slice | QueryKit/QuerySet.swift:120-130 | with no range the subscript range is taken as is; otherwise the start adds to the current start and the end is absolute; nothing else changes |
| QuerySets.SliceTwice | QueryKit/QuerySet.swift:120-130 | two subscripts are one subscript by the sum of the starts up to the later end |
| QuerySets.SliceExamples | QueryKitTests/QuerySetTests.swift:141-148 | `[2,6)` then `[2,5)` gives `[4,5)`; the end is not clamped, and an inverted range can result |
| QuerySets.Equal | QueryKit/QuerySet.swift:229-237 | `==` holds if and only if context, entity, ordering, predicate and both range ends agree, which is equality of the whole descriptor |
| QuerySets.BuildersKeepEntity | QueryKit/QuerySet.swift:36-46 | every builder keeps the context and the entity name |
| QuerySets.FetchRequest.constructor | QueryKit/QuerySet.swift:143 | a new request for the entity, with no predicate, no ordering, offset 0 and limit 0 |
| QuerySets.MakeFetchRequest | QueryKit/QuerySet.swift:142-153 | a fresh request with the entity, predicate and ordering; offset = start and limit = end − start with a range, the defaults without one |
| QuerySets.FetchRequestExample | QueryKitTests/QuerySetTests.swift:102-114 | the request of `filter(p).orderBy(d)[2..<4]` has entity `Person`, predicate `p`, ordering `[d]`, offset 2 and limit 2 |
| LegacyQuerySets.Create | QueryKit/QueryKit.swift:23-26 | the older initialiser agrees with the current one on every input |
| LegacyQuerySets.Derive | QueryKit/QueryKit.swift:28-38 | the older copying initialiser agrees with the current one on every input |
| LegacyQuerySets.OrderBy | QueryKit/QueryKit.swift:46-48 | the older `orderBy(ds)` agrees with the current one on every input |
| LegacyQuerySets.OrderByOne | QueryKit/QueryKit.swift:42-44 | the older `orderBy(d)` agrees with the current one on every input |
| LegacyQuerySets.Filter | QueryKit/QueryKit.swift:52-60 | the older `filter(p)` agrees with the current one on every input |
| LegacyQuerySets.FilterAll | QueryKit/QueryKit.swift:62-65 | the older `filter(ps)` agrees with the current one on every input |
| LegacyQuerySets.Exclude | QueryKit/QueryKit.swift:67-70 | the older `exclude(p)` agrees with the current one on every input |
| LegacyQuerySets.ExcludeAll | QueryKit/QueryKit.swift:72-75 | the older `exclude(ps)` agrees with the current one on every input |
| LegacyQuerySets.Slice | QueryKit/QueryKit.swift:98-108 | the older range subscript agrees with the current one on every input |
| LegacyQuerySets.MakeFetchRequest | QueryKit/QueryKit.swift:112-123 | a fresh request with entity, predicate and ordering; offset and limit from the range only when there is one |
| KeyPaths.AttributeOf | Sources/QueryKit/KeyPath.swift:44 | the attribute is named by the key path's KVC string |
| KeyPaths.Bridge | Tests/QueryKitTests/KeyPathTests.swift:10-13 | a `nil` operand becomes the NSNull constant, and any other value is passed through unchanged |
| KeyPaths.Equal | Sources/QueryKit/KeyPath.swift:43-46 | `kp == v` is the EqualTo comparison of the key path's name with constant `v` |
| KeyPaths.NotEqual | Sources/QueryKit/KeyPath.swift:48-51 | `kp != v` is the NotEqualTo comparison of the key path's name with constant `v` |
| KeyPaths.Greater | Sources/QueryKit/KeyPath.swift:53-56 | `kp > v` is the GreaterThan comparison of the key path's name with constant `v` |
| KeyPaths.GreaterOrEqual | Sources/QueryKit/KeyPath.swift:58-61 | `kp >= v` is the GreaterThanOrEqualTo comparison of the key path's name with constant `v` |
| KeyPaths.Less | Sources/QueryKit/KeyPath.swift:63-66 | `kp < v` is the LessThan comparison of the key path's name with constant `v` |
| KeyPaths.LessOrEqual | Sources/QueryKit/KeyPath.swift:68-71 | `kp <= v` is the LessThanOrEqualTo comparison of the key path's name with constant `v` |
| KeyPaths.Like | Sources/QueryKit/KeyPath.swift:73-76 | `kp ~= v` is `%K LIKE %@` with arguments `[name, v]` |
| KeyPaths.In | Sources/QueryKit/KeyPath.swift:78-81 | `kp << [vs]` is `%K IN %@` with the array passed on unchanged |
| KeyPaths.Between | Sources/QueryKit/KeyPath.swift:83-86 | `kp << (lo ..< hi)` is `%K BETWEEN %@` with `[lo, hi]`, and the excluded upper bound is passed as it is |
| KeyPaths.TypedEqual | Sources/QueryKit/KeyPath.swift:5-7 | the typed `==` wraps exactly the untyped predicate |
| KeyPaths.TypedNotEqual | Sources/QueryKit/KeyPath.swift:9-11 | the typed `!=` wraps exactly the untyped predicate |
| KeyPaths.TypedGreater | Sources/QueryKit/KeyPath.swift:13-15 | the typed `>` wraps exactly the untyped predicate |
| KeyPaths.TypedGreaterOrEqual | Sources/QueryKit/KeyPath.swift:17-19 | the typed `>=` wraps exactly the untyped predicate |
| KeyPaths.TypedLess | Sources/QueryKit/KeyPath.swift:21-23 | the typed `<` wraps exactly the untyped predicate |
| KeyPaths.TypedLessOrEqual | Sources/QueryKit/KeyPath.swift:25-27 | the typed `<=` wraps exactly the untyped predicate |
| KeyPaths.TypedLike | Sources/QueryKit/KeyPath.swift:29-31 | the typed `~=` wraps exactly the untyped predicate |
| KeyPaths.TypedIn | Sources/QueryKit/KeyPath.swift:33-35 | the typed `<<` with an array wraps exactly the untyped predicate |
| KeyPaths.TypedBetween | Sources/QueryKit/KeyPath.swift:37-39 | the typed `<<` with a range wraps exactly the untyped predicate |
| KeyPaths.NilComparesWithNull | Tests/QueryKitTests/KeyPathTests.swift:10-28 | `kp == nil` and `kp != nil` compare with an NSNull constant |
| KeyPaths.HalfOpenRangeBecomesBetween | Tests/QueryKitTests/KeyPathTests.swift:60-63 | `\.age << (32 ..< 64)` has arguments `[age, [32, 64]]` |
| KeyPaths.KeyPathTestPredicates | Tests/QueryKitTests/KeyPathTests.swift:5-63 | exactly the predicates the key-path tests expect: the six comparisons with `kyle`, 17 and 18, `%K LIKE %@` with `[name, k*]`, `%K IN %@` with `[age, [5, 10]]` and `%K BETWEEN %@` with `[age, [32, 64]]` |
| ObjCBridge.AsQKQuerySet | QueryKit/ObjectiveC/QKQuerySet.swift:4-13 | every component is carried over; no range becomes `(NSNotFound, NSNotFound)`, and `[s, e)` becomes location `s`, length `e − s` |
| ObjCBridge.RangeOf | QueryKit/ObjectiveC/QKQuerySet.swift:22-26 | location NSNotFound means no range; otherwise the range starts at the location and spans the length |
| ObjCBridge.ApplyRange | QueryKit/ObjectiveC/QKQuerySet.swift:22-26 | the subscript stops the program exactly when the location is not NSNotFound and the length is negative; at NSNotFound the QuerySet comes back unchanged; context, entity, ordering and predicate are always kept, and a range-free QuerySet gets the NSRange's range |
| ObjCBridge.AsQuerySetAsWritten | QueryKit/ObjectiveC/QKQuerySet.swift:17-27 | as written: an absent sort list stops the program; then an absent predicate does; with both present, it stops exactly on a negative length |
| ObjCBridge.SortsOf | QueryKit/ObjectiveC/QKQuerySet.swift:19 | corrected: an absent sort list is read as no ordering, a present one as it is |
| ObjCBridge.AsQuerySet | QueryKit/ObjectiveC/QKQuerySet.swift:17-27 | corrected: it stops exactly on a negative length; otherwise the QuerySet has the same context, entity, predicate (not an AND) and ordering (none for an absent list), and the NSRange's range |
| ObjCBridge.AsWrittenDiffersOnlyOnNil | QueryKit/ObjectiveC/QKQuerySet.swift:19-20 | the as-written and corrected conversions agree if and only if both the sort list and the predicate are present |
| ObjCBridge.FreshQuerySetTrapsAsWritten | QueryKit/ObjectiveC/QKQuerySet.swift:20 | a fresh QuerySet converted to a QKQuerySet and back stops the program as written, and comes back unchanged when corrected |
| ObjCBridge.RoundTrip | QueryKit/ObjectiveC/QKQuerySet.swift:7-26 | QuerySet → QKQuerySet → QuerySet is the identity for no range, or for `[s, e)` with `s ≤ e` and `s` not NSNotFound |
| ObjCBridge.InvertedRangeTraps | QueryKit/ObjectiveC/QKQuerySet.swift:23 | a QuerySet with an inverted range stops the program on the way back |
| ObjCBridge.RangeAtNotFoundIsDropped | QueryKit/ObjectiveC/QKQuerySet.swift:22 | a range starting at NSNotFound is read back as no range |
| ObjCBridge.RoundTripFromQKQuerySet | QueryKit/ObjectiveC/QKQuerySet.swift:8-26 | QKQuerySet → QuerySet → QKQuerySet is the identity when the NSRange is the no-range pair or has a non-negative length at a real location, except that an absent sort list comes back empty |
| ObjCBridge.NilSortDescriptorsTrapAsWritten | QueryKit/ObjectiveC/QKQuerySet.swift:19 | a QKQuerySet with a nil sort list stops the program as written, and converts to an unordered QuerySet with the same predicate when corrected |
| ObjCBridge.ConversionTestExample | QueryKitTests/ObjectiveC/QKQuerySetTests.swift:16-36 | the test's filtered and ordered `Person` QuerySet and its QKQuerySet convert into each other, in both versions |

## Left out

- Core Data execution is I/O through the managed object context, with results decided by the store. This covers:
  - the index subscript, `first`, `array`, `count` (with its NSNotFound→nil mapping), `exists`, `delete` and `generate` in both QuerySet files;
  - `executeFetchRequest` and `countForFetchRequest`.
- Predicate evaluation is left out: whether a record matches, and LIKE wildcard semantics. Core Data does this.
- `NSPredicate(format:argumentArray:)` parses the format string in Foundation. A format predicate is kept as its format string and argument list. Tests that compare a built predicate with a parsed one are stated on the built side only.
- `init(stringInterpolationSegment:)` dispatches on run-time casts. The model replaces the casts with a closed sum of input kinds (`PredicateFormats.Interpolated`) that is tried in the same order.
- `_kvcKeyPathString` is a runtime intrinsic, so a key path is given by its KVC string. The generic `Attribute<V>` that `Sources/QueryKit/KeyPath.swift` delegates to is not part of this model. The key-path operators delegate to the non-generic `Attribute` of QueryKit/Attribute.swift, and the conversion of a Swift `nil` to NSNull is `KeyPaths.Bridge`.
- `Predicate<R>` is generic in its record type R only for the Swift type checker. `FoundationModel.TypedPredicate` holds the wrapped NSPredicate without R, so the typed key-path operators and `PredicateFormats.ToPredicate` do not carry the record type.
- `NSEntityDescription.entityForName` and `entityDescription.name!` need Core Data model metadata. The entity is known by its name, and an unknown entity name is not modelled.
- QueryKit/ObjectiveC/QKQuerySet.h and QueryKit/ObjectiveC/QKAttribute.h are declarations whose implementations are not part of this model. The only thing taken from QKQuerySet.h is that `predicate` and `sortDescriptors` have no nullability annotation, so either can be nil in a QKQuerySet made in Objective-C.
- QueryKit/SortDescriptor.swift and QueryKit/ObjectiveC/QKAttribute.swift are one-line wrappers and are not modelled.
- The generic-Attribute behaviours in the attribute tests (joined key paths, `.@count`, `!boolAttr`) belong to constructors that QueryKit/Attribute.swift does not have.
- Swift `Int` is 64 bits, and its arithmetic stops the program on overflow. Integers here are unbounded, so overflow traps are not modelled. Examples are `end - start` in `fetchRequest`, `startIndex + start` in the range subscript, and `location + length` in `asQuerySet`. `NSNotFound` is the 64-bit `Int.max`.
- `FoundationModel.ValueDescription` is a simplified `String(value)`: an array is shown on one line, a boolean as `1`/`0` and NSNull as `<null>`. The multi-line NSArray description is not modelled.
- QuerySets.Equal: `lhs.predicate == rhs.predicate` (QueryKit/QuerySet.swift:233) is NSPredicate `isEqual`, under which a format predicate equals the comparison it parses to. The model compares predicates structurally, so `QuerySets.Equal` tells apart a `Format` node and the comparison it would parse to, which the source does not.
- The `Equatable`, `SequenceType` and `NSFastEnumeration` conformances and object identity are not modelled: a QuerySet is a value. `NSManagedObjectContext` is an opaque identity (`QuerySets.Context`).

## Findings

| source | as written | input that shows it | evidently intended | confidence | as-written member | corrected member |
|---|---|---|---|---|---|---|
| QueryKit/ObjectiveC/QKQuerySet.swift:20 | `asQuerySet` passes `predicate` to `filter(_:)`. The header gives `predicate` no nullability, so Swift imports it as an implicitly unwrapped optional and the call unwraps it. | `QuerySet(context, "Person").asQKQuerySet().asQuerySet()`: the QKQuerySet's predicate is nil, and the unwrap stops the program | filter only when a predicate is present, so that a QuerySet without a predicate converts back unchanged | medium, not executed | ObjCBridge.AsQuerySetAsWritten, ObjCBridge.FreshQuerySetTrapsAsWritten | ObjCBridge.AsQuerySet, ObjCBridge.RoundTrip |
| QueryKit/ObjectiveC/QKQuerySet.swift:19 | `asQuerySet` casts `sortDescriptors` to `[NSSortDescriptor]`. The header gives it no nullability either, so the cast unwraps an implicitly unwrapped optional. | a QKQuerySet made in Objective-C by the five-argument initialiser with `sortDescriptors:nil`, then `asQuerySet()`: the unwrap stops the program before the predicate is read | read an absent sort list as no ordering | low, not executed; it depends on the Objective-C initialiser keeping the nil | ObjCBridge.AsQuerySetAsWritten, ObjCBridge.NilSortDescriptorsTrapAsWritten | ObjCBridge.AsQuerySet, ObjCBridge.RoundTripFromQKQuerySet |
