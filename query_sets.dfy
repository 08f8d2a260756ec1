/**
 * QueryKit/QuerySet.swift: the immutable description of a Core Data query —
 * the context and entity it runs against, its sort descriptors, an optional
 * predicate and an optional `[start, end)` range. Every builder returns a new
 * QuerySet through the copying initialiser; `fetchRequest` writes the
 * description into a fresh NSFetchRequest field by field.
 */
module QuerySets {
  import opened FoundationModel
  import Predicates

  /** A managed object context, known only by its identity. */
  datatype Context = Context(id: nat)

  /** Swift's `Range<Int>`: the half-open interval [start, end). */
  datatype Range = Range(start: int, end: int)

  datatype QuerySet = QuerySet(
    context: Context,
    entityName: string,
    sortDescriptors: seq<SortDescriptor>,
    pred: Option<Pred>,
    range: Option<Range>)

  /** `init(_ context:, _ entityName:)`: no ordering, no predicate, no range. */
  function Create(context: Context, entityName: string): (qs: QuerySet)
    ensures qs.context == context && qs.entityName == entityName
    ensures qs.sortDescriptors == [] && qs.pred.None? && qs.range.None?
  {
    QuerySet(context, entityName, [], None, None)
  }

  /** `init(queryset:sortDescriptors:predicate:range:)`: the context and entity
      come from the given QuerySet; absent sort descriptors leave the
      property's initial value, the empty list. */
  function Derive(qs: QuerySet, sortDescriptors: Option<seq<SortDescriptor>>, pred: Option<Pred>, range: Option<Range>): (r: QuerySet)
    ensures r.context == qs.context && r.entityName == qs.entityName
    ensures r.sortDescriptors == (if sortDescriptors.Some? then sortDescriptors.value else [])
    ensures r.pred == pred && r.range == range
  {
    QuerySet(qs.context, qs.entityName, if sortDescriptors.Some? then sortDescriptors.value else [], pred, range)
  }

  /** True when r keeps qs's context and entity, and only its ordering changed. */
  predicate OnlyOrderingChanged(qs: QuerySet, r: QuerySet)
  {
    r.context == qs.context && r.entityName == qs.entityName && r.pred == qs.pred && r.range == qs.range
  }

  // ---------------------------------------------------------------------
  // sorting

  /** `orderBy(_ sortDescriptors:)`: replaces the ordering. */
  function OrderBy(qs: QuerySet, sortDescriptors: seq<SortDescriptor>): (r: QuerySet)
    ensures OnlyOrderingChanged(qs, r) && r.sortDescriptors == sortDescriptors
  {
    Derive(qs, Some(sortDescriptors), qs.pred, qs.range)
  }

  /** `orderBy(_ sortDescriptor:)`: ordering by a single descriptor. */
  function OrderByOne(qs: QuerySet, sortDescriptor: SortDescriptor): (r: QuerySet)
    ensures OnlyOrderingChanged(qs, r) && r.sortDescriptors == [sortDescriptor]
  {
    OrderBy(qs, [sortDescriptor])
  }

  /** The elements of s in the opposite order (Swift's `reverse()`). */
  function Reversed<T>(s: seq<T>): (r: seq<T>)
    ensures |r| == |s|
    ensures forall i :: 0 <= i < |s| ==> r[i] == s[|s| - 1 - i]
  {
    if s == [] then [] else Reversed(s[1..]) + [s[0]]
  }

  /** `reverse()`: the same descriptors in the opposite sequence order, each
      keeping its own direction. */
  function Reverse(qs: QuerySet): (r: QuerySet)
    ensures OnlyOrderingChanged(qs, r)
    ensures |r.sortDescriptors| == |qs.sortDescriptors|
    ensures forall i :: 0 <= i < |qs.sortDescriptors| ==>
      r.sortDescriptors[i] == qs.sortDescriptors[|qs.sortDescriptors| - 1 - i]
  {
    Derive(qs, Some(Reversed(qs.sortDescriptors)), qs.pred, qs.range)
  }

  // ---------------------------------------------------------------------
  // filtering

  /** True when r keeps everything of qs but its predicate. */
  predicate OnlyPredicateChanged(qs: QuerySet, r: QuerySet)
  {
    r.context == qs.context && r.entityName == qs.entityName
    && r.sortDescriptors == qs.sortDescriptors && r.range == qs.range
  }

  /** `filter(_ predicate:)`: the new predicate alone when there was none,
      otherwise an AND compound of the existing one and the new one. */
  function Filter(qs: QuerySet, p: Pred): (r: QuerySet)
    ensures OnlyPredicateChanged(qs, r)
    ensures qs.pred.None? ==> r.pred == Some(p)
    ensures qs.pred.Some? ==> r.pred == Some(Predicates.And(qs.pred.value, p))
  {
    var futurePredicate :=
      if qs.pred.Some? then Compound(AndType, [qs.pred.value, p]) else p;
    Derive(qs, Some(qs.sortDescriptors), Some(futurePredicate), qs.range)
  }

  /** `filter(_ predicates:)`: AND the given predicates first, then filter. */
  function FilterAll(qs: QuerySet, ps: seq<Pred>): (r: QuerySet)
    ensures r == Filter(qs, Compound(AndType, ps))
  {
    Filter(qs, Compound(AndType, ps))
  }

  /** `exclude(_ predicate:)`: filter by NOT p. */
  function Exclude(qs: QuerySet, p: Pred): (r: QuerySet)
    ensures r == Filter(qs, Predicates.Not(p))
  {
    Filter(qs, Compound(NotType, [p]))
  }

  /** `exclude(_ predicates:)`: exclude the AND of the predicates, that is,
      filter by NOT (p1 AND p2 AND ...). */
  function ExcludeAll(qs: QuerySet, ps: seq<Pred>): (r: QuerySet)
    ensures r == Filter(qs, Predicates.Not(Compound(AndType, ps)))
  {
    Exclude(qs, Compound(AndType, ps))
  }

  // ---------------------------------------------------------------------
  // range subscript

  /** `subscript(range:)`: with no current range the range is taken as it is;
      otherwise its start counts from the current start and its end is
      absolute (it is not clamped to the current end). */
  function Slice(qs: QuerySet, range: Range): (r: QuerySet)
    ensures r.context == qs.context && r.entityName == qs.entityName
    ensures r.sortDescriptors == qs.sortDescriptors && r.pred == qs.pred
    ensures qs.range.None? ==> r.range == Some(range)
    ensures qs.range.Some? ==> r.range == Some(Range(qs.range.value.start + range.start, range.end))
  {
    var fullRange :=
      if qs.range.Some? then Range(qs.range.value.start + range.start, range.end) else range;
    Derive(qs, Some(qs.sortDescriptors), qs.pred, Some(fullRange))
  }

  // ---------------------------------------------------------------------
  // equality

  function StartIndex(r: Option<Range>): Option<int>
  {
    if r.Some? then Some(r.value.start) else None
  }

  function EndIndex(r: Option<Range>): Option<int>
  {
    if r.Some? then Some(r.value.end) else None
  }

  /** `==`: context, entity, ordering and predicate agree, and so do both
      range ends, compared as optionals. Since a range is determined by its
      two ends, this is equality of the whole descriptor. */
  predicate Equal(lhs: QuerySet, rhs: QuerySet): (b: bool)
    ensures b <==> lhs == rhs
  {
    && lhs.context == rhs.context
    && lhs.entityName == rhs.entityName
    && lhs.sortDescriptors == rhs.sortDescriptors
    && lhs.pred == rhs.pred
    && StartIndex(lhs.range) == StartIndex(rhs.range)
    && EndIndex(lhs.range) == EndIndex(rhs.range)
  }

  // ---------------------------------------------------------------------
  // fetch request

  /** NSFetchRequest, with the fields QueryKit sets. A fetch limit of 0 is
      Core Data's "no limit". */
  class FetchRequest {
    var entityName: string
    var pred: Option<Pred>
    var sortDescriptors: seq<SortDescriptor>
    var fetchOffset: int
    var fetchLimit: int

    /** `NSFetchRequest(entityName:)`. */
    constructor (entityName: string)
      ensures this.entityName == entityName && pred.None? && sortDescriptors == []
      ensures fetchOffset == 0 && fetchLimit == 0
    {
      this.entityName := entityName;
      pred := None;
      sortDescriptors := [];
      fetchOffset := 0;
      fetchLimit := 0;
    }
  }

  /** `fetchRequest`: the entity, predicate and ordering of the QuerySet; with a
      range, offset = start and limit = end - start; without one, the request
      keeps its defaults. */
  method MakeFetchRequest(qs: QuerySet) returns (request: FetchRequest)
    ensures fresh(request)
    ensures request.entityName == qs.entityName
    ensures request.pred == qs.pred && request.sortDescriptors == qs.sortDescriptors
    ensures qs.range.Some? ==>
      (request.fetchOffset == qs.range.value.start
       && request.fetchLimit == qs.range.value.end - qs.range.value.start)
    ensures qs.range.None? ==> request.fetchOffset == 0 && request.fetchLimit == 0
  {
    request := new FetchRequest(qs.entityName);
    request.pred := qs.pred;
    request.sortDescriptors := qs.sortDescriptors;
    if qs.range.Some? {
      var range := qs.range.value;
      request.fetchOffset := range.start;
      request.fetchLimit := range.end - range.start;
    }
  }
  // ---------------------------------------------------------------------
  // properties

  lemma {:induction false} ReversedTwice<T>(s: seq<T>)
    ensures Reversed(Reversed(s)) == s
  {
    var r := Reversed(Reversed(s));
    assert |r| == |s|;
    forall i | 0 <= i < |s|
      ensures r[i] == s[i]
    {
      assert r[i] == Reversed(s)[|s| - 1 - i];
    }
  }

  /** Reversing twice gives back the same QuerySet. */
  lemma ReverseInvolution(qs: QuerySet)
    ensures Reverse(Reverse(qs)) == qs
  {
    ReversedTwice(qs.sortDescriptors);
  }

  /** Ordering by [name, age] and reversing orders by [age, name], both still
      ascending. */
  lemma ReverseOrderingExample(qs: QuerySet)
    ensures Reverse(OrderBy(qs, [SortDescriptor("name", true), SortDescriptor("age", true)])).sortDescriptors
         == [SortDescriptor("age", true), SortDescriptor("name", true)]
  {
    var r := Reverse(OrderBy(qs, [SortDescriptor("name", true), SortDescriptor("age", true)]));
    assert r.sortDescriptors[0] == SortDescriptor("age", true);
    assert r.sortDescriptors[1] == SortDescriptor("name", true);
  }

  /** A later `orderBy` discards an earlier one instead of merging with it. */
  lemma OrderByReplaces(qs: QuerySet, first: seq<SortDescriptor>, second: seq<SortDescriptor>)
    ensures OrderBy(OrderBy(qs, first), second) == OrderBy(qs, second)
  {
  }

  /** Two filters in a row nest: the earlier AND becomes the left operand. */
  lemma FilterTwiceNests(qs: QuerySet, p1: Pred, p2: Pred)
    ensures qs.pred.None? ==> Filter(Filter(qs, p1), p2).pred == Some(Predicates.And(p1, p2))
    ensures qs.pred.Some? ==>
      Filter(Filter(qs, p1), p2).pred == Some(Predicates.And(Predicates.And(qs.pred.value, p1), p2))
  {
  }

  /** On a QuerySet without a predicate, filtering by p1 and then p2 is
      filtering by `p1 && p2`; once a predicate is present the two differ,
      because compounds are not flattened. */
  lemma SequentialFiltersVersusConjunction(qs: QuerySet, p1: Pred, p2: Pred)
    ensures qs.pred.None? ==> Filter(Filter(qs, p1), p2) == Filter(qs, Predicates.And(p1, p2))
    ensures qs.pred.Some? ==> Filter(Filter(qs, p1), p2) != Filter(qs, Predicates.And(p1, p2))
  {
    if qs.pred.Some? {
      Predicates.AndNotFlattened(qs.pred.value, p1, p2);
    }
  }

  /** `exclude([p1, p2])` filters by NOT (p1 AND p2), which is not the
      AND of NOT p1 and NOT p2. */
  lemma ExcludeAllIsNotAndOfNots(qs: QuerySet, p1: Pred, p2: Pred)
    ensures qs.pred.None? ==> ExcludeAll(qs, [p1, p2]).pred == Some(Compound(NotType, [Compound(AndType, [p1, p2])]))
    ensures ExcludeAll(qs, [p1, p2]) != FilterAll(qs, [Predicates.Not(p1), Predicates.Not(p2)])
  {
  }

  /** Slicing twice is slicing once: by the sum of the starts, up to the later end. */
  lemma SliceTwice(qs: QuerySet, first: Range, second: Range)
    ensures Slice(Slice(qs, first), second) == Slice(qs, Range(first.start + second.start, second.end))
  {
  }

  /** `[2, 6)` then `[2, 5)` gives `[4, 5)`; the end is never clamped to the
      earlier end, and the result can be an inverted range. */
  lemma SliceExamples(qs: QuerySet)
    requires qs.range.None?
    ensures Slice(Slice(qs, Range(2, 6)), Range(2, 5)).range == Some(Range(4, 5))
    ensures Slice(Slice(qs, Range(2, 6)), Range(2, 10)).range == Some(Range(4, 10))
    ensures Slice(Slice(qs, Range(2, 6)), Range(2, 3)).range == Some(Range(4, 3))
  {
  }

  /** Every builder keeps the context and the entity name. */
  lemma BuildersKeepEntity(qs: QuerySet, ds: seq<SortDescriptor>, p: Pred, ps: seq<Pred>, range: Range)
    ensures var all := [OrderBy(qs, ds), Reverse(qs), Filter(qs, p), FilterAll(qs, ps),
                        Exclude(qs, p), ExcludeAll(qs, ps), Slice(qs, range)];
            forall i :: 0 <= i < |all| ==> all[i].context == qs.context && all[i].entityName == qs.entityName
  {
  }

  /** The request of `filter(p).orderBy(d)[2..<4]`: entity `Person`, the
      predicate p, ordering [d], offset 2 and limit 2. */
  method FetchRequestExample(context: Context, p: Pred, d: SortDescriptor) returns (request: FetchRequest)
    ensures request.entityName == "Person" && request.pred == Some(p)
    ensures request.sortDescriptors == [d]
    ensures request.fetchOffset == 2 && request.fetchLimit == 2
  {
    var qs := Slice(OrderByOne(Filter(Create(context, "Person"), p), d), Range(2, 4));
    request := MakeFetchRequest(qs);
  }
}
