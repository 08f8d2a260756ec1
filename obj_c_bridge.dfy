/**
 * QueryKit/ObjectiveC/QKQuerySet.swift: conversion between the Swift QuerySet
 * and the Objective-C QKQuerySet. The QKQuerySet stores its range as an
 * NSRange (location, length); "no range" is the pair (NSNotFound, NSNotFound).
 *
 * The Objective-C header declares `predicate` and `sortDescriptors` without
 * a nullability annotation, so Swift sees both as implicitly unwrapped
 * optionals, and `asQuerySet` unwraps both: the sort list when it casts it
 * for `orderBy`, then the predicate when it passes it to `filter`.
 * `AsQuerySetAsWritten` models that code; `AsQuerySet` is the corrected
 * conversion, which reads an absent sort list as no ordering and filters only
 * when a predicate is present.
 */
module ObjCBridge {
  import opened FoundationModel
  import QS = QuerySets

  /** Foundation's NSNotFound, Int.max on a 64-bit platform. */
  const NSNotFound: int := 0x7FFF_FFFF_FFFF_FFFF

  datatype NSRange = NSRange(location: int, length: int)

  /** The readonly properties of a QKQuerySet. The entity description is
      known by its name. */
  datatype QKQuerySet = QKQuerySet(
    managedObjectContext: QS.Context,
    entityName: string,
    pred: Option<Pred>,
    sortDescriptors: Option<seq<SortDescriptor>>,
    range: NSRange)

  /** Why a conversion stops the program. */
  datatype TrapReason =
    | NilSortDescriptors  // unwrapping an absent `sortDescriptors`
    | NilPredicate   // unwrapping an absent `predicate`
    | InvertedRange  // `location..<(location + length)` with a negative length

  datatype Conversion = Converted(qs: QS.QuerySet) | Trapped(reason: TrapReason)

  /** `asQKQuerySet()`: every component carried over; a range [s, e) becomes
      the NSRange (s, e - s). */
  function AsQKQuerySet(qs: QS.QuerySet): (q: QKQuerySet)
    ensures q.managedObjectContext == qs.context && q.entityName == qs.entityName
    ensures q.pred == qs.pred && q.sortDescriptors == Some(qs.sortDescriptors)
    ensures qs.range.None? ==> q.range == NSRange(NSNotFound, NSNotFound)
    ensures qs.range.Some? ==>
      q.range.location == qs.range.value.start
      && q.range.location + q.range.length == qs.range.value.end
  {
    var nsrange :=
      if qs.range.Some? then NSRange(qs.range.value.start, qs.range.value.end - qs.range.value.start)
      else NSRange(NSNotFound, NSNotFound);
    QKQuerySet(qs.context, qs.entityName, qs.pred, Some(qs.sortDescriptors), nsrange)
  }

  /** The range `asQuerySet` applies: none when the location is NSNotFound,
      otherwise [location, location + length). */
  function RangeOf(r: NSRange): (range: Option<QS.Range>)
    ensures range.None? <==> r.location == NSNotFound
    ensures range.Some? ==>
      range.value.start == r.location && range.value.end - range.value.start == r.length
  {
    if r.location != NSNotFound then Some(QS.Range(r.location, r.location + r.length)) else None
  }

  /** The last step of `asQuerySet`, shared by both versions: subscript by
      the NSRange unless its location is NSNotFound, in which case the
      QuerySet is returned as it is. Swift's `..<` stops the program when the
      upper bound is below the lower one. Only the range can change. */
  function ApplyRange(queryset: QS.QuerySet, r: NSRange): (c: Conversion)
    ensures c.Trapped? <==> r.location != NSNotFound && r.length < 0
    ensures c.Trapped? ==> c.reason == InvertedRange
    ensures r.location == NSNotFound ==> c == Converted(queryset)
    ensures c.Converted? ==>
      c.qs.context == queryset.context && c.qs.entityName == queryset.entityName
      && c.qs.sortDescriptors == queryset.sortDescriptors && c.qs.pred == queryset.pred
    ensures c.Converted? && queryset.range.None? ==> c.qs.range == RangeOf(r)
  {
    if r.location != NSNotFound then
      if r.location + r.length < r.location then Trapped(InvertedRange)
      else Converted(QS.Slice(queryset, QS.Range(r.location, r.location + r.length)))
    else Converted(queryset)
  }

  /** `asQuerySet()` as written: the sort list is unwrapped for `orderBy`,
      then the predicate for `filter`, both unconditionally. */
  function AsQuerySetAsWritten(q: QKQuerySet): (c: Conversion)
    ensures q.sortDescriptors.None? ==> c == Trapped(NilSortDescriptors)
    ensures q.sortDescriptors.Some? && q.pred.None? ==> c == Trapped(NilPredicate)
    ensures q.sortDescriptors.Some? && q.pred.Some? ==>
      (c.Trapped? <==> q.range.location != NSNotFound && q.range.length < 0)
  {
    if q.sortDescriptors.None? then Trapped(NilSortDescriptors)
    else if q.pred.None? then Trapped(NilPredicate)
    else
      var queryset := QS.Filter(QS.OrderBy(QS.Create(q.managedObjectContext, q.entityName), q.sortDescriptors.value), q.pred.value);
      ApplyRange(queryset, q.range)
  }

  /** The ordering the corrected conversion uses: an absent sort list is no
      ordering. */
  function SortsOf(q: QKQuerySet): (ds: seq<SortDescriptor>)
    ensures q.sortDescriptors.Some? ==> ds == q.sortDescriptors.value
    ensures q.sortDescriptors.None? ==> ds == []
  {
    if q.sortDescriptors.Some? then q.sortDescriptors.value else []
  }

  /** `asQuerySet()` corrected: an absent sort list orders by nothing, and the
      filter is applied only to a present predicate, so the QuerySet keeps
      exactly the QKQuerySet's predicate. */
  function AsQuerySet(q: QKQuerySet): (c: Conversion)
    ensures c.Trapped? <==> q.range.location != NSNotFound && q.range.length < 0
    ensures c.Trapped? ==> c.reason == InvertedRange
    ensures c.Converted? ==>
      c.qs.context == q.managedObjectContext && c.qs.entityName == q.entityName
      && c.qs.sortDescriptors == SortsOf(q) && c.qs.pred == q.pred
      && c.qs.range == RangeOf(q.range)
  {
    var ordered := QS.OrderBy(QS.Create(q.managedObjectContext, q.entityName), SortsOf(q));
    var queryset := if q.pred.Some? then QS.Filter(ordered, q.pred.value) else ordered;
    ApplyRange(queryset, q.range)
  }

  // ---------------------------------------------------------------------
  // properties

  /** The as-written conversion agrees with the corrected one exactly when
      both the sort list and the predicate are present. */
  lemma AsWrittenDiffersOnlyOnNil(q: QKQuerySet)
    ensures q.sortDescriptors.Some? && q.pred.Some? ==> AsQuerySetAsWritten(q) == AsQuerySet(q)
    ensures q.sortDescriptors.None? || q.pred.None? ==> AsQuerySetAsWritten(q) != AsQuerySet(q)
  {
  }

  /** The QuerySet made by `QuerySet(context, "Person")` has no predicate, so
      converting it to a QKQuerySet and back stops the program as written,
      while the corrected conversion gives it back unchanged. */
  lemma FreshQuerySetTrapsAsWritten(context: QS.Context)
    ensures AsQuerySetAsWritten(AsQKQuerySet(QS.Create(context, "Person"))) == Trapped(NilPredicate)
    ensures AsQuerySet(AsQKQuerySet(QS.Create(context, "Person"))) == Converted(QS.Create(context, "Person"))
  {
  }

  /** QuerySet -> QKQuerySet -> QuerySet gives back the same QuerySet when it
      has no range, or a range [s, e) with s <= e and s other than NSNotFound. */
  lemma RoundTrip(qs: QS.QuerySet)
    requires qs.range.Some? ==> qs.range.value.start != NSNotFound && qs.range.value.start <= qs.range.value.end
    ensures AsQuerySet(AsQKQuerySet(qs)) == Converted(qs)
  {
    var c := AsQuerySet(AsQKQuerySet(qs));
    assert c.Converted?;
    if qs.range.Some? {
      assert c.qs.range == Some(QS.Range(qs.range.value.start, qs.range.value.end));
    }
  }

  /** A QuerySet whose range is inverted, as a non-clamping subscript can
      make, does not survive the conversion: `..<` stops the program. */
  lemma InvertedRangeTraps(qs: QS.QuerySet)
    requires qs.range.Some? && qs.range.value.start != NSNotFound
    requires qs.range.value.end < qs.range.value.start
    ensures AsQuerySet(AsQKQuerySet(qs)) == Trapped(InvertedRange)
    ensures AsQuerySetAsWritten(AsQKQuerySet(qs)).Trapped?
  {
  }

  /** A range starting at NSNotFound is taken for "no range" and dropped. */
  lemma RangeAtNotFoundIsDropped(qs: QS.QuerySet)
    requires qs.range.Some? && qs.range.value.start == NSNotFound
    ensures AsQuerySet(AsQKQuerySet(qs)) == Converted(qs.(range := None))
  {
  }

  /** QKQuerySet -> QuerySet -> QKQuerySet gives back the same QKQuerySet when
      its range is (NSNotFound, NSNotFound) or has a non-negative length at a
      location other than NSNotFound, except that an absent sort list comes
      back as the empty one. */
  lemma RoundTripFromQKQuerySet(q: QKQuerySet)
    requires q.range == NSRange(NSNotFound, NSNotFound)
          || (q.range.location != NSNotFound && q.range.length >= 0)
    ensures AsQuerySet(q).Converted?
    ensures q.sortDescriptors.Some? ==> AsQKQuerySet(AsQuerySet(q).qs) == q
    ensures q.sortDescriptors.None? ==> AsQKQuerySet(AsQuerySet(q).qs) == q.(sortDescriptors := Some([]))
  {
  }

  /** A QKQuerySet made in Objective-C with a nil sort list stops the program
      as written, before its predicate is looked at; the corrected conversion
      gives it no ordering and keeps everything else. */
  lemma NilSortDescriptorsTrapAsWritten(q: QKQuerySet)
    requires q.sortDescriptors.None?
    requires q.range == NSRange(NSNotFound, NSNotFound)
    ensures AsQuerySetAsWritten(q) == Trapped(NilSortDescriptors)
    ensures AsQuerySet(q).Converted?
    ensures AsQuerySet(q).qs == QS.QuerySet(q.managedObjectContext, q.entityName, [], q.pred, None)
  {
  }

  /** The conversion test: `QuerySet(context, "Person").filter(p).orderBy(ds)`
      and the QKQuerySet with the same context, entity, predicate and sort
      descriptors and no range convert into each other. */
  lemma ConversionTestExample(context: QS.Context, p: Pred, ds: seq<SortDescriptor>)
    ensures var queryset := QS.OrderBy(QS.Filter(QS.Create(context, "Person"), p), ds);
            var q := QKQuerySet(context, "Person", Some(p), Some(ds), NSRange(NSNotFound, NSNotFound));
            AsQKQuerySet(queryset) == q
            && AsQuerySet(q) == Converted(queryset)
            && AsQuerySetAsWritten(q) == Converted(queryset)
  {
  }
}
