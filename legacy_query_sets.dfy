/**
 * QueryKit/QueryKit.swift: the older QuerySet, before `reverse()` and `==`
 * were added. It stores the same five components, and each builder here is
 * written from that file; its contract says that it agrees with the
 * QuerySet.swift builder of the same name on every input.
 */
module LegacyQuerySets {
  import opened FoundationModel
  import QS = QuerySets

  /** `init(_ context:, _ entityName:)`. */
  function Create(context: QS.Context, entityName: string): (qs: QS.QuerySet)
    ensures qs == QS.Create(context, entityName)
  {
    QS.QuerySet(context, entityName, [], None, None)
  }

  /** `init(queryset:sortDescriptors:predicate:range:)`. */
  function Derive(qs: QS.QuerySet, sortDescriptors: Option<seq<SortDescriptor>>, pred: Option<Pred>, range: Option<QS.Range>): (r: QS.QuerySet)
    ensures r == QS.Derive(qs, sortDescriptors, pred, range)
  {
    var sorts := if sortDescriptors.Some? then sortDescriptors.value else [];
    QS.QuerySet(qs.context, qs.entityName, sorts, pred, range)
  }

  function OrderBy(qs: QS.QuerySet, sortDescriptors: seq<SortDescriptor>): (r: QS.QuerySet)
    ensures r == QS.OrderBy(qs, sortDescriptors)
  {
    Derive(qs, Some(sortDescriptors), qs.pred, qs.range)
  }

  function OrderByOne(qs: QS.QuerySet, sortDescriptor: SortDescriptor): (r: QS.QuerySet)
    ensures r == QS.OrderByOne(qs, sortDescriptor)
  {
    OrderBy(qs, [sortDescriptor])
  }

  function Filter(qs: QS.QuerySet, p: Pred): (r: QS.QuerySet)
    ensures r == QS.Filter(qs, p)
  {
    var futurePredicate :=
      if qs.pred.Some? then Compound(AndType, [qs.pred.value, p]) else p;
    Derive(qs, Some(qs.sortDescriptors), Some(futurePredicate), qs.range)
  }

  function FilterAll(qs: QS.QuerySet, ps: seq<Pred>): (r: QS.QuerySet)
    ensures r == QS.FilterAll(qs, ps)
  {
    Filter(qs, Compound(AndType, ps))
  }

  function Exclude(qs: QS.QuerySet, p: Pred): (r: QS.QuerySet)
    ensures r == QS.Exclude(qs, p)
  {
    Filter(qs, Compound(NotType, [p]))
  }

  function ExcludeAll(qs: QS.QuerySet, ps: seq<Pred>): (r: QS.QuerySet)
    ensures r == QS.ExcludeAll(qs, ps)
  {
    Exclude(qs, Compound(AndType, ps))
  }

  function Slice(qs: QS.QuerySet, range: QS.Range): (r: QS.QuerySet)
    ensures r == QS.Slice(qs, range)
  {
    var fullRange :=
      if qs.range.Some? then QS.Range(qs.range.value.start + range.start, range.end) else range;
    Derive(qs, Some(qs.sortDescriptors), qs.pred, Some(fullRange))
  }

  /** `fetchRequest` of the older file: the same fields, set in the same order. */
  method MakeFetchRequest(qs: QS.QuerySet) returns (request: QS.FetchRequest)
    ensures fresh(request)
    ensures request.entityName == qs.entityName
    ensures request.pred == qs.pred && request.sortDescriptors == qs.sortDescriptors
    ensures qs.range.Some? ==>
      (request.fetchOffset == qs.range.value.start
       && request.fetchLimit == qs.range.value.end - qs.range.value.start)
    ensures qs.range.None? ==> request.fetchOffset == 0 && request.fetchLimit == 0
  {
    request := new QS.FetchRequest(qs.entityName);
    request.pred := qs.pred;
    request.sortDescriptors := qs.sortDescriptors;
    if qs.range.Some? {
      var range := qs.range.value;
      request.fetchOffset := range.start;
      request.fetchLimit := range.end - range.start;
    }
  }
}
