/**
 * QueryKit/Expression.swift: the six comparison operators between two
 * NSExpressions. Each builds one NSComparisonPredicate with the direct
 * modifier, no options, and the two expressions as given.
 */
module Expressions {
  import opened FoundationModel

  /** A comparison as Expression.swift builds it: direct modifier, options 0. */
  predicate IsDirectComparison(p: Pred, left: Expr, right: Expr, t: OperatorType)
  {
    p.Comparison? && p.left == left && p.right == right
    && p.modifier == Direct && p.opType == t && p.options == 0
  }

  function Equal(left: Expr, right: Expr): (p: Pred)
    ensures IsDirectComparison(p, left, right, EqualTo)
  {
    Comparison(left, right, Direct, EqualTo, 0)
  }

  function NotEqual(left: Expr, right: Expr): (p: Pred)
    ensures IsDirectComparison(p, left, right, NotEqualTo)
  {
    Comparison(left, right, Direct, NotEqualTo, 0)
  }

  function Greater(left: Expr, right: Expr): (p: Pred)
    ensures IsDirectComparison(p, left, right, GreaterThan)
  {
    Comparison(left, right, Direct, GreaterThan, 0)
  }

  function GreaterOrEqual(left: Expr, right: Expr): (p: Pred)
    ensures IsDirectComparison(p, left, right, GreaterThanOrEqualTo)
  {
    Comparison(left, right, Direct, GreaterThanOrEqualTo, 0)
  }

  function Less(left: Expr, right: Expr): (p: Pred)
    ensures IsDirectComparison(p, left, right, LessThan)
  {
    Comparison(left, right, Direct, LessThan, 0)
  }

  function LessOrEqual(left: Expr, right: Expr): (p: Pred)
    ensures IsDirectComparison(p, left, right, LessThanOrEqualTo)
  {
    Comparison(left, right, Direct, LessThanOrEqualTo, 0)
  }

  /** The operator function of Expression.swift that builds comparisons of type t. */
  function OperatorFor(t: OperatorType): (Expr, Expr) -> Pred
  {
    match t
    case EqualTo => Equal
    case NotEqualTo => NotEqual
    case GreaterThan => Greater
    case GreaterThanOrEqualTo => GreaterOrEqual
    case LessThan => Less
    case LessThanOrEqualTo => LessOrEqual
  }

  /** Distinct operators build distinct predicates from the same operands,
      and one operator never builds the same predicate from different operands:
      the map (operator, left, right) -> predicate is injective. */
  lemma OperatorsInjective(t1: OperatorType, t2: OperatorType, l1: Expr, r1: Expr, l2: Expr, r2: Expr)
    ensures OperatorFor(t1)(l1, r1) == OperatorFor(t2)(l2, r2) <==> t1 == t2 && l1 == l2 && r1 == r2
  {
    var p1, p2 := OperatorFor(t1)(l1, r1), OperatorFor(t2)(l2, r2);
    assert IsDirectComparison(p1, l1, r1, t1) by { match t1 { case _ => } }
    assert IsDirectComparison(p2, l2, r2, t2) by { match t2 { case _ => } }
  }

  /** `!=` is its own operator type, not a NOT compound wrapped around `==`. */
  lemma NotEqualIsNotNegatedEqual(left: Expr, right: Expr)
    ensures NotEqual(left, right) != Compound(NotType, [Equal(left, right)])
    ensures NotEqual(left, right).opType == NotEqualTo
  {
  }

  /** Key path `age` against the constant 10, one predicate per operator:
      `age == 10`, `age != 10`, `age > 10`, `age >= 10`, `age < 10` and
      `age <= 10`, each a direct comparison with options 0. */
  lemma AgeComparedWithTen()
    ensures Equal(KeyPathExpr("age"), ConstantExpr(IntV(10)))
         == Comparison(KeyPathExpr("age"), ConstantExpr(IntV(10)), Direct, EqualTo, 0)
    ensures NotEqual(KeyPathExpr("age"), ConstantExpr(IntV(10)))
         == Comparison(KeyPathExpr("age"), ConstantExpr(IntV(10)), Direct, NotEqualTo, 0)
    ensures Greater(KeyPathExpr("age"), ConstantExpr(IntV(10)))
         == Comparison(KeyPathExpr("age"), ConstantExpr(IntV(10)), Direct, GreaterThan, 0)
    ensures GreaterOrEqual(KeyPathExpr("age"), ConstantExpr(IntV(10)))
         == Comparison(KeyPathExpr("age"), ConstantExpr(IntV(10)), Direct, GreaterThanOrEqualTo, 0)
    ensures Less(KeyPathExpr("age"), ConstantExpr(IntV(10)))
         == Comparison(KeyPathExpr("age"), ConstantExpr(IntV(10)), Direct, LessThan, 0)
    ensures LessOrEqual(KeyPathExpr("age"), ConstantExpr(IntV(10)))
         == Comparison(KeyPathExpr("age"), ConstantExpr(IntV(10)), Direct, LessThanOrEqualTo, 0)
  {
  }
}
