/**
 * QueryKit/Attribute.swift: a named attribute, its key-path expression, its
 * sort descriptors, and the operators that turn it and a value into a
 * predicate. The relational operators go through Expression.swift with a
 * constant right-hand side; `<<` and `~=` build format-string predicates
 * whose first argument is the attribute name (bound to `%K`).
 */
module Attributes {
  import opened FoundationModel
  import Expressions

  /** Case sensitivity of a LIKE comparison. */
  datatype CaseSensitivity = Insensitive | Sensitive | DiacriticSensitive

  /** The modifier text inserted after LIKE. As written, `Sensitive` gives
      "[c]" (which is NSPredicate's case-INsensitive flag) and `Insensitive`
      gives no flag at all. */
  function SimpleDescription(cs: CaseSensitivity): (r: string)
    ensures cs == Insensitive <==> r == ""
    ensures cs == Sensitive <==> r == "[c]"
    ensures cs == DiacriticSensitive <==> r == "[cd]"
  {
    match cs
    case Insensitive => ""
    case Sensitive => "[c]"
    case DiacriticSensitive => "[cd]"
  }

  datatype Attribute = Attribute(name: string)

  /** The attribute's key-path expression, naming the attribute verbatim. */
  function Expression(a: Attribute): (e: Expr)
    ensures e.KeyPathExpr? && e.keyPath == a.name
  {
    KeyPathExpr(a.name)
  }

  function Ascending(a: Attribute): (d: SortDescriptor)
    ensures d.key == a.name && d.ascending
  {
    SortDescriptor(a.name, true)
  }

  function Descending(a: Attribute): (d: SortDescriptor)
    ensures d.key == a.name && !d.ascending
  {
    SortDescriptor(a.name, false)
  }

  // Relational operators: the Expression.swift operator applied to the
  // attribute's key path and the value as a constant expression.

  function Equal(a: Attribute, v: Value): (p: Pred)
    ensures Expressions.IsDirectComparison(p, KeyPathExpr(a.name), ConstantExpr(v), EqualTo)
  {
    Expressions.Equal(Expression(a), ConstantExpr(v))
  }

  function NotEqual(a: Attribute, v: Value): (p: Pred)
    ensures Expressions.IsDirectComparison(p, KeyPathExpr(a.name), ConstantExpr(v), NotEqualTo)
  {
    Expressions.NotEqual(Expression(a), ConstantExpr(v))
  }

  function Greater(a: Attribute, v: Value): (p: Pred)
    ensures Expressions.IsDirectComparison(p, KeyPathExpr(a.name), ConstantExpr(v), GreaterThan)
  {
    Expressions.Greater(Expression(a), ConstantExpr(v))
  }

  function GreaterOrEqual(a: Attribute, v: Value): (p: Pred)
    ensures Expressions.IsDirectComparison(p, KeyPathExpr(a.name), ConstantExpr(v), GreaterThanOrEqualTo)
  {
    Expressions.GreaterOrEqual(Expression(a), ConstantExpr(v))
  }

  function Less(a: Attribute, v: Value): (p: Pred)
    ensures Expressions.IsDirectComparison(p, KeyPathExpr(a.name), ConstantExpr(v), LessThan)
  {
    Expressions.Less(Expression(a), ConstantExpr(v))
  }

  function LessOrEqual(a: Attribute, v: Value): (p: Pred)
    ensures Expressions.IsDirectComparison(p, KeyPathExpr(a.name), ConstantExpr(v), LessThanOrEqualTo)
  {
    Expressions.LessOrEqual(Expression(a), ConstantExpr(v))
  }

  /** The relational operator of Attribute.swift for operator type t. */
  function AttributeOperatorFor(t: OperatorType): (Attribute, Value) -> Pred
  {
    match t
    case EqualTo => Equal
    case NotEqualTo => NotEqual
    case GreaterThan => Greater
    case GreaterThanOrEqualTo => GreaterOrEqual
    case LessThan => Less
    case LessThanOrEqualTo => LessOrEqual
  }

  /** Every relational attribute operator is the matching Expression.swift
      operator on `keyPath(name)` and `constant(v)`. */
  lemma RelationalDelegatesToExpression(t: OperatorType, a: Attribute, v: Value)
    ensures AttributeOperatorFor(t)(a, v)
         == Expressions.OperatorFor(t)(KeyPathExpr(a.name), ConstantExpr(v))
  {
    match t { case _ => }
  }

  /** `attr << v`: membership, `%K IN %@` with arguments [name, v]. */
  function In(a: Attribute, v: Value): (p: Pred)
    ensures p.Format? && p.format == "%K IN %@"
    ensures p.arguments == [StrV(a.name), v]
  {
    Format("%K IN %@", [StrV(a.name), v])
  }

  /** `attr << (lo, hi)`: `%K BETWEEN %@` with arguments [name, [lo, hi]].
      No check that lo <= hi is made. */
  function Between(a: Attribute, lo: Value, hi: Value): (p: Pred)
    ensures p.Format? && p.format == "%K BETWEEN %@"
    ensures |p.arguments| == 2 && p.arguments[0] == StrV(a.name)
    ensures p.arguments[1].ArrayV? && p.arguments[1].items == [lo, hi]
  {
    Format("%K BETWEEN %@", [StrV(a.name), ArrayV([lo, hi])])
  }

  /** `attr ~= v`: `%K LIKE %@` with arguments [name, v]. */
  function Like(a: Attribute, v: Value): (p: Pred)
    ensures p.Format? && p.format == "%K LIKE %@"
    ensures p.arguments == [StrV(a.name), v]
  {
    Format("%K LIKE %@", [StrV(a.name), v])
  }

  /** `attr ~= (v, cs)`: the LIKE format with the case-sensitivity text after LIKE. */
  function LikeWith(a: Attribute, v: Value, cs: CaseSensitivity): (p: Pred)
    ensures p.Format? && p.arguments == [StrV(a.name), v]
    ensures p.format == "%K LIKE" + SimpleDescription(cs) + " %@"
  {
    var formatString := "%K LIKE" + SimpleDescription(cs) + " %@";
    Format(formatString, [StrV(a.name), v])
  }

  /** Plain `~=` is the Insensitive case, and only that case. */
  lemma LikeIsInsensitiveLike(a: Attribute, v: Value, cs: CaseSensitivity)
    ensures LikeWith(a, v, cs) == Like(a, v) <==> cs == Insensitive
  {
    if cs == Sensitive {
      assert LikeWith(a, v, cs).format[7] == '[' != Like(a, v).format[7];
    } else if cs == DiacriticSensitive {
      assert LikeWith(a, v, cs).format[7] == '[' != Like(a, v).format[7];
    }
  }
}
