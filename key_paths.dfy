/**
 * Sources/QueryKit/KeyPath.swift: operators on a Swift key path. The untyped
 * ones build an Attribute named by the key path's KVC string and apply the
 * Attribute operator; the typed ones wrap that same NSPredicate in a
 * `Predicate<R>` for the key path's root type R. The key path is given here
 * by its KVC string.
 */
module KeyPaths {
  import opened FoundationModel
  import Attributes
  import Expressions

  /** `KeyPath<R, V>`, known by its KVC string (`_kvcKeyPathString`). */
  datatype KeyPath = KeyPath(kvcString: string)

  function AttributeOf(kp: KeyPath): (a: Attributes.Attribute)
    ensures a.name == kp.kvcString
  {
    Attributes.Attribute(kp.kvcString)
  }

  /** A Swift optional operand as it reaches the constant: `nil` is NSNull. */
  function Bridge(v: Option<Value>): (c: Value)
    ensures v.None? ==> c == NullV
    ensures v.Some? ==> c == v.value
  {
    if v.Some? then v.value else NullV
  }

  // untyped operators: the Attribute operator on `Attribute(kvcString)`,
  // which compares the key path with the value as a constant

  function Equal(kp: KeyPath, v: Value): (p: Pred)
    ensures Expressions.IsDirectComparison(p, KeyPathExpr(kp.kvcString), ConstantExpr(v), EqualTo)
  {
    Attributes.Equal(AttributeOf(kp), v)
  }

  function NotEqual(kp: KeyPath, v: Value): (p: Pred)
    ensures Expressions.IsDirectComparison(p, KeyPathExpr(kp.kvcString), ConstantExpr(v), NotEqualTo)
  {
    Attributes.NotEqual(AttributeOf(kp), v)
  }

  function Greater(kp: KeyPath, v: Value): (p: Pred)
    ensures Expressions.IsDirectComparison(p, KeyPathExpr(kp.kvcString), ConstantExpr(v), GreaterThan)
  {
    Attributes.Greater(AttributeOf(kp), v)
  }

  function GreaterOrEqual(kp: KeyPath, v: Value): (p: Pred)
    ensures Expressions.IsDirectComparison(p, KeyPathExpr(kp.kvcString), ConstantExpr(v), GreaterThanOrEqualTo)
  {
    Attributes.GreaterOrEqual(AttributeOf(kp), v)
  }

  function Less(kp: KeyPath, v: Value): (p: Pred)
    ensures Expressions.IsDirectComparison(p, KeyPathExpr(kp.kvcString), ConstantExpr(v), LessThan)
  {
    Attributes.Less(AttributeOf(kp), v)
  }

  function LessOrEqual(kp: KeyPath, v: Value): (p: Pred)
    ensures Expressions.IsDirectComparison(p, KeyPathExpr(kp.kvcString), ConstantExpr(v), LessThanOrEqualTo)
  {
    Attributes.LessOrEqual(AttributeOf(kp), v)
  }

  /** `~=`: LIKE with no case-sensitivity text. */
  function Like(kp: KeyPath, v: Value): (p: Pred)
    ensures p == Format("%K LIKE %@", [StrV(kp.kvcString), v])
  {
    Attributes.Like(AttributeOf(kp), v)
  }

  /** `<<` with an array: membership in the array, passed on unchanged. */
  function In(kp: KeyPath, vs: seq<Value>): (p: Pred)
    ensures p == Format("%K IN %@", [StrV(kp.kvcString), ArrayV(vs)])
  {
    Attributes.In(AttributeOf(kp), ArrayV(vs))
  }

  /** `<<` with a Swift range `lower..<upper`: BETWEEN its two bounds. The
      upper bound is passed as it is, although the Swift range excludes it
      and BETWEEN includes it. */
  function Between(kp: KeyPath, lower: Value, upper: Value): (p: Pred)
    ensures p == Format("%K BETWEEN %@", [StrV(kp.kvcString), ArrayV([lower, upper])])
  {
    Attributes.Between(AttributeOf(kp), lower, upper)
  }

  // typed operators: exactly the untyped predicate, wrapped for the root type R

  function TypedEqual(kp: KeyPath, v: Value): (p: TypedPredicate)
    ensures p.pred == Equal(kp, v)
  {
    TypedPredicate(Equal(kp, v))
  }

  function TypedNotEqual(kp: KeyPath, v: Value): (p: TypedPredicate)
    ensures p.pred == NotEqual(kp, v)
  {
    TypedPredicate(NotEqual(kp, v))
  }

  function TypedGreater(kp: KeyPath, v: Value): (p: TypedPredicate)
    ensures p.pred == Greater(kp, v)
  {
    TypedPredicate(Greater(kp, v))
  }

  function TypedGreaterOrEqual(kp: KeyPath, v: Value): (p: TypedPredicate)
    ensures p.pred == GreaterOrEqual(kp, v)
  {
    TypedPredicate(GreaterOrEqual(kp, v))
  }

  function TypedLess(kp: KeyPath, v: Value): (p: TypedPredicate)
    ensures p.pred == Less(kp, v)
  {
    TypedPredicate(Less(kp, v))
  }

  function TypedLessOrEqual(kp: KeyPath, v: Value): (p: TypedPredicate)
    ensures p.pred == LessOrEqual(kp, v)
  {
    TypedPredicate(LessOrEqual(kp, v))
  }

  function TypedLike(kp: KeyPath, v: Value): (p: TypedPredicate)
    ensures p.pred == Like(kp, v)
  {
    TypedPredicate(Like(kp, v))
  }

  function TypedIn(kp: KeyPath, vs: seq<Value>): (p: TypedPredicate)
    ensures p.pred == In(kp, vs)
  {
    TypedPredicate(In(kp, vs))
  }

  function TypedBetween(kp: KeyPath, lower: Value, upper: Value): (p: TypedPredicate)
    ensures p.pred == Between(kp, lower, upper)
  {
    TypedPredicate(Between(kp, lower, upper))
  }

  /** Comparing with `nil` compares with an NSNull constant. */
  lemma NilComparesWithNull(kp: KeyPath)
    ensures Equal(kp, Bridge(None)).right == ConstantExpr(NullV)
    ensures NotEqual(kp, Bridge(None)).right == ConstantExpr(NullV)
  {
  }

  /** `\.age << (32 ..< 64)` is BETWEEN [32, 64]: the excluded upper bound 64
      is an argument as it is. */
  lemma HalfOpenRangeBecomesBetween()
    ensures Between(KeyPath("age"), IntV(32), IntV(64)).arguments
         == [StrV("age"), ArrayV([IntV(32), IntV(64)])]
  {
  }

  /** The predicates of the key-path tests: `\.name == "kyle"` is the
      comparison `name == 'kyle'`, `\.name != "kyle"` is `name != 'kyle'`,
      `\.age > 17`, `\.age >= 18`, `\.age < 18` and `\.age <= 17` are the
      comparisons of `age` with those constants, `\.name ~= "k*"` is
      `%K LIKE %@` on `name` and `k*`, `\.age << [5, 10]` is `%K IN %@` with
      the array unchanged, and `\.age << (32 ..< 64)` is `%K BETWEEN %@`
      with `[32, 64]`. */
  lemma KeyPathTestPredicates()
    ensures Equal(KeyPath("name"), StrV("kyle"))
         == Comparison(KeyPathExpr("name"), ConstantExpr(StrV("kyle")), Direct, EqualTo, 0)
    ensures NotEqual(KeyPath("name"), StrV("kyle"))
         == Comparison(KeyPathExpr("name"), ConstantExpr(StrV("kyle")), Direct, NotEqualTo, 0)
    ensures Greater(KeyPath("age"), IntV(17))
         == Comparison(KeyPathExpr("age"), ConstantExpr(IntV(17)), Direct, GreaterThan, 0)
    ensures GreaterOrEqual(KeyPath("age"), IntV(18))
         == Comparison(KeyPathExpr("age"), ConstantExpr(IntV(18)), Direct, GreaterThanOrEqualTo, 0)
    ensures Less(KeyPath("age"), IntV(18))
         == Comparison(KeyPathExpr("age"), ConstantExpr(IntV(18)), Direct, LessThan, 0)
    ensures LessOrEqual(KeyPath("age"), IntV(17))
         == Comparison(KeyPathExpr("age"), ConstantExpr(IntV(17)), Direct, LessThanOrEqualTo, 0)
    ensures Like(KeyPath("name"), StrV("k*")) == Format("%K LIKE %@", [StrV("name"), StrV("k*")])
    ensures In(KeyPath("age"), [IntV(5), IntV(10)])
         == Format("%K IN %@", [StrV("age"), ArrayV([IntV(5), IntV(10)])])
    ensures Between(KeyPath("age"), IntV(32), IntV(64))
         == Format("%K BETWEEN %@", [StrV("age"), ArrayV([IntV(32), IntV(64)])])
  {
  }
}
