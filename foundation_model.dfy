/**
 * The value shapes of the Foundation objects QueryKit builds and hands on:
 * constant values (what `AnyObject` arguments are at run time), key-path and
 * constant expressions (`NSExpression`), comparison, compound and
 * format-string predicates (`NSPredicate`) and sort descriptors
 * (`NSSortDescriptor`). Foundation itself is not modelled: a predicate built
 * from a format string is kept as the format string and its argument list.
 */
module FoundationModel {

  datatype Option<+T> = None | Some(value: T)

  /** The run-time values that reach a predicate as constants or arguments. */
  datatype Value =
    | IntV(i: int)
    | StrV(s: string)
    | BoolV(b: bool)
    | NullV                  // NSNull, which stands for a Swift `nil`
    | ArrayV(items: seq<Value>)

  /** NSExpression: a key path (`forKeyPath:`) or a constant (`forConstantValue:`). */
  datatype Expr = KeyPathExpr(keyPath: string) | ConstantExpr(constant: Value)

  /** The comparison operator types QueryKit uses (NSPredicateOperatorType). */
  datatype OperatorType =
    | EqualTo
    | NotEqualTo
    | GreaterThan
    | GreaterThanOrEqualTo
    | LessThan
    | LessThanOrEqualTo

  /** NSComparisonPredicateModifier. */
  datatype Modifier = Direct | AnyModifier | AllModifier

  /** NSCompoundPredicateType. */
  datatype CompoundType = AndType | OrType | NotType

  /** NSPredicate in the three forms QueryKit produces. */
  datatype Pred =
    | Comparison(left: Expr, right: Expr, modifier: Modifier, opType: OperatorType, options: nat)
    | Compound(compoundType: CompoundType, subpredicates: seq<Pred>)
    | Format(format: string, arguments: seq<Value>)

  /** NSSortDescriptor. */
  datatype SortDescriptor = SortDescriptor(key: string, ascending: bool)

  /** QueryKit's `Predicate<R>`: an NSPredicate wrapped for the record type R
      it filters. R only exists for the Swift type checker, so the wrapper
      holds the predicate alone. */
  datatype TypedPredicate = TypedPredicate(pred: Pred)

  /** The number a string of decimal digits spells, most significant first. */
  function DigitsValue(s: string): int
  {
    if s == [] then 0 else DigitsValue(s[..|s| - 1]) * 10 + (s[|s| - 1] as int - '0' as int)
  }

  /** Decimal digits of a natural number: they spell n, with no leading zero
      unless n is 0 itself. */
  function NatDigits(n: nat): (r: string)
    ensures |r| >= 1
    ensures forall k :: 0 <= k < |r| ==> '0' <= r[k] <= '9'
    ensures DigitsValue(r) == n
    ensures r[0] != '0' || n == 0
  {
    if n < 10 then [('0' as int + n) as char]
    else
      var prefix := NatDigits(n / 10);
      var r := prefix + [('0' as int + n % 10) as char];
      assert r[..|r| - 1] == prefix;
      r
  }

  /** What `String(v)` prints for a value (an array is shown on one line):
      an integer is its decimal digits, after a minus sign exactly when it is
      negative; a string is itself; an array is bracketed by parentheses. */
  function ValueDescription(v: Value): (r: string)
    ensures v.IntV? && v.i >= 0 ==> r == NatDigits(v.i)
    ensures v.IntV? && v.i < 0 ==> r == "-" + NatDigits(-v.i)
    ensures v.StrV? ==> r == v.s
    ensures v.IntV? ==> |r| >= 1 && (r[0] == '-' <==> v.i < 0)
    ensures v.IntV? && v.i >= 0 ==> DigitsValue(r) == v.i
    ensures v.IntV? && v.i < 0 ==> DigitsValue(r[1..]) == -v.i
    ensures v.ArrayV? ==> |r| >= 2 && r[0] == '(' && r[|r| - 1] == ')'
  {
    match v
    case IntV(i) =>
      if i < 0 then
        var digits := NatDigits(-i);
        assert ("-" + digits)[1..] == digits;
        "-" + digits
      else NatDigits(i)
    case StrV(s) => s
    case BoolV(b) => if b then "1" else "0"
    case NullV => "<null>"
    case ArrayV(items) => "(" + JoinDescriptions(items) + ")"
  }

  /** The descriptions of the items separated by ", ": a single item is its
      own description, and there is one separator between neighbours. */
  function JoinDescriptions(items: seq<Value>): (r: string)
    ensures |items| == 1 ==> r == ValueDescription(items[0])
    ensures |r| >= 2 * (|items| - 1)
  {
    if items == [] then ""
    else if |items| == 1 then ValueDescription(items[0])
    else ValueDescription(items[0]) + ", " + JoinDescriptions(items[1..])
  }

  /** Appending an item to a non-empty array appends a separator and its
      description: neighbours are separated by ", ". */
  lemma {:induction false} JoinDescriptionsSnoc(xs: seq<Value>, y: Value)
    requires |xs| >= 1
    ensures JoinDescriptions(xs + [y]) == JoinDescriptions(xs) + ", " + ValueDescription(y)
    decreases |xs|
  {
    var ys := xs + [y];
    assert ys[0] == xs[0];
    if |xs| == 1 {
      assert ys[1..] == [y];
    } else {
      assert ys[1..] == xs[1..] + [y];
      JoinDescriptionsSnoc(xs[1..], y);
    }
  }
}
