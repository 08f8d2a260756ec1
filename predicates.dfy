/**
 * QueryKit/Predicate.swift: `&&`, `||` and prefix `!` on NSPredicate. Each
 * builds one NSCompoundPredicate whose subpredicates are the operands, in
 * order and unchanged; nested compounds are never flattened and a double
 * negation is never cancelled.
 */
module Predicates {
  import opened FoundationModel

  function And(left: Pred, right: Pred): (p: Pred)
    ensures p.Compound? && p.compoundType == AndType && p.subpredicates == [left, right]
  {
    Compound(AndType, [left, right])
  }

  function Or(left: Pred, right: Pred): (p: Pred)
    ensures p.Compound? && p.compoundType == OrType && p.subpredicates == [left, right]
  {
    Compound(OrType, [left, right])
  }

  function Not(operand: Pred): (p: Pred)
    ensures p.Compound? && p.compoundType == NotType && p.subpredicates == [operand]
  {
    Compound(NotType, [operand])
  }

  /** Number of predicate nodes in a tree. */
  function NodeCount(p: Pred): (n: nat)
    ensures n >= 1
  {
    match p
    case Compound(_, subs) => 1 + NodeCountAll(subs)
    case _ => 1
  }

  function NodeCountAll(ps: seq<Pred>): nat
  {
    if ps == [] then 0 else NodeCount(ps[0]) + NodeCountAll(ps[1..])
  }

  /** A connective adds exactly one node on top of its operands: nothing is
      rewritten, merged or dropped. */
  lemma ConnectivesAddOneNode(a: Pred, b: Pred)
    ensures NodeCount(And(a, b)) == NodeCount(a) + NodeCount(b) + 1
    ensures NodeCount(Or(a, b)) == NodeCount(a) + NodeCount(b) + 1
    ensures NodeCount(Not(a)) == NodeCount(a) + 1
  {
    assert [a, b][1..] == [b];
    assert [b][1..] == [];
    assert NodeCountAll([b]) == NodeCount(b);
    assert [a][1..] == [];
    assert NodeCountAll([a]) == NodeCount(a);
  }

  /** `!!a` stays two NOT nodes around `a`; it is never `a` itself. */
  lemma DoubleNegationKept(a: Pred)
    ensures Not(Not(a)) == Compound(NotType, [Compound(NotType, [a])])
    ensures Not(Not(a)) != a
  {
    ConnectivesAddOneNode(a, a);
    ConnectivesAddOneNode(Not(a), a);
  }

  /** `&&` does not flatten: `(a && b) && c` and `a && (b && c)` are different trees. */
  lemma AndNotFlattened(a: Pred, b: Pred, c: Pred)
    ensures And(And(a, b), c).subpredicates == [Compound(AndType, [a, b]), c]
    ensures And(And(a, b), c) != And(a, And(b, c))
  {
    if And(And(a, b), c) == And(a, And(b, c)) {
      assert And(And(a, b), c).subpredicates[0] == And(a, And(b, c)).subpredicates[0];
      ConnectivesAddOneNode(a, b);
    }
  }

  /** The same holds for `||`. */
  lemma OrNotFlattened(a: Pred, b: Pred, c: Pred)
    ensures Or(Or(a, b), c).subpredicates == [Compound(OrType, [a, b]), c]
    ensures Or(Or(a, b), c) != Or(a, Or(b, c))
  {
    if Or(Or(a, b), c) == Or(a, Or(b, c)) {
      assert Or(Or(a, b), c).subpredicates[0] == Or(a, Or(b, c)).subpredicates[0];
      ConnectivesAddOneNode(a, b);
    }
  }
}
