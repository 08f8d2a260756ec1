/**
 * QueryKit/PredicateFormat.swift: a predicate written as an interpolated
 * string. The tree of literal segments, `%K` key paths and `%@` objects has
 * two folds: its description (the text as a reader sees it) and its
 * serialisation into a format string plus the ordered argument list that
 * NSPredicate(format:argumentArray:) takes.
 */
module PredicateFormats {
  import opened FoundationModel

  datatype PredicateFormat =
    | Tree(children: seq<PredicateFormat>)
    | FormatSegment(segment: string)   // literal text
    | KeyPath(keyPath: string)         // %K
    | ObjectExpression(value: Value)  // %@

  // ---------------------------------------------------------------------
  // description

  /** `description`: a tree folds its children's descriptions from the left,
      starting from the empty string; a leaf shows its payload. */
  function Description(f: PredicateFormat): (r: string)
    ensures f.KeyPath? ==> r == f.keyPath
    ensures f.Tree? && f.children == [] ==> r == ""
    ensures f.Tree? && |f.children| == 1 ==> r == Description(f.children[0])
    decreases f, 1
  {
    match f
    case Tree(children) =>
      assert |children| == 1 ==> children[1..] == [];
      DescribeFrom("", children)
    case FormatSegment(segment) => segment
    case KeyPath(keyPath) => keyPath
    case ObjectExpression(v) => ValueDescription(v)
  }

  /** `reduce` with `$0 + String($1)`: the result extends the accumulator. */
  function DescribeFrom(acc: string, xs: seq<PredicateFormat>): (r: string)
    ensures |r| >= |acc| && r[..|acc|] == acc
    ensures xs == [] ==> r == acc
    decreases xs, 0
  {
    if xs == [] then acc else DescribeFrom(acc + Description(xs[0]), xs[1..])
  }

  /** Equality of predicate formats is equality of their descriptions: equal
      trees are equal, and a one-child tree is equal to whatever its child is
      equal to. */
  predicate Equal(lhs: PredicateFormat, rhs: PredicateFormat): (b: bool)
    ensures lhs == rhs ==> b
    ensures lhs.Tree? && |lhs.children| == 1 ==> (b <==> Description(lhs.children[0]) == Description(rhs))
  {
    Description(lhs) == Description(rhs)
  }

  // ---------------------------------------------------------------------
  // initialisers and helpers

  /** `init(stringLiteral:)`. */
  function FromStringLiteral(value: string): (f: PredicateFormat)
    ensures f.FormatSegment? && f.segment == value
  {
    FormatSegment(value)
  }

  /** `init(extendedGraphemeClusterLiteral:)`: a Character is a grapheme
      cluster of one or more Unicode scalars, all kept as literal text. */
  function FromGraphemeClusterLiteral(cluster: string): (f: PredicateFormat)
    requires |cluster| >= 1
    ensures f.FormatSegment? && f.segment == cluster
  {
    FormatSegment(cluster)
  }

  /** `init(unicodeScalarLiteral:)`: a literal segment of that one scalar. */
  function FromUnicodeScalarLiteral(c: char): (f: PredicateFormat)
    ensures f.FormatSegment? && f.segment == [c]
  {
    FormatSegment([c])
  }

  /** `init(stringInterpolation:)`: the segments, in order, as one tree. */
  function FromInterpolation(elements: seq<PredicateFormat>): (f: PredicateFormat)
    ensures f.Tree? && f.children == elements
  {
    Tree(elements)
  }

  /** What an interpolated expression can be at run time, in the order
      `init(stringInterpolationSegment:)` tries the casts. */
  datatype Interpolated =
    | AFormat(format: PredicateFormat)          // already a PredicateFormat
    | AConvertible(formatValue: PredicateFormat) // PredicateFormatConvertible
    | AString(text: string)                     // a String
    | AnObject(obj: Value)                   // bridges to AnyObject
    | AnOther(shown: string)                    // anything else, by String(expression)

  /** `init(stringInterpolationSegment:)`: strings become literal text, objects
      become `%@` arguments, anything else its printed form as a `%@` argument. */
  function FromInterpolationSegment(x: Interpolated): (f: PredicateFormat)
    ensures x.AFormat? ==> f == x.format
    ensures x.AConvertible? ==> f == x.formatValue
    ensures x.AString? ==> f == FormatSegment(x.text)
    ensures x.AnObject? ==> f == ObjectExpression(x.obj)
    ensures x.AnOther? ==> f == ObjectExpression(StrV(x.shown))
  {
    match x
    case AFormat(p) => p
    case AConvertible(p) => p
    case AString(s) => FormatSegment(s)
    case AnObject(o) => ObjectExpression(o)
    case AnOther(s) => ObjectExpression(StrV(s))
  }

  /** The segments Swift passes for `"l0\(v0)l1\(v1)...ln"`: every literal
      piece (empty ones included) alternating with the interpolated values. */
  function InterpolationSegments(literals: seq<string>, values: seq<Interpolated>): (r: seq<PredicateFormat>)
    requires |literals| == |values| + 1
    ensures |r| == 2 * |values| + 1
    ensures forall i :: 0 <= i < |literals| ==> r[2 * i] == FormatSegment(literals[i])
    ensures forall i :: 0 <= i < |values| ==> r[2 * i + 1] == FromInterpolationSegment(values[i])
  {
    if values == [] then [FormatSegment(literals[0])]
    else
      var rest := InterpolationSegments(literals[1..], values[1..]);
      assert forall i :: 1 <= i < |literals| ==> rest[2 * (i - 1)] == FormatSegment(literals[i]);
      assert forall i :: 1 <= i < |values| ==> rest[2 * (i - 1) + 1] == FromInterpolationSegment(values[i]);
      [FormatSegment(literals[0]), FromInterpolationSegment(values[0])] + rest
  }

  /** An interpolated string literal, as the compiler desugars it. */
  function Interpolate(literals: seq<string>, values: seq<Interpolated>): (f: PredicateFormat)
    requires |literals| == |values| + 1
    ensures f.Tree? && |f.children| == 2 * |values| + 1
    ensures f.children[0] == FormatSegment(literals[0])
    ensures f.children[2 * |values|] == FormatSegment(literals[|values|])
  {
    FromInterpolation(InterpolationSegments(literals, values))
  }

  /** `key(_:)`. */
  function Key(keyPath: string): (f: PredicateFormat)
    ensures f.KeyPath? && f.keyPath == keyPath
  {
    KeyPath(keyPath)
  }

  /** `quoted(_:)`. */
  function Quoted(s: string): (f: PredicateFormat)
    ensures f.ObjectExpression? && f.value == StrV(s)
  {
    ObjectExpression(StrV(s))
  }

  // ---------------------------------------------------------------------
  // formatSegments

  /** A format string with its arguments (`PredicateFormatSegment`). */
  datatype Segment = Segment(format: string, arguments: seq<Value>)

  const EmptySegment := Segment("", [])

  /** `+` on segments: the left operand's text and arguments come first,
      the right operand's follow. */
  function Plus(lhs: Segment, rhs: Segment): (r: Segment)
    ensures |r.format| == |lhs.format| + |rhs.format|
    ensures r.format[..|lhs.format|] == lhs.format && r.format[|lhs.format|..] == rhs.format
    ensures |r.arguments| == |lhs.arguments| + |rhs.arguments|
    ensures r.arguments[..|lhs.arguments|] == lhs.arguments && r.arguments[|lhs.arguments|..] == rhs.arguments
  {
    Segment(lhs.format + rhs.format, lhs.arguments + rhs.arguments)
  }

  /** `formatSegments`: a tree is the left fold of `+` over its children from
      the empty segment; a key path is `%K` with the path as argument; an
      object is `%@` with the object as argument. */
  function Segments(f: PredicateFormat): (r: Segment)
    ensures |r.arguments| == PlaceholderCount(Leaves(f))
    ensures f.KeyPath? ==> r.format == "%K"
    ensures f.ObjectExpression? ==> r.format == "%@"
    decreases f, 1
  {
    assert !f.Tree? ==> [f][1..] == [];
    match f
    case Tree(children) => SegmentsFrom(EmptySegment, children)
    case FormatSegment(segment) => Segment(segment, [])
    case KeyPath(keyPath) => Segment("%K", [StrV(keyPath)])
    case ObjectExpression(v) => Segment("%@", [v])
  }

  /** `reduce(("", []), combine: +)`, with the accumulator made explicit:
      the result extends the accumulator with one argument per placeholder
      leaf of the children. */
  function SegmentsFrom(acc: Segment, xs: seq<PredicateFormat>): (r: Segment)
    ensures |r.format| >= |acc.format| && r.format[..|acc.format|] == acc.format
    ensures |r.arguments| == |acc.arguments| + PlaceholderCount(LeavesOf(xs))
    ensures r.arguments[..|acc.arguments|] == acc.arguments
    decreases xs, 0
  {
    if xs == [] then acc
    else
      var next := Plus(acc, Segments(xs[0]));
      PlaceholderCountAppend(Leaves(xs[0]), LeavesOf(xs[1..]));
      var r := SegmentsFrom(next, xs[1..]);
      assert r.format[..|acc.format|] == r.format[..|next.format|][..|acc.format|];
      assert r.arguments[..|acc.arguments|] == r.arguments[..|next.arguments|][..|acc.arguments|];
      r
  }

  /** `Predicate.init(_ predicateFormat:)`: the typed predicate made from the
      format string and arguments of the tree. */
  function ToPredicate(f: PredicateFormat): (p: TypedPredicate)
    ensures p.pred.Format?
    ensures p.pred.format == Segments(f).format && p.pred.arguments == Segments(f).arguments
  {
    var s := Segments(f);
    TypedPredicate(Format(s.format, s.arguments))
  }
  // ---------------------------------------------------------------------
  // the two folds, leaf by leaf

  /** The non-tree nodes of a format, left to right. */
  function Leaves(f: PredicateFormat): (r: seq<PredicateFormat>)
    ensures forall i :: 0 <= i < |r| ==> !r[i].Tree?
    decreases f, 1
  {
    match f
    case Tree(children) => LeavesOf(children)
    case _ => [f]
  }

  function LeavesOf(xs: seq<PredicateFormat>): (r: seq<PredicateFormat>)
    ensures forall i :: 0 <= i < |r| ==> !r[i].Tree?
    decreases xs, 0
  {
    if xs == [] then [] else Leaves(xs[0]) + LeavesOf(xs[1..])
  }

  lemma {:induction false} PlaceholderCountAppend(a: seq<PredicateFormat>, b: seq<PredicateFormat>)
    ensures PlaceholderCount(a + b) == PlaceholderCount(a) + PlaceholderCount(b)
  {
    if a == [] {
      assert a + b == b;
    } else {
      assert (a + b)[0] == a[0] && (a + b)[1..] == a[1..] + b;
      PlaceholderCountAppend(a[1..], b);
    }
  }

  /** The format text of each leaf, concatenated. */
  function LeafFormats(ls: seq<PredicateFormat>): string
  {
    if ls == [] then ""
    else
      var here := match ls[0]
        case FormatSegment(s) => s
        case KeyPath(_) => "%K"
        case ObjectExpression(_) => "%@"
        case Tree(_) => "";
      here + LeafFormats(ls[1..])
  }

  /** Number of `%K` and `%@` leaves. */
  function PlaceholderCount(ls: seq<PredicateFormat>): nat
  {
    if ls == [] then 0
    else (if ls[0].KeyPath? || ls[0].ObjectExpression? then 1 else 0) + PlaceholderCount(ls[1..])
  }

  /** One argument per `%K` leaf (its key path) or `%@` leaf (its object), in order. */
  function LeafArguments(ls: seq<PredicateFormat>): (r: seq<Value>)
    ensures |r| == PlaceholderCount(ls)
  {
    if ls == [] then []
    else
      var here := match ls[0]
        case KeyPath(k) => [StrV(k)]
        case ObjectExpression(v) => [v]
        case _ => [];
      here + LeafArguments(ls[1..])
  }

  /** The description of each leaf, concatenated. */
  function LeafDescriptions(ls: seq<PredicateFormat>): string
  {
    if ls == [] then ""
    else
      var here := match ls[0]
        case FormatSegment(s) => s
        case KeyPath(k) => k
        case ObjectExpression(v) => ValueDescription(v)
        case Tree(_) => "";
      here + LeafDescriptions(ls[1..])
  }

  lemma {:induction false} LeafFormatsAppend(a: seq<PredicateFormat>, b: seq<PredicateFormat>)
    ensures LeafFormats(a + b) == LeafFormats(a) + LeafFormats(b)
  {
    if a == [] {
      assert a + b == b;
    } else {
      assert (a + b)[0] == a[0] && (a + b)[1..] == a[1..] + b;
      LeafFormatsAppend(a[1..], b);
    }
  }

  lemma {:induction false} LeafArgumentsAppend(a: seq<PredicateFormat>, b: seq<PredicateFormat>)
    ensures LeafArguments(a + b) == LeafArguments(a) + LeafArguments(b)
  {
    if a == [] {
      assert a + b == b;
    } else {
      assert (a + b)[0] == a[0] && (a + b)[1..] == a[1..] + b;
      LeafArgumentsAppend(a[1..], b);
    }
  }

  lemma {:induction false} LeafDescriptionsAppend(a: seq<PredicateFormat>, b: seq<PredicateFormat>)
    ensures LeafDescriptions(a + b) == LeafDescriptions(a) + LeafDescriptions(b)
  {
    if a == [] {
      assert a + b == b;
    } else {
      assert (a + b)[0] == a[0] && (a + b)[1..] == a[1..] + b;
      LeafDescriptionsAppend(a[1..], b);
    }
  }

  /** `+` is associative. */
  lemma PlusAssociative(a: Segment, b: Segment, c: Segment)
    ensures Plus(Plus(a, b), c) == Plus(a, Plus(b, c))
  {
  }

  /** The empty segment is an identity for `+` on both sides. */
  lemma PlusIdentity(a: Segment)
    ensures Plus(EmptySegment, a) == a && Plus(a, EmptySegment) == a
  {
  }

  /** Folding from any accumulator is that accumulator plus the fold from empty. */
  lemma {:induction false} SegmentsFromShift(acc: Segment, xs: seq<PredicateFormat>)
    ensures SegmentsFrom(acc, xs) == Plus(acc, SegmentsFrom(EmptySegment, xs))
    decreases xs
  {
    if xs != [] {
      var s0 := Segments(xs[0]);
      SegmentsFromShift(Plus(acc, s0), xs[1..]);
      SegmentsFromShift(Plus(EmptySegment, s0), xs[1..]);
      PlusAssociative(acc, s0, SegmentsFrom(EmptySegment, xs[1..]));
      PlusIdentity(s0);
    }
  }

  lemma {:induction false} DescribeFromShift(acc: string, xs: seq<PredicateFormat>)
    ensures DescribeFrom(acc, xs) == acc + DescribeFrom("", xs)
    decreases xs
  {
    if xs != [] {
      var d0 := Description(xs[0]);
      DescribeFromShift(acc + d0, xs[1..]);
      DescribeFromShift("" + d0, xs[1..]);
      assert "" + d0 == d0;
    }
  }

  /** `formatSegments` of a tree is the leaves' format texts, concatenated,
      with exactly one argument per `%K`/`%@` leaf, in left-to-right order. */
  lemma {:induction false} SegmentsAreLeafwise(f: PredicateFormat)
    ensures Segments(f) == Segment(LeafFormats(Leaves(f)), LeafArguments(Leaves(f)))
    decreases f, 1
  {
    match f
    case Tree(children) => SegmentsFromAreLeafwise(children);
    case _ =>
      assert [f][1..] == [];
  }

  lemma {:induction false} SegmentsFromAreLeafwise(xs: seq<PredicateFormat>)
    ensures SegmentsFrom(EmptySegment, xs) == Segment(LeafFormats(LeavesOf(xs)), LeafArguments(LeavesOf(xs)))
    decreases xs, 0
  {
    if xs != [] {
      var s0 := Segments(xs[0]);
      SegmentsFromShift(Plus(EmptySegment, s0), xs[1..]);
      PlusIdentity(s0);
      SegmentsAreLeafwise(xs[0]);
      SegmentsFromAreLeafwise(xs[1..]);
      LeafFormatsAppend(Leaves(xs[0]), LeavesOf(xs[1..]));
      LeafArgumentsAppend(Leaves(xs[0]), LeavesOf(xs[1..]));
    }
  }

  /** `description` of a tree is the leaves' descriptions, concatenated in order. */
  lemma {:induction false} DescriptionIsLeafwise(f: PredicateFormat)
    ensures Description(f) == LeafDescriptions(Leaves(f))
    decreases f, 1
  {
    match f
    case Tree(children) => DescribeFromIsLeafwise(children);
    case _ =>
      assert [f][1..] == [];
  }

  lemma {:induction false} DescribeFromIsLeafwise(xs: seq<PredicateFormat>)
    ensures DescribeFrom("", xs) == LeafDescriptions(LeavesOf(xs))
    decreases xs, 0
  {
    if xs != [] {
      var d0 := Description(xs[0]);
      DescribeFromShift("" + d0, xs[1..]);
      assert "" + d0 == d0;
      DescriptionIsLeafwise(xs[0]);
      DescribeFromIsLeafwise(xs[1..]);
      LeafDescriptionsAppend(Leaves(xs[0]), LeavesOf(xs[1..]));
    }
  }

  /** A tree's description is its children's descriptions concatenated, so
      splitting the children splits the description. */
  lemma DescriptionOfSplitTree(xs: seq<PredicateFormat>, ys: seq<PredicateFormat>)
    ensures Description(Tree(xs + ys)) == Description(Tree(xs)) + Description(Tree(ys))
  {
    DescriptionIsLeafwise(Tree(xs + ys));
    DescriptionIsLeafwise(Tree(xs));
    DescriptionIsLeafwise(Tree(ys));
    LeavesOfAppend(xs, ys);
    LeafDescriptionsAppend(LeavesOf(xs), LeavesOf(ys));
  }

  lemma {:induction false} LeavesOfAppend(xs: seq<PredicateFormat>, ys: seq<PredicateFormat>)
    ensures LeavesOf(xs + ys) == LeavesOf(xs) + LeavesOf(ys)
  {
    if xs == [] {
      assert xs + ys == ys;
    } else {
      assert (xs + ys)[1..] == xs[1..] + ys;
      LeavesOfAppend(xs[1..], ys);
    }
  }

  // ---------------------------------------------------------------------
  // the serialisation carries the description

  /** Substitute the description of the next argument for each `%K` or `%@`. */
  function Render(format: string, args: seq<Value>): string
  {
    if |format| >= 2 && format[0] == '%' && (format[1] == 'K' || format[1] == '@') && args != [] then
      ValueDescription(args[0]) + Render(format[2..], args[1..])
    else if format == [] then ""
    else [format[0]] + Render(format[1..], args)
  }

  /** No literal text of the format contains a `%`. */
  predicate LiteralsFreeOfPercent(f: PredicateFormat)
  {
    forall l :: l in Leaves(f) && l.FormatSegment? ==> '%' !in l.segment
  }

  lemma {:induction false} RenderLiteral(s: string, rest: string, args: seq<Value>)
    requires '%' !in s
    ensures Render(s + rest, args) == s + Render(rest, args)
  {
    if s != [] {
      assert (s + rest)[0] == s[0];
      assert (s + rest)[1..] == s[1..] + rest;
      RenderLiteral(s[1..], rest, args);
      assert s == [s[0]] + s[1..];
    } else {
      assert s + rest == rest;
    }
  }

  lemma {:induction false} RenderLeaves(ls: seq<PredicateFormat>)
    requires forall i :: 0 <= i < |ls| ==> !ls[i].Tree?
    requires forall i :: 0 <= i < |ls| && ls[i].FormatSegment? ==> '%' !in ls[i].segment
    ensures Render(LeafFormats(ls), LeafArguments(ls)) == LeafDescriptions(ls)
  {
    if ls != [] {
      RenderLeaves(ls[1..]);
      var F, A := LeafFormats(ls[1..]), LeafArguments(ls[1..]);
      match ls[0]
      case FormatSegment(s) =>
        assert LeafFormats(ls) == s + F;
        assert LeafArguments(ls) == A;
        assert LeafDescriptions(ls) == s + LeafDescriptions(ls[1..]);
        RenderLiteral(s, F, A);
      case KeyPath(k) =>
        assert LeafFormats(ls) == "%K" + F;
        assert ("%K" + F)[2..] == F;
      case ObjectExpression(v) =>
        assert LeafFormats(ls) == "%@" + F;
        assert ("%@" + F)[2..] == F;
    }
  }

  /** The argument list holds one entry per `%K` or `%@` leaf of the tree,
      in left-to-right order, and nothing else. */
  lemma ArgumentsMatchPlaceholders(f: PredicateFormat)
    ensures |Segments(f).arguments| == PlaceholderCount(Leaves(f))
    ensures Segments(f).arguments == LeafArguments(Leaves(f))
  {
    SegmentsAreLeafwise(f);
  }

  /** Round trip of the two folds: putting each argument's description back
      into its placeholder gives the description, whenever the literal text
      holds no `%` of its own. */
  lemma RenderedSegmentsAreDescription(f: PredicateFormat)
    requires LiteralsFreeOfPercent(f)
    ensures Render(Segments(f).format, Segments(f).arguments) == Description(f)
  {
    var ls := Leaves(f);
    assert forall i :: 0 <= i < |ls| ==> ls[i] in ls;
    SegmentsAreLeafwise(f);
    DescriptionIsLeafwise(f);
    RenderLeaves(ls);
  }

  // ---------------------------------------------------------------------
  // equality and the test-suite examples

  /** Equality by description identifies trees that serialise differently:
      `%K` with key `age` describes as the literal text `age`. */
  lemma EqualityIgnoresPlaceholders()
    ensures Equal(KeyPath("age"), FormatSegment("age"))
    ensures Segments(KeyPath("age")) != Segments(FormatSegment("age"))
    ensures Equal(Tree([FormatSegment("a"), FormatSegment("b")]), FormatSegment("ab"))
  {
    assert DescribeFrom("", [FormatSegment("a"), FormatSegment("b")])
        == DescribeFrom("a", [FormatSegment("b")]);
    assert [FormatSegment("b")][1..] == [];
  }

  /** `"\(key(age)) == \(number)"` with number 21: the tree of five segments,
      empty leading and trailing literals included, and its serialisation. */
  lemma InterpolatedComparison()
    ensures Interpolate(["", " == ", ""], [AFormat(Key("age")), AnObject(IntV(21))])
         == Tree([FormatSegment(""), KeyPath("age"), FormatSegment(" == "), ObjectExpression(IntV(21)), FormatSegment("")])
    ensures Segments(Interpolate(["", " == ", ""], [AFormat(Key("age")), AnObject(IntV(21))]))
         == Segment("%K == %@", [StrV("age"), IntV(21)])
  {
    var t := Interpolate(["", " == ", ""], [AFormat(Key("age")), AnObject(IntV(21))]);
    var r := InterpolationSegments(["", " == ", ""], [AFormat(Key("age")), AnObject(IntV(21))]);
    assert |r| == 5;
    assert r[0] == FormatSegment(([""] + [" == ", ""])[0]);
    assert r[2] == FormatSegment(["", " == ", ""][1]);
    assert r[4] == FormatSegment(["", " == ", ""][2]);
    assert r == [FormatSegment(""), KeyPath("age"), FormatSegment(" == "), ObjectExpression(IntV(21)), FormatSegment("")];
    var f := Tree(r);
    assert SegmentsFrom(EmptySegment, r) == SegmentsFrom(Segment("", []), r[1..]);
  }

  /** The `Predicate` initialiser tests: a plain literal is passed on as a
      format with no arguments, and both `"\(attribute) == \(quoted(name))"`
      and `"\(key("name")) == \(name)"` serialise to `%K == %@` with the
      arguments [name, QueryKit]. */
  lemma PredicateFromFormatExamples()
    ensures ToPredicate(FromStringLiteral("TRUEPREDICATE")).pred == Format("TRUEPREDICATE", [])
    ensures ToPredicate(Interpolate(["", " == ", ""], [AConvertible(Key("name")), AFormat(Quoted("QueryKit"))])).pred
         == Format("%K == %@", [StrV("name"), StrV("QueryKit")])
    ensures ToPredicate(Interpolate(["", " == ", ""], [AFormat(Key("name")), AFormat(ObjectExpression(StrV("QueryKit")))])).pred
         == Format("%K == %@", [StrV("name"), StrV("QueryKit")])
  {
    var literals := ["", " == ", ""];
    var r := InterpolationSegments(literals, [AConvertible(Key("name")), AFormat(Quoted("QueryKit"))]);
    assert r[0] == FormatSegment(literals[0]) && r[2] == FormatSegment(literals[1]) && r[4] == FormatSegment(literals[2]);
    assert r == [FormatSegment(""), KeyPath("name"), FormatSegment(" == "), ObjectExpression(StrV("QueryKit")), FormatSegment("")];
    assert SegmentsFrom(EmptySegment, r) == SegmentsFrom(Segment("", []), r[1..]);
    var r2 := InterpolationSegments(literals, [AFormat(Key("name")), AFormat(ObjectExpression(StrV("QueryKit")))]);
    assert r2[0] == FormatSegment(literals[0]) && r2[2] == FormatSegment(literals[1]) && r2[4] == FormatSegment(literals[2]);
    assert r2 == r;
  }
}
