/** What the identifier rules promise: the id of an item is the id the walk continues
    with, a dot, and the item's own lowercased segment, with one rule per item kind; a
    non-overloaded constructor stands in for its class; ids are lower case; parameter ids
    and permalinks extend and summarise them. */
module IdentifierProperties {
  import opened JsStrings
  import opened Identifiers

  /** The part of y's walk that comes before y's own segment: the id of the next item
      and a dot, or nothing when the walk ends at y. */
  function ContinuedId(y: Item): (prefix: string)
    requires match Next(y) case None => true case Some(p) => Walkable(p)
  {
    match Next(y)
    case None => ""
    case Some(p) => CanonicalId(p) + "."
  }

  lemma ReverseCons<T>(a: T, s: seq<T>)
    ensures Reverse([a] + s) == Reverse(s) + [a]
  {
    assert ([a] + s)[1..] == s;
  }

  /** The id of a supported item: the id of where the walk continues, then the item's own
      segment, lowercased. */
  lemma {:induction false} CanonicalIdUnfold(x: Item)
    requires Walkable(x) && !Unsupported(x.kind)
    ensures CanonicalId(x) == ContinuedId(Visit(x).resume) + Lower(Visit(x).segment)
  {
    var s := Visit(x);
    match Next(s.resume)
    case None =>
      assert Walk(x) == [s.segment];
      assert Reverse([s.segment]) == [s.segment];
    case Some(p) =>
      assert Walk(x) == [s.segment] + Walk(p);
      ReverseCons(s.segment, Walk(p));
      LowerJoinSnoc(Reverse(Walk(p)), s.segment);
  }

  /** A variable always contributes `(name:variable)`. */
  lemma VariableId(x: Item)
    requires Walkable(x) && x.kind == Variable
    ensures CanonicalId(x) == ContinuedId(x) + Lower("(" + x.name + ":variable)")
  {
    CanonicalIdUnfold(x);
  }

  /** A function contributes `(name:function)` when it is overload 0 and its canonical
      reference otherwise. */
  lemma FunctionId(x: Item)
    requires Walkable(x) && x.kind == Function
    ensures x.overloadIndex == 0 ==> CanonicalId(x) == ContinuedId(x) + Lower("(" + x.name + ":function)")
    ensures x.overloadIndex != 0 ==> CanonicalId(x) == ContinuedId(x) + Lower(x.canonicalReference)
  {
    CanonicalIdUnfold(x);
  }

  /** A method contributes `(name:static)` or `(name:instance)` when it is overload 0 and
      its canonical reference otherwise. */
  lemma MethodId(x: Item)
    requires Walkable(x) && x.kind == Method
    ensures x.overloadIndex == 0 && x.isStatic ==>
      CanonicalId(x) == ContinuedId(x) + Lower("(" + x.name + ":static)")
    ensures x.overloadIndex == 0 && !x.isStatic ==>
      CanonicalId(x) == ContinuedId(x) + Lower("(" + x.name + ":instance)")
    ensures x.overloadIndex != 0 ==> CanonicalId(x) == ContinuedId(x) + Lower(x.canonicalReference)
  {
    CanonicalIdUnfold(x);
  }

  /** A non-overloaded constructor contributes `(className:constructor)` and the walk
      continues above the class, which gets no segment; an overloaded one contributes its
      canonical reference and the walk continues at the class. */
  lemma ConstructorId(x: Item)
    requires Walkable(x) && x.kind == Constructor
    ensures x.overloadIndex == 0 ==> (x.parent.Some? &&
      CanonicalId(x) == ContinuedId(x.parent.value) + Lower("(" + x.parent.value.name + ":constructor)"))
    ensures x.overloadIndex != 0 ==> CanonicalId(x) == ContinuedId(x) + Lower(x.canonicalReference)
  {
    CanonicalIdUnfold(x);
  }

  /** Every kind without a TSDoc selector contributes its canonical reference. */
  lemma FallbackId(x: Item)
    requires Walkable(x) && !Unsupported(x.kind)
    requires x.kind !in {Variable, Function, Method, Constructor}
    ensures CanonicalId(x) == ContinuedId(x) + Lower(x.canonicalReference)
  {
    CanonicalIdUnfold(x);
  }

  /** Items above module level have the empty id. */
  lemma UnsupportedId(x: Item)
    requires Unsupported(x.kind)
    ensures CanonicalId(x) == ""
  {
  }

  /** Lowercasing an id again leaves it unchanged. */
  lemma CanonicalIdLowerFixpoint(x: Item)
    requires WellFormed(x)
    ensures Lower(CanonicalId(x)) == CanonicalId(x)
  {
    if !Unsupported(x.kind) {
      LowerIdempotent(Join(Reverse(Walk(x)), "."));
    }
  }

  /** a is on the parent chain of x, above x. */
  predicate IsAncestor(a: Item, x: Item)
    decreases Depth(x)
  {
    match x.parent
    case None => false
    case Some(p) => p == a || IsAncestor(a, p)
  }

  lemma {:induction false} AncestorTransitive(a: Item, b: Item, x: Item)
    requires IsAncestor(a, b) && IsAncestor(b, x)
    ensures IsAncestor(a, x)
    decreases Depth(x)
  {
    var p := x.parent.value;
    if p != b {
      AncestorTransitive(a, b, p);
    }
  }

  lemma {:induction false} AncestorDepth(a: Item, x: Item)
    requires IsAncestor(a, x)
    ensures Depth(a) < Depth(x)
    decreases Depth(x)
  {
    var p := x.parent.value;
    if p != a {
      AncestorDepth(a, p);
    }
  }

  /** The items the walk visits: x first, then ancestors of x, each strictly above the one
      before, none of them above module level. */
  lemma {:induction false} VisitedChain(x: Item)
    requires Walkable(x)
    ensures forall i :: 0 < i < |Visited(x)| ==> !Unsupported(Visited(x)[i].kind)
    ensures forall i :: 0 < i < |Visited(x)| ==> IsAncestor(Visited(x)[i], Visited(x)[i - 1])
    ensures forall i :: 0 < i < |Visited(x)| ==> IsAncestor(Visited(x)[i], x)
    decreases Depth(x)
  {
    var r := Visit(x).resume;
    match Next(r)
    case None =>
    case Some(p) =>
      VisitedChain(p);
      assert IsAncestor(p, x) by {
        if r != x {
          assert IsAncestor(p, r) && IsAncestor(r, x);
          AncestorTransitive(p, r, x);
        }
      }
      var v := Visited(x);
      assert v == [x] + Visited(p);
      forall i | 0 < i < |v|
        ensures IsAncestor(v[i], x)
      {
        if i > 1 {
          AncestorTransitive(v[i], p, x);
        }
      }
  }

  /** The walk emits exactly one segment per visited item, in the same order. */
  lemma {:induction false} WalkVisits(x: Item)
    requires Walkable(x)
    ensures |Walk(x)| == |Visited(x)|
    ensures forall i :: 0 <= i < |Walk(x)| ==> Walk(x)[i] == Visit(Visited(x)[i]).segment
    decreases Depth(x)
  {
    match Next(Visit(x).resume)
    case None =>
    case Some(p) =>
      WalkVisits(p);
      assert Walk(x) == [Visit(x).segment] + Walk(p);
      assert Visited(x) == [x] + Visited(p);
  }

  /** A non-overloaded constructor's class is never visited: the walk goes from the
      constructor straight to the class's parent. */
  lemma ConstructorSkipsClass(x: Item)
    requires Walkable(x) && IsSkippingConstructor(x)
    ensures x.parent.Some? && x.parent.value !in Visited(x)
    ensures |Visited(x)| == 1 || (x.parent.value.parent.Some? && Visited(x)[1] == x.parent.value.parent.value)
  {
    var k := x.parent.value;
    var v := Visited(x);
    VisitedChain(x);
    forall i | 0 <= i < |v|
      ensures v[i] != k
    {
      if i > 0 {
        // v[1] is k's parent, so everything from v[1] on lies above k.
        assert Next(k).Some? && v[1] == Next(k).value;
        assert IsAncestor(v[1], k);
        if i > 1 {
          VisitedChain(v[1]);
          assert Visited(v[1]) == v[1..];
          assert IsAncestor(v[i], v[1]);
          AncestorTransitive(v[i], v[1], k);
        }
        AncestorDepth(v[i], k);
      }
    }
  }

  lemma ParameterSelectorLower(name: string)
    ensures Lower("(" + name + ":parameter)") == "(" + Lower(name) + ":parameter)"
  {
    assert IsLower("(");
    assert IsLower(":parameter)");
    LowerAround("(", name, ":parameter)");
  }

  /** Joining one more selector and lowercasing lowercases only the parameter name. */
  lemma AppendParameterSelector(parts: seq<string>, name: string)
    requires |parts| >= 1
    ensures Lower(Join(parts + ["(" + name + ":parameter)"], "."))
      == Lower(Join(parts, ".")) + "." + ("(" + Lower(name) + ":parameter)")
  {
    LowerJoinSnoc(parts, "(" + name + ":parameter)");
    ParameterSelectorLower(name);
  }

  /** A parameter id is the method's id followed by one more, lowercased segment. */
  lemma ParameterIdIsChildSegment(m: Item, p: Parameter)
    requires Walkable(m) && IsFunctionLike(m.kind)
    ensures ParameterId(m, p) == Lower(Join(Reverse(Walk(m)) + ["(" + p.name + ":parameter)"], "."))
  {
    AppendParameterSelector(Reverse(Walk(m)), p.name);
  }

  /** Two parameter selectors after the same id are equal exactly when the lowercased
      names are. */
  lemma ParameterSuffix(id: string, a: string, b: string)
    ensures id + "." + ("(" + Lower(a) + ":parameter)") == id + "." + ("(" + Lower(b) + ":parameter)")
      <==> Lower(a) == Lower(b)
  {
    var tailA := "(" + Lower(a) + ":parameter)";
    var tailB := "(" + Lower(b) + ":parameter)";
    if id + "." + tailA == id + "." + tailB {
      assert tailA == (id + "." + tailA)[|id| + 1..] == (id + "." + tailB)[|id| + 1..] == tailB;
      assert Lower(a) == tailA[1..|tailA| - 11];
      assert Lower(b) == tailB[1..|tailB| - 11];
    }
  }

  /** Two parameter ids of one method are equal exactly when the lowercased parameter
      names are. */
  lemma ParameterIdDeterminesName(m: Item, p: Parameter, q: Parameter)
    requires Walkable(m) && IsFunctionLike(m.kind)
    ensures ParameterId(m, p) == ParameterId(m, q) <==> Lower(p.name) == Lower(q.name)
  {
    ParameterSuffix(CanonicalId(m), p.name, q.name);
  }

  /** Two permalinks are equal exactly when their hash prefixes and their lowercased
      display names are: the prefix depends only on the id and the suffix only on the
      display name. */
  lemma PermalinkParts(digest: string -> string, a: Item, idA: string, b: Item, idB: string)
    requires IsHexDigest(digest(idA)) && IsHexDigest(digest(idB))
    ensures Permalink(digest, a, idA) == Permalink(digest, b, idB) <==>
      digest(idA)[..6] == digest(idB)[..6] && Lower(a.displayName) == Lower(b.displayName)
  {
    var la, lb := Permalink(digest, a, idA), Permalink(digest, b, idB);
    if digest(idA)[..6] == digest(idB)[..6] && Lower(a.displayName) == Lower(b.displayName) {
      assert la == lb;
    }
  }

  /** The default permalink of an item is determined by its id and its display name. */
  lemma DefaultPermalinkFromIdAndName(digest: string -> string, a: Item, b: Item)
    requires WellFormed(a) && WellFormed(b)
    ensures CanonicalId(a) == CanonicalId(b) && Lower(a.displayName) == Lower(b.displayName) ==>
      DefaultPermalink(digest, a) == DefaultPermalink(digest, b)
  {
  }
}
