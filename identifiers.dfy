/** Identifier derivation for API items: the dotted, lower-case id of an item built by
    walking its parent chain (`toId`), the id of one of its parameters (`toParameterId`)
    and the short hashed permalink (`toPermalink`). */
module Identifiers {
  import opened JsStrings

  datatype Option<+T> = None | Some(value: T)

  /** The item kinds of the API model. */
  datatype Kind =
    | None | Package | Model | EntryPoint
    | Variable | Function | Method | Constructor
    | Class | Interface | Namespace | Enum | EnumMember | TypeAlias
    | Property | PropertySignature | MethodSignature
    | CallSignature | ConstructSignature | IndexSignature

  /** The fields of an API item that the identifier code reads. The parent link is a
      value, so every parent chain is finite and acyclic. */
  datatype Item = Item(
    kind: Kind,
    name: string,
    displayName: string,
    canonicalReference: string,
    overloadIndex: nat,
    isStatic: bool,
    parent: Option<Item>)

  datatype Parameter = Parameter(name: string)

  /** Kinds above module level: they have no id and end the walk. */
  predicate Unsupported(k: Kind) {
    k == Kind.None || k == Package || k == Model || k == EntryPoint
  }

  /** Number of items on the parent chain, the item itself included. */
  function Depth(x: Item): (d: nat)
    ensures d >= 1
  {
    match x.parent
    case None => 1
    case Some(p) => 1 + Depth(p)
  }

  /** A non-overloaded constructor: it names its class and takes the class's place. */
  predicate IsSkippingConstructor(x: Item) {
    x.kind == Constructor && x.overloadIndex == 0
  }

  /** What visiting one item yields: the segment it emits and the item whose parent
      the walk continues from (the item itself, or the class a constructor skips). */
  datatype Step = Step(segment: string, resume: Item)

  /** The segment that one item contributes, with its TSDoc selector where one exists
      and the item's canonical reference otherwise. */
  function Visit(x: Item): (s: Step)
    requires IsSkippingConstructor(x) ==> x.parent.Some?
    ensures s.resume == x <==> !IsSkippingConstructor(x)
    ensures s.resume != x ==> x.parent == Some(s.resume)
    ensures Depth(s.resume) <= Depth(x)
  {
    if x.kind == Variable then
      Step("(" + x.name + ":variable)", x)
    else if x.kind == Function && x.overloadIndex == 0 then
      Step("(" + x.name + ":function)", x)
    else if x.kind == Method && x.overloadIndex == 0 then
      Step(if x.isStatic then "(" + x.name + ":static)" else "(" + x.name + ":instance)", x)
    else if x.kind == Constructor && x.overloadIndex == 0 then
      Step("(" + x.parent.value.name + ":constructor)", x.parent.value)
    else
      Step(x.canonicalReference, x)
  }

  /** The next item to visit: the parent, unless it is absent or of an unsupported kind. */
  function Next(y: Item): (n: Option<Item>)
    ensures n.Some? <==> y.parent.Some? && !Unsupported(y.parent.value.kind)
    ensures n.Some? ==> n == y.parent && Depth(n.value) < Depth(y)
  {
    match y.parent
    case Some(p) => if Unsupported(p.kind) then Option.None else Some(p)
    case None => Option.None
  }

  /** The walk from x never meets a non-overloaded constructor without a parent (the
      source reads the missing class's name and throws). */
  predicate Walkable(x: Item)
    decreases Depth(x)
  {
    && (IsSkippingConstructor(x) ==> x.parent.Some?)
    && match Next(Visit(x).resume)
       case None => true
       case Some(p) => Walkable(p)
  }

  /** The items whose segments the walk from x emits, leaf first. */
  function Visited(x: Item): (v: seq<Item>)
    requires Walkable(x)
    ensures |v| >= 1 && v[0] == x
    ensures forall i :: 0 <= i < |v| ==> Walkable(v[i])
    decreases Depth(x)
  {
    match Next(Visit(x).resume)
    case None => [x]
    case Some(p) => [x] + Visited(p)
  }

  /** The segments the walk from x emits, leaf first. */
  function Walk(x: Item): (segments: seq<string>)
    requires Walkable(x)
    ensures |segments| >= 1 && segments[0] == Visit(x).segment
    decreases Depth(x)
  {
    var s := Visit(x);
    match Next(s.resume)
    case None => [s.segment]
    case Some(p) => [s.segment] + Walk(p)
  }

  /** One iteration of the walk: after pushing the visited item's segment, what is left
      to push is the walk from the next item, or nothing when there is none. */
  lemma WalkStep(item: Item, pushed: seq<string>, x: Item)
    requires Walkable(item) && Walkable(x) && pushed + Walk(x) == Walk(item)
    ensures Next(Visit(x).resume).None? ==> pushed + [Visit(x).segment] == Walk(item)
    ensures Next(Visit(x).resume).Some? ==>
      && Walkable(Next(Visit(x).resume).value)
      && (pushed + [Visit(x).segment]) + Walk(Next(Visit(x).resume).value) == Walk(item)
  {
    var s := Visit(x);
    match Next(s.resume)
    case None =>
    case Some(p) =>
      assert (pushed + [s.segment]) + Walk(p) == pushed + ([s.segment] + Walk(p));
  }

  /** The items `toId` accepts without throwing. */
  predicate WellFormed(x: Item) {
    Unsupported(x.kind) || Walkable(x)
  }

  /** The identifier of an item: "" above module level, otherwise the segments root
      first, joined by "." and lowercased. */
  function CanonicalId(x: Item): (id: string)
    requires WellFormed(x)
    ensures IsLower(id)
  {
    if Unsupported(x.kind) then "" else Lower(Join(Reverse(Walk(x)), "."))
  }

  /** `toId`: the ancestor walk as the source runs it, one pushed reference per
      iteration, the constructor branch stepping onto its class mid-iteration. */
  method ToId(item: Item) returns (id: string)
    requires WellFormed(item)
    ensures id == CanonicalId(item)
  {
    if Unsupported(item.kind) {
      return "";
    }
    var references: seq<string> := [];
    var current := item;
    while true
      invariant Walkable(current)
      invariant references + Walk(current) == Walk(item)
      decreases Depth(current)
    {
      ghost var visiting := current;
      var reference: Option<string> := Option.None;
      if current.kind == Variable {
        reference := Some("(" + current.name + ":variable)");
      } else if current.kind == Function {
        if current.overloadIndex == 0 {
          reference := Some("(" + current.name + ":function)");
        }
      } else if current.kind == Method {
        if current.overloadIndex == 0 {
          reference := Some(if current.isStatic then "(" + current.name + ":static)" else "(" + current.name + ":instance)");
        }
      } else if current.kind == Constructor {
        var klass := current.parent;
        if current.overloadIndex == 0 {
          reference := Some("(" + klass.value.name + ":constructor)");
          current := klass.value;
        }
      }
      if reference.None? {
        reference := Some(current.canonicalReference);
      }
      assert reference.value == Visit(visiting).segment;
      assert current == Visit(visiting).resume;
      WalkStep(item, references, visiting);
      references := references + [reference.value];
      if current.parent.None? || Unsupported(current.parent.value.kind) {
        break;
      }
      current := current.parent.value;
    }
    id := Lower(Join(Reverse(references), "."));
  }

  /** The kinds `toParameterId` accepts. */
  predicate IsFunctionLike(k: Kind) {
    k == Method || k == MethodSignature || k == Function || k == ConstructSignature || k == Constructor
  }

  /** `toParameterId`: the method's id followed by a parameter selector. The result is
      lower case and keeps the method's id as its prefix. */
  function ParameterId(m: Item, p: Parameter): (id: string)
    requires IsFunctionLike(m.kind) && WellFormed(m)
    ensures IsLower(id)
    ensures |id| > |CanonicalId(m)| && id[..|CanonicalId(m)|] == CanonicalId(m)
    ensures id[|CanonicalId(m)|] == '.'
  {
    var selector := "(" + Lower(p.name) + ":parameter)";
    assert IsLower("(") && IsLower(":parameter)") && IsLower(".");
    ConcatIsLower("(", Lower(p.name));
    ConcatIsLower("(" + Lower(p.name), ":parameter)");
    ConcatIsLower(CanonicalId(m), ".");
    ConcatIsLower(CanonicalId(m) + ".", selector);
    CanonicalId(m) + "." + selector
  }

  /** A hex digest as the hashing library returns it. */
  predicate IsHexDigest(h: string) {
    |h| >= 6 && forall i :: 0 <= i < |h| ==> '0' <= h[i] <= '9' || 'a' <= h[i] <= 'f'
  }

  /** `s.slice(0, n)` for n >= 0: at most the first n characters. */
  function SliceTo(s: string, n: nat): (r: string)
    ensures |r| <= n && r <= s
    ensures |s| >= n ==> |r| == n
    ensures |s| < n ==> r == s
  {
    if |s| <= n then s else s[..n]
  }

  /** `toPermalink(item, id)`: the first six characters of the digest of id, a hyphen
      and the lowercased display name. The digest (SHA-1 in hex) is a parameter. For a
      hex digest the result is six hex characters, '-', then the lowercased name. */
  function Permalink(digest: string -> string, item: Item, id: string): (link: string)
    ensures |link| >= |item.displayName| + 1
    ensures link[|link| - |item.displayName| - 1] == '-'
    ensures link[|link| - |item.displayName|..] == Lower(item.displayName)
    ensures IsHexDigest(digest(id)) ==>
      && |link| == 7 + |item.displayName|
      && link[..6] == digest(id)[..6]
      && IsHexDigest(link[..6])
      && IsLower(link)
  {
    var link := SliceTo(digest(id), 6) + "-" + Lower(item.displayName);
    assert IsHexDigest(digest(id)) ==> IsLower(link) by {
      if IsHexDigest(digest(id)) {
        forall i | 0 <= i < |link|
          ensures !IsUpper(link[i])
        {
          if i < 6 {
            assert link[i] == digest(id)[i];
          } else if i > 6 {
            assert link[i] == Lower(item.displayName)[i - 7];
          }
        }
      }
    }
    link
  }

  /** `toPermalink(item)`: the id argument defaults to the item's own identifier. */
  function DefaultPermalink(digest: string -> string, item: Item): (link: string)
    requires WellFormed(item)
    ensures |link| > |item.displayName| && link[|link| - |item.displayName|..] == Lower(item.displayName)
    ensures IsHexDigest(digest(CanonicalId(item))) ==>
      |link| >= 6 && link[..6] == digest(CanonicalId(item))[..6]
  {
    Permalink(digest, item, CanonicalId(item))
  }
}
