/**
 * The syntax tree arena: nodes live in parallel sequences indexed from 1
 * (index 0 is a placeholder), and each node's children are a run of slots in
 * one flattened child sequence. A slot either holds a node index directly or
 * points at a block `[count, index, ...]` stored in the same sequence.
 */
module AstArena {
  import opened Common
  import opened SourcePositions

  /** Every kind of syntax node, in declaration order. */
  datatype NodeKind =
    | Invalid | Id | Str | Int | Real | Char | Bool | Unit | Symbol
    | ListOf | Tuple | Object
    | BoolNot | SelfLower | SelfCap | Null
    | OptionalType | PointerType | FunctionType
    | RangeFull | RangeTo | RangeToInclusive | RangeFrom | RangeFromTo | RangeFromToInclusive
    | Add | Sub | Mul | Div | Mod | AddAdd
    | BoolEq | BoolNotEq | BoolAnd | BoolOr | BoolGt | BoolGtEq | BoolLt | BoolLtEq
    | Select | Image | Deref | Refer | TypeCast
    | Call | IndexCall | ObjectCall
    | PostMatch | PatternArm | ConditionArm | CatchArm
    | ExprStatement | Assign | AddAssign | SubAssign | MulAssign | DivAssign
    | ConstDecl | LetDecl | ReturnStatement | BreakStatement | ContinueStatement
    | IfStatement | WhenStatement | WhileLoop | ForLoop
    | PatternIfGuard | PatternAsBind | PatternOptionSome | PatternObjectCall
    | PatternRangeTo | PatternRangeToInclusive | PatternRangeFrom | PatternRangeFromTo
    | PatternRangeFromToInclusive | PropertyPattern | PatternRecord | PatternList | PatternTuple
    | FunctionDef | StructDef | StructField | EnumDef | EnumVariantWithPattern
    | UnionDef | UnionVariant | Typealias | Newtype | ModuleDef
    | ModStatement | UseStatement | PathSelect | PathSelectMulti | PathSelectAll
    | SuperPath | PackagePath | PathAsBind
    | ParamTyped | ParamSelf | ParamSelfRef
    | Block | FileScope

  /** The child layout a node kind uses. */
  datatype NodeType =
    | NoChild | SingleChild | DoubleChildren | TripleChildren | QuadrupleChildren
    | MultiChildren | SingleWithMultiChildren | DoubleWithMultiChildren | TripleWithMultiChildren
    | FunctionDefChildren | DiamondFunctionDefChildren | EffectDefChildren | HandlesDefChildren
    | TypeDefChildren | TraitDefChildren | ImplTraitDefChildren | ExtendTraitDefChildren
    | DeriveDefChildren | TypeAliasChildren

  /** `get_node_type`: the layout of each kind; kinds with no case of their own fall to `NoChild`. */
  function GetNodeType(kind: NodeKind): (r: NodeType)
    ensures r !in {DoubleWithMultiChildren, TripleWithMultiChildren,
      DiamondFunctionDefChildren, EffectDefChildren, HandlesDefChildren, TraitDefChildren,
      ImplTraitDefChildren, ExtendTraitDefChildren, DeriveDefChildren}
  {
    match kind
    case Invalid | Id | Str | Int | Real | Char | Bool | Unit | Symbol
      | SelfLower | SelfCap | Null | ParamSelf | ParamSelfRef | RangeFull => NoChild
    case BoolNot | OptionalType | PointerType | FunctionType | RangeTo | RangeToInclusive
      | RangeFrom | Deref | Refer | TypeCast | ExprStatement | PatternOptionSome
      | PatternRangeTo | PatternRangeToInclusive | PatternRangeFrom | ModStatement
      | UseStatement | PathSelectAll | SuperPath | PackagePath | ReturnStatement
      | BreakStatement | ContinueStatement => SingleChild
    case RangeFromTo | RangeFromToInclusive | Add | Sub | Mul | Div | Mod | AddAdd
      | BoolEq | BoolNotEq | BoolAnd | BoolOr | BoolGt | BoolGtEq | BoolLt | BoolLtEq
      | Select | Image | IndexCall | PatternArm | ConditionArm | CatchArm
      | PatternRangeFromTo | PatternRangeFromToInclusive | PropertyPattern | StructField
      | UnionVariant | PathSelect | PathAsBind | ParamTyped | Assign | AddAssign
      | SubAssign | MulAssign | DivAssign => DoubleChildren
    case ConstDecl | LetDecl | IfStatement | WhileLoop | PatternIfGuard | PatternAsBind => TripleChildren
    case ForLoop => QuadrupleChildren
    case ListOf | Tuple | Object | Block | PatternRecord | PatternList | PatternTuple
      | WhenStatement | FileScope => MultiChildren
    case Call | ObjectCall | PostMatch | PatternObjectCall => SingleWithMultiChildren
    case FunctionDef => FunctionDefChildren
    case StructDef | EnumDef | UnionDef | ModuleDef => TypeDefChildren
    case Typealias | Newtype => TypeAliasChildren
    case _ => NoChild
  }

  /** The leaves: literals, identifiers, `self`, `null`, the bare range, and the kinds with no case of their own. */
  predicate IsLeafKind(kind: NodeKind) {
    kind in {Invalid, Id, Str, Int, Real, Char, Bool, Unit, Symbol,
      SelfLower, SelfCap, Null, ParamSelf, ParamSelfRef, RangeFull, EnumVariantWithPattern, PathSelectMulti}
  }

  /** Prefix operators, type constructors, half-open ranges and the one-operand statements. */
  predicate IsUnaryKind(kind: NodeKind) {
    kind in {BoolNot, OptionalType, PointerType, FunctionType,
      RangeTo, RangeToInclusive, RangeFrom, Deref, Refer, TypeCast, ExprStatement, PatternOptionSome,
      PatternRangeTo, PatternRangeToInclusive, PatternRangeFrom, ModStatement, UseStatement, PathSelectAll,
      SuperPath, PackagePath, ReturnStatement, BreakStatement, ContinueStatement}
  }

  /** The binary operators, the assignments and the other two-part forms. */
  predicate IsBinaryKind(kind: NodeKind) {
    kind in {RangeFromTo, RangeFromToInclusive,
      Add, Sub, Mul, Div, Mod, AddAdd, BoolEq, BoolNotEq, BoolAnd, BoolOr, BoolGt, BoolGtEq, BoolLt, BoolLtEq,
      Select, Image, IndexCall, PatternArm, ConditionArm, CatchArm, PatternRangeFromTo,
      PatternRangeFromToInclusive, PropertyPattern, StructField, UnionVariant, PathSelect, PathAsBind,
      ParamTyped, Assign, AddAssign, SubAssign, MulAssign, DivAssign}
  }

  /** Declarations, `if`, `while` and the guarded and bound patterns. */
  predicate IsTripleKind(kind: NodeKind) {
    kind in {ConstDecl, LetDecl, IfStatement, WhileLoop, PatternIfGuard, PatternAsBind}
  }

  /** `for`. */
  predicate IsQuadrupleKind(kind: NodeKind) {
    kind == ForLoop
  }

  /** Lists, tuples, objects, blocks, list patterns, `when` and whole files. */
  predicate IsListKind(kind: NodeKind) {
    kind in {ListOf, Tuple, Object, Block, PatternRecord,
      PatternList, PatternTuple, WhenStatement, FileScope}
  }

  /** Calls: a callee followed by a list of arguments. */
  predicate IsCallKind(kind: NodeKind) {
    kind in {Call, ObjectCall, PostMatch, PatternObjectCall}
  }

  /** Function definitions. */
  predicate IsFunctionDefKind(kind: NodeKind) {
    kind == FunctionDef
  }

  /** Type and module definitions. */
  predicate IsTypeDefKind(kind: NodeKind) {
    kind in {StructDef, EnumDef, UnionDef, ModuleDef}
  }

  /** Aliases and new types. */
  predicate IsTypeAliasKind(kind: NodeKind) {
    kind in {Typealias, Newtype}
  }

  /** Only the kinds `IsLeafKind` accepts have layout `NoChild`. */
  lemma NoChildOnly(kind: NodeKind)
    ensures GetNodeType(kind) == NoChild ==> IsLeafKind(kind)
  {
  }

  /** Only the kinds `IsUnaryKind` accepts have layout `SingleChild`. */
  lemma SingleChildOnly(kind: NodeKind)
    ensures GetNodeType(kind) == SingleChild ==> IsUnaryKind(kind)
  {
  }

  /** Only the kinds `IsBinaryKind` accepts have layout `DoubleChildren`. */
  lemma DoubleChildrenOnly(kind: NodeKind)
    ensures GetNodeType(kind) == DoubleChildren ==> IsBinaryKind(kind)
  {
  }

  /** Only the kinds `IsTripleKind` accepts have layout `TripleChildren`. */
  lemma TripleChildrenOnly(kind: NodeKind)
    ensures GetNodeType(kind) == TripleChildren ==> IsTripleKind(kind)
  {
  }

  /** Only the kinds `IsQuadrupleKind` accepts have layout `QuadrupleChildren`. */
  lemma QuadrupleChildrenOnly(kind: NodeKind)
    ensures GetNodeType(kind) == QuadrupleChildren ==> IsQuadrupleKind(kind)
  {
  }

  /** Only the kinds `IsListKind` accepts have layout `MultiChildren`. */
  lemma MultiChildrenOnly(kind: NodeKind)
    ensures GetNodeType(kind) == MultiChildren ==> IsListKind(kind)
  {
  }

  /** Only the kinds `IsCallKind` accepts have layout `SingleWithMultiChildren`. */
  lemma SingleWithMultiChildrenOnly(kind: NodeKind)
    ensures GetNodeType(kind) == SingleWithMultiChildren ==> IsCallKind(kind)
  {
  }

  /** Only the kinds `IsFunctionDefKind` accepts have layout `FunctionDefChildren`. */
  lemma FunctionDefChildrenOnly(kind: NodeKind)
    ensures GetNodeType(kind) == FunctionDefChildren ==> IsFunctionDefKind(kind)
  {
  }

  /** Only the kinds `IsTypeDefKind` accepts have layout `TypeDefChildren`. */
  lemma TypeDefChildrenOnly(kind: NodeKind)
    ensures GetNodeType(kind) == TypeDefChildren ==> IsTypeDefKind(kind)
  {
  }

  /** Only the kinds `IsTypeAliasKind` accepts have layout `TypeAliasChildren`. */
  lemma TypeAliasChildrenOnly(kind: NodeKind)
    ensures GetNodeType(kind) == TypeAliasChildren ==> IsTypeAliasKind(kind)
  {
  }

  /** Each used layout with the only kinds that have it, and the layouts no kind has. */
  lemma KindsByLayout(kind: NodeKind)
    ensures GetNodeType(kind) == NoChild ==> IsLeafKind(kind)
    ensures GetNodeType(kind) == SingleChild ==> IsUnaryKind(kind)
    ensures GetNodeType(kind) == DoubleChildren ==> IsBinaryKind(kind)
    ensures GetNodeType(kind) == TripleChildren ==> IsTripleKind(kind)
    ensures GetNodeType(kind) == QuadrupleChildren ==> IsQuadrupleKind(kind)
    ensures GetNodeType(kind) == MultiChildren ==> IsListKind(kind)
    ensures GetNodeType(kind) == SingleWithMultiChildren ==> IsCallKind(kind)
    ensures GetNodeType(kind) == FunctionDefChildren ==> IsFunctionDefKind(kind)
    ensures GetNodeType(kind) == TypeDefChildren ==> IsTypeDefKind(kind)
    ensures GetNodeType(kind) == TypeAliasChildren ==> IsTypeAliasKind(kind)
    ensures GetNodeType(kind) !in {DoubleWithMultiChildren, TripleWithMultiChildren,
      DiamondFunctionDefChildren, EffectDefChildren, HandlesDefChildren, TraitDefChildren,
      ImplTraitDefChildren, ExtendTraitDefChildren, DeriveDefChildren}
  {
    NoChildOnly(kind);
    SingleChildOnly(kind);
    DoubleChildrenOnly(kind);
    TripleChildrenOnly(kind);
    QuadrupleChildrenOnly(kind);
    MultiChildrenOnly(kind);
    SingleWithMultiChildrenOnly(kind);
    FunctionDefChildrenOnly(kind);
    TypeDefChildrenOnly(kind);
    TypeAliasChildrenOnly(kind);
  }

  /** Every leaf kind has no child. */
  lemma LeafKinds(kind: NodeKind)
    ensures IsLeafKind(kind) ==> GetNodeType(kind) == NoChild
  {
    KindsByLayout(kind);
  }

  /** Every one-operand kind has a single child. */
  lemma SingleChildKinds(kind: NodeKind)
    ensures IsUnaryKind(kind) ==> GetNodeType(kind) == SingleChild
  {
    KindsByLayout(kind);
  }

  /** Every binary or two-part kind has two children. */
  lemma BinaryKinds(kind: NodeKind)
    ensures IsBinaryKind(kind) ==> GetNodeType(kind) == DoubleChildren
  {
    KindsByLayout(kind);
  }

  /** Declarations, `if`, `while` and the guarded and bound patterns have three children. */
  lemma TripleKinds(kind: NodeKind)
    ensures IsTripleKind(kind) ==> GetNodeType(kind) == TripleChildren
  {
    KindsByLayout(kind);
  }

  /** `for` has four children. */
  lemma QuadrupleKinds(kind: NodeKind)
    ensures IsQuadrupleKind(kind) ==> GetNodeType(kind) == QuadrupleChildren
  {
    KindsByLayout(kind);
  }

  /** Every list kind is one list of children. */
  lemma ListKinds(kind: NodeKind)
    ensures IsListKind(kind) ==> GetNodeType(kind) == MultiChildren
  {
    KindsByLayout(kind);
  }

  /** Every call is a callee followed by a list. */
  lemma CallKinds(kind: NodeKind)
    ensures IsCallKind(kind) ==> GetNodeType(kind) == SingleWithMultiChildren
  {
    KindsByLayout(kind);
  }

  /** A function definition has the function layout. */
  lemma FunctionDefKinds(kind: NodeKind)
    ensures IsFunctionDefKind(kind) ==> GetNodeType(kind) == FunctionDefChildren
  {
    KindsByLayout(kind);
  }

  /** Type and module definitions have the type layout. */
  lemma TypeDefKinds(kind: NodeKind)
    ensures IsTypeDefKind(kind) ==> GetNodeType(kind) == TypeDefChildren
  {
    KindsByLayout(kind);
  }

  /** Aliases and new types have the alias layout. */
  lemma TypeAliasKinds(kind: NodeKind)
    ensures IsTypeAliasKind(kind) ==> GetNodeType(kind) == TypeAliasChildren
  {
    KindsByLayout(kind);
  }

  /** The layout of every kind, in both directions. */
  lemma LayoutOfKind(kind: NodeKind)
    ensures GetNodeType(kind) == NoChild <==> IsLeafKind(kind)
    ensures GetNodeType(kind) == SingleChild <==> IsUnaryKind(kind)
    ensures GetNodeType(kind) == DoubleChildren <==> IsBinaryKind(kind)
    ensures GetNodeType(kind) == TripleChildren <==> IsTripleKind(kind)
    ensures GetNodeType(kind) == QuadrupleChildren <==> IsQuadrupleKind(kind)
    ensures GetNodeType(kind) == MultiChildren <==> IsListKind(kind)
    ensures GetNodeType(kind) == SingleWithMultiChildren <==> IsCallKind(kind)
    ensures GetNodeType(kind) == FunctionDefChildren <==> IsFunctionDefKind(kind)
    ensures GetNodeType(kind) == TypeDefChildren <==> IsTypeDefKind(kind)
    ensures GetNodeType(kind) == TypeAliasChildren <==> IsTypeAliasKind(kind)
  {
    KindsByLayout(kind);
    LeafKinds(kind);
    SingleChildKinds(kind);
    BinaryKinds(kind);
    TripleKinds(kind);
    QuadrupleKinds(kind);
    ListKinds(kind);
    CallKinds(kind);
    FunctionDefKinds(kind);
    TypeDefKinds(kind);
    TypeAliasKinds(kind);
  }

  // ---------------------------------------------------------------------
  // Children as handed to the builder
  // ---------------------------------------------------------------------

  /** One child entry of a builder: a node index, or a list of them. */
  datatype Child = Single(index: nat) | Multiple(indices: seq<nat>)

  /** Collects the children of a node before it is added to the arena. */
  class NodeBuilder {
    var kind: NodeKind
    var span: Span
    var children: seq<Child>

    constructor (kind: NodeKind, span: Span)
      ensures this.kind == kind && this.span == span && children == []
    {
      this.kind := kind;
      this.span := span;
      children := [];
    }

    /** `add_single_child`. */
    method AddSingleChild(child: nat)
      modifies this
      ensures children == old(children) + [Single(child)]
      ensures kind == old(kind) && span == old(span)
    {
      children := children + [Single(child)];
    }

    /** `add_multiple_children`. */
    method AddMultipleChildren(indices: seq<nat>)
      modifies this
      ensures children == old(children) + [Multiple(indices)]
      ensures kind == old(kind) && span == old(span)
    {
      children := children + [Multiple(indices)];
    }

    /** `with_span`. */
    method WithSpan(span: Span)
      modifies this
      ensures this.span == span && kind == old(kind) && children == old(children)
    {
      this.span := span;
    }

    /** `with_children`: replaces the whole child list. */
    method WithChildren(children: seq<Child>)
      modifies this
      ensures this.children == children && kind == old(kind) && span == old(span)
    {
      this.children := children;
    }

    /** `with_node_kind`. */
    method WithNodeKind(kind: NodeKind)
      modifies this
      ensures this.kind == kind && span == old(span) && children == old(children)
    {
      this.kind := kind;
    }
  }

  // ---------------------------------------------------------------------
  // The flattened child encoding
  // ---------------------------------------------------------------------

  /**
   * How `add_node` lays out a child list whose list blocks start at offset
   * `base` of the flattened sequence: the blocks `[count, index, ...]` of the
   * list children in order, and one slot per child (the index itself, or the
   * offset of its block).
   */
  function Encode(cs: seq<Child>, base: nat): (r: (seq<nat>, seq<nat>))
    ensures |r.1| == |cs|
  {
    if cs == [] then ([], [])
    else
      var (blocks, slots) := Encode(cs[..|cs| - 1], base);
      match cs[|cs| - 1]
      case Single(x) => (blocks, slots + [x])
      case Multiple(xs) => (blocks + [|xs|] + xs, slots + [base + |blocks|])
  }

  /** `get_multi_child_slice`: the list stored in the block at offset `r`. */
  function MultiSlice(children: seq<nat>, r: nat): (res: Option<seq<nat>>)
    ensures res.Some? <==> 0 < r < |children| && r + 1 + children[r] <= |children|
    ensures res.Some? ==>
      |res.value| == children[r] && forall k :: 0 <= k < |res.value| ==> res.value[k] == children[r + 1 + k]
  {
    if r == 0 || r >= |children| then None
    else
      var count := children[r];
      if r + 1 + count > |children| then None
      else Some(children[r + 1..r + 1 + count])
  }

  /** What a slot means: the child index itself, or a pointer to its list. */
  predicate SlotDenotes(children: seq<nat>, slot: nat, c: Child) {
    match c
    case Single(x) => slot == x
    case Multiple(xs) => MultiSlice(children, slot) == Some(xs)
  }

  /**
   * The encoding reads back: placed after a non-empty prefix, whatever follows
   * the blocks, every slot denotes its child.
   */
  lemma {:induction false} EncodeRoundTrip(prefix: seq<nat>, cs: seq<Child>, tail: seq<nat>)
    requires |prefix| >= 1
    ensures forall k :: 0 <= k < |cs| ==>
      SlotDenotes(prefix + Encode(cs, |prefix|).0 + tail, Encode(cs, |prefix|).1[k], cs[k])
    decreases |cs|
  {
    if cs != [] {
      var init := cs[..|cs| - 1];
      var (blocks0, slots0) := Encode(init, |prefix|);
      var (blocks, slots) := Encode(cs, |prefix|);
      var ext := blocks[|blocks0|..];
      assert blocks == blocks0 + ext;
      EncodeRoundTrip(prefix, init, ext + tail);
      var whole := prefix + blocks + tail;
      assert whole == prefix + blocks0 + (ext + tail);
      var last := cs[|cs| - 1];
      match last {
        case Single(x) =>
          assert slots == slots0 + [x];
        case Multiple(xs) =>
          assert blocks == blocks0 + [|xs|] + xs && slots == slots0 + [|prefix| + |blocks0|];
          assert whole == (prefix + blocks0) + [|xs|] + xs + tail;
          BlockReadsBack(prefix + blocks0, xs, tail);
      }
      assert SlotDenotes(whole, slots[|cs| - 1], last);
      forall k | 0 <= k < |init|
        ensures SlotDenotes(whole, slots[k], cs[k])
      {
        assert cs[k] == init[k] && slots[k] == slots0[k];
      }
    }
  }

  /** A block `[count, index, ...]` placed after a non-empty front reads back as its list. */
  lemma BlockReadsBack(front: seq<nat>, xs: seq<nat>, tail: seq<nat>)
    requires |front| >= 1
    ensures MultiSlice(front + [|xs|] + xs + tail, |front|) == Some(xs)
  {
    var whole := front + [|xs|] + xs + tail;
    var r := |front|;
    assert whole[r] == |xs|;
    assert whole[r + 1..r + 1 + |xs|] == xs;
  }

  /** Appending to the flattened sequence leaves every existing list block readable as before. */
  lemma MultiSliceStable(children: seq<nat>, more: seq<nat>, r: nat)
    requires MultiSlice(children, r).Some?
    ensures MultiSlice(children + more, r) == MultiSlice(children, r)
  {
    var count := children[r];
    assert (children + more)[r + 1..r + 1 + count] == children[r + 1..r + 1 + count];
  }

  /**
   * The loop of `add_node` over the builder's children: each list child's
   * block `[count, index, ...]` is appended to the flattened sequence and its
   * offset recorded as the slot, each single child is its own slot.
   */
  method LayOutChildren(cs: seq<Child>, children: seq<nat>) returns (grown: seq<nat>, childIndices: seq<nat>)
    requires |children| >= 1
    ensures grown == children + Encode(cs, |children|).0 && childIndices == Encode(cs, |children|).1
    ensures |childIndices| == |cs|
  {
    grown := children;
    childIndices := [];
    var i := 0;
    while i < |cs|
      invariant 0 <= i <= |cs|
      invariant grown == children + Encode(cs[..i], |children|).0
      invariant childIndices == Encode(cs[..i], |children|).1
    {
      assert cs[..i + 1][..i] == cs[..i];
      match cs[i] {
        case Single(x) =>
          childIndices := childIndices + [x];
        case Multiple(xs) =>
          var lenIndex := |grown|;
          grown := grown + [|xs|];
          var j := 0;
          while j < |xs|
            invariant 0 <= j <= |xs|
            invariant grown == children + Encode(cs[..i], |children|).0 + [|xs|] + xs[..j]
          {
            assert xs[..j + 1] == xs[..j] + [xs[j]];
            grown := grown + [xs[j]];
            j := j + 1;
          }
          assert xs[..|xs|] == xs;
          childIndices := childIndices + [lenIndex];
      }
      i := i + 1;
    }
    assert cs[..|cs|] == cs;
  }

  /** `get_children` as written: a node's slots run up to the next node's start. */
  function ChildrenViewAsWritten(childrenStart: seq<nat>, children: seq<nat>, idx: nat, nodeCount: nat): (r: seq<nat>)
    requires forall k :: 0 <= k < |childrenStart| ==> childrenStart[k] <= |children|
    requires forall k :: 0 <= k < |childrenStart| - 1 ==> childrenStart[k] <= childrenStart[k + 1]
  {
    if idx == 0 || idx >= nodeCount || idx >= |childrenStart| then []
    else
      var start := childrenStart[idx];
      var end := if idx + 1 < |childrenStart| then childrenStart[idx + 1] else |children|;
      children[start..end]
  }

  // ---------------------------------------------------------------------
  // The arena
  // ---------------------------------------------------------------------

  /** A node as `get_node` returns it. */
  datatype NodeInfo = NodeInfo(kind: NodeKind, span: Span, children: seq<nat>)

  /**
   * How the runs of slots of `n` nodes sit in a flattened sequence of length
   * `total`: each run lies inside it, each starts after the previous one
   * ends, and the last node's run reaches the end.
   */
  ghost predicate WellLaid(n: nat, starts: seq<nat>, ends: seq<nat>, total: nat) {
    && |starts| == n && |ends| == n
    && (forall k :: 0 <= k < n ==> starts[k] <= ends[k] <= total)
    && (forall k :: 0 <= k < n - 1 ==> ends[k] <= starts[k + 1])
    && (n > 1 ==> ends[n - 1] == total)
  }

  /** Appending a node whose run starts at or after the old end keeps the layout. */
  lemma AppendKeepsLaid(n: nat, starts: seq<nat>, ends: seq<nat>, total: nat, newStart: nat, newTotal: nat)
    requires WellLaid(n, starts, ends, total)
    requires total <= newStart <= newTotal
    ensures WellLaid(n + 1, starts + [newStart], ends + [newTotal], newTotal)
  {
    var s := starts + [newStart];
    var e := ends + [newTotal];
    forall k | 0 <= k < n
      ensures e[k] <= s[k + 1]
    {
      if k < n - 1 {
        assert e[k] == ends[k] && s[k + 1] == starts[k + 1];
      }
    }
  }

  /** The slots of node `j` under a layout, empty for the placeholder or an unknown index. */
  function SlotsOf(starts: seq<nat>, ends: seq<nat>, children: seq<nat>, j: nat): (r: seq<nat>)
    requires WellLaid(|starts|, starts, ends, |children|)
    ensures j == 0 || j >= |starts| ==> r == []
    ensures 0 < j < |starts| ==> |r| == ends[j] - starts[j]
  {
    if j == 0 || j >= |starts| then [] else children[starts[j]..ends[j]]
  }

  /**
   * Adding a node changes no existing node's slots: the runs of the earlier
   * nodes lie inside the old flattened sequence, which is only extended.
   */
  lemma SlotsStable(starts: seq<nat>, ends: seq<nat>, children: seq<nat>, more: seq<nat>, newStart: nat, j: nat)
    requires WellLaid(|starts|, starts, ends, |children|)
    requires |children| <= newStart <= |children| + |more|
    requires j < |starts|
    ensures WellLaid(|starts| + 1, starts + [newStart], ends + [|children + more|], |children + more|)
    ensures SlotsOf(starts + [newStart], ends + [|children + more|], children + more, j)
      == SlotsOf(starts, ends, children, j)
  {
    AppendKeepsLaid(|starts|, starts, ends, |children|, newStart, |children + more|);
    if j > 0 {
      assert (children + more)[starts[j]..ends[j]] == children[starts[j]..ends[j]];
    }
  }

  class Ast {
    var nodes: seq<NodeKind>
    var spans: seq<Span>
    var childrenStart: seq<nat>
    /**
     * Where each node's slots end. The source keeps no such field: it is
     * state of the model only, recorded so that `GetChildren` answers exactly
     * the slots `AddNode` laid out for the node.
     */
    var childrenEnd: seq<nat>
    var children: seq<nat>
    var root: nat

    /**
     * The parallel sequences agree in length, index 0 is the placeholder
     * node, the flattened sequence keeps its placeholder slot 0, and the
     * runs of slots are laid out one after the other inside it.
     */
    ghost predicate Valid()
      reads this
    {
      && |nodes| >= 1 && |spans| == |nodes|
      && nodes[0] == Invalid
      && |children| >= 1
      && WellLaid(|nodes|, childrenStart, childrenEnd, |children|)
    }

    /** `Ast()`: only the placeholder node, with the placeholder child 0 and no root. */
    constructor ()
      ensures Valid()
      ensures nodes == [Invalid] && spans == [EmptySpan] && childrenStart == [0]
      ensures childrenEnd == [0] && children == [0] && root == 0
    {
      nodes := [Invalid];
      spans := [EmptySpan];
      childrenStart := [0];
      childrenEnd := [0];
      children := [0];
      root := 0;
    }

    /**
     * `add_node`: first the list blocks of the builder's list children are
     * appended, then one slot per child; the node gets the next index, its
     * slots denote the builder's children, and no earlier node changes.
     */
    method AddNode(builder: NodeBuilder) returns (nodeIndex: nat)
      requires Valid()
      modifies this
      ensures Valid()
      ensures nodeIndex == |old(nodes)| && nodeIndex > 0
      ensures var (blocks, slots) := Encode(builder.children, |old(children)|);
        && children == old(children) + blocks + slots
        && childrenStart == old(childrenStart) + [|old(children)| + |blocks|]
        && childrenEnd == old(childrenEnd) + [|children|]
      ensures nodes == old(nodes) + [builder.kind] && spans == old(spans) + [builder.span]
      ensures root == old(root)
      ensures GetChildren(nodeIndex) == Encode(builder.children, |old(children)|).1
      ensures forall j :: 0 <= j < nodeIndex ==> GetChildren(j) == old(GetChildren(j))
    {
      var grown, childIndices := LayOutChildren(builder.children, children);
      var newChildren := grown + childIndices;
      var newStarts := childrenStart + [|grown|];
      var newEnds := childrenEnd + [|newChildren|];
      ghost var more := newChildren[|children|..];
      assert newChildren == children + more;
      forall j | 0 <= j < |nodes|
        ensures SlotsOf(newStarts, newEnds, newChildren, j) == SlotsOf(childrenStart, childrenEnd, children, j)
      {
        SlotsStable(childrenStart, childrenEnd, children, more, |grown|, j);
      }
      assert newChildren[|grown|..|newChildren|] == childIndices;
      nodeIndex := |nodes|;
      nodes, spans := nodes + [builder.kind], spans + [builder.span];
      children, childrenStart, childrenEnd := newChildren, newStarts, newEnds;
    }

    /** `get_children`: the slots of a node, empty for the placeholder or an unknown index. */
    function GetChildren(nodeIndex: nat): (r: seq<nat>)
      reads this
      requires Valid()
      ensures nodeIndex == 0 || nodeIndex >= |nodes| ==> r == []
      ensures 0 < nodeIndex < |nodes| ==> |r| == childrenEnd[nodeIndex] - childrenStart[nodeIndex]
    {
      SlotsOf(childrenStart, childrenEnd, children, nodeIndex)
    }

    /** `get_children` as written, which bounds a node's slots by the next node's start. */
    function GetChildrenAsWritten(nodeIndex: nat): (r: seq<nat>)
      reads this
      requires Valid()
      ensures nodeIndex == 0 || nodeIndex >= |nodes| ==> r == []
      ensures 0 < nodeIndex == |nodes| - 1 ==> r == GetChildren(nodeIndex)
      ensures 0 < nodeIndex < |nodes| - 1 ==>
        (r == GetChildren(nodeIndex) <==> childrenStart[nodeIndex + 1] == childrenEnd[nodeIndex])
    {
      ChildrenViewAsWritten(childrenStart, children, nodeIndex, |nodes|)
    }

    /** `get_node_kind`. */
    function GetNodeKind(nodeIndex: nat): (r: Option<NodeKind>)
      reads this
      requires Valid()
      ensures r.Some? <==> 0 < nodeIndex < |nodes|
      ensures r.Some? ==> r.value == nodes[nodeIndex]
    {
      if nodeIndex == 0 || nodeIndex >= |nodes| then None else Some(nodes[nodeIndex])
    }

    /** `get_span`. */
    function GetSpan(nodeIndex: nat): (r: Option<Span>)
      reads this
      requires Valid()
      ensures r.Some? <==> 0 < nodeIndex < |nodes|
      ensures r.Some? ==> r.value == spans[nodeIndex]
    {
      if nodeIndex == 0 || nodeIndex >= |nodes| then None else Some(spans[nodeIndex])
    }

    /** `get_node`: kind, span and slots together, agreeing with the three single getters. */
    function GetNode(nodeIndex: nat): (r: Option<NodeInfo>)
      reads this
      requires Valid()
      ensures r.Some? <==> GetNodeKind(nodeIndex).Some?
      ensures r.Some? ==>
        GetNodeKind(nodeIndex) == Some(r.value.kind) && GetSpan(nodeIndex) == Some(r.value.span) &&
        r.value.children == GetChildren(nodeIndex)
    {
      if nodeIndex == 0 || nodeIndex >= |nodes| then None
      else Some(NodeInfo(nodes[nodeIndex], spans[nodeIndex], GetChildren(nodeIndex)))
    }

    /** `get_multi_child_slice`. */
    function GetMultiChildSlice(sliceLenIndex: nat): (r: Option<seq<nat>>)
      reads this
      ensures r == MultiSlice(children, sliceLenIndex)
    {
      MultiSlice(children, sliceLenIndex)
    }

    /** `set_root`. */
    method SetRoot(rootIndex: nat)
      modifies this
      ensures root == rootIndex
      ensures nodes == old(nodes) && spans == old(spans) && childrenStart == old(childrenStart)
      ensures childrenEnd == old(childrenEnd) && children == old(children)
    {
      root := rootIndex;
    }
  }

  /**
   * The arena of the parameter-list example: two parameters (nodes 1 and 2),
   * a name (node 3), then a function node 4 with the name and the parameter
   * list. Laying out node 4 stores the block `[2, 1, 2]` at offset 1 and the
   * slots `[3, 1]` after it. The name node has no slots, but the as-written
   * view of it runs from its start up to node 4's start and so returns the
   * parameter list's block.
   */
  lemma ParameterListCounterexample()
    ensures Encode([Single(3), Multiple([1, 2])], 1) == ([2, 1, 2], [3, 1])
    ensures ChildrenViewAsWritten([0, 1, 1, 1, 4], [0, 2, 1, 2, 3, 1], 3, 5) == [2, 1, 2]
    ensures SlotsOf([0, 1, 1, 1, 4], [0, 1, 1, 1, 6], [0, 2, 1, 2, 3, 1], 3) == []
    ensures MultiSlice([0, 2, 1, 2, 3, 1], 1) == Some([1, 2])
  {
    var one := [Single(3)];
    assert one[..0] == [] && one[0] == Single(3);
    var e := Encode(one, 1);
    assert e.0 == [] && e.1 == [3];
    var cs := [Single(3), Multiple([1, 2])];
    assert cs[..1] == one && cs[1] == Multiple([1, 2]);
    var e2 := Encode(cs, 1);
    assert e2.0 == [] + [2] + [1, 2] && e2.1 == [3] + [1];
    assert e2.0 == [2, 1, 2];
    assert e2.1 == [3, 1];
    assert [0, 2, 1, 2, 3, 1][1..4] == [2, 1, 2];
    assert [0, 2, 1, 2, 3, 1][2..4] == [1, 2];
  }

  /** The first three nodes of the example: two parameters and a name, all leaves. */
  method LeafArena() returns (ast: Ast)
    ensures fresh(ast) && ast.Valid()
    ensures ast.nodes == [Invalid, Id, Id, Id] && ast.children == [0]
    ensures ast.childrenStart == [0, 1, 1, 1] && ast.childrenEnd == [0, 1, 1, 1]
  {
    ast := new Ast();
    var p1 := AddLeaf(ast, Id, Span(10, 11));
    var p2 := AddLeaf(ast, Id, Span(13, 14));
    var name := AddLeaf(ast, Id, Span(5, 8));
  }

  /** Adding a node without children: no child slot is laid out, and the node's range is empty. */
  method AddLeaf(ast: Ast, kind: NodeKind, span: Span) returns (nodeIndex: nat)
    requires ast.Valid()
    modifies ast
    ensures ast.Valid() && nodeIndex == |old(ast.nodes)|
    ensures ast.nodes == old(ast.nodes) + [kind] && ast.children == old(ast.children)
    ensures ast.childrenStart == old(ast.childrenStart) + [|ast.children|]
    ensures ast.childrenEnd == old(ast.childrenEnd) + [|ast.children|]
  {
    var b := new NodeBuilder(kind, span);
    assert Encode(b.children, |ast.children|) == ([], []);
    nodeIndex := ast.AddNode(b);
  }

  /** The builder of the example's function node: the name node, then the parameter list. */
  method FunctionBuilder() returns (b: NodeBuilder)
    ensures fresh(b) && b.kind == FunctionDef && b.children == [Single(3), Multiple([1, 2])]
  {
    b := new NodeBuilder(FunctionDef, Span(0, 20));
    b.AddSingleChild(3);
    b.AddMultipleChildren([1, 2]);
  }

  /**
   * The same example built through the arena's own operations: the
   * as-written view of the name node returns `[2, 1, 2]`, the corrected one
   * nothing, and the function's second slot reads back the parameter list.
   */
  method ParameterListArena() returns (asWritten: seq<nat>, corrected: seq<nat>, params: Option<seq<nat>>)
    ensures asWritten == [2, 1, 2]
    ensures corrected == []
    ensures params == Some([1, 2])
  {
    var ast := LeafArena();
    var func := FunctionBuilder();
    ParameterListCounterexample();
    var f := ast.AddNode(func);
    assert ast.children == [0, 2, 1, 2, 3, 1];
    assert ast.childrenStart == [0, 1, 1, 1, 4] && ast.childrenEnd == [0, 1, 1, 1, 6];
    asWritten := ast.GetChildrenAsWritten(3);
    corrected := ast.GetChildren(3);
    var slots := ast.GetChildren(f);
    params := ast.GetMultiChildSlice(slots[1]);
  }
}
