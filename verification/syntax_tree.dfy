/** The slice of the two-layer syntax tree that the generated `XMLAttributeValue` node uses.

    Internal nodes (`STNode`) are immutable values without position or parent. External nodes
    (`Node`) are objects that wrap one internal node with an absolute position and a parent, and
    that materialize their children lazily, one bucket per child slot. A bucket, once filled,
    keeps its child object, so asking twice for the same slot yields the same object; that is
    what makes the reference-equality test in `Modify` meaningful. */
module SyntaxTree {

  /** The kinds this slice needs out of the node-kind catalog. */
  datatype SyntaxKind =
    | XmlAttributeValue
    | ListKind
    | DoubleQuoteToken
    | SingleQuoteToken
    | XmlTextContent
    | OtherKind(name: string)

  /** An internal node: a token with its full text (trivia included), or a non-terminal with
      its children in source order. */
  datatype STNode =
    | STToken(kind: SyntaxKind, text: string)
    | STNonTerminal(kind: SyntaxKind, children: seq<STNode>)

  /** The number of source characters the node spans. */
  function Width(n: STNode): nat
    decreases n, 1
  {
    match n
    case STToken(_, text) => |text|
    case STNonTerminal(_, children) => SumWidths(children)
  }

  function SumWidths(nodes: seq<STNode>): nat
    decreases nodes, 0
  {
    if |nodes| == 0 then 0
    else SumWidths(nodes[..|nodes| - 1]) + Width(nodes[|nodes| - 1])
  }

  /** The number of child buckets: one per child of a non-terminal, none for a token. */
  function BucketCount(n: STNode): nat {
    if n.STNonTerminal? then |n.children| else 0
  }

  /** The offset of child `bucket` relative to the start of its parent: the widths of the
      preceding siblings. */
  function ChildOffset(n: STNode, bucket: nat): nat
    requires bucket <= BucketCount(n)
  {
    if n.STNonTerminal? then SumWidths(n.children[..bucket]) else 0
  }

  /** A child starts where the previous sibling ends, and the last child ends where the
      parent ends: the children tile the parent's span. */
  lemma {:induction false} ChildSpansTileParent(n: STNode, bucket: nat)
    requires bucket < BucketCount(n)
    ensures ChildOffset(n, bucket) + Width(n.children[bucket]) == ChildOffset(n, bucket + 1)
    ensures ChildOffset(n, bucket + 1) <= Width(n)
  {
    var cs := n.children;
    assert cs[..bucket + 1][..bucket] == cs[..bucket];
    SumWidthsPrefix(cs, bucket + 1);
  }

  /** A prefix of a child list is no wider than the whole list. */
  lemma {:induction false} SumWidthsPrefix(nodes: seq<STNode>, k: nat)
    requires k <= |nodes|
    ensures SumWidths(nodes[..k]) <= SumWidths(nodes)
    decreases |nodes|
  {
    if k < |nodes| {
      var prefix := nodes[..|nodes| - 1];
      assert nodes[..k] == prefix[..k];
      SumWidthsPrefix(prefix, k);
    } else {
      assert nodes[..k] == nodes;
    }
  }

  /** Slot layout of an XML attribute value. */
  const StartQuoteSlot: nat := 0
  const ValueSlot: nat := 1
  const EndQuoteSlot: nat := 2

  /** `childNames()`: the slot names, each at the index its accessor reads. */
  function XmlAttributeValueChildNames(): (names: seq<string>)
    ensures |names| == 3
    ensures names[StartQuoteSlot] == "startQuote"
    ensures names[ValueSlot] == "value"
    ensures names[EndQuoteSlot] == "endQuote"
  {
    ["startQuote", "value", "endQuote"]
  }

  /** The internal factory for an XML attribute value: one child per slot, in slot order. */
  function CreateSTXmlAttributeValue(startQuote: STNode, value: STNode, endQuote: STNode): (n: STNode)
    ensures IsXmlAttributeValueNode(n)
    ensures n.children[StartQuoteSlot] == startQuote
    ensures n.children[ValueSlot] == value
    ensures n.children[EndQuoteSlot] == endQuote
    ensures Width(n) == Width(startQuote) + Width(value) + Width(endQuote)
  {
    var n := STNonTerminal(XmlAttributeValue, [startQuote, value, endQuote]);
    assert n.children[..2] == [startQuote, value];
    assert [startQuote, value][..1] == [startQuote];
    assert [startQuote][..0] == [];
    assert SumWidths([startQuote]) == Width(startQuote);
    assert SumWidths([startQuote, value]) == Width(startQuote) + Width(value);
    n
  }

  /** The shape the generated accessors rely on: the attribute-value kind with three slots. */
  predicate IsXmlAttributeValueNode(n: STNode) {
    n.STNonTerminal? && n.kind == XmlAttributeValue && |n.children| == 3
  }

  /** Handlers of a transformer: one per node kind of this slice, plus a default. */
  datatype NodeTransformer<T> = NodeTransformer(
    transformXmlAttributeValue: Node -> T,
    transformToken: Node -> T,
    transformNode: Node -> T)

  /** Handlers of a visitor; a visit's side effect is modelled as a change of the visitor's
      state `S`. */
  datatype NodeVisitor<!S> = NodeVisitor(
    visitXmlAttributeValue: (Node, S) -> S,
    visitToken: (Node, S) -> S,
    visitNode: (Node, S) -> S)

  /** `NodeList`: a read-only view over the children of an underlying list node. Each call of
      the `value()` accessor wraps the same underlying node in a new view. */
  class NodeList {
    const underlyingListNode: Node

    constructor (underlyingListNode: Node)
      ensures this.underlyingListNode == underlyingListNode
    {
      this.underlyingListNode := underlyingListNode;
    }

    /** The number of elements in the list. */
    function Size(): nat {
      BucketCount(underlyingListNode.internalNode)
    }
  }

  /** An external node: an internal node placed at an absolute position under a parent. */
  class Node {
    const internalNode: STNode
    const position: int
    const parent: Node?
    /** The child objects materialized so far, one bucket per slot; `null` until first asked for. */
    var childBuckets: seq<Node?>

    /** Wraps an internal node; the internal node, position and parent are kept as given and
        no child is materialized yet. */
    constructor (internalNode: STNode, position: int, parent: Node?)
      ensures this.internalNode == internalNode
      ensures this.position == position
      ensures this.parent == parent
      ensures Valid()
      ensures forall i :: 0 <= i < |childBuckets| ==> childBuckets[i] == null
    {
      this.internalNode := internalNode;
      this.position := position;
      this.parent := parent;
      childBuckets := seq(BucketCount(internalNode), _ => null);
    }

    /** `child` is the external node for slot `bucket`: it wraps that slot's internal node,
        starts after the preceding siblings and has this node as its parent. */
    predicate IsChildInBucket(child: Node, bucket: nat)
      requires bucket < BucketCount(internalNode)
    {
      && child.internalNode == internalNode.children[bucket]
      && child.position == position + ChildOffset(internalNode, bucket)
      && child.parent == this
    }

    /** Every materialized bucket holds this node's child for that slot. */
    ghost predicate Valid()
      reads this
    {
      && |childBuckets| == BucketCount(internalNode)
      && forall i :: 0 <= i < |childBuckets| && childBuckets[i] != null ==> IsChildInBucket(childBuckets[i], i)
    }

    /** `childInBucket`: the child of slot `bucket`, materialized on first use and the same
        object on every later use; no other bucket changes. */
    method ChildInBucket(bucket: nat) returns (child: Node)
      requires Valid() && bucket < |childBuckets|
      modifies this
      ensures Valid()
      ensures IsChildInBucket(child, bucket)
      ensures old(childBuckets[bucket]) != null ==> child == old(childBuckets[bucket])
      ensures childBuckets == old(childBuckets)[bucket := child]
    {
      var cached := childBuckets[bucket];
      if cached != null {
        child := cached;
      } else {
        child := new Node(internalNode.children[bucket], position + ChildOffset(internalNode, bucket), this);
        childBuckets := childBuckets[bucket := child];
      }
    }

    /** `checkForReferenceEquality`: every supplied node is the very object in the bucket of the
        same index (an unmaterialized bucket matches nothing). */
    predicate CheckForReferenceEquality(children: seq<Node>): (same: bool)
      reads this
      requires |children| <= |childBuckets|
      ensures same ==> forall i :: 0 <= i < |children| ==> childBuckets[i] != null
      ensures same && Valid() ==> forall i :: 0 <= i < |children| ==> IsChildInBucket(children[i], i)
      ensures !same ==> exists i :: 0 <= i < |children| && childBuckets[i] != children[i]
    {
      forall i :: 0 <= i < |children| ==> childBuckets[i] == children[i]
    }

    /** This node has the attribute-value layout, so the typed accessors below apply. */
    predicate IsXmlAttributeValue() {
      IsXmlAttributeValueNode(internalNode)
    }

    /** `startQuote()`: slot 0. */
    method StartQuote() returns (startQuote: Node)
      requires Valid() && IsXmlAttributeValue()
      modifies this
      ensures Valid()
      ensures IsChildInBucket(startQuote, StartQuoteSlot)
      ensures childBuckets == old(childBuckets)[StartQuoteSlot := startQuote]
      ensures old(childBuckets[StartQuoteSlot]) != null ==> startQuote == old(childBuckets[StartQuoteSlot])
    {
      startQuote := ChildInBucket(StartQuoteSlot);
    }

    /** `value()`: slot 1, wrapped in a new `NodeList` view. */
    method Value() returns (value: NodeList)
      requires Valid() && IsXmlAttributeValue()
      modifies this
      ensures Valid()
      ensures fresh(value)
      ensures IsChildInBucket(value.underlyingListNode, ValueSlot)
      ensures childBuckets == old(childBuckets)[ValueSlot := value.underlyingListNode]
      ensures old(childBuckets[ValueSlot]) != null ==> value.underlyingListNode == old(childBuckets[ValueSlot])
    {
      var listNode := ChildInBucket(ValueSlot);
      value := new NodeList(listNode);
    }

    /** `endQuote()`: slot 2. */
    method EndQuote() returns (endQuote: Node)
      requires Valid() && IsXmlAttributeValue()
      modifies this
      ensures Valid()
      ensures IsChildInBucket(endQuote, EndQuoteSlot)
      ensures childBuckets == old(childBuckets)[EndQuoteSlot := endQuote]
      ensures old(childBuckets[EndQuoteSlot]) != null ==> endQuote == old(childBuckets[EndQuoteSlot])
    {
      endQuote := ChildInBucket(EndQuoteSlot);
    }

    /** `apply(transformer)`: double dispatch on the node's kind; an attribute value answers
        exactly what the transformer's attribute-value handler answers for it. */
    function Apply<T>(transformer: NodeTransformer<T>): (r: T)
      ensures IsXmlAttributeValue() ==> r == transformer.transformXmlAttributeValue(this)
      ensures internalNode.STToken? ==> r == transformer.transformToken(this)
    {
      match internalNode
      case STToken(_, _) => transformer.transformToken(this)
      case STNonTerminal(kind, _) =>
        if kind == XmlAttributeValue then transformer.transformXmlAttributeValue(this)
        else transformer.transformNode(this)
    }

    /** `accept(visitor)`: double dispatch on the node's kind; an attribute value triggers
        exactly the visitor's attribute-value handler on itself. */
    function Accept<S>(visitor: NodeVisitor<S>, state: S): (r: S)
      ensures IsXmlAttributeValue() ==> r == visitor.visitXmlAttributeValue(this, state)
      ensures internalNode.STToken? ==> r == visitor.visitToken(this, state)
    {
      match internalNode
      case STToken(_, _) => visitor.visitToken(this, state)
      case STNonTerminal(kind, _) =>
        if kind == XmlAttributeValue then visitor.visitXmlAttributeValue(this, state)
        else visitor.visitNode(this, state)
    }

    /** `modify`: when the start quote, the list's underlying node (not its `NodeList` view) and
        the end quote are the very objects in this node's buckets, the answer is this node
        itself; otherwise it is a new node built by the factory from exactly the supplied
        slots. The receiver is not changed either way (no `modifies` clause). */
    method Modify(startQuote: Node, value: NodeList, endQuote: Node) returns (r: Node)
      requires Valid() && IsXmlAttributeValue()
      ensures CheckForReferenceEquality([startQuote, value.underlyingListNode, endQuote]) ==> r == this
      ensures !CheckForReferenceEquality([startQuote, value.underlyingListNode, endQuote]) ==>
                && fresh(r)
                && r.Valid()
                && r.IsXmlAttributeValue()
                && r.internalNode.children[StartQuoteSlot] == startQuote.internalNode
                && r.internalNode.children[ValueSlot] == value.underlyingListNode.internalNode
                && r.internalNode.children[EndQuoteSlot] == endQuote.internalNode
    {
      if CheckForReferenceEquality([startQuote, value.underlyingListNode, endQuote]) {
        return this;
      }
      r := CreateXmlAttributeValue(startQuote, value, endQuote);
    }
  }

  /** `NodeFactory.createXMLAttributeValue`: a new attribute-value node, not attached to any
      parent, whose slots hold the internal nodes of the supplied children. */
  method CreateXmlAttributeValue(startQuote: Node, value: NodeList, endQuote: Node) returns (r: Node)
    ensures fresh(r)
    ensures r.Valid() && r.parent == null && r.position == 0
    ensures r.internalNode ==
              CreateSTXmlAttributeValue(startQuote.internalNode, value.underlyingListNode.internalNode, endQuote.internalNode)
  {
    var internal := CreateSTXmlAttributeValue(startQuote.internalNode, value.underlyingListNode.internalNode, endQuote.internalNode);
    r := new Node(internal, 0, null);
  }

  /** Passing a node's own children back to `modify` returns the node itself, although
      `value()` hands out a new `NodeList` view on every call. */
  method ModifyWithOwnChildrenIsIdentity(node: Node) returns (r: Node)
    requires node.Valid() && node.IsXmlAttributeValue()
    modifies node
    ensures r == node
  {
    var startQuote := node.StartQuote();
    var value := node.Value();
    var endQuote := node.EndQuote();
    r := node.Modify(startQuote, value, endQuote);
  }

  /** Replacing only the content list yields a new node that shares the quote tokens' internal
      nodes with the original and leaves the original untouched. */
  method ReplaceValueSharesQuotes(node: Node, content: STNode) returns (r: Node)
    requires node.Valid() && node.IsXmlAttributeValue()
    modifies node
    ensures r != node && r.IsXmlAttributeValue()
    ensures r.internalNode.children[StartQuoteSlot] == node.internalNode.children[StartQuoteSlot]
    ensures r.internalNode.children[ValueSlot] == content
    ensures r.internalNode.children[EndQuoteSlot] == node.internalNode.children[EndQuoteSlot]
  {
    var startQuote := node.StartQuote();
    var endQuote := node.EndQuote();
    var listNode := new Node(content, 0, null);
    var value := new NodeList(listNode);
    assert node.childBuckets[ValueSlot] != listNode;
    r := node.Modify(startQuote, value, endQuote);
  }

  /** An attribute value `""`: two one-character quotes around an empty list is two characters
      wide, and the list that its `value()` accessor returns is present but empty. */
  method EmptyAttributeValue() returns (width: nat, valueSize: nat)
    ensures width == 2 && valueSize == 0
  {
    var internal := CreateSTXmlAttributeValue(STToken(DoubleQuoteToken, "\""),
                                              STNonTerminal(ListKind, []),
                                              STToken(DoubleQuoteToken, "\""));
    var node := new Node(internal, 0, null);
    var value := node.Value();
    width := Width(node.internalNode);
    valueSize := value.Size();
  }
}
