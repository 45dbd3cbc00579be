/**
 * The JSON tree the generator builds, as a value: a group node carries a key, a title
 * and its children; a leaf carries what the leaf generator produced; `Null` is the slot
 * a leaf generator's `null` leaves in a child list.
 */
module Nodes {
  import opened Wrappers

  datatype Node<P> = Group(key: string, title: string, children: seq<Node<P>>) | Leaf(payload: P) | Null

  /** The leaf slots of a forest, left to right: `Some` for a leaf, `None` for a null slot. */
  function Flatten<P>(nodes: seq<Node<P>>): seq<Option<P>>
    decreases nodes
  {
    if |nodes| == 0 then []
    else
      match nodes[0]
      case Leaf(p) => [Some(p)] + Flatten(nodes[1..])
      case Null => [None] + Flatten(nodes[1..])
      case Group(_, _, children) => Flatten(children) + Flatten(nodes[1..])
  }

  /** The number of group levels of a forest: 0 for leaves only. */
  function Height<P>(nodes: seq<Node<P>>): nat
    decreases nodes
  {
    if |nodes| == 0 then 0
    else
      var head := match nodes[0]
        case Group(_, _, children) => 1 + Height(children)
        case _ => 0;
      var tail := Height(nodes[1..]);
      if head < tail then tail else head
  }

  /** Flattening distributes over concatenation of forests. */
  lemma {:induction false} FlattenAppend<P>(a: seq<Node<P>>, b: seq<Node<P>>)
    ensures Flatten(a + b) == Flatten(a) + Flatten(b)
    decreases |a|
  {
    if |a| > 0 {
      assert (a + b)[0] == a[0];
      assert (a + b)[1..] == a[1..] + b;
      FlattenAppend(a[1..], b);
    } else {
      assert a + b == b;
    }
  }

  /** The height of a concatenation is the larger of the two heights. */
  lemma {:induction false} HeightAppend<P>(a: seq<Node<P>>, b: seq<Node<P>>)
    ensures Height(a + b) == if Height(a) < Height(b) then Height(b) else Height(a)
    decreases |a|
  {
    if |a| > 0 {
      assert (a + b)[0] == a[0];
      assert (a + b)[1..] == a[1..] + b;
      HeightAppend(a[1..], b);
    } else {
      assert a + b == b;
    }
  }

  /** The leaf slots of the leaf generator's output for each record, in order. */
  function Slots<T, P>(records: seq<T>, leafOf: T -> Option<P>): (r: seq<Option<P>>)
    ensures |r| == |records|
    ensures forall i :: 0 <= i < |records| ==> r[i] == leafOf(records[i])
  {
    seq(|records|, i requires 0 <= i < |records| => leafOf(records[i]))
  }

  /** The slots of two record lists, one after the other, are the slots of their concatenation. */
  lemma {:induction false} SlotsAppend<T, P>(a: seq<T>, b: seq<T>, leafOf: T -> Option<P>)
    ensures Slots(a + b, leafOf) == Slots(a, leafOf) + Slots(b, leafOf)
  {
    var l, r := Slots(a + b, leafOf), Slots(a, leafOf) + Slots(b, leafOf);
    forall i | 0 <= i < |l|
      ensures l[i] == r[i]
    {
      if i >= |a| {
        assert (a + b)[i] == b[i - |a|];
      }
    }
  }

  /** The nodes `addAll(map(generateLeaf))` appends: a leaf or a null slot per record. */
  function LeafNodes<T, P>(records: seq<T>, leafOf: T -> Option<P>): (r: seq<Node<P>>)
    ensures |r| == |records|
    ensures Flatten(r) == Slots(records, leafOf)
    ensures Height(r) == 0
    decreases |records|
  {
    if |records| == 0 then []
    else
      var head: Node<P> := match leafOf(records[0]) case Some(p) => Leaf(p) case None => Null;
      var rest := LeafNodes(records[1..], leafOf);
      assert ([head] + rest)[1..] == rest;
      assert Slots(records, leafOf) == [leafOf(records[0])] + Slots(records[1..], leafOf);
      [head] + rest
  }
}
