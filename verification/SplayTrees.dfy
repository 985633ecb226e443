/** The nodes of the splay tree, and the trees that they make. */
module SplayTrees {

  /** What a node carries: a tree of payload, tagged by its key. */
  datatype Payload = Nothing | Strings(tag: string) | Pair(first: Payload, second: Payload)

  class Node {
    const key: real
    const value: Payload
    var left: Node?
    var right: Node?

    constructor (key: real, value: Payload)
      ensures this.key == key && this.value == value && left == null && right == null
    {
      this.key, this.value, left, right := key, value, null, null;
    }
  }

  /** The nodes as a tree value. */
  datatype Tree = Leaf | Branch(node: Node, left: Tree, right: Tree)

  ghost function Root(t: Tree): Node? {
    if t.Leaf? then null else t.node
  }

  ghost function Inorder(t: Tree): seq<Node> {
    if t.Leaf? then [] else Inorder(t.left) + [t.node] + Inorder(t.right)
  }

  ghost function Size(t: Tree): nat {
    if t.Leaf? then 0 else Size(t.left) + 1 + Size(t.right)
  }

  /** The left child comes up and the root goes down on its right. */
  ghost function RotatedRight(t: Tree): Tree
    requires t.Branch? && t.left.Branch?
  {
    Branch(t.left.node, t.left.left, Branch(t.node, t.left.right, t.right))
  }

  /** The right child comes up and the root goes down on its left. */
  ghost function RotatedLeft(t: Tree): Tree
    requires t.Branch? && t.right.Branch?
  {
    Branch(t.right.node, Branch(t.node, t.left, t.right.left), t.right.right)
  }

  /** A new node above a root that is next to it. */
  ghost function Inserted(t: Tree, node: Node): Tree
    requires t.Branch?
  {
    if node.key > t.node.key then Branch(node, Branch(t.node, t.left, Leaf), t.right)
    else Branch(node, t.left, Branch(t.node, Leaf, t.right))
  }
}
