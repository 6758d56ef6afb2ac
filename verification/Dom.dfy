/** A document as the selector engine sees it: nodes with `parentNode`, `previousSibling` and `nextSibling`.
    Nodes are numbered in document order (preorder); node 0 is the document itself, -1 stands for `null`. */
module Dom {

  datatype NodeType = DocumentNode | ElementNode | OtherNode  // nodeType 9, 1, and text or comments

  datatype Node = Node(
    kind: NodeType, tag: string, id: string, classes: set<string>, traits: set<string>,
    parent: int, prev: int, next: int)

  type Tree = seq<Node>

  datatype Dir = ParentNode | PreviousSibling

  /** The links describe an ordered tree listed in preorder: everything listed between a node and one of
      its children hangs below that node, and the sibling links join neighbouring children of one parent. */
  ghost predicate Valid(t: Tree) {
    && |t| > 0 && t[0].kind == DocumentNode && t[0].parent == t[0].prev == t[0].next == -1
    && (forall j :: 0 < j < |t| ==> 0 <= t[j].parent < j && t[j].kind != DocumentNode)
    && (forall i, j :: 0 < i < j < |t| && t[j].parent < i ==> t[j].parent <= t[i].parent)
    && (forall j :: 0 < j < |t| ==> Linked(t, j))
  }

  /** `previousSibling` is the last earlier node with the same parent and `nextSibling` the first later one,
      or null; only the document and elements have children. */
  ghost predicate Linked(t: Tree, j: nat)
    requires j < |t|
  {
    var parent, p, n := t[j].parent, t[j].prev, t[j].next;
    && (0 <= parent < |t| ==> t[parent].kind != OtherNode)
    && -1 <= p < j
    && (p >= 0 ==> p > 0 && t[p].parent == parent)
    && (forall k :: 0 < k < j && p < k ==> t[k].parent != parent)
    && (n == -1 || j < n < |t|)
    && (n >= 0 ==> t[n].parent == parent)
    && (forall k :: j < k < |t| && (n >= 0 ==> k < n) ==> t[k].parent != parent)
  }

  /** `elem[dir]` */
  function Step(t: Tree, dir: Dir, x: nat): (y: int)
    requires x < |t|
  {
    match dir
    case ParentNode => t[x].parent
    case PreviousSibling => t[x].prev
  }

  predicate IsElement(t: Tree, x: int) {
    0 <= x < |t| && t[x].kind == ElementNode
  }

  /** y is a descendant of x. */
  predicate Below(t: Tree, x: int, y: int)
    decreases y
  {
    0 <= y < |t| && t[y].parent < y && (t[y].parent == x || Below(t, x, t[y].parent))
  }

  /** Parents are numbered before their children, as in a document or several trees one after the other. */
  ghost predicate ParentsFirst(t: Tree) {
    forall j :: 0 <= j < |t| ==> -1 <= t[j].parent < j
  }

  /** Every node except the document is below the document. */
  lemma {:induction false} AllBelowDocument(t: Tree, y: nat)
    requires Valid(t) && 0 < y < |t|
    ensures Below(t, 0, y)
    decreases y
  {
    if t[y].parent != 0 {
      AllBelowDocument(t, t[y].parent);
    }
  }

  /** Descendants of a child are descendants of its parent. */
  lemma {:induction false} BelowTransitive(t: Tree, x: nat, y: nat, z: nat)
    requires Valid(t) && Below(t, x, y) && Below(t, y, z)
    ensures Below(t, x, z)
    decreases z
  {
    if t[z].parent != y {
      BelowTransitive(t, x, y, t[z].parent);
    }
  }

  lemma {:induction false} BelowIsLater(t: Tree, x: int, y: int)
    requires Below(t, x, y)
    ensures x < y
    decreases y
  {
    if t[y].parent != x {
      BelowIsLater(t, x, t[y].parent);
    }
  }

  /** Nodes numbered between a node and one of its descendants are descendants too. */
  lemma {:induction false} SubtreeIsContiguous(t: Tree, x: nat, k: nat, y: nat)
    requires Valid(t) && Below(t, x, y) && x < k < y
    ensures Below(t, x, k)
    decreases y + k
  {
    BelowIsLater(t, x, y);
    var p := t[y].parent;
    if p == x {
      // k lies between a node and its child, so climbing from k cannot leave the node
      assert t[k].parent >= x;
      if t[k].parent != x {
        SubtreeIsContiguous(t, x, t[k].parent, y);
      }
    } else {
      BelowIsLater(t, x, p);
      if k < p {
        SubtreeIsContiguous(t, x, k, p);
      } else if k > p {
        assert t[k].parent >= p;
        if t[k].parent == p {
        } else {
          SubtreeIsContiguous(t, x, t[k].parent, y);
        }
      }
    }
  }

  /** Siblings in order have their subtrees in the same order. */
  lemma {:induction false} SubtreesOfSiblingsAreOrdered(t: Tree, a: nat, b: nat, y: nat)
    requires Valid(t) && 0 < a < b < |t| && t[a].parent == t[b].parent
    requires y == a || Below(t, a, y)
    ensures y < b
    decreases y
  {
    if y != a && y >= b {
      if y > b {
        SubtreeIsContiguous(t, a, b, y);
      }
      BelowIsLater(t, a, b);
      if t[b].parent != a {
        BelowIsLater(t, a, t[b].parent);
      }
    }
  }
}
