/** Parsed SQL trees: as values, and as the mutable message objects the rewriters change in place.

    A message keeps the scalar fields a rewriter looks at in its tag and its message-valued
    fields in three lists.  `head` and `body` are the two fields a rewriter names (the table
    below); `rest` collects every other message-valued field.

      tag         head               body
      FuncCall    Funcname           Args
      TypeName    Names
      AExpr       Name
      CreateStmt  Relation (0 or 1)  TableElts
      Constraint  Pktable (0 or 1) */
module Ast {

  datatype ExprKind = Ilike | Like | OtherKind(code: nat)

  datatype Tag =
    | RangeVar(schema: string, relation: string)
    | Str(sval: string)
    | StrConst(text: string)
    | TypeName
    | AExpr(kind: ExprKind)
    | CreateStmt
    | Constraint
    | FuncCall(aggStar: bool, aggDistinct: bool, variadic: bool, location: int)
    | Other(code: nat)

  datatype Tree = Message(tag: Tag, head: seq<Tree>, body: seq<Tree>, rest: seq<Tree>)

  function Leaf(tag: Tag): Tree {
    Tree.Message(tag, [], [], [])
  }

  /** Every message-valued child, over all fields. */
  function Kids(t: Tree): (kids: seq<Tree>)
    ensures forall i :: 0 <= i < |kids| ==> kids[i] < t
    ensures forall x :: x in kids <==> x in t.head || x in t.body || x in t.rest
  {
    t.head + t.body + t.rest
  }

  /** A message somewhere in a tree, the tree itself included. */
  predicate Subtree(x: Tree, t: Tree)
    decreases t
  {
    x == t || exists i :: 0 <= i < |Kids(t)| && Subtree(x, Kids(t)[i])
  }

  /** The positions of a list of length n, to be visited in any order. */
  function Positions(n: nat): (r: set<nat>)
    ensures forall i :: i in r <==> 0 <= i < n
  {
    if n == 0 then {} else Positions(n - 1) + {n - 1}
  }

  lemma KidsAfterHead(t: Tree)
    ensures Kids(t)[|t.head|..] == t.body + t.rest
  {
  }

  /** The messages' footprints are disjoint and lie within `below`. */
  ghost predicate Separated(ms: seq<Message>, below: set<Message>)
    reads ms
  {
    && (forall i :: 0 <= i < |ms| ==> ms[i] in below && ms[i] in ms[i].repr && ms[i].repr <= below)
    && (forall i, j :: 0 <= i < j < |ms| ==> ms[i].repr !! ms[j].repr)
  }

  /** Valid trees that share nothing and stay within `below`. */
  ghost predicate IsForest(ms: seq<Message>, below: set<Message>)
    reads ms, below
  {
    Separated(ms, below) && forall i :: 0 <= i < |ms| ==> ms[i].Valid()
  }

  ghost predicate AreTrees(ms: seq<Message>, ts: seq<Tree>)
    reads ms
  {
    |ts| == |ms| && forall i :: 0 <= i < |ms| ==> ms[i].tree == ts[i]
  }

  lemma DropFromForest(ms: seq<Message>, below: set<Message>, ts: seq<Tree>, k: nat)
    requires k <= |ms| && IsForest(ms, below) && AreTrees(ms, ts)
    ensures IsForest(ms[k..], below) && AreTrees(ms[k..], ts[k..])
  {
  }

  lemma AddLeavesToForest(
    leaves: seq<Message>, leafTrees: seq<Tree>, ms: seq<Message>, below: set<Message>, ts: seq<Tree>)
    requires IsForest(ms, below) && AreTrees(ms, ts) && AreTrees(leaves, leafTrees)
    requires forall i :: 0 <= i < |leaves| ==>
               leaves[i].Valid() && leaves[i].repr == {leaves[i]} && leaves[i] !in below
    requires forall i, j :: 0 <= i < j < |leaves| ==> leaves[i] != leaves[j]
    ensures IsForest(leaves + ms, below + set m | m in leaves)
    ensures AreTrees(leaves + ms, leafTrees + ts)
  {
    hide Message.Valid;
    var added := set m | m in leaves;
    forall i | 0 <= i < |leaves|
      ensures leaves[i] in added
    {
    }
    forall i | 0 <= i < |leaves + ms|
      ensures var m := (leaves + ms)[i]; m == if i < |leaves| then leaves[i] else ms[i - |leaves|]
    {
    }
  }

  /** A mutable message.  Its children are kept in one list, field after field: first the `heads`
      children of the head field, then the `bodies` children of the body field, then the others.
      `tree` is the value the message denotes, `repr` the messages it consists of. */
  class Message {
    var tag: Tag
    var kids: seq<Message>
    var heads: nat
    var bodies: nat
    ghost var tree: Tree
    ghost var repr: set<Message>

    ghost predicate Valid()
      reads this, repr
      decreases repr
    {
      && this in repr
      && heads + bodies <= |kids|
      && (forall i :: 0 <= i < |kids| ==> kids[i] in repr)
      && Separated(kids, repr - {this})
      && (forall i :: 0 <= i < |kids| ==> kids[i].Valid())
      && Denotes(tree)
    }

    /** Field by field, this message and the values of its children make up `t`. */
    ghost predicate Denotes(t: Tree)
      reads this, kids
    {
      t.tag == tag && |t.head| == heads && |t.body| == bodies && AreTrees(kids, Kids(t))
    }

    constructor Make(tag: Tag)
      ensures Valid() && tree == Leaf(tag) && repr == {this} && fresh(this)
      ensures this.tag == tag
    {
      this.tag, kids, heads, bodies := tag, [], 0, 0;
      tree, repr := Leaf(tag), {this};
    }

    /** Gives this message new field values; it then denotes `t`. */
    method Assign(tag: Tag, kids: seq<Message>, heads: nat, bodies: nat, ghost t: Tree, ghost below: set<Message>)
      requires IsForest(kids, below) && this !in below
      requires t.tag == tag && |t.head| == heads && |t.body| == bodies && AreTrees(kids, Kids(t))
      modifies this
      ensures Valid() && repr == below + {this} && tree == t
      ensures this.tag == tag && this.kids == kids && this.heads == heads && this.bodies == bodies
    {
      this.tag, this.kids, this.heads, this.bodies := tag, kids, heads, bodies;
      tree, repr := t, below + {this};
      assert repr - {this} == below;
    }
  }

  lemma OpenMessage(m: Message)
    requires m.Valid()
    ensures m in m.repr && IsForest(m.kids, m.repr - {m}) && AreTrees(m.kids, Kids(m.tree))
    ensures m.tree.tag == m.tag && m.heads == |m.tree.head| && m.bodies == |m.tree.body|
    ensures |m.kids| == |m.tree.head| + |m.tree.body| + |m.tree.rest|
    ensures forall i :: 0 <= i < |m.kids| ==> m.kids[i] != m && m.kids[i].repr <= m.repr - {m}
    ensures forall i :: 0 <= i < |m.tree.head| ==> m.kids[i].tree == m.tree.head[i]
  {
  }

  /** New messages without children, one for each tag. */
  method MakeLeaves(tags: seq<Tag>) returns (leaves: seq<Message>)
    ensures |leaves| == |tags| && fresh(leaves)
    ensures forall i :: 0 <= i < |leaves| ==> leaves[i].Valid() && leaves[i].repr == {leaves[i]}
    ensures AreTrees(leaves, seq(|tags|, i requires 0 <= i < |tags| => Leaf(tags[i])))
    ensures forall i, j :: 0 <= i < j < |leaves| ==> leaves[i] != leaves[j]
  {
    leaves := [];
    for k := 0 to |tags|
      invariant |leaves| == k && fresh(leaves)
      invariant forall i :: 0 <= i < k ==>
                  leaves[i].Valid() && leaves[i].repr == {leaves[i]} && leaves[i].tree == Leaf(tags[i])
      invariant forall i, j :: 0 <= i < j < k ==> leaves[i] != leaves[j]
    {
      var leaf := new Message.Make(tags[k]);
      leaves := leaves + [leaf];
    }
  }
}
