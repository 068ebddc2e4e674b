/**
 Postorder from a preorder stream: a stack of parents counts down the children still to come.
 */
module PostOrder {
  import opened Options

  /** What the base iterator yields. Three kinds of cells announce children. */
  datatype Item =
    | AtomCell(name: nat, arity: nat)
    | ListCell(l: nat)
    | PStrLocCell(h: nat)
    | LeafCell(id: nat)

  function Arity(item: Item): nat
  {
    match item
    case AtomCell(_, arity) => arity
    case ListCell(_) => 2
    case PStrLocCell(_) => 1
    case LeafCell(_) => 0
  }

  datatype Tree = Node(item: Item, children: seq<Tree>)

  /** Every node has as many children as its cell announces. */
  predicate GoodTree(t: Tree)
  {
    |t.children| == Arity(t.item) && GoodTrees(t.children)
  }

  predicate GoodTrees(ts: seq<Tree>)
  {
    ts == [] || (GoodTree(ts[0]) && GoodTrees(ts[1..]))
  }

  function Preorder(ts: seq<Tree>): seq<Item>
  {
    if ts == [] then [] else [ts[0].item] + Preorder(ts[0].children) + Preorder(ts[1..])
  }

  function Postorder(ts: seq<Tree>): seq<Item>
  {
    if ts == [] then [] else Postorder(ts[0].children) + [ts[0].item] + Postorder(ts[1..])
  }

  datatype Parent = Parent(count: nat, item: Item)

  /** The parent stack describes the unfinished path: each level counts the subtrees still to come. */
  predicate OnPath(stack: seq<Parent>, pending: seq<seq<Tree>>)
  {
    && |stack| == |pending|
    && forall i :: 0 <= i < |stack| ==> stack[i].count == |pending[i]| && GoodTrees(pending[i])
  }

  /** What the base iterator is going to yield: the subtrees of the innermost parent first. */
  function Incoming(pending: seq<seq<Tree>>, roots: seq<Tree>): seq<Item>
  {
    if pending == [] then Preorder(roots)
    else Preorder(pending[|pending| - 1]) + Incoming(pending[..|pending| - 1], roots)
  }

  /** What is to be yielded: after its last subtree, each parent. */
  function Outgoing(stack: seq<Parent>, pending: seq<seq<Tree>>, roots: seq<Tree>): seq<Item>
    requires |stack| == |pending|
  {
    if stack == [] then Postorder(roots)
    else
      var top := |stack| - 1;
      Postorder(pending[top]) + [stack[top].item] + Outgoing(stack[..top], pending[..top], roots)
  }

  /** Taking the next subtree of the innermost parent, or the next root. */
  lemma {:induction false} TakeFromParent(stack: seq<Parent>, pending: seq<seq<Tree>>, roots: seq<Tree>)
    requires OnPath(stack, pending) && stack != [] && pending[|stack| - 1] != []
    ensures var top := |stack| - 1;
            var t, later := pending[top][0], pending[top][1..];
            var stack', pending' := stack[top := Parent(|later|, stack[top].item)], pending[top := later];
            && GoodTree(t) && OnPath(stack', pending')
            && Incoming(pending, roots) == [t.item] + Preorder(t.children) + Incoming(pending', roots)
            && Outgoing(stack, pending, roots) == Postorder(t.children) + [t.item] + Outgoing(stack', pending', roots)
  {
    hide Incoming, Outgoing, Preorder, Postorder;
    var top := |stack| - 1;
    var t, later := pending[top][0], pending[top][1..];
    var stack', pending' := stack[top := Parent(|later|, stack[top].item)], pending[top := later];
    assert pending'[..top] == pending[..top] && stack'[..top] == stack[..top];
    TopLevel(stack, pending, roots);
    TopLevel(stack', pending', roots);
    TakeTree(pending[top]);
    var others := Outgoing(stack[..top], pending[..top], roots);
    Regroup(Postorder(t.children), [t.item], Postorder(later), [stack[top].item], others);
    Regroup([t.item], Preorder(t.children), Preorder(later), [], Incoming(pending[..top], roots));
    assert Preorder(later) + [] == Preorder(later);
    assert ([t.item] + Preorder(t.children) + Preorder(later)) + [] == [t.item] + Preorder(t.children)
            + Preorder(later);
  }

  lemma {:induction false} TopLevel(stack: seq<Parent>, pending: seq<seq<Tree>>, roots: seq<Tree>)
    requires |stack| == |pending| && stack != []
    ensures var top := |stack| - 1;
            && Incoming(pending, roots) == Preorder(pending[top]) + Incoming(pending[..top], roots)
            && Outgoing(stack, pending, roots) ==
               Postorder(pending[top]) + [stack[top].item] + Outgoing(stack[..top], pending[..top], roots)
  {
    hide Preorder, Postorder;
  }

  lemma {:induction false} TakeTree(ts: seq<Tree>)
    requires ts != []
    ensures Preorder(ts) == [ts[0].item] + Preorder(ts[0].children) + Preorder(ts[1..])
    ensures Postorder(ts) == Postorder(ts[0].children) + [ts[0].item] + Postorder(ts[1..])
  {
  }

  lemma {:induction false} Regroup(a: seq<Item>, b: seq<Item>, c: seq<Item>, d: seq<Item>, e: seq<Item>)
    ensures (a + b + c) + d + e == a + b + (c + d + e)
  {
  }

  lemma {:induction false} TakeRoot(roots: seq<Tree>)
    requires roots != [] && GoodTrees(roots)
    ensures GoodTree(roots[0]) && GoodTrees(roots[1..])
    ensures Incoming([], roots) == [roots[0].item] + Preorder(roots[0].children) + Incoming([], roots[1..])
    ensures Outgoing([], [], roots) == Postorder(roots[0].children) + [roots[0].item] + Outgoing([], [], roots[1..])
  {
  }

  lemma {:induction false} Descend(stack: seq<Parent>, pending: seq<seq<Tree>>, roots: seq<Tree>, t: Tree)
    requires OnPath(stack, pending) && GoodTree(t)
    ensures var stack', pending' := stack + [Parent(Arity(t.item), t.item)], pending + [t.children];
            && OnPath(stack', pending')
            && Incoming(pending', roots) == Preorder(t.children) + Incoming(pending, roots)
            && Outgoing(stack', pending', roots) == Postorder(t.children) + [t.item] + Outgoing(stack, pending, roots)
  {
    assert (stack + [Parent(Arity(t.item), t.item)])[..|stack|] == stack;
    assert (pending + [t.children])[..|pending|] == pending;
  }

  lemma {:induction false} Ascend(stack: seq<Parent>, pending: seq<seq<Tree>>, roots: seq<Tree>)
    requires OnPath(stack, pending) && stack != [] && stack[|stack| - 1].count == 0
    ensures var top := |stack| - 1;
            && |pending| == |stack| && OnPath(stack[..top], pending[..top])
            && Incoming(pending, roots) == Incoming(pending[..top], roots)
            && Outgoing(stack, pending, roots) == [stack[top].item] + Outgoing(stack[..top], pending[..top], roots)
  {
  }

  lemma {:induction false} Nothing()
    ensures Incoming([], []) == [] && Outgoing([], [], []) == [] && Preorder([]) == [] && Postorder([]) == []
  {
  }

  lemma {:induction false} Single(t: Tree)
    requires GoodTree(t)
    ensures GoodTrees([t])
    ensures Incoming([], [t]) == Preorder([t]) && Outgoing([], [], [t]) == Postorder([t])
  {
    assert [t][1..] == [];
  }

  class PostOrderIterator {
    /** What the base iterator has still to yield. */
    var base: seq<Item>
    var baseValid: bool
    var parentStack: seq<Parent>
    ghost var pending: seq<seq<Tree>>
    ghost var roots: seq<Tree>

    ghost predicate Valid()
      reads this
    {
      && OnPath(parentStack, pending) && GoodTrees(roots)
      && base == Incoming(pending, roots) && (!baseValid ==> base == [])
    }

    ghost function Rest(): seq<Item>
      requires Valid()
      reads this
    {
      Outgoing(parentStack, pending, roots)
    }

    constructor (stream: seq<Item>, ghost tree: Tree)
      requires GoodTree(tree) && stream == Preorder([tree])
      ensures Valid() && Rest() == Postorder([tree])
    {
      base, baseValid, parentStack := stream, true, [];
      pending, roots := [], [tree];
      new;
      Single(tree);
    }

    method BaseNext() returns (item: Option<Item>)
      modifies this`base
      ensures old(base) == [] ==> item.None? && base == []
      ensures old(base) != [] ==> item == Some(old(base)[0]) && base == old(base)[1..]
    {
      if base == [] {
        item := None;
      } else {
        item := Some(base[0]);
        base := base[1..];
      }
    }

    /** Take the next subtree off what is to come; the parent's count goes down with it. */
    ghost method TakeSubtree() returns (t: Tree)
      requires OnPath(parentStack, pending) && GoodTrees(roots) && base == Incoming(pending, roots) && base != []
      requires parentStack != [] ==> parentStack[|parentStack| - 1].count > 0
      modifies this`pending, this`roots
      ensures GoodTree(t) && GoodTrees(roots)
      ensures var stack' := CountedDown(old(parentStack));
              && OnPath(stack', pending)
              && base == [t.item] + Preorder(t.children) + Incoming(pending, roots)
              && old(Outgoing(parentStack, pending, roots)) == Postorder(t.children) + [t.item]
                  + Outgoing(stack', pending, roots)
    {
      if parentStack == [] {
        Nothing();
        TakeRoot(roots);
        t := roots[0];
        roots := roots[1..];
      } else {
        TakeFromParent(parentStack, pending, roots);
        var top := |parentStack| - 1;
        t := pending[top][0];
        pending := pending[top := pending[top][1..]];
      }
    }

    /** Yields the next node in postorder. */
    method Advance() returns (item: Option<Item>)
      requires Valid()
      modifies this
      ensures Valid()
      ensures item.Some? ==> old(Rest()) == [item.value] + Rest()
      ensures item.None? ==> old(Rest()) == [] && Rest() == []
    {
      hide Incoming, Outgoing, Preorder, Postorder, GoodTrees, OnPath;
      while true
        invariant Valid() && Rest() == old(Rest())
        decreases |base|, |parentStack|, baseValid
      {
        if parentStack != [] && parentStack[|parentStack| - 1].count == 0 {
          Ascend(parentStack, pending, roots);
          var top := |parentStack| - 1;
          var node := parentStack[top].item;
          parentStack := parentStack[..top];
          pending := pending[..top];
          return Some(node);
        }
        if base == [] {
          AllDone(parentStack, pending, roots);
        }
        if baseValid {
          ghost var t: Tree;
          ghost var before := parentStack;
          if base != [] {
            t := TakeSubtree();
          }
          parentStack := CountedDown(parentStack);
          var next := BaseNext();
          if next.Some? {
            if !next.value.LeafCell? {
              Descend(parentStack, pending, roots, t);
              pending := pending + [t.children];
              parentStack := parentStack + [Parent(Arity(next.value), next.value)];
              continue;
            }
            Childless(t);
            return next;
          }
          baseValid := false;
        }
        if parentStack == [] {
          return None;
        }
      }
    }
  }

  lemma {:induction false} Childless(t: Tree)
    requires GoodTree(t) && t.item.LeafCell?
    ensures Preorder(t.children) == [] && Postorder(t.children) == []
  {
  }

  /** With nothing to come and no parent to yield, all is done. */
  lemma {:induction false} AllDone(stack: seq<Parent>, pending: seq<seq<Tree>>, roots: seq<Tree>)
    requires OnPath(stack, pending) && Incoming(pending, roots) == []
    requires stack != [] ==> stack[|stack| - 1].count > 0
    ensures stack == [] && roots == [] && Outgoing(stack, pending, roots) == []
  {
  }

  /** A parent's count goes down as its next subtree begins. */
  function CountedDown(stack: seq<Parent>): seq<Parent>
  {
    if stack == [] || stack[|stack| - 1].count == 0 then stack
    else stack[|stack| - 1 := Parent(stack[|stack| - 1].count - 1, stack[|stack| - 1].item)]
  }

  /** For every tree, the iterator fed with its preorder yields exactly its postorder and then ends. */
  method Iterate(stream: seq<Item>, ghost tree: Tree) returns (items: seq<Item>)
    requires GoodTree(tree) && stream == Preorder([tree])
    ensures items == Postorder([tree])
  {
    hide Postorder, Preorder, Incoming, Outgoing, GoodTree;
    var iter := new PostOrderIterator(stream, tree);
    items := [];
    while true
      invariant fresh(iter) && iter.Valid() && items + iter.Rest() == Postorder([tree])
      decreases |iter.Rest()|
    {
      ghost var rest := iter.Rest();
      var item := iter.Advance();
      if item.None? {
        break;
      }
      assert items + rest == (items + [item.value]) + iter.Rest();
      items := items + [item.value];
    }
  }
}
