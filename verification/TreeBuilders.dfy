/** The flame tree as it is built: nodes updated in place, each owning the nodes below it. */
module TreeBuilders {
  import opened Domain
  import opened Sorting
  import F = FlameTrie

  class TreeBuilder {
    var valueNs: u64
    var children: map<string, TreeBuilder>
    ghost var Repr: set<object>

    /** A node owns its children, and no two of them share anything. */
    ghost predicate Valid()
      reads this, Repr
      decreases Repr
    {
      && this in Repr
      && (forall name | name in children :: Owns(children[name]))
      && Apart()
    }

    ghost predicate Owns(child: TreeBuilder)
      requires this in Repr
      reads this, Repr
      decreases Repr, 0
    {
      child in Repr && child in child.Repr && child.Repr <= Repr && this !in child.Repr && child.Valid()
    }

    ghost predicate Apart()
      requires this in Repr && forall name | name in children :: children[name] in Repr
      reads this, Repr
    {
      forall a, b | a in children && b in children && a != b :: children[a].Repr !! children[b].Repr
    }

    constructor ()
      ensures Valid() && fresh(Repr) && Tree() == F.EMPTY
    {
      valueNs, children := 0, map[];
      Repr := {this};
    }

    ghost function Tree(): F.Trie
      requires Valid()
      reads this, Repr
      decreases Repr, 1
    {
      F.Trie(valueNs, Subtrees())
    }

    ghost function Subtrees(): map<string, F.Trie>
      requires Valid()
      reads this, Repr
      decreases Repr, 0
    {
      map name | name in children :: assert Owns(children[name]); children[name].Tree()
    }

    /** `entry(name).or_default()`, not yet entered: a child that shares nothing with the others. */
    method ChildFor(name: string) returns (child: TreeBuilder)
      requires Valid()
      ensures child.Valid() && child.Tree() == F.ChildOf(Tree(), name)
      ensures this !in child.Repr && (child.Repr <= Repr || fresh(child.Repr))
      ensures forall other | other in children && other != name :: children[other].Repr !! child.Repr
    {
      if name in children {
        child := children[name];
        assert Owns(child);
      } else {
        child := new TreeBuilder();
        assert forall other | other in children :: Owns(children[other]);
      }
    }

    /** The child, changed or new, takes its place; the others have kept theirs. */
    method Adopt(name: string, child: TreeBuilder, ghost before: F.Trie)
      requires this in Repr && child.Valid() && child in child.Repr && this !in child.Repr
      requires before.children.Keys == children.Keys && before.value == valueNs
      requires forall other | other in children && other != name ::
                 Owns(children[other]) && children[other].Repr !! child.Repr
                   && children[other].Tree() == before.children[other]
      requires forall a, b | a in children && b in children && a != b && a != name && b != name ::
                 children[a].Repr !! children[b].Repr
      modifies this`children, this`Repr
      ensures Valid() && Repr == old(Repr) + child.Repr
      ensures Tree().value == before.value && Subtrees() == before.children[name := child.Tree()]
    {
      ghost var after := before.children[name := child.Tree()];
      children, Repr := children[name := child], Repr + child.Repr;
      forall key | key in children ensures Owns(children[key]) && children[key].Tree() == after[key] {
        if key != name {
          assert old(Owns(children[key]));
          assert old(allocated(children[key])) && children[key].Repr == old(children[key].Repr);
        }
      }
      SubtreesAre(after);
    }

    lemma SubtreesAre(trees: map<string, F.Trie>)
      requires Valid() && trees.Keys == children.Keys
      requires forall key | key in children :: Owns(children[key]) && children[key].Tree() == trees[key]
      ensures Subtrees() == trees
    {
    }

    method AddHere(weightNs: u64)
      requires Valid()
      modifies this`valueNs
      ensures Valid() && Tree() == old(Tree()).(value := SatAdd(old(valueNs), weightNs))
    {
      valueNs := SatAdd(valueNs, weightNs);
      forall key | key in children ensures Owns(children[key]) && children[key].Tree() == old(children[key].Tree()) {
        assert old(Owns(children[key]));
      }
    }

    /** The rest of the labels goes to the child of the first. */
    method Descend(labels: seq<string>, weightNs: u64)
      requires Valid() && labels != []
      modifies Repr
      ensures Valid() && fresh(Repr - old(Repr))
      ensures
        var before := old(Tree());
        Tree() == before.(children :=
          before.children[labels[0] := F.Insert(F.ChildOf(before, labels[0]), labels[1..], weightNs)])
      decreases |labels|, 0
    {
      ghost var before := Tree();
      var child := ChildFor(labels[0]);
      child.Insert(labels[1..], weightNs);
      forall other | other in children && other != labels[0]
        ensures Owns(children[other]) && children[other].Repr !! child.Repr
        ensures children[other].Tree() == before.children[other]
      {
        Untouched(children[other]);
      }
      Adopt(labels[0], child, before);
    }

    /** A child in which nothing has changed is owned as before and has the tree it had. */
    twostate lemma Untouched(child: TreeBuilder)
      requires this in Repr && old(this in Repr) && Repr == old(Repr)
      requires old(Owns(child)) && unchanged(child) && unchanged(old(child.Repr))
      ensures Owns(child) && child.Repr == old(child.Repr) && child.Tree() == old(child.Tree())
    {
    }

    /** `TreeBuilder::insert`. */
    method Insert(labels: seq<string>, weightNs: u64)
      requires Valid()
      modifies Repr
      ensures Valid() && fresh(Repr - old(Repr))
      ensures Tree() == F.Insert(old(Tree()), labels, weightNs)
      decreases |labels|, 1
    {
      AddHere(weightNs);
      if labels != [] { Descend(labels, weightNs); }
    }

    /** An ordered map is read in the order of its keys. */
    method OrderedNames() returns (names: seq<string>)
      requires Valid()
      ensures names == F.Names(Tree())
    {
      F.NameLeOrders();
      forall a, b | F.NameLe(a, b) && F.NameLe(b, a) ensures a == b { F.NameLeAntisymmetric(a, b); }
      assert Subtrees().Keys == children.Keys;
      names := KeysInOrder(F.NameLe, children.Keys);
    }

    method FinishChild(name: string) returns (n: F.FlameNode)
      requires Valid() && name in children
      ensures n == F.Finish(Subtrees()[name], name)
      decreases Repr, 0
    {
      assert Owns(children[name]);
      n := children[name].Finish(name);
    }

    method FinishAll(names: seq<string>) returns (finished: seq<F.FlameNode>)
      requires Valid() && forall name | name in names :: name in children
      ensures |finished| == |names|
      ensures forall i | 0 <= i < |names| :: finished[i] == F.Finish(Subtrees()[names[i]], names[i])
      decreases Repr, 1
    {
      ghost var trees := Subtrees();
      finished := [];
      for i := 0 to |names|
        invariant Valid() && Subtrees() == trees && |finished| == i
        invariant forall k | 0 <= k < i :: finished[k] == F.Finish(trees[names[k]], names[k])
      {
        assert names[i] in names;
        var child := FinishChild(names[i]);
        finished := finished + [child];
      }
    }

    /** `TreeBuilder::finish`. */
    method Finish(name: string) returns (n: F.FlameNode)
      requires Valid()
      ensures n == F.Finish(Tree(), name)
      decreases Repr, 2
    {
      var names := OrderedNames();
      var finished := FinishAll(names);
      F.FinishedFrom(Tree(), name, finished);
      n := F.FlameNode(name, valueNs, finished);
    }
  }
}
