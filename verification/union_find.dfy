/** The `parent` array with path halving and union without rank. */
module UnionFinds {
  /** Everyone in b's class joins a's. */
  function Merged(root: seq<nat>, a: nat, b: nat): (r: seq<nat>)
    ensures |r| == |root|
    ensures forall k :: 0 <= k < |root| ==> r[k] == if root[k] == b then a else root[k]
  {
    seq(|root|, k requires 0 <= k < |root| => if root[k] == b then a else root[k])
  }

  class UnionFind {
    const parent: array<nat>
    /** The representative each index leads to. */
    ghost var root: seq<nat>
    /** Grows strictly along parent links: indexes do not, since a union may point a smaller one at a larger one. */
    ghost var rank: seq<nat>
    ghost var height: nat

    ghost predicate Valid()
      reads this, parent
    {
      && |root| == |rank| == parent.Length
      && forall i :: 0 <= i < parent.Length ==> ValidAt(i)
    }

    ghost predicate ValidAt(i: nat)
      requires |root| == |rank| == parent.Length && i < parent.Length
      reads this, parent
    {
      && parent[i] < parent.Length && root[i] < parent.Length && rank[i] <= height
      && root[parent[i]] == root[i] && parent[root[i]] == root[i]
      && (parent[i] == i ==> root[i] == i)
      && (parent[i] != i ==> rank[i] < rank[parent[i]])
    }

    constructor (n: nat)
      ensures Valid() && fresh(parent) && root == seq(n, i => i)
    {
      parent := new nat[n](i => i);
      root := seq(n, i => i);
      rank := seq(n, _ => 0);
      height := 0;
    }

    /** Follows parents to the representative, halving the path; no class changes. */
    method Find(index: nat) returns (found: nat)
      requires Valid() && index < parent.Length
      modifies parent
      ensures Valid() && found == root[index]
    {
      found := index;
      while parent[found] != found
        invariant Valid() && found < parent.Length && root[found] == root[index]
        decreases height - rank[found]
      {
        assert ValidAt(found) && ValidAt(parent[found]) && ValidAt(parent[parent[found]]);
        Halve(found);
        found := parent[found];
      }
      assert ValidAt(found);
    }

    /** `parent[index] = parent[parent[index]]` */
    method Halve(index: nat)
      requires Valid() && index < parent.Length && parent[index] != index
      modifies parent
      ensures Valid()
      ensures parent[index] < parent.Length && root[parent[index]] == root[index]
      ensures rank[index] < rank[parent[index]] <= height
    {
      ghost var before := parent[..];
      assert ValidAt(index) && ValidAt(parent[index]) && ValidAt(parent[parent[index]]);
      parent[index] := parent[parent[index]];
      forall i | 0 <= i < parent.Length ensures ValidAt(i) {
        assert old(ValidAt(i)) && old(ValidAt(index)) && old(ValidAt(before[index])) && old(ValidAt(root[i]));
        assert root[i] != index;
      }
      assert ValidAt(index) && ValidAt(parent[index]);
    }

    /** Joins the class of `right` to the class of `left`. */
    method Union(left: nat, right: nat)
      requires Valid() && left < parent.Length && right < parent.Length
      modifies this, parent
      ensures Valid() && root == Merged(old(root), old(root[left]), old(root[right]))
    {
      var leftRoot := Find(left);
      var rightRoot := Find(right);
      assert ValidAt(left) && ValidAt(right) && ValidAt(leftRoot) && ValidAt(rightRoot);
      if leftRoot != rightRoot {
        Link(leftRoot, rightRoot);
      } else {
        assert root == Merged(root, leftRoot, rightRoot);
      }
    }

    /** `parent[rightRoot] = leftRoot` for two different representatives. */
    method Link(leftRoot: nat, rightRoot: nat)
      requires Valid() && leftRoot < parent.Length && rightRoot < parent.Length && leftRoot != rightRoot
      requires root[leftRoot] == leftRoot && root[rightRoot] == rightRoot
      modifies this, parent
      ensures Valid() && root == Merged(old(root), leftRoot, rightRoot)
    {
      assert ValidAt(leftRoot) && ValidAt(rightRoot);
      ghost var lifted := if rank[leftRoot] <= rank[rightRoot] then rank[rightRoot] + 1 else rank[leftRoot];
      parent[rightRoot] := leftRoot;
      root := Merged(root, leftRoot, rightRoot);
      rank := rank[leftRoot := lifted];
      height := if height < lifted then lifted else height;
      forall i | 0 <= i < parent.Length ensures ValidAt(i) {
        assert old(ValidAt(i)) && old(ValidAt(parent[i]));
      }
    }
  }
}
