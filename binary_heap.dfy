/**
 * The `BinaryHeap` of src/shared/systems/Pathfinding.ts: a binary min-heap
 * over an array, ordered by the score `a.f - b.f`. The source keeps node
 * objects in the array and reads their `f` field live; here an entry is
 * the node's key with its score, and `RescoreElement` writes the new
 * score into the entry before moving it.
 *
 * The source's names are kept although they are swapped with respect to
 * the usual ones: `SinkDown` moves an entry toward the root (index 0) and
 * `BubbleUp` moves it toward the leaves.
 */
module Heap {
  import opened Wrappers

  /** A heap entry: a node key and its score `f`. */
  datatype Item = Item(key: nat, f: int)

  /** `((n + 1) >> 1) - 1`: the parent position of a non-root position. */
  function Parent(i: nat): (p: nat)
    requires i > 0
    ensures p < i && (i == 2 * p + 1 || i == 2 * p + 2)
  {
    (i + 1) / 2 - 1
  }

  /** Every entry scores no lower than its parent. */
  ghost predicate IsHeap(c: seq<Item>) {
    forall i :: 0 < i < |c| ==> c[Parent(i)].f <= c[i].f
  }

  /**
   * Ready for `SinkDown` at `n`: the heap order holds except possibly
   * between `n` and its parent, and `n`'s parent already scores no higher
   * than `n`'s children.
   */
  ghost predicate UpReady(c: seq<Item>, n: nat) {
    && (forall i :: 0 < i < |c| && i != n ==> c[Parent(i)].f <= c[i].f)
    && (n > 0 && n < |c| ==> forall i :: 0 < i < |c| && Parent(i) == n ==> c[Parent(n)].f <= c[i].f)
  }

  /**
   * Ready for `BubbleUp` at `n`: the heap order holds except possibly
   * between `n` and its children, and `n`'s parent already scores no
   * higher than those children.
   */
  ghost predicate DownReady(c: seq<Item>, n: nat) {
    && (forall i :: 0 < i < |c| && Parent(i) != n ==> c[Parent(i)].f <= c[i].f)
    && (n > 0 && n < |c| ==> forall i :: 0 < i < |c| && Parent(i) == n ==> c[Parent(n)].f <= c[i].f)
  }

  /** The root of a heap has the least score. */
  lemma {:induction false} HeapMin(c: seq<Item>, i: nat)
    requires IsHeap(c) && i < |c|
    ensures c[0].f <= c[i].f
    decreases i
  {
    if i > 0 {
      HeapMin(c, Parent(i));
    }
  }

  /** One step of `SinkDown`: swapping `n` with its larger parent leaves the heap ready at the parent. */
  lemma SwapUp(c: seq<Item>, n: nat)
    requires 0 < n < |c| && UpReady(c, n) && c[n].f < c[Parent(n)].f
    ensures UpReady(c[Parent(n) := c[n]][n := c[Parent(n)]], Parent(n))
  {
    var p := Parent(n);
    var d := c[p := c[n]][n := c[p]];
    forall i | 0 < i < |d| && i != p ensures d[Parent(i)].f <= d[i].f {
      if i == n {
      } else if Parent(i) == n {
        assert d[i] == c[i];
      } else if Parent(i) == p {
        assert d[i] == c[i];
      } else {
        assert d[i] == c[i] && d[Parent(i)] == c[Parent(i)];
      }
    }
    if p > 0 {
      forall i | 0 < i < |d| && Parent(i) == p ensures d[Parent(p)].f <= d[i].f {
        assert d[Parent(p)] == c[Parent(p)];
      }
    }
  }

  /** One step of `BubbleUp`: swapping `n` with its least child `s`, which scores below it, leaves the heap ready at `s`. */
  lemma SwapDown(c: seq<Item>, n: nat, s: nat)
    requires n < s < |c| && Parent(s) == n && DownReady(c, n) && c[s].f < c[n].f
    requires forall i :: 0 < i < |c| && Parent(i) == n ==> c[s].f <= c[i].f
    ensures DownReady(c[n := c[s]][s := c[n]], s)
  {
    var d := c[n := c[s]][s := c[n]];
    forall i | 0 < i < |d| && Parent(i) != s ensures d[Parent(i)].f <= d[i].f {
      if i == s {
      } else if Parent(i) == n {
        assert d[i] == c[i];
      } else if i == n {
        assert d[Parent(i)] == c[Parent(i)];
      } else {
        assert d[i] == c[i] && d[Parent(i)] == c[Parent(i)];
      }
    }
    forall i | 0 < i < |d| && Parent(i) == s ensures d[Parent(s)].f <= d[i].f {
      assert d[i] == c[i];
    }
  }

  /** Index of the first entry with key `key` (`indexOf`), or −1. */
  function IndexOf(c: seq<Item>, key: nat): (i: int)
    ensures -1 <= i < |c|
    ensures i >= 0 ==> c[i].key == key && forall j :: 0 <= j < i ==> c[j].key != key
    ensures i == -1 <==> forall j :: 0 <= j < |c| ==> c[j].key != key
  {
    if |c| == 0 then -1
    else if c[0].key == key then 0
    else
      var i := IndexOf(c[1..], key);
      if i == -1 then -1 else i + 1
  }

  class BinaryHeap {
    /** The array of entries. */
    var content: seq<Item>

    /** An empty heap. */
    constructor()
      ensures content == []
    {
      content := [];
    }

    /** `size`. */
    function Size(): (n: nat)
      reads this
      ensures n == |content|
    {
      |content|
    }

    /** `push`: append and move the new entry toward the root; a heap stays a heap. */
    method Push(element: Item)
      modifies this
      ensures multiset(content) == multiset(old(content)) + multiset{element}
      ensures |content| == |old(content)| + 1
      ensures IsHeap(old(content)) ==> IsHeap(content)
    {
      content := content + [element];
      SinkDown(|content| - 1);
    }

    /**
     * `pop`: removes and returns the root (`None` is `undefined`, from an
     * empty heap); the last entry takes the root's place and moves toward
     * the leaves. From a heap the result has the least score.
     */
    method Pop() returns (result: Option<Item>)
      modifies this
      ensures |old(content)| == 0 ==> result.None? && content == old(content)
      ensures |old(content)| > 0 ==>
        && result == Some(old(content)[0])
        && |content| == |old(content)| - 1
        && multiset(content) == multiset(old(content)) - multiset{old(content)[0]}
      ensures IsHeap(old(content)) ==> IsHeap(content)
      ensures IsHeap(old(content)) && result.Some? ==> forall x :: x in old(content) ==> result.value.f <= x.f
    {
      if |content| == 0 {
        return None;
      }
      ghost var prior := content;
      result := Some(content[0]);
      var end := content[|content| - 1];
      content := content[..|content| - 1];
      assert prior == content + [end];
      if |content| > 0 {
        content := content[0 := end];
        assert IsHeap(prior) ==> DownReady(content, 0);
        BubbleUp(0);
      }
      if IsHeap(prior) {
        forall x | x in prior ensures result.value.f <= x.f {
          var i :| 0 <= i < |prior| && prior[i] == x;
          HeapMin(prior, i);
        }
      }
    }

    /**
     * `rescoreElement`: the entry with key `key` takes the score `newF` and
     * moves toward the root. A key that is absent changes nothing. A lower
     * score keeps a heap a heap.
     */
    method RescoreElement(key: nat, newF: int)
      modifies this
      ensures var i := IndexOf(old(content), key);
        && (i == -1 ==> content == old(content))
        && (i >= 0 ==> multiset(content) == multiset(old(content)) - multiset{old(content)[i]} + multiset{Item(key, newF)})
        && (i >= 0 && IsHeap(old(content)) && newF <= old(content)[i].f ==> IsHeap(content))
      ensures |content| == |old(content)|
    {
      var i := IndexOf(content, key);
      if i >= 0 {
        ghost var prior := content;
        content := content[i := Item(key, newF)];
        if IsHeap(prior) && newF <= prior[i].f {
          assert UpReady(content, i);
        }
      }
      SinkDown(i);
    }

    /** `sinkDown`: moves the entry at `n` toward the root while it scores below its parent. */
    method SinkDown(n0: int)
      requires n0 < |content|
      modifies this
      ensures multiset(content) == multiset(old(content)) && |content| == |old(content)|
      ensures n0 >= 0 && UpReady(old(content), n0) ==> IsHeap(content)
      ensures n0 <= 0 ==> content == old(content)
    {
      if n0 < 0 {
        return;
      }
      var n: nat := n0;
      var element := content[n];
      ghost var ready := UpReady(content, n);
      while n > 0
        invariant n < |content| && content[n] == element
        invariant multiset(content) == multiset(old(content)) && |content| == |old(content)|
        invariant ready ==> UpReady(content, n)
        invariant n0 == 0 ==> content == old(content)
      {
        var parentN := Parent(n);
        var parent := content[parentN];
        if element.f - parent.f < 0 {
          if ready {
            SwapUp(content, n);
          }
          content := content[parentN := element][n := parent];
          n := parentN;
        } else {
          break;
        }
      }
    }

    /**
     * The child test of `bubbleUp`'s loop: the first child if it scores
     * below `element`, replaced by the second if that one scores below the
     * candidate so far. A chosen child is a least child and scores below
     * `element`; with none chosen, no child does.
     */
    method ChooseSwap(n: nat, element: Item) returns (swap: Option<nat>)
      ensures swap.Some? ==> (n < swap.value < |content| && Parent(swap.value) == n
        && content[swap.value].f < element.f
        && forall i :: 0 < i < |content| && Parent(i) == n ==> content[swap.value].f <= content[i].f)
      ensures swap.None? ==> forall i :: 0 < i < |content| && Parent(i) == n ==> element.f <= content[i].f
    {
      var length := |content|;
      var child2N := (n + 1) * 2;
      var child1N := child2N - 1;
      swap := None;
      if child1N < length {
        var child1 := content[child1N];
        if child1.f - element.f < 0 {
          swap := Some(child1N);
        }
      }
      if child2N < length {
        var child2 := content[child2N];
        var child1 := content[child1N];
        if child2.f - (if swap.None? then element else child1).f < 0 {
          swap := Some(child2N);
        }
      }
      assert forall i :: 0 < i < |content| && Parent(i) == n ==> i == child1N || i == child2N;
    }

    /** `bubbleUp`: moves the entry at `n` toward the leaves, swapping it with its least child while that child scores below it. */
    method BubbleUp(n0: nat)
      requires n0 < |content|
      modifies this
      ensures multiset(content) == multiset(old(content)) && |content| == |old(content)|
      ensures DownReady(old(content), n0) ==> IsHeap(content)
    {
      var length := |content|;
      var n := n0;
      var element := content[n];
      ghost var ready := DownReady(content, n);
      while true
        invariant n < |content| == length && content[n] == element
        invariant multiset(content) == multiset(old(content))
        invariant ready ==> DownReady(content, n)
        decreases length - n
      {
        var swap := ChooseSwap(n, element);
        if swap.Some? {
          var s := swap.value;
          assert Parent(s) == n;
          if ready {
            SwapDown(content, n, s);
          }
          content := content[n := content[s]][s := element];
          n := s;
        } else {
          return;
        }
      }
    }

    /**
     * `remove` as the source writes it: the target's index is compared
     * with the length after the last entry has been popped, minus one.
     * Removing the last entry puts it straight back, and removing the one
     * before it drops the last entry instead.
     */
    method RemoveAsWritten(key: nat)
      requires IndexOf(content, key) >= 0
      modifies this
      ensures multiset(content) == multiset(RemoveWriteBack(old(content), IndexOf(old(content), key)))
    {
      var i := IndexOf(content, key);
      ghost var prior := content;
      var node := content[i];
      var end := content[|content| - 1];
      content := content[..|content| - 1];
      if i != |content| - 1 {
        if i < |content| {
          content := content[i := end];
        } else {
          content := content + [end];
        }
        assert content == RemoveWriteBack(prior, i);
        if end.f - node.f < 0 {
          SinkDown(i);
        } else {
          BubbleUp(i);
        }
      }
    }

    /** `remove` with the comparison the method evidently intends: the entry is dropped and a heap stays a heap. */
    method Remove(key: nat)
      requires IndexOf(content, key) >= 0
      modifies this
      ensures multiset(content) == multiset(old(content)) - multiset{old(content)[IndexOf(old(content), key)]}
      ensures IsHeap(old(content)) ==> IsHeap(content)
    {
      var i := IndexOf(content, key);
      ghost var prior := content;
      var node := content[i];
      var end := content[|content| - 1];
      content := content[..|content| - 1];
      DropEntry(prior, i);
      if i != |content| {
        content := content[i := end];
        Resettle(prior, i, node, end);
      }
    }

    /** The move after `remove`'s write-back: toward the root if the entry written over slot `i` scores lower than the removed one, toward the leaves otherwise. */
    method Resettle(ghost prior: seq<Item>, i: nat, node: Item, end: Item)
      requires i < |prior| - 1 && node == prior[i] && end == prior[|prior| - 1]
      requires content == prior[..|prior| - 1][i := end]
      modifies this
      ensures multiset(content) == multiset(old(content))
      ensures IsHeap(prior) ==> IsHeap(content)
    {
      if IsHeap(prior) {
        Refill(prior, i);
      }
      if end.f - node.f < 0 {
        SinkDown(i);
      } else {
        BubbleUp(i);
      }
    }
  }

  /** Dropping the last entry, written over entry `i` unless `i` is the last, removes exactly entry `i`. */
  lemma DropEntry(c: seq<Item>, i: nat)
    requires i < |c|
    ensures i < |c| - 1 ==> multiset(c[..|c| - 1][i := c[|c| - 1]]) == multiset(c) - multiset{c[i]}
    ensures i == |c| - 1 ==> multiset(c[..|c| - 1]) == multiset(c) - multiset{c[i]}
  {
    assert c == c[..|c| - 1] + [c[|c| - 1]];
  }

  /** Writing the last entry of a heap over an earlier one leaves it ready to move up if it scores lower, and down otherwise. */
  lemma Refill(c: seq<Item>, i: nat)
    requires IsHeap(c) && i < |c| - 1
    ensures var d := c[..|c| - 1][i := c[|c| - 1]];
      && (c[|c| - 1].f < c[i].f ==> UpReady(d, i))
      && (c[|c| - 1].f >= c[i].f ==> DownReady(d, i))
  {
    var d := c[..|c| - 1][i := c[|c| - 1]];
    forall j | 0 < j < |d| ensures d[j] == (if j == i then c[|c| - 1] else c[j]) {
    }
  }

  /** The entries after `remove`'s pop and write-back, as written: index `i` is compared with the new length minus one. */
  function RemoveWriteBack(c: seq<Item>, i: nat): (r: seq<Item>)
    requires i < |c|
  {
    var rest := c[..|c| - 1];
    var end := c[|c| - 1];
    if i != |rest| - 1 then (if i < |rest| then rest[i := end] else rest + [end]) else rest
  }

  /** The two inputs that show the slip: the last entry is never removed, and the one before it removes the last instead. */
  lemma RemoveWriteBackSlips(a: Item, b: Item)
    requires a != b
    ensures RemoveWriteBack([a], 0) == [a]
    ensures RemoveWriteBack([a, b], 0) == [a]
    ensures multiset(RemoveWriteBack([a, b], 0)) != multiset([a, b]) - multiset{a}
  {
    assert multiset([a, b]) - multiset{a} == multiset{b};
    assert a in multiset([a]);
  }
}
