// The doubly linked list of adlist.c: nodes on the heap, linked in both directions.
module AdList {
  import opened Options

  class ListNode<T> {
    var prev: ListNode?<T>
    var next: ListNode?<T>
    var value: T

    constructor (value: T)
      ensures this.value == value && prev == null && next == null
    {
      this.value, prev, next := value, null, null;
    }
  }

  predicate Distinct<T>(s: seq<ListNode<T>>) { forall i, j | 0 <= i < j < |s| :: s[i] != s[j] }

  ghost function IndexOf<T>(s: seq<ListNode<T>>, n: ListNode<T>): (i: nat)
    requires n in s
    ensures i < |s| && s[i] == n
  {
    if s[0] == n then 0 else 1 + IndexOf(s[1..], n)
  }

  // Node `i` of a sequence points at its neighbours.
  ghost predicate LinkedAt<T>(s: seq<ListNode<T>>, i: nat)
    requires i < |s|
    reads s
  {
    s[i].prev == (if i == 0 then null else s[i - 1]) && s[i].next == (if i == |s| - 1 then null else s[i + 1])
  }

  lemma DistinctPush<T>(s: seq<ListNode<T>>, n: ListNode<T>)
    requires Distinct(s) && n !in s
    ensures Distinct([n] + s) && Distinct(s + [n])
  {
    var (a, b) := ([n] + s, s + [n]);
    forall i, j | 0 <= i < j < |a|
      ensures a[i] != a[j]
    {
      assert a[j] == s[j - 1];
      assert i > 0 ==> a[i] == s[i - 1];
    }
    forall i, j | 0 <= i < j < |b|
      ensures b[i] != b[j]
    {
      assert b[i] == s[i];
    }
  }

  lemma Apart<T>(s: seq<ListNode<T>>, k: nat)
    requires Distinct(s) && k < |s|
    ensures forall b | 0 <= b < |s| && b != k :: s[b] != s[k]
  {}

  lemma DistinctCut<T>(s: seq<ListNode<T>>, k: nat)
    requires Distinct(s) && k < |s|
    ensures var t := s[..k] + s[k + 1..]; Distinct(t) && s[k] !in t
  {
    var t := s[..k] + s[k + 1..];
    forall i, j | 0 <= i < j < |t|
      ensures t[i] != t[j]
    {
      assert t[i] == s[if i < k then i else i + 1] && t[j] == s[if j < k then j else j + 1];
    }
    forall i | 0 <= i < |t|
      ensures t[i] != s[k]
    {
      assert t[i] == s[if i < k then i else i + 1];
    }
  }

  lemma RotatedDistinct<T>(s: seq<ListNode<T>>)
    requires Distinct(s) && s != []
    ensures Distinct(s[1..] + [s[0]]) && Distinct([s[|s| - 1]] + s[..|s| - 1])
    ensures |s| > 1 ==> s[0] != s[1] && s[0] != s[|s| - 1]
  {
    var k := |s| - 1;
    DistinctCut(s, 0);
    assert s[..0] + s[1..] == s[1..];
    DistinctPush(s[1..], s[0]);
    DistinctCut(s, k);
    assert s[..k] + s[k + 1..] == s[..k];
    DistinctPush(s[..k], s[k]);
  }

  class List<T> {
    var head: ListNode?<T>
    var tail: ListNode?<T>
    var len: nat
    ghost var nodes: seq<ListNode<T>>

    // Head, tail, length, and the links of every node are those of the sequence of its nodes.
    ghost predicate Valid()
      reads this, nodes
    {
      && len == |nodes| && Distinct(nodes)
      && head == (if nodes == [] then null else nodes[0])
      && tail == (if nodes == [] then null else nodes[|nodes| - 1])
      && forall i | 0 <= i < |nodes| :: LinkedAt(nodes, i)
    }

    // listCreate
    constructor ()
      ensures Valid() && nodes == [] && fresh(this)
    {
      head, tail, len, nodes := null, null, 0, [];
    }

    // listLinkNodeHead
    method LinkNodeHead(node: ListNode<T>)
      requires Valid() && node !in nodes
      modifies this, nodes`prev, nodes`next, node`prev, node`next
      ensures Valid() && nodes == [node] + old(nodes)
    {
      DistinctPush(nodes, node);
      ghost var was := nodes;
      if len == 0 {
        head, tail := node, node;
        node.prev, node.next := null, null;
      } else {
        node.prev := null;
        node.next := head;
        head.prev := node;
        head := node;
      }
      len := len + 1;
      nodes := [node] + nodes;
      forall i | 0 <= i < |nodes|
        ensures LinkedAt(nodes, i)
      {
        assert i > 0 ==> nodes[i] == was[i - 1] && old(LinkedAt(was, i - 1));
      }
    }

    // listLinkNodeTail
    method LinkNodeTail(node: ListNode<T>)
      requires Valid() && node !in nodes
      modifies this, nodes`prev, nodes`next, node`prev, node`next
      ensures Valid() && nodes == old(nodes) + [node]
    {
      DistinctPush(nodes, node);
      ghost var was := nodes;
      if len == 0 {
        head, tail := node, node;
        node.prev, node.next := null, null;
      } else {
        node.prev := tail;
        node.next := null;
        tail.next := node;
        tail := node;
      }
      len := len + 1;
      nodes := nodes + [node];
      forall i | 0 <= i < |nodes|
        ensures LinkedAt(nodes, i)
      {
        assert i < |was| ==> nodes[i] == was[i] && old(LinkedAt(was, i));
      }
    }

    // listUnlinkNode
    method UnlinkNode(node: ListNode<T>)
      requires Valid() && node in nodes
      modifies this, nodes`prev, nodes`next
      ensures var i := IndexOf(old(nodes), node); Valid() && nodes == old(nodes)[..i] + old(nodes)[i + 1..]
      ensures node.prev == null && node.next == null && node !in nodes
    {
      ghost var (i, was) := (IndexOf(nodes, node), nodes);
      DistinctCut(nodes, i);
      assert LinkedAt(was, i);
      if node.prev != null {
        node.prev.next := node.next;
      } else {
        head := node.next;
      }
      if node.next != null {
        node.next.prev := node.prev;
      } else {
        tail := node.prev;
      }
      node.next := null;
      node.prev := null;
      len := len - 1;
      nodes := nodes[..i] + nodes[i + 1..];
      forall k | 0 <= k < |nodes|
        ensures LinkedAt(nodes, k)
      {
        var j := if k < i then k else k + 1;
        assert nodes[k] == was[j] && old(LinkedAt(was, j));
      }
    }

    // listRotateTailToHead
    method RotateTailToHead()
      requires Valid()
      modifies this, nodes`prev, nodes`next
      ensures Valid()
      ensures nodes == if |old(nodes)| <= 1 then old(nodes)
                       else [old(nodes)[|old(nodes)| - 1]] + old(nodes)[..|old(nodes)| - 1]
    {
      if len <= 1 {
        return;
      }
      ghost var (was, k) := (nodes, |nodes| - 1);
      RotatedDistinct(was);
      assert LinkedAt(was, k) && LinkedAt(was, 0);
      var last := tail;
      tail := last.prev;
      tail.next := null;
      head.prev := last;
      last.prev := null;
      last.next := head;
      head := last;
      nodes := [nodes[|nodes| - 1]] + nodes[..|nodes| - 1];
      forall i | 0 <= i < |nodes|
        ensures LinkedAt(nodes, i)
      {
        assert i > 0 ==> nodes[i] == was[i - 1] && old(LinkedAt(was, i - 1));
      }
    }

    // listRotateHeadToTail
    method RotateHeadToTail()
      requires Valid()
      modifies this, nodes`prev, nodes`next
      ensures Valid()
      ensures nodes == if |old(nodes)| <= 1 then old(nodes) else old(nodes)[1..] + [old(nodes)[0]]
    {
      if len <= 1 {
        return;
      }
      ghost var (was, k) := (nodes, |nodes| - 1);
      RotatedDistinct(was);
      assert LinkedAt(was, 0) && LinkedAt(was, k);
      hide Distinct;
      var first := head;
      head := first.next;
      head.prev := null;
      tail.next := first;
      first.next := null;
      first.prev := tail;
      tail := first;
      nodes := nodes[1..] + [nodes[0]];
      forall i | 0 <= i < |nodes|
        ensures LinkedAt(nodes, i)
      {
        assert i < |nodes| - 1 ==> nodes[i] == was[i + 1] && old(LinkedAt(was, i + 1));
      }
    }

    // listAddNodeHead
    method AddNodeHead(value: T)
      requires Valid()
      modifies this, nodes`prev, nodes`next
      ensures Valid() && |nodes| == |old(nodes)| + 1 && nodes[1..] == old(nodes)
      ensures fresh(nodes[0]) && nodes[0].value == value
    {
      var node := new ListNode(value);
      LinkNodeHead(node);
    }

    // listAddNodeTail
    method AddNodeTail(value: T)
      requires Valid()
      modifies this, nodes`prev, nodes`next
      ensures Valid() && |nodes| == |old(nodes)| + 1 && nodes[..|nodes| - 1] == old(nodes)
      ensures fresh(nodes[|nodes| - 1]) && nodes[|nodes| - 1].value == value
    {
      var node := new ListNode(value);
      LinkNodeTail(node);
    }

    // listInsertNode
    method InsertNode(oldNode: ListNode<T>, value: T, after: bool)
      requires Valid() && oldNode in nodes
      modifies this, nodes`prev, nodes`next
      ensures Valid() && |nodes| == |old(nodes)| + 1
      ensures var k := IndexOf(old(nodes), oldNode) + if after then 1 else 0;
              && k < |nodes| && nodes == old(nodes)[..k] + [nodes[k]] + old(nodes)[k..]
              && fresh(nodes[k]) && nodes[k].value == value
    {
      ghost var was := nodes;
      ghost var i := IndexOf(nodes, oldNode);
      ghost var k := i + if after then 1 else 0;
      assert LinkedAt(was, i);
      var node := new ListNode(value);
      DistinctInsert(was, node, k);
      if k > 0 {
        Apart(was, k - 1);
      }
      if k < |was| {
        Apart(was, k);
      }
      hide Distinct;
      if after {
        node.prev := oldNode;
        node.next := oldNode.next;
        if tail == oldNode {
          tail := node;
        }
      } else {
        node.next := oldNode;
        node.prev := oldNode.prev;
        if head == oldNode {
          head := node;
        }
      }
      if node.prev != null {
        node.prev.next := node;
      }
      if node.next != null {
        node.next.prev := node;
      }
      len := len + 1;
      nodes := was[..k] + [node] + was[k..];
      forall b | 0 <= b < |was|
        ensures AroundAt(was, node, k, b)
      {
        assert old(LinkedAt(was, b));
      }
      InsertedLinks(was, node, k);
      InsertedAt(was, node, k, k);
    }

    // listDelNode, but for freeing the value
    method DelNode(node: ListNode<T>)
      requires Valid() && node in nodes
      modifies this, nodes`prev, nodes`next
      ensures var i := IndexOf(old(nodes), node); Valid() && nodes == old(nodes)[..i] + old(nodes)[i + 1..]
      ensures node !in nodes
    {
      UnlinkNode(node);
    }

    // listJoin
    method Join(o: List<T>)
      requires Valid() && o.Valid() && o != this && forall n | n in nodes :: n !in o.nodes
      modifies this, nodes`prev, nodes`next, o, o.nodes`prev, o.nodes`next
      ensures Valid() && nodes == old(nodes) + old(o.nodes)
      ensures o.Valid() && o.nodes == []
    {
      ghost var (a, b) := (nodes, o.nodes);
      if o.len == 0 {
        assert a + b == a;
        return;
      }
      DistinctConcat(a, b);
      assert LinkedAt(b, 0);
      assert a != [] ==> LinkedAt(a, |a| - 1);
      o.head.prev := tail;
      if tail != null {
        tail.next := o.head;
      } else {
        head := o.head;
      }
      tail := o.tail;
      len := len + o.len;
      o.head, o.tail := null, null;
      o.len := 0;
      nodes, o.nodes := a + b, [];
      forall i | 0 <= i < |a|
        ensures BetweenAt(a, null, b[0], i)
      {
        assert a[i] in a && a[i] !in b && (i < |a| - 1 ==> a[i] != a[|a| - 1]);
        assert old(LinkedAt(a, i));
      }
      forall i | 0 <= i < |b|
        ensures BetweenAt(b, Last(a), null, i)
      {
        assert b[i] in b && b[i] !in a && (i > 0 ==> b[i] != b[0]);
        assert old(LinkedAt(b, i));
      }
      JoinedLinks(a, b);
    }

    // listIndex
    method Index(index0: int) returns (n: ListNode?<T>)
      requires Valid()
      ensures n == if 0 <= index0 < |nodes| then nodes[index0]
                   else if -|nodes| <= index0 < 0 then nodes[|nodes| + index0]
                   else null
    {
      var index: int;
      if index0 < 0 {
        index := -index0 - 1;
        n := tail;
        ghost var at := |nodes| - 1;
        while index != 0 && n != null
          invariant index >= 0 && at - index == |nodes| + index0
          invariant at < |nodes| && (if at >= 0 then n == nodes[at] else n == null)
          decreases index
        {
          assert LinkedAt(nodes, at);
          n := n.prev;
          index, at := index - 1, at - 1;
        }
      } else {
        index := index0;
        n := head;
        ghost var at := 0;
        while index != 0 && n != null
          invariant index >= 0 && at >= 0 && at + index == index0
          invariant if at < |nodes| then n == nodes[at] else n == null
          decreases index
        {
          assert LinkedAt(nodes, at);
          n := n.next;
          index, at := index - 1, at + 1;
        }
      }
    }

    // listSearchKey: the first node whose value matches, if any.
    method SearchKey(match': T -> bool) returns (found: ListNode?<T>)
      requires Valid()
      ensures found == null <==> forall i | 0 <= i < |nodes| :: !match'(nodes[i].value)
      ensures found != null ==> exists i | 0 <= i < |nodes| ::
                found == nodes[i] && match'(nodes[i].value) && forall j | 0 <= j < i :: !match'(nodes[j].value)
    {
      var iter := new ListIter(this, false);
      ghost var k := 0;
      while true
        invariant 0 <= k <= |nodes| && iter.At(this, k) && fresh(iter)
        invariant forall i | 0 <= i < k :: !match'(nodes[i].value)
        decreases |nodes| - k
      {
        var node := iter.Next(this, k);
        if node == null {
          return null;
        }
        if match'(node.value) {
          return node;
        }
        k := k + 1;
      }
    }

    // listDup: a fresh list of the copied values, or null if a value cannot be copied.
    method Dup(dup: T -> Option<T>) returns (copy: List?<T>)
      requires Valid()
      ensures copy == null <==> exists i | 0 <= i < |nodes| :: dup(nodes[i].value) == None
      ensures copy != null ==>
                && fresh(copy) && copy.Valid() && fresh(set n | n in copy.nodes) && |copy.nodes| == |nodes|
                && forall i | 0 <= i < |nodes| :: dup(nodes[i].value) == Some(copy.nodes[i].value)
    {
      hide Distinct, LinkedAt;
      var list := new List<T>();
      var iter := new ListIter(this, false);
      ghost var k := 0;
      while true
        invariant 0 <= k <= |nodes| && iter.At(this, k) && fresh(iter)
        invariant fresh(list) && list.Valid() && fresh(set n | n in list.nodes) && |list.nodes| == k
        invariant forall i | 0 <= i < k :: dup(nodes[i].value) == Some(list.nodes[i].value)
        decreases |nodes| - k
      {
        var node := iter.Next(this, k);
        if node == null {
          break;
        }
        var value := dup(node.value);
        if value.None? {
          return null;
        }
        list.AddNodeTail(value.value);
        k := k + 1;
      }
      copy := list;
    }
  }

  // Node `b` of a sequence points at its neighbours, or at `n` where that has come in before node `k`.
  ghost predicate AroundAt<T>(s: seq<ListNode<T>>, n: ListNode<T>, k: nat, b: nat)
    requires b < |s|
    reads s
  {
    && s[b].prev == (if b == k then n else if b == 0 then null else s[b - 1])
    && s[b].next == (if b + 1 == k then n else if b == |s| - 1 then null else s[b + 1])
  }

  lemma InsertedLinks<T>(s: seq<ListNode<T>>, n: ListNode<T>, k: nat)
    requires k <= |s|
    requires forall b | 0 <= b < |s| :: AroundAt(s, n, k, b)
    requires n.prev == (if k == 0 then null else s[k - 1]) && n.next == (if k == |s| then null else s[k])
    ensures var t := s[..k] + [n] + s[k..]; forall j | 0 <= j < |t| :: LinkedAt(t, j)
  {
    var t := s[..k] + [n] + s[k..];
    forall j | 0 <= j < |t|
      ensures LinkedAt(t, j)
    {
      InsertedAt(s, n, k, j);
      if j > 0 {
        InsertedAt(s, n, k, j - 1);
      }
      if j < |s| {
        InsertedAt(s, n, k, j + 1);
      }
      if j != k {
        var b := if j < k then j else j - 1;
        assert AroundAt(s, n, k, b);
      }
    }
  }

  lemma InsertedAt<T>(s: seq<T>, n: T, k: nat, j: nat)
    requires k <= |s| && j <= |s|
    ensures (s[..k] + [n] + s[k..])[j] == if j < k then s[j] else if j == k then n else s[j - 1]
  {}

  function Last<T>(s: seq<ListNode<T>>): ListNode?<T> { if s == [] then null else s[|s| - 1] }

  // Node `i` of a sequence points at its neighbours, with `before` in front of the first and `after` behind the last.
  ghost predicate BetweenAt<T>(s: seq<ListNode<T>>, before: ListNode?<T>, after: ListNode?<T>, i: nat)
    requires i < |s|
    reads s
  {
    && s[i].prev == (if i == 0 then before else s[i - 1])
    && s[i].next == (if i == |s| - 1 then after else s[i + 1])
  }

  lemma JoinedLinks<T>(a: seq<ListNode<T>>, b: seq<ListNode<T>>)
    requires b != []
    requires forall i | 0 <= i < |a| :: BetweenAt(a, null, b[0], i)
    requires forall i | 0 <= i < |b| :: BetweenAt(b, Last(a), null, i)
    ensures var t := a + b; forall j | 0 <= j < |t| :: LinkedAt(t, j)
  {
    var t := a + b;
    forall j | 0 <= j < |t|
      ensures LinkedAt(t, j)
    {
      assert j > 0 ==> t[j - 1] == if j - 1 < |a| then a[j - 1] else b[j - 1 - |a|];
      assert j < |t| - 1 ==> t[j + 1] == if j + 1 < |a| then a[j + 1] else b[j + 1 - |a|];
      if j < |a| {
        assert t[j] == a[j];
        assert BetweenAt(a, null, b[0], j);
      } else {
        var i := j - |a|;
        assert t[j] == b[i];
        assert BetweenAt(b, Last(a), null, i);
      }
    }
  }

  lemma DistinctInsert<T>(s: seq<ListNode<T>>, n: ListNode<T>, k: nat)
    requires Distinct(s) && n !in s && k <= |s|
    ensures Distinct(s[..k] + [n] + s[k..])
  {
    var t := s[..k] + [n] + s[k..];
    forall i, j | 0 <= i < j < |t|
      ensures t[i] != t[j]
    {
      assert i != k ==> t[i] == s[if i < k then i else i - 1];
      assert j != k ==> t[j] == s[if j < k then j else j - 1];
    }
  }

  lemma DistinctConcat<T>(a: seq<ListNode<T>>, b: seq<ListNode<T>>)
    requires Distinct(a) && Distinct(b) && forall n | n in a :: n !in b
    ensures Distinct(a + b)
  {
    var t := a + b;
    forall i, j | 0 <= i < j < |t|
      ensures t[i] != t[j]
    {
      assert i < |a| ==> t[i] in a;
      assert j >= |a| ==> t[j] in b;
    }
  }

  class ListIter<T> {
    var next: ListNode?<T>
    const fromTail: bool

    // listGetIterator, listRewind and listRewindTail
    constructor (list: List<T>, fromTail: bool)
      requires list.Valid()
      ensures this.fromTail == fromTail && next == (if fromTail then list.tail else list.head)
      ensures At(list, 0)
    {
      next := if fromTail then list.tail else list.head;
      this.fromTail := fromTail;
    }

    // The iterator has given out `k` of the nodes the list has now.
    ghost predicate At(list: List<T>, k: nat)
      reads this, list
    {
      && k <= |list.nodes|
      && next == if k == |list.nodes| then null
                 else if fromTail then list.nodes[|list.nodes| - 1 - k] else list.nodes[k]
    }

    // listNext
    method Next(ghost list: List<T>, ghost k: nat) returns (current: ListNode?<T>)
      requires list.Valid() && At(list, k)
      modifies `next
      ensures current == null <==> k == |list.nodes|
      ensures current != null ==> At(list, k + 1)
      ensures current != null ==> current == if fromTail then list.nodes[|list.nodes| - 1 - k] else list.nodes[k]
      ensures current == null ==> At(list, k)
    {
      current := next;
      if current != null {
        assert LinkedAt(list.nodes, if fromTail then |list.nodes| - 1 - k else k);
        if !fromTail {
          next := current.next;
        } else {
          next := current.prev;
        }
      }
    }
  }

  // The nodes that are not marked.
  function Unmarked<T>(s: seq<ListNode<T>>, marks: seq<bool>): seq<ListNode<T>>
    requires |s| == |marks|
  {
    if s == [] then []
    else
      Unmarked(s[..|s| - 1], marks[..|s| - 1]) + if marks[|s| - 1] then [] else [s[|s| - 1]]
  }

  // Walking a list and deleting nodes as they come up, those marked: every node the list had is visited exactly once,
  // in order, and the others are what is left.
  method DeleteWhileIterating<T>(list: List<T>, doomed: seq<bool>) returns (visited: seq<ListNode<T>>)
    requires list.Valid() && |doomed| == |list.nodes|
    modifies list, list.nodes`prev, list.nodes`next
    ensures list.Valid() && visited == old(list.nodes) && list.nodes == Unmarked(old(list.nodes), doomed)
  {
    hide *;
    ghost var was := list.nodes;
    visited := [];
    NoneUnmarked<T>();
    var iter := new ListIter(list, false);
    ghost var kept: seq<ListNode<T>> := [];
    assert was[0..] == was;
    while true
      invariant |visited| <= |was| && visited == was[..|visited|]
      invariant kept == Unmarked(was[..|visited|], doomed[..|visited|])
      invariant list.Valid() && list.nodes == kept + was[|visited|..] && |doomed| == |was|
      invariant iter.At(list, |kept|) && !iter.fromTail && fresh(iter)
      decreases |was| - |visited|
    {
      ghost var k := |visited|;
      var node := iter.Next(list, |kept|);
      if node == null {
        break;
      }
      NextUnmarked(was, doomed, k);
      SplitAt(was, kept, k);
      visited := visited + [node];
      if doomed[|visited| - 1] {
        LeftWithin(was, doomed, k);
        DeleteHere(list, iter, kept, was[k + 1..], node);
      } else {
        kept := kept + [node];
      }
    }
    assert was[..|was|] == was && doomed[..|was|] == doomed;
  }

  // The same walk from the tail, with the nodes coming up in the opposite order.
  method DeleteWhileIteratingBack<T>(list: List<T>, doomed: seq<bool>) returns (visited: seq<ListNode<T>>)
    requires list.Valid() && |doomed| == |list.nodes|
    modifies list, list.nodes`prev, list.nodes`next
    ensures list.Valid() && list.nodes == Unmarked(old(list.nodes), doomed) && |visited| == |doomed|
    ensures forall i | 0 <= i < |visited| :: visited[i] == old(list.nodes)[|visited| - 1 - i]
  {
    hide *;
    ghost var was := list.nodes;
    ghost var (n, j) := (|was|, |was|);
    visited := [];
    NoneUnmarked<T>();
    var iter := new ListIter(list, true);
    ghost var kept: seq<ListNode<T>> := [];
    assert was[..n] == was && was[n..] == [] && doomed[n..] == [];
    while true
      invariant j >= 0 && |visited| + j == n == |doomed|
      invariant forall i | 0 <= i < |visited| :: visited[i] == was[n - 1 - i]
      invariant kept == Unmarked(was[j..], doomed[j..])
      invariant list.Valid() && list.nodes == was[..j] + kept
      invariant iter.At(list, |kept|) && iter.fromTail && fresh(iter)
      decreases j
    {
      var node := iter.Next(list, |kept|);
      if node == null {
        break;
      }
      j := j - 1;
      BackUnmarked(was, doomed, j);
      SplitBack(was, kept, j);
      visited := visited + [node];
      if doomed[|doomed| - |visited|] {
        LeftBack(was, doomed, j + 1);
        DeleteHere(list, iter, was[..j], kept, node);
      } else {
        kept := [node] + kept;
      }
    }
    assert was[0..] == was && doomed[0..] == doomed;
  }

  lemma {:induction false} UnmarkedConcat<T>(a: seq<ListNode<T>>, ma: seq<bool>, b: seq<ListNode<T>>, mb: seq<bool>)
    requires |a| == |ma| && |b| == |mb|
    ensures Unmarked(a + b, ma + mb) == Unmarked(a, ma) + Unmarked(b, mb)
    decreases |b|
  {
    var k := |b| - 1;
    if b == [] {
      assert a + b == a && ma + mb == ma;
    } else {
      assert (a + b)[..|a| + k] == a + b[..k] && (ma + mb)[..|a| + k] == ma + mb[..k];
      UnmarkedConcat(a, ma, b[..k], mb[..k]);
    }
  }

  lemma BackUnmarked<T>(s: seq<ListNode<T>>, marks: seq<bool>, j: nat)
    requires |s| == |marks| && j < |s|
    ensures var u := Unmarked(s[j + 1..], marks[j + 1..]);
            Unmarked(s[j..], marks[j..]) == if marks[j] then u else [s[j]] + u
  {
    UnmarkedConcat([s[j]], [marks[j]], s[j + 1..], marks[j + 1..]);
    assert s[j..] == [s[j]] + s[j + 1..] && marks[j..] == [marks[j]] + marks[j + 1..];
    assert [s[j]][..0] == [] && [marks[j]][..0] == [];
    assert Unmarked([s[j]], [marks[j]]) == if marks[j] then [] else [s[j]];
  }

  lemma SplitBack<T>(s: seq<T>, kept: seq<T>, j: nat)
    requires j < |s|
    ensures s[..j + 1] + kept == s[..j] + [s[j]] + kept == s[..j] + ([s[j]] + kept)
    ensures (s[..j + 1] + kept)[j] == s[j]
  {}

  lemma LeftBack<T>(s: seq<ListNode<T>>, marks: seq<bool>, j: nat)
    requires |s| == |marks| && j <= |s|
    ensures var t := s[..j] + Unmarked(s[j..], marks[j..]); forall i | 0 <= i < |t| :: t[i] in s
  {
    UnmarkedWithin(s[j..], marks[j..]);
    var u := Unmarked(s[j..], marks[j..]);
    forall i | 0 <= i < |s[..j] + u|
      ensures (s[..j] + u)[i] in s
    {
      assert i >= j ==> u[i - j] in u;
    }
  }

  lemma NoneUnmarked<T>()
    ensures Unmarked<T>([], []) == []
  {}

  lemma {:induction false} UnmarkedWithin<T>(s: seq<ListNode<T>>, marks: seq<bool>)
    requires |s| == |marks|
    ensures forall n | n in Unmarked(s, marks) :: n in s
  {
    if s != [] {
      UnmarkedWithin(s[..|s| - 1], marks[..|s| - 1]);
    }
  }

  lemma LeftWithin<T>(s: seq<ListNode<T>>, marks: seq<bool>, k: nat)
    requires |s| == |marks| && k <= |s|
    ensures var t := Unmarked(s[..k], marks[..k]) + s[k..]; forall i | 0 <= i < |t| :: t[i] in s
  {
    UnmarkedWithin(s[..k], marks[..k]);
    var u := Unmarked(s[..k], marks[..k]);
    forall i | 0 <= i < |u + s[k..]|
      ensures (u + s[k..])[i] in s
    {
      assert i < |u| ==> u[i] in u;
    }
  }

  lemma SplitAt<T>(s: seq<T>, kept: seq<T>, k: nat)
    requires k < |s|
    ensures kept + s[k..] == kept + [s[k]] + s[k + 1..] && (kept + s[k..])[|kept|] == s[k]
    ensures s[..k] + [s[k]] == s[..k + 1]
  {}

  lemma NextUnmarked<T>(s: seq<ListNode<T>>, marks: seq<bool>, k: nat)
    requires |s| == |marks| && k < |s|
    ensures var u := Unmarked(s[..k], marks[..k]);
            Unmarked(s[..k + 1], marks[..k + 1]) == if marks[k] then u else u + [s[k]]
  {
    assert s[..k + 1][..k] == s[..k] && marks[..k + 1][..k] == marks[..k];
  }

  // Deleting the node just given out leaves the iterator in its place.
  method DeleteHere<T>(list: List<T>, iter: ListIter<T>, ghost before: seq<ListNode<T>>, ghost after: seq<ListNode<T>>,
                       node: ListNode<T>)
    requires list.Valid() && list.nodes == before + [node] + after
    requires iter.At(list, 1 + if iter.fromTail then |after| else |before|)
    modifies list, list.nodes`prev, list.nodes`next
    ensures list.Valid() && list.nodes == before + after && iter.At(list, if iter.fromTail then |after| else |before|)
  {
    hide LinkedAt, IndexOf;
    IndexAt(list.nodes, |before|);
    assert list.nodes[|before|] == node;
    ghost var was := list.nodes;
    list.DelNode(node);
    assert was[..|before|] == before && was[|before| + 1..] == after;
  }

  lemma IndexAt<T>(s: seq<ListNode<T>>, i: nat)
    requires Distinct(s) && i < |s|
    ensures IndexOf(s, s[i]) == i
  {}
}
