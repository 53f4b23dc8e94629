// The item pool: 256 nodes linked in place into three priority queues and a free list, or
// executing. A pointer to a node is its index in the pool, NIL the null pointer. The ghost lists
// give each chain as a sequence; Valid ties the links to them.

module ItemPool {
  import opened Bytes
  import opened Wire
  import opened Machine

  const NIL := -1
  const FREE := 3
  const RUNNING := 4

  /** What a node holds besides its link; handlers store results in the body. */
  datatype Node = Node(slot: nat, hdr: Hdr, body: seq<byte>)

  /** The node holds the item as it was sent. */
  predicate NodeIs(n: Node, it: Item) {
    n == Node(it.slot, it.hdr, it.body)
  }

  type Lists = seq<seq<int>>

  // --- Where the nodes are -------------------------------------------------------------------

  ghost predicate Distinct(l: seq<int>) {
    forall i, j :: 0 <= i < j < |l| ==> l[i] != l[j]
  }

  /** List k holds exactly the nodes whose home it is, each once. */
  ghost predicate ListOk(l: seq<int>, home: seq<nat>, k: nat) {
    && Distinct(l)
    && (forall i :: 0 <= i < |l| ==> 0 <= l[i] < |home| && home[l[i]] == k)
    && (forall n :: 0 <= n < |home| && home[n] == k ==> n in l)
  }

  /** The lists partition the pool. */
  ghost predicate Placed(lists: Lists, home: seq<nat>) {
    && |lists| == 5
    && (forall k :: 0 <= k < 5 ==> ListOk(lists[k], home, k))
    && (forall n :: 0 <= n < |home| ==> home[n] < 5)
  }

  lemma OnList(lists: Lists, home: seq<nat>, k: nat)
    requires Placed(lists, home) && k < 5
    ensures |lists| == 5 && Distinct(lists[k])
    ensures forall i :: 0 <= i < |lists[k]| ==> 0 <= lists[k][i] < |home| && home[lists[k][i]] == k
  {
    assert ListOk(lists[k], home, k);
  }

  /** Taking a node off one list and adding it, at either end, to another. */
  lemma Moved(lists: Lists, home: seq<nat>, k: nat, i: nat, m: nat, dest: seq<int>)
    requires Placed(lists, home) && k < 5 && m < 5 && k != m && i < |lists[k]|
    requires dest == lists[m] + [lists[k][i]] || dest == [lists[k][i]] + lists[m]
    ensures 0 <= lists[k][i] < |home|
    ensures Placed(lists[k := Without(lists[k], i)][m := dest], home[lists[k][i] := m])
  {
    assert ListOk(lists[k], home, k) && ListOk(lists[m], home, m);
    var x := lists[k][i];
    var lists', home' := lists[k := Without(lists[k], i)][m := dest], home[x := m];
    forall j | 0 <= j < 5 ensures ListOk(lists'[j], home', j) {
      assert ListOk(lists[j], home, j);
      if j == k {
        RemovedOk(lists[k], home, k, i, m);
      } else if j == m {
        AddedOk(lists[m], home, m, x, dest);
      } else {
        assert forall n :: 0 <= n < |home'| && home'[n] == j ==> home[n] == j;
      }
    }
  }

  lemma RemovedOk(l: seq<int>, home: seq<nat>, k: nat, i: nat, m: nat)
    requires ListOk(l, home, k) && i < |l| && k != m
    ensures ListOk(Without(l, i), home[l[i] := m], k)
  {
    var r := Without(l, i);
    assert forall j :: 0 <= j < |r| ==> r[j] == l[if j < i then j else j + 1];
    forall n | 0 <= n < |home| && home[l[i] := m][n] == k ensures n in r {
      var j :| 0 <= j < |l| && l[j] == n;
      assert r[if j < i then j else j - 1] == n;
    }
  }

  lemma AddedOk(l: seq<int>, home: seq<nat>, m: nat, x: int, dest: seq<int>)
    requires ListOk(l, home, m) && 0 <= x < |home| && home[x] != m && (dest == l + [x] || dest == [x] + l)
    ensures ListOk(dest, home[x := m], m)
  {
    forall n | 0 <= n < |home| && home[x := m][n] == m ensures n in dest {
      if n != x { assert n in l; }
    }
  }

  function Elems(l: seq<int>): set<int> { set i | 0 <= i < |l| :: l[i] }

  lemma {:induction false} DistinctSize(l: seq<int>)
    requires Distinct(l)
    ensures |Elems(l)| == |l|
  {
    if l != [] {
      var r := l[..|l| - 1];
      DistinctSize(r);
      assert Elems(l) == Elems(r) + {l[|l| - 1]};
    }
  }

  /** How many nodes have home k. */
  function CountAt(home: seq<nat>, k: nat): nat {
    if home == [] then 0 else CountAt(home[..|home| - 1], k) + if home[|home| - 1] == k then 1 else 0
  }

  function NodesAt(home: seq<nat>, k: nat): (r: set<int>)
    ensures forall n :: n in r ==> 0 <= n < |home|
  {
    if home == [] then {}
    else NodesAt(home[..|home| - 1], k) + if home[|home| - 1] == k then {|home| - 1} else {}
  }

  lemma {:induction false} NodesAtSize(home: seq<nat>, k: nat)
    ensures |NodesAt(home, k)| == CountAt(home, k)
    ensures forall n :: 0 <= n < |home| ==> (n in NodesAt(home, k) <==> home[n] == k)
  {
    if home != [] { NodesAtSize(home[..|home| - 1], k); }
  }

  lemma {:induction false} HomesAddUp(home: seq<nat>)
    requires forall n :: 0 <= n < |home| ==> home[n] < 5
    ensures CountAt(home, 0) + CountAt(home, 1) + CountAt(home, 2) + CountAt(home, 3) + CountAt(home, 4) == |home|
  {
    if home != [] { HomesAddUp(home[..|home| - 1]); }
  }

  lemma ListSize(lists: Lists, home: seq<nat>, k: nat)
    requires Placed(lists, home) && k < 5
    ensures |lists[k]| == CountAt(home, k)
  {
    assert ListOk(lists[k], home, k);
    DistinctSize(lists[k]);
    NodesAtSize(home, k);
    assert Elems(lists[k]) == NodesAt(home, k);
  }

  /** No node is lost or duplicated: the five lists together are as long as the pool. */
  lemma PoolSize(lists: Lists, home: seq<nat>)
    requires Placed(lists, home)
    ensures |lists| == 5 && |lists[0]| + |lists[1]| + |lists[2]| + |lists[3]| + |lists[4]| == |home|
  {
    HomesAddUp(home);
    forall k: nat | k < 5 ensures |lists[k]| == CountAt(home, k) { ListSize(lists, home, k); }
  }

  // --- Chains --------------------------------------------------------------------------------

  /** The i-th node of the chain, NIL before its beginning and after its end. */
  function Nth(l: seq<int>, i: int): int {
    if 0 <= i < |l| then l[i] else NIL
  }

  /** Following the links from first visits l and ends. */
  ghost predicate Linked(next: seq<int>, l: seq<int>, first: int) {
    && first == Nth(l, 0)
    && (forall i :: 0 <= i < |l| ==> 0 <= l[i] < |next|)
    && (forall i {:trigger next[l[i]]} :: 0 <= i < |l| ==> next[l[i]] == Nth(l, i + 1))
  }

  function LastOf(l: seq<int>): int { Nth(l, |l| - 1) }

  /** The nodes hold these items. */
  ghost predicate Shows(nodes: seq<Node>, l: seq<int>, q: seq<Item>) {
    && |q| == |l|
    && forall i :: 0 <= i < |l| ==> 0 <= l[i] < |nodes| && nodes[l[i]].slot == q[i].slot && nodes[l[i]].hdr == q[i].hdr
  }

  /** The nodes hold these items as they were sent. */
  ghost predicate Holds(nodes: seq<Node>, l: seq<int>, q: seq<Item>) {
    Shows(nodes, l, q) && forall i :: 0 <= i < |l| ==> nodes[l[i]].body == q[i].body
  }

  /** Closing the chain over its i-th node. */
  lemma CutLinked(next: seq<int>, l: seq<int>, first: int, i: nat)
    requires Linked(next, l, first) && Distinct(l) && i < |l|
    ensures i == 0 ==> Linked(next, Without(l, i), next[l[i]])
    ensures i > 0 ==> Linked(next[l[i - 1] := next[l[i]]], Without(l, i), first)
  {
    var r := Without(l, i);
    WithoutIs(l, i);
    hide Without;
    if i > 0 {
      var nx := next[l[i - 1] := next[l[i]]];
      forall j | 0 <= j < |r| ensures 0 <= r[j] < |nx| && nx[r[j]] == Nth(r, j + 1) {
        assert j == i - 1 <==> r[j] == l[i - 1];
      }
    }
  }

  function WithoutAt(l: seq<int>, i: nat, j: nat): int
    requires i < |l| && j < |l| - 1
  {
    if j < i then l[j] else l[j + 1]
  }

  lemma WithoutIs(l: seq<int>, i: nat)
    requires i < |l|
    ensures |Without(l, i)| == |l| - 1 && forall j :: 0 <= j < |l| - 1 ==> Without(l, i)[j] == WithoutAt(l, i, j)
  {
  }

  lemma WithoutNext(kept: seq<Item>, orig: seq<Item>, d: nat)
    requires d < |orig|
    ensures Without(kept + orig[d..], |kept|) == kept + orig[d + 1..]
  {
  }

  lemma KeepNext(kept: seq<Item>, orig: seq<Item>, d: nat)
    requires d < |orig|
    ensures kept + orig[d..] == (kept + [orig[d]]) + orig[d + 1..]
  {
  }

  lemma HoldsLength(nodes: seq<Node>, l: seq<int>, q: seq<Item>)
    requires Holds(nodes, l, q)
    ensures |l| == |q| && Shows(nodes, l, q)
  {
  }

  lemma CutHolds(nodes: seq<Node>, l: seq<int>, q: seq<Item>, i: nat)
    requires Holds(nodes, l, q) && i < |l|
    ensures |q| == |l| && Holds(nodes, Without(l, i), Without(q, i))
  {
  }

  lemma ShowsOneMore(nodes: seq<Node>, l: seq<int>, q: seq<Item>, l': seq<int>, q': seq<Item>, i: nat)
    requires Shows(nodes, l, q) && Holds(nodes, l', q') && i < |l'|
    ensures |q'| == |l'| && Shows(nodes, l + [l'[i]], q + [q'[i]])
  {
  }

  lemma FirstIs(q: seq<Item>, owner: Option<nat>, i: nat)
    requires i <= |q| && (i < |q| ==> Eligible(owner, q[i])) && forall j :: 0 <= j < i ==> !Eligible(owner, q[j])
    ensures i == FirstIn(q, owner)
  {
  }

  /** `item_eligible` */
  predicate NodeEligible(owner: Option<nat>, n: Node) {
    owner.None? || n.slot == owner.value || (n.hdr.typ >= CLAIM && n.hdr.typ != MAILBOX)
  }

  lemma ChainAt(next: seq<int>, nodes: seq<Node>, l: seq<int>, first: int, q: seq<Item>, i: nat)
    requires Linked(next, l, first) && Shows(nodes, l, q) && i < |l|
    ensures |q| == |l| && 0 <= l[i] < |next| && l[i] < |nodes| && next[l[i]] == Nth(l, i + 1)
    ensures nodes[l[i]].slot == q[i].slot && nodes[l[i]].hdr == q[i].hdr
    ensures forall owner :: NodeEligible(owner, nodes[l[i]]) == Eligible(owner, q[i])
  {
  }

  /** The inner loop of `drain_queues`: walks a chain to its first eligible item. */
  method Find(next: array<int>, node: array<Node>, first: int, owner: Option<nat>,
              ghost l: seq<int>, ghost q: seq<Item>) returns (prev: int, it: int)
    requires Linked(next[..], l, first) && Shows(node[..], l, q)
    ensures |l| == |q| && it == Nth(l, FirstIn(q, owner)) && prev == Nth(l, FirstIn(q, owner) - 1)
  {
    assert first == Nth(l, 0) && |q| == |l|;
    hide Linked;
    hide Shows;
    hide Eligible;
    hide NodeEligible;
    hide FirstIn;
    ghost var nx, nd := next[..], node[..];
    prev, it := NIL, first;
    ghost var i := 0;
    if l != [] { ChainAt(nx, nd, l, first, q, 0); }
    while it != NIL && !NodeEligible(owner, node[it])
      invariant Walked(l, q, owner, i, prev, it)
      invariant i < |l| ==> 0 <= it < next.Length && it < node.Length
                            && NodeEligible(owner, node[it]) == Eligible(owner, q[i]) && next[it] == Nth(l, i + 1)
      decreases |l| - i
    {
      prev, it, i := it, next[it], i + 1;
      if i < |l| { ChainAt(nx, nd, l, first, q, i); }
    }
    FirstIs(q, owner, i);
  }

  /** The walk stands at the i-th item, none before it eligible. */
  ghost predicate Walked(l: seq<int>, q: seq<Item>, owner: Option<nat>, i: nat, prev: int, it: int) {
    i <= |l| == |q| && it == Nth(l, i) && prev == Nth(l, i - 1) && forall j :: 0 <= j < i ==> !Eligible(owner, q[j])
  }

  /** The tail walk: `while (t && t->next) t = t->next;` */
  method FindLast(next: array<int>, first: int, ghost l: seq<int>) returns (t: int)
    requires Linked(next[..], l, first)
    ensures t == LastOf(l)
  {
    ghost var nx, j := next[..], 0;
    t := first;
    while t != NIL && next[t] != NIL
      invariant t == Nth(l, j) && (t == NIL ==> l == [])
      invariant t != NIL ==> 0 <= t < next.Length
      decreases |l| - j
    {
      assert nx[l[j]] == next[t];
      t, j := next[t], j + 1;
    }
    assert t != NIL ==> nx[l[j]] == next[t];
  }

  // --- The pool as a value -------------------------------------------------------------------

  datatype Snap = Snap(
    next: seq<int>, node: seq<Node>, head: seq<int>, tail: seq<int>, freel: int,
    lists: Lists,       // high, normal, low, free, executing
    home: seq<nat>,
    queues: Queues,     // what the queues hold
    running: seq<Item>) // what is executing, innermost last
  {
    ghost predicate QueueOk(k: nat)
      requires k < 3 && |lists| == 5 && |head| == 3 && |tail| == 3
    {
      Linked(next, lists[k], head[k]) && tail[k] == LastOf(lists[k]) && Holds(node, lists[k], queues[k])
    }

    /** Queues, free list and executing items are disjoint chains without cycles that together
        hold the pool, and each tail is the last node of its queue. */
    ghost predicate Ok() {
      && |next| == |node| == |home| == MAX_QITEMS && |head| == 3 && |tail| == 3
      && Placed(lists, home)
      && (forall k :: 0 <= k < 3 ==> QueueOk(k))
      && Linked(next, lists[FREE], freel)
      && Shows(node, lists[RUNNING], running)
    }

    /** Item i of queue k unlinked for execution. */
    function Unlinked(k: nat, i: nat): Snap
      requires k < 3 && |lists| == 5 && |head| == 3 && |tail| == 3 && i < |lists[k]| && i < |queues[k]|
      requires 0 <= lists[k][i] < |next| == |home|
      requires i > 0 ==> 0 <= lists[k][i - 1] < |next|
    {
      var l, it := lists[k], lists[k][i];
      this.(next := if i == 0 then next else next[l[i - 1] := next[it]],
            head := if i == 0 then head[k := next[it]] else head,
            tail := tail[k := LastOf(Without(l, i))],
            lists := lists[k := Without(l, i)][RUNNING := lists[RUNNING] + [it]],
            home := home[it := RUNNING],
            queues := queues[k := Without(queues[k], i)],
            running := running + [queues[k][i]])
    }

    lemma UnlinkedOk(k: nat, i: nat)
      requires Ok() && k < 3 && i < |lists[k]|
      ensures i < |queues[k]| && 0 <= lists[k][i] < |next| && (i > 0 ==> 0 <= lists[k][i - 1] < |next|)
      ensures Unlinked(k, i).Ok()
    {
      hide Placed;
      hide Linked;
      hide Holds;
      hide Shows;
      OnList(lists, home, k);
      assert QueueOk(k);
      HoldsLength(node, lists[k], queues[k]);
      assert i > 0 ==> 0 <= lists[k][i - 1] < |home|;
      var u := Unlinked(k, i);
      Moved(lists, home, k, i, RUNNING, lists[RUNNING] + [lists[k][i]]);
      CutLinked(next, lists[k], head[k], i);
      CutHolds(node, lists[k], queues[k], i);
      ShowsOneMore(node, lists[RUNNING], running, lists[k], queues[k], i);
      forall j | 0 <= j < 3 ensures u.QueueOk(j) {
        assert QueueOk(j);
        OnList(lists, home, j);
        if j != k && i > 0 { Unaffected(next, lists[j], head[j], lists[k][i - 1], next[lists[k][i]]); }
      }
      OnList(lists, home, FREE);
      if i > 0 { Unaffected(next, lists[FREE], freel, lists[k][i - 1], next[lists[k][i]]); }
    }

    /** The first free node filled and appended to queue k. */
    function Appended(k: nat, it: Item): Snap
      requires k < 3 && |lists| == 5 && |head| == 3 && |tail| == 3 && 0 <= freel < |next| == |node| == |home|
      requires lists[FREE] != [] && (lists[k] != [] ==> 0 <= tail[k] < |next|)
    {
      var n := freel;
      this.(next := if lists[k] == [] then next[n := NIL] else next[n := NIL][tail[k] := n],
            node := node[n := Node(it.slot, it.hdr, it.body)],
            head := if lists[k] == [] then head[k := n] else head,
            tail := tail[k := n],
            freel := next[n],
            lists := lists[FREE := Without(lists[FREE], 0)][k := lists[k] + [n]],
            home := home[n := k],
            queues := queues[k := queues[k] + [it]])
    }

    lemma Ends(k: nat)
      requires Ok() && k < 3
      ensures |lists| == 5 && (freel == NIL <==> lists[FREE] == []) && (tail[k] == NIL <==> lists[k] == [])
    {
      OnList(lists, home, k);
      OnList(lists, home, FREE);
      assert QueueOk(k);
    }

    lemma FreeNode()
      requires Ok() && lists[FREE] != []
      ensures |lists| == 5 && 0 <= freel < |next| && freel == lists[FREE][0] && home[freel] == FREE
    {
      OnList(lists, home, FREE);
    }

    lemma TailNode(k: nat)
      requires Ok() && k < 3 && lists[k] != []
      ensures |lists| == 5 && 0 <= tail[k] < |next| && home[tail[k]] == k && tail[k] == LastOf(lists[k])
    {
      OnList(lists, home, k);
      assert QueueOk(k);
    }

    lemma AppendedOk(k: nat, it: Item)
      requires Ok() && k < 3 && lists[FREE] != []
      ensures 0 <= freel < |next| && (lists[k] != [] ==> 0 <= tail[k] < |next|)
      ensures Appended(k, it).Ok()
    {
      FreeNode();
      if lists[k] != [] { TailNode(k); }
      var n, u := freel, Appended(k, it);
      Moved(lists, home, FREE, 0, k, lists[k] + [n]);
      AppendedFree(k, it);
      AppendedRunning(k, it);
      forall j | 0 <= j < 3 ensures u.QueueOk(j) {
        if j == k { AppendedQueue(k, it); } else { AppendedOther(k, it, j); }
      }
    }

    lemma AppendedFree(k: nat, it: Item)
      requires Ok() && k < 3 && lists[FREE] != [] && 0 <= freel < |next| && (lists[k] != [] ==> 0 <= tail[k] < |next|)
      ensures Linked(Appended(k, it).next, Appended(k, it).lists[FREE], next[freel])
    {
      hide Placed;
      OnList(lists, home, FREE);
      var l, n := lists[FREE], freel;
      CutLinked(next, l, freel, 0);
      var r := Without(l, 0);
      assert n !in r;
      Unaffected(next, r, next[n], n, NIL);
      if lists[k] != [] {
        TailNode(k);
        assert tail[k] !in r;
        Unaffected(next[n := NIL], r, next[n], tail[k], n);
      }
    }

    lemma AppendedRunning(k: nat, it: Item)
      requires Ok() && k < 3 && lists[FREE] != [] && 0 <= freel < |next| && (lists[k] != [] ==> 0 <= tail[k] < |next|)
      ensures Shows(Appended(k, it).node, lists[RUNNING], running)
    {
      hide Placed;
      FreeNode();
      OnList(lists, home, RUNNING);
    }

    lemma AppendedOther(k: nat, it: Item, j: nat)
      requires Ok() && k < 3 && j < 3 && j != k && lists[FREE] != [] && 0 <= freel < |next|
      requires lists[k] != [] ==> 0 <= tail[k] < |next|
      ensures Appended(k, it).QueueOk(j)
    {
      hide Placed;
      FreeNode();
      OnList(lists, home, j);
      assert QueueOk(j);
      Unaffected(next, lists[j], head[j], freel, NIL);
      if lists[k] != [] {
        TailNode(k);
        Unaffected(next[freel := NIL], lists[j], head[j], tail[k], freel);
      }
    }

    lemma AppendedQueue(k: nat, it: Item)
      requires Ok() && k < 3 && lists[FREE] != [] && 0 <= freel < |next|
      requires lists[k] != [] ==> 0 <= tail[k] < |next|
      ensures Appended(k, it).QueueOk(k)
    {
      hide Placed;
      FreeNode();
      OnList(lists, home, k);
      assert QueueOk(k);
      Unaffected(next, lists[k], head[k], freel, NIL);
      AppendLinked(next[freel := NIL], lists[k], head[k], freel);
    }

    lemma BodyOk(n: int, body: seq<byte>)
      requires Ok() && running != [] && n == LastOf(lists[RUNNING])
      ensures 0 <= n < |node| && this.(node := node[n := node[n].(body := body)]).Ok()
    {
      hide Placed;
      OnList(lists, home, RUNNING);
      var u := this.(node := node[n := node[n].(body := body)]);
      forall j | 0 <= j < 3 ensures u.QueueOk(j) {
        OnList(lists, home, j);
        assert QueueOk(j);
      }
    }

    /** The innermost executing node put on the free list. */
    function Released(): Snap
      requires |lists| == 5 && lists[RUNNING] != [] && running != [] && |next| == |home|
      requires 0 <= LastOf(lists[RUNNING]) < |next|
    {
      var n, l := LastOf(lists[RUNNING]), lists[RUNNING];
      this.(next := next[n := freel], freel := n,
            lists := lists[RUNNING := Without(l, |l| - 1)][FREE := [n] + lists[FREE]],
            home := home[n := FREE],
            running := running[..|running| - 1])
    }

    lemma ReleasedOk()
      requires Ok() && (running != [] || lists[RUNNING] != [])
      ensures |lists| == 5 && |running| == |lists[RUNNING]| && 0 <= LastOf(lists[RUNNING]) < |next|
      ensures Released().Ok()
    {
      hide Placed;
      hide Linked;
      hide Holds;
      OnList(lists, home, RUNNING);
      var l := lists[RUNNING];
      var n, u := LastOf(l), Released();
      Moved(lists, home, RUNNING, |l| - 1, FREE, [n] + lists[FREE]);
      forall j | 0 <= j < 3 ensures u.QueueOk(j) {
        assert QueueOk(j);
        OnList(lists, home, j);
        Unaffected(next, lists[j], head[j], n, freel);
      }
      OnList(lists, home, FREE);
      PushLinked(next, lists[FREE], freel, n);
      assert forall i :: 0 <= i < |l| - 1 ==> u.lists[RUNNING][i] == l[i];
    }

    /** Purging an item is unlinking it and releasing it at once. */
    lemma PurgedOk(k: nat, i: nat)
      requires Ok() && k < 3 && i < |lists[k]|
      ensures i < |queues[k]| && 0 <= lists[k][i] < |next| && (i > 0 ==> 0 <= lists[k][i - 1] < |next|)
      ensures var u := Unlinked(k, i);
              && u.Ok() && u.lists[RUNNING] != [] && u.running != [] && LastOf(u.lists[RUNNING]) == lists[k][i]
              && u.Released().Ok() && u.Released().running == running && u.Released().lists[RUNNING] == lists[RUNNING]
    {
      hide Placed;
      hide Linked;
      hide Holds;
      OnList(lists, home, k);
      UnlinkedOk(k, i);
      var u := Unlinked(k, i);
      u.ReleasedOk();
    }
  }

  lemma PushLinked(next: seq<int>, l: seq<int>, first: int, n: int)
    requires Linked(next, l, first) && n !in l && 0 <= n < |next|
    ensures Linked(next[n := first], [n] + l, n)
  {
  }

  /** Relinking a node that is not on the chain. */
  lemma Unaffected(next: seq<int>, l: seq<int>, first: int, n: int, v: int)
    requires Linked(next, l, first) && n !in l && 0 <= n < |next|
    ensures Linked(next[n := v], l, first)
  {
  }

  /** Appending an end node behind the last one. */
  lemma AppendLinked(next: seq<int>, l: seq<int>, first: int, n: int)
    requires Linked(next, l, first) && Distinct(l) && n !in l && 0 <= n < |next| && next[n] == NIL
    ensures l == [] ==> Linked(next, [n], n)
    ensures l != [] ==> Linked(next[LastOf(l) := n], l + [n], first)
  {
  }

  function Upto(n: nat): (r: seq<int>)
    ensures |r| == n && forall i :: 0 <= i < n ==> r[i] == i
  {
    seq(n, i => i)
  }

  ghost function FirstSnap(next: seq<int>, node: seq<Node>): Snap {
    Snap(next, node, [NIL, NIL, NIL], [NIL, NIL, NIL], 0, [[], [], [], Upto(MAX_QITEMS), []],
         seq(MAX_QITEMS, i => FREE), [[], [], []], [])
  }

  lemma FirstSnapOk(next: seq<int>, node: seq<Node>)
    requires |next| == |node| == MAX_QITEMS
    requires forall i :: 0 <= i < MAX_QITEMS ==> next[i] == if i + 1 < MAX_QITEMS then i + 1 else NIL
    ensures FirstSnap(next, node).Ok()
  {
    var u := FirstSnap(next, node);
    assert ListOk(u.lists[FREE], u.home, FREE) by {
      forall n | 0 <= n < MAX_QITEMS ensures n in u.lists[FREE] { assert u.lists[FREE][n] == n; }
    }
    forall k | 0 <= k < 5 ensures ListOk(u.lists[k], u.home, k) { }
  }

  /** The first n executing nodes are the same and hold the same. */
  ghost predicate SameHeld(a: Snap, b: Snap, n: int) {
    && |a.lists| == |b.lists| == 5 && |a.node| == |b.node| && b.lists[RUNNING] == a.lists[RUNNING]
    && forall i :: 0 <= i < n && i < |a.lists[RUNNING]| && 0 <= a.lists[RUNNING][i] < |a.node| ==>
         b.node[a.lists[RUNNING][i]] == a.node[a.lists[RUNNING][i]]
  }

  // --- The pool in place ---------------------------------------------------------------------

  class Pool {
    const next: array<int>
    const node: array<Node>
    var head: seq<int>
    var tail: seq<int>
    var freel: int
    var nQueued: int
    ghost var s: Snap

    ghost predicate Valid()
      reads this, next, node
    {
      Tied() && s.tail == tail
    }

    /** Everything but the tails, which client_drop leaves stale for a while. */
    ghost predicate Tied()
      reads this, next, node
    {
      && s.Ok() && |s.lists| == 5
      && s.next == next[..] && s.node == node[..] && s.head == head && s.freel == freel && |tail| == 3
      && nQueued == |s.lists[0]| + |s.lists[1]| + |s.lists[2]|
    }

    /** The start-up loop: every node on the free list. */
    constructor ()
      ensures Valid() && fresh(next) && fresh(node)
      ensures s.queues == [[], [], []] && s.running == [] && s.lists[RUNNING] == []
    {
      next := new int[MAX_QITEMS](i => if i + 1 < MAX_QITEMS then i + 1 else NIL);
      node := new Node[MAX_QITEMS](i => Node(0, Hdr(0, 0, 0, 0, 0), []));
      head, tail, freel, nQueued := [NIL, NIL, NIL], [NIL, NIL, NIL], 0, 0;
      new;
      s := FirstSnap(next[..], node[..]);
      FirstSnapOk(next[..], node[..]);
    }

    /** `*pp = it->next`, the i-th node of queue k. */
    method Cut(k: nat, prev: int, it: int, ghost i: nat)
      requires Tied() && k < 3 && i < |s.lists[k]| && i < |s.queues[k]|
      requires it == Nth(s.lists[k], i) && prev == Nth(s.lists[k], i - 1)
      modifies this`head, this`s, this`nQueued, next
      ensures 0 <= it < |old(s).next| == |old(s).home|
      ensures i > 0 ==> 0 <= old(s).lists[k][i - 1] < |old(s).next|
      ensures old(s).QueueOk(k) && s == old(s).Unlinked(k, i) && Tied()
    {
      hide Placed;
      hide Linked;
      hide Holds;
      hide Shows;
      OnList(s.lists, s.home, k);
      s.UnlinkedOk(k, i);
      if prev == NIL {
        head := head[k := next[it]];
      } else {
        next[prev] := next[it];
      }
      nQueued := nQueued - 1;
      s := s.Unlinked(k, i);
    }

    /** Unlinks the i-th node of queue k for execution, recomputing the tail if it was last. */
    method Unlink(k: nat, prev: int, it: int, ghost i: nat)
      requires Valid() && k < 3 && i < |s.lists[k]| && i < |s.queues[k]|
      requires it == Nth(s.lists[k], i) && prev == Nth(s.lists[k], i - 1)
      modifies this, next
      ensures Valid() && s.node == old(s.node) && it != NIL
      ensures s.queues == old(s.queues)[k := Without(old(s.queues)[k], i)]
      ensures s.running == old(s.running) + [old(s.queues)[k][i]]
      ensures s.lists[RUNNING] == old(s.lists[RUNNING]) + [it]
      ensures 0 <= it < node.Length && NodeIs(node[it], old(s.queues)[k][i])
    {
      hide Placed;
      hide Linked;
      hide Holds;
      hide Shows;
      ghost var l := s.lists[k];
      QueueHolds(k, i);
      Cut(k, prev, it, i);
      assert s.QueueOk(k);
      if tail[k] == it {
        var t := FindLast(next, head[k], s.lists[k]);
        tail := tail[k := t];
      } else {
        assert i != |l| - 1;
        assert LastOf(Without(l, i)) == LastOf(l);
      }
    }

    /** The selection of `drain_queues`: unlinks the first eligible item of high, normal, low. */
    method Take(owner: Option<nat>) returns (it: int)
      requires Valid()
      modifies this, next
      ensures Valid() && s.node == old(s.node)
      ensures var k := FirstQueue(old(s.queues), owner);
              if k == 3 then it == NIL && s == old(s)
              else
                var i := FirstIn(old(s.queues)[k], owner);
                && it != NIL
                && s.queues == old(s.queues)[k := Without(old(s.queues)[k], i)]
                && s.running == old(s.running) + [old(s.queues)[k][i]]
                && s.lists[RUNNING] == old(s.lists[RUNNING]) + [it]
                && 0 <= it < node.Length && NodeIs(node[it], old(s.queues)[k][i])
    {
      hide Placed;
      hide Linked;
      hide Shows;
      hide FirstIn;
      ghost var qs := s.queues;
      it := NIL;
      var q := 0;
      while q < 3
        invariant q <= 3 && Valid() && s == old(s) && it == NIL
        invariant forall j :: 0 <= j < q ==> FirstIn(qs[j], owner) == |qs[j]|
      {
        assert s.QueueOk(q);
        HoldsLength(s.node, s.lists[q], qs[q]);
        var prev, n := Find(next, node, head[q], owner, s.lists[q], qs[q]);
        ghost var i := FirstIn(qs[q], owner);
        if n != NIL {
          Unlink(q, prev, n, i);
          it := n;
          return;
        }
        NotFound(s.lists[q], i, s.home, s.lists, q);
        q := q + 1;
      }
    }

    /** How full the pool is decides whether `enqueue` finds a node. */
    lemma Room()
      requires Valid()
      ensures freel == NIL <==> Queued(s.queues) + |s.running| >= MAX_QITEMS
      ensures |s.running| == |s.lists[RUNNING]| && nQueued == Queued(s.queues)
    {
      PoolSize(s.lists, s.home);
      OnList(s.lists, s.home, FREE);
      assert s.QueueOk(0) && s.QueueOk(1) && s.QueueOk(2);
    }

    /** `enqueue`: takes a node off the free list, fills it and appends it to its class. */
    method Put(slot: nat, hdr: Hdr, body: seq<byte>, ghost it: Item)
      requires Valid() && freel != NIL && it.slot == slot && it.hdr == hdr && it.body == body
      modifies this, next, node
      ensures Valid()
      ensures var k := Class(hdr.flags); s.queues == old(s.queues)[k := old(s.queues)[k] + [it]]
      ensures s.running == old(s.running) && s.lists[RUNNING] == old(s.lists[RUNNING])
    {
      hide Placed;
      hide Linked;
      hide Holds;
      hide Shows;
      var k := if hdr.flags % 4 == 1 then 0 else if hdr.flags % 4 == 2 then 2 else 1;
      s.Ends(k);
      s.AppendedOk(k, it);
      var n := freel;
      freel := next[n];
      next[n] := NIL;
      node[n] := Node(slot, hdr, body);
      if tail[k] != NIL {
        next[tail[k]] := n;
      } else {
        head := head[k := n];
      }
      tail := tail[k := n];
      nQueued := nQueued + 1;
      s := s.Appended(k, it);
    }

    /** `it->next = g.freel; g.freel = it;` for the innermost executing item. */
    method Free(it: int)
      requires Valid() && s.running != [] && it == LastOf(s.lists[RUNNING])
      modifies this, next
      ensures Valid() && s.node == old(s.node) && s.queues == old(s.queues)
      ensures s.running == old(s.running)[..|old(s.running)| - 1]
      ensures s.lists[RUNNING] == old(s.lists[RUNNING])[..|old(s.lists[RUNNING])| - 1]
    {
      hide Placed;
      hide Linked;
      hide Holds;
      hide Shows;
      s.ReleasedOk();
      next[it] := freel;
      freel := it;
      s := s.Released();
    }

    /** Unlinks the i-th node of queue k and frees it; the tail is left as it was. */
    method Discard(k: nat, prev: int, it: int, ghost i: nat) returns (n: int)
      requires Tied() && k < 3 && i < |s.lists[k]| && i < |s.queues[k]|
      requires it == Nth(s.lists[k], i) && prev == Nth(s.lists[k], i - 1)
      modifies this`head, this`s, this`nQueued, this`freel, next
      ensures Tied() && s.node == old(s.node)
      ensures s.queues == old(s.queues)[k := Without(old(s.queues)[k], i)]
      ensures s.lists[k] == Without(old(s.lists)[k], i) && s.lists[RUNNING] == old(s.lists)[RUNNING]
      ensures s.running == old(s.running) && s.tail == old(s.tail)[k := LastOf(s.lists[k])]
      ensures n == Nth(s.lists[k], i) && prev == Nth(s.lists[k], i - 1)
    {
      hide Placed;
      hide Linked;
      hide Holds;
      hide Shows;
      OnList(s.lists, s.home, k);
      QueueAt(k, i);
      s.PurgedOk(k, i);
      n := next[it];
      Cut(k, prev, it, i);
      next[it] := freel;
      freel := it;
      s := s.Released();
    }

    /** Queue k with its first d items looked at, the others' items among them kept. */
    ghost predicate Purging(k: nat, slot: nat, orig: seq<Item>, d: nat, kept: seq<Item>)
      requires k < 3
      reads this, next, node
    {
      && Tied() && s.tail == tail[k := LastOf(s.lists[k])]
      && d <= |orig| && kept == NotOf(orig[..d], slot)
      && s.queues[k] == kept + orig[d..] && |s.queues[k]| == |s.lists[k]|
    }

    /** One pass of the loop over the queue. */
    method PurgeStep(k: nat, slot: nat, prev: int, cur: int, ghost orig: seq<Item>, ghost d: nat, ghost kept: seq<Item>)
      returns (prev': int, cur': int, ghost kept': seq<Item>)
      requires k < 3 && Purging(k, slot, orig, d, kept) && d < |orig|
      requires cur == Nth(s.lists[k], |kept|) && prev == Nth(s.lists[k], |kept| - 1)
      modifies this`head, this`s, this`nQueued, this`freel, next
      ensures Purging(k, slot, orig, d + 1, kept')
      ensures cur' == Nth(s.lists[k], |kept'|) && prev' == Nth(s.lists[k], |kept'| - 1)
      ensures s.node == old(s.node) && s.running == old(s.running) && s.lists[RUNNING] == old(s.lists[RUNNING])
      ensures forall j :: 0 <= j < 3 && j != k ==> s.queues[j] == old(s.queues)[j]
    {
      hide NotOf;
      hide Linked;
      hide Placed;
      hide Holds;
      hide Shows;
      ghost var i := |kept|;
      OnList(s.lists, s.home, k);
      QueueAt(k, i);
      NotOfSnoc(orig, d, slot);
      if node[cur].slot == slot {
        WithoutNext(kept, orig, d);
        prev', kept' := prev, kept;
        cur' := Discard(k, prev, cur, i);
      } else {
        KeepNext(kept, orig, d);
        prev', cur', kept' := cur, next[cur], kept + [orig[d]];
      }
    }

    /** `client_drop` on queue k: frees one client's items, keeps the others in order. */
    method PurgeQueue(k: nat, slot: nat)
      requires Valid() && k < 3
      modifies this, next
      ensures Valid() && s.node == old(s.node)
      ensures s.queues == old(s.queues)[k := NotOf(old(s.queues)[k], slot)]
      ensures s.running == old(s.running) && s.lists[RUNNING] == old(s.lists[RUNNING])
    {
      hide Placed;
      hide Linked;
      hide Shows;
      hide Holds;
      ghost var orig, d, kept: seq<Item> := s.queues[k], 0, [];
      var prev, cur := NIL, head[k];
      QueueStart(k);
      assert orig[..0] == [] && kept + orig[0..] == orig;
      while cur != NIL
        invariant Purging(k, slot, orig, d, kept) && tail == old(tail)
        invariant cur == Nth(s.lists[k], |kept|) && prev == Nth(s.lists[k], |kept| - 1)
        invariant s.node == old(s.node) && s.running == old(s.running) && s.lists[RUNNING] == old(s.lists[RUNNING])
        invariant forall j :: 0 <= j < 3 && j != k ==> s.queues[j] == old(s.queues)[j]
        decreases |orig| - d
      {
        prev, cur, kept := PurgeStep(k, slot, prev, cur, orig, d, kept);
        d := d + 1;
      }
      QueueEnd(k, |kept|);
      assert orig[..d] == orig && kept + orig[d..] == kept;
      var t := FindLast(next, head[k], s.lists[k]);
      tail := tail[k := t];
    }

    /** The queue loop of `client_drop`. */
    method Purge(slot: nat)
      requires Valid()
      modifies this, next
      ensures Valid() && s.node == old(s.node)
      ensures s.queues == [NotOf(old(s.queues)[0], slot), NotOf(old(s.queues)[1], slot), NotOf(old(s.queues)[2], slot)]
      ensures s.running == old(s.running) && s.lists[RUNNING] == old(s.lists[RUNNING])
    {
      hide Placed;
      PurgeQueue(0, slot);
      PurgeQueue(1, slot);
      PurgeQueue(2, slot);
    }

    /** A handler stores a result in the body of the innermost executing item. */
    method SetBody(it: int, body: seq<byte>)
      requires Valid() && s.running != [] && it == LastOf(s.lists[RUNNING])
      modifies this`s, node
      ensures Valid() && 0 <= it < node.Length && node[it] == old(s.node)[it].(body := body)
      ensures s.queues == old(s.queues) && s.running == old(s.running) && s.lists == old(s.lists)
      ensures SameHeld(old(s), s, |s.running| - 1)
    {
      OnList(s.lists, s.home, RUNNING);
      s.BodyOk(it, body);
      node[it] := node[it].(body := body);
      s := s.(node := node[..]);
    }

    lemma FiveLists()
      requires Valid()
      ensures |s.lists| == 5 && |s.lists[RUNNING]| == |s.running| && |s.node| == node.Length
    {
    }

    lemma InnermostNode()
      requires Valid() && s.running != []
      ensures |s.lists| == 5 && |s.lists[RUNNING]| == |s.running|
      ensures var n, it := LastOf(s.lists[RUNNING]), s.running[|s.running| - 1];
              0 <= n < node.Length && node[n].slot == it.slot && node[n].hdr == it.hdr
    {
      OnList(s.lists, s.home, RUNNING);
    }

    lemma QueueHolds(k: nat, i: nat)
      requires Valid() && k < 3 && i < |s.lists[k]|
      ensures i < |s.queues[k]| && 0 <= s.lists[k][i] < node.Length && NodeIs(node[s.lists[k][i]], s.queues[k][i])
    {
      assert s.QueueOk(k);
    }

    lemma QueueStart(k: nat)
      requires Valid() && k < 3
      ensures |s.lists[k]| == |s.queues[k]| && head[k] == Nth(s.lists[k], 0)
      ensures s.tail == tail[k := LastOf(s.lists[k])]
    {
      assert s.QueueOk(k);
    }

    lemma QueueAt(k: nat, i: nat)
      requires Tied() && k < 3 && i < |s.lists[k]|
      ensures |s.lists[k]| == |s.queues[k]| && s.lists[k][i] != NIL
      ensures var n := s.lists[k][i];
              0 <= n < next.Length == node.Length && node[n].slot == s.queues[k][i].slot
              && next[n] == Nth(s.lists[k], i + 1)
    {
      assert s.QueueOk(k);
      ChainAt(next[..], node[..], s.lists[k], head[k], s.queues[k], i);
    }

    lemma QueueEnd(k: nat, i: nat)
      requires Tied() && k < 3 && i <= |s.lists[k]| && Nth(s.lists[k], i) == NIL
      ensures i == |s.lists[k]| && Linked(next[..], s.lists[k], head[k])
    {
      assert s.QueueOk(k);
      OnList(s.lists, s.home, k);
    }
  }

  lemma {:induction false} NotOfConcat(a: seq<Item>, b: seq<Item>, slot: nat)
    ensures NotOf(a + b, slot) == NotOf(a, slot) + NotOf(b, slot)
  {
    if a == [] {
      assert a + b == b;
    } else {
      assert (a + b)[1..] == a[1..] + b;
      NotOfConcat(a[1..], b, slot);
    }
  }

  lemma NotOfSnoc(q: seq<Item>, d: nat, slot: nat)
    requires d < |q|
    ensures NotOf(q[..d + 1], slot) == NotOf(q[..d], slot) + if q[d].slot == slot then [] else [q[d]]
  {
    assert q[..d + 1] == q[..d] + [q[d]];
    NotOfConcat(q[..d], [q[d]], slot);
    assert [q[d]][1..] == [];
  }

  lemma NotFound(l: seq<int>, i: nat, home: seq<nat>, lists: Lists, k: nat)
    requires Placed(lists, home) && k < 5 && l == lists[k] && i <= |l| && Nth(l, i) == NIL
    ensures i == |l|
  {
    OnList(lists, home, k);
  }
}
