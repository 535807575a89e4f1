/** The heap of pending request timeouts: a slice of nodes kept in heap order by Go's
    container/heap, where every node knows its position in the slice. */
module TimeoutHeap {
  import opened Wrappers

  class Node {
    const unixTimeStamp: int
    const deviceToken: string
    var index: int

    constructor (unixTimeStamp: int, deviceToken: string)
      ensures this.unixTimeStamp == unixTimeStamp && this.deviceToken == deviceToken
    {
      this.unixTimeStamp, this.deviceToken := unixTimeStamp, deviceToken;
      index := 0;
    }
  }

  // ---------- Heap order ----------

  function Parent(k: nat): nat {
    if k == 0 then 0 else (k - 1) / 2
  }

  predicate OrderedAt(nodes: seq<Node>, k: nat)
    requires k < |nodes|
  {
    nodes[Parent(k)].unixTimeStamp <= nodes[k].unixTimeStamp
  }

  ghost predicate HeapOrder(nodes: seq<Node>) {
    forall k {:trigger OrderedAt(nodes, k)} | 0 <= k < |nodes| :: OrderedAt(nodes, k)
  }

  /** The nodes behind `hole` already respect the node before it. */
  predicate BridgedAt(nodes: seq<Node>, hole: nat, k: nat)
    requires hole < |nodes| && k < |nodes|
  {
    Parent(k) == hole && k > 0 && hole > 0 ==> nodes[Parent(hole)].unixTimeStamp <= nodes[k].unixTimeStamp
  }

  /** Heap order, except that the node at `hole` may be too early. */
  ghost predicate UpInv(nodes: seq<Node>, hole: nat) {
    && hole < |nodes|
    && (forall k {:trigger OrderedAt(nodes, k)} | 0 <= k < |nodes| && k != hole :: OrderedAt(nodes, k))
    && (forall k {:trigger BridgedAt(nodes, hole, k)} | 0 <= k < |nodes| :: BridgedAt(nodes, hole, k))
  }

  /** Heap order of the first n nodes, except that the node at `hole` may be too late. */
  ghost predicate DownInv(nodes: seq<Node>, n: nat, hole: nat) {
    && hole < |nodes| && n <= |nodes|
    && (forall k {:trigger OrderedAt(nodes, k)} | 0 < k < n && Parent(k) != hole :: OrderedAt(nodes, k))
    && (forall k {:trigger BridgedAt(nodes, hole, k)} | 0 <= k < n :: BridgedAt(nodes, hole, k))
  }

  function Swapped(s: seq<Node>, i: nat, j: nat): (t: seq<Node>)
    requires i < |s| && j < |s|
    ensures |t| == |s| && t[i] == s[j] && t[j] == s[i]
    ensures forall k | 0 <= k < |s| && k != i && k != j :: t[k] == s[k]
  {
    s[i := s[j]][j := s[i]]
  }

  lemma SwappedSame(s: seq<Node>, i: nat, j: nat)
    requires i < |s| && j < |s|
    ensures multiset(Swapped(s, i, j)) == multiset(s)
  {
    var t := s[i := s[j]];
    assert multiset(t) == multiset(s) - multiset{s[i]} + multiset{s[j]};
  }

  lemma UpStep(nodes: seq<Node>, j: nat)
    requires UpInv(nodes, j) && j > 0 && nodes[j].unixTimeStamp < nodes[Parent(j)].unixTimeStamp
    ensures UpInv(Swapped(nodes, Parent(j), j), Parent(j))
  {
    var i := Parent(j);
    var t := Swapped(nodes, i, j);
    forall k | 0 <= k < |t| && k != i ensures OrderedAt(t, k) {
      assert BridgedAt(nodes, j, k);
      if k != j { assert OrderedAt(nodes, k); }
    }
    forall k | 0 <= k < |t| ensures BridgedAt(t, i, k) {
      if k != j { assert OrderedAt(nodes, k); }
      assert OrderedAt(nodes, i);
    }
  }

  lemma UpDone(nodes: seq<Node>, j: nat)
    requires UpInv(nodes, j) && (j == 0 || nodes[Parent(j)].unixTimeStamp <= nodes[j].unixTimeStamp)
    ensures HeapOrder(nodes)
  {
    assert OrderedAt(nodes, j);
  }

  /** The child that `down` compares with: the earlier one. */
  function Child(nodes: seq<Node>, n: nat, i: nat): (c: nat)
    requires 2 * i + 1 < n <= |nodes|
    ensures c < n && Parent(c) == i && c > i
  {
    if 2 * i + 2 < n && nodes[2 * i + 2].unixTimeStamp < nodes[2 * i + 1].unixTimeStamp then 2 * i + 2 else 2 * i + 1
  }

  lemma DownStep(nodes: seq<Node>, n: nat, i: nat)
    requires DownInv(nodes, n, i) && 2 * i + 1 < n
    requires nodes[Child(nodes, n, i)].unixTimeStamp < nodes[i].unixTimeStamp
    ensures DownInv(Swapped(nodes, i, Child(nodes, n, i)), n, Child(nodes, n, i))
  {
    var c := Child(nodes, n, i);
    var t := Swapped(nodes, i, c);
    forall k | 0 < k < n && Parent(k) != c ensures OrderedAt(t, k) {
      if Parent(k) == i {
        assert k == 2 * i + 1 || k == 2 * i + 2;
      } else {
        assert OrderedAt(nodes, k);
        if k == i { assert BridgedAt(nodes, i, c); }
      }
    }
    forall k | 0 <= k < n ensures BridgedAt(t, c, k) {
      if k > 0 && Parent(k) == c {
        assert OrderedAt(nodes, k);
      }
    }
  }

  lemma DownDone(nodes: seq<Node>, n: nat, i: nat)
    requires DownInv(nodes, n, i)
    requires 2 * i + 1 < n ==> nodes[i].unixTimeStamp <= nodes[Child(nodes, n, i)].unixTimeStamp
    ensures HeapOrder(nodes[..n])
  {
    forall k | 0 <= k < n ensures OrderedAt(nodes[..n], k) {
      if k > 0 && Parent(k) == i {
        assert k == 2 * i + 1 || k == 2 * i + 2;
      } else if k > 0 {
        assert OrderedAt(nodes, k);
      }
    }
  }

  /** The root of a heap expires first. */
  lemma {:induction false} RootIsMinimal(nodes: seq<Node>, k: nat)
    requires HeapOrder(nodes) && k < |nodes|
    ensures nodes[0].unixTimeStamp <= nodes[k].unixTimeStamp
  {
    if k > 0 {
      assert OrderedAt(nodes, k);
      RootIsMinimal(nodes, Parent(k));
    }
  }

  lemma RootIsEarliest(nodes: seq<Node>)
    requires HeapOrder(nodes) && nodes != []
    ensures forall n | n in multiset(nodes) :: nodes[0].unixTimeStamp <= n.unixTimeStamp
  {
    forall n | n in multiset(nodes) ensures nodes[0].unixTimeStamp <= n.unixTimeStamp {
      var k :| 0 <= k < |nodes| && nodes[k] == n;
      RootIsMinimal(nodes, k);
    }
  }

  // ---------- The queue the heap implements ----------

  /** Taking an expired request at time `now`: one that expires first, and has expired. */
  ghost predicate Takes(q: multiset<Node>, now: int, n: Node) {
    n in q && n.unixTimeStamp <= now && forall other | other in q :: n.unixTimeStamp <= other.unixTimeStamp
  }

  /** Being refused: nothing has expired. */
  ghost predicate Refuses(q: multiset<Node>, now: int) {
    forall n | n in q :: now < n.unixTimeStamp
  }

  /** What a call of the heap did, and when. */
  datatype Event = Added(now: int, n: Node) | Taken(now: int, n: Node) | Refused(now: int)

  ghost function Next(q: multiset<Node>, e: Event): multiset<Node> {
    match e
    case Added(_, n) => q + multiset{n}
    case Taken(_, n) => q - multiset{n}
    case Refused(_) => q
  }

  /** What is in the heap after some calls. */
  ghost function Left(events: seq<Event>): multiset<Node> {
    if events == [] then multiset{} else Next(Left(events[..|events| - 1]), events[|events| - 1])
  }

  /** What a queue that holds q may do next. */
  ghost predicate Allowed(timeout: int, q: multiset<Node>, e: Event) {
    match e
    case Added(now, n) => n.unixTimeStamp == now + timeout && n !in q
    case Taken(now, n) => Takes(q, now, n)
    case Refused(now) => Refuses(q, now)
  }

  /** The calls are those of a queue that always hands out its earliest request, once expired. */
  ghost predicate History(timeout: int, events: seq<Event>) {
    events == []
    || (var before := events[..|events| - 1];
        History(timeout, before) && Allowed(timeout, Left(before), events[|events| - 1]))
  }

  /** The calls so far are those of a queue, and have left q in it. */
  ghost predicate Recorded(timeout: int, events: seq<Event>, q: multiset<Node>) {
    History(timeout, events) && q == Left(events)
  }

  lemma RecordGrows(timeout: int, events: seq<Event>, q: multiset<Node>, e: Event)
    requires Recorded(timeout, events, q) && Allowed(timeout, q, e)
    ensures Recorded(timeout, events + [e], Next(q, e))
  {
    assert (events + [e])[..|events|] == events;
  }

  /** Looking at the root is enough to know whether any request has expired. */
  lemma RootDecides(nodes: seq<Node>, now: int)
    requires HeapOrder(nodes) && nodes != []
    ensures if now < nodes[0].unixTimeStamp then Refuses(multiset(nodes), now)
            else Takes(multiset(nodes), now, nodes[0])
  {
    RootIsEarliest(nodes);
  }

  class TimeoutHeap {
    var nodes: seq<Node>
    const timeout: int
    // The calls so far.
    ghost var events: seq<Event>

    /** The nodes are distinct and each knows its position. */
    ghost predicate Indexed()
      reads this, nodes
    {
      && (forall i, j | 0 <= i < j < |nodes| :: nodes[i] != nodes[j])
      && (forall i | 0 <= i < |nodes| :: nodes[i].index == i)
    }

    ghost predicate Heaped()
      reads this, nodes
    {
      Indexed() && HeapOrder(nodes)
    }

    /** The heap holds what its calls have left in it, and they were those of a queue. */
    ghost predicate Valid()
      reads this, nodes
    {
      Heaped() && Recorded(timeout, events, Contents())
    }

    ghost function Contents(): multiset<Node>
      reads this
    {
      multiset(nodes)
    }

    constructor (requestTimeout: int)
      ensures Valid() && nodes == [] && events == [] && timeout == requestTimeout
    {
      nodes, events := [], [];
      timeout := requestTimeout;
    }

    predicate Less(i: nat, j: nat)
      requires i < |nodes| && j < |nodes|
      reads this
    {
      nodes[i].unixTimeStamp < nodes[j].unixTimeStamp
    }

    method Swap(i: nat, j: nat)
      requires Indexed() && i < |nodes| && j < |nodes|
      modifies this`nodes, nodes[i], nodes[j]
      ensures Indexed() && nodes == Swapped(old(nodes), i, j) && Contents() == old(Contents())
      ensures forall n | n in nodes :: n in old(nodes)
    {
      SwappedSame(nodes, i, j);
      nodes := Swapped(nodes, i, j);
      nodes[i].index := i;
      nodes[j].index := j;
    }

    /** The slice's own Push and Pop, which know nothing of order. */
    method Append(node: Node)
      requires Indexed() && node !in nodes
      modifies this`nodes, node
      ensures Indexed() && nodes == old(nodes) + [node]
    {
      node.index := |nodes|;
      nodes := nodes + [node];
    }

    method RemoveLast() returns (node: Node)
      requires Indexed() && nodes != []
      modifies this`nodes, nodes[|nodes| - 1]
      ensures Indexed() && old(nodes) == nodes + [node] && node.index == -1
    {
      node := nodes[|nodes| - 1];
      node.index := -1;
      nodes := nodes[..|nodes| - 1];
    }

    method Up(last: nat)
      requires Indexed() && UpInv(nodes, last)
      modifies this`nodes, nodes
      ensures Heaped() && Contents() == old(Contents())
      ensures forall n | n in nodes :: n in old(nodes)
    {
      var j: nat := last;
      while true
        invariant Indexed() && UpInv(nodes, j) && Contents() == old(Contents())
        invariant forall n | n in nodes :: n in old(nodes)
        decreases j
      {
        var i := Parent(j);
        if i == j || !Less(j, i) {
          break;
        }
        UpStep(nodes, j);
        assert nodes[i] in nodes && nodes[j] in nodes;
        Swap(i, j);
        j := i;
      }
      UpDone(nodes, j);
    }

    method EarlierChild(n: nat, i: nat) returns (j: nat)
      requires 2 * i + 1 < n <= |nodes|
      ensures j == Child(nodes, n, i)
    {
      var j1 := 2 * i + 1;
      j := j1;
      var j2 := j1 + 1;
      if j2 < n && Less(j2, j1) {
        j := j2;
      }
    }

    method Down(n: nat)
      requires Indexed() && DownInv(nodes, n, 0)
      modifies this`nodes, nodes
      ensures Indexed() && |nodes| == old(|nodes|) && HeapOrder(nodes[..n]) && Contents() == old(Contents())
      ensures forall k | n <= k < |nodes| :: nodes[k] == old(nodes[k])
      ensures forall m | m in nodes :: m in old(nodes)
    {
      var i: nat := 0;
      while true
        invariant Indexed() && |nodes| == old(|nodes|) && DownInv(nodes, n, i) && Contents() == old(Contents())
        invariant i == 0 || i < n
        invariant forall k | n <= k < |nodes| :: nodes[k] == old(nodes[k])
        invariant forall m | m in nodes :: m in old(nodes)
        decreases |nodes| - i
      {
        var j1 := 2 * i + 1;
        if j1 >= n {
          break;
        }
        var j := EarlierChild(n, i);
        if !Less(j, i) {
          break;
        }
        DownStep(nodes, n, i);
        assert nodes[i] in nodes && nodes[j] in nodes;
        Swap(i, j);
        i := j;
      }
      DownDone(nodes, n, i);
    }

    /** heap.Push */
    method Push(node: Node)
      requires Heaped() && node !in nodes
      modifies this`nodes, nodes, node
      ensures Heaped() && Contents() == old(Contents()) + multiset{node}
      ensures forall n | n in nodes :: n in old(nodes) || n == node
    {
      Append(node);
      forall k | 0 <= k < |nodes| - 1 ensures OrderedAt(nodes, k) {
        assert OrderedAt(old(nodes), k);
      }
      Up(|nodes| - 1);
    }

    /** heap.Pop */
    method Pop() returns (node: Node)
      requires Heaped() && nodes != []
      modifies this`nodes, nodes
      ensures Heaped() && node == old(nodes[0]) && Contents() == old(Contents()) - multiset{node}
      ensures node.index == -1
      ensures forall n | n in nodes :: n in old(nodes)
    {
      var n := |nodes| - 1;
      Swap(0, n);
      forall k | 0 < k < n && Parent(k) != 0 ensures OrderedAt(nodes, k) {
        assert OrderedAt(old(nodes), k);
      }
      Down(n);
      node := RemoveLast();
      assert nodes + [node] == nodes + [old(nodes[0])];
    }

    /** Notes a call that has just changed the heap from q. */
    ghost method Note(q: multiset<Node>, e: Event)
      requires Heaped() && Recorded(timeout, events, q) && Allowed(timeout, q, e) && Contents() == Next(q, e)
      modifies this`events
      ensures Valid() && events == old(events) + [e]
    {
      RecordGrows(timeout, events, q, e);
      events := events + [e];
    }

    method AddRequest(now: int, deviceToken: string) returns (ghost node: Node)
      requires Valid()
      modifies this`nodes, this`events, nodes
      ensures Valid() && Contents() == old(Contents()) + multiset{node} && events == old(events) + [Added(now, node)]
      ensures node.unixTimeStamp == now + timeout && node.deviceToken == deviceToken && fresh(node)
    {
      ghost var q := Contents();
      var added := new Node(now + timeout, deviceToken);
      Push(added);
      node := added;
      Note(q, Added(now, node));
    }

    /** The root leaves the heap if it has expired. */
    method PopExpired(now: int) returns (root: Option<Node>)
      requires Heaped()
      modifies this`nodes, nodes
      ensures Heaped()
      ensures match root
        case Some(n) => old(nodes) != [] && n == old(nodes)[0] && Takes(old(Contents()), now, n)
                        && Contents() == old(Contents()) - multiset{n}
        case None => Refuses(old(Contents()), now) && nodes == old(nodes)
    {
      if |nodes| == 0 {
        return None;
      }
      RootDecides(nodes, now);
      var node := nodes[0];
      if now < node.unixTimeStamp {
        return None;
      }
      var popped := Pop();
      root := Some(node);
    }

    /** The token and expiry of an expired request, if there is one. */
    method CompleteHasExpiredRequest(now: int)
        returns (token: string, expires: int, has: bool, ghost node: Option<Node>)
      requires Valid()
      modifies this`nodes, this`events, nodes
      ensures Valid() && has == node.Some?
      ensures events == old(events) + [if has then Taken(now, node.value) else Refused(now)]
      ensures has ==>
        && old(nodes) != [] && node.value == old(nodes)[0] && Takes(old(Contents()), now, node.value)
        && Contents() == old(Contents()) - multiset{node.value}
        && token == node.value.deviceToken && expires == node.value.unixTimeStamp
      ensures has ==> expires <= now && forall n | n in old(nodes) :: expires <= n.unixTimeStamp
      ensures !has ==> nodes == old(nodes) && forall n | n in nodes :: now < n.unixTimeStamp
    {
      ghost var q := Contents();
      var root := PopExpired(now);
      node := root;
      if root == None {
        Note(q, Refused(now));
        return "", 0, false, None;
      }
      Note(q, Taken(now, root.value));
      token, expires, has := root.value.deviceToken, root.value.unixTimeStamp, true;
    }
  }

  // ---------- Whole histories ----------

  function AddedNodes(events: seq<Event>): seq<Node> {
    if events == [] then []
    else
      var e := events[|events| - 1];
      AddedNodes(events[..|events| - 1]) + if e.Added? then [e.n] else []
  }

  function TakenNodes(events: seq<Event>): seq<Node> {
    if events == [] then []
    else
      var e := events[|events| - 1];
      TakenNodes(events[..|events| - 1]) + if e.Taken? then [e.n] else []
  }

  /** Every request that was added was taken, or is still in the heap. */
  lemma {:induction false} HistoryConserves(timeout: int, events: seq<Event>, x: Node)
    requires History(timeout, events)
    ensures multiset(AddedNodes(events))[x] == multiset(TakenNodes(events))[x] + Left(events)[x]
  {
    if events != [] {
      HistoryConserves(timeout, events[..|events| - 1], x);
    }
  }

  ghost predicate InOrder(taken: seq<Node>) {
    forall i, j | 0 <= i < j < |taken| :: taken[i].unixTimeStamp <= taken[j].unixTimeStamp
  }

  /** The clock never goes back. */
  ghost predicate Clockwise(events: seq<Event>) {
    forall i, j | 0 <= i < j < |events| :: events[i].now <= events[j].now
  }

  /** What was taken expired no later than what is left, and all of it before a request added now. */
  ghost predicate TakenFirst(timeout: int, taken: seq<Node>, left: multiset<Node>, now: int) {
    && (forall t, n | t in taken && n in left :: t.unixTimeStamp <= n.unixTimeStamp)
    && (forall t | t in taken :: t.unixTimeStamp <= now + timeout)
    && (forall n | n in left :: n.unixTimeStamp <= now + timeout)
  }

  lemma {:induction false} TakenBeforeLeft(timeout: int, events: seq<Event>, now: int)
    requires History(timeout, events) && Clockwise(events)
    requires events != [] ==> events[|events| - 1].now <= now
    ensures TakenFirst(timeout, TakenNodes(events), Left(events), now)
  {
    if events != [] {
      TakenBeforeLeft(timeout, events[..|events| - 1], events[|events| - 1].now);
    }
  }

  /** While the clock does not go back, requests are handed out in the order they expire, over any
      mix of additions, removals and refusals, and whatever the timeout. */
  lemma {:induction false} TakenInOrder(timeout: int, events: seq<Event>)
    requires History(timeout, events) && Clockwise(events)
    ensures InOrder(TakenNodes(events))
  {
    if events != [] {
      var before := events[..|events| - 1];
      TakenInOrder(timeout, before);
      TakenBeforeLeft(timeout, before, events[|events| - 1].now);
    }
  }
}
