/** Intrusive circular doubly linked rings: a head node and the nodes linked behind it. */
module List {
  class Node {
    var next: Node
    var prev: Node

    /** A node alone, linked to itself, as the initialisation of a ring's head leaves it. */
    constructor ()
      ensures next == this && prev == this
    {
      next, prev := this, this;
    }
  }

  /** Position `i` of a ring: the head at both ends, `s[i]` in between. */
  function At(head: Node, s: seq<Node>, i: int): Node
    requires -1 <= i <= |s|
  {
    if 0 <= i < |s| then s[i] else head
  }

  /** `next` and `prev` of neighbouring positions are each other's inverse, and no node occurs twice. */
  ghost predicate Ring(head: Node, s: seq<Node>)
    reads head, s
  {
    && head !in s
    && (forall i, j :: 0 <= i < j < |s| ==> s[i] != s[j])
    && (forall i :: -1 <= i < |s| ==> At(head, s, i).next == At(head, s, i + 1))
    && (forall i :: -1 <= i < |s| ==> At(head, s, i + 1).prev == At(head, s, i))
  }

  /** Different positions are different nodes, but for the head at both ends. */
  lemma Apart(head: Node, s: seq<Node>, i: int, j: int)
    requires -1 <= i <= |s| && -1 <= j <= |s| && i != j
    requires head !in s && forall x, y :: 0 <= x < y < |s| ==> s[x] != s[y]
    ensures !(i in {-1, |s|} && j in {-1, |s|}) ==> At(head, s, i) != At(head, s, j)
  {
  }

  method Init(head: Node)
    modifies head
    ensures Ring(head, [])
  {
    head.next := head;
    head.prev := head;
  }

  /** Links `n` in between two neighbours, at index `k` of the ring. */
  method Add(n: Node, prev: Node, next: Node, ghost head: Node, ghost s: seq<Node>, ghost k: nat)
    requires Ring(head, s) && n != head && n !in s
    requires k <= |s| && prev == At(head, s, k - 1) && next == At(head, s, k)
    modifies n, prev`next, next`prev
    ensures Ring(head, s[..k] + [n] + s[k..])
  {
    n.next := next;
    n.prev := prev;
    prev.next := n;
    next.prev := n;
    ghost var r := s[..k] + [n] + s[k..];
    forall i | -1 <= i < |r|
      ensures At(head, r, i).next == At(head, r, i + 1) && At(head, r, i + 1).prev == At(head, r, i)
    {
      if i < k - 1 {
        Apart(head, s, i, k - 1);
        Apart(head, s, i + 1, k);
        assert old(At(head, s, i).next == At(head, s, i + 1) && At(head, s, i + 1).prev == At(head, s, i));
      } else if i > k {
        Apart(head, s, i - 1, k - 1);
        Apart(head, s, i, k);
        assert old(At(head, s, i - 1).next == At(head, s, i) && At(head, s, i).prev == At(head, s, i - 1));
      }
    }
  }

  method AddFront(head: Node, n: Node, ghost s: seq<Node>)
    requires Ring(head, s) && n != head && n !in s
    modifies n, head, s
    ensures Ring(head, [n] + s)
  {
    assert At(head, s, -1).next == At(head, s, 0);
    Add(n, head, head.next, head, s, 0);
    assert s[..0] + [n] + s[0..] == [n] + s;
  }

  method AddBack(head: Node, n: Node, ghost s: seq<Node>)
    requires Ring(head, s) && n != head && n !in s
    modifies n, head, s
    ensures Ring(head, s + [n])
  {
    assert At(head, s, |s|).prev == At(head, s, |s| - 1);
    Add(n, head.prev, head, head, s, |s|);
    assert s[..|s|] + [n] + s[|s|..] == s + [n];
  }

  /** Unlinks the node at index `k`; its own links are left as they were. */
  method Delete(target: Node, ghost head: Node, ghost s: seq<Node>, ghost k: nat)
    requires Ring(head, s) && k < |s| && target == s[k]
    modifies target.prev`next, target.next`prev
    ensures Ring(head, s[..k] + s[k + 1..])
    ensures target.next == old(target.next) && target.prev == old(target.prev)
  {
    assert At(head, s, k) == target;
    assert target.prev == At(head, s, k - 1) && target.next == At(head, s, k + 1);
    target.prev.next := target.next;
    target.next.prev := target.prev;
    ghost var r := s[..k] + s[k + 1..];
    forall i | -1 <= i < |r|
      ensures At(head, r, i).next == At(head, r, i + 1) && At(head, r, i + 1).prev == At(head, r, i)
    {
      if i < k - 1 {
        Apart(head, s, i, k - 1);
        Apart(head, s, i + 1, k + 1);
        assert old(At(head, s, i).next == At(head, s, i + 1) && At(head, s, i + 1).prev == At(head, s, i));
      } else if i >= k {
        Apart(head, s, i + 1, k - 1);
        Apart(head, s, i + 2, k + 1);
        assert old(At(head, s, i + 1).next == At(head, s, i + 2) && At(head, s, i + 2).prev == At(head, s, i + 1));
      }
    }
  }

  /** Following the `next` links from the head visits every node once, in order. */
  method Walk(head: Node, ghost s: seq<Node>) returns (visited: seq<Node>)
    requires Ring(head, s)
    ensures visited == s
  {
    visited := [];
    var pos := head.next;
    assert At(head, s, -1).next == At(head, s, 0);
    while pos != head
      invariant |visited| <= |s| && visited == s[..|visited|] && pos == At(head, s, |visited|)
      decreases |s| - |visited|
    {
      assert At(head, s, |visited|).next == At(head, s, |visited| + 1);
      visited := visited + [pos];
      pos := pos.next;
    }
  }

  /** No node is on both of two rings. */
  ghost predicate Disjoint(head: Node, s: seq<Node>, head': Node, s': seq<Node>) {
    head != head' && head' !in s && head !in s' && forall x :: x in s ==> x !in s'
  }

  /** Where the cursor `pos` of the safe walk is, with `n` kept aside. */
  ghost predicate Cursor(head: Node, left: seq<Node>, pos: Node, n: Node)
    reads head, left
  {
    Ring(head, left) && pos == At(head, left, 0) && n == if left == [] then head else At(head, left, 1)
  }

  lemma CursorAt(head: Node, left: seq<Node>, pos: Node, n: Node)
    requires Cursor(head, left, pos, n)
    ensures Ring(head, left) && (pos == head <==> left == [])
    ensures left != [] ==> pos == left[0] && n == if |left| == 1 then head else left[1]
  {
  }

  lemma Neighbours(head: Node, s: seq<Node>, k: nat)
    requires Ring(head, s) && k < |s|
    ensures s[k].prev == At(head, s, k - 1) && s[k].next == At(head, s, k + 1)
  {
    assert At(head, s, k) == s[k];
  }

  /** The body of the safe walk: unlinks the current node. */
  method DeleteCurrent(pos: Node, n: Node, ghost head: Node, ghost left: seq<Node>)
    requires Cursor(head, left, pos, n) && left != []
    modifies head`next, n`prev
    ensures Ring(head, left[1..]) && n == At(head, left[1..], 0)
  {
    hide Ring, Cursor;
    CursorAt(head, left, pos, n);
    Neighbours(head, left, 0);
    Delete(pos, head, left, 0);
    assert left[..0] + left[1..] == left[1..];
  }

  method NextOf(pos: Node, ghost head: Node, ghost left: seq<Node>) returns (n: Node)
    requires Ring(head, left) && pos == At(head, left, 0)
    ensures Cursor(head, left, pos, n)
  {
    n := pos.next;
    assert if left == [] then At(head, left, -1).next == At(head, left, 0)
      else At(head, left, 0).next == At(head, left, 1);
  }

  /** One round of the safe walk; the ring of `head'` runs through other nodes. */
  method DeleteRound(pos: Node, n: Node, ghost head: Node, ghost left: seq<Node>,
                     ghost head': Node, ghost s': seq<Node>)
    returns (n': Node)
    requires Cursor(head, left, pos, n) && left != [] && Ring(head', s') && Disjoint(head, left, head', s')
    modifies head`next, n`prev
    ensures Cursor(head, left[1..], n, n') && Ring(head', s') && Disjoint(head, left[1..], head', s')
  {
    assert n == head || n in left;
    DeleteCurrent(pos, n, head, left);
    n' := NextOf(n, head, left[1..]);
  }

  /** The walk that keeps the next node aside, with the current one unlinked in the body: every
      original node is still visited once, the ring ends up empty, and a ring through other nodes,
      such as a location's, is not disturbed. */
  method DeleteEach(head: Node, ghost s: seq<Node>, ghost head': Node, ghost s': seq<Node>)
    returns (visited: seq<Node>)
    requires Ring(head, s) && Ring(head', s') && Disjoint(head, s, head', s')
    modifies head, s
    ensures visited == s && Ring(head, []) && Ring(head', s')
  {
    hide Ring, Cursor;
    visited := [];
    ghost var i := 0;
    var pos := First(head, s);
    var n := NextOf(pos, head, s);
    assert s[0..] == s;
    CursorAt(head, s, pos, n);
    while pos != head
      invariant i <= |s| && visited == s[..i] && (pos == head <==> s[i..] == [])
      invariant Cursor(head, s[i..], pos, n) && Ring(head', s') && Disjoint(head, s[i..], head', s')
      decreases |s| - i
    {
      CursorAt(head, s[i..], pos, n);
      assert s[i..][1..] == s[i + 1..];
      visited := visited + [pos];
      var n' := DeleteRound(pos, n, head, s[i..], head', s');
      pos, n, i := n, n', i + 1;
      CursorAt(head, s[i..], pos, n);
    }
    CursorAt(head, s[i..], pos, n);
  }

  method First(head: Node, ghost s: seq<Node>) returns (pos: Node)
    requires Ring(head, s)
    ensures pos == At(head, s, 0)
  {
    assert At(head, s, -1).next == At(head, s, 0);
    pos := head.next;
  }

  /** A ring has only one reading: its head and links determine its nodes and their order. */
  lemma {:induction false} RingIsUnique(head: Node, s: seq<Node>, t: seq<Node>, i: nat)
    requires Ring(head, s) && Ring(head, t) && i <= |s| && i <= |t|
    ensures s[..i] == t[..i] && At(head, s, i) == At(head, t, i)
    ensures i == |s| ==> s == t
  {
    if i == 0 {
      assert At(head, s, -1).next == At(head, s, 0) && At(head, t, -1).next == At(head, t, 0);
    } else {
      RingIsUnique(head, s, t, i - 1);
      assert At(head, s, i - 1).next == At(head, s, i) && At(head, t, i - 1).next == At(head, t, i);
      assert s[..i] == s[..i - 1] + [s[i - 1]] && t[..i] == t[..i - 1] + [t[i - 1]];
    }
    if i == |s| {
      assert At(head, t, i) == head;
      assert t[..i] == t;
      assert s[..i] == s;
    }
  }

  // ----- a breakpoint, which is in two rings at once

  /** A breakpoint's node in the pending ring and its node in a location's ring. */
  class Member {
    const pendingNode: Node
    const locationNode: Node

    constructor ()
      ensures fresh(pendingNode) && fresh(locationNode) && pendingNode != locationNode
      ensures pendingNode.next == pendingNode && locationNode.next == locationNode
    {
      pendingNode := new Node();
      locationNode := new Node();
    }
  }

  function PendingNodes(bs: seq<Member>): (s: seq<Node>)
    ensures |s| == |bs| && forall i :: 0 <= i < |bs| ==> s[i] == bs[i].pendingNode
  {
    seq(|bs|, i requires 0 <= i < |bs| => bs[i].pendingNode)
  }

  function LocationNodes(bs: seq<Member>): (s: seq<Node>)
    ensures |s| == |bs| && forall i :: 0 <= i < |bs| ==> s[i] == bs[i].locationNode
  {
    seq(|bs|, i requires 0 <= i < |bs| => bs[i].locationNode)
  }

  function Cut<T>(s: seq<T>, k: nat): seq<T>
    requires k < |s|
  {
    s[..k] + s[k + 1..]
  }

  /** `all` hang on the pending ring and `here` on the ring of a location; a breakpoint may be in both. */
  ghost predicate TwoRings(pending: Node, all: seq<Member>, location: Node, here: seq<Member>)
    reads pending, location, PendingNodes(all), LocationNodes(here)
  {
    && Ring(pending, PendingNodes(all)) && Ring(location, LocationNodes(here))
    && Disjoint(pending, PendingNodes(all), location, LocationNodes(here))
  }

  /** Unlinking a node leaves a ring through other nodes alone. */
  method DeleteBeside(target: Node, ghost head: Node, ghost s: seq<Node>, ghost k: nat,
                      ghost head': Node, ghost s': seq<Node>)
    requires Ring(head, s) && Ring(head', s') && Disjoint(head, s, head', s') && k < |s| && target == s[k]
    modifies head, s
    ensures Ring(head, Cut(s, k)) && Ring(head', s') && Disjoint(head, Cut(s, k), head', s')
  {
    assert At(head, s, k).prev == At(head, s, k - 1) && At(head, s, k).next == At(head, s, k + 1);
    assert target.prev in [head] + s && target.next in [head] + s;
    Delete(target, head, s, k);
    assert forall x :: x in Cut(s, k) ==> x in s;
  }

  /** Off the pending ring; the location's ring is as it was. */
  method Unlist(b: Member, ghost pending: Node, ghost all: seq<Member>, ghost k: nat,
                ghost location: Node, ghost here: seq<Member>)
    requires TwoRings(pending, all, location, here) && k < |all| && all[k] == b
    modifies pending, PendingNodes(all)
    ensures TwoRings(pending, Cut(all, k), location, here)
  {
    assert PendingNodes(Cut(all, k)) == Cut(PendingNodes(all), k);
    DeleteBeside(b.pendingNode, pending, PendingNodes(all), k, location, LocationNodes(here));
  }

  /** Off the location's ring; the pending ring is as it was.  Tells whether nobody is left. */
  method Unlink(b: Member, ghost pending: Node, ghost all: seq<Member>,
                location: Node, ghost here: seq<Member>, ghost j: nat) returns (empty: bool)
    requires TwoRings(pending, all, location, here) && j < |here| && here[j] == b
    modifies location, LocationNodes(here)
    ensures TwoRings(pending, all, location, Cut(here, j)) && (empty <==> Cut(here, j) == [])
  {
    assert LocationNodes(Cut(here, j)) == Cut(LocationNodes(here), j);
    DeleteBeside(b.locationNode, location, LocationNodes(here), j, pending, PendingNodes(all));
    assert At(location, LocationNodes(Cut(here, j)), -1).next == At(location, LocationNodes(Cut(here, j)), 0);
    empty := location.next == location;
  }

  /** Deleting a breakpoint takes it out of both rings it is in, each of which keeps all others in order. */
  method RemoveMember(b: Member, ghost pending: Node, ghost all: seq<Member>, ghost k: nat,
                      location: Node, ghost here: seq<Member>, ghost j: nat) returns (empty: bool)
    requires TwoRings(pending, all, location, here) && k < |all| && all[k] == b && j < |here| && here[j] == b
    modifies pending, location, PendingNodes(all), LocationNodes(here)
    ensures TwoRings(pending, Cut(all, k), location, Cut(here, j)) && (empty <==> Cut(here, j) == [])
  {
    Unlist(b, pending, all, k, location, here);
    empty := Unlink(b, pending, Cut(all, k), location, here, j);
  }

  /** Linking a node that is on neither ring leaves a ring through other nodes alone. */
  method AddBeside(head: Node, n: Node, ghost s: seq<Node>, ghost head': Node, ghost s': seq<Node>)
    requires Ring(head, s) && Ring(head', s') && Disjoint(head, s, head', s')
    requires n != head && n !in s && n != head' && n !in s'
    modifies n, head, s
    ensures Ring(head, s + [n]) && Ring(head', s') && Disjoint(head, s + [n], head', s')
  {
    assert forall i :: 0 <= i < |s'| ==> s'[i] in s' && s'[i] !in s;
    AddBack(head, n, s);
    assert forall x :: x in s + [n] ==> x in s || x == n;
  }

  /** Last in the pending ring; the location's ring is as it was. */
  method Enlist(b: Member, pending: Node, ghost all: seq<Member>, ghost location: Node, ghost here: seq<Member>)
    requires TwoRings(pending, all, location, here)
    requires b.pendingNode != pending && b.pendingNode !in PendingNodes(all)
    requires b.pendingNode != location && b.pendingNode !in LocationNodes(here)
    modifies b.pendingNode, pending, PendingNodes(all)
    ensures TwoRings(pending, all + [b], location, here)
  {
    assert PendingNodes(all + [b]) == PendingNodes(all) + [b.pendingNode];
    AddBeside(pending, b.pendingNode, PendingNodes(all), location, LocationNodes(here));
  }

  /** Whether a breakpoint hangs on the ring of a location. */
  method Hangs(b: Member, location: Node, ghost here: seq<Member>) returns (found: bool)
    requires Ring(location, LocationNodes(here)) && b.locationNode != location
    requires forall x :: x in here && x.locationNode == b.locationNode ==> x == b
    ensures found <==> b in here
  {
    ghost var s, i := LocationNodes(here), 0;
    var pos := First(location, s);
    while pos != location
      invariant i <= |s| && pos == At(location, s, i) && b !in here[..i]
      decreases |s| - i
    {
      assert At(location, s, i).next == At(location, s, i + 1);
      assert i < |s| && pos == here[i].locationNode && here[i] in here;
      if pos == b.locationNode {
        return true;
      }
      pos := pos.next;
      i := i + 1;
    }
    assert here[..i] == here;
    found := false;
  }

  /** Last in the location's ring, unless it is in it already; the pending ring is as it was. */
  method Append(b: Member, ghost pending: Node, ghost all: seq<Member>, location: Node, ghost here: seq<Member>)
    returns (appended: bool)
    requires TwoRings(pending, all, location, here)
    requires b.locationNode != location && forall x :: x in here && x.locationNode == b.locationNode ==> x == b
    requires b.locationNode != pending && b.locationNode !in PendingNodes(all)
    modifies b.locationNode, location, LocationNodes(here)
    ensures appended <==> b !in here
    ensures TwoRings(pending, all, location, if appended then here + [b] else here)
  {
    var found := Hangs(b, location, here);
    appended := !found;
    if appended {
      assert LocationNodes(here + [b]) == LocationNodes(here) + [b.locationNode];
      assert forall i :: 0 <= i < |here| ==> here[i] in here;
      AddBeside(location, b.locationNode, LocationNodes(here), pending, PendingNodes(all));
    }
  }
}
