// The receive targets as the program keeps them: nodes pushed in front, found by
// comparing names over the longer of the two lengths, and unlinked through the
// pointer that leads to them.
module TargetList {
  import opened CStrings
  import opened Options
  import opened Streaming
  import opened ReceiveMachine

  // ccapi_receive_target_t
  class Node {
    const name: string
    const callbacks: Callbacks
    const limit: Limit
    var next: Node?

    ghost function View(): Target {
      Target(name, callbacks, limit)
    }

    constructor (target: string, present: Callbacks, size: Limit, following: Node?)
      ensures View() == Target(target, present, size) && next == following
    {
      name, callbacks, limit, next := target, present, size, following;
    }
  }

  ghost function At(spine: seq<Node>, i: int): Node? {
    if 0 <= i < |spine| then spine[i] else null
  }

  ghost predicate NodeLinked(spine: seq<Node>, i: nat)
    requires i < |spine|
    reads spine[i]
  {
    spine[i].next == At(spine, i + 1)
  }

  ghost predicate Linked(spine: seq<Node>)
    reads spine
  {
    && (forall i :: 0 <= i < |spine| ==> NodeLinked(spine, i))
    && (forall i, j :: 0 <= i < j < |spine| ==> spine[i] != spine[j])
  }

  ghost predicate Mirrors(spine: seq<Node>, targets: seq<Target>) {
    && |targets| == |spine|
    && forall i :: 0 <= i < |spine| ==> spine[i].View() == targets[i] && NoNul(targets[i].name)
  }

  class List {
    var head: Node?
    ghost var spine: seq<Node>
    ghost var targets: seq<Target>

    ghost predicate Valid()
      reads this, spine
    {
      head == At(spine, 0) && Linked(spine) && Mirrors(spine, targets)
    }

    constructor ()
      ensures Valid() && targets == [] && spine == []
    {
      head, spine, targets := null, [], [];
    }

    // get_pointer_to_target_entry: the pointer found is the `next` field of
    // `previous`, or the list's head where that is null.
    method FindPointer(name: string) returns (previous: Node?, found: Node?)
      requires Valid() && NoNul(name)
      ensures var i := Find(targets, name); previous == At(spine, i - 1) && found == At(spine, i)
    {
      ghost var i: nat := 0;
      previous, found := null, head;
      while found != null
        invariant i <= |spine| && previous == At(spine, i - 1) && found == At(spine, i)
        invariant Find(targets, name) == i + Find(targets[i..], name)
        decreases |spine| - i
      {
        assert NodeLinked(spine, i) && found.View() == targets[i] && NoNul(targets[i].name);
        FindStep(targets[i..], name);
        assert targets[i..][1..] == targets[i + 1..];
        var longest := if |found.name| < |name| then |name| else |found.name|;
        var same := Same(found.name, name, longest);
        WholeCompareIsEquality(found.name, name);
        if same {
          return;
        }
        previous, found := found, found.next;
        i := i + 1;
      }
    }

    // add_target_entry
    method PushFront(name: string, callbacks: Callbacks, limit: Limit)
      requires Valid() && NoNul(name)
      modifies this
      ensures Valid() && targets == [Target(name, callbacks, limit)] + old(targets)
      ensures fresh(set n | n in spine && n !in old(spine))
    {
      var node := new Node(name, callbacks, limit, head);
      Longer(node, spine);
      head := node;
      spine, targets := [node] + spine, [node.View()] + targets;
    }

    method Unlink(previous: Node?, node: Node, ghost i: nat)
      requires Valid() && i < |spine| && previous == At(spine, i - 1) && node == At(spine, i)
      modifies this, previous
      ensures Valid() && targets == old(targets)[..i] + old(targets)[i + 1..]
      ensures forall n :: n in spine ==> n in old(spine)
    {
      assert NodeLinked(spine, i);
      if previous == null {
        head := node.next;
      } else {
        previous.next := node.next;
      }
      ghost var before := spine;
      spine, targets := spine[..i] + spine[i + 1..], targets[..i] + targets[i + 1..];
      forall k | 0 <= k < |spine|
        ensures NodeLinked(spine, k)
      {
        assert old(NodeLinked(before, if k < i then k else k + 1));
      }
    }

    // ccxapi_receive_add_target
    method Add(target: Option<string>, callbacks: Callbacks, limit: Limit, running: bool, supported: bool)
      returns (result: Error)
      requires Valid() && (target.Some? ==> NoNul(target.value))
      modifies this
      ensures Valid() && (targets, result) == Added(old(targets), supported, target, callbacks, limit, running)
      ensures fresh(set n | n in spine && n !in old(spine))
    {
      if target == None {
        return InvalidTarget;
      }
      if !callbacks.data {
        return InvalidDataCallback;
      }
      if !running {
        return NotRunning;
      }
      if !supported {
        return NoReceiveSupport;
      }
      var _, existing := FindPointer(target.value);
      if existing != null {
        return TargetAlreadyAdded;
      }
      PushFront(target.value, callbacks, limit);
      result := NoError;
    }

    // ccxapi_receive_remove_target
    method Remove(target: Option<string>, running: bool, supported: bool) returns (result: Error)
      requires Valid() && (target.Some? ==> NoNul(target.value))
      modifies this, spine
      ensures Valid() && (targets, result) == Removed(old(targets), supported, target, running)
      ensures forall n :: n in spine ==> n in old(spine)
    {
      if !running {
        return NotRunning;
      }
      if !supported {
        return NoReceiveSupport;
      }
      if target == None {
        return InvalidTarget;
      }
      var previous, found := FindPointer(target.value);
      if found == null {
        return TargetNotAdded;
      }
      Unlink(previous, found, Find(targets, target.value));
      result := NoError;
    }
  }

  // Compared over the longer length, two strings agree exactly when they are equal.
  lemma WholeCompareIsEquality(a: string, b: string)
    requires NoNul(a) && NoNul(b)
    ensures SameUpto(a, b, Max(|a|, |b|), 0) <==> a == b
  {
    LongestCompareIsEquality(a, b, |b|, '\0');
    assert b[..|b|] == b;
  }

  lemma FindStep(targets: seq<Target>, name: string)
    requires targets != []
    ensures Find(targets, name) == if targets[0].name == name then 0 else 1 + Find(targets[1..], name)
  {
  }

  lemma Longer(node: Node, spine: seq<Node>)
    requires Linked(spine) && node !in spine && node.next == At(spine, 0)
    ensures Linked([node] + spine)
  {
    var longer := [node] + spine;
    forall i | 0 <= i < |longer|
      ensures NodeLinked(longer, i)
    {
      if 0 < i {
        assert NodeLinked(spine, i - 1);
      }
    }
  }
}
