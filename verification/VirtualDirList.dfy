// The list of virtual directories as the program keeps it: nodes pushed in
// front, found by a loop and unlinked through the pointer that leads to them.
module VirtualDirList {
  import opened Options
  import opened CStrings
  import opened VirtualDirs

  // ccapi_fs_virtual_dir_t
  class Node {
    const virtualDir: string
    const localDir: string
    var next: Node?

    ghost function View(): Entry {
      Entry(virtualDir, localDir)
    }

    constructor (name: string, local: string)
      ensures virtualDir == name && localDir == local
    {
      virtualDir, localDir := name, local;
      next := null;
    }
  }

  ghost function At(spine: seq<Node>, i: int): Node? {
    if 0 <= i < |spine| then spine[i] else null
  }

  ghost predicate NodeLinked(spine: seq<Node>, i: nat)
    requires i < |spine|
    reads spine[i]
  {
    spine[i].next == At(spine, i + 1)
  }

  ghost predicate Linked(spine: seq<Node>)
    reads spine
  {
    && (forall i :: 0 <= i < |spine| ==> NodeLinked(spine, i))
    && (forall i, j :: 0 <= i < j < |spine| ==> spine[i] != spine[j])
  }

  ghost predicate Mirrors(spine: seq<Node>, entries: seq<Entry>) {
    && |entries| == |spine|
    && forall i :: 0 <= i < |spine| ==> spine[i].View() == entries[i]
  }

  class FileSystem {
    const maxPathLength: PathLimit
    var head: Node?
    ghost var spine: seq<Node>
    ghost var entries: seq<Entry>

    ghost predicate Valid()
      reads this, spine
    {
      head == At(spine, 0) && Linked(spine) && Mirrors(spine, entries)
    }

    constructor (limit: PathLimit)
      ensures Valid() && entries == [] && maxPathLength == limit
    {
      maxPathLength, head, spine, entries := limit, null, [], [];
    }

    // get_pointer_to_dir_entry_from_virtual_dir_name: the pointer found is the
    // `next` field of `previous`, or the list's head where that is null.
    method FindPointer(text: string, length: nat) returns (previous: Node?, found: Node?)
      requires Valid()
      ensures var i := Find(entries, text, length); previous == At(spine, i - 1) && found == At(spine, i)
    {
      ghost var i: nat := 0;
      previous, found := null, head;
      while found != null
        invariant i <= |spine| && previous == At(spine, i - 1) && found == At(spine, i)
        invariant Find(entries, text, length) == i + Find(entries[i..], text, length)
        decreases |spine| - i
      {
        assert NodeLinked(spine, i) && found.View() == entries[i];
        FindStep(entries[i..], text, length);
        assert entries[i..][1..] == entries[i + 1..];
        var longest := if |found.virtualDir| < length then length else |found.virtualDir|;
        var same := Same(found.virtualDir, text, longest);
        if same {
          return;
        }
        previous, found := found, found.next;
        i := i + 1;
      }
    }

    // ccxapi_fs_add_virtual_dir
    method AddVirtualDir(name: Option<string>, local: Option<string>, stopped: bool, supported: bool, isDirectory: bool)
      returns (error: Error)
      requires Valid()
      modifies this
      ensures Valid()
      ensures (entries, error) ==
              WithEntry(maxPathLength, old(entries), name, local, stopped, supported, isDirectory)
      ensures fresh(set n | n in spine && n !in old(spine))
    {
      if name == None || local == None || |name.value| == 0 || |local.value| == 0 ||
         '/' in name.value || '\\' in name.value || |name.value| > maxPathLength - 5 {
        return InvalidPath;
      }
      if stopped {
        return Stopped;
      }
      if !supported {
        return NoSupport;
      }
      var _, existing := FindPointer(name.value, |name.value|);
      if existing != null {
        return AlreadyMapped;
      }
      if !isDirectory {
        return NotADirectory;
      }
      PushFront(name.value, local.value);
      error := NoError;
    }

    // add_virtual_dir_entry
    method PushFront(name: string, local: string)
      requires Valid()
      modifies this
      ensures Valid() && entries == [Entry(name, local)] + old(entries)
      ensures fresh(set n | n in spine && n !in old(spine))
    {
      var node := new Node(name, local);
      node.next := head;
      Longer(node, spine);
      head := node;
      spine, entries := [node] + spine, [node.View()] + entries;
    }

    // ccxapi_fs_remove_virtual_dir
    method RemoveVirtualDir(name: Option<string>, stopped: bool, supported: bool) returns (error: Error)
      requires Valid()
      modifies this, spine
      ensures Valid() && (entries, error) == WithoutEntry(old(entries), name, stopped, supported)
      ensures forall n :: n in spine ==> n in old(spine)
    {
      if stopped {
        return Stopped;
      }
      if !supported {
        return NoSupport;
      }
      if name == None || |name.value| == 0 || name.value[0] == '/' {
        return InvalidPath;
      }
      var previous, found := FindPointer(name.value, |name.value|);
      if found == null {
        return NotMapped;
      }
      Unlink(previous, found, Find(entries, name.value, |name.value|));
      error := NoError;
    }

    method Unlink(previous: Node?, node: Node, ghost i: nat)
      requires Valid() && i < |spine| && previous == At(spine, i - 1) && node == At(spine, i)
      modifies this, previous
      ensures Valid() && entries == old(entries)[..i] + old(entries)[i + 1..]
      ensures forall n :: n in spine ==> n in old(spine)
    {
      assert NodeLinked(spine, i);
      if previous == null {
        head := node.next;
      } else {
        previous.next := node.next;
      }
      ghost var before := spine;
      spine, entries := spine[..i] + spine[i + 1..], entries[..i] + entries[i + 1..];
      forall k | 0 <= k < |spine|
        ensures NodeLinked(spine, k)
      {
        assert old(NodeLinked(before, if k < i then k else k + 1));
      }
    }

    // get_path_without_virtual_dir: the index where the first component ends
    method ComponentEnd(path: string) returns (end: nat)
      requires path != []
      ensures end == SeparatorFrom(path, 1)
    {
      end := 1;
      while end < |path| && path[end] != SEPARATOR
        invariant 1 <= end <= |path| && SeparatorFrom(path, 1) == SeparatorFrom(path, end)
      {
        end := end + 1;
      }
    }

    // get_local_path_from_cloud_path
    method LocalPath(path: string) returns (local: Option<string>, mustFree: bool)
      requires Valid() && path != []
      ensures local == Translate(entries, path)
      ensures mustFree <==> entries != [] && local.Some?
    {
      if head == null {
        return Some(path), false;
      }
      var end := ComponentEnd(path);
      var _, entry := FindPointer(path[1..], end - 1);
      if entry == null {
        return None, false;
      }
      assert entry.View() == entries[Find(entries, path[1..], end - 1)];
      return Some(entry.localDir + path[end..]), true;
    }

    // Whichever operation comes next.
    method Perform(operation: Operation) returns (error: Error)
      requires Valid()
      modifies this, spine
      ensures Valid() && (entries, error) == Apply(maxPathLength, old(entries), operation)
      ensures fresh(set n | n in spine && n !in old(spine))
    {
      match operation {
        case Add(name, local, stopped, supported, isDirectory) =>
          error := AddVirtualDir(name, local, stopped, supported, isDirectory);
        case Remove(name, stopped, supported) =>
          error := RemoveVirtualDir(name, stopped, supported);
      }
    }

    // Any operations, from an empty list: the nodes hold the finite map that these
    // operations make, and a path is translated by it.
    method Drive(operations: seq<Operation>)
      requires Valid() && entries == [] && forall k :: 0 <= k < |operations| ==> Proper(operations[k])
      modifies this, spine
      ensures Valid() && Inv(entries) && Mapping(entries) == MapRun(maxPathLength, map[], operations)
      ensures forall v, rest :: IsComponent(v, rest) && entries != [] ==>
                                  Translate(entries, "/" + v + rest) == MapTranslate(Mapping(entries), v, rest)
    {
      RunRefinesMap(maxPathLength, [], operations);
      var i := 0;
      while i < |operations|
        invariant i <= |operations| && Valid()
        invariant fresh(set n | n in spine && n !in old(spine))
        invariant Run(maxPathLength, entries, operations[i..]) == Run(maxPathLength, [], operations)
      {
        assert operations[i..][0] == operations[i] && operations[i..][1..] == operations[i + 1..];
        var _ := Perform(operations[i]);
        i := i + 1;
      }
      forall v, rest | IsComponent(v, rest) && entries != []
        ensures Translate(entries, "/" + v + rest) == MapTranslate(Mapping(entries), v, rest)
      {
        TranslateIsMapped(entries, v, rest);
      }
    }
  }

  lemma FindStep(entries: seq<Entry>, text: string, length: nat)
    requires entries != []
    ensures Find(entries, text, length)
         == if Matches(entries[0], text, length) then 0 else 1 + Find(entries[1..], text, length)
  {
  }

  lemma Longer(node: Node, spine: seq<Node>)
    requires Linked(spine) && node !in spine && node.next == At(spine, 0)
    ensures Linked([node] + spine)
  {
    var longer := [node] + spine;
    forall i | 0 <= i < |longer|
      ensures NodeLinked(longer, i)
    {
      if 0 < i {
        assert NodeLinked(spine, i - 1);
      }
    }
  }
}
