// Virtual directories on values: a list of entries that behaves as a finite map
// from names to local directories, and the path translation it drives.
module VirtualDirs {
  import opened Options
  import opened CStrings

  datatype Entry = Entry(name: string, local: string)

  datatype Error = NoError | InvalidPath | Stopped | NoSupport | AlreadyMapped | NotADirectory | NotMapped

  // The longest path the file system takes: a build-time setting, large enough for
  // the characters that a name is to leave room for.
  type PathLimit = n: nat | 5 <= n witness 5

  const SEPARATOR: char := '/'

  datatype Operation =
    | Add(name: Option<string>, local: Option<string>, stopped: bool, supported: bool, isDirectory: bool)
    | Remove(name: Option<string>, stopped: bool, supported: bool)

  // ------------------------------------------------------------ operations

  // How the source compares an entry with the first `length` characters of a text.
  predicate Matches(entry: Entry, text: string, length: nat) {
    SameUpto(entry.name, text, Max(|entry.name|, length), 0)
  }

  // The first entry that matches, or the number of entries.
  function Find(entries: seq<Entry>, text: string, length: nat): (i: nat)
    ensures i <= |entries|
  {
    if entries == [] || Matches(entries[0], text, length) then 0 else 1 + Find(entries[1..], text, length)
  }

  predicate ValidPaths(limit: PathLimit, name: Option<string>, local: Option<string>) {
    && name.Some? && local.Some? && name.value != [] && local.value != []
    && '/' !in name.value && '\\' !in name.value && |name.value| <= limit - 5
  }

  function WithEntry(limit: PathLimit, entries: seq<Entry>, name: Option<string>, local: Option<string>,
                     stopped: bool, supported: bool, isDirectory: bool): (seq<Entry>, Error)
  {
    if !ValidPaths(limit, name, local) then (entries, InvalidPath)
    else if stopped then (entries, Stopped)
    else if !supported then (entries, NoSupport)
    else if Find(entries, name.value, |name.value|) < |entries| then (entries, AlreadyMapped)
    else if !isDirectory then (entries, NotADirectory)
    else ([Entry(name.value, local.value)] + entries, NoError)
  }

  function WithoutEntry(entries: seq<Entry>, name: Option<string>, stopped: bool, supported: bool): (seq<Entry>, Error)
  {
    if stopped then (entries, Stopped)
    else if !supported then (entries, NoSupport)
    else if name.None? || name.value == [] || name.value[0] == '/' then (entries, InvalidPath)
    else
      var i := Find(entries, name.value, |name.value|);
      if i == |entries| then (entries, NotMapped)
      else (entries[..i] + entries[i + 1..], NoError)
  }

  function Apply(limit: PathLimit, entries: seq<Entry>, operation: Operation): (seq<Entry>, Error) {
    match operation
    case Add(name, local, stopped, supported, isDirectory) =>
      WithEntry(limit, entries, name, local, stopped, supported, isDirectory)
    case Remove(name, stopped, supported) => WithoutEntry(entries, name, stopped, supported)
  }

  // Where the next separator is, or the length.
  function SeparatorFrom(path: string, i: nat): (k: nat)
    requires i <= |path|
    ensures i <= k <= |path| && (k < |path| ==> path[k] == SEPARATOR)
    ensures forall j :: i <= j < k ==> path[j] != SEPARATOR
    decreases |path| - i
  {
    if i == |path| || path[i] == SEPARATOR then i else SeparatorFrom(path, i + 1)
  }

  // get_local_path_from_cloud_path
  function Translate(entries: seq<Entry>, path: string): Option<string>
    requires path != []
  {
    if entries == [] then Some(path)
    else
      var end := SeparatorFrom(path, 1);
      var i := Find(entries, path[1..], end - 1);
      if i == |entries| then None else Some(entries[i].local + path[end..])
  }

  // ------------------------------------------------------------ as a map

  function Mapping(entries: seq<Entry>): map<string, string> {
    if entries == [] then map[] else Mapping(entries[1..])[entries[0].name := entries[0].local]
  }

  // The same operations on a map.
  function MapApply(limit: PathLimit, m: map<string, string>, operation: Operation): (map<string, string>, Error) {
    match operation
    case Add(name, local, stopped, supported, isDirectory) =>
      if !ValidPaths(limit, name, local) then (m, InvalidPath)
      else if stopped then (m, Stopped)
      else if !supported then (m, NoSupport)
      else if name.value in m then (m, AlreadyMapped)
      else if !isDirectory then (m, NotADirectory)
      else (m[name.value := local.value], NoError)
    case Remove(name, stopped, supported) =>
      if stopped then (m, Stopped)
      else if !supported then (m, NoSupport)
      else if name.None? || name.value == [] || name.value[0] == '/' then (m, InvalidPath)
      else if name.value !in m then (m, NotMapped)
      else (m - {name.value}, NoError)
  }

  predicate Distinct(entries: seq<Entry>) {
    forall i, j :: 0 <= i < j < |entries| ==> entries[i].name != entries[j].name
  }

  predicate NamesOk(entries: seq<Entry>) {
    forall i :: 0 <= i < |entries| ==>
                  NoNul(entries[i].name) && entries[i].name != [] && SEPARATOR !in entries[i].name
  }

  predicate Inv(entries: seq<Entry>) {
    Distinct(entries) && NamesOk(entries)
  }

  // Arguments are C strings.
  predicate Proper(operation: Operation) {
    operation.name.Some? ==> NoNul(operation.name.value)
  }

  // The position of a name, or the number of entries.
  function IndexOf(entries: seq<Entry>, name: string): (i: nat)
    ensures i <= |entries| && (i < |entries| ==> entries[i].name == name)
    ensures forall k :: 0 <= k < i ==> entries[k].name != name
  {
    if entries == [] || entries[0].name == name then 0 else 1 + IndexOf(entries[1..], name)
  }

  // A text whose first `length` characters are a name or part of a path.
  predicate Slice(text: string, length: nat) {
    NoNul(text) && length <= |text| && (length < |text| ==> text[length] == SEPARATOR)
  }

  // The search by comparison is the search for the equal name.
  lemma {:induction false} FindIsIndexOf(entries: seq<Entry>, text: string, length: nat)
    requires NamesOk(entries) && Slice(text, length)
    ensures Find(entries, text, length) == IndexOf(entries, text[..length])
  {
    if entries == [] {
    } else {
      LongestCompareIsEquality(entries[0].name, text, length, SEPARATOR);
      FindIsIndexOf(entries[1..], text, length);
    }
  }

  lemma {:induction false} MappingIs(entries: seq<Entry>, name: string)
    ensures name in Mapping(entries) <==> IndexOf(entries, name) < |entries|
    ensures name in Mapping(entries) ==> Mapping(entries)[name] == entries[IndexOf(entries, name)].local
  {
    if entries == [] {
    } else {
      MappingIs(entries[1..], name);
    }
  }

  lemma RemovalKeepsInv(entries: seq<Entry>, i: nat)
    requires Inv(entries) && i < |entries|
    ensures Inv(entries[..i] + entries[i + 1..])
  {
    var shorter := entries[..i] + entries[i + 1..];
    forall k | 0 <= k < |shorter|
      ensures shorter[k] == entries[if k < i then k else k + 1]
    {
    }
  }

  lemma UpdateAndRemove(m: map<string, string>, kept: string, local: string, removed: string)
    requires kept != removed
    ensures m[kept := local] - {removed} == (m - {removed})[kept := local]
  {
  }

  lemma {:induction false} MappingRemoves(entries: seq<Entry>, i: nat)
    requires Distinct(entries) && i < |entries|
    ensures Mapping(entries[..i] + entries[i + 1..]) == Mapping(entries) - {entries[i].name}
  {
    var rest := entries[1..];
    if i == 0 {
      assert entries[..0] + entries[1..] == rest;
      MappingIs(rest, entries[0].name);
      assert Mapping(entries) - {entries[0].name} == Mapping(rest);
    } else {
      var shorter := entries[..i] + entries[i + 1..];
      assert shorter[1..] == rest[..i - 1] + rest[i..] && shorter[0] == entries[0];
      MappingRemoves(rest, i - 1);
      UpdateAndRemove(Mapping(rest), entries[0].name, entries[0].local, entries[i].name);
    }
  }

  lemma OperationRefinesMap(limit: PathLimit, entries: seq<Entry>, operation: Operation)
    requires Inv(entries) && Proper(operation)
    ensures Inv(Apply(limit, entries, operation).0)
    ensures Mapping(Apply(limit, entries, operation).0) == MapApply(limit, Mapping(entries), operation).0
    ensures Apply(limit, entries, operation).1 == MapApply(limit, Mapping(entries), operation).1
  {
    if operation.name.Some? {
      NameIsFound(entries, operation.name.value);
      if operation.Add? {
        AddRefinesMap(limit, entries, operation);
      } else {
        RemoveRefinesMap(limit, entries, operation);
      }
    }
  }

  lemma NameIsFound(entries: seq<Entry>, name: string)
    requires NamesOk(entries) && NoNul(name)
    ensures Find(entries, name, |name|) == IndexOf(entries, name)
    ensures name in Mapping(entries) <==> IndexOf(entries, name) < |entries|
  {
    FindIsIndexOf(entries, name, |name|);
    assert name[..|name|] == name;
    MappingIs(entries, name);
  }

  lemma AddRefinesMap(limit: PathLimit, entries: seq<Entry>, operation: Operation)
    requires Inv(entries) && operation.Add? && operation.name.Some? && NoNul(operation.name.value)
    ensures Inv(Apply(limit, entries, operation).0)
    ensures Mapping(Apply(limit, entries, operation).0) == MapApply(limit, Mapping(entries), operation).0
    ensures Apply(limit, entries, operation).1 == MapApply(limit, Mapping(entries), operation).1
  {
    NameIsFound(entries, operation.name.value);
    var after := Apply(limit, entries, operation).0;
    if after != entries {
      assert after[1..] == entries;
    }
  }

  lemma RemoveRefinesMap(limit: PathLimit, entries: seq<Entry>, operation: Operation)
    requires Inv(entries) && operation.Remove? && operation.name.Some? && NoNul(operation.name.value)
    ensures Inv(Apply(limit, entries, operation).0)
    ensures Mapping(Apply(limit, entries, operation).0) == MapApply(limit, Mapping(entries), operation).0
    ensures Apply(limit, entries, operation).1 == MapApply(limit, Mapping(entries), operation).1
  {
    var i := IndexOf(entries, operation.name.value);
    NameIsFound(entries, operation.name.value);
    if i < |entries| {
      MappingRemoves(entries, i);
      RemovalKeepsInv(entries, i);
    }
  }

  function Run(limit: PathLimit, entries: seq<Entry>, operations: seq<Operation>): seq<Entry>
    decreases |operations|
  {
    if operations == [] then entries else Run(limit, Apply(limit, entries, operations[0]).0, operations[1..])
  }

  function MapRun(limit: PathLimit, m: map<string, string>, operations: seq<Operation>): map<string, string>
    decreases |operations|
  {
    if operations == [] then m else MapRun(limit, MapApply(limit, m, operations[0]).0, operations[1..])
  }

  // Each error of an addition, and exactly when it is reported. A name must leave room
  // for the path of its parent directory and the terminator.
  lemma AdditionIsExact(limit: PathLimit, entries: seq<Entry>, name: Option<string>, local: Option<string>,
                        stopped: bool, supported: bool, isDirectory: bool)
    requires Inv(entries) && (name.Some? ==> NoNul(name.value))
    ensures var (after, error) := WithEntry(limit, entries, name, local, stopped, supported, isDirectory);
            var named := name.Some? && name.value != [] && '/' !in name.value && '\\' !in name.value
                         && |"/" + name.value + "/.."| + 1 <= limit;
            var able := named && local.Some? && local.value != [];
            var ready := able && !stopped && supported;
            && (error == InvalidPath <==> !able)
            && (error == Stopped <==> able && stopped)
            && (error == NoSupport <==> able && !stopped && !supported)
            && (error == AlreadyMapped <==> ready && name.value in Mapping(entries))
            && (error == NotADirectory <==> ready && name.value !in Mapping(entries) && !isDirectory)
            && (error == NoError <==> ready && name.value !in Mapping(entries) && isDirectory)
            && (error != NoError ==> after == entries)
            && (error == NoError ==> Mapping(after) == Mapping(entries)[name.value := local.value])
  {
    if name.Some? {
      NameIsFound(entries, name.value);
      AddRefinesMap(limit, entries, Add(name, local, stopped, supported, isDirectory));
    }
  }

  // And of a removal, which looks at its argument last.
  lemma RemovalIsExact(entries: seq<Entry>, name: Option<string>, stopped: bool, supported: bool)
    requires Inv(entries) && (name.Some? ==> NoNul(name.value))
    ensures var (after, error) := WithoutEntry(entries, name, stopped, supported);
            var ready := !stopped && supported;
            var named := name.Some? && name.value != [] && name.value[0] != '/';
            && (error == Stopped <==> stopped)
            && (error == NoSupport <==> !stopped && !supported)
            && (error == InvalidPath <==> ready && !named)
            && (error == NotMapped <==> ready && named && name.value !in Mapping(entries))
            && (error == NoError <==> ready && named && name.value in Mapping(entries))
            && (error != NoError ==> after == entries)
            && (error == NoError ==> Mapping(after) == Mapping(entries) - {name.value})
  {
    if name.Some? {
      NameIsFound(entries, name.value);
      RemoveRefinesMap(5, entries, Remove(name, stopped, supported));
    }
  }

  // Over every run of additions and removals the list is a finite map.
  lemma {:induction false} RunRefinesMap(limit: PathLimit, entries: seq<Entry>, operations: seq<Operation>)
    requires Inv(entries) && forall k :: 0 <= k < |operations| ==> Proper(operations[k])
    ensures Inv(Run(limit, entries, operations))
    ensures Mapping(Run(limit, entries, operations)) == MapRun(limit, Mapping(entries), operations)
    decreases |operations|
  {
    if operations == [] {
    } else {
      OperationRefinesMap(limit, entries, operations[0]);
      RunRefinesMap(limit, Apply(limit, entries, operations[0]).0, operations[1..]);
    }
  }

  // ------------------------------------------------------------ translation

  // What a translation is for: "/" + v + rest becomes local(v) + rest.
  function MapTranslate(m: map<string, string>, v: string, rest: string): Option<string> {
    if v in m then Some(m[v] + rest) else None
  }

  predicate IsComponent(v: string, rest: string) {
    SEPARATOR !in v && NoNul(v) && NoNul(rest) && (rest == [] || rest[0] == SEPARATOR)
  }

  lemma TranslateIsMapped(entries: seq<Entry>, v: string, rest: string)
    requires Inv(entries) && IsComponent(v, rest)
    ensures var path := "/" + v + rest;
            && (entries == [] ==> Translate(entries, path) == Some(path))
            && (v in Mapping(entries) ==> Translate(entries, path) == Some(Mapping(entries)[v] + rest))
            && (entries != [] && v !in Mapping(entries) ==> Translate(entries, path) == None)
  {
    var path := "/" + v + rest;
    ComponentEnds(v, rest);
    var text := path[1..];
    assert text == v + rest && text[..|v|] == v;
    FindIsIndexOf(entries, text, |v|);
    MappingIs(entries, v);
    assert path[|v| + 1..] == rest;
  }

  lemma ComponentEnds(v: string, rest: string)
    requires IsComponent(v, rest)
    ensures SeparatorFrom("/" + v + rest, 1) == |v| + 1
  {
    var path := "/" + v + rest;
    var end := SeparatorFrom(path, 1);
    assert forall k :: 1 <= k < |v| + 1 ==> path[k] == v[k - 1];
    if rest != [] {
      assert path[|v| + 1] == SEPARATOR;
    }
  }

  // Every path that starts with a separator is of that form.
  lemma PathsHaveComponents(path: string) returns (v: string, rest: string)
    requires path != [] && path[0] == SEPARATOR && NoNul(path)
    ensures IsComponent(v, rest) && path == "/" + v + rest
  {
    var end := SeparatorFrom(path, 1);
    v, rest := path[1..end], path[end..];
  }

  // Over every run: what a mapped name, an unmapped name and an empty list do.
  lemma TranslationFollowsTheMap(limit: PathLimit, operations: seq<Operation>, v: string, rest: string)
    requires IsComponent(v, rest) && forall k :: 0 <= k < |operations| ==> Proper(operations[k])
    ensures var m, path := MapRun(limit, map[], operations), "/" + v + rest;
            Translate(Run(limit, [], operations), path) == if m == map[] then Some(path) else MapTranslate(m, v, rest)
  {
    RunRefinesMap(limit, [], operations);
    var entries := Run(limit, [], operations);
    TranslateIsMapped(entries, v, rest);
    if entries != [] {
      assert entries[0].name in Mapping(entries);
    }
  }
}
