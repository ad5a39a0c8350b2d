// Collections of data streams as the program keeps them: a list of nodes, each
// with a record of the connector's, which have a second chain of their own.
module DpLists {
  import opened Options
  import CStrings
  import DpFormat
  import opened DpPoints
  import opened DpCollection

  // connector_data_stream_t
  class CcfsmStream {
    const id: string
    const units: Option<string>
    const forwardTo: Option<string>
    const kind: Option<DpFormat.Argument>
    var points: seq<Point>
    var next: CcfsmStream?

    constructor (name: string, measure: Option<string>, forward: Option<string>, dataType: Option<DpFormat.Argument>)
      ensures id == name && units == measure && forwardTo == forward && kind == dataType
      ensures points == [] && next == null
    {
      id, units, forwardTo, kind := name, measure, forward, dataType;
      points, next := [], null;
    }
  }

  // ccapi_dp_data_stream_t
  class Node {
    const ccfsm: CcfsmStream
    const arguments: seq<DpFormat.Argument>
    const next: Node?

    ghost function View(): Stream
      reads ccfsm
    {
      Stream(ccfsm.id, ccfsm.units, ccfsm.forwardTo, ccfsm.kind, arguments, ccfsm.points)
    }

    constructor (stream: CcfsmStream, list: seq<DpFormat.Argument>, following: Node?)
      ensures ccfsm == stream && arguments == list && next == following
    {
      ccfsm, arguments, next := stream, list, following;
    }
  }

  ghost function Records(spine: seq<Node>): set<CcfsmStream> {
    set i | 0 <= i < |spine| :: spine[i].ccfsm
  }

  // The records hold these streams.
  ghost predicate Mirrors(spine: seq<Node>, streams: seq<Stream>)
    reads Records(spine)
  {
    && |streams| == |spine|
    && forall i :: 0 <= i < |spine| ==> spine[i].View() == streams[i]
  }

  // Node `i`, or null behind the last one; and its record.
  ghost function At(spine: seq<Node>, i: nat): Node? {
    if i < |spine| then spine[i] else null
  }

  ghost function RecordAt(spine: seq<Node>, i: nat): CcfsmStream? {
    if i < |spine| then spine[i].ccfsm else null
  }

  ghost predicate NodeLinked(spine: seq<Node>, i: nat)
    requires i < |spine|
  {
    spine[i].next == At(spine, i + 1)
  }

  // The nodes in order, each pointing to the one behind it, with a record each.
  ghost predicate Linked(spine: seq<Node>) {
    && (forall i :: 0 <= i < |spine| ==> NodeLinked(spine, i))
    && (forall i, j :: 0 <= i < j < |spine| ==> spine[i].ccfsm != spine[j].ccfsm)
  }

  ghost predicate RecordChained(spine: seq<Node>, i: nat)
    requires i < |spine|
    reads spine[i].ccfsm
  {
    spine[i].ccfsm.next == RecordAt(spine, i + 1)
  }

  // No record's chain pointer leads anywhere but to the following stream's.
  ghost predicate ChainOk(spine: seq<Node>)
    reads Records(spine)
  {
    forall i :: 0 <= i < |spine| ==> spine[i].ccfsm.next == null || RecordChained(spine, i)
  }

  // The chain visits exactly the collection's streams, in order.
  ghost predicate Chained(spine: seq<Node>)
    reads Records(spine)
  {
    forall i :: 0 <= i < |spine| ==> RecordChained(spine, i)
  }

  // A stream as the connector sees it.
  datatype Handed = Handed(id: string, units: Option<string>, forwardTo: Option<string>,
                           kind: Option<DpFormat.Argument>, points: seq<Point>)

  function AsHanded(stream: Stream): Handed {
    Handed(stream.id, stream.units, stream.forwardTo, stream.kind, stream.points)
  }

  function HandedOver(streams: seq<Stream>): (r: seq<Handed>)
    ensures |r| == |streams|
    ensures forall i :: 0 <= i < |streams| ==>
                          && r[i].id == streams[i].id && r[i].units == streams[i].units
                          && r[i].forwardTo == streams[i].forwardTo && r[i].kind == streams[i].kind
                          && r[i].points == streams[i].points
  {
    seq(|streams|, i requires 0 <= i < |streams| => AsHanded(streams[i]))
  }

  // What the connector reads when it follows the chain from `first`.
  method FollowChain(first: CcfsmStream?, ghost spine: seq<Node>, ghost streams: seq<Stream>)
    returns (read: seq<Handed>)
    requires Linked(spine) && Chained(spine) && Mirrors(spine, streams)
    requires first == RecordAt(spine, 0)
    ensures read == HandedOver(streams)
  {
    read := [];
    var current := first;
    while current != null
      invariant |read| <= |spine| && current == RecordAt(spine, |read|)
      invariant read == HandedOver(streams)[..|read|]
      decreases |spine| - |read|
    {
      assert spine[|read|].View() == streams[|read|] && RecordChained(spine, |read|);
      read := read + [Handed(current.id, current.units, current.forwardTo, current.kind, current.points)];
      current := current.next;
    }
  }

  class Collection {
    var head: Node?
    var count: nat
    ghost var spine: seq<Node>
    ghost var streams: seq<Stream>

    ghost predicate Valid()
      reads this, Records(spine)
    {
      && head == At(spine, 0) && |streams| == |spine|
      && Linked(spine) && ChainOk(spine) && Mirrors(spine, streams)
    }

    ghost function Abs(): DpCollection.Collection
      reads this
    {
      DpCollection.Collection(streams, count)
    }

    // ccapi_dp_create_collection
    constructor ()
      ensures Valid() && Abs() == DpCollection.Collection([], 0)
    {
      head, count, spine, streams := null, 0, [], [];
    }

    // find_stream_id_in_collection
    method FindStream(id: string) returns (node: Node?)
      requires Valid()
      ensures node == At(spine, Find(streams, id))
    {
      ghost var i: nat := 0;
      node := head;
      while node != null
        invariant i <= |spine| && node == At(spine, i)
        invariant Find(streams, id) == i + Find(streams[i..], id)
        decreases |spine| - i
      {
        assert NodeLinked(spine, i) && streams[i].id == node.ccfsm.id;
        FindStep(streams[i..], id);
        assert streams[i..][1..] == streams[i + 1..];
        if id == node.ccfsm.id {
          return;
        }
        node := node.next;
        i := i + 1;
      }
    }

    // ccapi_dp_add_data_stream_to_collection_extra
    method AddStream(id: Option<string>, format: Option<string>, units: Option<string>, forwardTo: Option<string>)
      returns (error: Error)
      requires Valid() && (format.Some? ==> CStrings.NoNul(format.value))
      modifies this`head, this`spine, this`streams
      ensures Valid() && (Abs(), error) == WithStream(old(Abs()), id, format, units, forwardTo)
      ensures DpCollection.AddsExactly(old(Abs()), id, format, units, forwardTo, Abs(), error)
      ensures fresh(Records(spine) - old(Records(spine)))
    {
      AdditionIsExact(Abs(), id, format, units, forwardTo);
      hide DpCollection.AddsExactly;
      var arguments: seq<DpFormat.Argument>;
      error, arguments := Check(id, format, units, forwardTo);
      if error != NoError {
        return;
      }
      var existing := FindStream(id.value);
      if existing != null {
        return InvalidStreamId;
      }
      var kind := DpFormat.GetType(arguments);
      var record := new CcfsmStream(id.value, units, forwardTo, kind);
      PushFront(record, arguments);
    }

    method PushFront(record: CcfsmStream, arguments: seq<DpFormat.Argument>)
      requires Valid() && record !in Records(spine) && record.next == null
      modifies this`head, this`spine, this`streams
      ensures Valid() && streams ==
                         [Stream(record.id, record.units, record.forwardTo, record.kind, arguments, record.points)]
                         + old(streams)
      ensures Records(spine) == old(Records(spine)) + {record}
    {
      var node := new Node(record, arguments, head);
      Longer(node, spine, streams);
      MoreRecords(node, spine);
      head := node;
      spine, streams := [node] + spine, [node.View()] + streams;
    }

    // One stream's points are replaced.
    method SetPoints(node: Node, ghost i: nat, points: seq<Point>)
      requires Valid() && i < |spine| && node == spine[i]
      modifies this`streams, node.ccfsm`points
      ensures Valid() && (old(Chained(spine)) ==> Chained(spine))
      ensures streams == old(streams)[i := old(streams)[i].(points := points)]
    {
      node.ccfsm.points := points;
      streams := streams[i := streams[i].(points := points)];
    }

    // ccapi_dp_add
    method AddPoint(id: Option<string>, values: seq<Value>) returns (error: Error)
      requires Valid() && Owed(Abs(), id, values)
      modifies this`count, this`streams, Records(spine)
      ensures Valid() && (Abs(), error) == WithPoint(old(Abs()), id, values)
    {
      hide Stored, Decoded, Supplied;
      var valid := CheckId(id);
      if !valid {
        return InvalidStreamId;
      }
      ghost var i := Find(streams, id.value);
      var node := FindStream(id.value);
      if node == null {
        return InvalidStreamId;
      }
      assert node.View() == streams[i];
      var point := CreatePoint(node.arguments, values);
      Store(node, i, point);
      error := NoError;
    }

    method Store(node: Node, ghost i: nat, point: Point)
      requires Valid() && i < |spine| && node == spine[i]
      modifies this`count, this`streams, node.ccfsm`points
      ensures Valid() && Abs() == Stored(old(Abs()), i, point)
    {
      hide Wrap;
      assert node.View() == streams[i];
      SetPoints(node, i, [point] + node.ccfsm.points);
      count := Wrap(count + 1);
    }

    // Takes the first point off one stream, if it has one.
    method Drop(node: Node, ghost i: nat)
      requires Valid() && i < |spine| && node == spine[i]
      modifies this`count, this`streams, node.ccfsm`points
      ensures Valid() && streams == old(streams)[i := Shortened(old(streams)[i])]
      ensures count == if |old(streams)[i].points| == 0 then old(count) else Wrap(old(count) - 1)
    {
      hide Wrap, Linked, NodeLinked;
      NodeHolds(spine, streams, i);
      if node.ccfsm.points != [] {
        SetPoints(node, i, node.ccfsm.points[1..]);
        count := Wrap(count - 1);
      } else {
        assert streams[i := streams[i]] == streams;
      }
    }

    // ccapi_dp_remove_older_data_point_from_streams
    method RemoveOlder()
      requires Valid() && count < UINT32
      modifies this`count, this`streams, Records(spine)
      ensures Valid() && Abs() == WithoutOlder(old(Abs()))
    {
      hide Wrap, Shortened, ShortenedAll, ShortenedUpto, NonEmpty, Linked, NodeLinked, ChainOk, Mirrors;
      WrapSmall(count);
      ghost var before := streams;
      ghost var i: nat := 0;
      ghost var n := count as int;
      ShortenedEnds(streams);
      var current := head;
      while current != null
        invariant i <= |spine| && current == At(spine, i)
        invariant Valid() && |before| == |spine| && streams == ShortenedUpto(before, i)
        invariant n == old(count) - NonEmpty(before[..i]) && count == Wrap(n)
        decreases |spine| - i
      {
        NonEmptyNext(before, i);
        NextAt(spine, i);
        WrapDown(n);
        ShortenedNext(before, i);
        Drop(current, i);
        n := n - if |before[i].points| == 0 then 0 else 1;
        current := current.next;
        i := i + 1;
      }
      assert before[..i] == before;
    }

    // chain_collection_ccfsm_data_streams
    method Chain()
      requires Valid()
      modifies Records(spine)
      ensures Valid() && Chained(spine)
    {
      ghost var i: nat := 0;
      var current := head;
      while current != null
        invariant i <= |spine| && current == At(spine, i)
        invariant Valid()
        invariant forall k :: 0 <= k < i ==> RecordChained(spine, k)
        decreases |spine| - i
      {
        assert NodeLinked(spine, i);
        var following := current.next;
        if following != null {
          current.ccfsm.next := following.ccfsm;
        }
        current := current.next;
        i := i + 1;
      }
    }

    // The chain pointer of one record is set anew.
    method Relink(node: Node, following: Node?, ghost i: nat)
      requires Valid() && Chained(spine)
      requires i < |spine| && node == spine[i] && following == At(spine, i + 1)
      modifies node.ccfsm`next
      ensures Valid() && Chained(spine)
    {
      assert RecordChained(spine, i);
      if following != null {
        node.ccfsm.next := following.ccfsm;
      }
    }

    // free_data_points_from_collection
    method FreePoints()
      requires Valid() && Chained(spine)
      modifies this`count, this`streams, Records(spine)
      ensures Valid() && Chained(spine)
      ensures Abs() == DpCollection.Collection(Emptied(old(streams)), 0)
    {
      hide Emptied, EmptiedUpto, Mirrors, ChainOk, Chained, Linked, NodeLinked;
      EmptiedEnds(streams);
      ghost var before := streams;
      ghost var i: nat := 0;
      var current := head;
      while current != null
        invariant i <= |spine| && current == At(spine, i)
        invariant Valid() && Chained(spine) && |before| == |spine| && streams == EmptiedUpto(before, i)
        decreases |spine| - i
      {
        NextAt(spine, i);
        var following := current.next;
        Relink(current, following, i);
        EmptiedNext(before, i);
        SetPoints(current, i, []);
        current := current.next;
        i := i + 1;
      }
      count := 0;
    }

    // send_collection. `handed` is what the connector reads from the chain it is
    // given; the last three arguments are what it, the cloud and the transport
    // report back.
    method Send(running: bool, started: bool, initiated: bool, response: Error, status: Error)
      returns (error: Error, handed: seq<Handed>)
      requires Valid()
      modifies this`count, this`streams, Records(spine)
      ensures Valid()
      ensures (Abs(), error) == AfterSend(old(Abs()), running, started, initiated, response, status)
      ensures handed == if old(streams) != [] && running && started then HandedOver(old(streams)) else []
    {
      handed := [];
      if head == null {
        return InvalidArgument, handed;
      }
      if !running {
        return NotRunning, handed;
      }
      if !started {
        return TransportNotStarted, handed;
      }
      Chain();
      handed := FollowChain(head.ccfsm, spine, streams);
      if !initiated {
        return InitiateActionFailed, handed;
      }
      if response != NoError {
        return response, handed;
      }
      if status != NoError {
        return status, handed;
      }
      FreePoints();
      error := NoError;
    }

    // Whichever operation comes next.
    method Perform(operation: Operation) returns (error: Error)
      requires Valid() && DpCollection.Inv(Abs()) && Proper(Abs(), operation) && Readable(operation)
      modifies this, Records(spine)
      ensures Valid() && DpCollection.Inv(Abs()) && (Abs(), error) == Apply(old(Abs()), operation)
      ensures fresh(Records(spine) - old(Records(spine)))
    {
      OperationKeepsInv(Abs(), operation);
      hide DpCollection.Inv;
      match operation {
        case AddStream(id, format, units, forwardTo) =>
          error := AddStream(id, format, units, forwardTo);
        case AddPoint(id, values) =>
          error := AddPoint(id, values);
        case RemoveOlder =>
          CountFits(Abs());
          RemoveOlder();
          error := NoError;
        case Send(running, started, initiated, response, status) =>
          var result, _ := Send(running, started, initiated, response, status);
          error := result;
      }
    }

    // Any operations, from an empty collection: the nodes and the connector's records
    // hold the collection they make, its ids are distinct, and its count is that of
    // its points.
    method Drive(operations: seq<Operation>)
      requires Valid() && Abs() == DpCollection.Collection([], 0) && Follows(Abs(), operations)
      requires forall k :: 0 <= k < |operations| ==> Readable(operations[k])
      modifies this, Records(spine)
      ensures Valid() && Abs() == Run(DpCollection.Collection([], 0), operations)
      ensures DpCollection.Inv(Abs()) && (Total(streams) < UINT32 ==> count == Total(streams))
    {
      CountIsExact(operations);
      RunKeepsInv(Abs(), operations);
      var i := 0;
      while i < |operations|
        invariant i <= |operations| && Valid() && DpCollection.Inv(Abs())
        invariant fresh(Records(spine) - old(Records(spine)))
        invariant Follows(Abs(), operations[i..])
        invariant Run(Abs(), operations[i..]) == Run(DpCollection.Collection([], 0), operations)
      {
        assert operations[i..][0] == operations[i] && operations[i..][1..] == operations[i + 1..];
        var _ := Perform(operations[i]);
        i := i + 1;
      }
    }
  }

  lemma CountFits(c: DpCollection.Collection)
    requires DpCollection.Inv(c)
    ensures c.count < UINT32
  {
  }

  // Formats are C strings.
  predicate Readable(operation: Operation) {
    operation.AddStream? && operation.format.Some? ==> CStrings.NoNul(operation.format.value)
  }

  lemma FindStep(streams: seq<Stream>, id: string)
    requires streams != []
    ensures Find(streams, id) == if streams[0].id == id then 0 else 1 + Find(streams[1..], id)
  {
  }

  lemma NodeHolds(spine: seq<Node>, streams: seq<Stream>, i: nat)
    requires Mirrors(spine, streams) && i < |spine|
    ensures i < |streams| && spine[i].View() == streams[i]
  {
  }

  lemma MoreRecords(node: Node, spine: seq<Node>)
    ensures Records([node] + spine) == Records(spine) + {node.ccfsm}
  {
    var longer := [node] + spine;
    assert longer[0] == node && forall i :: 0 <= i < |spine| ==> longer[i + 1] == spine[i];
  }

  lemma Longer(node: Node, spine: seq<Node>, streams: seq<Stream>)
    requires Linked(spine) && ChainOk(spine) && Mirrors(spine, streams)
    requires node.next == At(spine, 0)
    requires node.ccfsm !in Records(spine) && node.ccfsm.next == null
    ensures Linked([node] + spine) && ChainOk([node] + spine) && Mirrors([node] + spine, [node.View()] + streams)
  {
    var longer := [node] + spine;
    forall i | 0 <= i < |longer|
      ensures NodeLinked(longer, i)
      ensures longer[i].ccfsm.next == null || RecordChained(longer, i)
    {
      if 0 < i {
        assert NodeLinked(spine, i - 1) && longer[i] == spine[i - 1];
        assert spine[i - 1].ccfsm.next == null || RecordChained(spine, i - 1);
      }
    }
    forall i, j | 0 <= i < j < |longer|
      ensures longer[i].ccfsm != longer[j].ccfsm
    {
      assert longer[j] == spine[j - 1] && spine[j - 1].ccfsm in Records(spine);
      if 0 < i {
        assert longer[i] == spine[i - 1];
      }
    }
  }

  // The first `i` streams have lost their first point.
  ghost function ShortenedUpto(streams: seq<Stream>, i: nat): (r: seq<Stream>)
    requires i <= |streams|
    ensures |r| == |streams|
  {
    ShortenedAll(streams[..i]) + streams[i..]
  }

  lemma ShortenedEnds(streams: seq<Stream>)
    ensures ShortenedUpto(streams, 0) == streams
    ensures ShortenedUpto(streams, |streams|) == ShortenedAll(streams)
    ensures NonEmpty(streams[..0]) == 0
  {
    assert streams[..|streams|] == streams;
  }

  lemma ShortenedNext(streams: seq<Stream>, i: nat)
    requires i < |streams|
    ensures ShortenedUpto(streams, i)[i] == streams[i]
    ensures ShortenedUpto(streams, i)[i := Shortened(streams[i])] == ShortenedUpto(streams, i + 1)
  {
  }

  // The first `i` streams have lost all their points.
  ghost function EmptiedUpto(streams: seq<Stream>, i: nat): (r: seq<Stream>)
    requires i <= |streams|
    ensures |r| == |streams|
  {
    Emptied(streams[..i]) + streams[i..]
  }

  lemma EmptiedEnds(streams: seq<Stream>)
    ensures EmptiedUpto(streams, 0) == streams
    ensures EmptiedUpto(streams, |streams|) == Emptied(streams)
  {
    assert streams[..|streams|] == streams;
  }

  lemma EmptiedNext(streams: seq<Stream>, i: nat)
    requires i < |streams|
    ensures EmptiedUpto(streams, i)[i] == streams[i]
    ensures EmptiedUpto(streams, i)[i := streams[i].(points := [])] == EmptiedUpto(streams, i + 1)
  {
  }

  lemma NextAt(spine: seq<Node>, i: nat)
    requires Linked(spine) && i < |spine|
    ensures spine[i].next == At(spine, i + 1)
  {
    assert NodeLinked(spine, i);
  }

  lemma WrapSmall(n: nat)
    requires n < UINT32
    ensures Wrap(n) == n
  {
  }

  lemma WrapDown(n: int)
    ensures Wrap(Wrap(n) - 1) == Wrap(n - 1)
  {
  }

  lemma NonEmptyNext(streams: seq<Stream>, i: nat)
    requires i < |streams|
    ensures NonEmpty(streams[..i + 1]) == NonEmpty(streams[..i]) + if |streams[i].points| == 0 then 0 else 1
  {
    if i == 0 {
    } else {
      assert streams[..i + 1][1..] == streams[1..][..i];
      assert streams[..i][1..] == streams[1..][..i - 1];
      NonEmptyNext(streams[1..], i - 1);
    }
  }

  // valid_stream_id
  method CheckId(id: Option<string>) returns (valid: bool)
    ensures valid <==> ValidId(id)
  {
    if id == None || id.value == [] {
      return false;
    }
    var i := 0;
    while i < |id.value|
      invariant i <= |id.value|
      invariant forall k :: 0 <= k < i ==> IdCharacter(id.value[k])
    {
      if !AlphaNumeric(id.value[i]) && id.value[i] !in "_-./[]!+:" {
        return false;
      }
      i := i + 1;
    }
    return true;
  }

  // valid_format_string
  method CheckFormat(format: Option<string>) returns (valid: bool)
    ensures valid <==> ValidFormat(format)
  {
    if format == None || format.value == [] || format.value[0] == ' ' {
      return false;
    }
    var i := 0;
    while i < |format.value|
      invariant i <= |format.value|
      invariant forall k :: 0 <= k < i ==> FormatCharacter(format.value[k])
    {
      if !AlphaNumeric(format.value[i]) && format.value[i] != ' ' && format.value[i] != '_' {
        return false;
      }
      i := i + 1;
    }
    return true;
  }

  method Check(id: Option<string>, format: Option<string>, units: Option<string>, forwardTo: Option<string>)
    returns (error: Error, arguments: seq<DpFormat.Argument>)
    requires format.Some? ==> CStrings.NoNul(format.value)
    ensures error == CheckStream(id, format, units, forwardTo)
    ensures error == NoError ==> Some(arguments) == DpFormat.Parse(format.value)
  {
    arguments := [];
    var idOk := CheckId(id);
    if !idOk {
      return InvalidStreamId, arguments;
    }
    var formatOk := CheckFormat(format);
    if !formatOk {
      return InvalidFormat, arguments;
    }
    if forwardTo != None {
      var forwardOk := CheckId(forwardTo);
      if !forwardOk {
        return InvalidForwardTo, arguments;
      }
    }
    if units != None && units.value == [] {
      return InvalidUnits, arguments;
    }
    var result := DpFormat.GetArgumentList(format.value);
    if result.None? {
      return InvalidFormat, arguments;
    }
    return NoError, result.value;
  }
}
