// Collections of data streams on values: what each operation does, and what
// stays true over every run of operations.
module DpCollection {
  import opened Options
  import DpFormat
  import opened DpPoints

  datatype Error =
    | NoError | InvalidArgument | InvalidStreamId | InvalidFormat | InvalidForwardTo | InvalidUnits
    | NotRunning | TransportNotStarted | InitiateActionFailed
    | Other(code: int)       // reported by the cloud or by the transport

  // `arguments` are what the stream's format names, and `kind` the data type among
  // them.
  datatype Stream = Stream(id: string, units: Option<string>, forwardTo: Option<string>,
                           kind: Option<DpFormat.Argument>, arguments: seq<DpFormat.Argument>, points: seq<Point>)

  datatype Collection = Collection(streams: seq<Stream>, count: nat)

  const UINT32: nat := 0x1_0000_0000

  // A count kept in 32 bits.
  function Wrap(count: int): nat {
    count % UINT32
  }

  datatype Operation =
    | AddStream(id: Option<string>, format: Option<string>, units: Option<string>, forwardTo: Option<string>)
    | AddPoint(id: Option<string>, values: seq<Value>)
    | RemoveOlder
    | Send(running: bool, started: bool, initiated: bool, response: Error, status: Error)

  // ------------------------------------------------------------ arguments

  predicate AlphaNumeric(ch: char) {
    '0' <= ch <= '9' || 'a' <= ch <= 'z' || 'A' <= ch <= 'Z'
  }

  predicate IdCharacter(ch: char) {
    AlphaNumeric(ch) || ch in "_-./[]!+:"
  }

  predicate ValidId(id: Option<string>) {
    id.Some? && id.value != [] && forall i :: 0 <= i < |id.value| ==> IdCharacter(id.value[i])
  }

  predicate FormatCharacter(ch: char) {
    AlphaNumeric(ch) || ch == ' ' || ch == '_'
  }

  predicate ValidFormat(format: Option<string>) {
    && format.Some? && format.value != [] && format.value[0] != ' '
    && forall i :: 0 <= i < |format.value| ==> FormatCharacter(format.value[i])
  }

  function CheckStream(id: Option<string>, format: Option<string>, units: Option<string>,
                       forwardTo: Option<string>): Error
  {
    if !ValidId(id) then InvalidStreamId
    else if !ValidFormat(format) then InvalidFormat
    else if forwardTo.Some? && !ValidId(forwardTo) then InvalidForwardTo
    else if units == Some([]) then InvalidUnits
    else if DpFormat.Parse(format.value).None? then InvalidFormat
    else NoError
  }

  // ------------------------------------------------------------ operations

  // The index of the stream with this id, or the number of streams.
  function Find(streams: seq<Stream>, id: string): (i: nat)
    ensures i <= |streams| && (i < |streams| ==> streams[i].id == id)
    ensures forall k :: 0 <= k < i ==> streams[k].id != id
  {
    if streams == [] || streams[0].id == id then 0 else 1 + Find(streams[1..], id)
  }

  function WithStream(c: Collection, id: Option<string>, format: Option<string>, units: Option<string>,
                      forwardTo: Option<string>): (Collection, Error)
  {
    var error := CheckStream(id, format, units, forwardTo);
    if error != NoError then (c, error)
    else if Find(c.streams, id.value) < |c.streams| then (c, InvalidStreamId)
    else
      var arguments := DpFormat.Parse(format.value).value;
      var stream := Stream(id.value, units, forwardTo, DpFormat.TypeOf(arguments), arguments, []);
      (c.(streams := [stream] + c.streams), NoError)
  }

  // The caller supplies what the format of the stream it names asks for.
  predicate Owed(c: Collection, id: Option<string>, values: seq<Value>) {
    ValidId(id) && Find(c.streams, id.value) < |c.streams| ==>
      Supplied(c.streams[Find(c.streams, id.value)].arguments, values)
  }

  function WithPoint(c: Collection, id: Option<string>, values: seq<Value>): (Collection, Error)
    requires Owed(c, id, values)
  {
    if !ValidId(id) || Find(c.streams, id.value) == |c.streams| then (c, InvalidStreamId)
    else
      var i := Find(c.streams, id.value);
      (Stored(c, i, Decoded(c.streams[i].arguments, values)), NoError)
  }

  function Stored(c: Collection, i: nat, point: Point): Collection
    requires i < |c.streams|
  {
    Collection(c.streams[i := c.streams[i].(points := [point] + c.streams[i].points)], Wrap(c.count + 1))
  }

  function Shortened(stream: Stream): Stream {
    if |stream.points| == 0 then stream else stream.(points := stream.points[1..])
  }

  function NonEmpty(streams: seq<Stream>): nat {
    if streams == [] then 0 else (if |streams[0].points| == 0 then 0 else 1) + NonEmpty(streams[1..])
  }

  function ShortenedAll(streams: seq<Stream>): (r: seq<Stream>)
    ensures |r| == |streams|
  {
    seq(|streams|, i requires 0 <= i < |streams| => Shortened(streams[i]))
  }

  function WithoutOlder(c: Collection): Collection {
    Collection(ShortenedAll(c.streams), Wrap(c.count - NonEmpty(c.streams)))
  }

  function Emptied(streams: seq<Stream>): (r: seq<Stream>)
    ensures |r| == |streams|
    ensures forall i :: 0 <= i < |streams| ==> r[i] == streams[i].(points := [])
  {
    seq(|streams|, i requires 0 <= i < |streams| => streams[i].(points := []))
  }

  function AfterSend(c: Collection, running: bool, started: bool, initiated: bool, response: Error, status: Error)
    : (Collection, Error)
  {
    if c.streams == [] then (c, InvalidArgument)
    else if !running then (c, NotRunning)
    else if !started then (c, TransportNotStarted)
    else if !initiated then (c, InitiateActionFailed)
    else if response != NoError then (c, response)
    else if status != NoError then (c, status)
    else (Collection(Emptied(c.streams), 0), NoError)
  }

  predicate Proper(c: Collection, operation: Operation) {
    operation.AddPoint? ==> Owed(c, operation.id, operation.values)
  }

  function Apply(c: Collection, operation: Operation): (Collection, Error)
    requires Proper(c, operation)
  {
    match operation
    case AddStream(id, format, units, forwardTo) => WithStream(c, id, format, units, forwardTo)
    case AddPoint(id, values) => WithPoint(c, id, values)
    case RemoveOlder => (WithoutOlder(c), NoError)
    case Send(running, started, initiated, response, status) =>
      AfterSend(c, running, started, initiated, response, status)
  }

  // ------------------------------------------------------------ runs

  function Total(streams: seq<Stream>): nat {
    if streams == [] then 0 else |streams[0].points| + Total(streams[1..])
  }

  predicate Distinct(streams: seq<Stream>) {
    forall i, j :: 0 <= i < j < |streams| ==> streams[i].id != streams[j].id
  }

  predicate FormatsOk(streams: seq<Stream>) {
    forall i :: 0 <= i < |streams| ==> DpFormat.ValidArguments(streams[i].arguments)
  }

  // The cached count is the number of points, in 32 bits.
  predicate Inv(c: Collection) {
    Distinct(c.streams) && FormatsOk(c.streams) && c.count == Wrap(Total(c.streams))
  }

  lemma {:induction false} TotalAdd(streams: seq<Stream>, i: nat, stream: Stream)
    requires i < |streams|
    ensures Total(streams[i := stream]) + |streams[i].points| == Total(streams) + |stream.points|
  {
    if 0 < i {
      TotalAdd(streams[1..], i - 1, stream);
      assert streams[i := stream][1..] == streams[1..][i - 1 := stream];
    } else {
      assert streams[0 := stream][1..] == streams[1..];
    }
  }

  lemma {:induction false} TotalShortened(streams: seq<Stream>)
    ensures Total(ShortenedAll(streams)) + NonEmpty(streams) == Total(streams)
  {
    if streams == [] {
    } else {
      TotalShortened(streams[1..]);
      assert ShortenedAll(streams)[1..] == ShortenedAll(streams[1..]);
    }
  }

  lemma {:induction false} TotalEmptied(streams: seq<Stream>)
    ensures Total(Emptied(streams)) == 0
  {
    if streams == [] {
    } else {
      TotalEmptied(streams[1..]);
      assert Emptied(streams)[1..] == Emptied(streams[1..]);
    }
  }

  lemma Wrapped(count: int, change: int)
    ensures Wrap(Wrap(count) + change) == Wrap(count + change)
  {
  }

  lemma StreamKeepsInv(c: Collection, id: Option<string>, format: Option<string>, units: Option<string>,
                       forwardTo: Option<string>)
    requires Inv(c)
    ensures Inv(WithStream(c, id, format, units, forwardTo).0)
  {
    var after := WithStream(c, id, format, units, forwardTo).0;
    if after != c {
      assert after.streams[1..] == c.streams;
    }
  }

  lemma PointKeepsInv(c: Collection, id: Option<string>, values: seq<Value>)
    requires Inv(c) && Owed(c, id, values)
    ensures Inv(WithPoint(c, id, values).0)
  {
    hide Decoded, DpFormat.ValidArguments;
    var after := WithPoint(c, id, values).0;
    if after != c {
      var i := Find(c.streams, id.value);
      TotalAdd(c.streams, i, after.streams[i]);
      Wrapped(Total(c.streams), 1);
    }
  }

  lemma OperationKeepsInv(c: Collection, operation: Operation)
    requires Inv(c) && Proper(c, operation)
    ensures Inv(Apply(c, operation).0)
  {
    match operation
    case AddStream(id, format, units, forwardTo) => StreamKeepsInv(c, id, format, units, forwardTo);
    case AddPoint(id, values) => PointKeepsInv(c, id, values);
    case RemoveOlder =>
      TotalShortened(c.streams);
      Wrapped(Total(c.streams), 0 - NonEmpty(c.streams));
    case Send(_, _, _, _, _) => TotalEmptied(c.streams);
  }

  // Every point added is of the format of its stream.
  predicate Follows(c: Collection, operations: seq<Operation>)
    decreases |operations|
  {
    operations == [] || (Proper(c, operations[0]) && Follows(Apply(c, operations[0]).0, operations[1..]))
  }

  function Run(c: Collection, operations: seq<Operation>): Collection
    requires Follows(c, operations)
    decreases |operations|
  {
    if operations == [] then c else Run(Apply(c, operations[0]).0, operations[1..])
  }

  // Over every run from an empty collection the ids are distinct and the count
  // is the number of points held (as long as that fits 32 bits).
  lemma CountIsExact(operations: seq<Operation>)
    requires Follows(Collection([], 0), operations)
    ensures var c := Run(Collection([], 0), operations);
            && Distinct(c.streams)
            && c.count == Wrap(Total(c.streams))
            && (Total(c.streams) < UINT32 ==> c.count == Total(c.streams))
  {
    RunKeepsInv(Collection([], 0), operations);
  }

  lemma {:induction false} RunKeepsInv(c: Collection, operations: seq<Operation>)
    requires Inv(c) && Follows(c, operations)
    ensures Inv(Run(c, operations))
    decreases |operations|
  {
    if operations == [] {
    } else {
      OperationKeepsInv(c, operations[0]);
      RunKeepsInv(Apply(c, operations[0]).0, operations[1..]);
    }
  }

  // The format spells some arguments.
  ghost predicate Spelled(format: string) {
    exists arguments :: DpFormat.Printed(format, arguments)
  }

  lemma SpelledIsParsed(format: string)
    ensures Spelled(format) <==> DpFormat.Parse(format).Some?
    ensures DpFormat.Parse(format).Some? ==>
              var arguments := DpFormat.Parse(format).value;
              DpFormat.Printed(format, arguments) && DpFormat.ValidArguments(arguments)
  {
    var parsed := DpFormat.Parse(format);
    if parsed.Some? {
      DpFormat.ParsesExactly(format, parsed.value);
    }
    forall arguments | DpFormat.Printed(format, arguments)
      ensures parsed.Some?
    {
      DpFormat.ParsesExactly(format, arguments);
    }
  }

  // When each error of an addition is reported; and a stream that is added comes in
  // front, with its id, its units, its forwarding, the arguments its format spells,
  // the data type among these, and no points.
  ghost predicate AddsExactly(c: Collection, id: Option<string>, format: Option<string>, units: Option<string>,
                              forwardTo: Option<string>, after: Collection, error: Error)
  {
    var named := ValidId(id);
    var formatted := named && format.Some? && ValidFormat(format);
    var forwarded := formatted && (forwardTo == None || ValidId(forwardTo));
    var measured := forwarded && units != Some([]);
    var parsed := measured && Spelled(format.value);
    var taken := named && Taken(c.streams, id.value);
    && (error == InvalidStreamId <==> !named || (parsed && taken))
    && (error == InvalidFormat <==> (named && !formatted) || (measured && !parsed))
    && (error == InvalidForwardTo <==> formatted && !forwarded)
    && (error == InvalidUnits <==> forwarded && !measured)
    && (error == NoError <==> parsed && !taken)
    && (error != NoError ==> after == c)
    && (error == NoError ==>
          && after.streams != [] && after.streams[1..] == c.streams && after.count == c.count
          && var stream := after.streams[0];
          && Some(stream.id) == id && stream.units == units && stream.forwardTo == forwardTo && stream.points == []
          && DpFormat.Printed(format.value, stream.arguments)
          && forall argument :: stream.kind == Some(argument) <==>
                                argument in stream.arguments && DpFormat.CategoryOf(argument) == DpFormat.Type)
  }

  lemma AdditionIsExact(c: Collection, id: Option<string>, format: Option<string>, units: Option<string>,
                        forwardTo: Option<string>)
    ensures var (after, error) := WithStream(c, id, format, units, forwardTo);
            AddsExactly(c, id, format, units, forwardTo, after, error)
  {
    var (after, error) := WithStream(c, id, format, units, forwardTo);
    hide ValidFormat, Spelled, DpFormat.Printed, DpFormat.Parse, DpFormat.TypeOf, DpFormat.ValidArguments, Taken;
    if id.Some? {
      TakenIsFound(c.streams, id.value);
    }
    if ValidFormat(format) {
      FormatIsThere(format);
      SpelledIsParsed(format.value);
    }
    if error == NoError {
      var arguments := after.streams[0].arguments;
      assert after.streams[1..] == c.streams;
      forall argument
        ensures DpFormat.TypeOf(arguments) == Some(argument) <==>
                argument in arguments && DpFormat.CategoryOf(argument) == DpFormat.Type
      {
        DpFormat.TypeIsExact(arguments, argument);
      }
    }
  }

  lemma FormatIsThere(format: Option<string>)
    requires ValidFormat(format)
    ensures format.Some?
  {
  }

  // Every format that spells valid arguments passes the first check too.
  lemma PrintedIsValidFormat(format: string, arguments: seq<DpFormat.Argument>)
    requires DpFormat.Printed(format, arguments)
    ensures ValidFormat(Some(format))
  {
    DpFormat.PrintIsPlain(arguments);
  }

  // So any valid arguments can be asked for; and a point added to the stream that was
  // made for them holds exactly the values given, each under its argument.
  lemma PointsAreOfTheFormat(c: Collection, id: string, arguments: seq<DpFormat.Argument>, values: seq<Value>)
    requires Inv(c) && ValidId(Some(id)) && Find(c.streams, id) == |c.streams|
    requires DpFormat.ValidArguments(arguments) && Supplied(arguments, values)
    ensures var format := Some(DpFormat.Print(arguments));
            var (added, error) := WithStream(c, Some(id), format, None, None);
            && error == NoError && Owed(added, Some(id), values)
            && var (after, error') := WithPoint(added, Some(id), values);
            && error' == NoError && after.streams != [] && |after.streams[0].points| == 1
            && after.streams[0].id == id && Holds(arguments, values, after.streams[0].points[0])
  {
    PrintedIsValidFormat(DpFormat.Print(arguments), arguments);
    DpFormat.ParsesExactly(DpFormat.Print(arguments), arguments);
    PointIsExact(arguments, values, Decoded(arguments, values));
    var added := WithStream(c, Some(id), Some(DpFormat.Print(arguments)), None, None).0;
    assert added.streams[0].id == id;
    hide ValidId, ValidFormat, Decoded, Holds, DpFormat.Print, DpFormat.Parse, DpFormat.ValidArguments;
  }

  // An accepted format need not name a data type, and then the stream has none.
  lemma TypelessStreamIsAccepted(c: Collection, id: string, arguments: seq<DpFormat.Argument>)
    requires ValidId(Some(id)) && Find(c.streams, id) == |c.streams| && DpFormat.ValidArguments(arguments)
    ensures var (after, error) := WithStream(c, Some(id), Some(DpFormat.Print(arguments)), None, None);
            && error == NoError && after.streams != []
            && (after.streams[0].kind == None <==> !DpFormat.Found(arguments, DpFormat.Type))
  {
    PrintedIsValidFormat(DpFormat.Print(arguments), arguments);
    DpFormat.ParsesExactly(DpFormat.Print(arguments), arguments);
    DpFormat.TypeIsExact(arguments, DpFormat.Int32);
    hide *;
    TypeOfAdded(c, id, arguments);
  }

  lemma TypeOfAdded(c: Collection, id: string, arguments: seq<DpFormat.Argument>)
    requires ValidId(Some(id)) && Find(c.streams, id) == |c.streams| && DpFormat.ValidArguments(arguments)
    requires ValidFormat(Some(DpFormat.Print(arguments)))
    requires DpFormat.Parse(DpFormat.Print(arguments)) == Some(arguments)
    ensures var (after, error) := WithStream(c, Some(id), Some(DpFormat.Print(arguments)), None, None);
            error == NoError && after.streams != [] && after.streams[0].kind == DpFormat.TypeOf(arguments)
  {
    hide ValidId, ValidFormat, DpFormat.Print, DpFormat.Parse, DpFormat.TypeOf;
  }

  // For one, a format that names only a location.
  lemma LocationHasNoType()
    ensures DpFormat.ValidArguments([DpFormat.Location]) && !DpFormat.Found([DpFormat.Location], DpFormat.Type)
  {
  }

  // When each error of a send is reported: in this order, the first that applies.
  lemma SendAnswersExactly(c: Collection, running: bool, started: bool, initiated: bool, response: Error, status: Error)
    ensures var error := AfterSend(c, running, started, initiated, response, status).1;
            var ready := c.streams != [] && running && started;
            && (c.streams == [] ==> error == InvalidArgument)
            && (c.streams != [] && !running ==> error == NotRunning)
            && (c.streams != [] && running && !started ==> error == TransportNotStarted)
            && (ready && !initiated ==> error == InitiateActionFailed)
            && (ready && initiated ==> error == if response != NoError then response else status)
  {
  }

  // A send fails and changes nothing, or succeeds and leaves every stream in
  // place and empty. It succeeds exactly when nothing was in its way.
  lemma SendIsAllOrNothing(c: Collection, running: bool, started: bool, initiated: bool, response: Error, status: Error)
    requires Inv(c)
    ensures var (after, error) := AfterSend(c, running, started, initiated, response, status);
            && (error != NoError ==> after == c)
            && (error == NoError ==>
                  && Total(after.streams) == 0 == after.count && |after.streams| == |c.streams|
                  && forall i :: 0 <= i < |c.streams| ==> after.streams[i] == c.streams[i].(points := []))
            && (error == NoError <==>
                c.streams != [] && running && started && initiated && response == NoError && status == NoError)
  {
    TotalEmptied(c.streams);
  }

  // Without such a stream it is refused.
  lemma PointIsRefusedExactly(c: Collection, id: Option<string>, values: seq<Value>)
    requires Owed(c, id, values)
    ensures var (after, error) := WithPoint(c, id, values);
            && (error == InvalidStreamId <==>
                !ValidId(id) || !Taken(c.streams, id.value))
            && (error != InvalidStreamId ==> error == NoError) && (error != NoError ==> after == c)
  {
    hide Decoded;
    if id.Some? {
      TakenIsFound(c.streams, id.value);
    }
  }

  predicate Taken(streams: seq<Stream>, id: string) {
    exists k :: 0 <= k < |streams| && streams[k].id == id
  }

  lemma TakenIsFound(streams: seq<Stream>, id: string)
    ensures Taken(streams, id) <==> Find(streams, id) < |streams|
  {
  }

  // Removing the older points takes from every stream that has one the point at its
  // front, which is the one added last.
  lemma RemovalTakesLastAdded(c: Collection, id: string, values: seq<Value>, k: nat)
    requires Inv(c) && ValidId(Some(id)) && Find(c.streams, id) < |c.streams| && Owed(c, Some(id), values)
    requires k < |c.streams|
    ensures var after := WithoutOlder(WithPoint(c, Some(id), values).0);
            && |after.streams| == |c.streams|
            && var was, now := c.streams[k], after.streams[k];
            if was.id == id then now == was
            else
              && now == was.(points := now.points)
              && (if was.points == [] then now.points == [] else was.points == [was.points[0]] + now.points)
  {
    hide ValidId, Decoded, DpFormat.ValidArguments;
  }

  // A point is added to the one stream with its id and to no other; it holds
  // exactly the values supplied for it, each under its argument.
  lemma PointGoesToItsStream(c: Collection, id: string, values: seq<Value>, k: nat)
    requires Inv(c) && k < |c.streams| && ValidId(Some(id)) && exists i :: 0 <= i < |c.streams| && c.streams[i].id == id
    requires Owed(c, Some(id), values)
    ensures var (after, error) := WithPoint(c, Some(id), values);
            && error == NoError
            && Total(after.streams) == Total(c.streams) + 1
            && |after.streams| == |c.streams|
            && var was, now := c.streams[k], after.streams[k];
            if was.id != id then now == was
            else
              && now.points != [] && now == was.(points := [now.points[0]] + was.points)
              && |was.arguments| <= |values| && Holds(was.arguments, values, now.points[0])
  {
    var i := Find(c.streams, id);
    var arguments := c.streams[i].arguments;
    TotalAdd(c.streams, i, WithPoint(c, Some(id), values).0.streams[i]);
    PointIsExact(arguments, values, Decoded(arguments, values));
    hide Decoded, Holds, DpFormat.ValidArguments;
  }

  // So what is left is the stream without its oldest point exactly if all of its points
  // are the same, as where it has only one.
  lemma OldestIsRemovedExactly(c: Collection, k: nat)
    requires k < |c.streams| && c.streams[k].points != []
    ensures var was, now := c.streams[k].points, WithoutOlder(c).streams[k].points;
            now == was[..|was| - 1] <==> forall i :: 0 <= i < |was| ==> was[i] == was[0]
  {
    var was, now := c.streams[k].points, WithoutOlder(c).streams[k].points;
    assert now == was[1..];
    if now == was[..|was| - 1] {
      forall i | 0 <= i < |was|
        ensures was[i] == was[0]
      {
        AllTheSame(was, i);
      }
    }
  }

  lemma {:induction false} AllTheSame(points: seq<Point>, i: nat)
    requires i < |points| && points[1..] == points[..|points| - 1]
    ensures points[i] == points[0]
  {
    if i == 0 {
    } else {
      AllTheSame(points, i - 1);
      assert points[1..][i - 1] == points[..|points| - 1][i - 1];
    }
  }

  // ------------------------------------------------------------ removing a stream

  // ccapi_dp_remove_data_stream_from_collection: where the first of the list goes,
  // the list's head becomes null.
  function WithoutStream(c: Collection, id: Option<string>): (Collection, Error) {
    if !ValidId(id) then (c, InvalidArgument)
    else
      var i := Find(c.streams, id.value);
      if i == |c.streams| then (c, InvalidStreamId)
      else
        var rest := if i == 0 then [] else c.streams[..i] + c.streams[i + 1..];
        (Collection(rest, Wrap(c.count - |c.streams[i].points|)), NoError)
  }

  lemma {:induction false} TotalWithout(streams: seq<Stream>, i: nat)
    requires i < |streams|
    ensures Total(streams) == Total(streams[..i] + streams[i + 1..]) + |streams[i].points|
  {
    if i == 0 {
      assert streams[..0] + streams[1..] == streams[1..];
    } else {
      TotalWithout(streams[1..], i - 1);
      assert (streams[..i] + streams[i + 1..])[1..] == streams[1..][..i - 1] + streams[1..][i..];
    }
  }

  // A stream is removed alone exactly if it is not the first of several; the count
  // is right afterwards exactly then, or if the streams lost with it held no points.
  lemma RemovalIsExact(c: Collection, id: string)
    requires Inv(c) && ValidId(Some(id)) && Find(c.streams, id) < |c.streams|
    ensures var i := Find(c.streams, id);
            var others := c.streams[..i] + c.streams[i + 1..];
            var (after, error) := WithoutStream(c, Some(id));
            && error == NoError
            && (after.streams == others <==> 0 < i || |c.streams| == 1)
            && (Inv(after) <==> 0 < i || Wrap(Total(others)) == 0)
  {
    var i := Find(c.streams, id);
    var others := c.streams[..i] + c.streams[i + 1..];
    TotalWithout(c.streams, i);
    Wrapped(Total(c.streams), 0 - |c.streams[i].points|);
    forall k | 0 <= k < |others|
      ensures others[k] == c.streams[if k < i then k else k + 1]
    {
    }
    hide DpFormat.ValidArguments;
  }

  // Removing the stream that was added last gives back the collection exactly if
  // that was empty; otherwise all of its streams are lost, and the count stays.
  lemma RemovalUndoesAddition(c: Collection, id: Option<string>, format: Option<string>, units: Option<string>,
                              forwardTo: Option<string>)
    requires Inv(c) && WithStream(c, id, format, units, forwardTo).1 == NoError
    ensures var (after, error) := WithoutStream(WithStream(c, id, format, units, forwardTo).0, id);
            && error == NoError && after == Collection([], c.count)
            && (after == c <==> c.streams == [])
  {
    var added := WithStream(c, id, format, units, forwardTo).0;
    assert added.streams[0].id == id.value;
    Wrapped(Total(c.streams), 0);
  }
}
