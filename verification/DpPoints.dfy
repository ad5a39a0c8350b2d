// Data points: what the variable arguments of an addition become, as the format
// of the stream names them.
module DpPoints {
  import opened Options
  import opened DpFormat

  // One variable argument. Texts are copied, so they are values here.
  datatype Value =
    | Whole(n: int)
    | Number(x: real)
    | Text(text: string)
    | Fraction(seconds: nat, milliseconds: nat)
    | Moment(instant: nat)
    | Position(latitude: real, longitude: real, elevation: real)

  datatype Element = NoElement | IntValue(n: int) | LongValue(n: int) | FloatValue(x: real) | DoubleValue(x: real)
                   | StringValue(text: string)

  datatype Time = Cloud | LocalFractional(seconds: nat, milliseconds: nat) | LocalWhole(instant: nat)
                | LocalIso8601(text: string)

  datatype Site = Ignored | Native(latitude: real, longitude: real, elevation: real)

  // connector_data_point_t
  datatype Point = Point(element: Element, time: Time, site: Site, quality: Option<int>)

  const BLANK := Point(NoElement, Cloud, Ignored, None)

  const INT32: int := 0x8000_0000
  const INT64: int := 0x8000_0000_0000_0000

  // What the caller owes for an argument of this kind.
  predicate Fits(argument: Argument, value: Value) {
    match argument
    case Int32 => value.Whole? && -INT32 <= value.n < INT32
    case Int64 => value.Whole? && -INT64 <= value.n < INT64
    case Float => value.Number?
    case Double => value.Number?
    case Epoch => value.Fraction?
    case EpochMs => value.Moment?
    case Location => value.Position?
    case Quality => value.Whole? && -INT32 <= value.n < INT32
    case Invalid => false
    case _ => value.Text?
  }

  predicate Supplied(arguments: seq<Argument>, values: seq<Value>) {
    |arguments| <= |values| && forall i :: 0 <= i < |arguments| ==> Fits(arguments[i], values[i])
  }

  // One turn of the loop over the stream's arguments.
  function Put(point: Point, argument: Argument, value: Value): Point
    requires Fits(argument, value)
  {
    match argument
    case Int32 => point.(element := IntValue(value.n))
    case Int64 => point.(element := LongValue(value.n))
    case Float => point.(element := FloatValue(value.x))
    case Double => point.(element := DoubleValue(value.x))
    case Epoch => point.(time := LocalFractional(value.seconds, value.milliseconds))
    case EpochMs => point.(time := LocalWhole(value.instant))
    case Iso8601 => point.(time := LocalIso8601(value.text))
    case Location => point.(site := Native(value.latitude, value.longitude, value.elevation))
    case Quality => point.(quality := Some(value.n))
    case _ => point.(element := StringValue(value.text))
  }

  function Decoded(arguments: seq<Argument>, values: seq<Value>): Point
    requires Supplied(arguments, values)
    decreases |arguments|
  {
    if arguments == [] then BLANK
    else
      var last := |arguments| - 1;
      Put(Decoded(arguments[..last], values), arguments[last], values[last])
  }

  // parse_argument_list_and_create_data_point
  method CreatePoint(arguments: seq<Argument>, values: seq<Value>) returns (point: Point)
    requires Supplied(arguments, values)
    ensures point == Decoded(arguments, values)
  {
    point := BLANK;
    var i := 0;
    while i < |arguments|
      invariant i <= |arguments|
      invariant point == Decoded(arguments[..i], values)
    {
      assert arguments[..i + 1][..i] == arguments[..i];
      var value := values[i];
      match arguments[i] {
        case Int32 => point := point.(element := IntValue(value.n));
        case Int64 => point := point.(element := LongValue(value.n));
        case Float => point := point.(element := FloatValue(value.x));
        case Double => point := point.(element := DoubleValue(value.x));
        case String => point := point.(element := StringValue(value.text));
        case Json => point := point.(element := StringValue(value.text));
        case GeoJson => point := point.(element := StringValue(value.text));
        case Epoch => point := point.(time := LocalFractional(value.seconds, value.milliseconds));
        case EpochMs => point := point.(time := LocalWhole(value.instant));
        case Iso8601 => point := point.(time := LocalIso8601(value.text));
        case Location => point := point.(site := Native(value.latitude, value.longitude, value.elevation));
        case Quality => point := point.(quality := Some(value.n));
      }
      i := i + 1;
    }
    assert arguments[..i] == arguments;
  }

  // ------------------------------------------------------------ what a point holds

  // The value of an argument, read back from a point.
  function Recall(point: Point, argument: Argument): Option<Value> {
    match argument
    case Int32 => if point.element.IntValue? then Some(Whole(point.element.n)) else None
    case Int64 => if point.element.LongValue? then Some(Whole(point.element.n)) else None
    case Float => if point.element.FloatValue? then Some(Number(point.element.x)) else None
    case Double => if point.element.DoubleValue? then Some(Number(point.element.x)) else None
    case Epoch =>
      if point.time.LocalFractional? then Some(Fraction(point.time.seconds, point.time.milliseconds)) else None
    case EpochMs => if point.time.LocalWhole? then Some(Moment(point.time.instant)) else None
    case Iso8601 => if point.time.LocalIso8601? then Some(Text(point.time.text)) else None
    case Location =>
      if point.site.Native? then Some(Position(point.site.latitude, point.site.longitude, point.site.elevation))
      else None
    case Quality => if point.quality.Some? then Some(Whole(point.quality.value)) else None
    case Invalid => None
    case _ => if point.element.StringValue? then Some(Text(point.element.text)) else None
  }

  // Two points agree in what a category covers.
  predicate Agree(p: Point, q: Point, category: Category) {
    match category
    case Type => p.element == q.element
    case Timestamp => p.time == q.time
    case Place => p.site == q.site
    case Rating => p.quality == q.quality
    case NoCategory => true
  }

  // The point holds every value, under its argument, and nothing else.
  ghost predicate Holds(arguments: seq<Argument>, values: seq<Value>, point: Point)
    requires |arguments| <= |values|
  {
    && (forall i :: 0 <= i < |arguments| ==> Recall(point, arguments[i]) == Some(values[i]))
    && forall c :: !Found(arguments, c) ==> Agree(point, BLANK, c)
  }

  lemma PutIs(point: Point, argument: Argument, value: Value)
    requires Fits(argument, value)
    ensures Recall(Put(point, argument, value), argument) == Some(value)
    ensures forall other :: CategoryOf(other) != CategoryOf(argument) ==>
                              Recall(Put(point, argument, value), other) == Recall(point, other)
    ensures forall c :: c != CategoryOf(argument) ==> Agree(Put(point, argument, value), point, c)
  {
  }

  lemma {:induction false} DecodedHolds(arguments: seq<Argument>, values: seq<Value>)
    requires Supplied(arguments, values)
    requires forall i, j :: 0 <= i < j < |arguments| ==> CategoryOf(arguments[i]) != CategoryOf(arguments[j])
    ensures Holds(arguments, values, Decoded(arguments, values))
    decreases |arguments|
  {
    if arguments == [] {
    } else {
      var last := |arguments| - 1;
      var rest := arguments[..last];
      DecodedHolds(rest, values);
      PutIs(Decoded(rest, values), arguments[last], values[last]);
      FoundNext(arguments);
      hide Put, Recall, Agree, Fits;
    }
  }

  // What is recalled of an argument settles what its category covers.
  lemma RecallSettles(p: Point, q: Point, argument: Argument)
    requires Recall(p, argument).Some? && Recall(p, argument) == Recall(q, argument)
    ensures Agree(p, q, CategoryOf(argument))
  {
  }

  // For the arguments of a stream: the point made from the values is the one that
  // holds all of them, each under its argument, and nothing else.
  lemma PointIsExact(arguments: seq<Argument>, values: seq<Value>, point: Point)
    requires ValidArguments(arguments) && Supplied(arguments, values)
    ensures point == Decoded(arguments, values) <==> Holds(arguments, values, point)
  {
    DecodedHolds(arguments, values);
    var made := Decoded(arguments, values);
    if Holds(arguments, values, point) {
      forall c: Category
        ensures Agree(point, made, c)
      {
        if Found(arguments, c) {
          var i :| 0 <= i < |arguments| && CategoryOf(arguments[i]) == c;
          RecallSettles(point, made, arguments[i]);
        } else {
          assert Agree(point, BLANK, c) && Agree(made, BLANK, c);
        }
      }
      assert Agree(point, made, Type) && Agree(point, made, Timestamp);
      assert Agree(point, made, Place) && Agree(point, made, Rating);
    }
  }
}
