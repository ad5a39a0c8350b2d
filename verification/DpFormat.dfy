// Data-stream format strings: up to four keywords separated by single spaces.
// The parser cuts a private copy of the string in place; it is proved against a
// parser on values, and that one against a printer.
module DpFormat {
  import opened CStrings
  import opened Options

  datatype Argument =
    | Int32 | Int64 | Float | Double | String | Json | GeoJson
    | Epoch | EpochMs | Iso8601
    | Location | Quality
    | Invalid

  datatype Category = Type | Timestamp | Place | Rating | NoCategory

  const KEYS: seq<(string, Argument)> := [
    ("int32", Int32), ("int64", Int64), ("float", Float), ("double", Double),
    ("string", String), ("json", Json), ("geojson", GeoJson),
    ("ts_epoch", Epoch), ("ts_epoch_ms", EpochMs), ("ts_iso", Iso8601),
    ("loc", Location), ("qual", Quality)
  ]

  const MAX_ARGUMENTS := 4

  function CategoryOf(argument: Argument): Category {
    match argument
    case Epoch => Timestamp
    case EpochMs => Timestamp
    case Iso8601 => Timestamp
    case Location => Place
    case Quality => Rating
    case Invalid => NoCategory
    case _ => Type
  }

  // The argument of the first key that equals the keyword.
  function ArgumentFrom(keyword: string, i: nat): Argument
    requires i <= |KEYS|
    decreases |KEYS| - i
  {
    if i == |KEYS| then Invalid
    else if keyword == KEYS[i].0 then KEYS[i].1
    else ArgumentFrom(keyword, i + 1)
  }

  function ArgumentOf(keyword: string): Argument {
    ArgumentFrom(keyword, 0)
  }

  // One to four arguments, all known, no two of the same category.
  predicate ValidArguments(arguments: seq<Argument>) {
    && 1 <= |arguments| <= MAX_ARGUMENTS
    && (forall i :: 0 <= i < |arguments| ==> arguments[i] != Invalid)
    && forall i, j :: 0 <= i < j < |arguments| ==> CategoryOf(arguments[i]) != CategoryOf(arguments[j])
  }

  // ------------------------------------------------------------ on values

  // Where the first space is, or the length.
  function FirstSpace(s: string): (i: nat)
    ensures i <= |s| && (i < |s| ==> s[i] == ' ')
    ensures forall k :: 0 <= k < i ==> s[k] != ' '
  {
    if s == [] || s[0] == ' ' then 0 else 1 + FirstSpace(s[1..])
  }

  function Tokens(s: string): seq<string>
    decreases |s|
  {
    if s == [] then []
    else
      var i := FirstSpace(s);
      [s[..i]] + if i == |s| then [] else Tokens(s[i + 1..])
  }

  function Arguments(tokens: seq<string>): (r: seq<Argument>)
    ensures |r| == |tokens| && forall i :: 0 <= i < |tokens| ==> r[i] == ArgumentOf(tokens[i])
  {
    seq(|tokens|, i requires 0 <= i < |tokens| => ArgumentOf(tokens[i]))
  }

  function Parse(s: string): Option<seq<Argument>> {
    var arguments := Arguments(Tokens(s));
    if ValidArguments(arguments) then Some(arguments) else None
  }

  function Key(argument: Argument): string
    requires argument != Invalid
  {
    match argument
    case Int32 => "int32"
    case Int64 => "int64"
    case Float => "float"
    case Double => "double"
    case String => "string"
    case Json => "json"
    case GeoJson => "geojson"
    case Epoch => "ts_epoch"
    case EpochMs => "ts_epoch_ms"
    case Iso8601 => "ts_iso"
    case Location => "loc"
    case Quality => "qual"
  }

  function Join(tokens: seq<string>): string {
    if tokens == [] then []
    else if |tokens| == 1 then tokens[0]
    else tokens[0] + " " + Join(tokens[1..])
  }

  function Keys(arguments: seq<Argument>): (r: seq<string>)
    requires forall i :: 0 <= i < |arguments| ==> arguments[i] != Invalid
    ensures |r| == |arguments| && forall i :: 0 <= i < |arguments| ==> r[i] == Key(arguments[i])
  {
    seq(|arguments|, i requires 0 <= i < |arguments| => Key(arguments[i]))
  }

  function Print(arguments: seq<Argument>): string
    requires forall i :: 0 <= i < |arguments| ==> arguments[i] != Invalid
  {
    Join(Keys(arguments))
  }

  // ------------------------------------------------------------ keys

  predicate NoSpace(s: string) {
    forall i :: 0 <= i < |s| ==> s[i] != ' '
  }

  lemma KeyIsToken(argument: Argument)
    requires argument != Invalid
    ensures NoSpace(Key(argument)) && Key(argument) != []
  {
  }

  // Looking a keyword up and printing an argument undo each other.
  lemma KeyRoundTrip(argument: Argument, keyword: string)
    ensures argument != Invalid ==> ArgumentOf(Key(argument)) == argument
    ensures ArgumentOf(keyword) != Invalid ==> Key(ArgumentOf(keyword)) == keyword
  {
  }

  // ------------------------------------------------------------ tokens

  lemma SpaceAfter(token: string, rest: string)
    requires NoSpace(token)
    ensures FirstSpace(token + " " + rest) == |token| && FirstSpace(token) == |token|
    ensures (token + " " + rest)[..|token|] == token && (token + " " + rest)[|token| + 1..] == rest
  {
    assert (token + " " + rest)[|token|] == ' ';
    var s := token + " " + rest;
    assert forall k :: 0 <= k < |token| ==> s[k] == token[k];
  }

  // Splitting undoes joining, with or without one space at the end.
  lemma {:induction false} TokensOfJoin(tokens: seq<string>)
    requires tokens != [] && forall i :: 0 <= i < |tokens| ==> NoSpace(tokens[i]) && tokens[i] != []
    ensures Tokens(Join(tokens)) == tokens
    ensures Tokens(Join(tokens) + " ") == tokens
  {
    var token := tokens[0];
    SpaceAfter(token, []);
    assert token + " " + [] == token + " ";
    if |tokens| == 1 {
      assert token[..|token|] == token;
    } else {
      var rest := Join(tokens[1..]);
      TokensOfJoin(tokens[1..]);
      SpaceAfter(token, rest);
      SpaceAfter(token, rest + " ");
      assert Join(tokens) + " " == token + " " + (rest + " ");
    }
  }

  // A string is its tokens joined, except for at most one space at the end.
  lemma {:induction false} JoinOfTokens(s: string)
    requires s != []
    ensures Tokens(s) != []
    ensures s == Join(Tokens(s)) || s == Join(Tokens(s)) + " "
    decreases |s|
  {
    var i := FirstSpace(s);
    if i < |s| {
      assert s == s[..i] + " " + s[i + 1..];
      if i + 1 < |s| {
        JoinOfTokens(s[i + 1..]);
        assert Tokens(s)[1..] == Tokens(s[i + 1..]);
      } else {
        assert Tokens(s) == [s[..i]];
        assert s[i + 1..] == [];
      }
    }
  }

  // ------------------------------------------------------------ round trips

  // Every valid list of arguments is what its printed form parses to, also when
  // a space follows it.
  lemma ParseInvertsPrint(arguments: seq<Argument>)
    requires ValidArguments(arguments)
    ensures Parse(Print(arguments)) == Some(arguments)
    ensures Parse(Print(arguments) + " ") == Some(arguments)
  {
    var keys := Keys(arguments);
    forall i | 0 <= i < |keys|
      ensures NoSpace(keys[i]) && keys[i] != [] && ArgumentOf(keys[i]) == arguments[i]
    {
      KeyIsToken(arguments[i]);
      KeyRoundTrip(arguments[i], []);
    }
    TokensOfJoin(keys);
    assert Arguments(keys) == arguments;
  }

  // And nothing else parses to them.
  lemma PrintInvertsParse(s: string)
    requires Parse(s).Some?
    ensures ValidArguments(Parse(s).value)
    ensures s == Print(Parse(s).value) || s == Print(Parse(s).value) + " "
  {
    var tokens, arguments := Tokens(s), Parse(s).value;
    JoinOfTokens(s);
    forall i | 0 <= i < |tokens|
      ensures Keys(arguments)[i] == tokens[i]
    {
      KeyRoundTrip(Invalid, tokens[i]);
    }
    assert Keys(arguments) == tokens;
  }

  ghost predicate Printed(s: string, arguments: seq<Argument>) {
    ValidArguments(arguments) && (s == Print(arguments) || s == Print(arguments) + " ")
  }

  // So a format is accepted exactly when it is one to four known keywords joined
  // by single spaces, with at most one space after them and no category twice.
  lemma ParsesExactly(s: string, arguments: seq<Argument>)
    ensures Parse(s) == Some(arguments) <==> Printed(s, arguments)
  {
    if Printed(s, arguments) {
      ParseInvertsPrint(arguments);
    }
    if Parse(s).Some? {
      PrintInvertsParse(s);
    }
  }

  // ------------------------------------------------------------ data types

  // The first argument that is a data type.
  function TypeOf(arguments: seq<Argument>): Option<Argument> {
    if arguments == [] then None
    else if CategoryOf(arguments[0]) == Type then Some(arguments[0])
    else TypeOf(arguments[1..])
  }

  // A stream has the data type its format names; it has none exactly if the format
  // names none.
  lemma {:induction false} TypeIsExact(arguments: seq<Argument>, argument: Argument)
    requires ValidArguments(arguments) || arguments == []
    ensures TypeOf(arguments) == Some(argument) <==> argument in arguments && CategoryOf(argument) == Type
    ensures TypeOf(arguments) == None <==> !Found(arguments, Type)
  {
    TypeIsFound(arguments);
    if argument in arguments && CategoryOf(argument) == Type {
      var i :| 0 <= i < |arguments| && arguments[i] == argument;
      assert Found(arguments, Type);
    }
  }

  lemma {:induction false} TypeIsFound(arguments: seq<Argument>)
    ensures TypeOf(arguments) == None ==> !Found(arguments, Type)
    ensures TypeOf(arguments).Some? ==>
              TypeOf(arguments).value in arguments && CategoryOf(TypeOf(arguments).value) == Type
  {
    if arguments == [] {
    } else {
      TypeIsFound(arguments[1..]);
      forall k | 0 <= k < |arguments| && CategoryOf(arguments[k]) == Type
        ensures TypeOf(arguments).Some?
      {
        assert 0 < k ==> arguments[1..][k - 1] == arguments[k];
      }
    }
  }

  // A printed format passes the checks that come before the parser.
  predicate Plain(s: string) {
    forall i :: 0 <= i < |s| ==> 'a' <= s[i] <= 'z' || '0' <= s[i] <= '9' || s[i] == '_' || s[i] == ' '
  }

  lemma {:induction false} JoinIsPlain(tokens: seq<string>)
    requires forall i :: 0 <= i < |tokens| ==> Plain(tokens[i])
    ensures Plain(Join(tokens))
  {
    if |tokens| <= 1 {
    } else {
      JoinIsPlain(tokens[1..]);
    }
  }

  lemma PrintIsPlain(arguments: seq<Argument>)
    requires ValidArguments(arguments)
    ensures Plain(Print(arguments)) && Print(arguments) != [] && Print(arguments)[0] != ' '
  {
    var keys := Keys(arguments);
    forall i | 0 <= i < |keys|
      ensures Plain(keys[i])
    {
      KeyIsPlain(arguments[i]);
    }
    KeyIsToken(arguments[0]);
    JoinIsPlain(keys);
    assert Print(arguments)[0] == keys[0][0];
  }

  lemma KeyIsPlain(argument: Argument)
    requires argument != Invalid
    ensures Plain(Key(argument))
  {
  }

  // ------------------------------------------------------------ the program

  // get_data_stream_type_from_arg_list
  method GetType(list: seq<Argument>) returns (found: Option<Argument>)
    ensures found == TypeOf(list)
  {
    found := None;
    var i := 0;
    while i < |list| && found == None
      invariant i <= |list|
      invariant TypeOf(list) == if found == None then TypeOf(list[i..]) else found
    {
      assert list[i..][1..] == list[i + 1..];
      if CategoryOf(list[i]) == Type {
        found := Some(list[i]);
      }
      i := i + 1;
    }
  }

  // valid_arg_list
  method ValidArgumentList(list: array<Argument>, count: nat) returns (valid: bool)
    requires count <= list.Length
    ensures valid <==> ValidArguments(list[..count])
  {
    var typeFound, timestampFound, locationFound, qualityFound := false, false, false, false;
    if count < 1 || 4 < count {
      return false;
    }
    var i := 0;
    while i < count
      invariant i <= count
      invariant forall k :: 0 <= k < i ==> list[k] != Invalid
      invariant forall j, k :: 0 <= j < k < i ==> CategoryOf(list[j]) != CategoryOf(list[k])
      invariant typeFound <==> Found(list[..i], Type)
      invariant timestampFound <==> Found(list[..i], Timestamp)
      invariant locationFound <==> Found(list[..i], Place)
      invariant qualityFound <==> Found(list[..i], Rating)
    {
      FoundNext(list[..i + 1]);
      assert list[..i + 1][..i] == list[..i] == list[..count][..i];
      var category := CategoryOf(list[i]);
      match category {
        case Type =>
          if typeFound { FoundClash(list[..count], i); return false; }
          typeFound := true;
        case Timestamp =>
          if timestampFound { FoundClash(list[..count], i); return false; }
          timestampFound := true;
        case Place =>
          if locationFound { FoundClash(list[..count], i); return false; }
          locationFound := true;
        case Rating =>
          if qualityFound { FoundClash(list[..count], i); return false; }
          qualityFound := true;
        case NoCategory =>
          assert list[..count][i] == Invalid;
          return false;
      }
      i := i + 1;
    }
    return true;
  }

  ghost predicate Found(list: seq<Argument>, category: Category) {
    exists k :: 0 <= k < |list| && CategoryOf(list[k]) == category
  }

  lemma FoundNext(list: seq<Argument>)
    requires list != []
    ensures forall c :: Found(list, c) <==> Found(list[..|list| - 1], c) || CategoryOf(list[|list| - 1]) == c
  {
    var front := list[..|list| - 1];
    forall c | Found(list, c)
      ensures Found(front, c) || CategoryOf(list[|list| - 1]) == c
    {
      var k :| 0 <= k < |list| && CategoryOf(list[k]) == c;
      if k < |front| {
        assert front[k] == list[k];
      }
    }
    forall c | Found(front, c)
      ensures Found(list, c)
    {
      var k :| 0 <= k < |front| && CategoryOf(front[k]) == c;
      assert list[k] == front[k];
    }
    assert CategoryOf(list[|list| - 1]) == CategoryOf(list[|list| - 1]);
  }

  lemma FoundClash(list: seq<Argument>, i: nat)
    requires i < |list| && Found(list[..i], CategoryOf(list[i]))
    ensures !ValidArguments(list)
  {
    var k :| 0 <= k < i && CategoryOf(list[..i][k]) == CategoryOf(list[i]);
    assert list[..i][k] == list[k];
  }

  // The buffer still holds what the string holds from `start` on.
  ghost predicate Unread(buffer: array<char>, s: string, start: nat)
    reads buffer
  {
    && buffer.Length == |s| + 1 && start <= |s|
    && buffer[|s|] == '\0'
    && forall k :: start <= k < |s| ==> buffer[k] == s[k]
  }

  // The buffer holds s[start..end] as a string of its own.
  ghost predicate Cut(buffer: array<char>, s: string, start: nat, end: nat)
    reads buffer
  {
    && start <= end <= |s| < buffer.Length
    && buffer[end] == '\0'
    && forall k :: start <= k < end ==> buffer[k] == s[k]
  }

  // get_next_keyword: the token at `start` is cut off by overwriting the space
  // behind it; `next` is where the following one starts.
  method GetNextKeyword(buffer: array<char>, start: nat, ghost s: string)
    returns (found: bool, next: nat, ghost end: nat)
    requires NoNul(s) && Unread(buffer, s, start)
    modifies buffer
    ensures found <==> start < |s|
    ensures !found ==> Tokens(s[start..]) == []
    ensures found ==>
              && start <= end <= |s| && start < next <= |s|
              && Cut(buffer, s, start, end) && Unread(buffer, s, next)
              && Tokens(s[start..]) == [s[start..end]] + Tokens(s[next..])
  {
    hide Tokens;
    next, end := start, start;
    NoTokens(s);
    if buffer[start] == '\0' {
      return false, next, end;
    }
    while buffer[next] != '\0' && buffer[next] != ' '
      invariant start <= next <= |s|
      invariant forall k :: start <= k < next ==> s[k] != ' '
      decreases |s| - next
    {
      next := next + 1;
    }
    end := next;
    TokenSplits(s, start, end);
    found := true;
    if buffer[next] == ' ' {
      buffer[next] := '\0';
      next := next + 1;
    }
  }

  lemma NoTokens(s: string)
    ensures Tokens(s[|s|..]) == []
  {
  }

  lemma TokenSplits(s: string, start: nat, end: nat)
    requires start < |s| && start <= end <= |s| && (end < |s| ==> s[end] == ' ')
    requires forall k :: start <= k < end ==> s[k] != ' '
    ensures Tokens(s[start..]) == [s[start..end]] + Tokens(s[if end < |s| then end + 1 else end..])
  {
    var rest := s[start..];
    FirstSpaceIs(rest, end - start);
    assert rest[..end - start] == s[start..end];
    if end < |s| {
      assert rest[end - start + 1..] == s[end + 1..];
    } else {
      assert s[end..] == [];
    }
  }

  lemma {:induction false} FirstSpaceIs(s: string, i: nat)
    requires i <= |s| && (i < |s| ==> s[i] == ' ')
    requires forall k :: 0 <= k < i ==> s[k] != ' '
    ensures FirstSpace(s) == i
  {
    var f := FirstSpace(s);
    assert !(f < i) && !(i < f);
  }

  // strcmp(buffer + start, key) == 0
  method Equal(buffer: array<char>, start: nat, ghost s: string, ghost end: nat, key: string) returns (same: bool)
    requires NoNul(s) && Cut(buffer, s, start, end) && NoNul(key)
    ensures same <==> s[start..end] == key
  {
    var i := 0;
    while i < |key| && buffer[start + i] == key[i]
      invariant i <= |key| && start + i <= end
      invariant forall k :: 0 <= k < i ==> s[start + k] == key[k]
    {
      i := i + 1;
    }
    same := i == |key| && buffer[start + i] == '\0';
    Compared(s[start..end], key, i);
  }

  // Two strings that agree up to `i` are equal exactly when both end there.
  lemma Compared(token: string, key: string, i: nat)
    requires i <= |key| && i <= |token|
    requires forall k :: 0 <= k < i ==> token[k] == key[k]
    requires i < |key| && i < |token| ==> token[i] != key[i]
    ensures token == key <==> i == |key| == |token|
  {
  }

  lemma KeysHaveNoNul(i: nat)
    requires i < |KEYS|
    ensures NoNul(KEYS[i].0)
  {
  }

  method LookUp(buffer: array<char>, start: nat, ghost s: string, ghost end: nat) returns (argument: Argument)
    requires NoNul(s) && Cut(buffer, s, start, end)
    ensures argument == ArgumentOf(s[start..end])
  {
    var i := 0;
    while i < |KEYS|
      invariant i <= |KEYS|
      invariant ArgumentOf(s[start..end]) == ArgumentFrom(s[start..end], i)
    {
      KeysHaveNoNul(i);
      var same := Equal(buffer, start, s, end, KEYS[i].0);
      if same {
        return KEYS[i].1;
      }
      i := i + 1;
    }
    return Invalid;
  }

  method Duplicate(format: string) returns (buffer: array<char>)
    ensures fresh(buffer) && Unread(buffer, format, 0)
  {
    buffer := new char[|format| + 1](i requires 0 <= i <= |format| => if i < |format| then format[i] else '\0');
  }

  lemma NextArgument(done: seq<Argument>, rest: seq<string>)
    requires rest != []
    ensures done + Arguments(rest) == done + [ArgumentOf(rest[0])] + Arguments(rest[1..])
  {
  }

  lemma NothingRead(rest: seq<string>)
    ensures [] + Arguments(rest) == Arguments(rest)
  {
  }

  lemma AllRead(read: seq<Argument>)
    ensures read + Arguments([]) == read
  {
  }

  lemma TooMany(done: seq<Argument>, rest: seq<string>)
    requires 3 < |done| && rest != []
    ensures !ValidArguments(done + Arguments(rest))
  {
  }

  // get_arg_list_from_format_string. The list it fills has four entries and no
  // more are ever written.
  method GetArgumentList(format: string) returns (result: Option<seq<Argument>>)
    requires NoNul(format)
    ensures result == Parse(format)
  {
    hide Tokens, Arguments, ArgumentOf, ValidArguments, Cut, Unread, KEYS;
    var buffer := Duplicate(format);
    var list := new Argument[MAX_ARGUMENTS](_ => Invalid);
    var count := 0;
    assert format[0..] == format;
    var found: bool, next: nat;
    ghost var end: nat;
    found, next, end := GetNextKeyword(buffer, 0, format);
    var start: nat := 0;
    ghost var read, rest := [], Tokens(format);
    NothingRead(rest);
    while found
      invariant count <= list.Length && list[..count] == read
      invariant found ==> start <= end <= |format| && next <= |format|
      invariant found ==> Cut(buffer, format, start, end) && Unread(buffer, format, next)
      invariant rest == if found then [format[start..end]] + Tokens(format[next..]) else []
      invariant Arguments(Tokens(format)) == read + Arguments(rest)
      decreases |rest|
    {
      if count > 3 {
        TooMany(read, rest);
        return None;
      }
      var argument := LookUp(buffer, start, format, end);
      NextArgument(read, rest);
      list[count] := argument;
      count := count + 1;
      assert list[..count] == read + [argument];
      read, rest := read + [argument], rest[1..];
      start := next;
      found, next, end := GetNextKeyword(buffer, next, format);
    }
    AllRead(read);
    var valid := ValidArgumentList(list, count);
    result := if valid then Some(list[..count]) else None;
  }
}
