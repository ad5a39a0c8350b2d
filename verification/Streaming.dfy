// Handing data out piece by piece into buffers whose sizes the caller chooses:
// the data of a send, and the reply to a received request.
module Streaming {
  import opened Bytes

  // ------------------------------------------------------------ streams

  datatype Piece<T> = Piece(items: seq<T>, more: bool)

  // What successive calls with buffers of these sizes hand out.
  function Stream<T>(source: seq<T>, sizes: seq<nat>): (pieces: seq<Piece<T>>)
    ensures |pieces| == |sizes|
  {
    if sizes == [] then []
    else
      var n := Min(sizes[0], |source|);
      [Piece(source[..n], n < |source|)] + Stream(source[n..], sizes[1..])
  }

  function Joined<T>(pieces: seq<Piece<T>>): seq<T> {
    if pieces == [] then [] else pieces[0].items + Joined(pieces[1..])
  }

  function Sum(sizes: seq<nat>): nat {
    if sizes == [] then 0 else sizes[0] + Sum(sizes[1..])
  }

  // Nothing is lost, repeated or reordered, whatever the sizes.
  lemma {:induction false} StreamIsSource<T>(source: seq<T>, sizes: seq<nat>)
    ensures Joined(Stream(source, sizes)) == source[..Min(Sum(sizes), |source|)]
    decreases |sizes|
  {
    if sizes == [] {
    } else {
      var n := Min(sizes[0], |source|);
      StreamIsSource(source[n..], sizes[1..]);
      assert source == source[..n] + source[n..];
    }
  }

  // `more` is true exactly while something remains.
  lemma {:induction false} MoreIsExact<T>(source: seq<T>, sizes: seq<nat>, k: nat)
    requires k < |sizes|
    ensures Stream(source, sizes)[k].more <==> Sum(sizes[..k + 1]) < |source|
    decreases |sizes|
  {
    var n := Min(sizes[0], |source|);
    assert sizes[..k + 1] == [sizes[0]] + sizes[1..][..k];
    if k == 0 {
    } else {
      MoreIsExact(source[n..], sizes[1..], k - 1);
    }
  }

  lemma {:induction false} PositiveSum(sizes: seq<nat>)
    requires forall k :: 0 <= k < |sizes| ==> 0 < sizes[k]
    ensures |sizes| <= Sum(sizes)
  {
    if sizes == [] {
    } else {
      PositiveSum(sizes[1..]);
    }
  }

  // With room in every buffer the stream ends, after at most one call per item.
  lemma StreamEnds<T>(source: seq<T>, sizes: seq<nat>)
    requires forall k :: 0 <= k < |sizes| ==> 0 < sizes[k]
    requires |source| <= |sizes| && sizes != []
    ensures Joined(Stream(source, sizes)) == source
    ensures !Stream(source, sizes)[|sizes| - 1].more
  {
    PositiveSum(sizes);
    StreamIsSource(source, sizes);
    MoreIsExact(source, sizes, |sizes| - 1);
    assert sizes[..|sizes|] == sizes;
  }

  // ------------------------------------------------------------ sends

  // ccapi_svc_send_t, as far as data held in memory is concerned.
  class SendState {
    const data: array<Byte>
    var next: nat
    var remaining: nat

    ghost predicate Valid()
      reads this
    {
      next + remaining == data.Length
    }

    // What is still to be sent.
    ghost function Rest(): seq<Byte>
      reads this, data
      requires Valid()
    {
      data[next..]
    }

    // setup_send_data
    constructor (bytes: array<Byte>)
      ensures Valid() && data == bytes && Rest() == bytes[..]
    {
      data, next, remaining := bytes, 0, bytes.Length;
    }

    // ccapi_process_send_data_request: fills the caller's buffer.
    method ProcessRequest(buffer: array<Byte>) returns (used: nat, more: bool)
      requires Valid() && buffer != data
      modifies this, buffer
      ensures Valid() && used <= buffer.Length
      ensures [Piece(buffer[..used], more)] == Stream(old(Rest()), [buffer.Length])
      ensures used <= |old(Rest())| && Rest() == old(Rest())[used..] && remaining == |Rest()|
      ensures buffer[used..] == old(buffer[..])[used..]
    {
      used := Min(buffer.Length, remaining);
      var i := 0;
      while i < used
        invariant i <= used && next == old(next) && remaining == old(remaining)
        invariant forall k :: 0 <= k < i ==> buffer[k] == data[next + k]
        invariant forall k :: i <= k < buffer.Length ==> buffer[k] == old(buffer[k])
      {
        buffer[i] := data[next + i];
        i := i + 1;
      }
      assert buffer[..used] == old(Rest())[..used];
      next := next + used;
      remaining := remaining - used;
      more := remaining > 0;
    }

    // ccapi_process_send_data_length
    method Length() returns (total: nat)
      requires Valid()
      ensures total == |Rest()|
    {
      total := remaining;
    }
  }

  // ------------------------------------------------------------ replies

  datatype Error =
    | NoError | NotRunning | NoReceiveSupport | InsufficientMemory | InvalidTarget | TargetNotAdded | TargetAlreadyAdded
    | InvalidDataCallback | LockFailed | UserRefusedTarget | RequestTooBig | StatusCancel | StatusTimeout
    | StatusSessionError | Custom

  function Code(error: Error): (r: nat)
    ensures r < 15
  {
    match error
    case NoError => 0
    case NotRunning => 1
    case NoReceiveSupport => 2
    case InsufficientMemory => 3
    case InvalidTarget => 4
    case TargetNotAdded => 5
    case TargetAlreadyAdded => 6
    case InvalidDataCallback => 7
    case LockFailed => 8
    case UserRefusedTarget => 9
    case RequestTooBig => 10
    case StatusCancel => 11
    case StatusTimeout => 12
    case StatusSessionError => 13
    case Custom => 14
  }

  // What the text of an internal error calls it.
  function Name(error: Error): string {
    match error
    case NotRunning => "CCAPI_RECEIVE_ERROR_CCAPI_NOT_RUNNING"
    case NoReceiveSupport => "CCAPI_RECEIVE_ERROR_NO_RECEIVE_SUPPORT"
    case InsufficientMemory => "CCAPI_RECEIVE_ERROR_INSUFFICIENT_MEMORY"
    case InvalidDataCallback => "CCAPI_RECEIVE_ERROR_INVALID_DATA_CB"
    case UserRefusedTarget => "CCAPI_RECEIVE_ERROR_USER_REFUSED_TARGET"
    case RequestTooBig => "CCAPI_RECEIVE_ERROR_REQUEST_TOO_BIG"
    case _ => "Unexpected error"
  }

  const TEMPLATE: string := "CCAPI Error %d (%s) while handling target '%s'"

  function Decimal(n: nat): (r: string)
    ensures n < 10 ==> |r| == 1
    ensures n < 100 ==> |r| <= 2
  {
    (if n < 10 then [] else Decimal(n / 10)) + [Digit(n % 10)]
  }

  // The template with its three conversions filled in.
  function InternalError(error: Error, target: string): string {
    "CCAPI Error " + Decimal(Code(error)) + " (" + Name(error) + ") while handling target '" + target + "'"
  }

  // What sprintf makes of a template whose conversions are all two characters long.
  function Filled(template: string, arguments: seq<string>): string {
    if template == [] then []
    else if template[0] == '%' && 1 < |template| && arguments != [] then
      arguments[0] + Filled(template[2..], arguments[1..])
    else [template[0]] + Filled(template[1..], arguments)
  }

  lemma {:induction false} FilledText(text: string, rest: string, arguments: seq<string>)
    requires '%' !in text
    ensures Filled(text + rest, arguments) == text + Filled(rest, arguments)
  {
    if text == [] {
      assert text + rest == rest;
    } else {
      assert (text + rest)[1..] == text[1..] + rest;
      FilledText(text[1..], rest, arguments);
    }
  }

  lemma FilledConversion(letter: char, rest: string, arguments: seq<string>)
    requires arguments != []
    ensures Filled(['%', letter] + rest, arguments) == arguments[0] + Filled(rest, arguments[1..])
  {
    assert (['%', letter] + rest)[2..] == rest;
  }

  lemma FilledOnce(text: string, letter: char, rest: string, arguments: seq<string>)
    requires '%' !in text && arguments != []
    ensures Filled(text + (['%', letter] + rest), arguments) == text + (arguments[0] + Filled(rest, arguments[1..]))
  {
    FilledText(text, ['%', letter] + rest, arguments);
    FilledConversion(letter, rest, arguments);
  }

  lemma FilledNever(text: string)
    requires '%' !in text
    ensures Filled(text, []) == text
  {
    FilledText(text, [], []);
    assert text + [] == text;
  }

  lemma FilledThrice(a: string, b: string, c: string, d: string, x: string, y: string, z: string)
    requires '%' !in a && '%' !in b && '%' !in c && '%' !in d
    ensures Filled(a + (['%', 'd'] + (b + (['%', 's'] + (c + (['%', 's'] + d))))), [x, y, z])
         == a + (x + (b + (y + (c + (z + d)))))
  {
    hide Filled;
    FilledOnce(a, 'd', b + (['%', 's'] + (c + (['%', 's'] + d))), [x, y, z]);
    FilledOnce(b, 's', c + (['%', 's'] + d), [y, z]);
    FilledOnce(c, 's', d, [z]);
    FilledNever(d);
    assert [x, y, z][1..] == [y, z] && [y, z][1..] == [z] && [z][1..] == [];
  }

  const BEFORE_NUMBER := "CCAPI Error "
  const BEFORE_NAME := " ("
  const BEFORE_TARGET := ") while handling target '"
  const BEHIND_TARGET := "'"

  lemma TemplateParts()
    ensures TEMPLATE ==
            BEFORE_NUMBER + (['%', 'd'] + (BEFORE_NAME + (['%', 's'] + (BEFORE_TARGET + (['%', 's'] + BEHIND_TARGET)))))
  {
  }

  lemma TextParts(error: Error, target: string)
    ensures InternalError(error, target) ==
            BEFORE_NUMBER
            + (Decimal(Code(error)) + (BEFORE_NAME + (Name(error) + (BEFORE_TARGET + (target + BEHIND_TARGET)))))
  {
    hide Code, Name, Decimal;
  }

  // The text is the template, filled in with the error's number and name and the
  // target.
  lemma InternalErrorFillsTemplate(error: Error, target: string)
    ensures InternalError(error, target) == Filled(TEMPLATE, [Decimal(Code(error)), Name(error), target])
  {
    hide Code, Name, Decimal, Filled, InternalError, TEMPLATE;
    TemplateParts();
    TextParts(error, target);
    FilledThrice(BEFORE_NUMBER, BEFORE_NAME, BEFORE_TARGET, BEHIND_TARGET,
                 Decimal(Code(error)), Name(error), target);
  }

  predicate AllDigits(digits: string) {
    forall i :: 0 <= i < |digits| ==> '0' <= digits[i] <= '9'
  }

  // The number a decimal spells.
  function Spelled(digits: string): nat
    requires AllDigits(digits)
  {
    if digits == [] then 0
    else 10 * Spelled(digits[..|digits| - 1]) + (digits[|digits| - 1] - '0') as nat
  }

  function Digit(n: nat): char
    requires n < 10
  {
    '0' + n as char
  }

  lemma SpelledNext(digits: string, n: nat)
    requires AllDigits(digits) && n < 10
    ensures AllDigits(digits + [Digit(n)]) && Spelled(digits + [Digit(n)]) == 10 * Spelled(digits) + n
  {
    assert (digits + [Digit(n)])[..|digits|] == digits;
  }

  lemma DecimalNext(n: nat)
    requires 10 <= n
    ensures Decimal(n) == Decimal(n / 10) + [Digit(n % 10)]
  {
  }

  lemma DecimalFirst(n: nat)
    requires n < 10
    ensures Decimal(n) == [] + [Digit(n)] && (Digit(n) == '0' ==> n == 0)
  {
  }

  // A decimal spells its number, without leading zeros.
  lemma {:induction false} DecimalSpells(n: nat)
    ensures Decimal(n) != [] && AllDigits(Decimal(n)) && Spelled(Decimal(n)) == n
    ensures Decimal(n)[0] == '0' ==> n == 0
  {
    hide Decimal, Spelled, Digit, AllDigits;
    if n < 10 {
      DecimalFirst(n);
      SpelledNothing();
      SpelledNext([], n);
    } else {
      DecimalNext(n);
      DecimalSpells(n / 10);
      SpelledNext(Decimal(n / 10), n % 10);
    }
  }

  lemma SpelledNothing()
    ensures AllDigits([]) && Spelled([]) == 0
  {
  }

  // What stands behind the number in the text.
  function Behind(error: Error, target: string): (r: string)
    ensures r != [] && r[0] == ' '
  {
    " (" + Name(error) + ") while handling target '" + target + "'"
  }

  lemma InternalErrorParts(error: Error, target: string)
    ensures InternalError(error, target) == "CCAPI Error " + Decimal(Code(error)) + Behind(error, target)
  {
    hide Code, Name, Decimal;
  }

  // The text tells which error it is, and for which target.
  lemma InternalErrorTells(error: Error, target: string, other: Error, target': string)
    requires InternalError(error, target) == InternalError(other, target')
    ensures error == other && target == target'
  {
    hide InternalError, Code, Decimal, Spelled, AllDigits, Behind;
    InternalErrorParts(error, target);
    InternalErrorParts(other, target');
    var n, m := Decimal(Code(error)), Decimal(Code(other));
    DecimalSpells(Code(error));
    DecimalSpells(Code(other));
    SameDigits("CCAPI Error ", n, m, Behind(error, target), Behind(other, target'));
    CodeTells(error, other);
    TargetTells(error, target, target');
  }

  lemma CodeTells(error: Error, other: Error)
    requires Code(error) == Code(other)
    ensures error == other
  {
  }

  lemma TargetTells(error: Error, target: string, target': string)
    requires Behind(error, target) == Behind(error, target')
    ensures target == target'
  {
    hide Name;
    var before := " (" + Name(error) + ") while handling target '";
    var text := Behind(error, target);
    assert text == before + target + "'" == before + target' + "'";
    assert target == text[|before|..|text| - 1] == target';
  }

  // The digits behind a common prefix end at the first space.
  lemma SameDigits(prefix: string, n: string, m: string, rest: string, rest': string)
    requires AllDigits(n) && AllDigits(m) && rest != [] && rest' != [] && rest[0] == rest'[0] == ' '
    requires prefix + n + rest == prefix + m + rest'
    ensures n == m && rest == rest'
  {
    var k, text := |prefix|, prefix + n + rest;
    DigitsHoldNoSpace(prefix, n, rest);
    DigitsHoldNoSpace(prefix, m, rest');
    assert |n| == |m|;
    assert n == text[k..k + |n|] == m;
    assert rest == text[k + |n|..] == rest';
  }

  lemma DigitsHoldNoSpace(prefix: string, n: string, rest: string)
    requires AllDigits(n) && rest != [] && rest[0] == ' '
    ensures var text := prefix + n + rest;
            && text[|prefix| + |n|] == ' '
            && forall i :: |prefix| <= i < |prefix| + |n| ==> text[i] != ' '
  {
    var text := prefix + n + rest;
    forall i | |prefix| <= i < |prefix| + |n|
      ensures text[i] != ' '
    {
      assert text[i] == n[i - |prefix|];
    }
  }

  // The errors that have a name of their own in the text have each a different one.
  lemma NamesDiffer(error: Error, other: Error)
    requires error != other && Name(error) == Name(other)
    ensures Name(error) == "Unexpected error"
  {
  }

  // The size fill_internal_error allocates for the text.
  function Allocated(error: Error, target: string): nat {
    |Name(error)| + |TEMPLATE| + 1 + |target|
  }

  // The text and its terminator fit what was allocated, for every error and target.
  lemma InternalErrorFits(error: Error, target: string)
    ensures 0 < |InternalError(error, target)| < Allocated(error, target)
  {
    hide Name, Code, Decimal;
  }

  // The reply part of a receive session.
  datatype Reply = Reply(
    required: bool,
    target: string,
    error: Error,
    handled: bool,          // the internal error text has been generated
    response: string,       // the user's response, or that text
    processing: string,     // what of it is still to be sent
    // history
    given: string,          // what the user gave
    sent: string)

  // Where a reply comes from: the user's response, or else the error's text.
  function Source(r: Reply): string {
    if r.given != [] then r.given
    else if r.error != NoError then InternalError(r.error, r.target)
    else []
  }

  predicate NeedsText(r: Reply) {
    r.error != NoError && !r.handled && r.response == []
  }

  function Prepared(r: Reply): Reply {
    if NeedsText(r) then
      var text := InternalError(r.error, r.target);
      r.(handled := true, response := text, processing := text)
    else r
  }

  // One call for reply data with a buffer of `size` bytes.
  function ReplyCall(r: Reply, size: nat): Reply {
    if !r.required then r
    else
      var p := Prepared(r);
      var n := Min(size, |p.processing|);
      p.(processing := p.processing[n..], sent := p.sent + p.processing[..n])
  }

  function ReplyPiece(r: Reply, size: nat): Piece<char> {
    var p := Prepared(r);
    var n := Min(size, |p.processing|);
    Piece(p.processing[..n], n < |p.processing|)
  }

  // A reply about to be asked for: the user's response, if a callback gave one,
  // has been put aside for sending.
  predicate Unsent(r: Reply) {
    r.required && r.sent == [] && !r.handled && r.response == r.given == r.processing
  }

  predicate Sending(r: Reply) {
    && r.required
    && r.sent + r.processing == Source(r)
    && !NeedsText(r)
  }

  // The text, if one is needed, is made by the first call.
  lemma PreparedSends(r: Reply)
    requires Unsent(r)
    ensures Sending(Prepared(r)) && Prepared(Prepared(r)) == Prepared(r)
    ensures Prepared(r).processing == Source(r) == Source(Prepared(r))
  {
    InternalErrorFits(r.error, r.target);
    hide InternalError;
  }

  lemma NextCall(r: Reply, size: nat)
    requires Sending(r)
    ensures Sending(ReplyCall(r, size)) && Source(ReplyCall(r, size)) == Source(r)
    ensures ReplyCall(r, size).handled == r.handled && ReplyCall(r, size).response == r.response
  {
    hide InternalError;
    var n := Min(size, |r.processing|);
    assert r.processing == r.processing[..n] + r.processing[n..];
  }

  lemma FirstCall(r: Reply, size: nat)
    requires Unsent(r)
    ensures Sending(ReplyCall(r, size)) && Source(ReplyCall(r, size)) == Source(r)
    ensures [ReplyPiece(r, size)] == Stream(Source(r), [size])
  {
    PreparedSends(r);
    NextCall(Prepared(r), size);
    hide InternalError, NeedsText;
  }

  function ReplyPieces(r: Reply, sizes: seq<nat>): (pieces: seq<Piece<char>>)
    ensures |pieces| == |sizes|
    decreases |sizes|
  {
    if sizes == [] then [] else [ReplyPiece(r, sizes[0])] + ReplyPieces(ReplyCall(r, sizes[0]), sizes[1..])
  }

  lemma {:induction false} RestStreams(r: Reply, sizes: seq<nat>)
    requires Sending(r)
    ensures ReplyPieces(r, sizes) == Stream(r.processing, sizes)
    decreases |sizes|
  {
    if sizes == [] {
    } else {
      NextCall(r, sizes[0]);
      RestStreams(ReplyCall(r, sizes[0]), sizes[1..]);
    }
  }

  // Whatever buffers CCFSM offers, the reply it gets is the stream of the user's
  // response if that is not empty, otherwise of the internal error's text.
  lemma ReplyIsStream(r: Reply, sizes: seq<nat>)
    requires Unsent(r)
    ensures ReplyPieces(r, sizes) == Stream(Source(r), sizes)
  {
    if sizes != [] {
      FirstCall(r, sizes[0]);
      RestStreams(ReplyCall(r, sizes[0]), sizes[1..]);
      PreparedSends(r);
    }
  }

  // The text is made at most once, in the first call.
  lemma TextMadeOnce(r: Reply, size: nat, again: nat)
    requires Unsent(r)
    ensures var s := ReplyCall(r, size);
            && (s.handled <==> r.given == [] && r.error != NoError)
            && Prepared(s) == s
            && ReplyCall(s, again).response == s.response
  {
    FirstCall(r, size);
    NextCall(ReplyCall(r, size), again);
  }

  // ccapi_process_device_request_length
  function AnnouncedLength(r: Reply): nat {
    |r.processing|
  }

  // Asked before the first piece, the length is that of the stream exactly when
  // no text has yet to be made: for an internal error it announces nothing.
  lemma AnnouncedLengthIsExact(r: Reply)
    requires Unsent(r)
    ensures AnnouncedLength(r) == |Source(r)| <==> !NeedsText(r)
    ensures NeedsText(r) ==> AnnouncedLength(r) == 0
  {
    InternalErrorFits(r.error, r.target);
    hide InternalError;
  }
}
