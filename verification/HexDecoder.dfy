// Reading a device identifier out of text: the decoder walks the string from
// right to left, takes hex digits and skips everything else.
module HexDecoder {
  import opened Arithmetic
  import opened Bytes

  type Nibble = n: int | 0 <= n < 16

  predicate IsDigit(ch: char) { '0' <= ch <= '9' }

  predicate IsHexDigit(ch: char) {
    IsDigit(ch) || 'a' <= ch <= 'f' || 'A' <= ch <= 'F'
  }

  function NibbleOf(ch: char): Nibble
    requires IsHexDigit(ch)
  {
    if IsDigit(ch) then ch as int - '0' as int
    else if 'a' <= ch then ch as int - 'a' as int + 10
    else ch as int - 'A' as int + 10
  }

  // The values of a string's hex digits, in order.
  function Digits(s: string): seq<Nibble> {
    if s == [] then []
    else Digits(s[..|s| - 1]) + if IsHexDigit(s[|s| - 1]) then [NibbleOf(s[|s| - 1])] else []
  }

  function Join(high: Nibble, low: Nibble): Byte {
    (high as int) * 16 + low
  }

  // The last `k` digits, with zeros on the left where there are too few.
  function LastPadded(digits: seq<Nibble>, k: nat): (r: seq<Nibble>)
    ensures |r| == k
  {
    seq(k, i requires 0 <= i < k => if |digits| - k + i < 0 then 0 else digits[|digits| - k + i])
  }

  function Paired(nibbles: seq<Nibble>, n: nat): (r: seq<Byte>)
    requires |nibbles| == 2 * n
    ensures |r| == n
  {
    seq(n, i requires 0 <= i < n => Join(nibbles[2 * i], nibbles[2 * i + 1]))
  }

  // What the decoder leaves in an array of `n` bytes.
  function Decoded(s: string, n: nat): (r: seq<Byte>)
    ensures |r| == n
  {
    Paired(LastPadded(Digits(s), 2 * n), n)
  }

  // ------------------------------------------------------------ the program

  // What the string holds up to and including `index`, which may be negative.
  function Upto(s: string, index: int): string
    requires index < |s|
  {
    if index < 0 then [] else s[..index + 1]
  }

  // digit_to_nibble: `next` is the index left for the following call.
  method DigitToNibble(s: string, index: int) returns (nibble: Nibble, next: int)
    requires index < |s|
    ensures next < |s|
    ensures var digits := Digits(Upto(s, index));
            if digits == [] then nibble == 0 && Digits(Upto(s, next)) == []
            else digits == Digits(Upto(s, next)) + [nibble]
  {
    nibble := 0;
    var current := index;
    while current >= 0
      invariant current <= index
      invariant Digits(Upto(s, current)) == Digits(Upto(s, index))
      invariant nibble == 0
      decreases current
    {
      var ch := s[current];
      assert Upto(s, current)[..current] == Upto(s, current - 1);
      if IsHexDigit(ch) {
        nibble := NibbleOf(ch);
        break;
      }
      current := current - 1;
    }
    next := current - 1;
  }

  // What is left of the digits when `k` have been taken off the right.
  function Rest(digits: seq<Nibble>, k: nat): seq<Nibble> {
    digits[..if |digits| < k then 0 else |digits| - k]
  }

  function LastOr0(digits: seq<Nibble>): Nibble {
    if digits == [] then 0 else digits[|digits| - 1]
  }

  // Byte `i` is made of the next two digits from the right.
  lemma TakeTwo(digits: seq<Nibble>, n: nat, i: nat)
    requires i < n
    ensures var k := 2 * (n - 1 - i);
            Paired(LastPadded(digits, 2 * n), n)[i] == Join(LastOr0(Rest(digits, k + 1)), LastOr0(Rest(digits, k)))
  {
    var k := 2 * (n - 1 - i);
    RightDigit(digits, 2 * n, k);
    RightDigit(digits, 2 * n, k + 1);
    assert 2 * n - 1 - k == 2 * i + 1;
  }

  lemma RightDigit(digits: seq<Nibble>, m: nat, k: nat)
    requires k < m
    ensures LastPadded(digits, m)[m - 1 - k] == LastOr0(Rest(digits, k))
  {
  }

  lemma TakeOne(digits: seq<Nibble>, k: nat, front: seq<Nibble>, last: Nibble)
    requires if Rest(digits, k) == [] then last == 0 && front == [] else Rest(digits, k) == front + [last]
    ensures Rest(digits, k + 1) == front && LastOr0(Rest(digits, k)) == last
  {
  }

  // string_to_byte_array
  method StringToByteArray(s: string, bytes: array<Byte>)
    modifies bytes
    ensures bytes[..] == Decoded(s, bytes.Length)
  {
    hide Digits, Rest, LastOr0, LastPadded, Paired;
    var n := bytes.Length;
    ghost var digits := Digits(s);
    var index := |s| - 1;
    var i := n - 1;
    WholeString(s);
    while i >= 0
      invariant -1 <= i < n
      invariant index < |s|
      invariant Digits(Upto(s, index)) == Rest(digits, 2 * (n - 1 - i))
      invariant forall k :: i < k < n ==> bytes[k] == Decoded(s, n)[k]
    {
      var low, high;
      ghost var k := 2 * (n - 1 - i);
      low, index := DigitToNibble(s, index);
      TakeOne(digits, k, Digits(Upto(s, index)), low);
      high, index := DigitToNibble(s, index);
      TakeOne(digits, k + 1, Digits(Upto(s, index)), high);
      TakeTwo(digits, n, i);
      bytes[i] := Join(high, low);
      i := i - 1;
    }
  }

  lemma WholeString(s: string)
    ensures Digits(Upto(s, |s| - 1)) == Rest(Digits(s), 0)
  {
    assert Upto(s, |s| - 1) == s;
  }

  // ------------------------------------------------------------ as numbers

  function Value(digits: seq<Nibble>): nat {
    if digits == [] then 0 else 16 * Value(digits[..|digits| - 1]) + digits[|digits| - 1]
  }

  function BigEndian(bytes: seq<Byte>): nat {
    if bytes == [] then 0 else 256 * BigEndian(bytes[..|bytes| - 1]) + bytes[|bytes| - 1]
  }

  function Power(k: nat): (p: nat)
    ensures 0 < p
  {
    if k == 0 then 1 else 16 * Power(k - 1)
  }

  lemma ModStep(v: nat, l: nat, p: nat)
    requires 0 < p && l < 16
    ensures (16 * v + l) % (16 * p) == 16 * (v % p) + l
  {
    var q, r, p16 := v / p, v % p, 16 * p;
    assert 16 * v + l == q * p16 + (16 * r + l) by {
      assert v == q * p + r;
    }
    QuotientUnique(q, 16 * r + l, (16 * v + l) / p16, (16 * v + l) % p16, p16);
  }

  lemma {:induction false} PaddedValue(digits: seq<Nibble>, k: nat)
    ensures Value(LastPadded(digits, k)) == Value(digits) % Power(k)
  {
    if 0 < k {
      var padded := LastPadded(digits, k);
      var rest := if digits == [] then [] else digits[..|digits| - 1];
      assert padded[..k - 1] == LastPadded(rest, k - 1);
      PaddedValue(rest, k - 1);
      ModStep(Value(rest), padded[k - 1], Power(k - 1));
    }
  }

  lemma LastTwo(nibbles: seq<Nibble>)
    requires 2 <= |nibbles|
    ensures Value(nibbles)
         == 256 * Value(nibbles[..|nibbles| - 2]) + Join(nibbles[|nibbles| - 2], nibbles[|nibbles| - 1])
  {
    var front := nibbles[..|nibbles| - 1];
    assert front[..|front| - 1] == nibbles[..|nibbles| - 2];
  }

  lemma LastPair(nibbles: seq<Nibble>, n: nat)
    requires |nibbles| == 2 * n && 0 < n
    ensures Paired(nibbles, n) == Paired(nibbles[..2 * n - 2], n - 1) + [Join(nibbles[2 * n - 2], nibbles[2 * n - 1])]
  {
  }

  lemma {:induction false} PairedValue(nibbles: seq<Nibble>, n: nat)
    requires |nibbles| == 2 * n
    ensures BigEndian(Paired(nibbles, n)) == Value(nibbles)
  {
    if n == 0 {
    } else {
      var rest := nibbles[..2 * n - 2];
      PairedValue(rest, n - 1);
      LastTwo(nibbles);
      LastPair(nibbles, n);
      hide Value, Paired, Join;
      assert Paired(nibbles, n)[..n - 1] == Paired(rest, n - 1);
    }
  }

  // The decoded bytes are the number that the string's digits spell, modulo
  // what fits: more digits lose the leading ones, fewer leave leading zeros.
  lemma DecodesTheNumber(s: string, n: nat)
    ensures BigEndian(Decoded(s, n)) == Value(Digits(s)) % Power(2 * n)
  {
    PaddedValue(Digits(s), 2 * n);
    PairedValue(LastPadded(Digits(s), 2 * n), n);
  }

  // ------------------------------------------------------------ printing

  function DigitChar(n: Nibble, upper: bool): (ch: char)
    ensures IsHexDigit(ch) && NibbleOf(ch) == n
  {
    if n < 10 then '0' + n as char
    else if upper then 'A' + (n - 10) as char
    else 'a' + (n - 10) as char
  }

  predicate NoDigits(gap: string) {
    forall i :: 0 <= i < |gap| ==> !IsHexDigit(gap[i])
  }

  // One digit as it appears in text: what follows it, and its case.
  datatype Mark = Mark(nibble: Nibble, upper: bool, gap: string)

  // A text with these marks after some leading separators.
  function Print(lead: string, marks: seq<Mark>): string {
    if marks == [] then lead
    else
      var m := marks[|marks| - 1];
      Print(lead, marks[..|marks| - 1]) + [DigitChar(m.nibble, m.upper)] + m.gap
  }

  predicate Separated(lead: string, marks: seq<Mark>) {
    NoDigits(lead) && forall i :: 0 <= i < |marks| ==> NoDigits(marks[i].gap)
  }

  function NibblesOf(marks: seq<Mark>): (r: seq<Nibble>)
    ensures |r| == |marks|
  {
    seq(|marks|, i requires 0 <= i < |marks| => marks[i].nibble)
  }

  // The nibbles of bytes, high one first.
  function Split(bytes: seq<Byte>): (r: seq<Nibble>)
    ensures |r| == 2 * |bytes|
  {
    seq(2 * |bytes|, i requires 0 <= i < 2 * |bytes| =>
      if i % 2 == 0 then bytes[i / 2] / 16 else bytes[i / 2] % 16)
  }

  lemma {:induction false} GapAdds(s: string, gap: string)
    requires NoDigits(gap)
    ensures Digits(s + gap) == Digits(s)
  {
    if gap == [] {
      assert s + gap == s;
    } else {
      assert (s + gap)[..|s + gap| - 1] == s + gap[..|gap| - 1];
      GapAdds(s, gap[..|gap| - 1]);
    }
  }

  lemma {:induction false} PrintedDigits(lead: string, marks: seq<Mark>)
    requires Separated(lead, marks)
    ensures Digits(Print(lead, marks)) == NibblesOf(marks)
  {
    if marks == [] {
      GapAdds([], lead);
      assert [] + lead == lead;
    } else {
      var front, m := marks[..|marks| - 1], marks[|marks| - 1];
      PrintedDigits(lead, front);
      var s := Print(lead, front) + [DigitChar(m.nibble, m.upper)];
      GapAdds(s, m.gap);
      assert s[..|s| - 1] == Print(lead, front);
      assert NibblesOf(marks) == NibblesOf(front) + [m.nibble];
    }
  }

  // Round trip: however bytes are printed as hex digits, in either case and
  // with any separators before, between and after them, decoding gives them back.
  lemma DecodeInvertsPrint(bytes: seq<Byte>, lead: string, marks: seq<Mark>)
    requires Separated(lead, marks) && NibblesOf(marks) == Split(bytes)
    ensures Decoded(Print(lead, marks), |bytes|) == bytes
  {
    PrintedDigits(lead, marks);
    var padded := LastPadded(Split(bytes), 2 * |bytes|);
    assert padded == Split(bytes);
    forall i | 0 <= i < |bytes|
      ensures Paired(padded, |bytes|)[i] == bytes[i]
    {
      assert padded[2 * i] == bytes[i] / 16 && padded[2 * i + 1] == bytes[i] % 16;
    }
  }

  lemma CharBack(ch: char)
    requires IsHexDigit(ch)
    ensures DigitChar(NibbleOf(ch), 'A' <= ch <= 'F') == ch
  {
  }

  lemma AddMark(lead: string, marks: seq<Mark>, ch: char) returns (more: seq<Mark>)
    requires Separated(lead, marks) && IsHexDigit(ch)
    ensures Separated(lead, more) && Print(lead, more) == Print(lead, marks) + [ch]
    ensures NibblesOf(more) == NibblesOf(marks) + [NibbleOf(ch)]
  {
    CharBack(ch);
    more := marks + [Mark(NibbleOf(ch), 'A' <= ch <= 'F', [])];
    assert more[..|marks|] == marks;
  }

  lemma LongerLead(lead: string, ch: char)
    requires NoDigits(lead) && !IsHexDigit(ch)
    ensures Separated(lead + [ch], []) && Print(lead + [ch], []) == Print(lead, []) + [ch]
  {
  }

  lemma WidenGap(lead: string, marks: seq<Mark>, ch: char) returns (more: seq<Mark>)
    requires Separated(lead, marks) && marks != [] && !IsHexDigit(ch)
    ensures Separated(lead, more) && Print(lead, more) == Print(lead, marks) + [ch]
    ensures NibblesOf(more) == NibblesOf(marks)
  {
    var front, last := marks[..|marks| - 1], marks[|marks| - 1];
    more := front + [last.(gap := last.gap + [ch])];
    assert more[..|front|] == front;
  }

  lemma AddChar(lead: string, marks: seq<Mark>, ch: char) returns (l: string, m: seq<Mark>)
    requires Separated(lead, marks)
    ensures Separated(l, m) && Print(l, m) == Print(lead, marks) + [ch]
    ensures NibblesOf(m) == NibblesOf(marks) + if IsHexDigit(ch) then [NibbleOf(ch)] else []
  {
    hide NibbleOf;
    l, m := lead, marks;
    if IsHexDigit(ch) {
      m := AddMark(lead, marks, ch);
    } else if marks == [] {
      l := lead + [ch];
      LongerLead(lead, ch);
    } else {
      m := WidenGap(lead, marks, ch);
    }
  }

  // Every string is such a printing of its own digits.
  lemma {:induction false} EveryStringIsPrinted(s: string) returns (lead: string, marks: seq<Mark>)
    ensures Separated(lead, marks) && s == Print(lead, marks) && NibblesOf(marks) == Digits(s)
  {
    hide NibbleOf, IsHexDigit;
    if s == [] {
      lead, marks := [], [];
    } else {
      var front, ch := s[..|s| - 1], s[|s| - 1];
      lead, marks := EveryStringIsPrinted(front);
      lead, marks := AddChar(lead, marks, ch);
      assert s == front + [ch];
    }
  }
}
