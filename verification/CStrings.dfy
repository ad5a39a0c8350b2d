// C strings as sequences of characters without their terminator, and strncmp.
module CStrings {

  predicate NoNul(s: string) {
    forall i :: 0 <= i < |s| ==> s[i] != '\0'
  }

  // What is stored at position `i`, terminator included.
  function CharAt(s: string, i: nat): char {
    if i < |s| then s[i] else '\0'
  }

  // strncmp(a, b, n) == 0, from position `i` on: both end together, or agree up
  // to position n.
  predicate SameUpto(a: string, b: string, n: nat, i: nat)
    decreases n - i
  {
    n <= i || (CharAt(a, i) == CharAt(b, i) && (CharAt(a, i) == '\0' || SameUpto(a, b, n, i + 1)))
  }

  lemma {:induction false} SameUptoAgrees(a: string, b: string, n: nat, i: nat, k: nat)
    requires NoNul(a) && SameUpto(a, b, n, i) && i <= k < n && k <= |a|
    ensures CharAt(a, k) == CharAt(b, k)
    decreases k - i
  {
    if k <= i {
    } else {
      SameUptoAgrees(a, b, n, i + 1, k);
    }
  }

  lemma {:induction false} AgreesSameUpto(a: string, b: string, n: nat, i: nat)
    requires forall k :: i <= k < n ==> CharAt(a, k) == CharAt(b, k)
    ensures SameUpto(a, b, n, i)
    decreases n - i
  {
    if n <= i {
    } else {
      AgreesSameUpto(a, b, n, i + 1);
    }
  }

  function Max(a: nat, b: nat): nat {
    if a < b then b else a
  }

  // A name without separators, compared over the longer of the two lengths with
  // the first `length` characters of a longer, unterminated text: the comparison
  // runs past those characters, and still it finds exactly the equal name.
  lemma LongestCompareIsEquality(name: string, text: string, length: nat, separator: char)
    requires NoNul(name) && NoNul(text) && separator !in name
    requires length <= |text| && (length < |text| ==> text[length] == separator)
    ensures SameUpto(name, text, Max(|name|, length), 0) <==> name == text[..length]
  {
    var n := Max(|name|, length);
    if name == text[..length] {
      AgreesSameUpto(name, text, n, 0);
    }
    if SameUpto(name, text, n, 0) {
      if |name| != length {
        var k := if |name| < length then |name| else length;
        SameUptoAgrees(name, text, n, 0, k);
        assert false;
      }
      forall k | 0 <= k < length
        ensures name[k] == text[k]
      {
        SameUptoAgrees(name, text, n, 0, k);
      }
    }
  }

  // strncmp(a, b, n) == 0
  method Same(a: string, b: string, n: nat) returns (same: bool)
    ensures same <==> SameUpto(a, b, n, 0)
  {
    var i := 0;
    while i < n
      invariant i <= n
      invariant SameUpto(a, b, n, 0) <==> SameUpto(a, b, n, i)
    {
      if CharAt(a, i) != CharAt(b, i) {
        return false;
      }
      if CharAt(a, i) == '\0' {
        return true;
      }
      i := i + 1;
    }
    return true;
  }
}
