/** UTF-8 as Rust's `str` understands it: the well-formed byte sequences of
    RFC 3629 (section 4), and `str::is_char_boundary`. */
module Utf8 {
  import opened Common

  /** A continuation byte, 10xxxxxx. */
  predicate IsContinuation(b: u8) { 0x80 <= b < 0xC0 }

  /** `str::is_char_boundary(i)`: the start, the end, or an index whose byte
      does not continue a multi-byte character. */
  predicate IsCharBoundary(s: seq<u8>, i: nat) {
    i == 0 || i == |s| || (i < |s| && !IsContinuation(s[i]))
  }

  /** The length of the well-formed character that starts `s`, or 0 when
      `s` does not start with one (RFC 3629, section 4, UTF8-char). */
  function FirstCharLen(s: seq<u8>): (n: nat)
    ensures n <= |s| && n <= 4
  {
    if |s| == 0 then 0
    else
      var b0 := s[0];
      if b0 < 0x80 then 1
      else if 0xC2 <= b0 <= 0xDF then
        (if |s| >= 2 && IsContinuation(s[1]) then 2 else 0)
      else if 0xE0 <= b0 <= 0xEF then
        var lo := if b0 == 0xE0 then 0xA0 else 0x80;
        var hi := if b0 == 0xED then 0x9F else 0xBF;
        (if |s| >= 3 && lo <= s[1] <= hi && IsContinuation(s[2]) then 3 else 0)
      else if 0xF0 <= b0 <= 0xF4 then
        var lo := if b0 == 0xF0 then 0x90 else 0x80;
        var hi := if b0 == 0xF4 then 0x8F else 0xBF;
        (if |s| >= 4 && lo <= s[1] <= hi && IsContinuation(s[2]) && IsContinuation(s[3]) then 4 else 0)
      else 0
  }

  /** `s` is a sequence of well-formed UTF-8 characters. */
  predicate IsValid(s: seq<u8>)
    decreases |s|
  {
    s == [] || (var n := FirstCharLen(s); n > 0 && IsValid(s[n..]))
  }

  /** A character is one lead byte followed by continuation bytes only. */
  lemma FirstCharShape(s: seq<u8>)
    requires FirstCharLen(s) > 0
    ensures !IsContinuation(s[0])
    ensures forall j :: 1 <= j < FirstCharLen(s) ==> IsContinuation(s[j])
  {
  }

  /** The first character is decided by its own bytes. */
  lemma FirstCharLenPrefix(s: seq<u8>, k: nat)
    requires FirstCharLen(s) > 0 && FirstCharLen(s) <= k <= |s|
    ensures FirstCharLen(s[..k]) == FirstCharLen(s)
  {
  }

  /** Cutting valid UTF-8 at a character boundary leaves valid UTF-8. */
  lemma {:induction false} PrefixAtBoundaryIsValid(s: seq<u8>, k: nat)
    requires IsValid(s) && k <= |s| && IsCharBoundary(s, k)
    ensures IsValid(s[..k])
    decreases |s|
  {
    if k > 0 {
      var n := FirstCharLen(s);
      FirstCharShape(s);
      if k < n {
        assert false;
      }
      FirstCharLenPrefix(s, k);
      var rest := s[n..];
      assert IsCharBoundary(rest, k - n) by {
        if 0 < k - n < |rest| { assert rest[k - n] == s[k]; }
      }
      PrefixAtBoundaryIsValid(rest, k - n);
      assert s[..k][n..] == rest[..k - n];
    }
  }

  /** Bytes below 0x80 are valid UTF-8 on their own. */
  lemma {:induction false} AsciiIsValid(s: seq<u8>)
    requires forall i :: 0 <= i < |s| ==> s[i] < 0x80
    ensures IsValid(s)
    decreases |s|
  {
    if s != [] {
      assert FirstCharLen(s) == 1;
      AsciiIsValid(s[1..]);
    }
  }
}
