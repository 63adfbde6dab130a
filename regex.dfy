/** The fragment of Rust's `regex` syntax used by the binding generator's
    name filters, with the meaning bindgen gives a filter: the pattern must
    match the WHOLE symbol name (bindgen wraps each pattern as `^(...)$`).

    `Lang(r, s)` is the reference semantics: the set of strings `r` matches.
    As in the `regex` crate's default mode, `.` matches every character
    except a line feed, while a negated class such as `[^p]` also matches a
    line feed. */
module Regex {

  datatype CharClass =
    | OneOf(chars: set<char>)    // `c`, `[Cc]`
    | NoneOf(chars: set<char>)   // `[^p]`, and `.` as NoneOf({'\n'})

  datatype Regex =
    | Atom(cls: CharClass)
    | Concat(first: Regex, second: Regex)
    | Alt(left: Regex, right: Regex)
    | Star(body: Regex)

  predicate Admits(c: CharClass, ch: char) {
    match c
    case OneOf(cs) => ch in cs
    case NoneOf(cs) => ch !in cs
  }

  /** A literal character. */
  function Lit(ch: char): Regex { Atom(OneOf({ch})) }

  /** `.` */
  const AnyChar: Regex := Atom(NoneOf({'\n'}))

  /** `.*` */
  const AnyString: Regex := Star(AnyChar)

  /** The strings matched by `r`, whole-string (anchored) matching. */
  ghost predicate Lang(r: Regex, s: string)
    decreases r, |s|
  {
    match r
    case Atom(c) => |s| == 1 && Admits(c, s[0])
    case Concat(a, b) => exists k :: 0 <= k <= |s| && Lang(a, s[..k]) && Lang(b, s[k..])
    case Alt(a, b) => Lang(a, s) || Lang(b, s)
    case Star(a) =>
      s == [] || exists k :: 1 <= k <= |s| && Lang(a, s[..k]) && Lang(r, s[k..])
  }

  /** `.*` matches exactly the strings without a line feed. */
  lemma {:induction false} AnyStringLang(s: string)
    ensures Lang(AnyString, s) <==> '\n' !in s
    decreases |s|
  {
    if s != [] {
      if Lang(AnyString, s) {
        var k :| 1 <= k <= |s| && Lang(AnyChar, s[..k]) && Lang(AnyString, s[k..]);
        assert k == 1 && s[..k] == [s[0]];
        AnyStringLang(s[k..]);
        assert s == [s[0]] + s[k..];
      }
      if '\n' !in s {
        assert s[..1] == [s[0]];
        assert '\n' !in s[1..];
        AnyStringLang(s[1..]);
        assert Lang(AnyChar, s[..1]) && Lang(AnyString, s[1..]);
      }
    }
  }

  /** A single-character pattern in front consumes exactly the first character. */
  lemma ConcatAtomLang(c: CharClass, r: Regex, s: string)
    ensures Lang(Concat(Atom(c), r), s) <==> |s| >= 1 && Admits(c, s[0]) && Lang(r, s[1..])
  {
    if Lang(Concat(Atom(c), r), s) {
      var k :| 0 <= k <= |s| && Lang(Atom(c), s[..k]) && Lang(r, s[k..]);
      assert k == 1;
    }
    if |s| >= 1 && Admits(c, s[0]) && Lang(r, s[1..]) {
      assert Lang(Atom(c), s[..1]);
    }
  }

  /** Concatenation is associative. */
  lemma ConcatAssocLang(a: Regex, b: Regex, r: Regex, s: string)
    ensures Lang(Concat(Concat(a, b), r), s) <==> Lang(Concat(a, Concat(b, r)), s)
  {
    if Lang(Concat(Concat(a, b), r), s) {
      ConcatAssocLeft(a, b, r, s);
    }
    if Lang(Concat(a, Concat(b, r)), s) {
      ConcatAssocRight(a, b, r, s);
    }
  }

  lemma ConcatAssocLeft(a: Regex, b: Regex, r: Regex, s: string)
    requires Lang(Concat(Concat(a, b), r), s)
    ensures Lang(Concat(a, Concat(b, r)), s)
  {
    var k := SplitOf(Concat(a, b), r, s);
    var u, z := s[..k], s[k..];
    var j := SplitOf(a, b, u);
    var x, y := u[..j], u[j..];
    Reassemble(s, k, j);
    Join(b, r, y, z);
    Join(a, Concat(b, r), x, y + z);
  }

  lemma ConcatAssocRight(a: Regex, b: Regex, r: Regex, s: string)
    requires Lang(Concat(a, Concat(b, r)), s)
    ensures Lang(Concat(Concat(a, b), r), s)
  {
    var j := SplitOf(a, Concat(b, r), s);
    var x, t := s[..j], s[j..];
    var m := SplitOf(b, r, t);
    var y, z := t[..m], t[m..];
    Reassemble'(s, j, m);
    Join(a, b, x, y);
    Join(Concat(a, b), r, x + y, z);
  }

  /** A split point of a matched concatenation. */
  lemma SplitOf(a: Regex, b: Regex, s: string) returns (k: nat)
    requires Lang(Concat(a, b), s)
    ensures k <= |s| && Lang(a, s[..k]) && Lang(b, s[k..])
  {
    k :| 0 <= k <= |s| && Lang(a, s[..k]) && Lang(b, s[k..]);
  }

  /** Cutting at `k` and then cutting the front at `j` loses nothing. */
  lemma Reassemble(s: string, k: nat, j: nat)
    requires j <= k <= |s|
    ensures s[..k][..j] + (s[..k][j..] + s[k..]) == s
  {
    assert s[..k][..j] + s[..k][j..] == s[..k];
  }

  /** Cutting at `j` and then cutting the back at `m` loses nothing. */
  lemma Reassemble'(s: string, j: nat, m: nat)
    requires j + m <= |s|
    ensures (s[..j] + s[j..][..m]) + s[j..][m..] == s
  {
    assert s[j..][..m] + s[j..][m..] == s[j..];
  }

  /** Matches of the two parts join into a match of the concatenation. */
  lemma Join(a: Regex, b: Regex, x: string, y: string)
    requires Lang(a, x) && Lang(b, y)
    ensures Lang(Concat(a, b), x + y)
  {
    assert (x + y)[..|x|] == x && (x + y)[|x|..] == y;
  }

  /** Concatenation distributes over alternation on the left. */
  lemma ConcatAltLang(a: Regex, b: Regex, r: Regex, s: string)
    ensures Lang(Concat(Alt(a, b), r), s) <==> Lang(Concat(a, r), s) || Lang(Concat(b, r), s)
  {
    if Lang(Concat(Alt(a, b), r), s) {
      var k :| 0 <= k <= |s| && Lang(Alt(a, b), s[..k]) && Lang(r, s[k..]);
      if Lang(a, s[..k]) {
        assert Lang(Concat(a, r), s);
      } else {
        assert Lang(Concat(b, r), s);
      }
    }
    if Lang(Concat(a, r), s) {
      var k :| 0 <= k <= |s| && Lang(a, s[..k]) && Lang(r, s[k..]);
      assert Lang(Alt(a, b), s[..k]);
    }
    if Lang(Concat(b, r), s) {
      var k :| 0 <= k <= |s| && Lang(b, s[..k]) && Lang(r, s[k..]);
      assert Lang(Alt(a, b), s[..k]);
    }
  }

  /** A run of single-character patterns followed by `tail`. */
  function Word(classes: seq<CharClass>, tail: Regex): Regex {
    if classes == [] then tail else Concat(Atom(classes[0]), Word(classes[1..], tail))
  }

  /** A run of single-character patterns consumes exactly one character each. */
  lemma {:induction false} WordLang(classes: seq<CharClass>, tail: Regex, s: string)
    ensures Lang(Word(classes, tail), s) <==>
      |s| >= |classes| && (forall i :: 0 <= i < |classes| ==> Admits(classes[i], s[i])) &&
      Lang(tail, s[|classes|..])
    decreases |classes|
  {
    if classes != [] {
      ConcatAtomLang(classes[0], Word(classes[1..], tail), s);
      if |s| >= 1 {
        WordLang(classes[1..], tail, s[1..]);
        if |s| >= |classes| {
          assert s[1..][|classes| - 1..] == s[|classes|..];
          assert (forall i :: 0 <= i < |classes| ==> Admits(classes[i], s[i])) <==>
            Admits(classes[0], s[0]) &&
            (forall i :: 0 <= i < |classes| - 1 ==> Admits(classes[1..][i], s[1..][i])) by {
            if Admits(classes[0], s[0]) &&
               (forall i :: 0 <= i < |classes| - 1 ==> Admits(classes[1..][i], s[1..][i])) {
              forall i | 0 <= i < |classes| ensures Admits(classes[i], s[i]) {
                if i > 0 { assert classes[1..][i - 1] == classes[i] && s[1..][i - 1] == s[i]; }
              }
            }
          }
        }
      }
    }
  }
}
