/** The name policy of the binding regenerator (`cargo xtask regenerate`):
    which header symbols reach the generated `cupti-sys` bindings, and what
    bindgen is told about the traits of blocklisted types.

    bindgen is configured with one allowlist pattern that applies to every
    item and one blocklist pattern that applies to functions only. Both are
    matched against the whole symbol name. */
module Regenerate {
  import opened Common
  import opened Regex

  // ---------------------------------------------------------------------
  // The patterns as written, as regular expressions
  // ---------------------------------------------------------------------

  function Either(upper: char, lower: char): Regex { Atom(OneOf({upper, lower})) }

  /** `[Cc][Uu][Pp][Tt][Ii].*` */
  const AllowPattern: Regex :=
    Concat(Either('C', 'c'), Concat(Either('U', 'u'), Concat(Either('P', 'p'),
    Concat(Either('T', 't'), Concat(Either('I', 'i'), AnyString)))))

  /** `cu([^p]|p[^t]|pt[^i]).*` */
  const BlockPattern: Regex :=
    Concat(Lit('c'), Concat(Lit('u'), Concat(
      Alt(Atom(NoneOf({'p'})),
      Alt(Concat(Lit('p'), Atom(NoneOf({'t'}))),
          Concat(Lit('p'), Concat(Lit('t'), Atom(NoneOf({'i'})))))),
      AnyString)))

  // ---------------------------------------------------------------------
  // The policy in closed form
  // ---------------------------------------------------------------------

  function AsciiLower(c: char): char {
    if 'A' <= c <= 'Z' then (c as int + 32) as char else c
  }

  /** Rust's `eq_ignore_ascii_case`. */
  predicate EqIgnoreAsciiCase(a: string, b: string) {
    |a| == |b| && forall i :: 0 <= i < |a| ==> AsciiLower(a[i]) == AsciiLower(b[i])
  }

  /** Length of the longest common prefix of `a` and `b`. */
  function CommonPrefixLen(a: string, b: string): (m: nat)
    ensures m <= |a| && m <= |b|
    ensures a[..m] == b[..m]
    ensures m < |a| && m < |b| ==> a[m] != b[m]
  {
    if a == [] || b == [] || a[0] != b[0] then 0
    else
      var m := CommonPrefixLen(a[1..], b[1..]);
      assert a[..m + 1] == [a[0]] + a[1..][..m];
      assert b[..m + 1] == [b[0]] + b[1..][..m];
      m + 1
  }

  /** The common prefix length is the first position where the two differ. */
  lemma CommonPrefixLenIs(a: string, b: string, k: nat)
    requires k <= |a| && k <= |b| && a[..k] == b[..k]
    requires k == |a| || k == |b| || a[k] != b[k]
    ensures CommonPrefixLen(a, b) == k
  {
  }

  /** A symbol is allowlisted when its first five characters spell "cupti"
      in any mix of ASCII case, and the rest has no line feed. */
  predicate IsAllowlisted(name: string) {
    |name| >= 5 && EqIgnoreAsciiCase(name[..5], "cupti") && '\n' !in name[5..]
  }

  /** A function is blocklisted when its name agrees with "cupti" on at
      least the first two characters ("cu") and then has a character that
      differs from "cupti" at position 2, 3 or 4, with no line feed after it. */
  predicate IsBlockedFunction(name: string) {
    var m := CommonPrefixLen(name, "cupti");
    2 <= m < 5 && m < |name| && '\n' !in name[m + 1..]
  }

  /** The five character classes of the allow pattern. */
  const AllowClasses: seq<CharClass> :=
    [OneOf({'C', 'c'}), OneOf({'U', 'u'}), OneOf({'P', 'p'}), OneOf({'T', 't'}), OneOf({'I', 'i'})]

  lemma CaseClassIff(i: nat, ch: char)
    requires i < 5
    ensures Admits(AllowClasses[i], ch) <==> AsciiLower(ch) == AsciiLower("cupti"[i])
  {
  }

  /** The closed form is exactly what the allow pattern matches. */
  lemma AllowlistedIffPattern(name: string)
    ensures IsAllowlisted(name) <==> Lang(AllowPattern, name)
  {
    assert AllowPattern == Word(AllowClasses, AnyString);
    WordLang(AllowClasses, AnyString, name);
    if |name| >= 5 {
      AnyStringLang(name[5..]);
      forall i | 0 <= i < 5
        ensures Admits(AllowClasses[i], name[i]) <==> AsciiLower(name[..5][i]) == AsciiLower("cupti"[i])
      {
        CaseClassIff(i, name[i]);
      }
    }
  }

  /** The three branches of the block pattern, on the text after "cu". */
  predicate BlockTail(t: string) {
    || (|t| >= 1 && t[0] != 'p' && '\n' !in t[1..])
    || (|t| >= 2 && t[0] == 'p' && t[1] != 't' && '\n' !in t[2..])
    || (|t| >= 3 && t[0] == 'p' && t[1] == 't' && t[2] != 'i' && '\n' !in t[3..])
  }

  lemma BlockTailIffPattern(t: string)
    ensures BlockTail(t) <==> Lang(Concat(
      Alt(Atom(NoneOf({'p'})),
      Alt(Concat(Lit('p'), Atom(NoneOf({'t'}))),
          Concat(Lit('p'), Concat(Lit('t'), Atom(NoneOf({'i'})))))),
      AnyString), t)
  {
    var notP, pNotT, ptNotI := Atom(NoneOf({'p'})), Concat(Lit('p'), Atom(NoneOf({'t'}))),
      Concat(Lit('p'), Concat(Lit('t'), Atom(NoneOf({'i'}))));
    ConcatAltLang(notP, Alt(pNotT, ptNotI), AnyString, t);
    ConcatAltLang(pNotT, ptNotI, AnyString, t);
    // branch `[^p]`
    ConcatAtomLang(NoneOf({'p'}), AnyString, t);
    // branch `p[^t]`
    ConcatAssocLang(Lit('p'), Atom(NoneOf({'t'})), AnyString, t);
    ConcatAtomLang(OneOf({'p'}), Concat(Atom(NoneOf({'t'})), AnyString), t);
    // branch `pt[^i]`
    ConcatAssocLang(Lit('p'), Concat(Lit('t'), Atom(NoneOf({'i'}))), AnyString, t);
    ConcatAtomLang(OneOf({'p'}), Concat(Concat(Lit('t'), Atom(NoneOf({'i'}))), AnyString), t);
    if |t| >= 1 {
      var t1 := t[1..];
      ConcatAtomLang(NoneOf({'t'}), AnyString, t1);
      ConcatAssocLang(Lit('t'), Atom(NoneOf({'i'})), AnyString, t1);
      ConcatAtomLang(OneOf({'t'}), Concat(Atom(NoneOf({'i'})), AnyString), t1);
      if |t| >= 2 {
        var t2 := t1[1..];
        assert t2 == t[2..];
        ConcatAtomLang(NoneOf({'i'}), AnyString, t2);
        if |t| >= 3 {
          assert t2[1..] == t[3..];
          AnyStringLang(t[3..]);
        }
        AnyStringLang(t[2..]);
      }
      AnyStringLang(t[1..]);
    }
  }

  /** The closed form is exactly what the block pattern matches. */
  lemma BlockedIffPattern(name: string)
    ensures IsBlockedFunction(name) <==> Lang(BlockPattern, name)
  {
    var tail := Concat(
      Alt(Atom(NoneOf({'p'})),
      Alt(Concat(Lit('p'), Atom(NoneOf({'t'}))),
          Concat(Lit('p'), Concat(Lit('t'), Atom(NoneOf({'i'})))))),
      AnyString);
    assert BlockPattern == Word([OneOf({'c'}), OneOf({'u'})], tail);
    WordLang([OneOf({'c'}), OneOf({'u'})], tail, name);
    if |name| >= 2 {
      BlockTailIffPattern(name[2..]);
      BlockedIffCuBlockTail(name);
    } else {
      var m := CommonPrefixLen(name, "cupti");
      assert m < 2;
    }
  }

  /** The closed form of the block test, read through the branches. */
  lemma BlockedIffCuBlockTail(s: string)
    requires |s| >= 2
    ensures IsBlockedFunction(s) <==> s[0] == 'c' && s[1] == 'u' && BlockTail(s[2..])
  {
    var m := CommonPrefixLen(s, "cupti");
    var t := s[2..];
    assert s[..m] == "cupti"[..m];
    if m < 2 {
      assert s[m] != "cupti"[m];
    } else {
      assert s[0] == 'c' && s[1] == 'u';
      if m == 2 {
        if |s| > 2 {
          assert t[0] == s[2] != 'p';
          assert t[1..] == s[3..];
        }
      } else if m == 3 {
        assert t[0] == 'p';
        if |s| > 3 {
          assert t[1] == s[3] != 't';
          assert t[2..] == s[4..];
        }
      } else if m == 4 {
        assert t[0] == 'p' && t[1] == 't';
        if |s| > 4 {
          assert t[2] == s[4] != 'i';
          assert t[3..] == s[5..];
        }
      } else {
        assert t[0] == 'p' && t[1] == 't' && t[2] == 'i';
      }
    }
  }

  /** For names without a line feed, a function is blocked exactly when it
      starts with "cu", does not start with "cupti", and is not one of the
      bare prefixes "cu", "cup", "cupt". */
  lemma BlockedFunctionPlain(name: string)
    requires '\n' !in name
    ensures IsBlockedFunction(name) <==>
      StartsWith(name, "cu") && !StartsWith(name, "cupti") && name !in {"cu", "cup", "cupt"}
  {
    var m := CommonPrefixLen(name, "cupti");
    assert name[..m] == "cupti"[..m];
    if m < |name| {
      var rest := name[m + 1..];
      assert '\n' !in rest by {
        forall j | 0 <= j < |rest| ensures rest[j] != '\n' {
          assert rest[j] == name[m + 1 + j];
        }
      }
    }
    if StartsWith(name, "cu") {
      assert name[..2] == "cupti"[..2];
      assert m >= 2;
    }
    if StartsWith(name, "cupti") {
      assert name[..5] == "cupti"[..5];
      assert m == 5;
    }
    if 2 <= m < 5 {
      assert StartsWith(name, "cu") by {
        assert name[..m][0] == name[0] && name[..m][1] == name[1];
        assert "cupti"[..m][0] == 'c' && "cupti"[..m][1] == 'u';
        assert name[..2] == "cu";
      }
      if m == |name| {
        assert name == "cupti"[..m];
        if m == 2 { assert "cupti"[..2] == "cu"; }
        if m == 3 { assert "cupti"[..3] == "cup"; }
        if m == 4 { assert "cupti"[..4] == "cupt"; }
      } else {
        assert name[m] != "cupti"[m];
        assert !StartsWith(name, "cupti");
        assert name != "cu" && name != "cup" && name != "cupt";
      }
    }
  }

  // ---------------------------------------------------------------------
  // Which declarations are emitted
  // ---------------------------------------------------------------------

  /** The kinds of item bindgen filters: `blocklist_function` applies only
      to functions, `allowlist_item` to all three. */
  datatype ItemKind = Function | Type | Var

  datatype Decl = Decl(kind: ItemKind, name: string)

  /** A declaration reaches the bindings when it is allowlisted and, if it
      is a function, not blocklisted. */
  predicate IsEmitted(d: Decl) {
    IsAllowlisted(d.name) && !(d.kind == Function && IsBlockedFunction(d.name))
  }

  /** An allowlisted function whose name starts with lower-case "cu" is
      emitted exactly when it starts with lower-case "cupti": "cuPTI_x" is
      allowed and then blocked. */
  lemma AllowedCuFunctionEmittedIff(name: string)
    requires IsAllowlisted(name) && StartsWith(name, "cu")
    ensures IsEmitted(Decl(Function, name)) <==> StartsWith(name, "cupti")
  {
    var m := CommonPrefixLen(name, "cupti");
    assert name[..m] == "cupti"[..m];
    assert name[..2] == "cupti"[..2];
    assert m >= 2;
    if StartsWith(name, "cupti") {
      assert name[..5] == "cupti"[..5];
      assert m == 5;
    } else {
      assert m < 5 <= |name|;
      forall i | m + 1 <= i < |name| ensures name[i] != '\n' {
        if i >= 5 {
          assert name[i] == name[5..][i - 5];
        } else {
          assert AsciiLower(name[..5][i]) == AsciiLower("cupti"[i]);
        }
      }
      assert '\n' !in name[m + 1..];
    }
  }

  /** Types and constants are decided by the allowlist alone. */
  lemma NonFunctionEmittedIffAllowlisted(d: Decl)
    requires d.kind != Function
    ensures IsEmitted(d) <==> IsAllowlisted(d.name)
  {
  }

  /** The declarations of a header that reach the bindings, in header order. */
  function Bindings(decls: seq<Decl>): (r: seq<Decl>)
    ensures forall d :: d in r <==> d in decls && IsEmitted(d)
    ensures |r| <= |decls|
  {
    if decls == [] then []
    else (if IsEmitted(decls[0]) then [decls[0]] else []) + Bindings(decls[1..])
  }

  // ---------------------------------------------------------------------
  // Trait policy for blocklisted types
  // ---------------------------------------------------------------------

  /** bindgen's `DeriveTrait`. */
  datatype DeriveTrait = Copy | Debug | Default | Hash | PartialEqOrPartialOrd

  /** bindgen's `ImplementsTrait`. */
  datatype ImplementsTrait = Yes | Manually | No

  /** `Callbacks::blocklisted_type_implements_trait`: Copy and Debug are
      always implemented, Default unless the name is an opaque struct tag
      (ends in "_st"), and nothing is said about any other trait. */
  function BlocklistedTypeImplementsTrait(name: string, t: DeriveTrait): (r: Option<ImplementsTrait>)
    ensures r.None? <==> (t == Hash || t == PartialEqOrPartialOrd)
    ensures (t == Copy || t == Debug) ==> r == Some(Yes)
    ensures t == Default ==> (r == Some(No) <==> EndsWith(name, "_st"))
    ensures t == Default ==> (r == Some(Yes) <==> !EndsWith(name, "_st"))
    ensures r != Some(Manually)
  {
    match t
    case Copy => Some(Yes)
    case Debug => Some(Yes)
    case Default => if EndsWith(name, "_st") then Some(No) else Some(Yes)
    case _ => None
  }

  // ---------------------------------------------------------------------
  // Examples
  // ---------------------------------------------------------------------

  lemma AllowExamples()
    ensures IsAllowlisted("CUptiGetVersion") && IsAllowlisted("cupti_foo")
  {
    assert "CUptiGetVersion"[..5] == "CUpti";
    assert "cupti_foo"[..5] == "cupti";
  }

  lemma NotAllowedExamples()
    ensures !IsAllowlisted("curandGenerate") && !IsAllowlisted("cupt")
  {
    assert "curandGenerate"[..5][2] == 'r';
  }

  lemma BlockExamples()
    ensures IsBlockedFunction("cuInit") && IsBlockedFunction("cuMemAlloc")
  {
    CommonPrefixLenIs("cuInit", "cupti", 2);
    CommonPrefixLenIs("cuMemAlloc", "cupti", 2);
  }

  lemma NotBlockedExamples()
    ensures !IsBlockedFunction("cuptiActivityEnable")
  {
    CommonPrefixLenIs("cuptiActivityEnable", "cupti", 5);
  }

  /** A proper prefix of "cupti" is not blocked: the pattern needs a
      character after "cu", "cup" or "cupt". */
  lemma ShortPrefixesNotBlocked()
    ensures !IsBlockedFunction("cu") && !IsBlockedFunction("cup") && !IsBlockedFunction("cupt")
  {
    CommonPrefixLenIs("cu", "cupti", 2);
    CommonPrefixLenIs("cup", "cupti", 3);
    CommonPrefixLenIs("cupt", "cupti", 4);
  }

  /** "cuPTI_x" passes the allowlist and is then removed by the blocklist. */
  lemma MixedCaseExample()
    ensures IsAllowlisted("cuPTI_x") && IsBlockedFunction("cuPTI_x")
    ensures IsEmitted(Decl(Type, "cuPTI_x")) && !IsEmitted(Decl(Function, "cuPTI_x"))
  {
    assert "cuPTI_x"[..5] == "cuPTI";
    assert "cuPTI_x"[5..] == "_x";
    CommonPrefixLenIs("cuPTI_x", "cupti", 2);
    assert "cuPTI_x"[3..] == "TI_x";
  }

  lemma ActivityEnableEmitted()
    ensures IsEmitted(Decl(Function, "cuptiActivityEnable"))
  {
    assert "cuptiActivityEnable"[..5] == "cupti";
    assert IsAllowlisted("cuptiActivityEnable");
    AllowedCuFunctionEmittedIff("cuptiActivityEnable");
  }

  lemma GetVersionEmitted()
    ensures IsEmitted(Decl(Function, "cuptiGetVersion"))
  {
    assert "cuptiGetVersion"[..5] == "cupti";
    assert IsAllowlisted("cuptiGetVersion");
    AllowedCuFunctionEmittedIff("cuptiGetVersion");
  }

  lemma InitNotEmitted()
    ensures !IsEmitted(Decl(Function, "cuInit"))
  {
    assert "cuInit"[..5][2] == 'I';
  }

  /** Bindings for a header read in two parts are the bindings of the
      first part followed by those of the second: declarations keep their
      header order whatever the header holds. */
  lemma {:induction false} BindingsAppend(xs: seq<Decl>, ys: seq<Decl>)
    ensures Bindings(xs + ys) == Bindings(xs) + Bindings(ys)
    decreases |xs|
  {
    if xs == [] {
      assert xs + ys == ys;
    } else {
      assert (xs + ys)[1..] == xs[1..] + ys;
      BindingsAppend(xs[1..], ys);
    }
  }

  /** Regenerating from generated bindings changes nothing. */
  lemma {:induction false} BindingsIdempotent(decls: seq<Decl>)
    ensures Bindings(Bindings(decls)) == Bindings(decls)
    decreases |decls|
  {
    if decls != [] {
      var head := if IsEmitted(decls[0]) then [decls[0]] else [];
      BindingsIdempotent(decls[1..]);
      BindingsAppend(head, Bindings(decls[1..]));
      if head != [] {
        assert head[1..] == [];
      }
    }
  }

  /** A header declaring `cuptiActivityEnable`, `cuInit` and
      `cuptiGetVersion` yields bindings for the first and third. */
  lemma HeaderExample()
    ensures Bindings([Decl(Function, "cuptiActivityEnable"), Decl(Function, "cuInit"),
                      Decl(Function, "cuptiGetVersion")])
         == [Decl(Function, "cuptiActivityEnable"), Decl(Function, "cuptiGetVersion")]
  {
    var a, b, c := Decl(Function, "cuptiActivityEnable"), Decl(Function, "cuInit"),
                   Decl(Function, "cuptiGetVersion");
    ActivityEnableEmitted();
    GetVersionEmitted();
    InitNotEmitted();
    BindingsSkipsMiddle(a, b, c);
  }

  /** Of three declarations with only the middle one left out, the first
      and the third are emitted, in that order. */
  lemma BindingsSkipsMiddle(a: Decl, b: Decl, c: Decl)
    requires IsEmitted(a) && !IsEmitted(b) && IsEmitted(c)
    ensures Bindings([a, b, c]) == [a, c]
  {
    assert [a, b, c][1..] == [b, c] && [b, c][1..] == [c] && [c][1..] == [];
  }
}
