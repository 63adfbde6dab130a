/** The `cupti-sys` build script: the cargo directives it prints, in order,
    as a function of the three CUDA installation variables.

    `println!` appends one line to the build script's standard output; the
    model keeps that output as a sequence of lines. */
module BuildScript {
  import opened Common

  /** What `std::env::var` reports for one variable: `Err(NotPresent)`,
      `Err(NotUnicode(_))`, or `Ok(value)`. */
  datatype EnvVar = Unset | NotUnicode | Set(value: string)

  /** The process environment; a name absent from the map is unset. */
  type Env = map<string, EnvVar>

  function Lookup(env: Env, name: string): EnvVar {
    if name in env then env[name] else Unset
  }

  /** The variables checked, in the order they are checked. */
  const CudaVars: seq<string> := ["CUDA_HOME", "CUDA_PATH", "CUDA_ROOT"]

  /** The conventional installation root, always searched last. */
  const DefaultRoot: string := "/usr/local/cuda"

  const SearchPrefix: string := "cargo:rustc-link-search=native="
  const LinkLibLine: string := "cargo:rustc-link-lib=cupti"
  const RerunPrefix: string := "cargo:rerun-if-env-changed="

  function SearchLine(dir: string): string { SearchPrefix + dir }

  // The three library directories searched under every root.
  const Lib64 := "/lib64"
  const Lib := "/lib"
  const MultiarchLib := "/lib/x86_64-linux-gnu"

  /** The three search lines printed for one installation root. */
  function RootSearchLines(root: string): (r: seq<string>)
    ensures |r| == 3
  {
    [SearchLine(root + Lib64), SearchLine(root + Lib), SearchLine(root + MultiarchLib)]
  }

  /** The values of the variables of `vars` that `env::var` returns `Ok` for, in order. */
  function SetRoots(env: Env, vars: seq<string>): (r: seq<string>)
    ensures |r| <= |vars|
  {
    if vars == [] then []
    else
      var v := Lookup(env, vars[|vars| - 1]);
      SetRoots(env, vars[..|vars| - 1]) + (if v.Set? then [v.value] else [])
  }

  /** The search lines for a list of roots, root by root. */
  function SearchLinesFor(roots: seq<string>): (r: seq<string>)
    ensures |r| == 3 * |roots|
  {
    if roots == [] then []
    else SearchLinesFor(roots[..|roots| - 1]) + RootSearchLines(roots[|roots| - 1])
  }

  /** Everything `add_cuda_lib_paths` prints. */
  function SearchLines(env: Env): seq<string> {
    SearchLinesFor(SetRoots(env, CudaVars) + [DefaultRoot])
  }

  function RerunLines(): seq<string> {
    [RerunPrefix + "CUDA_HOME", RerunPrefix + "CUDA_PATH", RerunPrefix + "CUDA_ROOT"]
  }

  /** Everything the build script prints. */
  function Directives(env: Env): seq<string> {
    SearchLines(env) + [LinkLibLine] + RerunLines()
  }

  lemma SearchLinesSnoc(roots: seq<string>, root: string)
    ensures SearchLinesFor(roots + [root]) == SearchLinesFor(roots) + RootSearchLines(root)
  {
    assert (roots + [root])[..|roots|] == roots;
  }

  /** One more variable adds the lines of its root when it is set. */
  lemma SetRootsStep(env: Env, i: nat)
    requires i < |CudaVars|
    ensures var v := Lookup(env, CudaVars[i]);
      SearchLinesFor(SetRoots(env, CudaVars[..i + 1])) ==
        SearchLinesFor(SetRoots(env, CudaVars[..i])) + (if v.Set? then RootSearchLines(v.value) else [])
  {
    SetRootsNext(env, i);
    var v := Lookup(env, CudaVars[i]);
    if v.Set? {
      SearchLinesSnoc(SetRoots(env, CudaVars[..i]), v.value);
    }
  }

  /** Printing a root's three lines one by one appends its search lines. */
  lemma AppendRootLines(before: seq<string>, root: string)
    ensures before + [SearchLine(root + Lib64)] + [SearchLine(root + Lib)] + [SearchLine(root + MultiarchLib)]
      == before + RootSearchLines(root)
  {
  }

  lemma SetRootsNext(env: Env, i: nat)
    requires i < |CudaVars|
    ensures var v := Lookup(env, CudaVars[i]);
      SetRoots(env, CudaVars[..i + 1]) == SetRoots(env, CudaVars[..i]) + (if v.Set? then [v.value] else [])
  {
    assert CudaVars[..i + 1][..i] == CudaVars[..i];
  }

  lemma DefaultRootLines()
    ensures RootSearchLines(DefaultRoot) == [SearchLine("/usr/local/cuda/lib64"),
      SearchLine("/usr/local/cuda/lib"), SearchLine("/usr/local/cuda/lib/x86_64-linux-gnu")]
  {
    assert DefaultRoot + "/lib64" == "/usr/local/cuda/lib64";
    assert DefaultRoot + "/lib" == "/usr/local/cuda/lib";
    assert DefaultRoot + "/lib/x86_64-linux-gnu" == "/usr/local/cuda/lib/x86_64-linux-gnu";
  }

  // ---------------------------------------------------------------------
  // The build script as written
  // ---------------------------------------------------------------------

  /** `add_cuda_lib_paths`: the loop over the three variables, then the
      conventional root. */
  method AddCudaLibPaths(env: Env) returns (out: seq<string>)
    ensures out == SearchLines(env)
  {
    out := [];
    var i := 0;
    while i < |CudaVars|
      invariant 0 <= i <= |CudaVars|
      invariant out == SearchLinesFor(SetRoots(env, CudaVars[..i]))
    {
      var name := CudaVars[i];
      SetRootsStep(env, i);
      var v := Lookup(env, name);
      if v.Set? {
        var cudaPath := v.value;
        ghost var before := out;
        out := out + [SearchLine(cudaPath + Lib64)];
        out := out + [SearchLine(cudaPath + Lib)];
        out := out + [SearchLine(cudaPath + MultiarchLib)];
        AppendRootLines(before, cudaPath);
      } else {
        assert out + [] == out;
      }
      i := i + 1;
    }
    assert CudaVars[..i] == CudaVars;
    SearchLinesSnoc(SetRoots(env, CudaVars), DefaultRoot);
    out := out + [SearchLine(DefaultRoot + Lib64)];
    out := out + [SearchLine(DefaultRoot + Lib)];
    out := out + [SearchLine(DefaultRoot + MultiarchLib)];
  }

  /** The build script's `main`. */
  method RunBuildScript(env: Env) returns (out: seq<string>)
    ensures out == Directives(env)
  {
    out := AddCudaLibPaths(env);
    out := out + [LinkLibLine];
    out := out + [RerunPrefix + "CUDA_HOME"];
    out := out + [RerunPrefix + "CUDA_PATH"];
    out := out + [RerunPrefix + "CUDA_ROOT"];
  }

  // ---------------------------------------------------------------------
  // Properties of the directive list
  // ---------------------------------------------------------------------

  /** Root `j`'s three lines sit at positions 3j, 3j+1, 3j+2. */
  lemma {:induction false} SearchLinesAt(roots: seq<string>, j: nat, k: nat)
    requires j < |roots| && k < 3
    ensures SearchLinesFor(roots)[3 * j + k] == RootSearchLines(roots[j])[k]
    decreases |roots|
  {
    var n := |roots| - 1;
    if j < n {
      SearchLinesAt(roots[..n], j, k);
      assert roots[..n][j] == roots[j];
    }
  }

  /** Every line of `add_cuda_lib_paths` is a search-path directive. */
  lemma {:induction false} SearchLinesAreSearches(roots: seq<string>)
    ensures forall i :: 0 <= i < |SearchLinesFor(roots)| ==> StartsWith(SearchLinesFor(roots)[i], SearchPrefix)
    decreases |roots|
  {
    if roots != [] {
      SearchLinesAreSearches(roots[..|roots| - 1]);
      var r := RootSearchLines(roots[|roots| - 1]);
      assert forall k :: 0 <= k < 3 ==> StartsWith(r[k], SearchPrefix);
    }
  }

  /** Looking at more variables only appends roots. */
  lemma {:induction false} SetRootsPrefix(env: Env, vars: seq<string>, i: nat)
    requires i <= |vars|
    ensures SetRoots(env, vars[..i]) <= SetRoots(env, vars)
    decreases |vars|
  {
    if i < |vars| {
      assert vars[..|vars| - 1][..i] == vars[..i];
      SetRootsPrefix(env, vars[..|vars| - 1], i);
    } else {
      assert vars[..i] == vars;
    }
  }

  /** The search lines of the first `p` roots are the first `3p` search lines. */
  lemma {:induction false} SearchLinesPrefix(roots: seq<string>, p: nat)
    requires p <= |roots|
    ensures SearchLinesFor(roots[..p]) == SearchLinesFor(roots)[..3 * p]
    decreases |roots|
  {
    if p < |roots| {
      assert roots[..|roots| - 1][..p] == roots[..p];
      SearchLinesPrefix(roots[..|roots| - 1], p);
    } else {
      assert roots[..p] == roots;
    }
  }

  /** The number of variables that are set, i.e. for which `env::var` is `Ok`. */
  function NumSet(env: Env): nat {
    (if Lookup(env, "CUDA_HOME").Set? then 1 else 0) +
    (if Lookup(env, "CUDA_PATH").Set? then 1 else 0) +
    (if Lookup(env, "CUDA_ROOT").Set? then 1 else 0)
  }

  lemma SetRootsCount(env: Env)
    ensures |SetRoots(env, CudaVars)| == NumSet(env)
  {
    var one, two := CudaVars[..1], CudaVars[..2];
    assert one[..0] == [] && two[..1] == one && CudaVars[..2] == two;
    assert |SetRoots(env, one)| == (if Lookup(env, "CUDA_HOME").Set? then 1 else 0);
    assert |SetRoots(env, two)| == |SetRoots(env, one)| + (if Lookup(env, "CUDA_PATH").Set? then 1 else 0);
  }

  /** A variable that is set to `v` contributes exactly the lines for `v`,
      after the lines of every set variable checked before it. */
  lemma SetVarLines(env: Env, i: nat)
    requires i < |CudaVars| && Lookup(env, CudaVars[i]).Set?
    ensures var p := |SetRoots(env, CudaVars[..i])|;
      3 * p + 3 <= |Directives(env)| &&
      Directives(env)[3 * p..3 * p + 3] == RootSearchLines(Lookup(env, CudaVars[i]).value)
  {
    var v := Lookup(env, CudaVars[i]).value;
    var roots := SetRoots(env, CudaVars);
    var p := |SetRoots(env, CudaVars[..i])|;
    SetRootsNext(env, i);
    SetRootsPrefix(env, CudaVars, i + 1);
    assert roots[..p + 1] == SetRoots(env, CudaVars[..i + 1]);
    assert roots[p] == v;
    var all := roots + [DefaultRoot];
    assert all[p] == v;
    var d := Directives(env);
    forall k | 0 <= k < 3 ensures d[3 * p + k] == RootSearchLines(v)[k] {
      SearchLinesAt(all, p, k);
    }
  }

  /** Unset and non-Unicode variables contribute nothing: only the values of
      the set variables decide the output. */
  lemma {:induction false} OnlySetValuesMatter(env: Env, env': Env, vars: seq<string>)
    requires forall i :: 0 <= i < |vars| ==>
      (Lookup(env, vars[i]).Set? || Lookup(env', vars[i]).Set? ==> Lookup(env, vars[i]) == Lookup(env', vars[i]))
    ensures SetRoots(env, vars) == SetRoots(env', vars)
    decreases |vars|
  {
    if vars != [] {
      OnlySetValuesMatter(env, env', vars[..|vars| - 1]);
    }
  }

  lemma OnlySetValuesMatterForDirectives(env: Env, env': Env)
    requires forall name :: name in CudaVars ==>
      (Lookup(env, name).Set? || Lookup(env', name).Set? ==> Lookup(env, name) == Lookup(env', name))
    ensures Directives(env) == Directives(env')
  {
    OnlySetValuesMatter(env, env', CudaVars);
  }

  /** The output has 3 lines per set variable, 3 conventional ones, one
      link-lib line and 3 rerun triggers; the conventional lines come after
      every environment-derived line, the rerun triggers come last. */
  lemma DirectivesOrder(env: Env)
    ensures var n := NumSet(env); var d := Directives(env);
      && |d| == 3 * n + 7
      && d[3 * n..3 * n + 3] == RootSearchLines(DefaultRoot)
      && d[3 * n + 3] == LinkLibLine
      && d[3 * n + 4..] == RerunLines()
  {
    SetRootsCount(env);
    var n := NumSet(env);
    var all := SetRoots(env, CudaVars) + [DefaultRoot];
    var d := Directives(env);
    forall k | 0 <= k < 3 ensures d[3 * n + k] == RootSearchLines(DefaultRoot)[k] {
      SearchLinesAt(all, n, k);
    }
  }

  /** The first 3n+3 lines, and only those, are search-path directives. */
  lemma SearchLinesComeFirst(env: Env)
    ensures var n := NumSet(env); var d := Directives(env);
      forall i :: 0 <= i < |d| ==> (StartsWith(d[i], SearchPrefix) <==> i < 3 * n + 3)
  {
    SetRootsCount(env);
    SearchLinesAreSearches(SetRoots(env, CudaVars) + [DefaultRoot]);
    var d := Directives(env);
    var n := NumSet(env);
    assert !StartsWith(LinkLibLine, SearchPrefix);
    forall k | 0 <= k < 3 ensures !StartsWith(RerunLines()[k], SearchPrefix) {
      assert RerunLines()[k][7] == 'e' && SearchPrefix[7] == 'u';
    }
    assert d[3 * n + 3..] == [LinkLibLine] + RerunLines();
  }

  /** Exactly one line links the profiling library. */
  lemma LinkLibOnce(env: Env)
    ensures var n := NumSet(env); var d := Directives(env);
      forall i :: 0 <= i < |d| ==> (d[i] == LinkLibLine <==> i == 3 * n + 3)
  {
    SearchLinesComeFirst(env);
    DirectivesOrder(env);
    assert StartsWith(LinkLibLine, SearchPrefix) == false;
    forall k | 0 <= k < 3 ensures RerunLines()[k] != LinkLibLine {
      assert RerunLines()[k][7] == 'e' && LinkLibLine[7] == 'u';
    }
  }

  // ---------------------------------------------------------------------
  // Lines as cargo reads them
  // ---------------------------------------------------------------------

  /** Every root `SetRoots` collects is the value of a set variable. */
  lemma {:induction false} SetRootsAreValues(env: Env, vars: seq<string>)
    ensures forall r :: r in SetRoots(env, vars) ==>
      exists i :: 0 <= i < |vars| && Lookup(env, vars[i]) == Set(r)
    decreases |vars|
  {
    if vars != [] {
      var front := vars[..|vars| - 1];
      SetRootsAreValues(env, front);
      forall r | r in SetRoots(env, vars)
        ensures exists i :: 0 <= i < |vars| && Lookup(env, vars[i]) == Set(r)
      {
        if r in SetRoots(env, front) {
          var i :| 0 <= i < |front| && Lookup(env, front[i]) == Set(r);
          assert vars[i] == front[i];
        } else {
          assert Lookup(env, vars[|vars| - 1]) == Set(r);
        }
      }
    }
  }

  /** Search lines for roots without a line feed have none either. */
  lemma {:induction false} SearchLinesForSingleLines(roots: seq<string>)
    requires forall r :: r in roots ==> '\n' !in r
    ensures forall line :: line in SearchLinesFor(roots) ==> '\n' !in line
    decreases |roots|
  {
    if roots != [] {
      var root := roots[|roots| - 1];
      assert root in roots;
      SearchLinesForSingleLines(roots[..|roots| - 1]);
      assert '\n' !in SearchPrefix && '\n' !in Lib64 && '\n' !in Lib && '\n' !in MultiarchLib;
      assert SearchLine(root + Lib64) == SearchPrefix + root + Lib64;
    }
  }

  /** With no line feed in any set value, no directive holds one. */
  lemma SingleLineValues(env: Env)
    requires forall name :: name in CudaVars && Lookup(env, name).Set? ==> '\n' !in Lookup(env, name).value
    ensures forall i :: 0 <= i < |Directives(env)| ==> '\n' !in Directives(env)[i]
  {
    var d := Directives(env);
    var roots := SetRoots(env, CudaVars) + [DefaultRoot];
    SetRootsAreValues(env, CudaVars);
    forall r | r in roots ensures '\n' !in r {
      if r in SetRoots(env, CudaVars) {
        var i :| 0 <= i < |CudaVars| && Lookup(env, CudaVars[i]) == Set(r);
        assert CudaVars[i] in CudaVars;
      }
    }
    SearchLinesForSingleLines(roots);
    FixedLinesSingle();
    forall i | 0 <= i < |d| ensures '\n' !in d[i] {
      if i < |SearchLines(env)| {
        assert d[i] in SearchLinesFor(roots);
      } else {
        assert d[i] in [LinkLibLine] + RerunLines();
      }
    }
  }

  /** The link-lib line and the rerun triggers hold no line feed. */
  lemma FixedLinesSingle()
    ensures forall line :: line in [LinkLibLine] + RerunLines() ==> '\n' !in line
  {
  }

  /** A line feed in the value of the `i`-th variable reaches the first
      search line printed for it. */
  lemma LineFeedInValue(env: Env, i: nat)
    requires i < |CudaVars| && Lookup(env, CudaVars[i]).Set? && '\n' in Lookup(env, CudaVars[i]).value
    ensures '\n' in Directives(env)[3 * |SetRoots(env, CudaVars[..i])|]
  {
    var v := Lookup(env, CudaVars[i]).value;
    SetVarLines(env, i);
    var p := |SetRoots(env, CudaVars[..i])|;
    var d := Directives(env);
    assert d[3 * p] == d[3 * p..3 * p + 3][0];
    assert d[3 * p] == SearchPrefix + (v + Lib64);
  }

  /** `println!` prints each directive as one line exactly when no checked
      variable is set to a value holding a line feed; otherwise cargo reads
      the pieces of that value's search lines as separate lines. */
  lemma DirectivesAreSingleLines(env: Env)
    ensures (forall i :: 0 <= i < |Directives(env)| ==> '\n' !in Directives(env)[i])
      <==> (forall name :: name in CudaVars && Lookup(env, name).Set? ==> '\n' !in Lookup(env, name).value)
  {
    if !forall name :: name in CudaVars && Lookup(env, name).Set? ==> '\n' !in Lookup(env, name).value {
      var name :| name in CudaVars && Lookup(env, name).Set? && '\n' in Lookup(env, name).value;
      var i :| 0 <= i < |CudaVars| && CudaVars[i] == name;
      LineFeedInValue(env, i);
    } else {
      SingleLineValues(env);
    }
  }
}
