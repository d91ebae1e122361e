/** The `coverage` condition's construction and the placeholder condition
    that explains why a condition could not be built. */
module CoverageCondition {
  import opened Types

  /** The explanation a coverage condition gives when it is reached. */
  function ReachedText(p: string): (t: string)
    ensures |t| >= 16 && t[..9] == "coverage " && t[|t| - 7..] == "reached"
  {
    if p == "" then "coverage reached" else "coverage " + p + " reached"
  }

  /** The coverage specification named by a ReachedText explanation. */
  function ReachedParam(t: string): string
  {
    if |t| > 16 then t[9..|t| - 8] else ""
  }

  /** The explanation names exactly the specification it was built from. */
  lemma ReachedTextRoundTrip(p: string)
    ensures ReachedParam(ReachedText(p)) == p
  {
    if p != "" {
      var t := ReachedText(p);
      assert t == "coverage " + p + " reached";
      assert |t| == 17 + |p|;
      assert t[9..|t| - 8] == p;
    }
  }

  /** A `coverage` condition. `coverage` is what the coverage factory built
      from the option (None when it built nothing); `registered` records
      that the engine was handed to the run configuration for scoring. */
  class CoverageCondition {
    var verdict: Verdict
    var param: string
    var status: bool
    var errormsg: string
    var er: string
    var cconst: bool
    var coverage: Option<BuiltCoverage>
    ghost var registered: bool

    /** The explanation always names the option; an unbuildable coverage
        or one that reports an error leaves the condition invalid with a
        diagnostic; a working constant-threshold coverage is kept for
        direct reading, any other working coverage is registered. */
    constructor (v: Verdict, p: string, built: Option<BuiltCoverage>)
      ensures verdict == v && param == p && coverage == built
      ensures er == ReachedText(p)
      ensures built.None? ==>
        !status && errormsg == p + " not valid coverage" && !cconst && !registered
      ensures built.Some? && !built.value.status ==>
        !status && errormsg == built.value.errormsg && !cconst && !registered
      ensures built.Some? && built.value.status ==>
        status && errormsg == "" && cconst == built.value.isConst && registered == !built.value.isConst
    {
      verdict := v;
      param := p;
      errormsg := "";
      if p == "" {
        er := "coverage reached";
      } else {
        er := "coverage " + p + " reached";
      }
      status := true;
      cconst := false;
      registered := false;
      coverage := built;
      if built.None? {
        status := false;
        errormsg := p + " not valid coverage";
      } else {
        if built.value.status {
          if built.value.isConst {
            cconst := true;
          } else {
            cconst := false;
            registered := true;
          }
        } else {
          status := false;
          errormsg := built.value.errormsg;
        }
      }
    }
  }

  /** The diagnostic of a placeholder condition that failed to build: why
      its coverage could not be used. */
  function Diagnostic(param: string, c: Option<CoverageHandle>): (s: string)
    ensures s != ""
  {
    if c.None? then "Can't create coverage " + param
    else if !c.value.status then "Coverage error " + c.value.errormsg
    else "????"
  }

  /** Equal diagnostics have the same cause: a missing coverage with the
      same option, or a failing coverage with the same message. */
  lemma DiagnosticIdentifiesCause(p1: string, c1: Option<CoverageHandle>, p2: string, c2: Option<CoverageHandle>)
    requires Diagnostic(p1, c1) == Diagnostic(p2, c2)
    ensures c1.None? <==> c2.None?
    ensures c1.None? ==> p1 == p2
    ensures c1.Some? && c2.Some? ==> (c1.value.status <==> c2.value.status)
    ensures c1.Some? && c2.Some? && !c1.value.status ==> c1.value.errormsg == c2.value.errormsg
  {
    var s1, s2 := Diagnostic(p1, c1), Diagnostic(p2, c2);
    assert s1[0] == s2[0] && s1[1] == s2[1];
    if c1.None? && c2.None? {
      assert p1 == s1[22..] && p2 == s2[22..];
    }
    if c1.Some? && c2.Some? && !c1.value.status && !c2.value.status {
      assert c1.value.errormsg == s1[15..] && c2.value.errormsg == s2[15..];
    }
  }

  /** The placeholder condition; it never matches and only explains. */
  class DummyCondition {
    var verdict: Verdict
    var param: string
    var status: bool
    var errormsg: string
    var coverage: Option<CoverageHandle>

    /** A valid placeholder reports its message; an invalid one always
        has a non-empty diagnostic. */
    function Stringify(): (s: string)
      reads this
      ensures status ==> s == errormsg
      ensures !status ==> s != ""
    {
      if !status then Diagnostic(param, coverage) else errormsg
    }
  }
}
