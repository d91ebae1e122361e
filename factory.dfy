/** The end-condition factory and `new_end_condition`: a table from
    condition names to variants, tried first on the `name(option)` reading
    of a specification and then on the deprecated `name:option` reading. */
module Factory {
  import opened Types
  import opened Helper

  /** The variants the factory can build. `tag`/`statetag` build the same
      variant, and so do `noprogress`/`no_progress`. */
  datatype Kind = Steps | Coverage | Tag | Duration | NoProgress | Deadlock | TagVerify

  /** The creator registrations, name by name. */
  const Registry: map<string, Kind> := map[
    "steps" := Steps,
    "coverage" := Coverage,
    "tag" := Tag,
    "statetag" := Tag,
    "duration" := Duration,
    "noprogress" := NoProgress,
    "no_progress" := NoProgress,
    "deadlock" := Deadlock,
    "failing_tag" := TagVerify
  ]

  /** A condition the factory built: its verdict, variant and the option
      string handed to the variant's constructor. */
  datatype Created = Created(verdict: Verdict, kind: Kind, param: string)

  /** What `new_end_condition` returns: the condition, and whether it was
      reached through the deprecated syntax (which prints a notice). */
  datatype Outcome = Outcome(cond: Created, deprecated: bool)

  /** The factory's create: the registered variant for `name`, or nothing. */
  function Create(v: Verdict, name: string, params: string): (r: Option<Created>)
    ensures r.Some? <==> name in Registry
    ensures r.Some? ==> r.value.verdict == v && r.value.param == params
  {
    if name in Registry then Some(Created(v, Registry[name], params)) else None
  }

  /** The factory accepts exactly the nine registered names. */
  lemma CreateAcceptsRegisteredNames(v: Verdict, name: string, params: string)
    ensures Create(v, name, params).Some? <==>
      name in {"steps", "coverage", "tag", "statetag", "duration",
               "noprogress", "no_progress", "deadlock", "failing_tag"}
  {
  }

  /** `tag` and `statetag` are synonyms, and so are `noprogress` and
      `no_progress`; every other registered name has a variant of its own. */
  lemma CreateSynonyms(v: Verdict, params: string)
    ensures forall n, m :: n in Registry && m in Registry && n != m && Registry[n] == Registry[m] ==>
      Registry[n] == Tag || Registry[n] == NoProgress
    ensures Create(v, "tag", params) == Create(v, "statetag", params)
    ensures Create(v, "noprogress", params) == Create(v, "no_progress", params)
    ensures forall n :: n in Registry && Registry[n] == Tag ==> n == "tag" || n == "statetag"
    ensures forall n :: n in Registry && Registry[n] == NoProgress ==> n == "noprogress" || n == "no_progress"
  {
  }

  /** No registered name contains `(` or `:`. */
  lemma RegisteredNamesArePlain(n: string)
    requires n in Registry
    ensures '(' !in n && ':' !in n
  {
  }

  /** new_end_condition: the `name(option)` split first; only when the
      factory refuses that name, the deprecated `name:option` split. */
  method NewEndCondition(v: Verdict, s: string) returns (r: Option<Outcome>)
    ensures ParamCut(s).0 in Registry ==>
      r == Some(Outcome(Created(v, Registry[ParamCut(s).0], ParamCut(s).1), false))
    ensures ParamCut(s).0 !in Registry && Split(s).0 in Registry ==>
      r == Some(Outcome(Created(v, Registry[Split(s).0], Split(s).1), true))
    ensures r.None? <==> ParamCut(s).0 !in Registry && Split(s).0 !in Registry
  {
    var modern := ParamCut(s);
    var ret := Create(v, modern.0, modern.1);
    if ret.Some? {
      return Some(Outcome(ret.value, false));
    }
    // the deprecated syntax
    var legacy := Split(s);
    ret := Create(v, legacy.0, legacy.1);
    if ret.Some? {
      return Some(Outcome(ret.value, true));
    }
    return None;
  }

  /** A specification in the deprecated syntax builds the same condition as
      the same name and option in the modern syntax; only the deprecated
      one is flagged. */
  method SyntaxEquivalence(v: Verdict, name: string, option: string)
    returns (modern: Option<Outcome>, legacy: Option<Outcome>)
    requires name in Registry
    ensures modern == Some(Outcome(Created(v, Registry[name], option), false))
    ensures legacy == Some(Outcome(Created(v, Registry[name], option), true))
  {
    RegisteredNamesArePlain(name);
    ParamCutModernForm(name, option);
    modern := NewEndCondition(v, ModernForm(name, option));
    var s := name + ":" + option;
    assert s == name + [':'] + option;
    assert s[|name|] == ':';
    // whatever `param_cut` takes as the name keeps the `:`, so the factory
    // refuses it
    var p := FirstIndex(s, '(');
    if p < |s| {
      assert forall i :: 0 <= i < |name| ==> s[i] == name[i];
      assert p > |name|;
      assert ParamCut(s).0 == s[..p] && s[..p][|name|] == ':';
    }
    if ParamCut(s).0 in Registry {
      RegisteredNamesArePlain(ParamCut(s).0);
    }
    SplitLegacyForm(name, option);
    legacy := NewEndCondition(v, s);
  }

  /** The deprecation notice's modern form re-parses, through the modern
      path alone, to the condition the legacy path built. */
  lemma {:induction false} NoticeFormIsModern(v: Verdict, s: string)
    requires ParamCut(s).0 !in Registry && Split(s).0 in Registry
    ensures var (n, o) := Split(s);
      ParamCut(ModernForm(n, o)) == (n, o) &&
      Create(v, ParamCut(ModernForm(n, o)).0, ParamCut(ModernForm(n, o)).1) == Some(Created(v, Registry[n], o))
  {
    var (n, o) := Split(s);
    RegisteredNamesArePlain(n);
    ParamCutModernForm(n, o);
  }
}
