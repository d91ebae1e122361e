/** The `failing_tag` condition: a filter of tag indices to ignore, built
    from an `include(...)` or `exclude(...)` specification, and a match that
    fails the run on any mismatching tag outside the filter. */
module TagVerify {
  import opened Types
  import opened Helper

  /** The mismatching tags that the filter does not ignore, in mismatch-list
      order. */
  function Offending(mismatch: seq<int>, filter: seq<int>): (r: seq<int>)
    ensures |r| <= |mismatch|
  {
    if mismatch == [] then []
    else
      var init, last := mismatch[..|mismatch| - 1], mismatch[|mismatch| - 1];
      Offending(init, filter) + (if last in filter then [] else [last])
  }

  /** Offending grows by one mismatching tag at a time. */
  lemma OffendingSnoc(mismatch: seq<int>, x: int, filter: seq<int>)
    ensures Offending(mismatch + [x], filter) == Offending(mismatch, filter) + (if x in filter then [] else [x])
  {
    var m := mismatch + [x];
    assert m[..|m| - 1] == mismatch;
  }

  /** A tag offends exactly when it mismatches and the filter does not
      ignore it. */
  lemma {:induction false} OffendingMembers(mismatch: seq<int>, filter: seq<int>, x: int)
    ensures x in Offending(mismatch, filter) <==> x in mismatch && x !in filter
  {
    if mismatch != [] {
      var init, last := mismatch[..|mismatch| - 1], mismatch[|mismatch| - 1];
      OffendingMembers(init, filter, x);
      assert mismatch == init + [last];
    }
  }

  /** Some tag offends exactly when some mismatching tag is not ignored. */
  lemma OffendingNonEmpty(mismatch: seq<int>, filter: seq<int>)
    ensures Offending(mismatch, filter) != [] <==> exists k :: 0 <= k < |mismatch| && mismatch[k] !in filter
  {
    var o := Offending(mismatch, filter);
    if o != [] {
      OffendingMembers(mismatch, filter, o[0]);
      var k :| 0 <= k < |mismatch| && mismatch[k] == o[0];
    }
    if k :| 0 <= k < |mismatch| && mismatch[k] !in filter {
      OffendingMembers(mismatch, filter, mismatch[k]);
    }
  }

  /** With nothing ignored every mismatching tag offends, in order. */
  lemma {:induction false} OffendingEmptyFilter(mismatch: seq<int>)
    ensures Offending(mismatch, []) == mismatch
  {
    if mismatch != [] {
      var init := mismatch[..|mismatch| - 1];
      OffendingEmptyFilter(init);
      assert mismatch == init + [mismatch[|mismatch| - 1]];
    }
  }

  /** Tag indices the names of which the explanation can quote. */
  predicate Named(names: seq<string>, tags: seq<int>)
  {
    forall k :: 0 <= k < |tags| ==> 0 <= tags[k] < |names|
  }

  /** A tag name in double quotes followed by a space. */
  function QuoteName(name: string): string
  {
    "\"" + name + "\" "
  }

  /** Each tag's name quoted, in order. */
  function Quoted(names: seq<string>, tags: seq<int>): (r: string)
    requires Named(names, tags)
    ensures tags == [] <==> r == ""
  {
    if tags == [] then ""
    else
      var init, last := tags[..|tags| - 1], tags[|tags| - 1];
      Quoted(names, init) + QuoteName(names[last])
  }

  lemma QuotedSnoc(names: seq<string>, tags: seq<int>, t: int)
    requires Named(names, tags) && 0 <= t < |names|
    ensures Named(names, tags + [t])
    ensures Quoted(names, tags + [t]) == Quoted(names, tags) + QuoteName(names[t])
  {
    var ext := tags + [t];
    assert ext[..|ext| - 1] == tags;
  }

  /** The explanation a match leaves behind. */
  function Explanation(names: seq<string>, mismatch: seq<int>, filter: seq<int>): (r: string)
    requires Named(names, Offending(mismatch, filter))
  {
    "verifying tags " + Quoted(names, Offending(mismatch, filter)) + "failed."
  }

  /** When every mismatching tag is ignored the explanation names no tag. */
  lemma ExplanationWhenAllIgnored(names: seq<string>, mismatch: seq<int>, filter: seq<int>)
    requires forall k :: 0 <= k < |mismatch| ==> mismatch[k] in filter
    ensures Offending(mismatch, filter) == []
    ensures Explanation(names, mismatch, filter) == "verifying tags failed."
  {
    var o := Offending(mismatch, filter);
    if o != [] {
      OffendingMembers(mismatch, filter, o[0]);
      assert false;
    }
  }

  /** The indices 0..n-1 that are not in `resolved`, ascending. */
  function Complement(n: nat, resolved: seq<int>): (r: seq<int>)
    ensures |r| <= n
  {
    if n == 0 then []
    else Complement(n - 1, resolved) + (if n - 1 in resolved then [] else [n - 1])
  }

  /** The complement lists tag indices in strictly ascending order. */
  lemma {:induction false} ComplementAscending(n: nat, resolved: seq<int>)
    ensures forall k :: 0 <= k < |Complement(n, resolved)| ==> 0 <= Complement(n, resolved)[k] < n
    ensures forall a, b :: 0 <= a < b < |Complement(n, resolved)| ==> Complement(n, resolved)[a] < Complement(n, resolved)[b]
  {
    if n > 0 {
      ComplementAscending(n - 1, resolved);
    }
  }

  /** An index is in the complement exactly when it is below n and not
      resolved. */
  lemma {:induction false} ComplementMembers(n: nat, resolved: seq<int>, x: int)
    ensures x in Complement(n, resolved) <==> 0 <= x < n && x !in resolved
  {
    if n > 0 {
      ComplementMembers(n - 1, resolved, x);
    }
  }

  /** The name of a filter specification. */
  function FilterName(s: string): string
  {
    ParamCut(s).0
  }

  /** The tag indices a filter specification names, in the order named. */
  function Resolved(tags: seq<string>, s: string): (r: seq<int>)
    ensures forall k :: 0 <= k < |r| ==> 0 <= r[k] < |tags|
  {
    Find(tags, StrList(CommaList(ParamCut(s).1)))
  }

  /** With distinct tag names, `include(...)` ignores exactly the tags it
      does not name, and `exclude(...)` exactly those it names. */
  lemma FilterMeaning(tags: seq<string>, s: string, i: int)
    requires forall a, b :: 0 <= a < b < |tags| ==> tags[a] != tags[b]
    requires 0 <= i < |tags|
    ensures i in Complement(|tags|, Resolved(tags, s)) <==> tags[i] !in StrList(CommaList(ParamCut(s).1))
    ensures i in Resolved(tags, s) <==> tags[i] in StrList(CommaList(ParamCut(s).1))
  {
    ComplementMembers(|tags|, Resolved(tags, s), i);
    FindDistinct(tags, StrList(CommaList(ParamCut(s).1)), i);
  }

  /** A `failing_tag` condition: its filter of ignored tag indices and the
      explanation of its last match. */
  class TagVerifyCondition {
    var verdict: Verdict
    var param: string
    var filter: seq<int>
    var er: string

    /** Matches exactly when some mismatching tag is not ignored, and
        explains the match by quoting the name of every such tag, in
        mismatch-list order; ignored tags are never quoted. */
    method Match(h: Heuristic, mismatch: seq<int>) returns (r: bool)
      requires forall k :: 0 <= k < |mismatch| && mismatch[k] !in filter ==> 0 <= mismatch[k] < |h.model.spNames|
      modifies this`er
      ensures Named(h.model.spNames, Offending(mismatch, filter))
      ensures r <==> exists k :: 0 <= k < |mismatch| && mismatch[k] !in filter
      ensures er == Explanation(h.model.spNames, mismatch, filter)
    {
      var names, flt := h.model.spNames, filter;
      var rv := false;
      var text := "";
      var i := 0;
      while i < |mismatch|
        invariant 0 <= i <= |mismatch|
        invariant Named(names, Offending(mismatch[..i], flt))
        invariant text == Quoted(names, Offending(mismatch[..i], flt))
        invariant rv <==> Offending(mismatch[..i], flt) != []
      {
        var before := Offending(mismatch[..i], flt);
        assert mismatch[..i + 1] == mismatch[..i] + [mismatch[i]];
        OffendingSnoc(mismatch[..i], mismatch[i], flt);
        if mismatch[i] !in flt {
          QuotedSnoc(names, before, mismatch[i]);
          text := text + QuoteName(names[mismatch[i]]);
          rv := true;
          assert text == Quoted(names, before + [mismatch[i]]);
          assert Offending(mismatch[..i + 1], flt) == before + [mismatch[i]];
        } else {
          assert Offending(mismatch[..i + 1], flt) == before;
        }
        i := i + 1;
      }
      assert mismatch[..i] == mismatch;
      OffendingNonEmpty(mismatch, flt);
      er := "verifying tags " + text + "failed.";
      r := rv;
    }

    /** evaluate_filter: an empty specification changes nothing and
        succeeds; `include(...)` appends, ascending, every tag index it does
        not name; `exclude(...)` appends the indices it names; any other
        name fails and changes nothing. */
    method EvaluateFilter(tags: seq<string>, s: string) returns (ok: bool)
      modifies this`filter
      ensures s == "" ==> ok && filter == old(filter)
      ensures s != "" && FilterName(s) == "include" ==>
        ok && filter == old(filter) + Complement(|tags|, Resolved(tags, s))
      ensures s != "" && FilterName(s) == "exclude" ==>
        ok && filter == old(filter) + Resolved(tags, s)
      ensures s != "" && FilterName(s) != "include" && FilterName(s) != "exclude" ==>
        !ok && filter == old(filter)
    {
      if s == "" {
        return true;
      }
      var cut := ParamCut(s);
      var f := CommaList(cut.1);
      if cut.0 == "include" {
        var tmp := Find(tags, StrList(f));
        AppendUnresolved(|tags|, tmp);
        return true;
      }
      if cut.0 == "exclude" {
        filter := filter + Find(tags, StrList(f));
        return true;
      }
      return false;
    }

    /** The include loop: push every index below n that is not resolved,
        ascending. */
    method AppendUnresolved(n: nat, tmp: seq<int>)
      modifies this`filter
      ensures filter == old(filter) + Complement(n, tmp)
    {
      var i := 0;
      while i < n
        invariant 0 <= i <= n
        invariant filter == old(filter) + Complement(i, tmp)
      {
        if i !in tmp {
          filter := filter + [i];
        }
        i := i + 1;
      }
    }

    /** The one-argument evaluate_filter: the condition's own option is the
        specification. */
    method EvaluateOwnFilter(tags: seq<string>) returns (ok: bool)
      modifies this`filter
      ensures param == "" ==> ok && filter == old(filter)
      ensures param != "" && FilterName(param) == "include" ==>
        ok && filter == old(filter) + Complement(|tags|, Resolved(tags, param))
      ensures param != "" && FilterName(param) == "exclude" ==>
        ok && filter == old(filter) + Resolved(tags, param)
      ensures param != "" && FilterName(param) != "include" && FilterName(param) != "exclude" ==>
        !ok && filter == old(filter)
    {
      ok := EvaluateFilter(tags, param);
    }
  }

  lemma IncludeACuts()
    ensures ParamCut("include(a)") == ("include", "a")
  {
    ParamCutModernForm("include", "a");
    assert "include(a)" == ModernForm("include", "a");
  }

  lemma IncludeANames()
    ensures StrList(CommaList("a")) == ["a"]
  {
    assert ',' !in "a";
    assert CommaList("a") == ["a"];
  }

  lemma FindA()
    ensures Find(["a", "b", "c"], ["a"]) == [0]
  {
    var tags := ["a", "b", "c"];
    assert FirstIndex(tags, "a") == 0;
    assert Find(tags, ["a"]) == [0] + Find(tags, []);
  }

  lemma ComplementOfFirst()
    ensures Complement(3, [0]) == [1, 2]
  {
    assert Complement(1, [0]) == [];
    assert Complement(2, [0]) == [1];
  }

  /** `include(a)` resolves to the index of a among a, b, c, and so
      ignores b and c. */
  lemma IncludeAResolves()
    ensures FilterName("include(a)") == "include"
    ensures Complement(3, Resolved(["a", "b", "c"], "include(a)")) == [1, 2]
  {
    IncludeACuts();
    IncludeANames();
    FindA();
    ComplementOfFirst();
  }

  lemma ExcludeABCuts()
    ensures ParamCut("exclude(a,b)") == ("exclude", "a,b")
  {
    ParamCutModernForm("exclude", "a,b");
    assert "exclude(a,b)" == ModernForm("exclude", "a,b");
  }

  lemma ExcludeABNames()
    ensures StrList(CommaList("a,b")) == ["a", "b"]
  {
    assert "a,b" == "a" + [','] + "b";
    FirstIndexAfterPrefix("a", ',', "b");
    assert ',' !in "b";
    assert Pieces("b") == ["b"];
    var s := "a,b";
    assert FirstIndex(s, ',') == 1;
    assert s[..1] == "a" && s[2..] == "b";
    assert Pieces(s) == ["a"] + Pieces("b");
  }

  lemma FindAB()
    ensures Find(["a", "b", "c"], ["a", "b"]) == [0, 1]
  {
    var tags := ["a", "b", "c"];
    assert FirstIndex(tags, "a") == 0;
    assert tags == ["a"] + ["b"] + ["c"];
    FirstIndexAfterPrefix(["a"], "b", ["c"]);
    assert Find(tags, ["b"]) == [1] + Find(tags, []);
    assert ["a", "b"][1..] == ["b"];
    assert Find(tags, ["a", "b"]) == [0] + Find(tags, ["b"]);
  }

  /** `exclude(a,b)` resolves to the indices of a and b among a, b, c. */
  lemma ExcludeABResolves()
    ensures FilterName("exclude(a,b)") == "exclude"
    ensures Resolved(["a", "b", "c"], "exclude(a,b)") == [0, 1]
  {
    ExcludeABCuts();
    ExcludeABNames();
    FindAB();
  }

  /** With a and b ignored, a mismatch of b and c quotes c alone. */
  lemma ExcludeABExplanation()
    ensures Named(["a", "b", "c"], Offending([1, 2], [0, 1]))
    ensures Explanation(["a", "b", "c"], [1, 2], [0, 1]) == "verifying tags \"c\" failed."
  {
    OffendingSnoc([1], 2, [0, 1]);
    OffendingSnoc([], 1, [0, 1]);
    assert [1] + [2] == [1, 2];
    assert Offending([1, 2], [0, 1]) == [2];
    QuotedSnoc(["a", "b", "c"], [], 2);
    assert Quoted(["a", "b", "c"], [2]) == QuoteName("c");
  }

  /** `include(a)` over the tags a, b, c ignores b and c. */
  method IncludeExample() returns (ok: bool, filter: seq<int>)
    ensures ok && filter == [1, 2]
  {
    var c := new TagVerifyCondition;
    c.filter := [];
    IncludeAResolves();
    ok := c.EvaluateFilter(["a", "b", "c"], "include(a)");
    filter := c.filter;
  }
}
