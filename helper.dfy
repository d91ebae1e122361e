/** The string helpers that end conditions use: splitting `name(option)` and
    `name:option`, comma lists, unquoting, and resolving names to indices.
    Their definitions live outside the modelled file; the bodies below are
    stand-ins. The construction and filter properties assume that the real
    `param_cut` cuts at the first `(` and drops a final `)`, that `split`
    cuts at the first `:`, and that `find` appends to its output list. */
module Helper {

  /** Position of the first occurrence of x in s, or |s| when x is absent. */
  function FirstIndex<T(==)>(s: seq<T>, x: T): (p: nat)
    ensures p <= |s|
    ensures p < |s| <==> x in s
    ensures p < |s| ==> s[p] == x
    ensures forall i :: 0 <= i < p ==> s[i] != x
  {
    if s == [] then 0
    else if s[0] == x then 0
    else 1 + FirstIndex(s[1..], x)
  }

  /** The first occurrence of a separator that the prefix does not contain
      is the one right after the prefix. */
  lemma FirstIndexAfterPrefix<T>(a: seq<T>, x: T, b: seq<T>)
    requires x !in a
    ensures FirstIndex(a + [x] + b, x) == |a|
  {
    var s := a + [x] + b;
    var p := FirstIndex(s, x);
    assert s[|a|] == x;
    assert forall i :: 0 <= i < |a| ==> s[i] == a[i] && a[i] != x;
  }

  /** param_cut: `name(option)` gives (name, option); a string without `(`
      is all name. */
  function ParamCut(s: string): (r: (string, string))
    ensures '(' !in s ==> r == (s, "")
    ensures '(' in s ==> '(' !in r.0 && |r.0| < |s|
  {
    var p := FirstIndex(s, '(');
    if p == |s| then (s, "")
    else if s[|s| - 1] == ')' then (s[..p], s[p + 1..|s| - 1])
    else (s[..p], s[p + 1..])
  }

  /** The modern syntax written out: `name(option)`. */
  function ModernForm(name: string, option: string): string
  {
    name + "(" + option + ")"
  }

  lemma ParamCutModernForm(name: string, option: string)
    requires '(' !in name
    ensures ParamCut(ModernForm(name, option)) == (name, option)
  {
    var s := ModernForm(name, option);
    assert s == name + ['('] + (option + ")");
    FirstIndexAfterPrefix(name, '(', option + ")");
    assert s[|s| - 1] == ')';
    assert s[..|name|] == name;
    assert s[|name| + 1..|s| - 1] == option;
  }

  /** split with the default `:` separator: `name:option` gives
      (name, option); a string without `:` is all name. */
  function Split(s: string): (r: (string, string))
    ensures ':' !in s ==> r == (s, "")
    ensures ':' in s ==> ':' !in r.0 && s == r.0 + ":" + r.1
  {
    var p := FirstIndex(s, ':');
    if p == |s| then (s, "")
    else SplitAround(s, p); (s[..p], s[p + 1..])
  }

  lemma SplitLegacyForm(name: string, option: string)
    requires ':' !in name
    ensures Split(name + ":" + option) == (name, option)
  {
    var s := name + ":" + option;
    assert s == name + [':'] + option;
    FirstIndexAfterPrefix(name, ':', option);
    assert s[..|name|] == name;
    assert s[|name| + 1..] == option;
  }

  /** The comma-separated pieces of s, empty pieces included. */
  function Pieces(s: string): (r: seq<string>)
    ensures |r| >= 1
    ensures forall i :: 0 <= i < |r| ==> ',' !in r[i]
    decreases |s|
  {
    var p := FirstIndex(s, ',');
    if p == |s| then [s] else [s[..p]] + Pieces(s[p + 1..])
  }

  /** Pieces joined back with commas. */
  function JoinCommas(parts: seq<string>): string
  {
    if parts == [] then ""
    else if |parts| == 1 then parts[0]
    else parts[0] + "," + JoinCommas(parts[1..])
  }

  lemma JoinCommasCons(head: string, tail: seq<string>)
    requires |tail| >= 1
    ensures JoinCommas([head] + tail) == head + "," + JoinCommas(tail)
  {
    var parts := [head] + tail;
    assert parts[0] == head && parts[1..] == tail;
  }

  /** A string is what precedes position p, its character there, and what follows. */
  lemma SplitAround(s: string, p: nat)
    requires p < |s|
    ensures s == s[..p] + [s[p]] + s[p + 1..]
  {
    assert s[..p] + [s[p]] + s[p + 1..] == s[..p] + s[p..];
  }

  lemma {:induction false} PiecesJoin(s: string)
    ensures JoinCommas(Pieces(s)) == s
    decreases |s|
  {
    var p := FirstIndex(s, ',');
    if p < |s| {
      var head, rest := s[..p], s[p + 1..];
      PiecesJoin(rest);
      JoinCommasCons(head, Pieces(rest));
      SplitAround(s, p);
    }
  }

  /** commalist: the comma list of an option string; the empty option is
      the empty list. */
  function CommaList(s: string): (r: seq<string>)
    ensures s == "" <==> r == []
    ensures s != "" ==> JoinCommas(r) == s
    ensures forall i :: 0 <= i < |r| ==> ',' !in r[i]
  {
    if s == "" then [] else PiecesJoin(s); Pieces(s)
  }

  /** One name with a pair of enclosing double quotes removed. */
  function Unquote(x: string): (r: string)
    ensures |r| <= |x|
    ensures !(|x| >= 2 && x[0] == '"' && x[|x| - 1] == '"') ==> r == x
  {
    if |x| >= 2 && x[0] == '"' && x[|x| - 1] == '"' then x[1..|x| - 1] else x
  }

  /** strlist: every name of the list unquoted, in place. */
  function StrList(f: seq<string>): (r: seq<string>)
    ensures |r| == |f|
    ensures forall i :: 0 <= i < |f| ==> r[i] == Unquote(f[i])
  {
    seq(|f|, i requires 0 <= i < |f| => Unquote(f[i]))
  }

  /** find: the index in `tags` of every name of `names` that occurs there
      (its first occurrence), in the order of `names`; names that are not
      tags contribute nothing. */
  function Find(tags: seq<string>, names: seq<string>): (r: seq<int>)
    ensures |r| <= |names|
    ensures forall k :: 0 <= k < |r| ==> 0 <= r[k] < |tags| && tags[r[k]] in names
    ensures forall n :: n in names && n in tags ==> FirstIndex(tags, n) in r
  {
    if names == [] then []
    else
      var i := FirstIndex(tags, names[0]);
      var rest := Find(tags, names[1..]);
      assert forall n :: n in names ==> n == names[0] || n in names[1..];
      if i < |tags| then [i] + rest else rest
  }

  /** With distinct tag names, an index is found exactly when its tag is
      named. */
  lemma FindDistinct(tags: seq<string>, names: seq<string>, i: int)
    requires forall a, b :: 0 <= a < b < |tags| ==> tags[a] != tags[b]
    requires 0 <= i < |tags|
    ensures i in Find(tags, names) <==> tags[i] in names
  {
    var r := Find(tags, names);
    if tags[i] in names {
      var p := FirstIndex(tags, tags[i]);
      assert p == i;
    }
    if i in r {
      var k :| 0 <= k < |r| && r[k] == i;
    }
  }
}
