/**
 * Path handling of `MockResource._update_file_paths` (mock.py:156-167): Python's `str.replace`,
 * the substitution loop over the captured path parameters, `posixpath.join`, and the two
 * storage keys built from them.
 */
module Paths {

  import opened Wrappers
  import opened Methods

  /** `pat` starts at index `i` of `s`. */
  predicate OccursAt(s: string, pat: string, i: int)
  {
    0 <= i && i + |pat| <= |s| && s[i..i + |pat|] == pat
  }

  predicate Occurs(s: string, pat: string)
  {
    exists i | 0 <= i <= |s| :: OccursAt(s, pat, i)
  }

  /** Python's `s.replace(pat, rep)` for a non-empty `pat`: scans left to right and replaces
   *  every non-overlapping occurrence. */
  function ReplaceAll(s: string, pat: string, rep: string): string
    requires |pat| > 0
    decreases |s|
  {
    if |s| < |pat| then s
    else if s[..|pat|] == pat then rep + ReplaceAll(s[|pat|..], pat, rep)
    else [s[0]] + ReplaceAll(s[1..], pat, rep)
  }

  /** The pieces of `parts` glued together with `sep` in between (Python's `sep.join(parts)`). */
  function JoinWith(parts: seq<string>, sep: string): string
    requires |parts| > 0
  {
    if |parts| == 1 then parts[0] else parts[0] + sep + JoinWith(parts[1..], sep)
  }

  /** The first character of `pat` does not occur again in it, as `<` in `<name>` when the name
   *  holds no `<`. No occurrence of such a pattern can overlap the start of another. */
  predicate Unbordered(pat: string)
  {
    |pat| > 0 && forall j :: 0 < j < |pat| ==> pat[j] != pat[0]
  }

  /** A string without the pattern comes out of `replace` unchanged. */
  lemma {:induction false} ReplaceAllNoOccurrence(s: string, pat: string, rep: string)
    requires |pat| > 0 && !Occurs(s, pat)
    ensures ReplaceAll(s, pat, rep) == s
    decreases |s|
  {
    if |s| >= |pat| {
      assert !OccursAt(s, pat, 0);
      assert !Occurs(s[1..], pat) by {
        forall i | OccursAt(s[1..], pat, i) ensures OccursAt(s, pat, i + 1) {
          assert s[1..][i..i + |pat|] == s[i + 1..i + 1 + |pat|];
        }
      }
      ReplaceAllNoOccurrence(s[1..], pat, rep);
      assert s == [s[0]] + s[1..];
    }
  }

  /** A text free of an unbordered pattern, followed by the pattern, does not start with it. */
  lemma NoMatchBefore(p: string, pat: string, rest: string)
    requires Unbordered(pat) && !Occurs(p, pat) && p != []
    ensures |p + pat + rest| >= |pat| && (p + pat + rest)[..|pat|] != pat
  {
    var s := p + pat + rest;
    if |p| >= |pat| {
      assert s[..|pat|] == p[..|pat|];
      assert !OccursAt(p, pat, 0);
    } else {
      assert s[|p|] == pat[0];
      assert s[..|pat|][|p|] != pat[|p|];
    }
  }

  /** Dropping the first character keeps a text free of the pattern. */
  lemma NoOccurrenceTail(p: string, pat: string)
    requires !Occurs(p, pat) && p != []
    ensures !Occurs(p[1..], pat)
  {
    forall i | 0 <= i <= |p[1..]| ensures !OccursAt(p[1..], pat, i) {
      if OccursAt(p[1..], pat, i) {
        assert p[1..][i..i + |pat|] == p[i + 1..i + 1 + |pat|];
        assert OccursAt(p, pat, i + 1);
      }
    }
  }

  /** Where no occurrence starts at the front, `replace` copies the first character. */
  lemma ReplaceAllCopiesHead(s: string, pat: string, rep: string)
    requires |pat| > 0 && |s| >= |pat| && s[..|pat|] != pat
    ensures ReplaceAll(s, pat, rep) == [s[0]] + ReplaceAll(s[1..], pat, rep)
  {
  }

  /** The first character of a concatenation, and what follows it. */
  lemma TailOfConcat(p: string, rest: string)
    requires p != []
    ensures (p + rest)[0] == p[0] && (p + rest)[1..] == p[1..] + rest
  {
  }

  /** Text free of the pattern, then the pattern: the text is kept and the pattern replaced. */
  lemma {:induction false} ReplaceAllAfterText(p: string, pat: string, rep: string, rest: string)
    requires Unbordered(pat) && !Occurs(p, pat)
    ensures ReplaceAll(p + pat + rest, pat, rep) == p + rep + ReplaceAll(rest, pat, rep)
    decreases |p|
  {
    if p == [] {
      assert p + pat + rest == pat + rest;
      ReplaceAllAtFront(pat, rep, rest);
    } else {
      var s, tail, done := p + pat + rest, p[1..] + pat + rest, ReplaceAll(rest, pat, rep);
      NoMatchBefore(p, pat, rest);
      ReplaceAllCopiesHead(s, pat, rep);
      TailOfConcat(p, pat + rest);
      assert s[1..] == tail && s[0] == p[0];
      NoOccurrenceTail(p, pat);
      ReplaceAllAfterText(p[1..], pat, rep, rest);
      Regroup(p, rep, done);
    }
  }

  /** A string that starts with the pattern: the pattern is replaced and the scan goes on after it. */
  lemma ReplaceAllAtFront(pat: string, rep: string, rest: string)
    requires |pat| > 0
    ensures ReplaceAll(pat + rest, pat, rep) == rep + ReplaceAll(rest, pat, rep)
  {
    assert (pat + rest)[..|pat|] == pat && (pat + rest)[|pat|..] == rest;
  }

  /** Putting the first character back in front of the rest of a text. */
  lemma Regroup(p: string, mid: string, last: string)
    requires p != []
    ensures [p[0]] + (p[1..] + mid + last) == p + mid + last
  {
    assert [p[0]] + p[1..] == p;
  }

  /** `replace` is exactly "split on the pattern, join with the replacement": every occurrence
   *  is replaced and the text between occurrences is kept. */
  lemma {:induction false} ReplaceAllJoin(parts: seq<string>, pat: string, rep: string)
    requires |parts| > 0 && Unbordered(pat)
    requires forall i :: 0 <= i < |parts| ==> !Occurs(parts[i], pat)
    ensures ReplaceAll(JoinWith(parts, pat), pat, rep) == JoinWith(parts, rep)
  {
    if |parts| == 1 {
      ReplaceAllNoOccurrence(parts[0], pat, rep);
    } else {
      ReplaceAllJoin(parts[1..], pat, rep);
      assert !Occurs(parts[0], pat);
      ReplaceAllAfterText(parts[0], pat, rep, JoinWith(parts[1..], pat));
    }
  }

  /** A captured path parameter: the keyword argument's name and its string value. */
  type Param = (string, string)

  /** The router's reserved names start with a double underscore. */
  predicate Reserved(name: string)
  {
    |name| >= 2 && name[..2] == "__"
  }

  /** `'<%s>' % key` */
  function Placeholder(name: string): (p: string)
    ensures |p| == |name| + 2 && p[0] == '<' && p[|p| - 1] == '>'
  {
    "<" + name + ">"
  }

  /** What a placeholder is replaced with: the name itself for a reserved name, the captured
   *  value otherwise. */
  function Replacement(param: Param): string
  {
    if Reserved(param.0) then param.0 else param.1
  }

  /** One pass of the loop body of `_update_file_paths`. */
  function Substitute(path: string, param: Param): string
  {
    ReplaceAll(path, Placeholder(param.0), Replacement(param))
  }

  /** The endpoint path after the loop has run over `params` in order. */
  function ResolvePath(template: string, params: seq<Param>): string
  {
    if params == [] then template
    else Substitute(ResolvePath(template, params[..|params| - 1]), params[|params| - 1])
  }

  /** The loop of `_update_file_paths`: rewrites the endpoint path once per captured parameter. */
  method ResolveEndpointPath(template: string, params: seq<Param>) returns (path: string)
    ensures path == ResolvePath(template, params)
  {
    path := template;
    var i := 0;
    while i < |params|
      invariant 0 <= i <= |params|
      invariant path == ResolvePath(template, params[..i])
    {
      var (key, value) := params[i];
      var pathKey := "<" + key + ">";
      if |key| >= 2 && key[..2] == "__" {
        path := ReplaceAll(path, pathKey, key);
      } else {
        path := ReplaceAll(path, pathKey, value);
      }
      assert params[..i + 1][..i] == params[..i];
      i := i + 1;
    }
    assert params[..|params|] == params;
  }

  /** Every placeholder starts with `<`, so a template without `<` has none. */
  lemma NoAngleNoPlaceholder(s: string, name: string)
    requires '<' !in s
    ensures !Occurs(s, Placeholder(name))
  {
  }

  /** A template without placeholders comes out unchanged, whatever was captured. */
  lemma {:induction false} ResolveWithoutPlaceholders(template: string, params: seq<Param>)
    requires '<' !in template
    ensures ResolvePath(template, params) == template
  {
    if params != [] {
      ResolveWithoutPlaceholders(template, params[..|params| - 1]);
      NoAngleNoPlaceholder(template, params[|params| - 1].0);
      ReplaceAllNoOccurrence(template, Placeholder(params[|params| - 1].0),
                             Replacement(params[|params| - 1]));
    }
  }

  /** A reserved parameter's captured value never matters: any other value gives the same path. */
  lemma {:induction false} ReservedValueIgnored(template: string, params: seq<Param>, i: nat, other: string)
    requires i < |params| && Reserved(params[i].0)
    ensures ResolvePath(template, params[i := (params[i].0, other)]) == ResolvePath(template, params)
  {
    var params' := params[i := (params[i].0, other)];
    var n := |params| - 1;
    if i < n {
      assert params'[..n] == params[..n][i := (params[i].0, other)];
      ReservedValueIgnored(template, params[..n], i, other);
    } else {
      assert params'[..n] == params[..n];
    }
  }

  /** For one parameter with a `<`-free name, every occurrence of its placeholder in the
   *  template is replaced: by the name for a reserved name, by the captured value otherwise. */
  lemma ResolveOneParameter(parts: seq<string>, name: string, value: string)
    requires |parts| > 0 && '<' !in name
    requires forall i :: 0 <= i < |parts| ==> !Occurs(parts[i], Placeholder(name))
    ensures Reserved(name) ==>
      ResolvePath(JoinWith(parts, Placeholder(name)), [(name, value)]) == JoinWith(parts, name)
    ensures !Reserved(name) ==>
      ResolvePath(JoinWith(parts, Placeholder(name)), [(name, value)]) == JoinWith(parts, value)
  {
    var pat := Placeholder(name);
    assert Unbordered(pat) by {
      forall j | 0 < j < |pat| ensures pat[j] != pat[0] {
        if j < |pat| - 1 { assert pat[j] == name[j - 1]; }
      }
    }
    ReplaceAllJoin(parts, pat, Replacement((name, value)));
  }

  /** Each pass works on the path the earlier passes left, so a captured value that spells a
   *  later parameter's placeholder is substituted too: `users/<a>/<b>` with `a` captured as
   *  `<b>` and `b` as `x` resolves to `users/x/x`. */
  lemma ValueInjected(template: string, params: seq<Param>)
    requires template == "users/<a>/<b>" && params == [("a", "<b>"), ("b", "x")]
    ensures ResolvePath(template, params) == "users/x/x"
  {
    var a, b := Placeholder("a"), Placeholder("b");
    assert a == "<a>" && b == "<b>";
    var first := ["users/", "/<b>"];
    assert !Occurs(first[1], a) by {
      forall i | 0 <= i <= |first[1]| ensures !OccursAt(first[1], a, i) {
        assert i == 0 || i == 1 || i + |a| > |first[1]|;
        if i == 0 { assert first[1][0] != a[0]; }
        if i == 1 { assert first[1][2] != a[1]; }
      }
    }
    NoAngleNoPlaceholder(first[0], "a");
    assert JoinWith(first, a) == template;
    ResolveOneParameter(first, "a", "<b>");
    var mid := JoinWith(first, "<b>");
    var second := ["users/", "/", ""];
    NoAngleNoPlaceholder(second[0], "b");
    NoAngleNoPlaceholder(second[1], "b");
    NoAngleNoPlaceholder(second[2], "b");
    assert mid == JoinWith(second, b);
    ResolveOneParameter(second, "b", "x");
    assert JoinWith(second, "x") == "users/x/x";
    assert params[..1] == [params[0]];
    calc {
      ResolvePath(template, params);
      Substitute(ResolvePath(template, [params[0]]), params[1]);
      Substitute(mid, params[1]);
      ResolvePath(mid, [params[1]]);
    }
  }

  /** A template read as what it is made of: literal text and `<name>` placeholders. */
  datatype Segment = Literal(text: string) | Hole(name: string)

  /** A placeholder or parameter name as the router produces them: no angle brackets. */
  predicate PlainName(name: string)
  {
    '<' !in name && '>' !in name
  }

  /** Literal text holds no `<`, and every placeholder has a plain name. */
  predicate WellFormed(segs: seq<Segment>)
  {
    forall i :: 0 <= i < |segs| ==>
      if segs[i].Literal? then '<' !in segs[i].text else PlainName(segs[i].name)
  }

  /** Captured parameters as keyword arguments give them: distinct plain names, and here values
   *  without `<`. */
  predicate PlainParams(params: seq<Param>)
  {
    && (forall i :: 0 <= i < |params| ==> PlainName(params[i].0) && '<' !in params[i].1)
    && (forall i, j :: 0 <= i < j < |params| ==> params[i].0 != params[j].0)
  }

  /** The parameter captured under `name`, if any. */
  function Captured(params: seq<Param>, name: string): (r: Option<Param>)
    ensures r.Some? ==> r.value in params && r.value.0 == name
    ensures r.None? ==> forall i :: 0 <= i < |params| ==> params[i].0 != name
  {
    if params == [] then None
    else if params[0].0 == name then Some(params[0])
    else Captured(params[1..], name)
  }

  /** The text of one segment once `params` are substituted: a captured placeholder becomes its
   *  replacement, any other placeholder stays. */
  function RenderSegment(seg: Segment, params: seq<Param>): string
  {
    match seg
    case Literal(t) => t
    case Hole(n) =>
      match Captured(params, n)
      case Some(p) => Replacement(p)
      case None => Placeholder(n)
  }

  function Render(segs: seq<Segment>, params: seq<Param>): string
  {
    if segs == [] then [] else RenderSegment(segs[0], params) + Render(segs[1..], params)
  }

  /** An occurrence of `pat` could start at index `j` of `p`, given the right continuation. */
  predicate MatchCanStart(p: string, pat: string, j: int)
    requires 0 <= j < |p|
  {
    var n := if |p| - j < |pat| then |p| - j else |pat|;
    p[j..j + n] == pat[..n]
  }

  /** No occurrence of `pat` can start inside `p`, whatever follows it. */
  predicate NoMatchStarts(p: string, pat: string)
  {
    forall j :: 0 <= j < |p| ==> !MatchCanStart(p, pat, j)
  }

  lemma NoMatchStartsTail(p: string, pat: string)
    requires NoMatchStarts(p, pat) && p != []
    ensures NoMatchStarts(p[1..], pat)
  {
    forall j | 0 <= j < |p[1..]| ensures !MatchCanStart(p[1..], pat, j) {
      assert !MatchCanStart(p, pat, j + 1);
      var n := if |p| - (j + 1) < |pat| then |p| - (j + 1) else |pat|;
      assert p[1..][j..j + n] == p[j + 1..j + 1 + n];
    }
  }

  /** Where no occurrence can start, `replace` copies the first character. */
  lemma ReplaceAllSkipsInert(p: string, pat: string, rep: string, rest: string)
    requires |pat| > 0 && NoMatchStarts(p, pat) && p != [] && |p + rest| >= |pat|
    ensures ReplaceAll(p + rest, pat, rep) == [p[0]] + ReplaceAll(p[1..] + rest, pat, rep)
  {
    var s := p + rest;
    var n := if |p| < |pat| then |p| else |pat|;
    assert !MatchCanStart(p, pat, 0);
    assert s[..|pat|][..n] == p[0..n];
    ReplaceAllCopiesHead(s, pat, rep);
    TailOfConcat(p, rest);
  }

  /** Text in which no occurrence can start is kept, and `replace` carries on after it. */
  lemma {:induction false} ReplaceAllAfterInert(p: string, pat: string, rep: string, rest: string)
    requires |pat| > 0 && NoMatchStarts(p, pat)
    ensures ReplaceAll(p + rest, pat, rep) == p + ReplaceAll(rest, pat, rep)
    decreases |p|
  {
    if p == [] {
      assert p + rest == rest;
    } else if |p + rest| < |pat| {
      assert ReplaceAll(rest, pat, rep) == rest;
    } else {
      ReplaceAllSkipsInert(p, pat, rep, rest);
      NoMatchStartsTail(p, pat);
      ReplaceAllAfterInert(p[1..], pat, rep, rest);
      assert [p[0]] + (p[1..] + ReplaceAll(rest, pat, rep)) == p + ReplaceAll(rest, pat, rep);
    }
  }

  /** Text without `<` is inert for every placeholder. */
  lemma NoAngleInert(t: string, name: string)
    requires '<' !in t
    ensures NoMatchStarts(t, Placeholder(name))
  {
    var pat := Placeholder(name);
    forall j | 0 <= j < |t| ensures !MatchCanStart(t, pat, j) {
      var n := if |t| - j < |pat| then |t| - j else |pat|;
      assert t[j..j + n][0] == t[j] && pat[..n][0] == '<';
    }
  }

  /** A placeholder with another plain name is inert: neither placeholder is a prefix of the
   *  other, since a plain name holds no `>` and no `<`. */
  lemma OtherPlaceholderInert(m: string, k: string)
    requires PlainName(m) && PlainName(k) && m != k
    ensures NoMatchStarts(Placeholder(m), Placeholder(k))
  {
    var t, pat := Placeholder(m), Placeholder(k);
    forall j | 0 <= j < |t| ensures !MatchCanStart(t, pat, j) {
      if j > 0 {
        InnerNotOpen(m, j);
        var n := if |t| - j < |pat| then |t| - j else |pat|;
        assert t[j..j + n][0] == t[j] && pat[..n][0] == '<';
      } else {
        PlaceholdersDiffer(m, k);
      }
    }
  }

  lemma InnerNotOpen(m: string, j: int)
    requires PlainName(m) && 0 < j < |m| + 2
    ensures Placeholder(m)[j] != '<'
  {
    if j < |m| + 1 { assert Placeholder(m)[j] == m[j - 1]; }
  }

  lemma PlaceholdersDiffer(m: string, k: string)
    requires PlainName(m) && PlainName(k) && m != k
    ensures !MatchCanStart(Placeholder(m), Placeholder(k), 0)
  {
    var t, pat := Placeholder(m), Placeholder(k);
    var n := if |t| < |pat| then |t| else |pat|;
    if |m| < |k| {
      assert t[..n][|m| + 1] == '>';
      assert pat[..n][|m| + 1] == k[|m|];
    } else if |m| > |k| {
      assert pat[..n][|k| + 1] == '>';
      assert t[..n][|k| + 1] == m[|k|];
    } else {
      assert m == t[1..|t| - 1] && k == pat[1..|pat| - 1];
      assert t[..n] == t && pat[..n] == pat;
    }
  }

  /** Capturing one more name changes the lookup of that name only. */
  lemma CapturedAppend(params: seq<Param>, param: Param, name: string)
    requires Captured(params, param.0).None?
    ensures Captured(params + [param], name)
         == if name == param.0 then Some(param) else Captured(params, name)
  {
    if params != [] {
      assert (params + [param])[1..] == params[1..] + [param];
      if params[0].0 != name {
        CapturedAppend(params[1..], param, name);
      }
    }
  }

  lemma WellFormedTail(segs: seq<Segment>)
    requires WellFormed(segs) && segs != []
    ensures WellFormed(segs[1..])
  {
    forall i | 0 <= i < |segs[1..]| ensures
      if segs[1..][i].Literal? then '<' !in segs[1..][i].text else PlainName(segs[1..][i].name)
    {
      assert segs[1..][i] == segs[i + 1];
    }
  }

  /** The newest parameter is not captured before it, and all replacements have no `<`. */
  lemma PlainParamsAppend(params: seq<Param>, param: Param)
    requires PlainParams(params + [param])
    ensures PlainParams(params) && PlainName(param.0) && '<' !in param.1
    ensures Captured(params, param.0).None?
  {
    var all := params + [param];
    assert all[|params|] == param;
    forall i | 0 <= i < |params| ensures all[i] == params[i] {}
  }

  /** The placeholder of the newest parameter renders as itself before it is captured and as its
   *  replacement after. */
  lemma HoleOfNewest(params: seq<Param>, param: Param)
    requires PlainParams(params + [param])
    ensures RenderSegment(Hole(param.0), params) == Placeholder(param.0)
    ensures RenderSegment(Hole(param.0), params + [param]) == Replacement(param)
  {
    PlainParamsAppend(params, param);
    CapturedAppend(params, param, param.0);
  }

  /** Any other segment renders the same before and after the newest parameter is captured, and
   *  no occurrence of its placeholder can start in it. */
  lemma OtherSegmentInert(seg: Segment, params: seq<Param>, param: Param)
    requires WellFormed([seg]) && PlainParams(params + [param]) && seg != Hole(param.0)
    ensures RenderSegment(seg, params + [param]) == RenderSegment(seg, params)
    ensures NoMatchStarts(RenderSegment(seg, params), Placeholder(param.0))
  {
    PlainParamsAppend(params, param);
    assert [seg][0] == seg;
    var t := RenderSegment(seg, params);
    match seg {
      case Literal(text) =>
        NoAngleInert(text, param.0);
      case Hole(n) =>
        CapturedAppend(params, param, n);
        match Captured(params, n) {
          case Some(p) =>
            var i :| 0 <= i < |params| && params[i] == p;
            NoAngleInert(t, param.0);
          case None =>
            OtherPlaceholderInert(n, param.0);
        }
    }
  }

  /** One segment followed by more text, through one pass of the loop. */
  lemma SubstituteSegment(seg: Segment, params: seq<Param>, param: Param, rest: string)
    requires WellFormed([seg]) && PlainParams(params + [param])
    ensures Substitute(RenderSegment(seg, params) + rest, param)
         == RenderSegment(seg, params + [param]) + Substitute(rest, param)
  {
    var pat, rep := Placeholder(param.0), Replacement(param);
    if seg == Hole(param.0) {
      HoleOfNewest(params, param);
      ReplaceAllAtFront(pat, rep, rest);
    } else {
      OtherSegmentInert(seg, params, param);
      ReplaceAllAfterInert(RenderSegment(seg, params), pat, rep, rest);
    }
  }

  /** One pass of the loop turns every placeholder of the new name into its replacement and
   *  leaves all other text, substituted or not, as it was. */
  lemma {:induction false} SubstituteRender(segs: seq<Segment>, params: seq<Param>, param: Param)
    requires WellFormed(segs) && PlainParams(params + [param])
    ensures Substitute(Render(segs, params), param) == Render(segs, params + [param])
  {
    if segs == [] {
      assert Substitute([], param) == [];
    } else {
      WellFormedTail(segs);
      assert WellFormed([segs[0]]) by { assert [segs[0]][0] == segs[0]; }
      SubstituteRender(segs[1..], params, param);
      SubstituteSegment(segs[0], params, param, Render(segs[1..], params));
    }
  }

  /** The loop over any number of captured parameters: every placeholder whose name was
   *  captured is replaced by its own replacement (the captured value, or the name itself for a
   *  reserved name), every other placeholder and all literal text stay as they were. */
  lemma {:induction false} ResolveAllParameters(segs: seq<Segment>, params: seq<Param>)
    requires WellFormed(segs) && PlainParams(params)
    ensures ResolvePath(Render(segs, []), params) == Render(segs, params)
  {
    if params != [] {
      var init, last := params[..|params| - 1], params[|params| - 1];
      assert params == init + [last];
      assert PlainParams(init) by {
        forall i | 0 <= i < |init| ensures init[i] == params[i] {}
      }
      ResolveAllParameters(segs, init);
      SubstituteRender(segs, init, last);
    }
  }

  /** When every placeholder's name was captured, no placeholder is left: the resolved path
   *  holds no `<` at all. */
  lemma {:induction false} NothingUnresolved(segs: seq<Segment>, params: seq<Param>)
    requires WellFormed(segs) && PlainParams(params)
    requires forall i :: 0 <= i < |segs| && segs[i].Hole? ==> Captured(params, segs[i].name).Some?
    ensures '<' !in ResolvePath(Render(segs, []), params)
  {
    ResolveAllParameters(segs, params);
    NoAngleRendered(segs, params);
  }

  lemma {:induction false} NoAngleRendered(segs: seq<Segment>, params: seq<Param>)
    requires WellFormed(segs) && PlainParams(params)
    requires forall i :: 0 <= i < |segs| && segs[i].Hole? ==> Captured(params, segs[i].name).Some?
    ensures '<' !in Render(segs, params)
  {
    if segs != [] {
      var seg := segs[0];
      if seg.Hole? {
        var p := Captured(params, seg.name).value;
        var i :| 0 <= i < |params| && params[i] == p;
      }
      assert '<' !in RenderSegment(seg, params);
      WellFormedTail(segs);
      forall i | 0 <= i < |segs[1..]| && segs[1..][i].Hole?
        ensures Captured(params, segs[1..][i].name).Some?
      {
        assert segs[1..][i] == segs[i + 1];
      }
      NoAngleRendered(segs[1..], params);
    }
  }

  /** Python's `posixpath.join(a, b)`: an absolute `b` replaces `a`; an empty `a` is dropped;
   *  otherwise a single `/` separates the two. */
  function PathJoin(a: string, b: string): string
  {
    if |b| > 0 && b[0] == '/' then b
    else if a == [] || a[|a| - 1] == '/' then a + b
    else a + "/" + b
  }

  /** `os.path.join` ends with its last component; an absolute one is all of it. */
  lemma PathJoinEndsWith(a: string, b: string)
    ensures |PathJoin(a, b)| >= |b|
    ensures PathJoin(a, b)[|PathJoin(a, b)| - |b|..] == b
    ensures |b| > 0 && b[0] == '/' ==> PathJoin(a, b) == b
  {
  }

  const LastRequestFile := "last_request.json"

  /** `os.path.join(responses_path, endpoint_path, method_file)` */
  function FixtureKey(root: string, path: string, methodFile: string): string
  {
    PathJoin(PathJoin(root, path), methodFile)
  }

  /** `os.path.join(responses_path, 'last_request.json')` */
  function LastRequestKey(root: string): string
  {
    PathJoin(root, LastRequestFile)
  }

  /** A path component as the endpoint list gives them: non-empty, neither starting nor ending
   *  with `/`. */
  predicate Plain(s: string)
  {
    |s| > 0 && s[0] != '/' && s[|s| - 1] != '/'
  }

  /** What `os.path.join` puts in front of a relative component under `root`. */
  function RootPrefix(root: string): string
  {
    if root == [] then [] else root + "/"
  }

  lemma FixtureKeySplit(root: string, path: string, file: string)
    requires root == [] || root[|root| - 1] != '/'
    requires Plain(path) && |file| > 0 && file[0] != '/'
    ensures FixtureKey(root, path, file) == RootPrefix(root) + path + ("/" + file)
  {
    var a := PathJoin(root, path);
    if root == [] {
      assert a == path;
    } else {
      assert a == root + "/" + path;
    }
    assert a == RootPrefix(root) + path;
    assert a[|a| - 1] == path[|path| - 1];
    assert PathJoin(a, file) == a + "/" + file;
  }

  /** The fixture layout `<root>/<resolved path>/<method>.json`; with the empty root of the
   *  key-value store, `<resolved path>/<method>.json`. */
  lemma FixtureKeyLayout(root: string, path: string, m: Method)
    requires root == [] || root[|root| - 1] != '/'
    requires Plain(path)
    ensures root == [] ==> FixtureKey(root, path, FileName(m)) == path + "/" + FileName(m)
    ensures root != [] ==>
      FixtureKey(root, path, FileName(m)) == root + "/" + path + "/" + FileName(m)
  {
    var f := FileName(m);
    FixtureKeySplit(root, path, f);
    if root == [] {
      assert RootPrefix(root) + path + ("/" + f) == path + "/" + f;
    } else {
      assert RootPrefix(root) + path + ("/" + f) == root + "/" + path + "/" + f;
    }
  }

  /** The last-request key is `<root>/last_request.json`, or bare `last_request.json` under the
   *  empty root. */
  lemma LastRequestKeyLayout(root: string)
    ensures root == [] ==> LastRequestKey(root) == "last_request.json"
    ensures root != [] && root[|root| - 1] != '/' ==>
      LastRequestKey(root) == root + "/last_request.json"
  {
  }

  /** Two characters near the end of a fixture key, eight and seven from the end, tell its
   *  method apart from the other four and from `last_request.json`. */
  function Mark(s: string): (char, char)
    requires |s| >= 8
  {
    (s[|s| - 8], s[|s| - 7])
  }

  lemma MarkOfSuffix(k: string, f: string)
    requires |f| >= 8 && |k| >= |f| && k[|k| - |f|..] == f
    ensures Mark(k) == Mark(f)
  {
    assert k[|k| - 8] == k[|k| - |f|..][|f| - 8];
    assert k[|k| - 7] == k[|k| - |f|..][|f| - 7];
  }

  lemma MarkOfFixtureKey(root: string, path: string, m: Method)
    ensures |FixtureKey(root, path, FileName(m))| >= 8
    ensures Mark(FixtureKey(root, path, FileName(m))) == Mark(FileName(m))
  {
    PathJoinEndsWith(PathJoin(root, path), FileName(m));
    MarkOfSuffix(FixtureKey(root, path, FileName(m)), FileName(m));
  }

  /** No fixture key is ever the last-request key, whatever the roots and paths: saving the
   *  request snapshot never overwrites a fixture. */
  lemma FixtureKeyIsNotLastRequestKey(root: string, path: string, m: Method, root': string)
    ensures FixtureKey(root, path, FileName(m)) != LastRequestKey(root')
  {
    MarkOfFixtureKey(root, path, m);
    MarkOfFileName(m);
    MarkOfLastRequestKey(root');
    assert Mark(FixtureKey(root, path, FileName(m))) != Mark(LastRequestKey(root'));
  }

  lemma MarkOfLastRequestKey(root: string)
    ensures |LastRequestKey(root)| >= 8 && Mark(LastRequestKey(root)) == ('e', 's')
  {
    PathJoinEndsWith(root, LastRequestFile);
    MarkOfSuffix(LastRequestKey(root), LastRequestFile);
  }

  /** A fixture key determines the method it was built for. */
  lemma FixtureKeyDeterminesMethod(root1: string, path1: string, m1: Method,
                                   root2: string, path2: string, m2: Method)
    requires FixtureKey(root1, path1, FileName(m1)) == FixtureKey(root2, path2, FileName(m2))
    ensures m1 == m2
  {
    MarkOfFixtureKey(root1, path1, m1);
    MarkOfFixtureKey(root2, path2, m2);
    MarkOfFileName(m1);
    MarkOfFileName(m2);
  }

  lemma MarkOfFileName(m: Method)
    ensures Mark(FileName(m)) == match m
      case GET => ('g', 'e')
      case POST => ('o', 's')
      case PUT => ('p', 'u')
      case DELETE => ('e', 't')
      case OPTIONS => ('o', 'n')
  {
  }

  lemma MiddleUnique(pre: string, a: string, b: string, post: string)
    requires pre + a + post == pre + b + post
    ensures a == b
  {
    assert |a| == |b|;
    assert a == (pre + a + post)[|pre|..|pre| + |a|];
    assert b == (pre + b + post)[|pre|..|pre| + |b|];
  }

  /** Under one root, plain resolved paths and methods are told apart by their fixture keys:
   *  two requests share a fixture exactly when they agree on resolved path and method. */
  lemma FixtureKeyInjective(root: string, path1: string, m1: Method, path2: string, m2: Method)
    requires root == [] || root[|root| - 1] != '/'
    requires Plain(path1) && Plain(path2)
    ensures FixtureKey(root, path1, FileName(m1)) == FixtureKey(root, path2, FileName(m2))
            <==> path1 == path2 && m1 == m2
  {
    if FixtureKey(root, path1, FileName(m1)) == FixtureKey(root, path2, FileName(m2)) {
      FixtureKeyDeterminesMethod(root, path1, m1, root, path2, m2);
      var f := FileName(m1);
      FixtureKeySplit(root, path1, f);
      FixtureKeySplit(root, path2, f);
      MiddleUnique(RootPrefix(root), path1, path2, "/" + f);
    }
  }

  /** The registered template minus its first character (`resource[1:]` in mock.py:210). */
  function EndpointPath(resource: string): (r: string)
    ensures resource == [] ==> r == []
    ensures resource != [] ==> resource == [resource[0]] + r
  {
    if resource == [] then [] else resource[1..]
  }
}
