/** The route template a log line carries (`_with_router_prefix` in
    `app/middleware/request_context.py`): an included router reports its template without
    the prefix it is mounted under, and the prefix is recovered by counting slashes. */
module RouterPrefix {
  import opened Text
  import opened RouteMatch

  /** `s.rstrip('/')` */
  function DropTrailingSlashes(s: string): string {
    if s != "" && s[|s| - 1] == '/' then DropTrailingSlashes(s[..|s| - 1]) else s
  }

  function BeforeLastSlash(s: string): (front: string)
    requires '/' in s
    ensures |front| < |s|
  {
    if s[|s| - 1] == '/' then s[..|s| - 1] else BeforeLastSlash(s[..|s| - 1])
  }

  /** `s.rsplit('/', depth)[0]` */
  function BeforeLast(s: string, depth: nat): string
    decreases depth
  {
    if depth == 0 || '/' !in s then s else BeforeLast(BeforeLastSlash(s), depth - 1)
  }

  function WithRouterPrefix(path: string, template: string): string {
    var depth := Count(template, '/');
    if depth == 0 then path else BeforeLast(DropTrailingSlashes(path), depth) + template
  }

  predicate EndsInSlash(s: string) {
    s != "" && s[|s| - 1] == '/'
  }

  // --- lemmas on pieces ---------------------------------------------------------------

  lemma {:induction false} LastPieceIsEmpty(s: string)
    ensures var pieces := Split(s, '/');
            pieces[|pieces| - 1] == "" <==> s == "" || EndsInSlash(s)
  {
    if s != "" {
      LastPieceIsEmpty(s[1..]);
      PiecesAreSeparatorsPlusOne(s[1..], '/');
      CountIsPositive(s[1..], '/');
    }
  }

  lemma FirstPieceGrows(s: string, c: char)
    requires c == '/' || '/' in s
    ensures Split(s + [c], '/')[0] == Split(s, '/')[0]
  {
    if c == '/' {
      SplitOfConcat(s, '/', "");
      assert s + ['/'] + "" == s + [c];
    } else {
      var front, rest := FirstSlash(s);
      SplitOfConcat(front, '/', rest + [c]);
      SplitWithout(front, '/');
      assert front + ['/'] + (rest + [c]) == s + [c];
    }
  }

  /** Cutting at as many slashes as the second half holds leaves its first piece. */
  lemma {:induction false} CutLeavesFirstPiece(a: string, b: string)
    ensures BeforeLast(a + b, Count(b, '/')) == a + Split(b, '/')[0]
    decreases |b|
  {
    CountIsPositive(b, '/');
    if '/' !in b {
      SplitWithout(b, '/');
    } else {
      var b', c := b[..|b| - 1], b[|b| - 1];
      assert b == b' + [c] && (a + b)[..|a + b| - 1] == a + b';
      CountOfConcat(b', [c], '/');
      CountIsPositive(b', '/');
      assert c == '/' || '/' in b';
      FirstPieceGrows(b', c);
      CutLeavesFirstPiece(a, b');
    }
  }

  lemma {:induction false} CountBeforeLastSlash(s: string)
    requires '/' in s
    ensures Count(BeforeLastSlash(s), '/') == Count(s, '/') - 1
  {
    var front, c := s[..|s| - 1], s[|s| - 1];
    assert s == front + [c];
    CountOfConcat(front, [c], '/');
    if c != '/' { CountBeforeLastSlash(front); }
  }

  lemma {:induction false} CountBeforeLast(s: string, depth: nat)
    ensures Count(BeforeLast(s, depth), '/') == if depth <= Count(s, '/') then Count(s, '/') - depth else 0
    decreases depth
  {
    CountIsPositive(s, '/');
    if depth > 0 && '/' in s {
      CountBeforeLastSlash(s);
      CountBeforeLast(BeforeLastSlash(s), depth - 1);
    }
  }

  lemma {:induction false} CountWithoutTrailing(s: string)
    ensures Count(DropTrailingSlashes(s), '/') <= Count(s, '/') - (if EndsInSlash(s) then 1 else 0)
  {
    if EndsInSlash(s) {
      assert s == s[..|s| - 1] + ['/'];
      CountOfConcat(s[..|s| - 1], ['/'], '/');
      CountWithoutTrailing(s[..|s| - 1]);
    }
  }

  /** A path that instantiates a template has its slashes and ends as it does. */
  lemma InstantiationShape(t: string, path: string)
    requires Matches(CompileTemplate(t), path)
    ensures Count(path, '/') == Count(t, '/')
    ensures path == "" || EndsInSlash(path) <==> t == "" || EndsInSlash(t)
    ensures Split(path, '/')[0] == "" <==> Split(t, '/')[0] == ""
  {
    MatchesBySegments(t, path);
    PiecesAreSeparatorsPlusOne(t, '/');
    PiecesAreSeparatorsPlusOne(path, '/');
    LastPieceIsEmpty(t);
    LastPieceIsEmpty(path);
    var ts, ss := Split(t, '/'), Split(path, '/');
    assert SegmentMatches(ts[0], ss[0]) && SegmentMatches(ts[|ts| - 1], ss[|ss| - 1]);
  }

  // --- the theorems --------------------------------------------------------------------

  /** For any prefix and any instantiation of a template without a trailing slash, the
      logged route is prefix plus template exactly when the template starts with a slash;
      without any slash in it, exactly when nothing was filled in. */
  lemma PrefixIsRestored(prefix: string, t: string, path: string)
    requires Matches(CompileTemplate(t), path) && !EndsInSlash(t)
    ensures WithRouterPrefix(prefix + path, t) == prefix + t <==>
            if '/' in t then t[0] == '/' else path == t
  {
    CountIsPositive(t, '/');
    if '/' in t {
      InstantiationShape(t, path);
      assert (prefix + path)[|prefix + path| - 1] == path[|path| - 1];
      CutLeavesFirstPiece(prefix, path);
      var first := Split(path, '/')[0];
      assert |WithRouterPrefix(prefix + path, t)| == |prefix| + |first| + |t|;
      if first == "" { assert prefix + first == prefix; }
    } else {
      SameSuffix(prefix, path, t);
    }
  }

  lemma SameSuffix(prefix: string, s: string, t: string)
    ensures prefix + s == prefix + t <==> s == t
  {
    if prefix + s == prefix + t {
      assert s == (prefix + s)[|prefix|..] && t == (prefix + t)[|prefix|..];
    }
  }

  lemma TrailingSlashLosesPrefix(prefix: string, t: string, path: string)
    requires Matches(CompileTemplate(t), path) && EndsInSlash(t) && '/' in prefix
    ensures WithRouterPrefix(prefix + path, t) != prefix + t
  {
    InstantiationShape(t, path);
    CountIsPositive(prefix, '/');
    CountOfConcat(prefix, path, '/');
    EndsAlike(prefix, t, path);
    var whole := prefix + path;
    CountWithoutTrailing(whole);
    var head := BeforeLast(DropTrailingSlashes(whole), Count(t, '/'));
    CountBeforeLast(DropTrailingSlashes(whole), Count(t, '/'));
    CountOfConcat(head, t, '/');
    CountOfConcat(prefix, t, '/');
  }

  lemma EndsAlike(prefix: string, t: string, path: string)
    requires Matches(CompileTemplate(t), path) && EndsInSlash(t)
    ensures Count(t, '/') > 0 && EndsInSlash(path) && EndsInSlash(prefix + path)
  {
    hide Matches, CompileTemplate, Count;
    InstantiationShape(t, path);
    assert t[|t| - 1] in t;
    CountIsPositive(t, '/');
    CountIsPositive(path, '/');
    assert path != "";
    assert (prefix + path)[|prefix + path| - 1] == path[|path| - 1];
  }

  lemma {:induction false} LastCutKeepsFirstPiece(s: string)
    requires '/' in s
    ensures Split(BeforeLastSlash(s), '/')[0] == Split(s, '/')[0]
  {
    var front, c := s[..|s| - 1], s[|s| - 1];
    assert s == front + [c];
    FirstPieceGrows(front, c);
    if c != '/' { LastCutKeepsFirstPiece(front); }
  }

  lemma {:induction false} CuttingAllLeavesFirstPiece(s: string, depth: nat)
    requires Count(s, '/') <= depth
    ensures BeforeLast(s, depth) == Split(s, '/')[0]
    decreases depth
  {
    CountIsPositive(s, '/');
    if '/' in s {
      CountBeforeLastSlash(s);
      LastCutKeepsFirstPiece(s);
      CuttingAllLeavesFirstPiece(BeforeLastSlash(s), depth - 1);
    } else {
      SplitWithout(s, '/');
    }
  }

  lemma {:induction false} StrippingKeepsFirstPiece(s: string)
    ensures Split(DropTrailingSlashes(s), '/')[0] == Split(s, '/')[0]
  {
    if EndsInSlash(s) {
      assert s == s[..|s| - 1] + ['/'];
      FirstPieceGrows(s[..|s| - 1], '/');
      StrippingKeepsFirstPiece(s[..|s| - 1]);
    }
  }

  /** A prefix without a slash runs into the first piece. */
  lemma PrefixedFirstPiece(p: string, s: string)
    requires '/' !in p
    ensures Split(p + s, '/')[0] == p + Split(s, '/')[0]
  {
    CountIsPositive(p, '/');
    CountOfConcat(p, s, '/');
    CutLeavesFirstPiece(p, s);
    CuttingAllLeavesFirstPiece(p + s, Count(s, '/'));
  }

  /** What is left of a slash-free prefix: all of it, and the path's first segment with it. */
  lemma BarePrefixSurvives(prefix: string, t: string, path: string)
    requires Matches(CompileTemplate(t), path) && EndsInSlash(t) && '/' !in prefix
    ensures WithRouterPrefix(prefix + path, t) == prefix + Split(path, '/')[0] + t
  {
    var whole := prefix + path;
    InstantiationShape(t, path);
    EndsAlike(prefix, t, path);
    CountIsPositive(prefix, '/');
    CountOfConcat(prefix, path, '/');
    CountWithoutTrailing(whole);
    CuttingAllLeavesFirstPiece(DropTrailingSlashes(whole), Count(t, '/'));
    StrippingKeepsFirstPiece(whole);
    PrefixedFirstPiece(prefix, path);
  }

  /** Under a template that ends in a slash the logged route is prefix plus template exactly
      when the prefix has no slash and the template starts with one. */
  lemma PrefixUnderTrailingSlash(prefix: string, t: string, path: string)
    requires Matches(CompileTemplate(t), path) && EndsInSlash(t)
    ensures WithRouterPrefix(prefix + path, t) == prefix + t <==> '/' !in prefix && t[0] == '/'
  {
    if '/' in prefix {
      TrailingSlashLosesPrefix(prefix, t, path);
    } else {
      BarePrefixSurvives(prefix, t, path);
      InstantiationShape(t, path);
      var first := Split(path, '/')[0];
      assert |prefix + first + t| == |prefix| + |first| + |t|;
      if first == "" { assert prefix + first == prefix; }
    }
  }
}
