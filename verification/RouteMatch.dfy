/** Route templates matched before the router has run (`app/middleware/route_match.py`):
    compiling a template to a pattern, and what the pattern accepts. */
module RouteMatch {
  import opened Text

  /** A pattern position: one literal character, or `[^/]+`. */
  datatype Token = Literal(c: char) | Segment

  /** The length of the parameter `{name}` at the front of `s`, or 0: a brace, one or more
      characters that are neither slash nor closing brace, and a closing brace. */
  function ParameterLength(s: string): (n: nat)
    ensures n <= |s| && '/' !in s[..n] && (n > 0 ==> n > 2)
  {
    if s == "" || s[0] != '{' then 0
    else
      var name := NameLength(s[1..]);
      if name > 0 && name + 1 < |s| && s[name + 1] == '}' then name + 2 else 0
  }

  function NameLength(s: string): (n: nat)
    ensures n <= |s| && '/' !in s[..n] && '}' !in s[..n]
    ensures n < |s| ==> s[n] == '/' || s[n] == '}'
  {
    if s == "" || s[0] == '/' || s[0] == '}' then 0 else 1 + NameLength(s[1..])
  }

  function FirstToken(t: string): Token
    requires t != ""
  {
    if ParameterLength(t) > 0 then Segment else Literal(t[0])
  }

  /** The template text behind its first pattern position. */
  function AfterFirst(t: string): string
    requires t != ""
  {
    if ParameterLength(t) > 0 then t[ParameterLength(t)..] else t[1..]
  }

  function CompileTemplate(t: string): seq<Token>
    decreases |t|
  {
    if t == "" then [] else [FirstToken(t)] + CompileTemplate(AfterFirst(t))
  }

  /** The whole of `s` matches the pattern. */
  predicate Matches(tokens: seq<Token>, s: string)
    decreases |s|, |tokens|
  {
    if tokens == [] then s == ""
    else if s == "" then false
    else match tokens[0]
      case Literal(c) => s[0] == c && Matches(tokens[1..], s[1..])
      case Segment => s[0] != '/' && (Matches(tokens[1..], s[1..]) || Matches(tokens, s[1..]))
  }

  predicate UpToSlash(tokens: seq<Token>, path: string) {
    Matches(tokens, path) || (path != "" && path[|path| - 1] == '/' && Matches(tokens, path[..|path| - 1]))
  }

  /** `re.compile(f"^{pattern}/?$").match(path)`: `$` also holds before a final newline. */
  predicate PatternMatch(tokens: seq<Token>, path: string) {
    || UpToSlash(tokens, path)
    || (path != "" && path[|path| - 1] == '\n' && UpToSlash(tokens, path[..|path| - 1]))
  }

  /** `matches_any`. */
  predicate MatchesAny(path: string, templates: seq<string>) {
    exists t <- templates :: PatternMatch(CompileTemplate(t), path)
  }

  // --- segment by segment ----------------------------------------------------------

  lemma {:induction false} NameEndsAt(s: string, t: string)
    requires '/' !in s
    ensures NameLength(s + ['/'] + t) == NameLength(s)
  {
    var whole := s + ['/'] + t;
    if s != "" && s[0] != '}' {
      assert whole[1..] == s[1..] + ['/'] + t;
      NameEndsAt(s[1..], t);
    }
  }

  lemma ParameterEndsAt(s: string, t: string)
    requires '/' !in s && s != ""
    ensures ParameterLength(s + ['/'] + t) == ParameterLength(s)
  {
    assert (s + ['/'] + t)[1..] == s[1..] + ['/'] + t;
    NameEndsAt(s[1..], t);
  }

  lemma FirstOfConcat(s: string, t: string)
    requires '/' !in s && s != ""
    ensures FirstToken(s + ['/'] + t) == FirstToken(s)
    ensures AfterFirst(s + ['/'] + t) == AfterFirst(s) + ['/'] + t
    ensures '/' !in AfterFirst(s) && |AfterFirst(s)| < |s|
  {
    ParameterEndsAt(s, t);
  }

  /** No parameter reaches across a slash, so a template compiles segment by segment. */
  lemma {:induction false} CompileOfConcat(s: string, t: string)
    requires '/' !in s
    ensures CompileTemplate(s + ['/'] + t) == CompileTemplate(s) + [Literal('/')] + CompileTemplate(t)
    decreases |s|
  {
    hide CompileTemplate, FirstToken, AfterFirst;
    if s == "" {
      NothingCompiles();
      SlashCompiles(t);
      assert s + ['/'] + t == ['/'] + t;
    } else {
      FirstOfConcat(s, t);
      CompileOfConcat(AfterFirst(s), t);
      CompileOfConcatStep(s, t, AfterFirst(s));
    }
  }

  lemma CompileOfConcatStep(s: string, t: string, rest: string)
    requires s != "" && AfterFirst(s) == rest
    requires FirstToken(s + ['/'] + t) == FirstToken(s) && AfterFirst(s + ['/'] + t) == rest + ['/'] + t
    requires CompileTemplate(rest + ['/'] + t) == CompileTemplate(rest) + [Literal('/')] + CompileTemplate(t)
    ensures CompileTemplate(s + ['/'] + t) == CompileTemplate(s) + [Literal('/')] + CompileTemplate(t)
  {
    hide CompileTemplate, FirstToken, AfterFirst;
    CompileStep(s);
    CompileStep(s + ['/'] + t);
  }

  lemma CompileStep(t: string)
    requires t != ""
    ensures CompileTemplate(t) == [FirstToken(t)] + CompileTemplate(AfterFirst(t))
  {
  }

  lemma NothingCompiles()
    ensures CompileTemplate("") == []
  {
  }

  lemma SlashCompiles(t: string)
    ensures CompileTemplate(['/'] + t) == [Literal('/')] + CompileTemplate(t)
  {
    assert (['/'] + t)[1..] == t;
  }

  /** A pattern without slash characters only matches text without slashes. */
  lemma {:induction false} SlashFreeMatches(tokens: seq<Token>, s: string)
    requires Literal('/') !in tokens && Matches(tokens, s)
    ensures '/' !in s
    decreases |s|, |tokens|
  {
    if tokens != [] {
      if Matches(tokens[1..], s[1..]) { SlashFreeMatches(tokens[1..], s[1..]); } else { SlashFreeMatches(tokens, s[1..]); }
    }
  }

  lemma {:induction false} CompileWithoutSlash(t: string)
    requires '/' !in t
    ensures Literal('/') !in CompileTemplate(t)
    decreases |t|
  {
    if t != "" {
      CompileWithoutSlash(AfterFirst(t));
    }
  }

  /** Matching up to the pattern's first slash is matching up to the text's first slash. */
  lemma {:induction false} MatchAcrossSlash(xs: seq<Token>, ys: seq<Token>, s: string, t: string)
    requires Literal('/') !in xs && '/' !in s
    ensures Matches(xs + [Literal('/')] + ys, s + ['/'] + t) <==> Matches(xs, s) && Matches(ys, t)
    decreases |s|, |xs|
  {
    var tokens, whole := xs + [Literal('/')] + ys, s + ['/'] + t;
    if xs == [] {
      assert tokens[1..] == ys;
      if s == "" { assert whole[1..] == t; }
    } else {
      assert tokens[1..] == xs[1..] + [Literal('/')] + ys;
      if s != "" {
        assert whole[1..] == s[1..] + ['/'] + t;
        MatchAcrossSlash(xs[1..], ys, s[1..], t);
        MatchAcrossSlash(xs, ys, s[1..], t);
      }
    }
  }

  lemma {:induction false} MatchNeedsSlash(xs: seq<Token>, ys: seq<Token>, s: string)
    requires '/' !in s
    ensures !Matches(xs + [Literal('/')] + ys, s)
    decreases |s|, |xs|
  {
    var tokens := xs + [Literal('/')] + ys;
    if s != "" && xs != [] {
      assert tokens[1..] == xs[1..] + [Literal('/')] + ys;
      MatchNeedsSlash(xs[1..], ys, s[1..]);
      MatchNeedsSlash(xs, ys, s[1..]);
    }
  }

  /** One path segment against one template segment. */
  predicate SegmentMatches(template: string, segment: string) {
    Matches(CompileTemplate(template), segment)
  }

  predicate SegmentsMatch(templates: seq<string>, segments: seq<string>) {
    && |templates| == |segments|
    && forall i | 0 <= i < |templates| :: SegmentMatches(templates[i], segments[i])
  }

  lemma FirstSlash(s: string) returns (front: string, rest: string)
    requires '/' in s
    ensures s == front + ['/'] + rest && '/' !in front
    ensures Split(s, '/') == [front] + Split(rest, '/')
    ensures |rest| < |s|
  {
    if s[0] == '/' {
      front, rest := "", s[1..];
      assert s == front + ['/'] + rest;
    } else {
      front, rest := FirstSlash(s[1..]);
      front := [s[0]] + front;
      assert s == front + ['/'] + rest;
    }
    SplitOfConcat(front, '/', rest);
    SplitWithout(front, '/');
  }

  /** A path matches a template exactly when it has as many segments and each one
      matches: no parameter spans a slash and no slash is optional. */
  lemma {:induction false} MatchesBySegments(t: string, path: string)
    ensures Matches(CompileTemplate(t), path) <==> SegmentsMatch(Split(t, '/'), Split(path, '/'))
    decreases |t|
  {
    if '/' !in t {
      SplitWithout(t, '/');
      if '/' in path {
        if Matches(CompileTemplate(t), path) {
          CompileWithoutSlash(t);
          SlashFreeMatches(CompileTemplate(t), path);
        }
        var _, _ := FirstSlash(path);
      } else {
        SplitWithout(path, '/');
        assert SegmentMatches([t][0], [path][0]) == Matches(CompileTemplate(t), path);
      }
    } else {
      var front, rest := FirstSlash(t);
      CompileOfConcat(front, rest);
      CompileWithoutSlash(front);
      if '/' in path {
        var first, others := FirstSlash(path);
        MatchAcrossSlash(CompileTemplate(front), CompileTemplate(rest), first, others);
        MatchesBySegments(rest, others);
        ConsMatches(front, Split(rest, '/'), first, Split(others, '/'));
      } else {
        MatchNeedsSlash(CompileTemplate(front), CompileTemplate(rest), path);
        SplitWithout(path, '/');
      }
    }
  }

  lemma ConsMatches(t: string, ts: seq<string>, s: string, ss: seq<string>)
    ensures SegmentsMatch([t] + ts, [s] + ss) <==> SegmentMatches(t, s) && SegmentsMatch(ts, ss)
  {
    hide SegmentMatches;
    if SegmentsMatch([t] + ts, [s] + ss) {
      assert ([t] + ts)[0] == t && ([s] + ss)[0] == s;
      forall i | 0 <= i < |ts| ensures SegmentMatches(ts[i], ss[i]) {
        assert ([t] + ts)[i + 1] == ts[i] && ([s] + ss)[i + 1] == ss[i];
      }
    }
  }

  // --- plain segments and parameters --------------------------------------------------

  /** `{name}` and nothing around it. */
  predicate IsParameter(segment: string) {
    ParameterLength(segment) == |segment| > 0
  }

  /** What a reader of the template expects of one segment. */
  predicate Agrees(template: string, segment: string) {
    if IsParameter(template) then segment != "" else segment == template
  }

  /** Every segment is a bare parameter or has no brace. */
  predicate Simple(t: string) {
    forall piece <- Split(t, '/') :: IsParameter(piece) || '{' !in piece
  }

  lemma {:induction false} LiteralsMatchThemselves(t: string, s: string)
    requires '{' !in t
    ensures SegmentMatches(t, s) <==> s == t
  {
    if t != "" && s != "" {
      LiteralsMatchThemselves(t[1..], s[1..]);
      assert t == [t[0]] + t[1..] && s == [s[0]] + s[1..];
    }
  }

  lemma {:induction false} ParameterTakesOneSegment(s: string)
    requires '/' !in s
    ensures Matches([Segment], s) <==> s != ""
  {
    if |s| > 1 { ParameterTakesOneSegment(s[1..]); }
  }

  lemma SegmentAgreement(t: string, s: string)
    requires IsParameter(t) || '{' !in t
    requires '/' !in s
    ensures SegmentMatches(t, s) <==> Agrees(t, s)
  {
    if IsParameter(t) {
      assert t[|t|..] == "";
      assert CompileTemplate(t) == [Segment];
      ParameterTakesOneSegment(s);
    } else {
      LiteralsMatchThemselves(t, s);
    }
  }

  predicate PathAgrees(t: string, path: string) {
    var ts, ss := Split(t, '/'), Split(path, '/');
    |ts| == |ss| && forall i | 0 <= i < |ts| :: Agrees(ts[i], ss[i])
  }

  lemma SimpleMatches(t: string, path: string)
    requires Simple(t)
    ensures Matches(CompileTemplate(t), path) <==> PathAgrees(t, path)
  {
    MatchesBySegments(t, path);
    var ts, ss := Split(t, '/'), Split(path, '/');
    if |ts| == |ss| {
      forall i | 0 <= i < |ts| ensures SegmentMatches(ts[i], ss[i]) <==> Agrees(ts[i], ss[i]) {
        assert ts[i] in ts && ss[i] in ss;
        PiecesAreClean(path, '/', ss[i]);
        SegmentAgreement(ts[i], ss[i]);
      }
    }
  }

  predicate AgreesUpToSlash(t: string, path: string) {
    PathAgrees(t, path) || (path != "" && path[|path| - 1] == '/' && PathAgrees(t, path[..|path| - 1]))
  }

  predicate AgreesToTheEnd(t: string, path: string) {
    AgreesUpToSlash(t, path) || (path != "" && path[|path| - 1] == '\n' && AgreesUpToSlash(t, path[..|path| - 1]))
  }

  lemma UpToSlashIsAgreement(t: string, path: string)
    requires Simple(t)
    ensures UpToSlash(CompileTemplate(t), path) <==> AgreesUpToSlash(t, path)
  {
    SimpleMatches(t, path);
    if path != "" {
      SimpleMatches(t, path[..|path| - 1]);
    }
  }

  /** A path matches a template exactly when, up to one trailing slash and a newline at the very
      end, it agrees with it on every literal segment and has something for every parameter. */
  lemma PatternMatchIsAgreement(t: string, path: string)
    requires Simple(t)
    ensures PatternMatch(CompileTemplate(t), path) <==> AgreesToTheEnd(t, path)
  {
    hide UpToSlash, AgreesUpToSlash;
    UpToSlashIsAgreement(t, path);
    if path != "" {
      UpToSlashIsAgreement(t, path[..|path| - 1]);
    }
  }

  // --- any template ---------------------------------------------------------------------

  /** How many parameters the pattern has. */
  function Parameters(tokens: seq<Token>): nat {
    if tokens == [] then 0 else (if tokens[0].Segment? then 1 else 0) + Parameters(tokens[1..])
  }

  /** The text the pattern stands for once each parameter is given a value. */
  function Filled(tokens: seq<Token>, values: seq<string>): string
    requires |values| == Parameters(tokens)
  {
    if tokens == [] then ""
    else match tokens[0]
      case Literal(c) => [c] + Filled(tokens[1..], values)
      case Segment => values[0] + Filled(tokens[1..], values[1..])
  }

  /** Something for every parameter, and nothing that reaches across a slash. */
  ghost predicate Proper(values: seq<string>) {
    forall v <- values :: v != "" && '/' !in v
  }

  ghost predicate Instantiates(tokens: seq<Token>, s: string) {
    exists values :: |values| == Parameters(tokens) && Proper(values) && Filled(tokens, values) == s
  }

  /** Extending a parameter's value by one character it may hold. */
  lemma LongerValueMatches(tokens: seq<Token>, c: char, s: string)
    requires tokens != [] && tokens[0].Segment? && c != '/'
    requires Matches(tokens, s) || Matches(tokens[1..], s)
    ensures Matches(tokens, [c] + s)
  {
    assert ([c] + s)[1..] == s;
  }

  lemma {:induction false} ValueMatches(tokens: seq<Token>, v: string, s: string)
    requires tokens != [] && tokens[0].Segment? && v != "" && '/' !in v && Matches(tokens[1..], s)
    ensures Matches(tokens, v + s)
  {
    assert v + s == [v[0]] + (v[1..] + s);
    if |v| == 1 {
      assert v[1..] + s == s;
    } else {
      ValueMatches(tokens, v[1..], s);
    }
    LongerValueMatches(tokens, v[0], v[1..] + s);
  }

  lemma {:induction false} FilledMatches(tokens: seq<Token>, values: seq<string>)
    requires |values| == Parameters(tokens) && Proper(values)
    ensures Matches(tokens, Filled(tokens, values))
    decreases |tokens|
  {
    if tokens != [] {
      match tokens[0] {
        case Literal(c) =>
          FilledMatches(tokens[1..], values);
          assert ([c] + Filled(tokens[1..], values))[1..] == Filled(tokens[1..], values);
        case Segment =>
          assert values[0] in values && forall v <- values[1..] :: v in values;
          FilledMatches(tokens[1..], values[1..]);
          ValueMatches(tokens, values[0], Filled(tokens[1..], values[1..]));
      }
    }
  }

  lemma {:induction false} MatchIsFilled(tokens: seq<Token>, s: string) returns (values: seq<string>)
    requires Matches(tokens, s)
    ensures |values| == Parameters(tokens) && Proper(values) && Filled(tokens, values) == s
    decreases |s|, |tokens|
  {
    values := [];
    if tokens != [] {
      assert s == [s[0]] + s[1..];
      if tokens[0].Literal? {
        values := MatchIsFilled(tokens[1..], s[1..]);
      } else if Matches(tokens[1..], s[1..]) {
        var rest := MatchIsFilled(tokens[1..], s[1..]);
        values := [[s[0]]] + rest;
        assert values[1..] == rest;
      } else {
        var longer := MatchIsFilled(tokens, s[1..]);
        values := [[s[0]] + longer[0]] + longer[1..];
        assert values[1..] == longer[1..];
        assert longer[0] in longer && forall v <- longer[1..] :: v in longer;
        assert s == [s[0]] + (longer[0] + Filled(tokens[1..], longer[1..]));
      }
    }
  }

  lemma MatchesIsInstantiation(tokens: seq<Token>, s: string)
    ensures Matches(tokens, s) <==> Instantiates(tokens, s)
  {
    if Matches(tokens, s) {
      var values := MatchIsFilled(tokens, s);
    }
    if Instantiates(tokens, s) {
      var values :| |values| == Parameters(tokens) && Proper(values) && Filled(tokens, values) == s;
      FilledMatches(tokens, values);
    }
  }

  /** The path is an instantiation and, behind it, this ending. */
  ghost predicate InstantiatesBefore(tokens: seq<Token>, path: string, end: string) {
    exists body :: path == body + end && Instantiates(tokens, body)
  }

  /** One character of the ending at a time. */
  lemma CutsTheEnd(tokens: seq<Token>, path: string, end: string, last: char)
    ensures InstantiatesBefore(tokens, path, end + [last]) <==>
            path != "" && path[|path| - 1] == last && InstantiatesBefore(tokens, path[..|path| - 1], end)
  {
    hide Instantiates;
    if InstantiatesBefore(tokens, path, end + [last]) {
      var body :| path == body + (end + [last]) && Instantiates(tokens, body);
      assert path[..|path| - 1] == body + end;
    }
    if path != "" && path[|path| - 1] == last && InstantiatesBefore(tokens, path[..|path| - 1], end) {
      var body :| path[..|path| - 1] == body + end && Instantiates(tokens, body);
      assert path == body + (end + [last]);
    }
  }

  lemma WithoutEnding(tokens: seq<Token>, path: string)
    ensures InstantiatesBefore(tokens, path, "") <==> Matches(tokens, path)
  {
    MatchesIsInstantiation(tokens, path);
    assert forall body: string :: body + "" == body;
    assert path == path + "";
  }

  lemma UpToSlashIsInstantiation(tokens: seq<Token>, path: string)
    ensures UpToSlash(tokens, path) <==> InstantiatesBefore(tokens, path, "") || InstantiatesBefore(tokens, path, "/")
  {
    hide Matches, InstantiatesBefore;
    WithoutEnding(tokens, path);
    CutsTheEnd(tokens, path, "", '/');
    assert "" + ['/'] == "/";
    if path != "" { WithoutEnding(tokens, path[..|path| - 1]); }
  }

  /** A path matches any template exactly when it is the template with a non-empty, slash-free
      value put in for each parameter, followed by nothing, a slash, a newline, or a slash and
      a newline. */
  lemma PatternMatchIsInstantiation(t: string, path: string)
    ensures var tokens := CompileTemplate(t);
            PatternMatch(tokens, path) <==>
            || InstantiatesBefore(tokens, path, "") || InstantiatesBefore(tokens, path, "/")
            || InstantiatesBefore(tokens, path, "\n") || InstantiatesBefore(tokens, path, "/\n")
  {
    var tokens := CompileTemplate(t);
    hide CompileTemplate, UpToSlash, InstantiatesBefore;
    UpToSlashIsInstantiation(tokens, path);
    CutsTheEnd(tokens, path, "", '\n');
    CutsTheEnd(tokens, path, "/", '\n');
    assert "" + ['\n'] == "\n" && "/" + ['\n'] == "/\n";
    if path != "" { UpToSlashIsInstantiation(tokens, path[..|path| - 1]); }
  }

  // --- which templates are simple --------------------------------------------------------

  lemma {:induction false} NameIsWhole(name: string, rest: string)
    requires '/' !in name && '}' !in name && (rest == "" || rest[0] == '}')
    ensures NameLength(name + rest) == |name|
  {
    if name == "" {
      assert name + rest == rest;
    } else {
      assert (name + rest)[1..] == name[1..] + rest;
      NameIsWhole(name[1..], rest);
    }
  }

  lemma BracedIsParameter(name: string)
    requires name != "" && '/' !in name && '}' !in name
    ensures IsParameter("{" + name + "}")
  {
    var segment := "{" + name + "}";
    assert segment[1..] == name + "}";
    NameIsWhole(name, "}");
  }

  lemma BracedIsSimple(name: string)
    requires name != "" && '/' !in name && '}' !in name
    ensures Simple("{" + name + "}")
  {
    BracedIsParameter(name);
    SplitWithout("{" + name + "}", '/');
  }

  lemma PlainIsSimple(s: string)
    requires '/' !in s && '{' !in s
    ensures Simple(s)
  {
    SplitWithout(s, '/');
  }

  lemma JoinedIsSimple(s: string, t: string)
    requires Simple(s) && Simple(t)
    ensures Simple(s + "/" + t)
  {
    SplitOfConcat(s, '/', t);
  }

  /** `/first/second/third` */
  lemma ThreeAreSimple(a: string, b: string, c: string)
    requires Simple(a) && Simple(b) && Simple(c)
    ensures Simple("/" + a + "/" + b + "/" + c)
  {
    PlainIsSimple("");
    JoinedIsSimple("", a);
    JoinedIsSimple("" + "/" + a, b);
    JoinedIsSimple("" + "/" + a + "/" + b, c);
    assert "" + "/" + a + "/" + b + "/" + c == "/" + a + "/" + b + "/" + c;
  }
}
