/** Route paths: the normal form shared by the telemetry recorder, the request interceptor and the route inventory. */
module RoutePaths {
  import opened Strings
  import opened Wrappers

  predicate IsSlash(c: char) { c == '/' }

  /* The normaliser. */

  // Without the query and the fragment.
  function Cut(value: string): string {
    Before(Before(Trim(value), '?'), '#')
  }

  function Cleaned(value: string): string {
    Trim(Collapse(Cut(value), IsSlash, '/'))
  }

  function DropSlash(s: string): string {
    if s != "" && s[|s| - 1] == '/' then s[..|s| - 1] else s
  }

  function SanitizePath(value: string): string {
    if Trim(value) == "" then "/"
    else
      var cleaned := Cleaned(value);
      if cleaned == "" || cleaned == "/" then "/"
      else if cleaned[0] == '/' then (if DropSlash(cleaned) == "" then "/" else DropSlash(cleaned))
      else "/" + DropSlash(cleaned)
  }

  // A leading slash, no double slash, no trailing slash but the root's, no query and no fragment.
  ghost predicate Normal(path: string) {
    && path != "" && path[0] == '/' && Collapsed(path, IsSlash, '/')
    && (path[|path| - 1] == '/' ==> path == "/")
    && '?' !in path && '#' !in path
  }

  predicate EndsInSpace(s: string) {
    s != "" && IsSpace(s[|s| - 1])
  }

  lemma TrimIsPart(s: string) returns (from: nat)
    ensures from + |Trim(s)| <= |s| && Trim(s) == s[from..from + |Trim(s)|]
  {
    var tail := DropStart(s, IsSpace);
    from := |s| - |tail|;
    assert Trim(s) == tail[..|Trim(s)|];
  }

  lemma CleanedIsClean(value: string)
    ensures Collapsed(Cleaned(value), IsSlash, '/')
    ensures '?' !in Cleaned(value) && '#' !in Cleaned(value)
  {
    hide Cut, Collapse, Collapsed, Trim;
    var cut := Cut(value);
    var squeezed := Collapse(cut, IsSlash, '/');
    var from := TrimIsPart(squeezed);
    PartIsCollapsed(squeezed, IsSlash, '/', from, from + |Trim(squeezed)|);
    CutIsCut(value);
    CollapseAddsNothing(cut);
  }

  lemma CutIsCut(value: string)
    ensures '?' !in Cut(value) && '#' !in Cut(value)
  {
    var first := Before(Trim(value), '?');
    assert forall c :: c in Before(first, '#') ==> c in first;
  }

  lemma {:induction false} CollapseAddsNothing(s: string)
    ensures forall c :: c in Collapse(s, IsSlash, '/') ==> c in s
  {
    if s != "" {
      if IsSlash(s[0]) {
        CollapseAddsNothing(DropStart(s, IsSlash));
      } else {
        CollapseAddsNothing(s[1..]);
      }
    }
  }

  // Whatever the text, the result is in normal form.
  lemma SanitizeIsNormal(value: string)
    ensures Normal(SanitizePath(value))
  {
    hide Cleaned, Collapsed, Trim;
    var cleaned := Cleaned(value);
    CleanedIsClean(value);
    RootIsNormal();
    if cleaned != "" && cleaned != "/" {
      var body := DropSlash(cleaned);
      PartIsCollapsed(cleaned, IsSlash, '/', 0, |body|);
      assert cleaned[0..|body|] == body;
      WithSlashIsNormal(cleaned, body);
    }
  }

  lemma RootIsNormal()
    ensures Normal("/")
  {
  }

  lemma WithSlashIsNormal(cleaned: string, body: string)
    requires Collapsed(cleaned, IsSlash, '/') && '?' !in cleaned && '#' !in cleaned
    requires cleaned != "" && cleaned != "/" && body == DropSlash(cleaned)
    ensures body != "" && Collapsed(body, IsSlash, '/')
    ensures Normal(if cleaned[0] == '/' then body else "/" + body)
  {
    assert forall c :: c in body ==> c in cleaned;
    if |body| < |cleaned| {
      var i, j := |cleaned| - 2, |cleaned| - 1;
      assert cleaned[j] == '/' && j == i + 1 ==> cleaned[i] != '/';
      assert body[|body| - 1] == cleaned[i];
    }
    if cleaned[0] != '/' {
      assert Collapsed("/", IsSlash, '/');
      assert body[0] == cleaned[0];
      JoinIsCollapsed("/", body, IsSlash, '/');
    }
  }

  lemma {:induction false} BeforeKeeps(s: string, c: char)
    ensures c !in s ==> Before(s, c) == s
  {
    var before := Before(s, c);
    assert |before| < |s| ==> s[|before|] in s;
  }

  lemma NormalIsClean(s: string)
    requires Normal(s)
    ensures Cleaned(s) == Trim(s) == s[..|Trim(s)|] && Trim(s) != ""
  {
    hide Collapsed, Collapse, Before, IsSpace;
    SlashIsNoSpace();
    assert DropStart(s, IsSpace) == s;
    var raw := Trim(s);
    assert raw == DropEnd(s, IsSpace) == s[0..|raw|] && raw != "";
    assert forall c :: c in raw ==> c in s;
    BeforeKeeps(raw, '?');
    BeforeKeeps(raw, '#');
    PartIsCollapsed(s, IsSlash, '/', 0, |raw|);
    hide Trim, DropStart, DropEnd;
    CollapseKeeps(raw, IsSlash, '/');
    TrimAgain(s);
  }

  // The texts that are their own path: those in normal form that do not end in white space.
  lemma OwnPath(s: string)
    ensures SanitizePath(s) == s <==> Normal(s) && !EndsInSpace(s)
  {
    hide Collapsed, Cleaned;
    SanitizeIsNormal(s);
    if Normal(s) {
      NormalIsClean(s);
    }
  }

  lemma TrimAgain(s: string)
    ensures Trim(Trim(s)) == Trim(s)
  {
  }

  // Normalising again changes nothing unless white space stood before the slash the first time dropped.
  predicate SpaceBeforeLastSlash(value: string) {
    var cleaned := Cleaned(value);
    |cleaned| >= 2 && cleaned[|cleaned| - 1] == '/' && IsSpace(cleaned[|cleaned| - 2])
  }

  lemma SanitizeAgain(value: string)
    ensures SanitizePath(SanitizePath(value)) == SanitizePath(value) <==> !SpaceBeforeLastSlash(value)
  {
    hide Normal, Cleaned, Trim, IsSpace;
    SanitizeIsNormal(value);
    OwnPath(SanitizePath(value));
    CleanedEnds(value);
    assert !IsSpace('/') by { SlashIsNoSpace(); }
  }

  lemma SlashIsNoSpace()
    ensures !IsSpace('/')
  {
  }

  lemma CleanedEnds(value: string)
    ensures Trim(value) == "" ==> Cleaned(value) == ""
    ensures !EndsInSpace(Cleaned(value))
    ensures !StartsDouble(Cleaned(value))
  {
    hide Collapsed, DropStart, DropEnd, Before, IsSpace, StartsDouble;
    CleanedIsClean(value);
    NoTwoSlashes(Cleaned(value));
    if Trim(value) == "" {
      assert Collapse(Cut(value), IsSlash, '/') == "";
    }
  }

  predicate StartsDouble(s: string) {
    |s| >= 2 && s[0] == '/' && s[1] == '/'
  }

  lemma NoTwoSlashes(s: string)
    requires Collapsed(s, IsSlash, '/')
    ensures !StartsDouble(s)
  {
  }

  lemma SpaceFreeSanitizesOnce(value: string)
    requires SpaceFree(value)
    ensures SanitizePath(SanitizePath(value)) == SanitizePath(value)
  {
    hide Normal, Collapse, Cut, SanitizePath;
    SpaceFreeStays(value);
    SanitizeAgain(value);
  }

  lemma SpaceFreeStays(value: string)
    requires SpaceFree(value)
    ensures SpaceFree(Cut(value)) && Cleaned(value) == Collapse(Cut(value), IsSlash, '/')
    ensures SpaceFree(Cleaned(value))
  {
    hide Collapse;
    assert forall c :: c in Before(Trim(value), '?') ==> c in value;
    assert forall c :: c in Cut(value) ==> c in Before(Trim(value), '?');
    CollapseAddsNothing(Cut(value));
  }

  /* Paths as lists of segments. */

  function Segments(s: string): seq<string>
    decreases |s|
  {
    if s == "" then []
    else if s[0] == '/' then Segments(s[1..])
    else [Before(s, '/')] + Segments(s[|Before(s, '/')|..])
  }

  function Render(segments: seq<string>): string {
    if segments == [] then "" else "/" + segments[0] + Render(segments[1..])
  }

  function PathOf(segments: seq<string>): string {
    if segments == [] then "/" else Render(segments)
  }

  predicate AreSegments(segments: seq<string>) {
    forall i :: 0 <= i < |segments| ==> segments[i] != "" && '/' !in segments[i]
  }

  // The collapsed text with a slash in front, where it has none.
  function Led(s: string): string {
    if s == "" || s[0] == '/' then Collapse(s, IsSlash, '/') else "/" + Collapse(s, IsSlash, '/')
  }

  lemma {:induction false} SegmentsAreSegments(s: string)
    ensures AreSegments(Segments(s))
    decreases |s|
  {
    if s != "" {
      if s[0] == '/' {
        SegmentsAreSegments(s[1..]);
      } else {
        SegmentsAreSegments(s[|Before(s, '/')|..]);
      }
    }
  }

  lemma {:induction false} SegmentsSkipSlashes(s: string)
    ensures Segments(DropStart(s, IsSlash)) == Segments(s)
  {
    if s != "" && s[0] == '/' {
      SegmentsSkipSlashes(s[1..]);
    }
  }

  lemma {:induction false} CollapseChar(c: char, rest: string)
    requires c != '/'
    ensures Collapse([c] + rest, IsSlash, '/') == [c] + Collapse(rest, IsSlash, '/')
  {
    assert ([c] + rest)[1..] == rest;
  }

  lemma {:induction false} CollapsePasses(head: string, tail: string)
    requires '/' !in head
    ensures Collapse(head + tail, IsSlash, '/') == head + Collapse(tail, IsSlash, '/')
  {
    hide Collapse;
    if head == "" {
      assert head + tail == tail;
    } else {
      var c, rest := head[0], head[1..];
      assert c in head && head + tail == [c] + (rest + tail) && head == [c] + rest;
      CollapseChar(c, rest + tail);
      CollapsePasses(rest, tail);
      assert [c] + (rest + Collapse(tail, IsSlash, '/')) == head + Collapse(tail, IsSlash, '/');
    }
  }

  lemma LedByHead(head: string, tail: string)
    requires head != "" && '/' !in head && (tail == "" || tail[0] == '/')
    ensures Led(head + tail) == "/" + head + Led(tail)
  {
    hide Collapse, Collapsed;
    assert head[0] in head;
    CollapsePasses(head, tail);
  }

  lemma {:induction false} SegmentsByHead(head: string, tail: string)
    requires head != "" && '/' !in head && (tail == "" || tail[0] == '/')
    ensures Segments(head + tail) == [head] + Segments(tail)
  {
    var s := head + tail;
    assert head[0] in head && s[0] == head[0];
    BeforeHead(head, tail);
    assert s[|head|..] == tail;
  }

  lemma {:induction false} BeforeHead(head: string, tail: string)
    requires '/' !in head && (tail == "" || tail[0] == '/')
    ensures Before(head + tail, '/') == head
  {
    if head == "" {
      assert head + tail == tail;
    } else {
      assert head[0] in head && (head + tail)[1..] == head[1..] + tail;
      BeforeHead(head[1..], tail);
      assert head == [head[0]] + head[1..];
    }
  }

  lemma {:induction false} LedBySlash(s: string)
    requires s != "" && s[0] == '/'
    ensures Led(s) == if DropStart(s, IsSlash) == "" then "/" else Led(DropStart(s, IsSlash))
  {
    var rest := DropStart(s, IsSlash);
    assert Collapse(s, IsSlash, '/') == "/" + Collapse(rest, IsSlash, '/');
    hide Collapse, Collapsed, DropStart;
    if rest == "" {
      LedOfNothing();
    }
  }

  // Collapsing slashes leaves the segments, each led by one slash, and a last slash where there was one.
  lemma {:induction false} LedIsRendered(s: string)
    ensures Led(s) == Render(Segments(s)) + if s != "" && s[|s| - 1] == '/' then "/" else ""
    decreases |s|
  {
    hide Collapse, Led;
    if s == "" {
      assert Led(s) == "" by { LedOfNothing(); }
    } else if s[0] == '/' {
      var rest := DropStart(s, IsSlash);
      SegmentsSkipSlashes(s);
      LedBySlash(s);
      LedIsRendered(rest);
      if rest == "" {
        assert IsSlash(s[|s| - 1]) && Segments(rest) == [];
      }
    } else {
      var head := Before(s, '/');
      var tail := s[|head|..];
      assert s == head + tail && head != "";
      LedByHead(head, tail);
      SegmentsByHead(head, tail);
      LedIsRendered(tail);
      if tail == "" {
        assert s[|s| - 1] in head;
      }
    }
  }

  lemma LedOfNothing()
    ensures Led("") == ""
  {
  }

  lemma {:induction false} RenderStartsWithSlash(segments: seq<string>)
    requires AreSegments(segments) && segments != []
    ensures Render(segments) != "" && Render(segments)[0] == '/' && Render(segments)[|Render(segments)| - 1] != '/'
    decreases |segments|
  {
    var first, rest := segments[0], segments[1..];
    if rest == [] {
      assert first[|first| - 1] in first;
      assert Render(segments) == "/" + first;
    } else {
      RenderStartsWithSlash(rest);
    }
  }

  // On texts without white space the normaliser keeps exactly the segments before the query and the fragment.
  lemma SanitizeIsSegments(value: string)
    requires SpaceFree(value)
    ensures SanitizePath(value) == PathOf(Segments(Cut(value)))
  {
    hide Collapse, Cut, SpaceFree, IsSpace;
    SpaceFreeStays(value);
    var cut := Cut(value);
    assert cut == "" ==> Segments(cut) == [];
    hide Segments;
    CleanedEnds(value);
    LedIsRendered(cut);
    SegmentsAreSegments(cut);
    var cleaned, segments := Cleaned(value), Segments(cut);
    if segments != [] {
      RenderStartsWithSlash(segments);
      var body := Render(segments);
      assert cleaned == Led(cut) || (cleaned != "" && cleaned[0] != '/' && "/" + cleaned == Led(cut));
      hide Render, Led;
      WithoutLastSlash(cleaned, body, if cut[|cut| - 1] == '/' then "/" else "");
    }
  }

  lemma WithoutLastSlash(cleaned: string, body: string, last: string)
    requires body != "" && body[0] == '/' && body[|body| - 1] != '/' && (last == "" || last == "/")
    requires cleaned == body + last || (cleaned != "" && cleaned[0] != '/' && "/" + cleaned == body + last)
    ensures cleaned != "" && cleaned != "/" && DropSlash(cleaned) != ""
    ensures (if cleaned[0] == '/' then DropSlash(cleaned) else "/" + DropSlash(cleaned)) == body
  {
    var led := if cleaned == body + last then cleaned else "/" + cleaned;
    assert led[..|body|] == body;
    assert cleaned != led ==> "/" + DropSlash(cleaned) == DropSlash(led);
  }

  /* Joining a base and a child path. */

  function JoinPaths(base: string, child: string): string {
    if base == "/" then child
    else if child == "/" then base
    else SanitizePath(base + "/" + child)
  }

  lemma {:induction false} SegmentsOfJoin(x: string, y: string)
    ensures Segments(x + "/" + y) == Segments(x) + Segments(y)
    decreases |x|
  {
    var s := x + "/" + y;
    if x == "" {
      assert s[1..] == y;
    } else if x[0] == '/' {
      assert s[1..] == x[1..] + "/" + y;
      SegmentsOfJoin(x[1..], y);
    } else {
      var head := Before(x, '/');
      var tail := x[|head|..];
      assert x == head + tail && s == head + (tail + "/" + y);
      BeforeHead(head, tail + "/" + y);
      assert s[|head|..] == tail + "/" + y;
      SegmentsOfJoin(tail, y);
    }
  }

  lemma {:induction false} SegmentsOfHead(head: string, tail: string)
    requires head != "" && '/' !in head && (tail == "" || tail[0] == '/')
    ensures Segments("/" + head + tail) == [head] + Segments(tail)
  {
    var s := "/" + head + tail;
    assert s[1..] == head + tail;
    SegmentsByHead(head, tail);
  }

  lemma {:induction false} SegmentsOfRender(segments: seq<string>)
    requires AreSegments(segments)
    ensures Segments(Render(segments)) == segments
    decreases |segments|
  {
    if segments == [] {
      assert Segments("") == [];
    } else {
      var head, rest := segments[0], segments[1..];
      SegmentsOfRender(rest);
      if rest != [] {
        RenderStartsWithSlash(rest);
      }
      hide Segments;
      SegmentsOfHead(head, Render(rest));
      assert segments == [head] + rest;
    }
  }

  lemma SegmentsOfPath(segments: seq<string>)
    requires AreSegments(segments)
    ensures Segments(PathOf(segments)) == segments
  {
    RootHasNoSegments();
    SegmentsOfRender(segments);
  }

  lemma CutOfClean(s: string)
    requires SpaceFree(s) && '?' !in s && '#' !in s
    ensures Cut(s) == s
  {
    BeforeKeeps(s, '?');
    BeforeKeeps(s, '#');
  }

  lemma CutOfJoin(base: string, child: string)
    requires SpaceFree(base) && SpaceFree(child) && '?' !in base && '#' !in base
    ensures SpaceFree(base + "/" + child) && Cut(base + "/" + child) == base + "/" + Cut(child)
  {
    SlashIsNoSpace();
    hide IsSpace;
    var whole, head := base + "/" + child, base + "/";
    assert whole == head + child && forall c :: c in head ==> c != '?' && c != '#';
    BeforePasses(head, child, '?');
    BeforePasses(head, Before(child, '?'), '#');
  }

  lemma {:induction false} BeforePasses(head: string, tail: string, c: char)
    requires c !in head
    ensures Before(head + tail, c) == head + Before(tail, c)
  {
    if head == "" {
      assert head + tail == tail;
    } else {
      assert head[0] in head && (head + tail)[1..] == head[1..] + tail;
      BeforePasses(head[1..], tail, c);
    }
  }

  lemma SanitizedIsSpaceFree(value: string)
    requires SpaceFree(value)
    ensures SpaceFree(SanitizePath(value))
  {
    SpaceFreeStays(value);
    SlashIsNoSpace();
    hide IsSpace, Cleaned;
  }

  lemma JoinOfPaths(b: seq<string>, c: seq<string>)
    requires AreSegments(b) && AreSegments(c) && SpaceFree(PathOf(b)) && SpaceFree(PathOf(c))
    requires Cut(PathOf(b)) == PathOf(b) && Cut(PathOf(c)) == PathOf(c)
    requires '?' !in PathOf(b) && '#' !in PathOf(b)
    ensures JoinPaths(PathOf(b), PathOf(c)) == PathOf(b + c)
  {
    hide SpaceFree, SanitizePath, Cut, Segments, Render;
    SegmentsOfPath(b);
    SegmentsOfPath(c);
    RootHasNoSegments();
    if PathOf(b) == "/" {
      assert [] + c == c;
    } else if PathOf(c) == "/" {
      assert b + [] == b;
    } else {
      CutOfJoin(PathOf(b), PathOf(c));
      SanitizeIsSegments(PathOf(b) + "/" + PathOf(c));
      SegmentsOfJoin(PathOf(b), PathOf(c));
    }
  }

  // Normalising two paths and joining them gives what normalising the whole gives.
  lemma JoinIsWhole(base: string, child: string)
    requires SpaceFree(base) && SpaceFree(child) && '?' !in base && '#' !in base
    ensures JoinPaths(SanitizePath(base), SanitizePath(child)) == SanitizePath(base + "/" + child)
  {
    hide SpaceFree, SanitizePath, Cut, Segments, PathOf, JoinPaths;
    var b, c := Segments(base), Segments(Cut(child));
    CutOfJoin(base, child);
    CutOfClean(base);
    SegmentsOfJoin(base, Cut(child));
    SanitizeIsSegments(base + "/" + child);
    SanitizedIsClean(base);
    SanitizedIsClean(child);
    SegmentsAreSegments(base);
    SegmentsAreSegments(Cut(child));
    JoinOfPaths(b, c);
  }

  lemma SanitizedIsClean(value: string)
    requires SpaceFree(value)
    ensures var path := PathOf(Segments(Cut(value)));
            && path == SanitizePath(value) && SpaceFree(path) && Cut(path) == path && '?' !in path && '#' !in path
  {
    hide SpaceFree, SanitizePath, Cut, Segments, PathOf, Collapsed;
    SanitizeIsSegments(value);
    SanitizedIsSpaceFree(value);
    SanitizeIsNormal(value);
    CutOfClean(SanitizePath(value));
  }

  lemma RootHasNoSegments()
    ensures Segments("/") == []
  {
    assert "/"[1..] == "";
  }

  /* Recorded and listed patterns. */

  // A path given to a decorator or found on a request.
  datatype PathSpec = Missing | One(path: string) | Many(paths: seq<string>)

  predicate Blank(s: string) { Trim(s) == "" }

  function Base(baseUrl: Option<string>): string {
    SanitizePath(if baseUrl.Some? then baseUrl.value else "/")
  }

  // The pattern a request is recorded under.
  function NormalizeRoutePattern(baseUrl: Option<string>, routePath: PathSpec, rawPath: string): string {
    match routePath
    case One(path) => if Blank(path) then SanitizePath(rawPath) else JoinPaths(Base(baseUrl), SanitizePath(path))
    case Many(paths) =>
      if paths == [] || Blank(paths[0]) then SanitizePath(rawPath)
      else JoinPaths(Base(baseUrl), SanitizePath(Trim(paths[0])))
    case Missing => SanitizePath(rawPath)
  }

  // The pattern the interceptor logs for the same request.
  function BuildRoutePattern(baseUrl: Option<string>, routePath: PathSpec, originalUrl: string): string {
    var base := Base(baseUrl);
    var route := if routePath.One? then SanitizePath(routePath.path) else "/";
    if base == "/" && route == "/" then SanitizePath(originalUrl) else JoinPaths(base, route)
  }

  function PathVariants(value: PathSpec): set<string> {
    match value
    case Many(paths) =>
      var next := set i | 0 <= i < |paths| :: SanitizePath(paths[i]);
      if next == {} then {"/"} else next
    case One(path) => if Blank(path) then {"/"} else {SanitizePath(path)}
    case Missing => {"/"}
  }

  function JoinAll(bases: set<string>, children: set<string>): set<string> {
    set base, child | base in bases && child in children :: JoinPaths(base, child)
  }

  // The patterns of a handler in the route inventory.
  function Patterns(controller: PathSpec, handler: PathSpec): set<string> {
    JoinAll(PathVariants(controller), PathVariants(handler))
  }

  lemma JoinAllGrows(bases: set<string>, base: string, children: set<string>, child: string)
    ensures JoinAll({}, children) == JoinAll(bases, {}) == {}
    ensures JoinAll(bases + {base}, children) == JoinAll(bases, children) + JoinAll({base}, children)
    ensures JoinAll({base}, children + {child}) == JoinAll({base}, children) + {JoinPaths(base, child)}
  {
    hide JoinPaths;
  }

  // Every handler has a pattern; a path that is missing, blank or an empty list stands for the root.
  lemma EveryHandlerIsListed(controller: PathSpec, handler: PathSpec, blank: PathSpec)
    requires blank == Missing || blank == Many([]) || (blank.One? && Blank(blank.path))
    ensures Patterns(controller, handler) != {}
    ensures PathVariants(blank) == {"/"}
  {
    hide SanitizePath, JoinPaths;
    SomeVariant(controller);
    SomeVariant(handler);
    var base, child :| base in PathVariants(controller) && child in PathVariants(handler);
    assert JoinPaths(base, child) in Patterns(controller, handler);
  }

  lemma SomeVariant(value: PathSpec)
    ensures exists path :: path in PathVariants(value)
  {
    hide SanitizePath, Blank;
    if value.Many? {
      var next := set i | 0 <= i < |value.paths| :: SanitizePath(value.paths[i]);
      if next != {} {
        var path :| path in next;
        assert path in PathVariants(value);
      } else {
        assert "/" in PathVariants(value);
      }
    } else {
      assert "/" in PathVariants(value) || SanitizePath(value.path) in PathVariants(value);
    }
  }

  method CombinePaths(controllerPath: PathSpec, handlerPath: PathSpec) returns (combined: set<string>)
    ensures combined == Patterns(controllerPath, handlerPath)
  {
    hide SanitizePath, JoinAll, PathVariants;
    var controllerPaths, handlerPaths := PathVariants(controllerPath), PathVariants(handlerPath);
    JoinAllGrows({}, "", handlerPaths, "");
    combined := {};
    var bases := {};
    while controllerPaths - bases != {}
      invariant bases <= controllerPaths && combined == JoinAll(bases, handlerPaths)
      decreases controllerPaths - bases
    {
      var base :| base in controllerPaths - bases;
      var children := {};
      JoinAllGrows({base}, base, {}, "");
      while handlerPaths - children != {}
        invariant children <= handlerPaths
        invariant combined == JoinAll(bases, handlerPaths) + JoinAll({base}, children)
        decreases handlerPaths - children
      {
        var child :| child in handlerPaths - children;
        JoinAllGrows({base}, base, children, child);
        if base == "/" && child == "/" {
          combined := combined + {"/"};
        } else if base == "/" {
          combined := combined + {child};
        } else if child == "/" {
          combined := combined + {base};
        } else {
          combined := combined + {SanitizePath(base + "/" + child)};
        }
        children := children + {child};
      }
      assert handlerPaths == handlerPaths - children + children == children;
      JoinAllGrows(bases, base, handlerPaths, "");
      bases := bases + {base};
    }
    assert controllerPaths == controllerPaths - bases + bases == bases;
  }

  lemma VariantsOfOne(path: string)
    ensures PathVariants(One(path)) == {SanitizePath(path)}
  {
  }

  // For a controller and a handler with one path each, the inventory lists exactly the recorded pattern unless the
  // handler's path is blank and the request was for another path than the controller's.
  lemma ListedIsRecorded(controller: string, handler: string, rawPath: string)
    ensures Patterns(One(controller), One(handler)) == {NormalizeRoutePattern(Some(controller), One(handler), rawPath)}
        <==> !Blank(handler) || SanitizePath(rawPath) == SanitizePath(controller)
  {
    hide SanitizePath, Blank;
    VariantsOfOne(controller);
    VariantsOfOne(handler);
    var listed := JoinPaths(SanitizePath(controller), SanitizePath(handler));
    assert Patterns(One(controller), One(handler)) == {listed};
    assert listed in {listed};
    if Blank(handler) {
      assert SanitizePath(handler) == "/" by { BlankIsRoot(handler); }
    }
  }

  lemma BlankIsRoot(s: string)
    requires Blank(s)
    ensures SanitizePath(s) == "/"
  {
  }

  // With several paths on either side the recorded pattern is among those listed.
  lemma RecordedIsListed(controller: PathSpec, base: string, handler: PathSpec, rawPath: string)
    requires controller == One(base) || (controller.Many? && base in controller.paths)
    requires match handler
             case One(path) => !Blank(path)
             case Many(paths) => paths != [] && !Blank(paths[0])
             case Missing => false
    ensures NormalizeRoutePattern(Some(base), handler, rawPath) in Patterns(controller, handler)
  {
    hide SanitizePath, Blank;
    var path := if handler.One? then handler.path else handler.paths[0];
    VariantsOfOne(base);
    VariantsOfOne(path);
    assert SanitizePath(Trim(path)) == SanitizePath(path) by { SanitizeTrims(path); }
    assert SanitizePath(base) in PathVariants(controller);
    assert SanitizePath(path) in PathVariants(handler);
  }

  lemma SanitizeTrims(s: string)
    ensures SanitizePath(Trim(s)) == SanitizePath(s)
  {
    hide DropStart, DropEnd, Collapse, Before, IsSpace;
    TrimAgain(s);
  }

  // A request that carries the whole path and no base is recorded under the listed pattern as well.
  lemma WholePathIsListed(controller: string, handler: string, rawPath: string)
    requires SpaceFree(controller) && SpaceFree(handler) && '?' !in controller && '#' !in controller
    ensures Patterns(One(controller), One(handler))
         == {NormalizeRoutePattern(None, One(controller + "/" + handler), rawPath)}
  {
    hide SanitizePath, Blank;
    VariantsOfOne(controller);
    VariantsOfOne(handler);
    var listed := JoinPaths(SanitizePath(controller), SanitizePath(handler));
    assert Patterns(One(controller), One(handler)) == {listed};
    JoinIsWhole(controller, handler);
    assert SanitizePath("/") == "/" by { OwnRoot(); }
    assert !Blank(controller + "/" + handler) by { WholeIsNotBlank(controller, handler); }
  }

  lemma OwnRoot()
    ensures SanitizePath("/") == "/"
  {
    hide Normal, IsSpace, SanitizePath;
    SlashIsNoSpace();
    RootIsNormal();
    OwnPath("/");
  }

  lemma WholeIsNotBlank(controller: string, handler: string)
    requires SpaceFree(controller) && SpaceFree(handler)
    ensures !Blank(controller + "/" + handler)
  {
    CutOfJoin(controller[..0], handler);
    SlashIsNoSpace();
    hide IsSpace;
    assert SpaceFree(controller + "/" + handler);
  }

  /* The interceptor's pattern. */

  lemma {:induction false} DropStartOfJoin(a: string, x: string)
    ensures DropStart(a + x, IsSlash)
         == if DropStart(a, IsSlash) == "" then DropStart(x, IsSlash) else DropStart(a, IsSlash) + x
    decreases |a|
  {
    if a == "" {
      assert a + x == x;
    } else if a[0] == '/' {
      assert (a + x)[1..] == a[1..] + x;
      DropStartOfJoin(a[1..], x);
    }
  }

  // Behind any text, two texts that differ only in their leading slashes collapse to the same.
  lemma {:induction false} CollapseSame(a: string, x: string, y: string)
    requires x != "" && y != "" && x[0] == '/' == y[0] && DropStart(x, IsSlash) == DropStart(y, IsSlash)
    ensures Collapse(a + x, IsSlash, '/') == Collapse(a + y, IsSlash, '/')
    decreases |a|
  {
    hide Collapse, Collapsed, DropStart;
    if a == "" {
      assert a + x == x && a + y == y;
      CollapseRun(x, IsSlash, '/');
      CollapseRun(y, IsSlash, '/');
    } else if a[0] == '/' {
      DropStartOfJoin(a, x);
      DropStartOfJoin(a, y);
      CollapseRun(a + x, IsSlash, '/');
      CollapseRun(a + y, IsSlash, '/');
      if DropStart(a, IsSlash) != "" {
        CollapseSame(DropStart(a, IsSlash), x, y);
      }
    } else {
      assert a + x == [a[0]] + (a[1..] + x) && a + y == [a[0]] + (a[1..] + y);
      CollapseChar(a[0], a[1..] + x);
      CollapseChar(a[0], a[1..] + y);
      CollapseSame(a[1..], x, y);
    }
  }

  lemma {:induction false} DropEndOfJoin(a: string, x: string)
    ensures DropEnd(a + x, IsSpace)
         == if DropEnd(x, IsSpace) == "" then DropEnd(a, IsSpace) else a + DropEnd(x, IsSpace)
    decreases |x|
  {
    if x == "" {
      assert a + x == a;
    } else if IsSpace(x[|x| - 1]) {
      hide IsSpace;
      assert (a + x)[..|a + x| - 1] == a + x[..|x| - 1];
      DropEndOfJoin(a, x[..|x| - 1]);
    } else {
      hide IsSpace;
      assert (a + x)[|a + x| - 1] == x[|x| - 1];
    }
  }

  lemma {:induction false} TrimOfLed(s: string)
    requires s != "" && s[0] == '/'
    ensures Trim(s) == DropEnd(s, IsSpace)
  {
    SlashIsNoSpace();
    hide IsSpace, DropEnd;
  }

  lemma {:induction false} BlankIsDropped(t: string)
    ensures Blank(t) <==> DropEnd(t, IsSpace) == ""
  {
    hide IsSpace;
    var tail := DropStart(t, IsSpace);
    hide DropStart;
    if Blank(t) {
      BlankHasOnlySpaces(t);
    } else {
      assert tail != "" && !IsSpace(tail[0]) && tail[0] == t[|t| - |tail|];
    }
    hide DropEnd;
  }

  lemma BlankHasOnlySpaces(t: string)
    requires Blank(t)
    ensures forall i :: 0 <= i < |t| ==> IsSpace(t[i])
  {
    hide IsSpace;
    var tail := DropStart(t, IsSpace);
    assert forall i :: |t| - |tail| <= i < |t| ==> t[i] == tail[i - (|t| - |tail|)];
  }

  lemma {:induction false} TrimOfJoin(head: string, t: string)
    requires head != "" && head[0] == '/' == head[|head| - 1]
    ensures Trim(head + t) == head + DropEnd(t, IsSpace)
  {
    SlashIsNoSpace();
    hide IsSpace, Trim;
    DropEndOfJoin(head, t);
    DropEndKeeps(head);
    hide DropEnd;
    TrimOfLed(head + t);
    assert head + "" == head;
  }

  lemma {:induction false} CollapseOfJoin(base: string, t: string, u: string)
    requires Normal(base) && base != "/" && Normal("/" + t) && |u| <= |t| && u == t[..|u|]
    ensures Collapse(base + ("//" + u), IsSlash, '/') == base + ("/" + u)
  {
    var two, one, whole := "//" + u, "/" + u, "/" + t;
    SlashesDrop(u);
    hide Collapse, DropStart;
    CollapseSame(base, two, one);
    PartIsCollapsed(whole, IsSlash, '/', 0, |u| + 1);
    assert whole[0..|u| + 1] == one;
    assert base[|base| - 1] != '/';
    hide Collapsed;
    JoinIsCollapsed(base, one, IsSlash, '/');
    CollapseKeeps(base + one, IsSlash, '/');
  }

  lemma {:induction false} SlashesDrop(u: string)
    ensures DropStart("//" + u, IsSlash) == DropStart("/" + u, IsSlash)
  {
    assert ("//" + u)[1..] == "/" + u;
  }

  // What is left of base, two slashes and t.
  lemma {:induction false} CleanedJoin(base: string, t: string, whole: string)
    requires Normal(base) && base != "/" && Normal("/" + t) && whole == base + "//" + t
    ensures Cleaned(whole) == base + ("/" + DropEnd(t, IsSpace)) && Trim(whole) != ""
  {
    NormalEnds(base);
    NormalEnds("/" + t);
    var u := DropEnd(t, IsSpace);
    CollapseOfJoin(base, t, u);
    hide *;
    TrimOfWhole(base, t, whole);
    HasNoQuery(base, t, u);
    CleanedIs(whole, base + ("//" + u), base + ("/" + u));
    TrimOfJoined(base, t);
  }

  lemma NormalEnds(path: string)
    requires Normal(path)
    ensures path != "" && path[0] == '/' && '?' !in path && '#' !in path
    ensures path != "/" ==> path[|path| - 1] != '/'
  {
    hide Collapsed;
  }

  lemma {:induction false} TrimOfWhole(base: string, t: string, whole: string)
    requires base != "" && base[0] == '/' && whole == base + "//" + t
    ensures Trim(whole) == base + ("//" + DropEnd(t, IsSpace))
    ensures |DropEnd(t, IsSpace)| <= |t| && DropEnd(t, IsSpace) == t[..|DropEnd(t, IsSpace)|]
  {
    hide Trim, DropEnd, IsSpace;
    var head := base + "//";
    assert head[0] == base[0] && head[|head| - 1] == '/';
    TrimOfJoin(head, t);
    assert head + DropEnd(t, IsSpace) == base + ("//" + DropEnd(t, IsSpace));
  }

  lemma {:induction false} TrimOfJoined(base: string, t: string)
    requires base != "" && base[0] == '/'
    ensures var joined := base + ("/" + DropEnd(t, IsSpace));
            Trim(joined) == joined
  {
    var u := DropEnd(t, IsSpace);
    var joined := base + ("/" + u);
    SlashIsNoSpace();
    assert joined[|joined| - 1] == if u == "" then '/' else u[|u| - 1];
    assert !IsSpace(joined[|joined| - 1]);
    hide *;
    TrimOfLed(joined);
    DropEndKeeps(joined);
  }

  lemma {:induction false} CleanedIs(value: string, raw: string, collapsed: string)
    requires Trim(value) == raw && '?' !in raw && '#' !in raw && Collapse(raw, IsSlash, '/') == collapsed
    ensures Cleaned(value) == Trim(collapsed)
  {
    hide Trim, Collapse, Before;
    BeforeKeeps(raw, '?');
    BeforeKeeps(raw, '#');
  }

  lemma {:induction false} DropEndKeeps(s: string)
    requires s != "" ==> !IsSpace(s[|s| - 1])
    ensures DropEnd(s, IsSpace) == s
  {
    hide IsSpace;
  }

  lemma HasNoQuery(base: string, t: string, u: string)
    requires '?' !in base && '#' !in base && '?' !in "/" + t && '#' !in "/" + t && |u| <= |t| && u == t[..|u|]
    ensures '?' !in base + ("//" + u) && '#' !in base + ("//" + u)
  {
    assert forall c :: c in u ==> c in "/" + t by {
      forall c | c in u ensures c in "/" + t {
        var i :| 0 <= i < |u| && u[i] == c;
        assert ("/" + t)[i + 1] == c;
      }
    }
  }

  lemma SanitizeOfCleaned(value: string)
    requires Trim(value) != "" && |Cleaned(value)| >= 2 && Cleaned(value)[0] == '/'
    ensures SanitizePath(value) == DropSlash(Cleaned(value))
  {
    hide Cleaned, Trim;
  }

  // A slash with at most white space behind it.
  predicate IsSlashAndSpace(path: string) {
    path != "" && path[0] == '/' && Blank(path[1..])
  }

  // Joining adds nothing to a base exactly when the child is such a path.
  lemma JoinAddsNothing(base: string, child: string)
    requires Normal(base) && base != "/" && Normal(child)
    ensures JoinPaths(base, child) == base <==> IsSlashAndSpace(child)
  {
    hide Cleaned, Blank, DropEnd, Trim, Normal, SanitizePath;
    NormalEnds(base);
    NormalEnds(child);
    var t, whole := child[1..], base + "/" + child;
    assert child == "/" + t && whole == base + "//" + t;
    BlankIsDropped(t);
    CleanedJoin(base, t, whole);
    BlankNothing();
    if child != "/" {
      SanitizeOfCleaned(whole);
      DropSlashOfJoin(base, DropEnd(t, IsSpace));
    }
  }

  lemma DropSlashOfJoin(base: string, u: string)
    requires base != ""
    ensures DropSlash(base + ("/" + u)) == base <==> u == ""
  {
    var joined := base + ("/" + u);
    assert u == "" ==> joined[..|joined| - 1] == base;
  }

  lemma BlankNothing()
    ensures Blank("")
  {
  }

  // When the interceptor logs the pattern that is recorded, for every kind of path a request can carry. The two
  // differ for a handler at the root of the whole service requested elsewhere, for a list of paths, of which the
  // interceptor knows nothing, and for a request without a path, of which it still logs the base.
  lemma LoggedIsRecorded(baseUrl: Option<string>, routePath: PathSpec, rawPath: string)
    ensures
      var base, raw := Base(baseUrl), SanitizePath(rawPath);
      BuildRoutePattern(baseUrl, routePath, rawPath) == NormalizeRoutePattern(baseUrl, routePath, rawPath)
      <==>
        match routePath
        case One(path) =>
          if Blank(path) then base == "/" || base == raw else base != "/" || SanitizePath(path) != "/" || raw == "/"
        case Many(paths) =>
          if paths == [] || Blank(paths[0]) then base == "/" || base == raw
          else if base == "/" then SanitizePath(paths[0]) == raw
          else IsSlashAndSpace(SanitizePath(paths[0]))
        case Missing => base == "/" || base == raw
  {
    hide SanitizePath, Blank, Normal, IsSlashAndSpace;
    var base := Base(baseUrl);
    SanitizeIsNormal(if baseUrl.Some? then baseUrl.value else "/");
    match routePath {
      case One(path) =>
        if Blank(path) {
          BlankIsRoot(path);
        }
      case Many(paths) =>
        if paths != [] && !Blank(paths[0]) {
          SanitizeTrims(paths[0]);
          SanitizeIsNormal(paths[0]);
          if base != "/" {
            JoinAddsNothing(base, SanitizePath(paths[0]));
          }
        }
      case Missing =>
    }
  }

  /* Inputs at which the copies or the passes differ. */

  predicate IsLetter(c: char) { 'a' <= c <= 'z' }

  lemma LetterIsNoSpace(c: char)
    requires IsLetter(c)
    ensures !IsSpace(c) && IsSpace(' ') && !IsSpace('/')
  {
  }

  lemma NothingToTrim(s: string)
    requires s != "" && !IsSpace(s[0]) && !IsSpace(s[|s| - 1])
    ensures Trim(s) == s
  {
    hide IsSpace;
  }

  // A path of one segment of one letter.
  lemma ShortIsOwnPath(path: string, c: char)
    requires path == ['/', c] && IsLetter(c)
    ensures SanitizePath(path) == path && Normal(path) && !IsSlashAndSpace(path)
  {
    LetterIsNoSpace(c);
    hide IsSpace, SanitizePath, Blank;
    assert Normal(path) && !EndsInSpace(path);
    OwnPath(path);
    hide Normal;
    assert path[1..] == [c];
    NothingToTrim([c]);
    assert !IsSlashAndSpace(path) by { OneIsNotBlank([c]); }
  }

  lemma OneIsNotBlank(s: string)
    requires s != "" && Trim(s) == s
    ensures !Blank(s)
  {
    hide Trim;
  }

  lemma SanitizeOfTrimmed(value: string, raw: string)
    requires |raw| >= 2 && raw[0] == '/' && !EndsInSpace(raw) && Trim(value) == raw
    requires Collapsed(raw, IsSlash, '/') && '?' !in raw && '#' !in raw
    ensures SanitizePath(value) == DropSlash(raw)
  {
    SlashIsNoSpace();
    NothingToTrim(raw);
    hide Collapse, Collapsed, SanitizePath, Trim, Before, Cleaned;
    CollapseKeeps(raw, IsSlash, '/');
    CleanedIs(value, raw, raw);
    SanitizeOfCleaned(value);
  }

  lemma SlashIsDropped(once: string, twice: string, c: char)
    requires once == ['/', c, ' ', '/'] && twice == ['/', c, ' '] && IsLetter(c)
    ensures SanitizePath(once) == twice
  {
    LetterIsNoSpace(c);
    assert Collapsed(once, IsSlash, '/');
    hide Collapsed, SanitizePath, IsSpace, Trim;
    NothingToTrim(once);
    SanitizeOfTrimmed(once, once);
    assert once[..3] == twice;
  }

  lemma SpaceIsDropped(twice: string, thrice: string, c: char)
    requires twice == ['/', c, ' '] && thrice == ['/', c] && IsLetter(c)
    ensures SanitizePath(twice) == thrice
  {
    LetterIsNoSpace(c);
    assert twice[..2] == thrice && DropEnd(twice, IsSpace) == DropEnd(thrice, IsSpace);
    assert Collapsed(thrice, IsSlash, '/');
    hide Collapsed, SanitizePath, IsSpace, Trim, DropEnd;
    DropEndKeeps(thrice);
    TrimOfLed(twice);
    NothingToTrim(thrice);
    SanitizeOfTrimmed(twice, thrice);
  }

  // White space before the last slash: normalised once, and once more.
  lemma SanitizeAgainExample()
    ensures SanitizePath("/a /") == "/a " && SanitizePath("/a ") == "/a"
  {
    hide SanitizePath;
    SlashIsDropped("/a /", "/a ", 'a');
    SpaceIsDropped("/a ", "/a", 'a');
  }

  // A handler without a path of its own, requested elsewhere than at its controller's: recorded under the raw path,
  // which the inventory does not list.
  lemma BlankHandlerExample()
    ensures Patterns(One("/a"), One("")) == {"/a"}
    ensures NormalizeRoutePattern(Some("/a"), One(""), "/b") == "/b"
  {
    hide SanitizePath, Blank, Normal, IsSlashAndSpace, PathVariants;
    BlankNothing();
    BlankIsRoot("");
    ShortIsOwnPath("/a", 'a');
    ShortIsOwnPath("/b", 'b');
    VariantsOfOne("/a");
    VariantsOfOne("");
  }

  // A handler with its paths in a list: recorded under the first, logged under the base alone.
  lemma ListOfPathsExample()
    ensures BuildRoutePattern(Some("/a"), Many(["/b"]), "/a/b") == "/a"
    ensures NormalizeRoutePattern(Some("/a"), Many(["/b"]), "/a/b") != "/a"
  {
    hide SanitizePath, Blank, Normal, IsSlashAndSpace, Trim;
    ShortIsOwnPath("/a", 'a');
    ShortIsOwnPath("/b", 'b');
    ShortIsNotBlank("/b", 'b');
    JoinAddsNothing("/a", "/b");
  }

  lemma ShortIsNotBlank(path: string, c: char)
    requires path == ['/', c] && IsLetter(c)
    ensures Trim(path) == path && !Blank(path)
  {
    LetterIsNoSpace(c);
    hide IsSpace;
    NothingToTrim(path);
    hide Trim;
  }
}
