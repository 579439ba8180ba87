/**
 * The application's route table and the matcher over it. Routes are tried
 * in declaration order and the first whose pattern fits the path's
 * segments wins; the final `*` route catches every path. `/dashboard` is
 * wrapped in a guard that shows it only to an authenticated session.
 *
 * Matching compares literal segments case-sensitively and works on the
 * normalised segment list, so empty segments (a trailing or doubled slash)
 * are ignored.
 */
module App {
  import opened Wrappers
  import opened Paths
  import opened Browser
  import opened Session
  import opened Sitemap

  /** The page components the table can render. */
  datatype View = Home | About | Products | ProductDetail | Contact | Login | Dashboard | NotFound

  /** One segment of a route pattern. */
  datatype Token = Literal(text: string) | Param(name: string) | Splat

  /** A route: its path as declared, that path's compiled pattern (see `PatternOf`),
      the view it renders and whether the guard wraps it. */
  datatype Route = Route(path: string, pattern: seq<Token>, view: View, protected: bool)

  /** The routes, in declaration order. */
  const Table: seq<Route> := [
    Route(RootPath, [], Home, false),
    Route(AboutPath, [Literal("about")], About, false),
    Route(ProductsPath, [Literal("products")], Products, false),
    Route(ProductDetailPath, [Literal("products"), Param("productId")], ProductDetail, false),
    Route(ContactPath, [Literal("contact")], Contact, false),
    Route(LoginPath, [Literal("login")], Login, false),
    Route(DashboardPath, [Literal("dashboard")], Dashboard, true),
    Route(CatchAllPath, [Splat], NotFound, false)
  ]

  function TokenOf(segment: string): Token
  {
    if segment == "*" then Splat
    else if |segment| > 0 && segment[0] == ':' then Param(segment[1..])
    else Literal(segment)
  }

  /** The pattern of a route path: one token per segment. */
  function Compile(path: string): (pattern: seq<Token>)
    ensures |pattern| == |Segments(path)|
  {
    var segments := Segments(path);
    seq(|segments|, i requires 0 <= i < |segments| => TokenOf(segments[i]))
  }

  type Params = map<string, string>

  /** Matches path segments against a pattern, binding each placeholder to its
      segment; a literal must equal its segment, and `*` takes whatever remains. */
  function MatchTokens(pattern: seq<Token>, segments: seq<string>, bound: Params): (r: Option<Params>)
    ensures r.Some? ==> bound.Keys <= r.value.Keys
    ensures r.Some? && Splat !in pattern ==> (|segments| == |pattern|
      && (forall i :: 0 <= i < |pattern| && pattern[i].Literal? ==> segments[i] == pattern[i].text)
      && (forall i :: 0 <= i < |pattern| && pattern[i].Param? ==> pattern[i].name in r.value))
  {
    if pattern == [] then
      if segments == [] then Some(bound) else None
    else
      match pattern[0]
      case Splat => Some(bound)
      case Literal(text) =>
        if segments != [] && segments[0] == text then MatchTokens(pattern[1..], segments[1..], bound) else None
      case Param(name) =>
        if segments != [] then MatchTokens(pattern[1..], segments[1..], bound[name := segments[0]]) else None
  }

  /** A pattern without `*` matches every segment list of its length whose
      segments equal its literals. */
  lemma {:induction false} MatchComplete(pattern: seq<Token>, segments: seq<string>, bound: Params)
    requires Splat !in pattern && |segments| == |pattern|
    requires forall i :: 0 <= i < |pattern| && pattern[i].Literal? ==> segments[i] == pattern[i].text
    ensures MatchTokens(pattern, segments, bound).Some?
  {
    if pattern != [] {
      var next := if pattern[0].Param? then bound[pattern[0].name := segments[0]] else bound;
      assert Splat !in pattern[1..];
      forall i | 0 <= i < |pattern[1..]| && pattern[1..][i].Literal?
        ensures segments[1..][i] == pattern[1..][i].text
      {
        assert pattern[1..][i] == pattern[i + 1];
      }
      MatchComplete(pattern[1..], segments[1..], next);
    }
  }

  /** A binding made before a pattern that never names it again survives the match. */
  lemma {:induction false} KeepsValue(pattern: seq<Token>, segments: seq<string>, bound: Params, name: string)
    requires name in bound && Param(name) !in pattern
    requires MatchTokens(pattern, segments, bound).Some?
    ensures MatchTokens(pattern, segments, bound).value[name] == bound[name]
  {
    if pattern != [] && !pattern[0].Splat? {
      var next := if pattern[0].Param? then bound[pattern[0].name := segments[0]] else bound;
      assert Param(name) !in pattern[1..];
      KeepsValue(pattern[1..], segments[1..], next, name);
    }
  }

  /** A placeholder that is the last one with its name is bound to the segment at its
      position; an earlier placeholder with the same name is overwritten. */
  lemma {:induction false} MatchBinds(pattern: seq<Token>, segments: seq<string>, bound: Params, i: nat)
    requires MatchTokens(pattern, segments, bound).Some? && Splat !in pattern
    requires i < |pattern| && pattern[i].Param? && Param(pattern[i].name) !in pattern[i + 1..]
    ensures |segments| == |pattern|
    ensures MatchTokens(pattern, segments, bound).value[pattern[i].name] == segments[i]
  {
    var next := if pattern[0].Param? then bound[pattern[0].name := segments[0]] else bound;
    assert Splat !in pattern[1..];
    if i == 0 {
      KeepsValue(pattern[1..], segments[1..], next, pattern[0].name);
    } else {
      assert pattern[1..][i - 1] == pattern[i] && pattern[1..][i..] == pattern[i + 1..];
      MatchBinds(pattern[1..], segments[1..], next, i - 1);
    }
  }

  function MatchRoute(route: Route, segments: seq<string>): Option<Params>
  {
    MatchTokens(route.pattern, segments, map[])
  }

  predicate Matches(route: Route, segments: seq<string>)
  {
    MatchRoute(route, segments).Some?
  }

  /** Which route matched, and the parameters it bound. */
  datatype Hit = Hit(index: nat, params: Params)

  /** The first route at or after `from` that matches, in declaration order. */
  function FirstMatch(table: seq<Route>, segments: seq<string>, from: nat): (r: Option<Hit>)
    requires from <= |table|
    ensures r.Some? ==> (from <= r.value.index < |table|
      && MatchRoute(table[r.value.index], segments) == Some(r.value.params)
      && forall j :: from <= j < r.value.index ==> !Matches(table[j], segments))
    ensures r.None? ==> forall j :: from <= j < |table| ==> !Matches(table[j], segments)
    decreases |table| - from
  {
    if from == |table| then None
    else
      match MatchRoute(table[from], segments)
      case Some(params) => Some(Hit(from, params))
      case None => FirstMatch(table, segments, from + 1)
  }

  /** Resolves a pathname against the table. */
  function Resolve(pathname: string): (r: Option<Hit>)
    ensures r.Some? && r.value.index < |Table|
    ensures MatchRoute(Table[r.value.index], Segments(pathname)) == Some(r.value.params)
    ensures forall j :: 0 <= j < r.value.index ==> !Matches(Table[j], Segments(pathname))
  {
    WildcardMatchesAll(Segments(pathname));
    FirstMatch(Table, Segments(pathname), 0)
  }

  /** Specificity of a pattern: literal segments weigh most, then placeholders;
      a wildcard lowers the score. */
  function Score(pattern: seq<Token>): int
  {
    if pattern == [] then 0
    else
      (match pattern[0] case Literal(_) => 10 case Param(_) => 3 case Splat => -2)
      + Score(pattern[1..])
  }

  function RouteScore(route: Route): int { Score(route.pattern) }

  /** The most specific matching route at or after `from`; among equally
      specific ones, the earliest. */
  function BestMatch(table: seq<Route>, segments: seq<string>, from: nat): (r: Option<nat>)
    requires from <= |table|
    ensures r.Some? ==> (from <= r.value < |table| && Matches(table[r.value], segments)
      && (forall j :: from <= j < |table| && Matches(table[j], segments) ==>
            RouteScore(table[j]) <= RouteScore(table[r.value]))
      && (forall j :: from <= j < r.value && Matches(table[j], segments) ==>
            RouteScore(table[j]) < RouteScore(table[r.value])))
    ensures r.None? ==> forall j :: from <= j < |table| ==> !Matches(table[j], segments)
    decreases |table| - from
  {
    if from == |table| then None
    else
      var rest := BestMatch(table, segments, from + 1);
      if Matches(table[from], segments) && (rest.None? || RouteScore(table[rest.value]) <= RouteScore(table[from]))
      then Some(from)
      else rest
  }

  /** When no two routes before the last can match the same path, and the last
      route is less specific than all others, ranking by specificity picks the
      same route as first-match in declaration order. */
  lemma RankingAgreesWithOrder(table: seq<Route>, segments: seq<string>)
    requires |table| >= 1
    requires forall i, j :: 0 <= i < j < |table| - 1 ==>
      !(Matches(table[i], segments) && Matches(table[j], segments))
    requires forall i :: 0 <= i < |table| - 1 ==> RouteScore(table[i]) > RouteScore(table[|table| - 1])
    ensures var first := FirstMatch(table, segments, 0);
      BestMatch(table, segments, 0) == if first.Some? then Some(first.value.index) else None
  {
    var first := FirstMatch(table, segments, 0);
    if first.Some? {
      assert Matches(table[first.value.index], segments);
    }
  }

  /** A one-segment literal path compiles to one literal token. */
  lemma CompileOne(path: string, a: string)
    requires path == "/" + a
    requires IsSegment(a) && a != "*" && a[0] != ':'
    ensures Compile(path) == [Literal(a)]
  {
    SegmentsOfOne(a);
  }

  /** A literal segment followed by a placeholder compiles to a literal and a parameter. */
  lemma CompileLiteralParam(path: string, a: string, b: string)
    requires path == "/" + a + "/" + b
    requires IsSegment(a) && a != "*" && a[0] != ':'
    requires IsSegment(b) && b[0] == ':'
    ensures Compile(path) == [Literal(a), Param(b[1..])]
  {
    SegmentsOfTwo(a, b);
  }

  lemma RootPattern()
    ensures Compile(Table[0].path) == Table[0].pattern
  {
    SlashesContributeNothing("", "");
    assert Table[0].path == "/" + "";
  }

  lemma ProductDetailPattern()
    ensures Compile(Table[3].path) == Table[3].pattern
  {
    CompileLiteralParam(Table[3].path, "products", ":productId");
    assert ":productId"[1..] == "productId";
  }

  lemma WildcardPattern()
    ensures Compile(Table[7].path) == Table[7].pattern
  {
    SegmentsOfSegment("*");
  }

  /** The declared path of a route with a single literal segment compiles to its pattern. */
  lemma LiteralRoutePattern(i: nat, a: string)
    requires i < |Table| && Table[i].path == "/" + a && Table[i].pattern == [Literal(a)]
    requires IsSegment(a) && a != "*" && a[0] != ':'
    ensures Compile(Table[i].path) == Table[i].pattern
  {
    CompileOne(Table[i].path, a);
  }

  /** Each route's declared path compiles to the pattern stored with it. */
  lemma PatternOf(i: nat)
    requires i < |Table|
    ensures Compile(Table[i].path) == Table[i].pattern
  {
    if i == 0 {
      RootPattern();
    } else if i == 3 {
      ProductDetailPattern();
    } else if i == 7 {
      WildcardPattern();
    } else {
      LiteralRoutePattern(i, Table[i].pattern[0].text);
    }
  }

  /** A one-literal pattern matches exactly the one-segment list of that literal. */
  lemma MatchOneLiteral(t: string, s: seq<string>)
    ensures MatchTokens([Literal(t)], s, map[]) == if s == [t] then Some(map[]) else None
  {
    assert [Literal(t)][1..] == [];
    if |s| >= 1 {
      assert s == [s[0]] + s[1..];
    }
  }

  /** A literal then a placeholder matches two segments, binding the second. */
  lemma MatchLiteralParam(t: string, n: string, s: seq<string>)
    ensures MatchTokens([Literal(t), Param(n)], s, map[]) ==
      if |s| == 2 && s[0] == t then Some(map[n := s[1]]) else None
  {
    var p := [Literal(t), Param(n)];
    assert p[1..] == [Param(n)] && p[1..][1..] == [];
    if s != [] && s[0] == t {
      var rest := s[1..];
      assert MatchTokens(p, s, map[]) == MatchTokens([Param(n)], rest, map[]);
      if rest != [] {
        assert rest[0] == s[1];
        assert MatchTokens([Param(n)], rest, map[]) == MatchTokens([], rest[1..], map[n := s[1]]);
        assert rest[1..] == [] <==> |s| == 2;
      }
    }
  }

  /** The last route matches every path. */
  lemma WildcardMatchesAll(segments: seq<string>)
    ensures MatchRoute(Table[|Table| - 1], segments) == Some(map[])
  {
  }

  /** What each route of the table matches, and what it binds. */
  lemma RouteMatches(s: seq<string>)
    ensures MatchRoute(Table[0], s) == if s == [] then Some(map[]) else None
    ensures MatchRoute(Table[1], s) == if s == ["about"] then Some(map[]) else None
    ensures MatchRoute(Table[2], s) == if s == ["products"] then Some(map[]) else None
    ensures MatchRoute(Table[3], s) ==
      if |s| == 2 && s[0] == "products" then Some(map["productId" := s[1]]) else None
    ensures MatchRoute(Table[4], s) == if s == ["contact"] then Some(map[]) else None
    ensures MatchRoute(Table[5], s) == if s == ["login"] then Some(map[]) else None
    ensures MatchRoute(Table[6], s) == if s == ["dashboard"] then Some(map[]) else None
    ensures MatchRoute(Table[7], s) == Some(map[])
  {
    MatchOneLiteral("about", s);
    MatchOneLiteral("products", s);
    MatchLiteralParam("products", "productId", s);
    MatchOneLiteral("contact", s);
    MatchOneLiteral("login", s);
    MatchOneLiteral("dashboard", s);
  }

  /** Reference resolution of a segment list, written as a decision on its shape. */
  function Expected(s: seq<string>): Hit
  {
    if s == [] then Hit(0, map[])
    else if s == ["about"] then Hit(1, map[])
    else if s == ["products"] then Hit(2, map[])
    else if |s| == 2 && s[0] == "products" then Hit(3, map["productId" := s[1]])
    else if s == ["contact"] then Hit(4, map[])
    else if s == ["login"] then Hit(5, map[])
    else if s == ["dashboard"] then Hit(6, map[])
    else Hit(7, map[])
  }

  /** First-match resolution over the table agrees with the reference decision. */
  lemma ResolveByCases(pathname: string)
    ensures Resolve(pathname) == Some(Expected(Segments(pathname)))
  {
    RouteMatches(Segments(pathname));
  }

  /** No path matches two routes other than the wildcard. */
  lemma NoOverlap(s: seq<string>)
    ensures forall i, j :: 0 <= i < j < |Table| - 1 ==> !(Matches(Table[i], s) && Matches(Table[j], s))
  {
    RouteMatches(s);
  }

  /** Every route but the wildcard is more specific than the wildcard. */
  lemma WildcardLeastSpecific()
    ensures forall i :: 0 <= i < |Table| - 1 ==> RouteScore(Table[i]) > RouteScore(Table[|Table| - 1])
  {
  }

  /** For this table, ranking by specificity resolves every path to the same
      route as first-match in declaration order. */
  lemma RankingAgreesForTable(pathname: string)
    ensures BestMatch(Table, Segments(pathname), 0) == Some(Resolve(pathname).value.index)
  {
    NoOverlap(Segments(pathname));
    WildcardLeastSpecific();
    RankingAgreesWithOrder(Table, Segments(pathname));
  }

  /** A path resolves to the wildcard's NotFound exactly when no other route matches it. */
  lemma NotFoundIffNothingElseMatches(pathname: string)
    ensures Table[Resolve(pathname).value.index].view == NotFound
      <==> forall i :: 0 <= i < |Table| - 1 ==> !Matches(Table[i], Segments(pathname))
  {
    RouteMatches(Segments(pathname));
  }

  /** `/products/<x>` resolves to ProductDetail with `productId` bound to `x`. */
  lemma ProductPathResolves(x: string)
    requires IsSegment(x)
    ensures Resolve("/products/" + x) == Some(Hit(3, map["productId" := x]))
    ensures Table[3].view == ProductDetail
  {
    assert "/products/" + x == "/" + "products" + "/" + x;
    SegmentsOfTwo("products", x);
    ResolveByCases("/products/" + x);
  }

  /** A one-segment path resolves as its segment list `[a]` does. */
  lemma OneSegmentResolves(pathname: string, a: string)
    requires pathname == "/" + a && IsSegment(a)
    ensures Resolve(pathname) == Some(Expected([a]))
  {
    SegmentsOfOne(a);
    ResolveByCases(pathname);
  }

  /** The root path resolves to the Home route. */
  lemma RootResolves(pathname: string)
    requires pathname == RootPath
    ensures Resolve(pathname) == Some(Hit(0, map[]))
  {
    SlashesContributeNothing("", "");
    assert pathname == "/" + "";
    ResolveByCases(pathname);
  }

  /** A route declared as `/a` resolves to itself when the reference decision sends `[a]` there. */
  lemma LiteralRouteResolves(i: nat, a: string)
    requires i < |Table| && Table[i].path == "/" + a && IsSegment(a)
    requires Expected([a]) == Hit(i, map[])
    ensures Resolve(Table[i].path) == Some(Hit(i, map[]))
  {
    OneSegmentResolves(Table[i].path, a);
  }

  /** Each declared path resolves to its own route. One lemma per route keeps each
      proof small; `DeclaredPathResolves` combines them. */
  lemma AboutResolves()
    ensures Resolve(Table[1].path) == Some(Hit(1, map[]))
  {
    LiteralRouteResolves(1, "about");
  }

  lemma ProductsResolves()
    ensures Resolve(Table[2].path) == Some(Hit(2, map[]))
  {
    LiteralRouteResolves(2, "products");
  }

  lemma ContactResolves()
    ensures Resolve(Table[4].path) == Some(Hit(4, map[]))
  {
    LiteralRouteResolves(4, "contact");
  }

  lemma LoginResolves()
    ensures Resolve(Table[5].path) == Some(Hit(5, map[]))
  {
    LiteralRouteResolves(5, "login");
  }

  lemma DashboardResolves()
    ensures Resolve(Table[6].path) == Some(Hit(6, map[]))
  {
    LiteralRouteResolves(6, "dashboard");
  }

  lemma ProductDetailResolves()
    ensures Resolve(Table[3].path) == Some(Hit(3, map["productId" := ":productId"]))
  {
    assert Table[3].path == "/products/" + ":productId";
    ProductPathResolves(":productId");
  }

  /** Every declared path but `*` resolves to its own route; the placeholder path
      `/products/:productId` binds the text `:productId` itself. */
  lemma DeclaredPathResolves(i: nat)
    requires i < |Table| - 1
    ensures Resolve(Table[i].path) ==
      Some(Hit(i, if i == 3 then map["productId" := ":productId"] else map[]))
  {
    if i == 0 {
      RootResolves(Table[i].path);
    } else if i == 1 {
      AboutResolves();
    } else if i == 2 {
      ProductsResolves();
    } else if i == 3 {
      ProductDetailResolves();
    } else if i == 4 {
      ContactResolves();
    } else if i == 5 {
      LoginResolves();
    } else {
      DashboardResolves();
    }
  }

  /** A path one segment deeper than a product falls through to NotFound. */
  lemma DeeperProductPathNotFound(x: string, y: string)
    requires IsSegment(x) && IsSegment(y)
    ensures Resolve("/products/" + x + "/" + y) == Some(Hit(7, map[]))
  {
    assert "/products/" + x + "/" + y == ("/" + "products" + "/" + x) + "/" + y;
    SegmentsOfTwo("products", x);
    SegmentsConcat("/" + "products" + "/" + x, y);
    SegmentsOfSegment(y);
    ResolveByCases("/products/" + x + "/" + y);
  }

  /** The table has eight routes; the wildcard is the last and only one; only the
      dashboard is protected; the only placeholder is `productId` of route 3. */
  lemma TableShape()
    ensures |Table| == 8
    ensures Table[|Table| - 1].view == NotFound
    ensures forall i :: 0 <= i < |Table| ==> (Splat in Table[i].pattern <==> i == |Table| - 1)
    ensures forall i :: 0 <= i < |Table| ==> (Table[i].protected <==> Table[i].path == DashboardPath)
    ensures forall i, t :: 0 <= i < |Table| && t in Table[i].pattern && t.Param? ==>
      i == 3 && t == Param("productId")
  {
  }

  /** What the router renders for a pathname, or where it redirects. */
  datatype Screen = Show(view: View, params: Params, pathname: string) | Redirect(to: string)

  /** The guard around protected routes: let the route through when the session
      flag is truthy, otherwise send the user to the login page. The guard's own
      source is not part of this model; this is its assumed behaviour. */
  function Admits(route: Route, storage: Storage): (admitted: bool)
    ensures route in Table ==> (admitted <==> route.path != DashboardPath || IsAuthenticated(storage))
  {
    !route.protected || IsAuthenticated(storage)
  }

  /** Resolves a pathname and applies the guard. */
  function Navigate(pathname: string, storage: Storage): (screen: Screen)
    ensures var hit := Resolve(pathname).value;
      && (screen.Redirect? <==> Table[hit.index].protected && !IsAuthenticated(storage))
      && (screen.Redirect? ==> screen.to == LoginPath)
      && (screen.Show? ==> screen == Show(Table[hit.index].view, hit.params, pathname))
  {
    var hit := Resolve(pathname).value;
    var route := Table[hit.index];
    if Admits(route, storage) then Show(route.view, hit.params, pathname) else Redirect(LoginPath)
  }

  /** The dashboard is shown to an authenticated session and redirects to the login page otherwise. */
  lemma DashboardGuarded(pathname: string, storage: Storage)
    requires Segments(pathname) == ["dashboard"]
    ensures Navigate(pathname, storage) ==
      if IsAuthenticated(storage) then Show(Dashboard, map[], pathname) else Redirect(LoginPath)
  {
    ResolveByCases(pathname);
  }

  /** Every other path is shown whatever the session. */
  lemma OthersUnguarded(pathname: string, storage: Storage)
    requires Segments(pathname) != ["dashboard"]
    ensures Navigate(pathname, storage).Show?
  {
    ResolveByCases(pathname);
  }

  /** An unmatched path shows NotFound, which carries the requested path. */
  lemma UnmatchedShowsNotFound(pathname: string, storage: Storage)
    requires forall i :: 0 <= i < |Table| - 1 ==> !Matches(Table[i], Segments(pathname))
    ensures Navigate(pathname, storage) == Show(NotFound, map[], pathname)
  {
    RouteMatches(Segments(pathname));
  }

  /** The guard's redirect target is itself public, so redirection never loops. */
  lemma RedirectTargetPublic(pathname: string, storage: Storage)
    requires pathname == LoginPath
    ensures Navigate(pathname, storage) == Show(Login, map[], pathname)
  {
    LoginPathSegments(pathname);
    LoginShown(pathname, storage);
  }

  /** Any path whose only segment is `login` shows the login page in every session. */
  lemma LoginShown(pathname: string, storage: Storage)
    requires Segments(pathname) == ["login"]
    ensures Navigate(pathname, storage) == Show(Login, map[], pathname)
  {
    ResolveByCases(pathname);
  }

  /** Opening `/dashboard` itself: shown when authenticated, else redirected to the login page. */
  lemma DashboardScreen(pathname: string, storage: Storage)
    requires pathname == DashboardPath
    ensures Navigate(pathname, storage) ==
      if IsAuthenticated(storage) then Show(Dashboard, map[], pathname) else Redirect(LoginPath)
  {
    DashboardPathSegments(pathname);
    DashboardGuarded(pathname, storage);
  }

  lemma DashboardPathSegments(pathname: string)
    requires pathname == DashboardPath
    ensures Segments(pathname) == ["dashboard"]
  {
    SegmentsOfOne("dashboard");
    assert pathname == "/" + "dashboard";
  }

  lemma LoginPathSegments(pathname: string)
    requires pathname == LoginPath
    ensures Segments(pathname) == ["login"]
  {
    SegmentsOfOne("login");
    assert pathname == "/" + "login";
  }
}
