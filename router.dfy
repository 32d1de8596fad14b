/** The route table and navigation guard of the Vue client
    (`web/src/router/index.ts`): which paths are guest pages, the `/`
    redirect, and where `beforeEach` sends a visitor. */
module Router {
  import opened Wrappers
  import opened Text

  /** The pages of the route table; `NotFound` is the catch-all. */
  datatype Route =
    | Home
    | Login
    | Register
    | Pets
    | PetDashboard(petId: string)
    | PetSection(petId: string, section: string)
    | Settings
    | NotFound

  const PetSections: seq<string> := ["feeding", "water", "vaccines", "medications", "events", "symptoms", "weight"]

  /** ASCII case folding, which is all a case-insensitive route pattern made
      of ASCII letters can match (the router's default `sensitive: false`). */
  function Lower(s: string): (t: string)
    ensures |t| == |s|
    decreases |s|
  {
    if s == [] then []
    else [if 'A' <= s[0] <= 'Z' then (s[0] as int + 32) as char else s[0]] + Lower(s[1..])
  }

  /** The segments of a path after its leading `/`, with one trailing `/`
      allowed (the default `strict: false`). */
  function Segments(path: string): seq<string> {
    var body := if path != [] && path[0] == '/' then path[1..] else path;
    var trimmed := if body != [] && body[|body| - 1] == '/' then body[..|body| - 1] else body;
    if trimmed == [] then [] else Split(trimmed, '/')
  }

  /** The route record a path matches. */
  function Match(path: string): (r: Route)
    ensures r.PetSection? ==> Lower(r.section) in PetSections
  {
    var segs := Segments(path);
    if |segs| == 0 then Home
    else if |segs| == 1 && Lower(segs[0]) == "login" then Login
    else if |segs| == 1 && Lower(segs[0]) == "register" then Register
    else if |segs| == 1 && Lower(segs[0]) == "pets" then Pets
    else if |segs| == 1 && Lower(segs[0]) == "settings" then Settings
    else if |segs| == 2 && Lower(segs[0]) == "pets" && segs[1] != "" then PetDashboard(segs[1])
    else if |segs| == 3 && Lower(segs[0]) == "pets" && segs[1] != "" && Lower(segs[2]) in PetSections then
      PetSection(segs[1], segs[2])
    else NotFound
  }

  /** `meta: { guest: true }`: only the login and register pages. */
  predicate Guest(r: Route) {
    r.Login? || r.Register?
  }

  /** The `/` record redirects to `/pets` before any guard runs. */
  function Resolve(path: string): (r: Route)
    ensures !r.Home?
  {
    if Match(path).Home? then Pets else Match(path)
  }

  /** `beforeEach`: the path it redirects to, or `None` to let the
      navigation proceed. */
  function Guard(to: Route, isAuth: bool): (r: Option<string>)
    ensures r.Some? <==> Guest(to) == isAuth
    ensures r == Some("/login") <==> !Guest(to) && !isAuth
    ensures r == Some("/pets") <==> Guest(to) && isAuth
  {
    if !Guest(to) && !isAuth then Some("/login")
    else if Guest(to) && isAuth then Some("/pets")
    else None
  }

  /** A one-segment path, with or without a trailing slash. */
  lemma OneSegment(w: string, path: string)
    requires w != "" && '/' !in w
    requires path == "/" + w || path == "/" + w + "/"
    ensures Segments(path) == [w]
  {
    assert path[1..] == w || path[1..] == w + "/";
    assert (w + "/")[..|w|] == w;
    SplitNoSeparator(w, '/');
  }

  lemma MatchLogin()
    ensures Match("/login") == Login
  {
    OneSegment("login", "/login");
    assert Lower("login") == "login";
  }

  lemma MatchPets()
    ensures Match("/pets") == Pets
  {
    OneSegment("pets", "/pets");
    assert Lower("pets") == "pets";
  }

  lemma MatchRoot()
    ensures Match("/") == Home
  {
  }

  /** No redirect loop: each redirect target passes the guard at once for the
      same authentication state. */
  lemma NoRedirectLoop(path: string, isAuth: bool)
    ensures Guard(Resolve(path), isAuth).Some? ==> Guard(Resolve(Guard(Resolve(path), isAuth).value), isAuth).None?
  {
    MatchLogin();
    MatchPets();
  }

  /** `/` lands on the pet list, which needs a signed-in user. */
  lemma HomeIsPets(isAuth: bool)
    ensures Resolve("/") == Pets
    ensures Guard(Resolve("/"), isAuth) == if isAuth then None else Some("/login")
  {
    MatchRoot();
    MatchPets();
  }

  /** Every page but the two guest pages requires a user, the catch-all
      included. */
  lemma SignedOutGoesToLogin(path: string)
    requires !Guest(Resolve(path))
    ensures Guard(Resolve(path), false) == Some("/login")
  {
  }

  lemma NotFoundNeedsUser()
    ensures !Guest(NotFound) && Guard(NotFound, false) == Some("/login")
  {
  }

  lemma {:induction false} LowerIdempotent(s: string)
    ensures Lower(Lower(s)) == Lower(s)
    decreases |s|
  {
    if s != [] {
      LowerIdempotent(s[1..]);
      assert Lower(s)[1..] == Lower(s[1..]);
    }
  }

  lemma {:induction false} LowerKeepsSlashes(s: string)
    requires '/' !in s
    ensures '/' !in Lower(s)
    decreases |s|
  {
    if s != [] {
      LowerKeepsSlashes(s[1..]);
      assert Lower(s) == [Lower(s)[0]] + Lower(s[1..]);
    }
  }

  /** Matching ignores the case of a one-segment page name: `/LOGIN`,
      `/Login` and `/login` reach the same route. */
  lemma OneSegmentCaseInsensitive(w: string)
    requires w != "" && '/' !in w
    ensures Match("/" + w) == Match("/" + Lower(w))
  {
    LowerKeepsSlashes(w);
    LowerIdempotent(w);
    OneSegment(w, "/" + w);
    OneSegment(Lower(w), "/" + Lower(w));
  }

  /** Matching allows one trailing slash on any path that does not already
      end in one. */
  lemma TrailingSlashIgnored(path: string)
    requires path != [] && path[|path| - 1] != '/'
    ensures Match(path + "/") == Match(path)
  {
    var q := path + "/";
    if path[0] == '/' {
      assert q[1..] == path[1..] + "/";
      assert (path[1..] + "/")[..|path| - 1] == path[1..];
    } else {
      assert q[..|path|] == path;
    }
    assert Segments(q) == Segments(path);
  }

  /** Two trailing slashes leave an empty segment, which only the catch-all
      matches. */
  lemma DoubleSlashNotFound()
    ensures Match("/login//") == NotFound
  {
    assert "/login//"[1..] == "login//";
    assert "login//"[..6] == "login/";
    SplitAtSeparator("login", '/', "");
    assert "login" + ['/'] + "" == "login/";
  }
}
