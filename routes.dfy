/** The route tables of `AppRoutes` (App.tsx): one table when the user is
    authenticated, another when not, each ending in a `*` fallback that
    redirects. A path is its list of segments ("/details/7" is
    `["details", "7"]`, "/" is `[]`); a pattern is a list of literal segments
    and `:name` parameters, each parameter matching exactly one non-empty
    segment. */
module AppRoutes {
  import opened Wrappers

  datatype Page =
    | Market | CropDetails | SubmitOffer | Wallet | Profile | Settings
    | Welcome | Login | Signup
    | Deposit | DepositMethod | Withdraw | ListCrop | EditProfile

  datatype Segment = Literal(text: string) | Param(name: string)

  /** A route's element: a page, or a `<Navigate replace>` to a path. */
  datatype Element = Show(page: Page) | NavigateTo(target: seq<string>)

  datatype Route = Route(pattern: seq<Segment>, element: Element)

  datatype Outcome = Rendered(page: Page, params: map<string, string>) | Redirected(target: seq<string>)

  /** The routes under `MainLayout`, before the `*` fallback. */
  function AuthenticatedRoutes(): seq<Route> {
    [ Route([], NavigateTo(["market"])),
      Route([Literal("market")], Show(Market)),
      Route([Literal("details"), Param("id")], Show(CropDetails)),
      Route([Literal("offer"), Param("id")], Show(SubmitOffer)),
      Route([Literal("wallet")], Show(Wallet)),
      Route([Literal("profile")], Show(Profile)),
      Route([Literal("settings")], Show(Settings)) ]
  }

  /** The routes under `AuthLayout`, before the `*` fallback. */
  function GuestRoutes(): seq<Route> {
    [ Route([Literal("welcome")], Show(Welcome)),
      Route([Literal("login")], Show(Login)),
      Route([Literal("signup")], Show(Signup)) ]
  }

  function Routes(isAuthenticated: bool): seq<Route> {
    if isAuthenticated then AuthenticatedRoutes() else GuestRoutes()
  }

  /** Where the `*` route of each table redirects. */
  function FallbackTarget(isAuthenticated: bool): seq<string> {
    if isAuthenticated then ["market"] else ["welcome"]
  }

  /** The parameters a pattern binds when it matches the whole path. */
  function MatchPattern(pattern: seq<Segment>, path: seq<string>): (r: Option<map<string, string>>)
    ensures r.Some? ==> |pattern| == |path|
  {
    if pattern == [] then (if path == [] then Some(map[]) else None)
    else if path == [] then None
    else
      var rest := MatchPattern(pattern[1..], path[1..]);
      match pattern[0]
      case Literal(text) =>
        if path[0] == text then rest else None
      case Param(name) =>
        if path[0] != "" && rest.Some? then Some(rest.value[name := path[0]]) else None
  }

  /** One path segment against one pattern segment: a literal must be equal,
      a parameter takes any non-empty segment. */
  predicate SegmentFits(segment: Segment, part: string) {
    match segment
    case Literal(text) => part == text
    case Param(_) => part != ""
  }

  /** The path has one segment per pattern segment and each one fits. */
  predicate PathFits(pattern: seq<Segment>, path: seq<string>) {
    |pattern| == |path| && forall k :: 0 <= k < |path| ==> SegmentFits(pattern[k], path[k])
  }

  /** No segment before position `k` is the parameter found at `k`. */
  predicate FirstOccurrence(pattern: seq<Segment>, k: int)
    requires 0 <= k < |pattern|
  {
    forall j :: 0 <= j < k ==> pattern[j] != pattern[k]
  }

  /** `params` binds exactly the parameter names of the pattern, each to the
      path segment at the parameter's first occurrence. */
  predicate BindsParams(pattern: seq<Segment>, path: seq<string>, params: map<string, string>)
    requires |pattern| == |path|
  {
    && (forall n :: n in params ==> exists k :: 0 <= k < |pattern| && pattern[k] == Param(n))
    && (forall k :: 0 <= k < |pattern| && pattern[k].Param? ==> pattern[k].name in params)
    && (forall k :: 0 <= k < |pattern| && pattern[k].Param? && FirstOccurrence(pattern, k) ==>
          pattern[k].name in params && params[pattern[k].name] == path[k])
  }

  /** A pattern matches a path exactly when every segment fits. */
  lemma {:induction false} MatchPatternIff(pattern: seq<Segment>, path: seq<string>)
    ensures MatchPattern(pattern, path).Some? <==> PathFits(pattern, path)
  {
    if pattern != [] && path != [] {
      MatchPatternIff(pattern[1..], path[1..]);
      if PathFits(pattern[1..], path[1..]) && SegmentFits(pattern[0], path[0]) {
        forall k | 0 <= k < |path|
          ensures SegmentFits(pattern[k], path[k])
        {
          if k > 0 {
            assert pattern[1..][k - 1] == pattern[k] && path[1..][k - 1] == path[k];
          }
        }
      }
      if PathFits(pattern, path) {
        forall k | 0 <= k < |path| - 1
          ensures SegmentFits(pattern[1..][k], path[1..][k])
        {
          assert SegmentFits(pattern[k + 1], path[k + 1]);
        }
        assert SegmentFits(pattern[0], path[0]);
      }
    }
  }

  /** A match binds every parameter of the pattern, and nothing else, to the
      segment at the parameter's first occurrence. */
  lemma {:induction false} MatchPatternBinds(pattern: seq<Segment>, path: seq<string>)
    requires MatchPattern(pattern, path).Some?
    ensures BindsParams(pattern, path, MatchPattern(pattern, path).value)
  {
    if pattern != [] {
      var tail, tailPath := pattern[1..], path[1..];
      MatchPatternBinds(tail, tailPath);
      var m := MatchPattern(tail, tailPath).value;
      var r := MatchPattern(pattern, path).value;
      forall n | n in r
        ensures exists k :: 0 <= k < |pattern| && pattern[k] == Param(n)
      {
        if n in m {
          var k :| 0 <= k < |tail| && tail[k] == Param(n);
          assert pattern[k + 1] == Param(n);
        }
      }
      forall k | 0 <= k < |pattern| && pattern[k].Param?
        ensures pattern[k].name in r
      {
        if k > 0 {
          assert tail[k - 1] == pattern[k];
        }
      }
      forall k | 0 <= k < |pattern| && pattern[k].Param? && FirstOccurrence(pattern, k)
        ensures pattern[k].name in r && r[pattern[k].name] == path[k]
      {
        if k > 0 {
          assert tail[k - 1] == pattern[k] && tailPath[k - 1] == path[k];
          assert FirstOccurrence(tail, k - 1) by {
            forall j | 0 <= j < k - 1
              ensures tail[j] != tail[k - 1]
            {
              assert tail[j] == pattern[j + 1];
            }
          }
          assert pattern[0] != pattern[k];
        }
      }
    }
  }

  /** The index of the first route of the table whose pattern matches the
      whole path; `None` when no route matches. */
  function FirstMatch(routes: seq<Route>, path: seq<string>): (r: Option<nat>)
    ensures r.Some? ==> r.value < |routes| && MatchPattern(routes[r.value].pattern, path).Some?
    ensures r.Some? ==> forall j :: 0 <= j < r.value ==> MatchPattern(routes[j].pattern, path).None?
    ensures r.None? ==> forall j :: 0 <= j < |routes| ==> MatchPattern(routes[j].pattern, path).None?
  {
    if routes == [] then None
    else if MatchPattern(routes[0].pattern, path).Some? then Some(0)
    else
      match FirstMatch(routes[1..], path)
      case None => None
      case Some(i) => Some(i + 1)
  }

  /** What the router does with a path: the first matching route's element,
      or the fallback redirect when no route matches. */
  function Resolve(isAuthenticated: bool, path: seq<string>): Outcome {
    var routes := Routes(isAuthenticated);
    match FirstMatch(routes, path)
    case None => Redirected(FallbackTarget(isAuthenticated))
    case Some(i) =>
      match routes[i].element
      case Show(page) => Rendered(page, MatchPattern(routes[i].pattern, path).value)
      case NavigateTo(target) => Redirected(target)
  }

  predicate IsAuthenticatedPage(page: Page) {
    page in {Market, CropDetails, SubmitOffer, Wallet, Profile, Settings}
  }

  predicate IsGuestPage(page: Page) {
    page in {Welcome, Login, Signup}
  }

  /** A path that shows `page` under the given flag. */
  predicate ShowsPage(isAuthenticated: bool, path: seq<string>, page: Page) {
    Resolve(isAuthenticated, path).Rendered? && Resolve(isAuthenticated, path).page == page
  }

  /** Every route of a table shows one of that table's pages or redirects
      to the table's fallback target. */
  lemma TableElements(isAuthenticated: bool, i: int)
    requires 0 <= i < |Routes(isAuthenticated)|
    ensures match Routes(isAuthenticated)[i].element
      case Show(page) => if isAuthenticated then IsAuthenticatedPage(page) else IsGuestPage(page)
      case NavigateTo(target) => target == FallbackTarget(isAuthenticated)
  {
  }

  /** Every page a table renders is one of that table's pages, and every
      redirect goes to the table's fallback target ("/" included). */
  lemma OutcomesBelongToTable(isAuthenticated: bool, path: seq<string>)
    ensures Resolve(isAuthenticated, path).Rendered? ==>
      if isAuthenticated then IsAuthenticatedPage(Resolve(isAuthenticated, path).page)
      else IsGuestPage(Resolve(isAuthenticated, path).page)
    ensures Resolve(isAuthenticated, path).Redirected? ==>
      Resolve(isAuthenticated, path).target == FallbackTarget(isAuthenticated)
  {
    var m := FirstMatch(Routes(isAuthenticated), path);
    if m.Some? {
      TableElements(isAuthenticated, m.value);
    }
  }

  /** A pattern that no one-segment path `[word]` matches. */
  predicate CannotMatchWord(pattern: seq<Segment>, word: string) {
    |pattern| != 1 || (pattern[0].Literal? && pattern[0].text != word)
  }

  /** A one-segment literal path shows the page of the route with that
      literal when no earlier route can match it. */
  lemma ResolveSingle(isAuthenticated: bool, word: string, i: nat)
    requires i < |Routes(isAuthenticated)|
    requires Routes(isAuthenticated)[i].pattern == [Literal(word)]
    requires Routes(isAuthenticated)[i].element.Show?
    requires forall j :: 0 <= j < i ==> CannotMatchWord(Routes(isAuthenticated)[j].pattern, word)
    ensures Resolve(isAuthenticated, [word]) == Rendered(Routes(isAuthenticated)[i].element.page, map[])
  {
    var routes := Routes(isAuthenticated);
    assert MatchPattern(routes[i].pattern, [word]) == Some(map[]);
    assert FirstMatch(routes, [word]) == Some(i);
  }

  /** A `/lit/:name` pattern against a two-segment path. */
  lemma MatchLiteralParam(lit: string, name: string, a: string, b: string)
    ensures MatchPattern([Literal(lit), Param(name)], [a, b])
         == if a == lit && b != "" then Some(map[name := b]) else None
  {
    assert [Literal(lit), Param(name)][1..] == [Param(name)];
    assert [a, b][1..] == [b];
    assert MatchPattern([Param(name)], [b]) == if b != "" then Some(map[name := b]) else None;
  }

  /** "/details/:id" shows the crop's details with `id` bound to the
      segment. */
  lemma DetailsPath(id: string)
    requires id != ""
    ensures Resolve(true, ["details", id]) == Rendered(CropDetails, map["id" := id])
  {
    var routes := Routes(true);
    MatchLiteralParam("details", "id", "details", id);
    assert MatchPattern(routes[0].pattern, ["details", id]).None?;
    assert MatchPattern(routes[1].pattern, ["details", id]).None?;
    assert routes[2].pattern == [Literal("details"), Param("id")];
    assert MatchPattern(routes[2].pattern, ["details", id]).Some?;
    assert FirstMatch(routes, ["details", id]) == Some(2);
  }

  /** "/offer/:id" shows the offer form with `id` bound to the segment. */
  lemma OfferPath(id: string)
    requires id != ""
    ensures Resolve(true, ["offer", id]) == Rendered(SubmitOffer, map["id" := id])
  {
    var routes := Routes(true);
    MatchLiteralParam("offer", "id", "offer", id);
    MatchLiteralParam("details", "id", "offer", id);
    assert MatchPattern(routes[0].pattern, ["offer", id]).None?;
    assert MatchPattern(routes[1].pattern, ["offer", id]).None?;
    assert routes[2].pattern == [Literal("details"), Param("id")];
    assert routes[3].pattern == [Literal("offer"), Param("id")];
    assert MatchPattern(routes[2].pattern, ["offer", id]).None?;
    assert MatchPattern(routes[3].pattern, ["offer", id]).Some?;
    assert FirstMatch(routes, ["offer", id]) == Some(3);
  }

  /** "/market" shows the market. */
  lemma MarketPath()
    ensures Resolve(true, ["market"]) == Rendered(Market, map[])
  {
    ResolveSingle(true, "market", 1);
  }

  /** "/wallet" shows the wallet. */
  lemma WalletPath()
    ensures Resolve(true, ["wallet"]) == Rendered(Wallet, map[])
  {
    assert "market"[0] != "wallet"[0];
    ResolveSingle(true, "wallet", 4);
  }

  /** "/profile" shows the profile. */
  lemma ProfilePath()
    ensures Resolve(true, ["profile"]) == Rendered(Profile, map[])
  {
    assert "market"[0] != "profile"[0] && "wallet"[0] != "profile"[0];
    ResolveSingle(true, "profile", 5);
  }

  /** "/settings" shows the settings. */
  lemma SettingsPath()
    ensures Resolve(true, ["settings"]) == Rendered(Settings, map[])
  {
    assert "market"[0] != "settings"[0] && "wallet"[0] != "settings"[0] && "profile"[0] != "settings"[0];
    ResolveSingle(true, "settings", 6);
  }

  /** Each page of the guest table and the path that shows it. */
  lemma GuestPaths()
    ensures Resolve(false, ["welcome"]) == Rendered(Welcome, map[])
    ensures Resolve(false, ["login"]) == Rendered(Login, map[])
    ensures Resolve(false, ["signup"]) == Rendered(Signup, map[])
  {
    ResolveSingle(false, "welcome", 0);
    assert "welcome"[0] != "login"[0];
    ResolveSingle(false, "login", 1);
    assert "welcome"[0] != "signup"[0] && "login"[0] != "signup"[0];
    ResolveSingle(false, "signup", 2);
  }

  /** The path that shows each page of the authenticated table. */
  function AuthenticatedWitness(page: Page): seq<string> {
    match page
    case CropDetails => ["details", "7"]
    case SubmitOffer => ["offer", "7"]
    case Wallet => ["wallet"]
    case Profile => ["profile"]
    case Settings => ["settings"]
    case _ => ["market"]
  }

  lemma AuthenticatedPageReachable(page: Page)
    requires IsAuthenticatedPage(page)
    ensures ShowsPage(true, AuthenticatedWitness(page), page)
  {
    if page == CropDetails {
      DetailsPath("7");
    } else if page == SubmitOffer {
      OfferPath("7");
    } else if page == Wallet {
      WalletPath();
    } else if page == Profile {
      ProfilePath();
    } else if page == Settings {
      SettingsPath();
    } else {
      MarketPath();
    }
  }

  /** When authenticated, exactly Market, CropDetails, SubmitOffer, Wallet,
      Profile and Settings can be reached. */
  lemma AuthenticatedReachability(page: Page)
    ensures (exists path :: ShowsPage(true, path, page)) <==> IsAuthenticatedPage(page)
  {
    if IsAuthenticatedPage(page) {
      AuthenticatedPageReachable(page);
    } else {
      forall path ensures !ShowsPage(true, path, page) {
        OutcomesBelongToTable(true, path);
      }
    }
  }

  /** When not authenticated, exactly Welcome, Login and Signup can be
      reached. */
  lemma GuestReachability(page: Page)
    ensures (exists path :: ShowsPage(false, path, page)) <==> IsGuestPage(page)
  {
    if IsGuestPage(page) {
      GuestPaths();
      if page == Welcome {
        assert ShowsPage(false, ["welcome"], page);
      } else if page == Login {
        assert ShowsPage(false, ["login"], page);
      } else {
        assert ShowsPage(false, ["signup"], page);
      }
    } else {
      forall path ensures !ShowsPage(false, path, page) {
        OutcomesBelongToTable(false, path);
      }
    }
  }

  /** The deposit, deposit-method, withdraw, list-crop and edit-profile
      pages are in neither table, so no path reaches them. */
  lemma UnroutedPagesUnreachable(isAuthenticated: bool, path: seq<string>)
    ensures Resolve(isAuthenticated, path).Rendered? ==>
      Resolve(isAuthenticated, path).page !in {Deposit, DepositMethod, Withdraw, ListCrop, EditProfile}
  {
    OutcomesBelongToTable(isAuthenticated, path);
  }

  /** "/" redirects to "/market" when authenticated. */
  lemma RootRedirectsToMarket()
    ensures Resolve(true, []) == Redirected(["market"])
  {
    assert MatchPattern(Routes(true)[0].pattern, []).Some?;
  }

  /** A path no route of the table matches redirects to "/market" when
      authenticated and to "/welcome" otherwise. */
  lemma UnmatchedPathsFallBack(isAuthenticated: bool, path: seq<string>)
    requires forall i :: 0 <= i < |Routes(isAuthenticated)| ==> MatchPattern(Routes(isAuthenticated)[i].pattern, path).None?
    ensures Resolve(isAuthenticated, path) == Redirected(FallbackTarget(isAuthenticated))
  {
  }

  /** "/details/:id" needs exactly one segment after "details": with none
      or with two, no route matches and the fallback applies. */
  lemma IdParamBindsOneSegment(id: string, extra: string)
    ensures Resolve(true, ["details"]) == Redirected(["market"])
    ensures Resolve(true, ["details", id, extra]) == Redirected(["market"])
    ensures Resolve(true, ["details", ""]) == Redirected(["market"])
  {
    var routes := Routes(true);
    assert forall i :: 0 <= i < |routes| ==> |routes[i].pattern| <= 2;
    assert MatchPattern(routes[1].pattern, ["details"]).None? by {
      assert "market"[0] != "details"[0];
    }
    assert MatchPattern(routes[4].pattern, ["details"]).None? by {
      assert "wallet"[0] != "details"[0];
    }
    assert MatchPattern(routes[5].pattern, ["details"]).None? by {
      assert "profile"[0] != "details"[0];
    }
    assert MatchPattern(routes[6].pattern, ["details"]).None? by {
      assert "settings"[0] != "details"[0];
    }
    assert MatchPattern(routes[3].pattern, ["details", ""]).None? by {
      assert "offer"[0] != "details"[0];
    }
  }

  /** Every redirect lands on a rendered page: the router never redirects
      twice in a row. */
  lemma RedirectsLand(isAuthenticated: bool, path: seq<string>)
    ensures Resolve(isAuthenticated, path).Redirected? ==>
      Resolve(isAuthenticated, Resolve(isAuthenticated, path).target).Rendered?
  {
    OutcomesBelongToTable(isAuthenticated, path);
    MarketPath();
    GuestPaths();
  }
}
