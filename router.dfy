/** The page router: the route table and the guard that runs before every
    navigation. */
module Router {
  import opened Common

  /** A route of the table, with its `meta.title` and `meta.requiresAuth`. */
  datatype RouteRecord = RouteRecord(path: string, name: string, title: string, requiresAuth: bool)

  const Routes: seq<RouteRecord> := [
    RouteRecord("/", "home", "首页", false),
    RouteRecord("/articles", "articles", "文章列表", false),
    RouteRecord("/article/:id", "article-detail", "文章详情", false),
    RouteRecord("/article/create", "article-create", "写文章", true),
    RouteRecord("/article/:id/edit", "article-edit", "编辑文章", true),
    RouteRecord("/drafts", "drafts", "我的草稿", true),
    RouteRecord("/categories", "categories", "分类", false),
    RouteRecord("/topics", "topics", "话题", false),
    RouteRecord("/topic/:id", "topic-detail", "话题详情", false),
    RouteRecord("/columns", "columns", "专栏", false),
    RouteRecord("/column/:id", "column-detail", "专栏详情", false),
    RouteRecord("/search", "search", "搜索", false),
    RouteRecord("/login", "login", "登录", false),
    RouteRecord("/register", "register", "注册", false),
    RouteRecord("/user/:id", "user-profile", "个人主页", false),
    RouteRecord("/settings", "settings", "设置", true),
    RouteRecord("/notifications", "notifications", "通知中心", true),
    RouteRecord("/about", "about", "关于我们", false),
    RouteRecord("/terms", "terms", "用户协议", false),
    RouteRecord("/privacy", "privacy", "隐私政策", false)
  ]

  /** The names of the routes that need a signed-in user. */
  const AuthRequired: set<string> := {"article-create", "article-edit", "drafts", "settings", "notifications"}

  /** The target of a navigation: its full path and its route meta (a
      location that matches no route has no title and no flag). */
  datatype Location = Location(fullPath: string, title: Option<string>, requiresAuth: bool)

  /** The location of a path that matched route `r`. */
  function LocationOf(r: RouteRecord, fullPath: string): Location
  {
    Location(fullPath, Some(r.title), r.requiresAuth)
  }

  /** The guard's single call of `next`: proceed to the target unchanged, or
      go to the named route with a query. */
  datatype Decision = Proceed | RedirectTo(name: string, query: map<string, string>)

  /** What the guard does: the page title it sets and its one decision. */
  datatype GuardResult = GuardResult(title: string, decision: Decision)

  /** `to.meta.title as string`, `+`-concatenated with the suffix; an absent
      title becomes `undefined`. */
  function TitleText(title: Option<string>): (t: string)
    ensures title.Some? ==> t == title.value
    ensures title.None? ==> t == "undefined"
  {
    match title
    case Some(t) => t
    case None => "undefined"
  }

  /** `router.beforeEach`: set the title, then send a visitor without a
      login who asks for a protected route to `login`, remembering where they
      were going; everything else proceeds. */
  function BeforeEach(to: Location, isLoggedIn: bool): (g: GuardResult)
    ensures g.title == TitleText(to.title) + " - Astronomer"
    ensures g.decision.RedirectTo? <==> to.requiresAuth && !isLoggedIn
    ensures g.decision.RedirectTo? ==> g.decision == RedirectTo("login", map["redirect" := to.fullPath])
  {
    var title := TitleText(to.title) + " - Astronomer";
    if to.requiresAuth && !isLoggedIn then
      GuardResult(title, RedirectTo("login", map["redirect" := to.fullPath]))
    else
      GuardResult(title, Proceed)
  }

  /** Exactly the five routes creating or editing articles, listing drafts,
      settings and notifications, need a login. */
  lemma AuthRoutes()
    ensures forall r :: r in Routes ==> (r.requiresAuth <==> r.name in AuthRequired)
    ensures forall n :: n in AuthRequired ==> exists r :: r in Routes && r.name == n
  {
    AuthRoutesByIndex();
    forall r | r in Routes
      ensures r.requiresAuth <==> r.name in AuthRequired
    {
      var i :| 0 <= i < |Routes| && Routes[i] == r;
    }
    AuthNamesPresent();
  }

  lemma AuthRoutesByIndex()
    ensures forall i :: 0 <= i < |Routes| ==> (Routes[i].requiresAuth <==> Routes[i].name in AuthRequired)
  {
    AuthRoutesLow();
    AuthRoutesHigh();
  }

  // The table is checked in two halves only to keep each proof small.
  lemma AuthRoutesLow()
    ensures forall i :: 0 <= i < 10 ==> (Routes[i].requiresAuth <==> Routes[i].name in AuthRequired)
  {
    assert Routes[0].requiresAuth <==> Routes[0].name in AuthRequired;
    assert Routes[1].requiresAuth <==> Routes[1].name in AuthRequired;
    assert Routes[2].requiresAuth <==> Routes[2].name in AuthRequired;
    assert Routes[3].requiresAuth <==> Routes[3].name in AuthRequired;
    assert Routes[4].requiresAuth <==> Routes[4].name in AuthRequired;
    assert Routes[5].requiresAuth <==> Routes[5].name in AuthRequired;
    assert Routes[6].requiresAuth <==> Routes[6].name in AuthRequired;
    assert Routes[7].requiresAuth <==> Routes[7].name in AuthRequired;
    assert Routes[8].requiresAuth <==> Routes[8].name in AuthRequired;
    assert Routes[9].requiresAuth <==> Routes[9].name in AuthRequired;
  }

  lemma AuthRoutesHigh()
    ensures forall i :: 10 <= i < 20 ==> (Routes[i].requiresAuth <==> Routes[i].name in AuthRequired)
  {
    assert Routes[10].requiresAuth <==> Routes[10].name in AuthRequired;
    assert Routes[11].requiresAuth <==> Routes[11].name in AuthRequired;
    assert Routes[12].requiresAuth <==> Routes[12].name in AuthRequired;
    assert Routes[13].requiresAuth <==> Routes[13].name in AuthRequired;
    assert Routes[14].requiresAuth <==> Routes[14].name in AuthRequired;
    assert Routes[15].requiresAuth <==> Routes[15].name in AuthRequired;
    assert Routes[16].requiresAuth <==> Routes[16].name in AuthRequired;
    assert Routes[17].requiresAuth <==> Routes[17].name in AuthRequired;
    assert Routes[18].requiresAuth <==> Routes[18].name in AuthRequired;
    assert Routes[19].requiresAuth <==> Routes[19].name in AuthRequired;
  }

  lemma AuthNamesPresent()
    ensures forall n :: n in AuthRequired ==> exists r :: r in Routes && r.name == n
  {
    forall n | n in AuthRequired
      ensures exists r :: r in Routes && r.name == n
    {
      var i := if n == "article-create" then 3 else if n == "article-edit" then 4
               else if n == "drafts" then 5 else if n == "settings" then 15 else 16;
      assert Routes[i] in Routes && Routes[i].name == n;
    }
  }

  /** The table has twenty routes and no two share a name, so a redirect by
      name, such as the one to `login`, has exactly one target. */
  lemma RouteTable()
    ensures |Routes| == 20
    ensures forall i, j :: 0 <= i < j < |Routes| ==> Routes[i].name != Routes[j].name
  {
    var names := seq(|Routes|, i requires 0 <= i < |Routes| => Routes[i].name);
    assert names == ["home", "articles", "article-detail", "article-create", "article-edit", "drafts",
                     "categories", "topics", "topic-detail", "columns", "column-detail", "search", "login",
                     "register", "user-profile", "settings", "notifications", "about", "terms", "privacy"];
  }

  /** A public route never redirects, whatever the login state. */
  lemma PublicRoutesProceed(r: RouteRecord, fullPath: string, isLoggedIn: bool)
    requires r in Routes && r.name !in AuthRequired
    ensures BeforeEach(LocationOf(r, fullPath), isLoggedIn).decision == Proceed
  {
    AuthRoutes();
  }

  /** The redirect does not loop: there is a `login` route, it is public, so
      guarding the redirect target proceeds. */
  lemma RedirectNeverLoops(to: Location, isLoggedIn: bool, loginPath: string)
    requires BeforeEach(to, isLoggedIn).decision.RedirectTo?
    ensures exists r :: r in Routes && r.name == BeforeEach(to, isLoggedIn).decision.name
    ensures forall r :: r in Routes && r.name == BeforeEach(to, isLoggedIn).decision.name ==>
      BeforeEach(LocationOf(r, loginPath), isLoggedIn).decision == Proceed
  {
    assert Routes[12].name == "login";
    AuthRoutes();
  }
}
