/** The article store: a paged list of articles with an infinite-scroll
    append, and the article currently open with its like and favourite
    counters. */
module ArticleStore {
  import opened Common
  import opened Types

  /** `value || fallback` on an optional number: absent and 0 are falsy. */
  function OrDefault(value: Option<int>, fallback: int): (r: int)
    ensures (value == None || value == Some(0)) ==> r == fallback
    ensures value.Some? && value.value != 0 ==> r == value.value
  {
    if value.Some? && value.value != 0 then value.value else fallback
  }

  /** Whether the server holds more articles than the requested pages
      cover: `(page || 1) * (page_size || 20) < total`. */
  function HasMore(params: ArticleListParams, total: int): (b: bool)
    ensures params.page in {None, Some(0)} && params.page_size in {None, Some(0)} ==> (b <==> 20 < total)
    ensures params.page in {None, Some(0)} && params.page_size.Some? && params.page_size.value != 0 ==>
      (b <==> params.page_size.value < total)
    ensures params.page.Some? && params.page.value != 0 && params.page_size in {None, Some(0)} ==>
      (b <==> params.page.value * 20 < total)
    ensures params.page.Some? && params.page.value != 0 && params.page_size.Some? && params.page_size.value != 0 ==>
      (b <==> params.page.value * params.page_size.value < total)
  {
    OrDefault(params.page, 1) * OrDefault(params.page_size, 20) < total
  }

  /** The ids of a list. */
  function Ids(list: seq<Article>): (ids: set<int>)
    ensures forall a :: a in list ==> a.id in ids
    ensures forall id :: id in ids ==> exists a :: a in list && a.id == id
  {
    set a | a in list :: a.id
  }

  /** `a` keeps some of the elements of `b`, in their order. */
  predicate IsSubsequence(a: seq<Article>, b: seq<Article>)
    decreases |b|
  {
    if a == [] then true
    else if b == [] then false
    else if a[0] == b[0] then IsSubsequence(a[1..], b[1..])
    else IsSubsequence(a, b[1..])
  }

  /** The response articles whose id the list does not hold yet (the
      `filter` with `some` inside `appendArticles`). The filter compares
      against the existing list only: two response articles with the same
      new id are both kept. */
  function FreshArticles(existing: seq<Article>, incoming: seq<Article>): (r: seq<Article>)
    ensures IsSubsequence(r, incoming)
    ensures forall a :: a in r ==> a.id !in Ids(existing)
    ensures forall a :: multiset(r)[a] == (if a.id in Ids(existing) then 0 else multiset(incoming)[a])
  {
    if incoming == [] then []
    else
      var rest := FreshArticles(existing, incoming[1..]);
      assert incoming == [incoming[0]] + incoming[1..];
      if incoming[0].id in Ids(existing) then rest
      else [incoming[0]] + rest
  }

  /** The list `appendArticles` leaves behind. */
  function Appended(existing: seq<Article>, incoming: seq<Article>): (r: seq<Article>)
    ensures |existing| <= |r| && r[..|existing|] == existing
    ensures forall a :: a in r ==> a in existing || a in incoming
  {
    var added := FreshArticles(existing, incoming);
    SubsequenceElements(added, incoming);
    var r := existing + added;
    assert forall a :: a in r ==> a in existing || a in added;
    r
  }

  /** No two articles of a list share an id. */
  predicate UniqueIds(list: seq<Article>)
  {
    forall i, j :: 0 <= i < j < |list| ==> list[i].id != list[j].id
  }

  /** After an append the old list is a prefix of the new one, every added
      article comes from the response in the response's order and has an id
      the old list did not hold, and a response article is left out exactly
      when its id was already present. */
  lemma AppendEffect(existing: seq<Article>, incoming: seq<Article>)
    ensures var r := Appended(existing, incoming);
      && |existing| <= |r| && r[..|existing|] == existing
      && IsSubsequence(r[|existing|..], incoming)
      && (forall a :: a in r[|existing|..] ==> a in incoming && a.id !in Ids(existing))
      && (forall a :: a in incoming ==> (a !in r[|existing|..] <==> a.id in Ids(existing)))
  {
    var added := FreshArticles(existing, incoming);
    var r := Appended(existing, incoming);
    assert r[|existing|..] == added;
    forall a | a in incoming
      ensures a !in added <==> a.id in Ids(existing)
    {
      assert multiset(incoming)[a] > 0;
    }
    forall a | a in added
      ensures a in incoming
    {
      assert multiset(added)[a] > 0;
    }
  }

  /** Appending the same response a second time adds nothing. */
  lemma AppendTwiceAddsNothing(existing: seq<Article>, incoming: seq<Article>)
    ensures Appended(Appended(existing, incoming), incoming) == Appended(existing, incoming)
  {
    var once := Appended(existing, incoming);
    AppendEffect(existing, incoming);
    var again := FreshArticles(once, incoming);
    forall a | a in incoming
      ensures a.id in Ids(once)
    {
      if a.id !in Ids(existing) {
        assert a in once[|existing|..];
        assert a in once;
      } else {
        var b :| b in existing && b.id == a.id;
        assert b in once;
      }
    }
    if again != [] {
      assert false;
    }
  }

  /** A response whose own ids are distinct keeps the list free of
      duplicate ids. */
  lemma {:induction false} AppendKeepsIdsUnique(existing: seq<Article>, incoming: seq<Article>)
    requires UniqueIds(existing) && UniqueIds(incoming)
    ensures UniqueIds(Appended(existing, incoming))
  {
    var added := FreshArticles(existing, incoming);
    SubsequenceKeepsIdsUnique(added, incoming);
    var r := Appended(existing, incoming);
    forall i, j | 0 <= i < j < |r|
      ensures r[i].id != r[j].id
    {
      if j >= |existing| {
        assert r[j] == added[j - |existing|];
        assert r[j] in added;
        if i < |existing| {
          assert r[i] in existing;
        }
      }
    }
  }

  lemma {:induction false} SubsequenceKeepsIdsUnique(a: seq<Article>, b: seq<Article>)
    requires IsSubsequence(a, b) && UniqueIds(b)
    ensures UniqueIds(a)
    decreases |b|
  {
    if a != [] && b != [] {
      assert UniqueIds(b[1..]) by {
        forall i, j | 0 <= i < j < |b[1..]| ensures b[1..][i].id != b[1..][j].id {
          assert b[1..][i] == b[i + 1] && b[1..][j] == b[j + 1];
        }
      }
      if a[0] == b[0] {
        SubsequenceKeepsIdsUnique(a[1..], b[1..]);
        SubsequenceElements(a[1..], b[1..]);
        forall j | 0 < j < |a| ensures a[0].id != a[j].id {
          assert a[j] == a[1..][j - 1];
          assert a[j] in b[1..];
          var k :| 0 <= k < |b[1..]| && b[1..][k] == a[j];
          assert b[k + 1] == a[j];
        }
        forall i, j | 0 <= i < j < |a| ensures a[i].id != a[j].id {
          if i > 0 {
            assert a[i] == a[1..][i - 1] && a[j] == a[1..][j - 1];
          }
        }
      } else {
        SubsequenceKeepsIdsUnique(a, b[1..]);
      }
    }
  }

  lemma {:induction false} SubsequenceElements(a: seq<Article>, b: seq<Article>)
    requires IsSubsequence(a, b)
    ensures forall x :: x in a ==> x in b
    decreases |b|
  {
    if a != [] && b != [] {
      if a[0] == b[0] {
        SubsequenceElements(a[1..], b[1..]);
        assert forall x :: x in a ==> x == a[0] || x in a[1..];
      } else {
        SubsequenceElements(a, b[1..]);
      }
    }
  }

  /** A like or favourite toggle on the open article. */
  datatype Interaction = Like | Unlike | Favorite | Unfavorite

  /** The open article after a confirmed toggle on article `id`: only when it
      is the open one does its flag change and its counter move by one (no
      floor). */
  function Interacted(current: Option<ArticleDetail>, id: int, act: Interaction): (r: Option<ArticleDetail>)
    ensures r.Some? <==> current.Some?
    ensures current.None? || current.value.article.id != id ==> r == current
    ensures current.Some? && current.value.article.id == id ==>
      var d, d' := current.value, r.value;
      && d'.article.id == d.article.id
      && (act == Like ==> d' == d.(is_liked := true, article := d.article.(like_count := d.article.like_count + 1)))
      && (act == Unlike ==> d' == d.(is_liked := false, article := d.article.(like_count := d.article.like_count - 1)))
      && (act == Favorite ==> d' == d.(is_favorited := true, article := d.article.(favorite_count := d.article.favorite_count + 1)))
      && (act == Unfavorite ==> d' == d.(is_favorited := false, article := d.article.(favorite_count := d.article.favorite_count - 1)))
  {
    match current
    case None => None
    case Some(d) =>
      if d.article.id != id then current
      else match act
        case Like => Some(d.(is_liked := true, article := d.article.(like_count := d.article.like_count + 1)))
        case Unlike => Some(d.(is_liked := false, article := d.article.(like_count := d.article.like_count - 1)))
        case Favorite => Some(d.(is_favorited := true, article := d.article.(favorite_count := d.article.favorite_count + 1)))
        case Unfavorite => Some(d.(is_favorited := false, article := d.article.(favorite_count := d.article.favorite_count - 1)))
  }

  /** Like then unlike restores the like counter (and everything but the
      flag); favourite then unfavourite does the same for the favourite
      counter. */
  lemma ToggleRoundTrips(current: Option<ArticleDetail>, id: int)
    ensures Interacted(Interacted(current, id, Like), id, Unlike)
         == if current.Some? && current.value.article.id == id then Some(current.value.(is_liked := false)) else current
    ensures Interacted(Interacted(current, id, Favorite), id, Unfavorite)
         == if current.Some? && current.value.article.id == id then Some(current.value.(is_favorited := false)) else current
  {
  }

  class Store {
    var articles: seq<Article>
    var total: int
    var loading: bool
    var hasMore: bool
    var currentArticle: Option<ArticleDetail>
    var articleLoading: bool

    constructor()
      ensures articles == [] && total == 0 && !loading && hasMore
      ensures currentArticle == None && !articleLoading
    {
      articles := [];
      total := 0;
      loading := false;
      hasMore := true;
      currentArticle := None;
      articleLoading := false;
    }

    /** `fetchArticles(params)`: replace mode. */
    method FetchArticles(params: ArticleListParams, api: Outcome<ArticleListResponse>)
      returns (r: Outcome<ArticleListResponse>)
      modifies this
      ensures r == api
      ensures !loading
      ensures api.Success? ==>
        articles == api.value.articles && total == api.value.total
        && hasMore == HasMore(params, api.value.total)
      ensures api.Failure? ==> articles == old(articles) && total == old(total) && hasMore == old(hasMore)
      ensures currentArticle == old(currentArticle) && articleLoading == old(articleLoading)
    {
      loading := true;
      if api.Success? {
        articles := api.value.articles;
        total := api.value.total;
        hasMore := HasMore(params, api.value.total);
      }
      loading := false;
      r := api;
    }

    /** `appendArticles(params)`: infinite-scroll mode. Does nothing while no
        more pages exist or a request is in flight; the result is then
        `Success(None)` (the promise resolves with undefined). */
    method AppendArticles(params: ArticleListParams, api: Outcome<ArticleListResponse>)
      returns (r: Outcome<Option<ArticleListResponse>>)
      modifies this
      ensures old(!hasMore || loading) ==>
        r == Success(None)
        && articles == old(articles) && total == old(total)
        && hasMore == old(hasMore) && loading == old(loading)
      ensures old(hasMore && !loading) ==>
        && !loading
        && (api.Success? ==>
              r == Success(Some(api.value))
              && articles == Appended(old(articles), api.value.articles)
              && total == api.value.total
              && hasMore == HasMore(params, api.value.total))
        && (api.Failure? ==>
              r == Failure
              && articles == old(articles) && total == old(total) && hasMore == old(hasMore))
      ensures currentArticle == old(currentArticle) && articleLoading == old(articleLoading)
    {
      if !hasMore || loading {
        return Success(None);
      }
      loading := true;
      if api.Failure? {
        loading := false;
        return Failure;
      }
      var res := api.value;
      var newArticles := FreshArticles(articles, res.articles);
      articles := articles + newArticles;
      total := res.total;
      hasMore := HasMore(params, res.total);
      loading := false;
      r := Success(Some(res));
    }

    /** `resetArticles`. */
    method ResetArticles()
      modifies this
      ensures articles == [] && total == 0 && hasMore
      ensures loading == old(loading)
      ensures currentArticle == old(currentArticle) && articleLoading == old(articleLoading)
    {
      articles := [];
      total := 0;
      hasMore := true;
    }

    /** `fetchArticleDetail(id)`: opens the article the server returns. */
    method FetchArticleDetail(id: int, api: Outcome<ArticleDetail>) returns (r: Outcome<ArticleDetail>)
      modifies this
      ensures r == api
      ensures !articleLoading
      ensures currentArticle == (if api.Success? then Some(api.value) else old(currentArticle))
      ensures articles == old(articles) && total == old(total)
      ensures loading == old(loading) && hasMore == old(hasMore)
    {
      articleLoading := true;
      if api.Success? {
        currentArticle := Some(api.value);
      }
      articleLoading := false;
      r := api;
    }

    /** The four toggles `likeArticle`, `unlikeArticle`, `favoriteArticle`
        and `unfavoriteArticle`: a failed call changes nothing and is
        rethrown. */
    method Toggle(id: int, act: Interaction, api: Outcome<()>) returns (r: Outcome<()>)
      modifies this
      ensures r == api
      ensures currentArticle == (if api.Success? then Interacted(old(currentArticle), id, act) else old(currentArticle))
      ensures articles == old(articles) && total == old(total)
      ensures loading == old(loading) && hasMore == old(hasMore) && articleLoading == old(articleLoading)
    {
      if api.Failure? {
        return api;
      }
      if currentArticle.Some? && currentArticle.value.article.id == id {
        var d := currentArticle.value;
        match act
        case Like =>
          currentArticle := Some(d.(is_liked := true, article := d.article.(like_count := d.article.like_count + 1)));
        case Unlike =>
          currentArticle := Some(d.(is_liked := false, article := d.article.(like_count := d.article.like_count - 1)));
        case Favorite =>
          currentArticle := Some(d.(is_favorited := true, article := d.article.(favorite_count := d.article.favorite_count + 1)));
        case Unfavorite =>
          currentArticle := Some(d.(is_favorited := false, article := d.article.(favorite_count := d.article.favorite_count - 1)));
      }
      r := api;
    }

    method LikeArticle(id: int, api: Outcome<()>) returns (r: Outcome<()>)
      modifies this
      ensures r == api
      ensures currentArticle == (if api.Success? then Interacted(old(currentArticle), id, Like) else old(currentArticle))
      ensures articles == old(articles) && total == old(total)
      ensures loading == old(loading) && hasMore == old(hasMore) && articleLoading == old(articleLoading)
    {
      r := Toggle(id, Like, api);
    }

    method UnlikeArticle(id: int, api: Outcome<()>) returns (r: Outcome<()>)
      modifies this
      ensures r == api
      ensures currentArticle == (if api.Success? then Interacted(old(currentArticle), id, Unlike) else old(currentArticle))
      ensures articles == old(articles) && total == old(total)
      ensures loading == old(loading) && hasMore == old(hasMore) && articleLoading == old(articleLoading)
    {
      r := Toggle(id, Unlike, api);
    }

    method FavoriteArticle(id: int, api: Outcome<()>) returns (r: Outcome<()>)
      modifies this
      ensures r == api
      ensures currentArticle == (if api.Success? then Interacted(old(currentArticle), id, Favorite) else old(currentArticle))
      ensures articles == old(articles) && total == old(total)
      ensures loading == old(loading) && hasMore == old(hasMore) && articleLoading == old(articleLoading)
    {
      r := Toggle(id, Favorite, api);
    }

    method UnfavoriteArticle(id: int, api: Outcome<()>) returns (r: Outcome<()>)
      modifies this
      ensures r == api
      ensures currentArticle == (if api.Success? then Interacted(old(currentArticle), id, Unfavorite) else old(currentArticle))
      ensures articles == old(articles) && total == old(total)
      ensures loading == old(loading) && hasMore == old(hasMore) && articleLoading == old(articleLoading)
    {
      r := Toggle(id, Unfavorite, api);
    }

    /** `clearCurrentArticle`. */
    method ClearCurrentArticle()
      modifies this
      ensures currentArticle == None
      ensures articles == old(articles) && total == old(total)
      ensures loading == old(loading) && hasMore == old(hasMore) && articleLoading == old(articleLoading)
    {
      currentArticle := None;
    }
  }
}
