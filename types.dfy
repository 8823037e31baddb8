/** The records the stores keep, from the client's type definitions.
    Only the fields listed here are modelled; the other fields of each record
    are never read or written by the stores' local logic. */
module Types {
  import opened Common

  /** A notification (`type` is renamed `kind`, a Dafny keyword). */
  datatype Notification = Notification(
    id: int,
    user_id: string,
    kind: int,
    title: string,
    content: string,
    source_type: int,
    source_id: string,
    is_read: bool,
    create_time: string)

  datatype NotificationListResponse = NotificationListResponse(
    items: seq<Notification>, total: int, page: int, page_size: int)

  datatype UnreadCountResponse = UnreadCountResponse(count: int)

  /** An article as it appears in a list. */
  datatype Article = Article(
    id: int,
    user_id: string,
    title: string,
    summary: string,
    status: int,
    view_count: int,
    like_count: int,
    comment_count: int,
    favorite_count: int,
    share_count: int)

  /** The current article as the article store reads and writes it: the
      article record nested under `article`, with the viewer's flags beside it. */
  datatype ArticleDetail = ArticleDetail(
    article: Article,
    content: string,
    is_liked: bool,
    is_favorited: bool,
    is_following: bool)

  /** Query parameters of an article list request; an absent number is `None`. */
  datatype ArticleListParams = ArticleListParams(
    category_id: Option<int>,
    column_id: Option<int>,
    topic_id: Option<int>,
    user_id: Option<string>,
    keyword: Option<string>,
    page: Option<int>,
    page_size: Option<int>)

  datatype ArticleListResponse = ArticleListResponse(
    articles: seq<Article>, total: int, page: int, page_size: int)

  /** A comment with its (possibly empty) list of replies; an absent
      `is_liked` reads as false and absent `replies` as the empty list. */
  datatype Comment = Comment(
    id: int,
    target_type: int,
    target_id: int,
    user_id: string,
    parent_id: int,
    root_id: int,
    content: string,
    level: int,
    like_count: int,
    reply_count: int,
    is_liked: bool,
    replies: seq<Comment>)

  datatype CommentListParams = CommentListParams(
    target_type: int, target_id: int, page: Option<int>, page_size: Option<int>)

  datatype CommentListResponse = CommentListResponse(
    comments: seq<Comment>, total: int, page: int, page_size: int)

  /** A user account. */
  datatype User = User(
    id: string,
    phone: string,
    username: string,
    avatar: string,
    sex: int,
    intro: string,
    role: string,
    following_count: int,
    followed_count: int,
    create_time: string)

  datatype LoginRequest = LoginRequest(phone: string, password: string)

  datatype RegisterRequest = RegisterRequest(
    phone: string, username: string, password: string, captchaId: string, captchaVal: string)

  datatype LoginResponse = LoginResponse(token: string, user: User)

  /** The envelope every server reply is wrapped in. */
  datatype ApiResponse<+T> = ApiResponse(code: int, message: string, data: T)
}
