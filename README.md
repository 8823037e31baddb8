# Astronomer client: local state logic

Astronomer's browser client is a Vue application whose Pinia stores hold
articles, comments, notifications and the signed-in session. This project
models what the client does with a server reply, in the stores, the router's
navigation guard and the HTTP client's interceptors. It proves the properties
the client relies on.

Each store action is one atomic step. The server's answer is a parameter of
type `Outcome<T>`: `Success(value)` or `Failure`. The action returns the
outcome its promise settles with. The stores are classes whose fields are the
stores' refs:

- `NotificationStore` keeps an unread counter beside a list of
  notifications. Each edit is a method, specified by a pure step function on
  a `Snapshot`. Lemmas prove that every edit keeps the counter equal to the
  number of unread notifications. `markAllAsRead` keeps its loop.
- `ArticleStore` holds a paged list with a replace fetch and an
  append-with-deduplication fetch, the `hasMore` formula, and the like and
  favourite toggles on the open article.
- `CommentStore` holds a forest of comments. `FindCommentById` is the
  recursive depth-first search, proved to return the first match in
  pre-order. Like and unlike edit that one comment and nothing else.
- `UserStore` holds the token and the user, mirrored in a `LocalStorage`
  object (module `Storage`) that holds a map from keys to items.
- `Router` holds the route table and the `beforeEach` guard as a pure
  decision. The guard's effect on `document.title` is the returned title.
- `Request` holds the request interceptor, which sets the `Authorization`
  header in place, and the response and error interceptors. Their
  classification is pure; their effect on storage is a method.

`Types` holds the records the client exchanges with the server. `Common`
holds `Option`, `Outcome` and `Max`. In the client, the article store reads
`currentArticle.article.id` and `currentArticle.article.like_count`, but the
`ArticleDetail` type it declares is flat. The model follows the store as
written: `ArticleDetail` wraps an `Article`.

## Model

| member | source | states |
|---|---|---|
| Common.Max | src/stores/notification.ts:45 | `Math.max`: the result is at least both arguments and equals one of them |
| Storage.StoredToken | src/stores/user.ts:9 | `getItem('token') or ''`: a text item stored under `token` reads back as that text; with no item the token is empty |
| Storage.StoredUser | src/stores/user.ts:10 | a user is read back exactly when a user item is stored under `user`, and it is that user |
| NotificationStore.FindIndex | src/stores/notification.ts:71 | the index of the first notification with the id, or -1 exactly when none has it |
| NotificationStore.AllRead | src/stores/notification.ts:58 | same length; every notification is read and otherwise unchanged |
| NotificationStore.MarkedAsRead | src/stores/notification.ts:42-46 | marking one read keeps the length and every id, never makes a notification unread, and changes nothing when no notification has the id |
| NotificationStore.MarkedAllAsRead | src/stores/notification.ts:58-59 | counter 0, same length, every notification read |
| NotificationStore.Deleted | src/stores/notification.ts:71-78 | with a notification carrying the id, the list gets one shorter; with none, nothing changes |
| NotificationStore.Cleared | src/stores/notification.ts:86-89 | counter 0 and an empty list |
| NotificationStore.MarkAsReadOnUnread | src/stores/notification.ts:42-46 | on an unread first match: only that notification becomes read, the rest and the order stay, and the counter becomes `max(0, count-1)` |
| NotificationStore.MarkAsReadIdempotent | src/stores/notification.ts:42-43 | no change when no notification has the id or the first match is already read; marking twice equals marking once |
| NotificationStore.MarkAllAsReadEffect | src/stores/notification.ts:58-59 | counter 0; length, order and ids kept; every notification read |
| NotificationStore.DeleteEffect | src/stores/notification.ts:71-78 | removes exactly the first match and keeps the others in order; the counter drops (floored at 0) only when the removed one was unread |
| NotificationStore.DeleteMissing | src/stores/notification.ts:71-72 | deleting an id no notification has changes nothing |
| NotificationStore.CounterStaysNonNegative | src/stores/notification.ts:38-89 | mark-all and clear leave the counter at 0 or above; mark-one and delete keep a non-negative counter non-negative |
| NotificationStore.UnreadAfterMark | src/stores/notification.ts:44-45 | reading one unread notification lowers the unread number by one |
| NotificationStore.UnreadAfterRemove | src/stores/notification.ts:74-77 | removing a notification lowers the unread number by one exactly when it was unread |
| NotificationStore.NoneUnreadAfterAllRead | src/stores/notification.ts:58-59 | after mark-all no notification is unread |
| NotificationStore.EditsKeepConsistent | src/stores/notification.ts:38-89 | when the counter equals the unread number, every edit keeps it equal |
| NotificationStore.MarkKeepsConsistent | src/stores/notification.ts:42-46 | marking one read keeps the counter equal to the unread number |
| NotificationStore.DeleteKeepsConsistent | src/stores/notification.ts:71-78 | deleting keeps the counter equal to the unread number |
| NotificationStore.Store.constructor | src/stores/notification.ts:8-10 | the store starts with counter 0, an empty list, not loading, and consistent |
| NotificationStore.Store.FetchUnreadCount | src/stores/notification.ts:13-20 | takes the server's count on success; a failure leaves the counter as it was and is not propagated |
| NotificationStore.Store.FetchNotifications | src/stores/notification.ts:23-35 | replaces the list on success, rethrows a failure, and always ends with `loading` false |
| NotificationStore.Store.MarkAsRead | src/stores/notification.ts:38-51 | on success the state becomes `MarkedAsRead` of the old state; a failure changes nothing and is rethrown |
| NotificationStore.Store.MarkAllAsRead | src/stores/notification.ts:54-64 | its loop marks every notification read, so the state becomes `MarkedAllAsRead` of the old state; a failure changes nothing |
| NotificationStore.Store.DeleteNotification | src/stores/notification.ts:67-83 | on success the state becomes `Deleted` of the old state; a failure changes nothing |
| NotificationStore.Store.Clear | src/stores/notification.ts:86-89 | the state becomes counter 0 and an empty list |
| ArticleStore.OrDefault | src/stores/article.ts:25 | JavaScript's `or` on an optional number: absent or 0 gives the fallback, any other value is kept |
| ArticleStore.HasMore | src/stores/article.ts:25-26 | `hasMore`, case by case: with page and page size absent or 0 it is `20 < total`; a non-zero page and page size are multiplied, and a missing or 0 one is replaced by 1 for the page and 20 for the size |
| ArticleStore.Ids | src/stores/article.ts:45 | the ids of a list: every article's id, and only those |
| ArticleStore.FreshArticles | src/stores/article.ts:44-46 | the filtered response keeps the response's order, holds no id already in the list, and holds each other response article as often as the response does |
| ArticleStore.Appended | src/stores/article.ts:47 | the spread keeps the old list as a prefix and adds only articles of the response |
| ArticleStore.AppendEffect | src/stores/article.ts:44-47 | the old list is a prefix; the added articles come from the response in its order and carry new ids; a response article is left out exactly when its id was present |
| ArticleStore.AppendTwiceAddsNothing | src/stores/article.ts:44-47 | appending the same response again adds nothing |
| ArticleStore.AppendKeepsIdsUnique | src/stores/article.ts:44-47 | a list with distinct ids plus a response with distinct ids stays free of duplicate ids |
| ArticleStore.Interacted | src/stores/article.ts:90-137 | only when the open article has the id do its flag and its counter change, by one and with no floor; otherwise nothing changes |
| ArticleStore.ToggleRoundTrips | src/stores/article.ts:90-137 | like then unlike restores the like count, and favourite then unfavourite restores the favourite count; only the flag differs |
| ArticleStore.Store.constructor | src/stores/article.ts:8-15 | empty list, total 0, not loading, `hasMore` true, no open article |
| ArticleStore.Store.FetchArticles | src/stores/article.ts:18-34 | on success the list and total are the response's and `hasMore` is whether the page (1 when absent or 0) times the page size (20 when absent or 0) is below the total; a failure keeps them; always ends not loading |
| ArticleStore.Store.AppendArticles | src/stores/article.ts:37-61 | does nothing and resolves empty when `hasMore` is false or a load is running; otherwise on success appends the fresh articles and recomputes `total` and `hasMore`; a failure keeps them; ends not loading |
| ArticleStore.Store.ResetArticles | src/stores/article.ts:64-68 | empty list, total 0, `hasMore` true |
| ArticleStore.Store.FetchArticleDetail | src/stores/article.ts:71-83 | opens the returned article on success, keeps the open one on failure, ends with `articleLoading` false |
| ArticleStore.Store.Toggle | src/stores/article.ts:86-143 | on success the open article becomes `Interacted`; a failure leaves it unchanged; the list is untouched |
| ArticleStore.Store.LikeArticle | src/stores/article.ts:86-98 | `Toggle` with a like |
| ArticleStore.Store.UnlikeArticle | src/stores/article.ts:101-113 | `Toggle` with an unlike |
| ArticleStore.Store.FavoriteArticle | src/stores/article.ts:116-128 | `Toggle` with a favourite |
| ArticleStore.Store.UnfavoriteArticle | src/stores/article.ts:131-143 | `Toggle` with an unfavourite |
| ArticleStore.Store.ClearCurrentArticle | src/stores/article.ts:146-148 | no open article; nothing else changes |
| CommentStore.FirstMatch | src/stores/comment.ts:72-83 | none exactly when no comment at any depth has the id; otherwise a comment of the tree with that id |
| CommentStore.SearchStep | src/stores/comment.ts:73-80 | one loop turn: the comment itself, then its replies, then the later siblings, in that order |
| CommentStore.FindCommentById | src/stores/comment.ts:72-83 | returns the first match in pre-order; returns none exactly when no comment at any depth has the id |
| CommentStore.Apply | src/stores/comment.ts:46-63 | like sets the flag and adds one; unlike clears the flag and subtracts one; id and replies are kept |
| CommentStore.Edited | src/stores/comment.ts:44-48 | the edit keeps the number of root comments and their ids |
| CommentStore.EditedSpec | src/stores/comment.ts:44-48 | in pre-order, only the comment the search finds is edited; every other comment's own fields and the tree's shape are unchanged; with no match the forest is unchanged |
| CommentStore.EditedKeepsFirstIndex | src/stores/comment.ts:44-48 | after an edit the search finds the same position |
| CommentStore.LikeThenUnlike | src/stores/comment.ts:44-64 | on a comment that was not liked, like followed by unlike restores the forest |
| CommentStore.LikeThenUnlikeRestoresCount | src/stores/comment.ts:44-64 | on any comment, liked or not, like followed by unlike restores the found comment's count and leaves its flag cleared; every other comment's own fields and the tree's shape are as they were |
| CommentStore.Store.constructor | src/stores/comment.ts:8-10 | empty list, total 0, not loading |
| CommentStore.Store.FetchComments | src/stores/comment.ts:13-26 | replaces the list and total on success, keeps them on failure, ends not loading |
| CommentStore.Store.EditComment | src/stores/comment.ts:40-69 | on success the forest becomes `Edited` by the id; a failure changes nothing; the total is untouched |
| CommentStore.Store.LikeComment | src/stores/comment.ts:40-53 | `EditComment` with a like |
| CommentStore.Store.UnlikeComment | src/stores/comment.ts:56-69 | `EditComment` with an unlike |
| CommentStore.Store.AddComment | src/stores/comment.ts:100-103 | the comment becomes the head, the old list is the tail, and the total grows by one |
| CommentStore.Store.ClearComments | src/stores/comment.ts:106-109 | empty list, total 0 |
| UserStore.Store.constructor | src/stores/user.ts:9-10 | the store starts from the stored token and user, agreeing with storage |
| UserStore.Store.IsLoggedIn | src/stores/user.ts:11 | `isLoggedIn`: true exactly when the token is non-empty and a user is held; when store and storage agree it is the same whether read from the store or from storage |
| UserStore.Store.StartSession | src/stores/user.ts:19-27 | writes the token and user to storage, then to the store |
| UserStore.Store.Login | src/stores/user.ts:14-35 | on success the token and user are the response's, in the store and in storage; a failure leaves both unchanged and is rethrown |
| UserStore.Store.Register | src/stores/user.ts:38-59 | the same effect as a login |
| UserStore.Store.Logout | src/stores/user.ts:62-75 | whatever the server answers: empty token, no user, both keys removed from storage, logged out, resolves |
| UserStore.Store.UpdateUser | src/stores/user.ts:78-81 | only the user changes, in the store and in storage; the token is kept; agreement with storage is kept |
| UserStore.Store.FetchUserInfo | src/stores/user.ts:84-94 | on success it has the effect of `updateUser`; a failure changes nothing and is rethrown; the token is kept |
| UserStore.Store.CheckAuth | src/stores/user.ts:97-103 | returns `isLoggedIn`, true exactly when the token is non-empty and a user is held |
| UserStore.SessionIsLoggedIn | src/stores/user.ts:11 | a session with a non-empty token reads as logged in, from the store and from the storage it wrote |
| UserStore.LoggedIn | src/stores/user.ts:11 | `!!token && !!user`: true exactly when the token is non-empty and a user is present |
| UserStore.ClearedStorageIsLoggedOut | src/stores/user.ts:11 | storage without the two session keys reads back as logged out |
| Router.BeforeEach | src/router/index.ts:131-146 | the title is the route title plus " - Astronomer"; it redirects exactly when the route needs a login and none is held, and the redirect goes to `login` with `redirect` set to the full path; anything else proceeds |
| Router.TitleText | src/router/index.ts:133 | the route title as `+`-concatenated, where an absent title becomes `undefined` |
| Router.RouteTable | src/router/index.ts:6-127 | the table has twenty routes and no two share a name, so the redirect to `login` by name has one target |
| Router.AuthRoutes | src/router/index.ts:6-127 | a route of the table needs a login exactly when its name is article-create, article-edit, drafts, settings or notifications, and all five are routes of the table |
| Router.PublicRoutesProceed | src/router/index.ts:136-145 | a public route proceeds whatever the login state |
| Router.RedirectNeverLoops | src/router/index.ts:136-141 | the redirect target names a route of the table, and guarding that route proceeds |
| Request.Bearer | src/api/request.ts:20 | the header value is `Bearer ` followed by the token |
| Request.OnRequest | src/api/request.ts:16-23 | with a non-empty stored token and a header object, `Authorization` is set to the bearer token in place; otherwise the headers are unchanged |
| Request.MessageOr | src/api/request.ts:36 | the message, or `请求失败` when it is empty |
| Request.Classify | src/api/request.ts:31-50 | resolves with the data exactly when the code is 200; any other code rejects with the message or the default; only code 401 ends the session |
| Request.ErrorToast | src/api/request.ts:55-79 | fixed messages for 401, 403, 404 and 500; the server message or the default for other statuses; a network error without a response; a configuration error without a request |
| Request.ClassifyError | src/api/request.ts:51-82 | always rejects with the original error; only HTTP status 401 ends the session |
| Request.ApplyVerdict | src/api/request.ts:39-44 | ending the session removes exactly the `token` and `user` keys; otherwise storage is untouched |
| Request.OnResponse | src/api/request.ts:31-50 | the classification of the envelope; body code 401 removes the two session keys and any other code leaves storage as it was |
| Request.OnError | src/api/request.ts:51-82 | the classification of the transport error; HTTP 401 removes the two session keys and any other error leaves storage as it was |

## Left out

- Asynchrony and concurrency: each action is one atomic step. Overlapping requests are not modelled beyond the `loading` guard of `appendArticles`.
- The `setTimeout` delays in `login` and `register` are timing only. They are no-ops here.
- `ElMessage` toasts, `console.error`, `window.location.href` and `document.title` are side channels. The guard's title is returned; the interceptors' toast is a field of the verdict; the redirect to `/login` is the verdict's `endSession` flag.
- JSON text in storage: the stored user is an item holding the `User` value, not its serialised text. A stored value that is not valid JSON is not modelled, nor is a non-text item under `token` (no client code writes one; the model reads it as an empty token).
- The endpoint wrappers under `src/api/` and the axios instance configuration (base URL, timeout, default headers) are HTTP pass-throughs and library calls. The server's answer is a parameter.
- `fetchReplies` and `createComment` only forward a server call and rethrow its failure. They change no store state, so they are not modelled.
- Route matching is vue-router's job. A navigation target is given as a `Location` with the matched route's title and `requiresAuth` flag. `LocationOf` builds one from a route of the table.
- Comment nodes are values: the in-place write through the object reference the search returns is modelled by `Edited`, which rebuilds the forest with that node changed. Aliasing between the store and other holders of the same objects is not captured.
- Notification, article and comment edits rebuild the list instead of mutating shared objects. Reactivity and Pinia plumbing are not modelled.
- JavaScript numbers (ids, counters, totals, pages) are unbounded integers: fractional values and the loss of precision above 2^53 are not modelled.
- UserStore.Store.FetchUserInfo, UserStore.Store.Login and UserStore.Store.Register: a `Failure` stands for the rejection after the HTTP interceptors ran. Their 401 effect on storage (`Request.OnResponse`, `Request.OnError`) is not composed into the store actions. So the clauses saying a failure leaves storage unchanged, and that agreement between store and storage is kept, describe the store's own code only. After a 401, storage has lost `token` and `user` while the store's fields still hold the session.
- CommentStore.Store.LikeComment and CommentStore.Store.UnlikeComment: the store calls `commentAPI.like` and `commentAPI.unlike`, but `commentAPI` in src/api/comment.ts declares neither of them; they are declared on `commentInteractionAPI`. As written, these calls reject with a `TypeError`, so their success branch is unreachable. The model follows the store's local update as written, with the server call's outcome as a parameter.
- Fields of the records that no store logic reads, and the enum declarations of the type files, are left out or kept as plain integers and strings.
- `ArticleStore.FreshArticles`: it drops only the articles whose id the existing list holds. Two response articles with the same new id are both appended, as in the client; `AppendKeepsIdsUnique` therefore requires a response with distinct ids.
