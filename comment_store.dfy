/** The comment store: the root comments of one article, each with its tree
    of replies, and a recursive search used to like or unlike a comment at
    any depth. */
module CommentStore {
  import opened Common
  import opened Types

  /** Every comment of a forest, at any depth, in pre-order: a comment, then
      its replies, then its later siblings. */
  function Subtrees(list: seq<Comment>): seq<Comment>
    decreases list
  {
    if list == [] then [] else [list[0]] + Subtrees(list[0].replies) + Subtrees(list[1..])
  }

  /** Index of the first comment carrying `id`, or -1 when none does. */
  function FirstIndex(nodes: seq<Comment>, id: int): (r: int)
    ensures -1 <= r < |nodes|
    ensures r >= 0 ==> nodes[r].id == id
    ensures forall k :: 0 <= k < |nodes| && (r == -1 || k < r) ==> nodes[k].id != id
  {
    if nodes == [] then -1
    else if nodes[0].id == id then 0
    else
      var rest := FirstIndex(nodes[1..], id);
      assert forall k :: 1 <= k < |nodes| ==> nodes[k] == nodes[1..][k - 1];
      if rest == -1 then -1 else rest + 1
  }

  /** The first comment in pre-order carrying `id`, if any. */
  function FirstMatch(list: seq<Comment>, id: int): (r: Option<Comment>)
    ensures r.None? <==> forall c :: c in Subtrees(list) ==> c.id != id
    ensures r.Some? ==> r.value.id == id && r.value in Subtrees(list)
  {
    var nodes := Subtrees(list);
    var k := FirstIndex(nodes, id);
    if k == -1 then None else Some(nodes[k])
  }

  /** The search result is fixed by the characterisation in FirstIndex's
      contract alone. */
  lemma {:induction false} FirstIndexUnique(nodes: seq<Comment>, id: int, r: int)
    requires -1 <= r < |nodes|
    requires r >= 0 ==> nodes[r].id == id
    requires forall k :: 0 <= k < |nodes| && (r == -1 || k < r) ==> nodes[k].id != id
    ensures r == FirstIndex(nodes, id)
  {
  }

  lemma {:induction false} FirstIndexConcat(a: seq<Comment>, b: seq<Comment>, id: int)
    ensures FirstIndex(a + b, id) ==
      if FirstIndex(a, id) >= 0 then FirstIndex(a, id)
      else if FirstIndex(b, id) >= 0 then |a| + FirstIndex(b, id)
      else -1
  {
    var ka, kb := FirstIndex(a, id), FirstIndex(b, id);
    var r := if ka >= 0 then ka else if kb >= 0 then |a| + kb else -1;
    assert forall k :: 0 <= k < |a| ==> (a + b)[k] == a[k];
    assert forall k :: |a| <= k < |a + b| ==> (a + b)[k] == b[k - |a|];
    FirstIndexUnique(a + b, id, r);
  }

  lemma {:induction false} SubtreesConcat(a: seq<Comment>, b: seq<Comment>)
    ensures Subtrees(a + b) == Subtrees(a) + Subtrees(b)
    decreases a
  {
    if a != [] {
      assert (a + b)[0] == a[0];
      assert (a + b)[1..] == a[1..] + b;
      SubtreesConcat(a[1..], b);
    } else {
      assert a + b == b;
    }
  }

  lemma {:induction false} SubtreesSingle(c: Comment)
    ensures Subtrees([c]) == [c] + Subtrees(c.replies)
  {
    assert [c][0] == c && [c][1..] == [];
  }

  /** Splitting a forest at its `i`-th comment splits its pre-order. */
  lemma {:induction false} SubtreesSplit(list: seq<Comment>, i: nat)
    requires i < |list|
    ensures Subtrees(list[..i + 1]) == Subtrees(list[..i]) + [list[i]] + Subtrees(list[i].replies)
    ensures Subtrees(list) == Subtrees(list[..i + 1]) + Subtrees(list[i + 1..])
  {
    var c, prefix, rest := list[i], list[..i], list[i + 1..];
    assert list[..i + 1] == prefix + [c];
    assert list == list[..i + 1] + rest;
    SubtreesConcat(prefix, [c]);
    SubtreesSingle(c);
    var P, R := Subtrees(prefix), Subtrees(c.replies);
    assert P + ([c] + R) == P + [c] + R;
    SubtreesConcat(list[..i + 1], rest);
  }

  /** One turn of the search loop, when no comment before position `i`
      matched: position `i` itself, or its replies, hold the first match, or
      the prefix up to `i` still holds none. */
  lemma {:induction false} SearchStep(list: seq<Comment>, i: nat, id: int)
    requires i < |list|
    requires FirstIndex(Subtrees(list[..i]), id) == -1
    ensures list[i].id == id ==> FirstMatch(list, id) == Some(list[i])
    ensures list[i].id != id && FirstIndex(Subtrees(list[i].replies), id) >= 0 ==>
      FirstMatch(list, id) == FirstMatch(list[i].replies, id)
    ensures list[i].id != id && FirstIndex(Subtrees(list[i].replies), id) == -1 ==>
      FirstIndex(Subtrees(list[..i + 1]), id) == -1
  {
    var c := list[i];
    var P, R, Q := Subtrees(list[..i]), Subtrees(c.replies), Subtrees(list[i + 1..]);
    SubtreesSplit(list, i);
    var S := Subtrees(list);
    assert S == (P + [c] + R) + Q;
    FirstIndexConcat(P, [c], id);
    FirstIndexConcat(P + [c], R, id);
    FirstIndexConcat(P + [c] + R, Q, id);
    if c.id == id {
      assert FirstIndex(S, id) == |P|;
      assert S[|P|] == c;
    } else if FirstIndex(R, id) >= 0 {
      var kr := FirstIndex(R, id);
      assert FirstIndex(S, id) == |P| + 1 + kr;
      assert S[|P| + 1 + kr] == R[kr];
    }
  }

  /** `findCommentById`: a `for` loop over the list that returns the comment
      with the id, else searches that comment's replies recursively, else
      moves on to the next sibling. It finds the first match in pre-order, and
      finds nothing exactly when no comment at any depth has the id. */
  method FindCommentById(list: seq<Comment>, id: int) returns (found: Option<Comment>)
    ensures found == FirstMatch(list, id)
    ensures found.None? <==> forall c :: c in Subtrees(list) ==> c.id != id
    ensures found.Some? ==> found.value.id == id && found.value in Subtrees(list)
    decreases list
  {
    var i := 0;
    while i < |list|
      invariant 0 <= i <= |list|
      invariant FirstIndex(Subtrees(list[..i]), id) == -1
    {
      var comment := list[i];
      SearchStep(list, i, id);
      if comment.id == id {
        return Some(comment);
      }
      if |comment.replies| > 0 {
        var inner := FindCommentById(comment.replies, id);
        if inner.Some? {
          return inner;
        }
      }
      i := i + 1;
    }
    assert list[..i] == list;
    found := None;
  }

  /** A confirmed like or unlike. */
  datatype Edit = Like | Unlike

  /** One comment after the edit: the flag is set or cleared and the counter
      moves by one (no floor). */
  function Apply(e: Edit, c: Comment): (r: Comment)
    ensures r.id == c.id && r.replies == c.replies
    ensures r.like_count == c.like_count + (if e == Like then 1 else -1)
    ensures r.is_liked == (e == Like)
    ensures r.(is_liked := c.is_liked, like_count := c.like_count) == c
  {
    match e
    case Like => c.(is_liked := true, like_count := c.like_count + 1)
    case Unlike => c.(is_liked := false, like_count := c.like_count - 1)
  }

  /** The forest after the first pre-order match of `id` is edited where it
      stands; the forest is unchanged when no comment has the id. */
  function Edited(list: seq<Comment>, id: int, e: Edit): (r: seq<Comment>)
    ensures |r| == |list|
    ensures forall k :: 0 <= k < |list| ==> r[k].id == list[k].id
    decreases list
  {
    if list == [] then []
    else if list[0].id == id then
      var r := [Apply(e, list[0])] + list[1..];
      assert forall k :: 1 <= k < |list| ==> r[k] == list[k];
      r
    else if FirstIndex(Subtrees(list[0].replies), id) >= 0 then
      var r := [list[0].(replies := Edited(list[0].replies, id, e))] + list[1..];
      assert forall k :: 1 <= k < |list| ==> r[k] == list[k];
      r
    else
      var rest := Edited(list[1..], id, e);
      var r := [list[0]] + rest;
      assert forall k :: 1 <= k < |list| ==> r[k] == rest[k - 1] && list[k] == list[1..][k - 1];
      r
  }

  /** A comment's own fields, without its replies. */
  function Local(c: Comment): Comment
  {
    c.(replies := [])
  }

  /** `t` is `s` with the comment at position `k` edited by `e` (no
      comment is, when `k` is out of range) and every other comment's own
      fields and number of replies as they were. */
  ghost predicate EditedAt(s: seq<Comment>, t: seq<Comment>, k: int, e: Edit)
  {
    && |t| == |s|
    && (forall j :: 0 <= j < |s| ==> |t[j].replies| == |s[j].replies|)
    && (forall j :: 0 <= j < |s| && j != k ==> Local(t[j]) == Local(s[j]))
    && (0 <= k < |s| ==> Local(t[k]) == Local(Apply(e, s[k])))
  }

  lemma {:induction false} EditedAtConcat(s1: seq<Comment>, t1: seq<Comment>, s2: seq<Comment>, t2: seq<Comment>, k: int, e: Edit)
    requires EditedAt(s1, t1, k, e) && EditedAt(s2, t2, k - |s1|, e)
    ensures EditedAt(s1 + s2, t1 + t2, k, e)
  {
    var s, t := s1 + s2, t1 + t2;
    forall j | |s1| <= j < |s|
      ensures t[j] == t2[j - |s1|] && s[j] == s2[j - |s1|]
    {
    }
  }

  /** Liking or unliking edits exactly the comment the search finds: in
      pre-order, that comment's own fields are edited, every other comment's
      own fields are unchanged, and the tree keeps its shape. */
  lemma {:induction false} EditedSpec(list: seq<Comment>, id: int, e: Edit)
    ensures EditedAt(Subtrees(list), Subtrees(Edited(list, id, e)), FirstIndex(Subtrees(list), id), e)
    ensures FirstIndex(Subtrees(list), id) == -1 ==> Edited(list, id, e) == list
    decreases list, 1
  {
    if list != [] {
      var c := list[0];
      if c.id == id {
        EditedHere(list, id, e);
      } else if FirstIndex(Subtrees(c.replies), id) >= 0 {
        EditedBelow(list, id, e);
      } else {
        EditedLater(list, id, e);
      }
    }
  }

  /** The pieces of a non-empty forest's pre-order and where the first
      match lies among them. */
  lemma {:induction false} SplitFirst(list: seq<Comment>, id: int)
    requires list != []
    ensures Subtrees(list) == [list[0]] + Subtrees(list[0].replies) + Subtrees(list[1..])
    ensures var R, Q := Subtrees(list[0].replies), Subtrees(list[1..]);
      FirstIndex(Subtrees(list), id) ==
        if list[0].id == id then 0
        else if FirstIndex(R, id) >= 0 then 1 + FirstIndex(R, id)
        else if FirstIndex(Q, id) >= 0 then 1 + |R| + FirstIndex(Q, id)
        else -1
  {
    var c := list[0];
    var R, Q := Subtrees(c.replies), Subtrees(list[1..]);
    FirstIndexConcat([c] + R, Q, id);
    FirstIndexConcat([c], R, id);
  }

  /** Pre-order of a forest given by its first comment and the rest. */
  lemma {:induction false} SubtreesCons(c: Comment, rest: seq<Comment>)
    ensures Subtrees([c] + rest) == [c] + Subtrees(c.replies) + Subtrees(rest)
  {
    assert ([c] + rest)[0] == c && ([c] + rest)[1..] == rest;
  }

  lemma {:induction false} EditedHere(list: seq<Comment>, id: int, e: Edit)
    requires list != [] && list[0].id == id
    ensures EditedAt(Subtrees(list), Subtrees(Edited(list, id, e)), FirstIndex(Subtrees(list), id), e)
  {
    var c, rest := list[0], list[1..];
    var R, Q := Subtrees(c.replies), Subtrees(rest);
    SplitFirst(list, id);
    var c' := Apply(e, c);
    SubtreesCons(c', rest);
    assert EditedAt([c], [c'], 0, e);
    assert EditedAt(R + Q, R + Q, -1, e);
    EditedAtConcat([c], [c'], R + Q, R + Q, 0, e);
    assert [c] + (R + Q) == [c] + R + Q;
    assert [c'] + (R + Q) == [c'] + R + Q;
  }

  lemma {:induction false} EditedBelow(list: seq<Comment>, id: int, e: Edit)
    requires list != [] && list[0].id != id && FirstIndex(Subtrees(list[0].replies), id) >= 0
    ensures FirstIndex(Subtrees(list), id) >= 0
    ensures EditedAt(Subtrees(list), Subtrees(Edited(list, id, e)), FirstIndex(Subtrees(list), id), e)
    decreases list, 0
  {
    var c, rest := list[0], list[1..];
    var R, Q := Subtrees(c.replies), Subtrees(rest);
    SplitFirst(list, id);
    var k := FirstIndex(Subtrees(list), id);
    EditedSpec(c.replies, id, e);
    var c' := c.(replies := Edited(c.replies, id, e));
    var R' := Subtrees(c'.replies);
    assert Edited(list, id, e) == [c'] + rest;
    SubtreesCons(c', rest);
    assert EditedAt([c], [c'], k, e);
    EditedAtConcat([c], [c'], R, R', k, e);
    assert EditedAt(Q, Q, k - |[c] + R|, e);
    EditedAtConcat([c] + R, [c'] + R', Q, Q, k, e);
  }

  lemma {:induction false} EditedLater(list: seq<Comment>, id: int, e: Edit)
    requires list != [] && list[0].id != id && FirstIndex(Subtrees(list[0].replies), id) == -1
    ensures EditedAt(Subtrees(list), Subtrees(Edited(list, id, e)), FirstIndex(Subtrees(list), id), e)
    ensures FirstIndex(Subtrees(list), id) == -1 ==> Edited(list, id, e) == list
    decreases list, 0
  {
    var c, rest := list[0], list[1..];
    var R, Q := Subtrees(c.replies), Subtrees(rest);
    SplitFirst(list, id);
    var k := FirstIndex(Subtrees(list), id);
    EditedSpec(rest, id, e);
    var Q' := Subtrees(Edited(rest, id, e));
    SubtreesCons(c, Edited(rest, id, e));
    assert EditedAt([c] + R, [c] + R, k, e);
    EditedAtConcat([c] + R, [c] + R, Q, Q', k, e);
    if k == -1 {
      assert list == [c] + rest;
    }
  }

  /** Editing keeps every id where it was, so the search finds the same
      position afterwards. */
  lemma {:induction false} EditedKeepsFirstIndex(list: seq<Comment>, id: int, e: Edit)
    ensures FirstIndex(Subtrees(Edited(list, id, e)), id) == FirstIndex(Subtrees(list), id)
  {
    EditedSpec(list, id, e);
    var s, t := Subtrees(list), Subtrees(Edited(list, id, e));
    assert forall j :: 0 <= j < |s| ==> t[j].id == Local(t[j]).id && s[j].id == Local(s[j]).id;
    FirstIndexUnique(t, id, FirstIndex(s, id));
  }

  /** Like followed by unlike gives back the forest it started from, when
      the comment found had not been liked. */
  lemma {:induction false} LikeThenUnlike(list: seq<Comment>, id: int)
    requires var k := FirstIndex(Subtrees(list), id); k >= 0 ==> !Subtrees(list)[k].is_liked
    ensures Edited(Edited(list, id, Like), id, Unlike) == list
    decreases list
  {
    if list != [] {
      var c, rest := list[0], list[1..];
      var R, Q := Subtrees(c.replies), Subtrees(rest);
      assert Subtrees(list) == [c] + R + Q;
      FirstIndexConcat([c] + R, Q, id);
      FirstIndexConcat([c], R, id);
      var once := Edited(list, id, Like);
      if c.id == id {
        assert once == [Apply(Like, c)] + rest;
        assert once[1..] == rest;
      } else if FirstIndex(R, id) >= 0 {
        LikeThenUnlike(c.replies, id);
        EditedKeepsFirstIndex(c.replies, id, Like);
        assert once[0].replies == Edited(c.replies, id, Like);
        assert once[1..] == rest;
      } else {
        LikeThenUnlike(rest, id);
        assert once[0] == c;
        assert once[1..] == Edited(rest, id, Like);
      }
    }
  }

  /** Like followed by unlike on any comment, liked or not: in pre-order,
      the comment the search finds gets its count back and ends not liked,
      every other comment's own fields are as they were, and the tree keeps
      its shape. */
  lemma {:induction false} LikeThenUnlikeRestoresCount(list: seq<Comment>, id: int)
    ensures var k, s, t := FirstIndex(Subtrees(list), id), Subtrees(list), Subtrees(Edited(Edited(list, id, Like), id, Unlike));
      && |t| == |s|
      && (forall j :: 0 <= j < |s| ==> |t[j].replies| == |s[j].replies|)
      && forall j :: 0 <= j < |s| ==> Local(t[j]) == (if j == k then Local(s[j]).(is_liked := false) else Local(s[j]))
  {
    var once := Edited(list, id, Like);
    EditedSpec(list, id, Like);
    EditedKeepsFirstIndex(list, id, Like);
    EditedSpec(once, id, Unlike);
    var s, m, t := Subtrees(list), Subtrees(once), Subtrees(Edited(once, id, Unlike));
    var k := FirstIndex(s, id);
    if 0 <= k {
      assert Local(m[k]) == Local(Apply(Like, s[k]));
      assert Local(t[k]) == Local(Apply(Unlike, m[k]));
      assert Local(Apply(Unlike, m[k])) == Apply(Unlike, Local(m[k]));
      assert Local(Apply(Like, s[k])) == Apply(Like, Local(s[k]));
    }
    forall j | 0 <= j < |s|
      ensures |t[j].replies| == |s[j].replies|
    {
      assert |m[j].replies| == |s[j].replies|;
    }
  }

  class Store {
    var comments: seq<Comment>
    var total: int
    var loading: bool

    constructor()
      ensures comments == [] && total == 0 && !loading
    {
      comments := [];
      total := 0;
      loading := false;
    }

    /** `fetchComments(params)`: replaces the list and total on success,
        rethrows on failure, always ends with `loading` false. */
    method FetchComments(params: CommentListParams, api: Outcome<CommentListResponse>)
      returns (r: Outcome<CommentListResponse>)
      modifies this
      ensures r == api
      ensures !loading
      ensures api.Success? ==> comments == api.value.comments && total == api.value.total
      ensures api.Failure? ==> comments == old(comments) && total == old(total)
    {
      loading := true;
      if api.Success? {
        comments := api.value.comments;
        total := api.value.total;
      }
      loading := false;
      r := api;
    }

    /** `likeComment(id)` and `unlikeComment(id)`: search the tree and, when
        a comment is found, edit it where it stands. */
    method EditComment(id: int, e: Edit, api: Outcome<()>) returns (r: Outcome<()>)
      modifies this
      ensures r == api
      ensures comments == (if api.Success? then Edited(old(comments), id, e) else old(comments))
      ensures total == old(total) && loading == old(loading)
    {
      if api.Failure? {
        return api;
      }
      var comment := FindCommentById(comments, id);
      if comment.Some? {
        comments := Edited(comments, id, e);
      } else {
        EditedSpec(comments, id, e);
      }
      r := api;
    }

    method LikeComment(id: int, api: Outcome<()>) returns (r: Outcome<()>)
      modifies this
      ensures r == api
      ensures comments == (if api.Success? then Edited(old(comments), id, Like) else old(comments))
      ensures total == old(total) && loading == old(loading)
    {
      r := EditComment(id, Like, api);
    }

    method UnlikeComment(id: int, api: Outcome<()>) returns (r: Outcome<()>)
      modifies this
      ensures r == api
      ensures comments == (if api.Success? then Edited(old(comments), id, Unlike) else old(comments))
      ensures total == old(total) && loading == old(loading)
    {
      r := EditComment(id, Unlike, api);
    }

    /** `addComment(c)`: `unshift` and `total++`. */
    method AddComment(c: Comment)
      modifies this
      ensures comments == [c] + old(comments)
      ensures total == old(total) + 1
      ensures loading == old(loading)
    {
      comments := [c] + comments;
      total := total + 1;
    }

    /** `clearComments`. */
    method ClearComments()
      modifies this
      ensures comments == [] && total == 0
      ensures loading == old(loading)
    {
      comments := [];
      total := 0;
    }
  }
}
