/** One post in the feed: the like button, the image carousel and the
    comment box. */
module PostCard {
  import opened Wrappers
  import Text
  import opened Media

  // ---------------------------------------------------------------------
  // Likes
  // ---------------------------------------------------------------------

  /** What the like button shows: whether the viewer likes the post, and the
      count next to it. */
  datatype LikeView = LikeView(isLiked: bool, likesCount: int)

  /** The likes of everyone but the viewer, as far as the card can tell. */
  function OthersLikes(v: LikeView): int {
    v.likesCount - (if v.isLiked then 1 else 0)
  }

  /** The `likes` row a click deletes or inserts. */
  datatype LikeRequest = InsertLike(userId: string, postId: string) | DeleteLike(userId: string, postId: string)

  /** A click on a liked post deletes the viewer's like, otherwise it inserts one. */
  function LikeRequestFor(isLiked: bool, userId: string, postId: string): (req: LikeRequest)
    ensures req.DeleteLike? <==> isLiked
    ensures req.userId == userId && req.postId == postId
  {
    if isLiked then DeleteLike(userId, postId) else InsertLike(userId, postId)
  }

  /** The button after its store call returns: `isLiked` flips exactly when
      the call succeeded, and the count moves with it so that the likes of
      everyone else stay what they were. */
  function AfterLike(v: LikeView, ok: bool): (r: LikeView)
    ensures r.isLiked == (v.isLiked != ok)
    ensures OthersLikes(r) == OthersLikes(v)
  {
    if !ok then v
    else if v.isLiked then LikeView(false, v.likesCount - 1)
    else LikeView(true, v.likesCount + 1)
  }

  /** The button once the reply to `req` arrives. On success it shows what
      the request did (liked after an insert, not liked after a delete) and
      the count moves one step that way, whatever the button showed when the
      reply came; on failure nothing changes. */
  function AfterReply(v: LikeView, req: LikeRequest, ok: bool): (r: LikeView)
    ensures !ok ==> r == v
    ensures ok ==> r.isLiked == req.InsertLike?
    ensures ok ==> r.likesCount == v.likesCount + (if req.InsertLike? then 1 else -1)
  {
    if !ok then v
    else match req
      case DeleteLike(_, _) => LikeView(false, v.likesCount - 1)
      case InsertLike(_, _) => LikeView(true, v.likesCount + 1)
  }

  /** When nothing touched the button while its request was in flight, the
      reply flips it and keeps the likes of everyone else. */
  lemma ReplyToOwnRequest(v: LikeView, userId: string, postId: string, ok: bool)
    ensures AfterReply(v, LikeRequestFor(v.isLiked, userId, postId), ok) == AfterLike(v, ok)
  {
  }

  /** When the mount-time check answers while an insert is in flight and
      already shows the post liked, the successful insert reply keeps it
      liked and adds one to the count the check left. */
  lemma InsertReplyAfterLateCheck(count: int, userId: string, postId: string)
    ensures AfterReply(LikeView(true, count), InsertLike(userId, postId), true) == LikeView(true, count + 1)
  {
  }

  /** A successful like adds one, a successful unlike takes one away, and a
      failed call changes nothing. */
  lemma LikeSteps(v: LikeView)
    ensures !v.isLiked ==> AfterLike(v, true) == LikeView(true, v.likesCount + 1)
    ensures v.isLiked ==> AfterLike(v, true) == LikeView(false, v.likesCount - 1)
    ensures AfterLike(v, false) == v
  {
  }

  /** A like followed by an unlike, both successful, restores the button. */
  lemma LikeThenUnlikeRestores(v: LikeView)
    ensures AfterLike(AfterLike(v, true), true) == v
  {
  }

  /** The button after a series of clicks whose calls returned `oks`. */
  function AfterLikes(v: LikeView, oks: seq<bool>): LikeView
    decreases |oks|
  {
    if oks == [] then v else AfterLikes(AfterLike(v, oks[0]), oks[1..])
  }

  function Successes(oks: seq<bool>): nat {
    if oks == [] then 0 else (if oks[0] then 1 else 0) + Successes(oks[1..])
  }

  /** Over any series of clicks, the likes of everyone else never move,
      `isLiked` has flipped once per successful call, and so an even number
      of successes brings the button back to where it started. */
  lemma {:induction false} LikeSeries(v: LikeView, oks: seq<bool>)
    ensures OthersLikes(AfterLikes(v, oks)) == OthersLikes(v)
    ensures AfterLikes(v, oks).isLiked == (v.isLiked != (Successes(oks) % 2 == 1))
    ensures Successes(oks) % 2 == 0 ==> AfterLikes(v, oks) == v
    decreases |oks|
  {
    if oks != [] {
      LikeSeries(AfterLike(v, oks[0]), oks[1..]);
    }
  }

  /** `post.likes_count || 0`. */
  function InitialLikes(post: PostRow): (n: int)
    ensures post.likesCount.None? ==> n == 0
    ensures post.likesCount.Some? ==> n == post.likesCount.value
  {
    match post.likesCount
    case Some(n) => n
    case None => 0
  }

  // ---------------------------------------------------------------------
  // Carousel
  // ---------------------------------------------------------------------

  /** The left arrow: one image back, from the first to the last. */
  function PreviousImage(i: nat, n: nat): (j: nat)
    requires 0 < n
    ensures i < n ==> j < n && j == (i - 1) % n
  {
    if i > 0 then i - 1 else n - 1
  }

  /** The right arrow: one image on, from the last to the first. */
  function NextImage(i: nat, n: nat): (j: nat)
    requires 0 < n
    ensures i < n ==> j < n && j == (i + 1) % n
  {
    if i < n - 1 then i + 1 else 0
  }

  /** Each arrow undoes the other. */
  lemma ArrowsUndoEachOther(i: nat, n: nat)
    requires i < n
    ensures NextImage(PreviousImage(i, n), n) == i
    ensures PreviousImage(NextImage(i, n), n) == i
  {
  }

  /** The index after `k` presses of the right arrow. */
  function Forward(i: nat, n: nat, k: nat): nat
    requires 0 < n
  {
    if k == 0 then i else NextImage(Forward(i, n, k - 1), n)
  }

  /** The index after `k` presses of the left arrow. */
  function Backward(i: nat, n: nat, k: nat): nat
    requires 0 < n
  {
    if k == 0 then i else PreviousImage(Backward(i, n, k - 1), n)
  }

  /** A product with a non-zero factor is at least as far from zero as the other factor. */
  lemma MulOutOfRange(d: int, n: int)
    requires 0 < n && d != 0
    ensures d >= 1 ==> d * n >= n
    ensures d <= -1 ==> d * n <= 0 - n
  {
  }

  /** The remainder is the unique `r` in `[0, n)` with `x == m * n + r`. */
  lemma ModUnique(x: int, n: nat, m: int, r: int)
    requires 0 < n && 0 <= r < n && x == m * n + r
    ensures x % n == r
  {
    var q, s := x / n, x % n;
    assert x == q * n + s;
    assert (m - q) * n == s - r;
    if m - q != 0 {
      MulOutOfRange(m - q, n);
    }
  }

  lemma ModStep(x: int, d: int, n: nat)
    requires 0 < n
    ensures ((x % n) + d) % n == (x + d) % n
  {
    var q, q2, r := x / n, ((x % n) + d) / n, ((x % n) + d) % n;
    assert x == q * n + x % n;
    assert (x % n) + d == q2 * n + r;
    assert q * n + q2 * n == (q + q2) * n;
    ModUnique(x + d, n, q + q2, r);
  }

  /** `k` presses of the right arrow move `k` places round the ring; `k`
      presses of the left arrow move `k` places back. */
  lemma {:induction false} ArrowPresses(i: nat, n: nat, k: nat)
    requires i < n
    ensures Forward(i, n, k) == (i + k) % n
    ensures Backward(i, n, k) == (i - k) % n
  {
    if k > 0 {
      ArrowPresses(i, n, k - 1);
      ModStep(i + (k - 1), 1, n);
      ModStep(i - (k - 1), -1, n);
    }
  }

  /** As many presses of one arrow as there are images come back to the start. */
  lemma FullTurnReturns(i: nat, n: nat)
    requires i < n
    ensures Forward(i, n, n) == i && Backward(i, n, n) == i
  {
    ArrowPresses(i, n, n);
    ModUnique(i + n, n, 1, i);
    ModUnique(i - n, n, -1, i);
  }

  // ---------------------------------------------------------------------
  // Comments
  // ---------------------------------------------------------------------

  datatype Comment = Comment(id: string, userId: string, content: string)

  /** The guard of `handleComment`: nothing is sent while a comment is in
      flight or when the box holds only whitespace; otherwise the trimmed
      text is sent. */
  function CommentToSend(text: string, busy: bool): (content: Option<string>)
    ensures content.Some? <==> !busy && !Text.AllWhitespace(text)
    ensures content.Some? ==> (content.value == Text.Trim(text)
                               && content.value != [] && Text.IsTrimmed(content.value))
  {
    Text.TrimEmptyIffBlank(text);
    if Text.Trim(text) == [] || busy then None else Some(Text.Trim(text))
  }

  // ---------------------------------------------------------------------
  // The card's state
  // ---------------------------------------------------------------------

  class Card {
    const userId: string
    const postId: string
    const mediaUrls: seq<string>
    var isLiked: bool
    var likesCount: int
    var loading: bool
    var currentImageIndex: nat
    var comments: seq<Comment>
    var newComment: string
    var showComments: bool
    var commentLoading: bool
    /** The request `handleLike` sent and is waiting on, if any. */
    var pendingLike: Option<LikeRequest>

    ghost predicate Valid()
      reads this
    {
      |mediaUrls| > 0 && currentImageIndex < |mediaUrls|
      && (loading <==> pendingLike.Some?)
    }

    function View(): LikeView
      reads this
    {
      LikeView(isLiked, likesCount)
    }

    constructor (post: PostRow, currentUserId: string)
      ensures Valid() && userId == currentUserId && postId == post.id
      ensures mediaUrls == MediaUrls(post) && currentImageIndex == 0
      ensures View() == LikeView(false, InitialLikes(post)) && !loading
      ensures comments == [] && newComment == "" && !showComments && !commentLoading
    {
      userId, postId := currentUserId, post.id;
      mediaUrls := MediaUrls(post);
      isLiked, likesCount, loading := false, InitialLikes(post), false;
      currentImageIndex := 0;
      comments, newComment, showComments, commentLoading := [], "", false, false;
      pendingLike := None;
    }

    /** The mount-time check whether the viewer already likes the post. */
    method LikeChecked(found: bool)
      requires Valid()
      modifies this`isLiked
      ensures Valid() && isLiked == found
    {
      isLiked := found;
    }

    /** `handleLike` up to its store call: ignored while a like is in
        flight, otherwise marks one in flight and issues the request that
        the current `isLiked` picks. */
    method BeginLike() returns (request: Option<LikeRequest>)
      requires Valid()
      modifies this`loading, this`pendingLike
      ensures Valid() && loading
      ensures request == if old(loading) then None else Some(LikeRequestFor(isLiked, userId, postId))
      ensures pendingLike == if old(loading) then old(pendingLike) else request
    {
      if loading {
        return None;
      }
      loading := true;
      request := Some(LikeRequestFor(isLiked, userId, postId));
      pendingLike := request;
    }

    /** `handleLike` after its store call: on success the view shows what
        the pending request did, even if the mount-time check changed
        `isLiked` meanwhile; `loading` is cleared either way.
        `notifyParent` is the `onLikeUpdate` callback, called on success. */
    method FinishLike(ok: bool) returns (notifyParent: bool)
      requires Valid() && loading
      modifies this`isLiked, this`likesCount, this`loading, this`pendingLike
      ensures Valid() && !loading && notifyParent == ok
      ensures View() == AfterReply(old(View()), old(pendingLike).value, ok)
    {
      if ok {
        if pendingLike.value.DeleteLike? {
          isLiked := false;
          likesCount := likesCount - 1;
        } else {
          isLiked := true;
          likesCount := likesCount + 1;
        }
      }
      notifyParent := ok;
      loading := false;
      pendingLike := None;
    }

    method ShowPreviousImage()
      requires Valid()
      modifies this`currentImageIndex
      ensures Valid() && currentImageIndex == PreviousImage(old(currentImageIndex), |mediaUrls|)
    {
      currentImageIndex := if currentImageIndex > 0 then currentImageIndex - 1 else |mediaUrls| - 1;
    }

    method ShowNextImage()
      requires Valid()
      modifies this`currentImageIndex
      ensures Valid() && currentImageIndex == NextImage(old(currentImageIndex), |mediaUrls|)
    {
      currentImageIndex := if currentImageIndex < |mediaUrls| - 1 then currentImageIndex + 1 else 0;
    }

    /** A click on the dot of image `index`. */
    method ShowImage(index: nat)
      requires Valid() && index < |mediaUrls|
      modifies this`currentImageIndex
      ensures Valid() && currentImageIndex == index
    {
      currentImageIndex := index;
    }

    /** The comment box's `onChange`; the box is disabled while a comment is in flight. */
    method EditComment(text: string)
      requires Valid() && !commentLoading
      modifies this`newComment
      ensures Valid() && newComment == text
    {
      newComment := text;
    }

    /** `handleComment` up to its insert: the content sent, if any, and the
        in-flight flag raised when something is sent. */
    method BeginComment() returns (content: Option<string>)
      requires Valid()
      modifies this`commentLoading
      ensures Valid()
      ensures content == CommentToSend(newComment, old(commentLoading))
      ensures commentLoading == (old(commentLoading) || content.Some?)
    {
      content := CommentToSend(newComment, commentLoading);
      if content.Some? {
        commentLoading := true;
      }
    }

    /** `handleComment` from its insert's answer to its `finally`. On success
        the box is cleared, the comments are re-fetched (`refetched` is the
        answer of the awaited `fetchComments`, whose error is only logged)
        and the parent's `onLikeUpdate` is called (`notifyParent`). The flag
        stays raised through all of that and is cleared only at the end,
        either way, so no second comment can start during the re-fetch. */
    method FinishComment(ok: bool, refetched: Result<seq<Comment>>) returns (notifyParent: bool)
      requires Valid() && commentLoading
      modifies this`newComment, this`comments, this`commentLoading
      ensures Valid() && !commentLoading && notifyParent == ok
      ensures newComment == if ok then "" else old(newComment)
      ensures comments == if ok && refetched.Ok? then refetched.value else old(comments)
    {
      if ok {
        newComment := "";
        if refetched.Ok? {
          comments := refetched.value;
        }
        notifyParent := true;
      } else {
        notifyParent := false;
      }
      commentLoading := false;
    }

    /** `handleShowComments`: toggles the dialog and asks for the comments
        when it opens with none loaded yet. */
    method ToggleComments() returns (fetch: bool)
      requires Valid()
      modifies this`showComments
      ensures Valid() && showComments == !old(showComments)
      ensures fetch <==> !old(showComments) && comments == []
    {
      fetch := !showComments && |comments| == 0;
      showComments := !showComments;
    }

    /** The answer of `fetchComments`: kept on success, ignored on error. */
    method CommentsFetched(result: Result<seq<Comment>>)
      requires Valid()
      modifies this`comments
      ensures Valid()
      ensures comments == if result.Ok? then result.value else old(comments)
    {
      if result.Ok? {
        comments := result.value;
      }
    }
  }
}
