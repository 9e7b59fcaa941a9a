/**
 The state of one feed post card: the optimistic like with its rollback, the
 comment form and the comment list. The server actions' replies (`toggleLike`,
 `addComment`, `getComments`, `deleteComment`) and the confirmation dialog are
 parameters; a thrown error is an outcome of its own.
 */
module Feed {
  import opened Wrappers
  import Text
  import Lists

  datatype Comment = Comment(id: string, userId: string, content: string)

  /** What awaiting a server action produced: the returned object's `error` field, or a throw. */
  datatype Reply = Returned(error: Option<string>) | Thrown

  /**
   The handler takes its failure path: the action threw, or its `error` is
   truthy. An empty `error` counts as success, as `if (result.error)` does.
   */
  predicate Failed(reply: Reply) {
    reply.Thrown? || Text.IsError(reply.error)
  }

  /** The like state after the optimistic step of a click. */
  function Optimistic(likes: int, isLiked: bool): (r: (int, bool))
    ensures r.1 == !isLiked
    ensures r.0 - likes == (if isLiked then -1 else 1)
  {
    (if isLiked then likes - 1 else likes + 1, !isLiked)
  }

  /** Two optimistic steps in a row cancel out. */
  lemma OptimisticTwiceRestores(likes: int, isLiked: bool)
    ensures Optimistic(Optimistic(likes, isLiked).0, Optimistic(likes, isLiked).1) == (likes, isLiked)
  {
  }

  function OtherComment(id: string): Comment -> bool {
    (c: Comment) => c.id != id
  }

  /** The comment list after deleting `id`. */
  function RemoveComment(cs: seq<Comment>, id: string): (r: seq<Comment>)
    ensures Lists.IsSubseq(r, cs)
    ensures forall k :: 0 <= k < |cs| ==> (cs[k] in r <==> cs[k].id != id)
    ensures forall c | c in r :: c.id != id
  {
    Lists.Filter(cs, OtherComment(id))
  }

  /** Deleting an id no comment has leaves the list as it is. */
  lemma RemoveAbsentComment(cs: seq<Comment>, id: string)
    requires forall k :: 0 <= k < |cs| ==> cs[k].id != id
    ensures RemoveComment(cs, id) == cs
  {
    Lists.FilterAll(cs, OtherComment(id));
  }

  class FeedItem {
    var likes: int
    var isLiked: bool
    var isLikeLoading: bool
    /** The values `handleLike` saved before its optimistic step. */
    var previousLikes: int
    var previousIsLiked: bool
    var comments: seq<Comment>
    var commentsCount: int
    var newComment: string
    var isPostingComment: bool

    /** The initial state from the post's props (a missing `isLiked` is false). */
    constructor (postLikes: int, postIsLiked: bool, postComments: int)
      ensures likes == postLikes && isLiked == postIsLiked && commentsCount == postComments
      ensures !isLikeLoading && comments == [] && newComment == "" && !isPostingComment
    {
      likes := postLikes;
      isLiked := postIsLiked;
      isLikeLoading := false;
      previousLikes := postLikes;
      previousIsLiked := postIsLiked;
      comments := [];
      commentsCount := postComments;
      newComment := "";
      isPostingComment := false;
    }

    /** The prop-change effect: the counters follow the props again. */
    method SyncProps(postLikes: int, postIsLiked: bool, postComments: int)
      modifies this
      ensures likes == postLikes && isLiked == postIsLiked && commentsCount == postComments
      ensures isLikeLoading == old(isLikeLoading) && comments == old(comments)
      ensures previousLikes == old(previousLikes) && previousIsLiked == old(previousIsLiked)
      ensures newComment == old(newComment) && isPostingComment == old(isPostingComment)
    {
      likes := postLikes;
      isLiked := postIsLiked;
      commentsCount := postComments;
    }

    /**
     The synchronous half of `handleLike`: ignored while a like is in flight;
     otherwise saves the current values, applies the optimistic step and marks
     the like as loading.
     */
    method LikeClicked() returns (started: bool)
      modifies this
      ensures started == !old(isLikeLoading)
      ensures !started ==>
        && likes == old(likes) && isLiked == old(isLiked) && isLikeLoading
        && previousLikes == old(previousLikes) && previousIsLiked == old(previousIsLiked)
      ensures started ==>
        && previousLikes == old(likes) && previousIsLiked == old(isLiked)
        && (likes, isLiked) == Optimistic(old(likes), old(isLiked)) && isLikeLoading
      ensures comments == old(comments) && commentsCount == old(commentsCount)
      ensures newComment == old(newComment) && isPostingComment == old(isPostingComment)
    {
      if isLikeLoading {
        return false;
      }
      previousLikes := likes;
      previousIsLiked := isLiked;
      var next := Optimistic(likes, isLiked);
      likes := next.0;
      isLiked := next.1;
      isLikeLoading := true;
      return true;
    }

    /**
     The rest of `handleLike` once `toggleLike` settles: a failure (a truthy
     error or a throw) restores exactly the saved values; the loading flag
     always clears.
     */
    method LikeSettled(reply: Reply)
      modifies this
      ensures !Failed(reply) ==> likes == old(likes) && isLiked == old(isLiked)
      ensures Failed(reply) ==> likes == old(previousLikes) && isLiked == old(previousIsLiked)
      ensures !isLikeLoading
      ensures previousLikes == old(previousLikes) && previousIsLiked == old(previousIsLiked)
      ensures comments == old(comments) && commentsCount == old(commentsCount)
      ensures newComment == old(newComment) && isPostingComment == old(isPostingComment)
    {
      if Failed(reply) {
        likes := previousLikes;
        isLiked := previousIsLiked;
      }
      isLikeLoading := false;
    }

    /** Typing into the comment box. */
    method TypeComment(text: string)
      modifies this
      ensures newComment == text
      ensures likes == old(likes) && isLiked == old(isLiked) && isLikeLoading == old(isLikeLoading)
      ensures previousLikes == old(previousLikes) && previousIsLiked == old(previousIsLiked)
      ensures comments == old(comments) && commentsCount == old(commentsCount)
      ensures isPostingComment == old(isPostingComment)
    {
      newComment := text;
    }

    /**
     `handleAddComment`: a blank comment does nothing. On success the input is
     cleared, the count rises by one and the list becomes the re-fetched
     comments (`fetched` is None when that fetch throws, which keeps the list).
     A failure (a truthy error or a throw) changes neither the input nor the
     count.
     */
    method HandleAddComment(reply: Reply, fetched: Option<seq<Comment>>)
      modifies this
      ensures Text.IsBlank(old(newComment)) ==>
        && newComment == old(newComment) && commentsCount == old(commentsCount)
        && comments == old(comments) && isPostingComment == old(isPostingComment)
      ensures !Text.IsBlank(old(newComment)) && !Failed(reply) ==>
        && newComment == "" && commentsCount == old(commentsCount) + 1
        && comments == (if fetched.Some? then fetched.value else old(comments))
      ensures !Text.IsBlank(old(newComment)) && Failed(reply) ==>
        newComment == old(newComment) && commentsCount == old(commentsCount) && comments == old(comments)
      ensures !Text.IsBlank(old(newComment)) ==> !isPostingComment
      ensures likes == old(likes) && isLiked == old(isLiked) && isLikeLoading == old(isLikeLoading)
      ensures previousLikes == old(previousLikes) && previousIsLiked == old(previousIsLiked)
    {
      if Text.IsBlank(newComment) {
        return;
      }
      isPostingComment := true;
      if !Failed(reply) {
        newComment := "";
        commentsCount := commentsCount + 1;
        if fetched.Some? {
          comments := fetched.value;
        }
      }
      isPostingComment := false;
    }

    /**
     The delete button of a comment: after confirmation and a `deleteComment`
     reply whose `error` is not truthy, only that comment leaves the list and
     the count drops by one (it is not clamped at zero).
     */
    method DeleteComment(id: string, confirmed: bool, error: Option<string>)
      modifies this
      ensures confirmed && !Text.IsError(error) ==>
        comments == RemoveComment(old(comments), id) && commentsCount == old(commentsCount) - 1
      ensures !(confirmed && !Text.IsError(error)) ==>
        comments == old(comments) && commentsCount == old(commentsCount)
      ensures likes == old(likes) && isLiked == old(isLiked) && isLikeLoading == old(isLikeLoading)
      ensures previousLikes == old(previousLikes) && previousIsLiked == old(previousIsLiked)
      ensures newComment == old(newComment) && isPostingComment == old(isPostingComment)
    {
      if confirmed && !Text.IsError(error) {
        comments := RemoveComment(comments, id);
        commentsCount := commentsCount - 1;
      }
    }
  }

  /** A click that settles with a failure leaves the like state as it was. */
  method FailedLikeRollsBack(item: FeedItem, reply: Reply)
    requires !item.isLikeLoading && Failed(reply)
    modifies item
    ensures item.likes == old(item.likes) && item.isLiked == old(item.isLiked) && !item.isLikeLoading
  {
    var started := item.LikeClicked();
    item.LikeSettled(reply);
  }

  /**
   A click whose reply is no failure (an empty `error` included) keeps the
   optimistic step: the like flips and the count moves by one.
   */
  method SuccessfulLikeToggles(item: FeedItem, reply: Reply)
    requires !item.isLikeLoading && !Failed(reply)
    modifies item
    ensures (item.likes, item.isLiked) == Optimistic(old(item.likes), old(item.isLiked)) && !item.isLikeLoading
  {
    var started := item.LikeClicked();
    item.LikeSettled(reply);
  }
}
