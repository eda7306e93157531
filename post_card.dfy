/**
 * The post card component: its props, its `likes` state with the mount seeding
 * and the `onLike` toggle, and the pure guards it renders with.
 */
module PostCard {
  import opened Optional
  import opened Likes
  import Media

  /** The `item` prop: the fields of a post the card's logic reads. */
  datatype Post = Post(
    id: PostId,
    authorId: Option<UserId>,
    body: string,
    file: Option<string>,
    postLikes: seq<Like>)

  /** The backend request `onLike` issues after updating the local list. */
  datatype LikeRequest =
    | RemovePostLike(postId: PostId, userId: UserId)
    | CreatePostLike(like: Like)

  /** The router push issued by `openPostDetails`. */
  datatype Route = PostDetails(postId: PostId)

  /** The object handed to the share sheet. */
  datatype ShareContent = ShareContent(message: string, url: Option<string>)

  /** `openPostDetails`: returns early when the more-icon is hidden. */
  function OpenPostDetails(showMoreIcon: bool, post: PostId): (r: Option<Route>)
    ensures r.None? <==> !showMoreIcon
    ensures r.Some? ==> r.value.postId == post
  {
    if !showMoreIcon then None else Some(PostDetails(post))
  }

  /** Whether the edit and delete controls are rendered. */
  function ShowsOwnerActions(showDelete: bool, viewer: UserId, author: Option<UserId>): (r: bool)
    ensures r <==> showDelete && author == Some(viewer)
  {
    showDelete && author.Some? && viewer == author.value
  }

  /** The owner controls never appear on another user's post, nor when not asked for. */
  lemma OwnerActionsOnlyForAuthor(showDelete: bool, viewer: UserId, author: Option<UserId>)
    requires !showDelete || author != Some(viewer)
    ensures !ShowsOwnerActions(showDelete, viewer, author)
  {
  }

  /**
   * `onShare`'s content: the stripped body always, and a `url` only when the
   * post has a file. `strip` stands for `stripHtmlTags`; `download` for
   * `downloadFile` applied to the file's storage URI.
   */
  function ShareContentFor(post: Post, strip: string -> string, download: string -> string): (r: ShareContent)
    ensures r.message == strip(post.body)
    ensures r.url.Some? <==> post.file.Some? && post.file.value != ""
    ensures r.url.Some? ==> r.url == Some(download(post.file.value))
  {
    if Media.Present(post.file) then ShareContent(strip(post.body), Some(download(post.file.value)))
    else ShareContent(strip(post.body), None)
  }

  /** A post whose card renders an image or a video also shares a `url`. */
  lemma SharesUrlWhenMediaShown(post: Post, strip: string -> string, download: string -> string)
    requires Media.MediaShown(post.file) != {}
    ensures ShareContentFor(post, strip, download).url == Some(download(post.file.value))
  {
  }

  /** The converse fails: a present file outside both media folders is shared but not rendered. */
  lemma SharesUrlWithoutMedia(post: Post, strip: string -> string, download: string -> string)
    requires Media.Present(post.file)
    requires !Media.Includes(post.file.value, Media.ImageFolder)
    requires !Media.Includes(post.file.value, Media.VideoFolder)
    ensures Media.MediaShown(post.file) == {} && ShareContentFor(post, strip, download).url.Some?
  {
  }

  /** One such post: its file `"a"` names neither folder. */
  lemma SharesUrlWithoutMediaExample(strip: string -> string, download: string -> string)
    ensures var post := Post(0, None, "", Some("a"), []);
      Media.MediaShown(post.file) == {} && ShareContentFor(post, strip, download).url.Some?
  {
  }

  /** The state of one rendered post card. */
  class PostCardState {
    const item: Post
    const currentUser: UserId
    const showMoreIcon: bool
    const showDelete: bool
    var likes: seq<Like>

    /** First render: `useState([])`. */
    constructor (item: Post, currentUser: UserId, showMoreIcon: bool, showDelete: bool)
      ensures this.item == item && this.currentUser == currentUser
      ensures this.showMoreIcon == showMoreIcon && this.showDelete == showDelete
      ensures likes == []
    {
      this.item := item;
      this.currentUser := currentUser;
      this.showMoreIcon := showMoreIcon;
      this.showDelete := showDelete;
      likes := [];
    }

    /** The mount effect: seed the list from the post's likes. */
    method OnMount()
      modifies this
      ensures likes == item.postLikes
      ensures LikeCount() == |item.postLikes|
    {
      likes := item.postLikes;
    }

    /** `liked`: whether the current user has a record in the list. */
    function Liked(): (b: bool)
      reads this
      ensures b <==> exists i :: 0 <= i < |likes| && likes[i].userId == currentUser
    {
      HasLiked(likes, currentUser)
    }

    /** The number shown beside the heart. */
    function LikeCount(): (n: nat)
      reads this
      ensures n == |LikesOf(likes, currentUser)| + |Without(likes, currentUser)|
      ensures Liked() ==> n > 0
    {
      Partition(likes, currentUser);
      |likes|
    }

    /**
     * `onLike`: replace the list first, then issue the matching request.
     * `succeeded` is the backend's `res.success`; a failure only raises the
     * alert and the updated list stays as it is.
     */
    method OnLike(succeeded: bool) returns (request: LikeRequest, alert: bool)
      modifies this
      ensures likes == Toggle(old(likes), currentUser, item.id)
      ensures Liked() == !old(Liked())
      ensures old(Liked()) ==> request == RemovePostLike(item.id, currentUser)
      ensures !old(Liked()) ==> request == CreatePostLike(Like(currentUser, item.id))
      ensures alert == !succeeded
    {
      if Liked() {
        likes := Without(likes, currentUser);
        request := RemovePostLike(item.id, currentUser);
      } else {
        var data := Like(currentUser, item.id);
        likes := likes + [data];
        request := CreatePostLike(data);
      }
      alert := !succeeded;
    }
  }

  /**
   * Two taps from the unliked state restore the list exactly, whatever the
   * backend answered to each request.
   */
  method DoubleTap(card: PostCardState, first: bool, second: bool)
    requires !card.Liked()
    modifies card
    ensures card.likes == old(card.likes)
  {
    ghost var before := card.likes;
    var _, _ := card.OnLike(first);
    var _, _ := card.OnLike(second);
    ToggleTwiceFromUnliked(before, card.currentUser, card.item.id);
  }
}
