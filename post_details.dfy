/** The post-details page: the related-posts filter, the owner-only edit and
    delete controls, the delete request, and the loader choices. */
module PostDetails {
  import opened Domain
  import opened Seqs

  /** The filter's test fails: the post is the one the route names. */
  predicate IsRoutePost(p: Post, routeId: Option<PostId>)
  {
    routeId == Some(p.id)
  }

  /** `documents.filter(userPost => userPost.$id !== id)`. */
  function ExcludeRoutePost(posts: seq<Post>, routeId: Option<PostId>): (r: seq<Post>)
    ensures forall p :: p in r ==> p in posts && !IsRoutePost(p, routeId)
    ensures forall p :: p in posts && !IsRoutePost(p, routeId) ==> p in r
  {
    if posts == [] then []
    else (if IsRoutePost(posts[0], routeId) then [] else [posts[0]]) + ExcludeRoutePost(posts[1..], routeId)
  }

  /** `relatedPosts`: undefined while the creator's posts are undefined. */
  function RelatedPosts(userPosts: Option<seq<Post>>, routeId: Option<PostId>): (r: Option<seq<Post>>)
    ensures r.Some? <==> userPosts.Some?
  {
    if userPosts.None? then None else Some(ExcludeRoutePost(userPosts.value, routeId))
  }

  /** The filter keeps the other posts in their original relative order. */
  lemma {:induction false} ExcludeRoutePostIsSubsequence(posts: seq<Post>, routeId: Option<PostId>)
    ensures IsSubsequence(ExcludeRoutePost(posts, routeId), posts)
  {
    if posts != [] {
      ExcludeRoutePostIsSubsequence(posts[1..], routeId);
      if IsRoutePost(posts[0], routeId) {
        assert ExcludeRoutePost(posts, routeId) == ExcludeRoutePost(posts[1..], routeId);
      } else {
        assert ExcludeRoutePost(posts, routeId)[1..] == ExcludeRoutePost(posts[1..], routeId);
      }
    }
  }

  /** Every other post is kept as often as it occurs; the viewed one never is. */
  lemma {:induction false} ExcludeRoutePostMultiset(posts: seq<Post>, routeId: Option<PostId>, p: Post)
    ensures multiset(ExcludeRoutePost(posts, routeId))[p] ==
      if IsRoutePost(p, routeId) then 0 else multiset(posts)[p]
  {
    if posts != [] {
      ExcludeRoutePostMultiset(posts[1..], routeId, p);
      assert posts == [posts[0]] + posts[1..];
    }
  }

  ghost predicate IdsDistinct(posts: seq<Post>)
  {
    forall i, j :: 0 <= i < j < |posts| ==> posts[i].id != posts[j].id
  }

  /** When the creator's post ids are distinct and the viewed post is among
      them, the related list is one shorter. */
  lemma {:induction false} ExcludeRoutePostDropsOne(posts: seq<Post>, id: PostId)
    requires IdsDistinct(posts)
    requires exists i :: 0 <= i < |posts| && posts[i].id == id
    ensures |ExcludeRoutePost(posts, Some(id))| == |posts| - 1
  {
    var tail := posts[1..];
    assert IdsDistinct(tail) by {
      forall i, j | 0 <= i < j < |tail| ensures tail[i].id != tail[j].id {
        assert tail[i] == posts[i + 1] && tail[j] == posts[j + 1];
      }
    }
    if posts[0].id == id {
      KeepsAllWithoutRoute(tail, id);
    } else {
      var i :| 0 <= i < |posts| && posts[i].id == id;
      assert tail[i - 1].id == id;
      ExcludeRoutePostDropsOne(tail, id);
    }
  }

  /** Helper: a list whose ids all differ from the route id passes unchanged. */
  lemma {:induction false} KeepsAllWithoutRoute(posts: seq<Post>, id: PostId)
    requires forall i :: 0 <= i < |posts| ==> posts[i].id != id
    ensures ExcludeRoutePost(posts, Some(id)) == posts
  {
    if posts != [] {
      KeepsAllWithoutRoute(posts[1..], id);
      assert posts == [posts[0]] + posts[1..];
    }
  }

  /** `user.id !== post?.creator.$id`: the class that hides the edit link and
      the delete button. */
  function OwnerControlsHidden(userId: UserId, post: Post): (hidden: bool)
    ensures !hidden <==> post.creator.Full? && post.creator.user.id == userId
  {
    CreatorId(post.creator) != Some(userId)
  }

  /** The post card: a loader, or the post with the visibility of its edit
      link and delete button. */
  datatype Card = CardLoader | PostCard(post: Post, editVisible: bool, deleteVisible: bool)

  function PostCardView(isPending: bool, post: Option<Post>, userId: UserId): (c: Card)
    ensures c.CardLoader? <==> isPending || post.None?
    ensures c.PostCard? ==>
      && c.post == post.value
      && c.editVisible == c.deleteVisible
      && (c.editVisible <==> CreatorId(post.value.creator) == Some(userId))
  {
    if isPending || post.None? then CardLoader
    else
      var hidden := OwnerControlsHidden(userId, post.value);
      PostCard(post.value, !hidden, !hidden)
  }

  /** The related-posts section: a loader while the creator's posts are pending
      or undefined, otherwise the grid of related posts (which may be empty). */
  function RelatedSection(isUserPostLoading: bool, relatedPosts: Option<seq<Post>>): (v: Section)
    ensures v == Loader <==> isUserPostLoading || relatedPosts.None?
    ensures v.Grid? ==> v.posts == relatedPosts.value
    ensures !v.EmptyMessage?
  {
    if isUserPostLoading || relatedPosts.None? then Loader else Grid(relatedPosts.value)
  }

  /** The related-posts grid never shows the viewed post. */
  lemma RelatedSectionExcludesViewed(isUserPostLoading: bool, userPosts: Option<seq<Post>>, id: PostId)
    ensures var v := RelatedSection(isUserPostLoading, RelatedPosts(userPosts, Some(id)));
      v.Grid? ==> forall p :: p in v.posts ==> p.id != id
  {
  }

  /** What deleting does, in order. */
  datatype Effect = Send(request: Request) | NavigateBack

  /** `handleDeletePost`: one delete request carrying the route id (not the
      loaded post's id) and the loaded post's image id, then back navigation. */
  function DeletePostEffects(routeId: Option<PostId>, post: Option<Post>): (effects: seq<Effect>)
    ensures |effects| == 2 && effects[1] == NavigateBack
    ensures effects[0].Send? && effects[0].request.DeletePost?
    ensures effects[0].request.routeId == routeId
    ensures effects[0].request.imageId.Some? <==> post.Some?
    ensures post.Some? ==> effects[0].request.imageId.value == post.value.imageId
  {
    var imageId := if post.Some? then Some(post.value.imageId) else None;
    [Send(DeletePost(routeId, imageId)), NavigateBack]
  }
}
