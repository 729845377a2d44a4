/** The saved-posts page: the current user's save records projected to posts,
    in the reverse of the order they are returned in, and what the page shows
    in their place. */
module Saved {
  import opened Domain
  import opened Seqs

  /** `{ ...post, creator: { imageUrl } }`: the post with only its creator
      replaced by an image-only stub. */
  function WithCreatorStub(p: Post, imageUrl: string): (r: Post)
    ensures r.creator == ImageOnly(imageUrl)
    ensures r.(creator := p.creator) == p
  {
    p.(creator := ImageOnly(imageUrl))
  }

  /** The `map` over the save records. */
  function StubbedPosts(save: seq<SaveRecord>, imageUrl: string): (r: seq<Post>)
    ensures |r| == |save|
    ensures forall i :: 0 <= i < |save| ==> r[i] == WithCreatorStub(save[i].post, imageUrl)
  {
    if save == [] then []
    else [WithCreatorStub(save[0].post, imageUrl)] + StubbedPosts(save[1..], imageUrl)
  }

  /** `savePosts`: one post per save record, in the reverse of the order the
      records are returned in; position `i` holds the post of record `n - 1 - i`
      with its creator stubbed and every other field kept. */
  function SavePosts(u: CurrentUser): (r: seq<Post>)
    ensures |r| == |u.save|
    ensures forall i :: 0 <= i < |r| ==>
      && r[i].creator == ImageOnly(u.imageUrl)
      && r[i].(creator := u.save[|u.save| - 1 - i].post.creator) == u.save[|u.save| - 1 - i].post
  {
    Reverse(StubbedPosts(u.save, u.imageUrl))
  }

  /** Save records returned as r1, r2, r3 are shown as r3, r2, r1. */
  lemma SavePostsReversed(u: CurrentUser, r1: SaveRecord, r2: SaveRecord, r3: SaveRecord)
    requires u.save == [r1, r2, r3]
    ensures SavePosts(u) ==
      [WithCreatorStub(r3.post, u.imageUrl), WithCreatorStub(r2.post, u.imageUrl), WithCreatorStub(r1.post, u.imageUrl)]
  {
  }

  /** The page body: a loader with no user, the empty message when nothing is
      saved, and otherwise a grid that is never empty. */
  function SavedSection(currentUser: Option<CurrentUser>): (v: Section)
    ensures v == Loader <==> currentUser.None?
    ensures v == EmptyMessage <==> currentUser.Some? && currentUser.value.save == []
    ensures v.Grid? ==> currentUser.Some? && v.posts == SavePosts(currentUser.value) && |v.posts| > 0
  {
    if currentUser.None? then Loader
    else
      var savePosts := SavePosts(currentUser.value);
      if |savePosts| == 0 then EmptyMessage else Grid(savePosts)
  }
}
