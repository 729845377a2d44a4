/** Documents the three components read and the requests they send. */
module Domain {

  datatype Option<T> = None | Some(value: T)

  type UserId = string
  type PostId = string

  /** A user document as embedded in another document (a liker, a post's creator). */
  datatype UserDoc = UserDoc(id: UserId, name: string, imageUrl: string)

  /** A post's `creator`: the full user document the backend embeds, or the
      image-only stub the saved-posts page puts in its place. */
  datatype Creator = Full(user: UserDoc) | ImageOnly(imageUrl: string)

  /** `creator.$id`, which the image-only stub does not have. */
  function CreatorId(c: Creator): Option<UserId>
  {
    if c.Full? then Some(c.user.id) else None
  }

  datatype Post = Post(
    id: PostId,
    caption: string,
    tags: seq<string>,
    location: string,
    creator: Creator,
    imageId: string,
    imageUrl: string,
    likes: seq<UserDoc>,
    createdAt: string)

  /** The join document linking the current user to a post they saved; it has
      an id of its own, distinct from the post's. */
  datatype SaveRecord = SaveRecord(id: string, post: Post)

  datatype CurrentUser = CurrentUser(
    id: UserId,
    name: string,
    username: string,
    email: string,
    bio: string,
    imageUrl: string,
    save: seq<SaveRecord>)

  /** An outbound mutation handed to the backend; only its payload is modelled. */
  datatype Request =
    | UpdateLikes(postId: PostId, likesArray: seq<UserId>)
    | CreateSave(postId: PostId, userId: UserId)
    | DeleteSave(recordId: string)
    | DeletePost(routeId: Option<PostId>, imageId: Option<string>)

  /** What a page shows in place of a list of posts. */
  datatype Section = Loader | EmptyMessage | Grid(posts: seq<Post>)
}
