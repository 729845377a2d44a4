# Post interactions of a social-media client, in Dafny

This project models the three pieces of a React social-media client that hold
logic of their own over sequences:

- **PostStats** (`post_stats.dfy`): the like/save controller behind every post card.
  It is a class `Controller`. Its fields are the local like-list, the local `isSaved`
  flag, the current user's data and a log of outbound requests. It has the two click
  handlers and the effect that resyncs `isSaved` when the current user changes. The
  pure parts are proved as lemmas: the like-list derivation, the like toggle (append
  when absent, remove every occurrence when present) and the first-match lookup of a
  save record.
- **Saved** (`saved.dfy`): the saved-posts page. Each save record is mapped to its
  post, with `creator` replaced by an image-only stub. The result is reversed, so the
  records appear in the reverse of the order they are returned in. The page shows a loader, an empty message or a grid.
- **PostDetails** (`post_details.dfy`): the post-details page. It filters the
  viewed post out of its creator's posts. The edit and delete controls are visible
  only to the creator. It builds the delete request, which navigates back afterwards,
  and it chooses when to show loaders.

`domain.dfy` holds the documents (post, user, save record) and the request log
entries. `seqs.dfy` holds reversal, distinctness and the subsequence relation.
Backend calls are not performed: each handler appends the request it would send to
`requests`, and the delete handler returns its effects as a list.

Facts about the code that the model makes explicit:

- The code keeps the like collection as a list. It appends on like and filters
  out *every* occurrence on unlike. `ToggleKeepsDistinct` proves that a
  duplicate-free list stays duplicate-free.
- Like then unlike, starting without the user, gives back exactly the original
  list (`LikeTwiceRestores`). Two toggles from any list restore membership
  (`ToggleTwiceRestoresMembership`). They do not always restore order: `["a","b"]`
  toggled twice for `"a"` becomes `["b","a"]`, because the like re-appends the
  user at the end.
- The save branch is chosen by whether a save record is found, not by `isSaved`.
  So two save clicks before the current user is refetched send two creates
  (`SaveTwiceBeforeRefetch`).
- The saved-posts page reverses the order in which the current user's save
  records are returned.

## Model

| member | source | states |
|---|---|---|
| `PostStats.LikerIds` | src/components/shared/PostStats.tsx:15 | the initial like-list has one id per liking user, the `$id` of the like at the same position |
| `PostStats.Without` | src/components/shared/PostStats.tsx:44 | the filtered list never holds the removed id, holds every other id exactly when the input does, and is no longer than the input |
| `PostStats.WithoutIsSubsequence` | src/components/shared/PostStats.tsx:44 | the filter keeps the remaining ids in their original relative order |
| `PostStats.WithoutMultiset` | src/components/shared/PostStats.tsx:44 | the filter drops every occurrence of the removed id and keeps every other id as many times as it occurred |
| `PostStats.WithoutAbsent` | src/components/shared/PostStats.tsx:44 | filtering out an id that is not present changes nothing |
| `PostStats.WithoutAppended` | src/components/shared/PostStats.tsx:44-47 | filtering an id out of a list with that id pushed at the end gives the same result as filtering the list without it |
| `PostStats.WithoutKeepsDistinct` | src/components/shared/PostStats.tsx:44 | filtering a duplicate-free list gives a duplicate-free list |
| `PostStats.LikeAppends` | src/components/shared/PostStats.tsx:40-47 | liking when absent gives the old list with the user pushed at the end, one longer |
| `PostStats.UnlikeRemovesAllOccurrences` | src/components/shared/PostStats.tsx:40-44 | unliking removes every occurrence of the user and keeps every other id, with its count and relative order, so the length drops by the number of occurrences |
| `PostStats.UnlikeCount` | src/components/shared/PostStats.tsx:40-44 | on a duplicate-free list, unliking lowers the displayed count by exactly one |
| `PostStats.ToggledLikes` | src/components/shared/PostStats.tsx:38-48 | one toggle flips the acting user's membership and leaves every other id's membership unchanged; `LikeAppends`, `UnlikeRemovesAllOccurrences`, `UnlikeCount`, `ToggleKeepsDistinct`, `LikeTwiceRestores` and `ToggleTwiceRestoresMembership` state the rest |
| `PostStats.ToggleKeepsDistinct` | src/components/shared/PostStats.tsx:38-50 | a toggle never introduces a duplicate |
| `PostStats.LikeTwiceRestores` | src/components/shared/PostStats.tsx:40-47 | from a list without the user, like then unlike gives back exactly the original list |
| `PostStats.ToggleTwiceRestoresMembership` | src/components/shared/PostStats.tsx:40-47 | from any list, two toggles restore membership; for `["a","b"]` and user `"a"` the order is not restored |
| `PostStats.FirstRecordFor` | src/components/shared/PostStats.tsx:27 | the found index is the first record for the post; no earlier record is for it, and the index equals the length only when no record is |
| `PostStats.SavedPostRecord` | src/components/shared/PostStats.tsx:27 | a found record is one of the current user's records and its post is the card's post; `SavedPostRecordIsFirstMatch` states existence and first match |
| `PostStats.SavedPostRecordIsFirstMatch` | src/components/shared/PostStats.tsx:27 | a record is found exactly when there is a current user with a record whose post id equals the post's id; the found record is the first such |
| `PostStats.SaveIconView` | src/components/shared/PostStats.tsx:88-100 | a spinner exactly while a save or unsave is pending, otherwise the icon, filled exactly when `isSaved` |
| `PostStats.Controller.constructor` | src/components/shared/PostStats.tsx:13-32 | on mount with a loaded post, the like-list is the liking users' ids and the log is empty; after the mount effect, `isSaved` holds exactly when a save record exists |
| `PostStats.Controller.CurrentUserChanged` | src/components/shared/PostStats.tsx:30-32 | when the current user changes, `isSaved` becomes true exactly when a save record for the post exists |
| `PostStats.Controller.HandleLikePost` | src/components/shared/PostStats.tsx:35-52 | the like-list becomes its toggle, and exactly one update-likes request is logged, carrying the post's id and the new list; nothing else changes |
| `PostStats.Controller.HandleSavePost` | src/components/shared/PostStats.tsx:55-67 | if a save record is found, `isSaved` becomes false and one delete keyed by the record's own id is logged; otherwise one create with (post id, user id) is logged and `isSaved` becomes true; the old `isSaved` plays no part |
| `PostStats.LikeTwice` | src/components/shared/PostStats.tsx:35-52 | two like clicks by a user not in the list restore the list and touch nothing but the list and the log; the two requests carry the list with the user and then the original list |
| `PostStats.SaveTwiceBeforeRefetch` | src/components/shared/PostStats.tsx:55-67 | with no save record found, two save clicks log two creates, leave `isSaved` true and touch nothing but the flag and the log |
| `Saved.WithCreatorStub` | src/_root/pages/Saved.tsx:11-15 | the projected post's creator is exactly the stub holding the user's image URL, and every other field is the post's own |
| `Saved.StubbedPosts` | src/_root/pages/Saved.tsx:11-15 | the map yields one stubbed post per save record, at the same position |
| `Seqs.Reverse` | src/_root/pages/Saved.tsx:16 | the reversal has the same length, and position `i` holds input position `n-1-i` |
| `Saved.SavePosts` | src/_root/pages/Saved.tsx:11-16 | the projection is as long as the save list; position `i` is the post of record `n-1-i`, with its creator stubbed and all other fields kept |
| `Saved.SavePostsReversed` | src/_root/pages/Saved.tsx:11-16 | records returned as r1, r2, r3 are shown as r3, r2, r1 |
| `Saved.SavedSection` | src/_root/pages/Saved.tsx:31-46 | the loader exactly when there is no user; the empty message exactly when the user has no save records; otherwise a grid of the projection, which is never empty |
| `PostDetails.ExcludeRoutePost` | src/_root/pages/PostDetails.tsx:23-25 | related posts are drawn from the creator's posts, never have the route id, and include every creator post with a different id |
| `PostDetails.RelatedPosts` | src/_root/pages/PostDetails.tsx:23-25 | related posts are undefined exactly when the creator's posts are undefined |
| `PostDetails.ExcludeRoutePostIsSubsequence` | src/_root/pages/PostDetails.tsx:23-25 | the related posts are a subsequence of the creator's posts, in the same relative order |
| `PostDetails.ExcludeRoutePostMultiset` | src/_root/pages/PostDetails.tsx:23-25 | each post without the route id is kept as often as it occurs, and the route's post is never kept |
| `PostDetails.ExcludeRoutePostDropsOne` | src/_root/pages/PostDetails.tsx:23-25 | with distinct post ids and the viewed post among them, exactly one post is dropped |
| `PostDetails.KeepsAllWithoutRoute` | src/_root/pages/PostDetails.tsx:23-25 | a list holding no post with the route id passes the filter unchanged |
| `PostDetails.OwnerControlsHidden` | src/_root/pages/PostDetails.tsx:89-103 | the edit link and delete button are shown exactly when the post's creator id equals the signed-in user's id |
| `PostDetails.PostCardView` | src/_root/pages/PostDetails.tsx:50-103 | the card is a loader exactly while the post is pending or absent; otherwise it shows the post, with edit and delete both visible exactly for the creator |
| `PostDetails.RelatedSection` | src/_root/pages/PostDetails.tsx:142-146 | the related section is a loader exactly while the creator's posts are pending or undefined, otherwise the grid of related posts, never the empty message |
| `PostDetails.RelatedSectionExcludesViewed` | src/_root/pages/PostDetails.tsx:23-146 | whenever the related grid is shown, it holds no post with the viewed post's id |
| `PostDetails.DeletePostEffects` | src/_root/pages/PostDetails.tsx:28-31 | deleting sends exactly one delete request, then navigates back; the request carries the route id and the loaded post's image id (undefined without a post) |

## Left out

- PostStats.Controller.constructor: takes a loaded post, although the prop is optional. Without a post, `likes` starts undefined, and the first render reads `likes.length` (src/components/shared/PostStats.tsx:83) and throws, so the component never mounts and its handlers cannot run. The failed render is not modelled. With a post present, `post?.$id || ''` is the post's id, which is what the requests carry.
- Saved.SavePosts: the page reverses the order in which the backend returns the save records. That this is newest first assumes the backend returns records oldest first, which is outside this model.
- Backend calls (update likes, create or delete a save, delete a post) are log entries only. Their success, failure and effect on stored data are not modelled, so the "create then delete a save restores the user's save list" round trip is not stated.
- Cache invalidation and refetching are external. A refetch appears only as a call to `CurrentUserChanged` with the new data.
- Async settlement order, pending mutations racing each other, and the missing rollback after a failed request are concurrency concerns. They are not modelled.
- `checkIsLiked` from the utilities module is not part of this model, so the filled state of the like icon is not modelled. The displayed count `likes.length` is the length of `likes`.
- Props are fixed for a mounted `Controller`. A later `post` prop would not re-initialise `likes` in the source either, because the initial state is read only once.
- `multiFormatDateString` and the post date are not part of this model. Rendering and layout are left out, and so are the tag list, the image and the profile link.
- Fetching the creator's posts by `post.creator.$id` is a backend query, so `userPosts` is an input.
- Form pages, the file uploader, the profile, liked-posts and search pages, and application bootstrap are outside this model.
