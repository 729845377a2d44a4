/** The like/save controller of a post card: the like-list and saved flag it
    keeps locally, and the requests its two click handlers send. */
module PostStats {
  import opened Domain
  import opened Seqs

  /** `post.likes.map(user => user.$id)`: the ids of the liking users. */
  function LikerIds(docs: seq<UserDoc>): (ids: seq<UserId>)
    ensures |ids| == |docs|
    ensures forall i :: 0 <= i < |docs| ==> ids[i] == docs[i].id
  {
    if docs == [] then [] else [docs[0].id] + LikerIds(docs[1..])
  }

  /** `likes.filter(id => id !== userId)`. */
  function Without(s: seq<UserId>, x: UserId): (r: seq<UserId>)
    ensures x !in r
    ensures forall y :: y != x ==> (y in r <==> y in s)
    ensures |r| <= |s|
  {
    if s == [] then []
    else (if s[0] == x then [] else [s[0]]) + Without(s[1..], x)
  }

  /** The like-list after the acting user clicks the like icon: their
      membership flips and every other id's membership is kept. */
  function ToggledLikes(likes: seq<UserId>, userId: UserId): (r: seq<UserId>)
    ensures userId in r <==> userId !in likes
    ensures forall y :: y != userId ==> (y in r <==> y in likes)
  {
    if userId in likes then Without(likes, userId) else likes + [userId]
  }

  /** The predicate `find` applies: the record's post is the post on the card. */
  predicate RecordIsFor(record: SaveRecord, postId: PostId)
  {
    record.post.id == postId
  }

  /** Index of the first record for `postId`, or `|save|` when there is none. */
  function FirstRecordFor(save: seq<SaveRecord>, postId: PostId): (i: nat)
    ensures i <= |save|
    ensures forall j :: 0 <= j < i ==> !RecordIsFor(save[j], postId)
    ensures i < |save| ==> RecordIsFor(save[i], postId)
  {
    if save == [] then 0
    else if RecordIsFor(save[0], postId) then 0
    else 1 + FirstRecordFor(save[1..], postId)
  }

  /** `currentUser?.save.find(record => record.post.$id === post.$id)`: a found
      record is one of the current user's records, for the card's post. */
  function SavedPostRecord(currentUser: Option<CurrentUser>, postId: PostId): (r: Option<SaveRecord>)
    ensures r.Some? ==> currentUser.Some? && r.value in currentUser.value.save && r.value.post.id == postId
  {
    if currentUser.None? then None
    else
      var save := currentUser.value.save;
      var i := FirstRecordFor(save, postId);
      if i < |save| then Some(save[i]) else None
  }

  // ---------------------------------------------------------------------
  // Properties of the like toggle

  lemma {:induction false} WithoutIsSubsequence(s: seq<UserId>, x: UserId)
    ensures IsSubsequence(Without(s, x), s)
  {
    if s != [] {
      WithoutIsSubsequence(s[1..], x);
      if s[0] == x {
        assert Without(s, x) == Without(s[1..], x);
      } else {
        assert Without(s, x)[1..] == Without(s[1..], x);
      }
    }
  }

  lemma {:induction false} WithoutMultiset(s: seq<UserId>, x: UserId)
    ensures multiset(Without(s, x)) == multiset(s)[x := 0]
  {
    if s != [] {
      WithoutMultiset(s[1..], x);
      assert s == [s[0]] + s[1..];
    }
  }

  lemma {:induction false} WithoutAbsent(s: seq<UserId>, x: UserId)
    requires x !in s
    ensures Without(s, x) == s
  {
    if s != [] {
      WithoutAbsent(s[1..], x);
      assert s == [s[0]] + s[1..];
    }
  }

  lemma {:induction false} WithoutAppended(s: seq<UserId>, x: UserId)
    ensures Without(s + [x], x) == Without(s, x)
  {
    if s != [] {
      assert (s + [x])[1..] == s[1..] + [x];
      WithoutAppended(s[1..], x);
    }
  }

  lemma {:induction false} WithoutKeepsDistinct(s: seq<UserId>, x: UserId)
    requires Distinct(s)
    ensures Distinct(Without(s, x))
  {
    if s != [] {
      WithoutKeepsDistinct(s[1..], x);
      assert s[0] !in s[1..] by {
        forall j | 0 <= j < |s[1..]| ensures s[1..][j] != s[0] {
          assert s[1..][j] == s[j + 1];
        }
      }
    }
  }

  /** Liking when absent appends the acting user, so the count grows by one. */
  lemma LikeAppends(likes: seq<UserId>, userId: UserId)
    requires userId !in likes
    ensures ToggledLikes(likes, userId) == likes + [userId]
    ensures |ToggledLikes(likes, userId)| == |likes| + 1
  {
  }

  /** Unliking removes every occurrence of the acting user and keeps every other
      id, each as often as before and in its original relative order. */
  lemma UnlikeRemovesAllOccurrences(likes: seq<UserId>, userId: UserId)
    requires userId in likes
    ensures userId !in ToggledLikes(likes, userId)
    ensures IsSubsequence(ToggledLikes(likes, userId), likes)
    ensures multiset(ToggledLikes(likes, userId)) == multiset(likes)[userId := 0]
    ensures |ToggledLikes(likes, userId)| == |likes| - multiset(likes)[userId]
  {
    WithoutIsSubsequence(likes, userId);
    WithoutMultiset(likes, userId);
    assert |multiset(Without(likes, userId))| == |Without(likes, userId)|;
  }

  /** On a duplicate-free list, unliking lowers the count by exactly one. */
  lemma {:induction false} UnlikeCount(likes: seq<UserId>, userId: UserId)
    requires Distinct(likes) && userId in likes
    ensures |ToggledLikes(likes, userId)| == |likes| - 1
  {
    var tail := likes[1..];
    assert Distinct(tail);
    if likes[0] == userId {
      assert userId !in tail by {
        forall j | 0 <= j < |tail| ensures tail[j] != userId {
          assert tail[j] == likes[j + 1];
        }
      }
      WithoutAbsent(tail, userId);
    } else {
      assert userId in tail;
      UnlikeCount(tail, userId);
    }
  }

  /** A like-list without duplicates stays without duplicates. */
  lemma ToggleKeepsDistinct(likes: seq<UserId>, userId: UserId)
    requires Distinct(likes)
    ensures Distinct(ToggledLikes(likes, userId))
  {
    if userId in likes {
      WithoutKeepsDistinct(likes, userId);
    }
  }

  /** Like then unlike, starting without the acting user, restores the list exactly. */
  lemma LikeTwiceRestores(likes: seq<UserId>, userId: UserId)
    requires userId !in likes
    ensures ToggledLikes(ToggledLikes(likes, userId), userId) == likes
  {
    WithoutAppended(likes, userId);
    WithoutAbsent(likes, userId);
  }

  /** From any list, two toggles restore membership, though not always order:
      unlike then like moves the acting user to the end. */
  lemma ToggleTwiceRestoresMembership(likes: seq<UserId>, userId: UserId)
    ensures forall y :: y in ToggledLikes(ToggledLikes(likes, userId), userId) <==> y in likes
    ensures ToggledLikes(ToggledLikes(["a", "b"], "a"), "a") == ["b", "a"]
  {
    assert Without(["a", "b"], "a") == ["b"];
  }

  // ---------------------------------------------------------------------
  // Properties of the save lookup

  /** The looked-up record is the first of the current user's records whose
      post is the card's post, and there is one exactly when some record is. */
  lemma SavedPostRecordIsFirstMatch(currentUser: Option<CurrentUser>, postId: PostId)
    ensures SavedPostRecord(currentUser, postId).Some? <==>
      currentUser.Some? &&
      exists i :: 0 <= i < |currentUser.value.save| && currentUser.value.save[i].post.id == postId
    ensures SavedPostRecord(currentUser, postId).Some? ==>
      exists i :: 0 <= i < |currentUser.value.save| &&
        currentUser.value.save[i] == SavedPostRecord(currentUser, postId).value &&
        forall j :: 0 <= j < i ==> currentUser.value.save[j].post.id != postId
  {
    if currentUser.Some? {
      var save := currentUser.value.save;
      var i := FirstRecordFor(save, postId);
      if i == |save| {
        forall k | 0 <= k < |save| ensures save[k].post.id != postId {
          assert !RecordIsFor(save[k], postId);
        }
      }
    }
  }

  /** The save control: a spinner while a save or unsave is in flight,
      otherwise the icon, filled exactly when `isSaved`. */
  datatype SaveIcon = SaveSpinner | SaveButton(filled: bool)

  function SaveIconView(isSavingPost: bool, isDeletingSaved: bool, isSaved: bool): (icon: SaveIcon)
    ensures icon.SaveSpinner? <==> isSavingPost || isDeletingSaved
    ensures icon.SaveButton? ==> (icon.filled <==> isSaved)
  {
    if isSavingPost || isDeletingSaved then SaveSpinner else SaveButton(isSaved)
  }

  // ---------------------------------------------------------------------
  // The component instance

  /** One mounted post-stats component for a loaded post. `currentUser` is the
      current-user query's data; `requests` is every mutation the handlers
      have sent. */
  class Controller {
    const post: Post
    const userId: UserId
    var currentUser: Option<CurrentUser>
    var likes: seq<UserId>
    var isSaved: bool
    var requests: seq<Request>

    /** Mounting: state is initialised, then the effect keyed on the current
        user runs once. */
    constructor (post: Post, userId: UserId, currentUser: Option<CurrentUser>)
      ensures this.post == post && this.userId == userId && this.currentUser == currentUser
      ensures likes == LikerIds(post.likes)
      ensures isSaved == SavedPostRecord(currentUser, post.id).Some?
      ensures requests == []
    {
      this.post := post;
      this.userId := userId;
      this.currentUser := currentUser;
      likes := LikerIds(post.likes);
      isSaved := false;
      requests := [];
      new;
      CurrentUserChanged(currentUser);
    }

    /** The current-user query delivered new data: the effect resets `isSaved`
        to whether a save record for this post exists. */
    method CurrentUserChanged(u: Option<CurrentUser>)
      modifies this`currentUser, this`isSaved
      ensures currentUser == u
      ensures isSaved == SavedPostRecord(u, post.id).Some?
    {
      currentUser := u;
      isSaved := SavedPostRecord(currentUser, post.id).Some?;
    }

    /** Click on the like icon: the local list is toggled and sent whole. */
    method HandleLikePost()
      modifies this`likes, this`requests
      ensures likes == ToggledLikes(old(likes), userId)
      ensures requests == old(requests) + [UpdateLikes(post.id, likes)]
    {
      var newLikes := likes;
      var hasLiked := userId in newLikes;
      if hasLiked {
        newLikes := Without(newLikes, userId);
      } else {
        newLikes := newLikes + [userId];
      }
      likes := newLikes;
      requests := requests + [UpdateLikes(post.id, newLikes)];
    }

    /** Click on the save icon. The branch follows the looked-up record, not
        `isSaved`: unsaving deletes by the record's own id. */
    method HandleSavePost()
      modifies this`isSaved, this`requests
      ensures var record := SavedPostRecord(currentUser, post.id);
        if record.Some? then
          !isSaved && requests == old(requests) + [DeleteSave(record.value.id)]
        else
          isSaved && requests == old(requests) + [CreateSave(post.id, userId)]
    {
      var savedPostRecord := SavedPostRecord(currentUser, post.id);
      if savedPostRecord.Some? {
        isSaved := false;
        requests := requests + [DeleteSave(savedPostRecord.value.id)];
      } else {
        requests := requests + [CreateSave(post.id, userId)];
        isSaved := true;
      }
    }
  }

  /** Two like clicks on a post the user had not liked leave the like-list as
      it was; the second request carries the original list. */
  method LikeTwice(c: Controller)
    requires c.userId !in c.likes
    modifies c`likes, c`requests
    ensures c.likes == old(c.likes)
    ensures c.requests == old(c.requests) +
      [UpdateLikes(c.post.id, old(c.likes) + [c.userId]), UpdateLikes(c.post.id, old(c.likes))]
  {
    c.HandleLikePost();
    LikeAppends(old(c.likes), c.userId);
    c.HandleLikePost();
    LikeTwiceRestores(old(c.likes), c.userId);
  }

  /** Two save clicks before the current user is refetched both send a create:
      `isSaved` alone never turns a click into an unsave. */
  method SaveTwiceBeforeRefetch(c: Controller)
    requires SavedPostRecord(c.currentUser, c.post.id).None?
    modifies c`isSaved, c`requests
    ensures c.isSaved
    ensures c.requests == old(c.requests) +
      [CreateSave(c.post.id, c.userId), CreateSave(c.post.id, c.userId)]
  {
    c.HandleSavePost();
    c.HandleSavePost();
  }
}
