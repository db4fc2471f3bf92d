/**
 Properties that relate several handler calls: what a later read sees after a
 mutation, round trips, idempotence, the ownership guard, and how the record
 store and the media store drift apart.
 */
module BlogProperties {
  import opened Wrappers
  import opened BlogModel
  import opened Listing
  import opened BlogController

  /** The caller's listing names each of the caller's posts exactly once and
      no post of anyone else. */
  lemma UserListingExactlyOwned(posts: map<PostId, Post>, u: UserId, es: seq<Entry>)
    requires multiset(es) == multiset(set k | k in posts && posts[k].author == u :: Entry(k, posts[k]))
    ensures forall i, j :: 0 <= i < j < |es| ==> es[i].id != es[j].id
    ensures forall e :: e in es <==> e.id in posts && posts[e.id] == e.post && e.post.author == u
  {
    var mine := AuthoredBy(posts, u);
    AuthoredEntries(posts, u);
    ListingExactlyOnce(mine, es);
  }

  /** A created post is what a later read by id returns. */
  lemma AddThenGet(st: State, caller: UserId, body: Body, file: Upload, id: PostId, now: nat)
    requires id !in st.posts
    ensures var s := AddBlog(st, caller, body, Some(file), id, now, Committed);
      && s.reply.status == CREATED
      && GetBlogById(s.next, id) == Reply(OK, OnePost(id, NewPost(caller, body, file, now)))
      && GetBlogById(s.next, id).payload.post.author == caller
  {
  }

  /** After the owner deletes a post it reads as 404, whatever the media store
      did, and every other post reads as before. */
  lemma RemoveThenGetNotFound(st: State, caller: UserId, id: PostId, destroy: Destroy)
    requires id in st.posts && st.posts[id].author == caller
    ensures var s := RemoveBlog(st, caller, id, destroy, Committed);
      && s.reply.status == OK
      && GetBlogById(s.next, id) == Reply(NOT_FOUND, Message("Blog not found"))
      && forall k :: k != id ==> GetBlogById(s.next, k) == GetBlogById(st, k)
  {
  }

  /** Creating a post and then deleting it as its author restores the post
      collection; the uploaded asset is gone only if its destroy succeeded. */
  lemma AddThenRemoveRestores(st: State, caller: UserId, body: Body, file: Upload,
                              id: PostId, now: nat, destroy: Destroy)
    requires id !in st.posts
    ensures var added := AddBlog(st, caller, body, Some(file), id, now, Committed).next;
      var s := RemoveBlog(added, caller, id, destroy, Committed);
      && s.reply.status == OK
      && s.next.posts == st.posts
      && (|file.filename| > 0 ==> s.destroyed == Some(file.filename))
      && s.next.assets == if |file.filename| > 0 && destroy.Destroyed? then st.assets - {file.filename} else st.assets
  {
  }

  /** Running the update handler twice on the same body and the same stored
      upload (or no file) leaves the store as one run did, even when the first
      run handed the post to another author. */
  lemma UpdateIdempotent(st: State, caller: UserId, id: PostId, body: Body,
                         file: Option<Upload>, write: Write)
    ensures var once := UpdateBlog(st, caller, id, body, file, write).next;
      UpdateBlog(once, caller, id, body, file, write).next == once
  {
  }

  /** Neither mutation changes the post collection unless the caller is
      exactly the stored author. */
  lemma OnlyOwnerMutates(st: State, caller: UserId, id: PostId, body: Body,
                         file: Option<Upload>, destroy: Destroy, write: Write)
    requires id !in st.posts || st.posts[id].author != caller
    ensures UpdateBlog(st, caller, id, body, file, write).next == st
    ensures RemoveBlog(st, caller, id, destroy, write).next == st
    ensures RemoveBlog(st, caller, id, destroy, write).destroyed.None?
  {
  }

  /** The body is spread into the record, so an update can hand a post to
      another principal, who may then change it while the creator is refused. */
  lemma UpdateCanReassignAuthor(st: State, caller: UserId, other: UserId, id: PostId,
                                body: Body, file: Option<Upload>)
    requires id in st.posts && st.posts[id].author == caller
    requires other != caller && body.author == Some(other)
    ensures var s := UpdateBlog(st, caller, id, body, file, Committed);
      && s.reply.status == OK
      && s.next.posts[id].author == other
      && UpdateBlog(s.next, caller, id, body, file, Committed).reply.status == FORBIDDEN
      && RemoveBlog(s.next, other, id, DestroyFailed, Committed).reply.status == OK
  {
  }

  /** A new image replaces only the locator: the stored asset handle stays the
      old one. A later delete asks the media service to destroy the old handle,
      when it is set, and never the freshly uploaded one, which stays in the
      media store with no post holding its handle. */
  lemma NewImageKeepsOldHandle(st: State, caller: UserId, id: PostId, body: Body,
                               file: Upload, destroy: Destroy)
    requires id in st.posts && st.posts[id].author == caller
    requires body.author.None? && body.imagePublicId.None?
    requires file.filename in st.assets
    requires forall k :: k in st.posts ==> st.posts[k].imagePublicId != Some(file.filename)
    ensures var s := UpdateBlog(st, caller, id, body, Some(file), Committed);
      var p := s.next.posts[id];
      var gone := RemoveBlog(s.next, caller, id, destroy, Committed);
      && p.image == Some(file.path)
      && p.imagePublicId == st.posts[id].imagePublicId
      && gone.reply.status == OK
      && gone.destroyed != Some(file.filename)
      && (Truthy(st.posts[id].imagePublicId) ==> gone.destroyed == Some(st.posts[id].imagePublicId.value))
      && file.filename in gone.next.assets
      && id !in gone.next.posts
      && (forall k :: k in gone.next.posts ==> gone.next.posts[k] == st.posts[k])
      && forall k :: k in gone.next.posts ==> gone.next.posts[k].imagePublicId != Some(file.filename)
  {
  }

  /** Every post's truthy asset handle names an asset that exists. */
  predicate AssetsBacked(st: State) {
    forall k :: k in st.posts && Truthy(st.posts[k].imagePublicId) ==>
      st.posts[k].imagePublicId.value in st.assets
  }

  /** No two posts hold the same truthy asset handle. */
  predicate HandlesUnique(st: State) {
    forall j, k :: j in st.posts && k in st.posts && j != k && Truthy(st.posts[j].imagePublicId) ==>
      st.posts[j].imagePublicId != st.posts[k].imagePublicId
  }

  /** Every stored post has an image locator. */
  predicate ImagesPresent(st: State) {
    forall k :: k in st.posts ==> st.posts[k].image.Some?
  }

  /** A create always stores the uploaded file's locator. */
  lemma AddKeepsImagesPresent(st: State, caller: UserId, body: Body, file: Option<Upload>,
                              id: PostId, now: nat, write: Write)
    requires ImagesPresent(st)
    ensures ImagesPresent(AddBlog(st, caller, body, file, id, now, write).next)
  {
  }

  /** An update falls back to the stored locator when neither a file nor a
      truthy body image is given, so a post never loses its locator. */
  lemma UpdateKeepsImagesPresent(st: State, caller: UserId, id: PostId, body: Body,
                                 file: Option<Upload>, write: Write)
    requires ImagesPresent(st)
    ensures ImagesPresent(UpdateBlog(st, caller, id, body, file, write).next)
  {
  }

  /** A delete only drops a post, so the remaining posts keep their locators. */
  lemma RemoveKeepsImagesPresent(st: State, caller: UserId, id: PostId,
                                 destroy: Destroy, write: Write)
    requires ImagesPresent(st)
    ensures ImagesPresent(RemoveBlog(st, caller, id, destroy, write).next)
  {
  }

  /** Creating a post from a stored upload keeps every handle backed. */
  lemma AddKeepsAssetsBacked(st: State, caller: UserId, body: Body, file: Option<Upload>,
                             id: PostId, now: nat, write: Write)
    requires AssetsBacked(st)
    requires file.Some? ==> file.value.filename in st.assets
    ensures AssetsBacked(AddBlog(st, caller, body, file, id, now, write).next)
  {
  }

  /** An update keeps every handle backed unless its body names a handle of
      an asset that does not exist. */
  lemma UpdateKeepsAssetsBacked(st: State, caller: UserId, id: PostId, body: Body,
                                file: Option<Upload>, write: Write)
    requires AssetsBacked(st)
    requires Truthy(body.imagePublicId) ==> body.imagePublicId.value in st.assets
    ensures AssetsBacked(UpdateBlog(st, caller, id, body, file, write).next)
  {
  }

  /** A committed delete keeps every handle backed when handles are unique. */
  lemma RemoveKeepsAssetsBacked(st: State, caller: UserId, id: PostId, destroy: Destroy)
    requires AssetsBacked(st) && HandlesUnique(st)
    ensures AssetsBacked(RemoveBlog(st, caller, id, destroy, Committed).next)
  {
  }

  /** When the destroy succeeds but the record delete fails, the post
      survives with a handle to an asset that no longer exists. */
  lemma FailedDeleteLeavesDanglingHandle(st: State, caller: UserId, id: PostId)
    requires AssetsBacked(st)
    requires id in st.posts && st.posts[id].author == caller
    requires Truthy(st.posts[id].imagePublicId)
    ensures var s := RemoveBlog(st, caller, id, Destroyed, StoreFailed);
      && s.reply.status == SERVER_ERROR
      && id in s.next.posts
      && !AssetsBacked(s.next)
  {
  }

  /** The end-to-end scenario: U1 creates, anyone reads, U2 is refused,
      U1 deletes, the post reads as 404. */
  lemma CreateReadRefuseDelete(st: State, u1: UserId, u2: UserId, body: Body, file: Upload,
                               id: PostId, now: nat, destroy: Destroy)
    requires id !in st.posts && u1 != u2
    ensures var created := AddBlog(st, u1, body, Some(file), id, now, Committed);
      var read := GetBlogById(created.next, id);
      var refused := UpdateBlog(created.next, u2, id, body, None, Committed);
      var deleted := RemoveBlog(refused.next, u1, id, destroy, Committed);
      && created.reply.status == CREATED && created.next.posts[id].author == u1
      && read.status == OK && read.payload == created.reply.payload
      && refused.reply.status == FORBIDDEN && refused.next == created.next
      && deleted.reply.status == OK
      && GetBlogById(deleted.next, id).status == NOT_FOUND
  {
  }
}
