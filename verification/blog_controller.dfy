/**
 The six blog handlers as transitions. Each mutation returns the reply, the
 next state and the destroy request it sent to the media service, if any.
 Outcomes the handlers cannot decide themselves are parameters: whether the
 one database write commits (`Write`) and whether a destroy call succeeds
 (`Destroy`). The fresh id and creation time of a new post are parameters too.
 */
module BlogController {
  import opened Wrappers
  import opened BlogModel
  import opened Listing

  datatype Write = Committed | StoreFailed
  datatype Destroy = Destroyed | DestroyFailed

  datatype Step = Step(reply: Reply, next: State, destroyed: Option<AssetId>)

  /** An error reply and no change. */
  function Refuse(st: State, status: int, text: string): Step {
    Step(Reply(status, Message(text)), st, None)
  }

  /** The post an add creates from the caller, the body and the uploaded file. */
  function NewPost(caller: UserId, body: Body, file: Upload, now: nat): Post {
    Post(body.title, body.description, caller, Some(file.path), Some(file.filename), now)
  }

  /** POST /: create a post owned by the caller from the uploaded image. */
  function AddBlog(st: State, caller: UserId, body: Body, file: Option<Upload>,
                   id: PostId, now: nat, write: Write): (s: Step)
    ensures s.destroyed.None? && s.next.assets == st.assets
    ensures file.None? ==> s.reply == Reply(BAD_REQUEST, Message("Image is required")) && s.next == st
    ensures s.reply.status in {CREATED, BAD_REQUEST, SERVER_ERROR}
    ensures s.reply.status == BAD_REQUEST <==> file.None?
    ensures file.Some? && (id in st.posts || write.StoreFailed?) ==>
      s.reply == Reply(SERVER_ERROR, Message("Error in adding blog"))
    ensures s.reply.status == CREATED <==> file.Some? && id !in st.posts && write.Committed?
    ensures s.reply.status != CREATED ==> s.next == st
    ensures s.reply.status == CREATED ==>
      && s.next.posts.Keys == st.posts.Keys + {id}
      && (forall k :: k in st.posts ==> s.next.posts[k] == st.posts[k])
      && var p := s.next.posts[id];
      && p.author == caller
      && p.image == Some(file.value.path)
      && p.imagePublicId == Some(file.value.filename)
      && p.title == body.title && p.description == body.description
      && p.createdAt == now
      && s.reply.payload == OnePost(id, p)
  {
    if file.None? then
      Refuse(st, BAD_REQUEST, "Image is required")
    else if id in st.posts || write.StoreFailed? then
      // a duplicate id is rejected by the store like any other failed write
      Refuse(st, SERVER_ERROR, "Error in adding blog")
    else
      var p := NewPost(caller, body, file.value, now);
      Step(Reply(CREATED, OnePost(id, p)), st.(posts := st.posts[id := p]), None)
  }

  /** GET /: every post, newest first. */
  method GetAllBlogs(st: State) returns (reply: Reply)
    ensures reply.status == OK && reply.payload.PostList?
    ensures NewestFirst(reply.payload.entries)
    ensures multiset(reply.payload.entries) == multiset(Entries(st.posts))
  {
    var es := ListNewestFirst(st.posts);
    reply := Reply(OK, PostList(es));
  }

  /** The posts whose stored author is exactly `u`. */
  function AuthoredBy(posts: map<PostId, Post>, u: UserId): map<PostId, Post> {
    map k | k in posts && posts[k].author == u :: posts[k]
  }

  /** The entries of the posts by `u` are those of the store with author `u`. */
  lemma AuthoredEntries(posts: map<PostId, Post>, u: UserId)
    ensures Entries(AuthoredBy(posts, u))
         == set k | k in posts && posts[k].author == u :: Entry(k, posts[k])
  {
    var mine := AuthoredBy(posts, u);
    forall e | e in Entries(mine)
      ensures e in set k | k in posts && posts[k].author == u :: Entry(k, posts[k])
    {
      assert e.id in mine;
    }
    forall e | e in set k | k in posts && posts[k].author == u :: Entry(k, posts[k])
      ensures e in Entries(mine)
    {
      assert e.id in mine;
    }
  }

  /** GET /user: the caller's posts, newest first; 401 without a caller. */
  method GetUserBlogs(st: State, caller: Option<UserId>) returns (reply: Reply)
    ensures caller.None? ==> reply == Reply(UNAUTHORIZED, Message("Unauthorized. Please log in."))
    ensures caller.Some? ==>
      && reply.status == OK && reply.payload.PostList?
      && NewestFirst(reply.payload.entries)
      && multiset(reply.payload.entries)
         == multiset(set k | k in st.posts && st.posts[k].author == caller.value :: Entry(k, st.posts[k]))
  {
    if caller.None? {
      return Reply(UNAUTHORIZED, Message("Unauthorized. Please log in."));
    }
    var mine := AuthoredBy(st.posts, caller.value);
    var es := ListNewestFirst(mine);
    AuthoredEntries(st.posts, caller.value);
    reply := Reply(OK, PostList(es));
  }

  /** The image an owner's update stores: the new file, else a truthy body
      image, else the stored one. */
  function UpdatedImage(stored: Post, body: Body, file: Option<Upload>): Field {
    if file.Some? then Some(file.value.path)
    else if Truthy(body.image) then body.image
    else stored.image
  }

  /** `{ ...body, image }` written over the stored record. */
  function Merge(stored: Post, body: Body, file: Option<Upload>): Post {
    Post(
      if body.title.Some? then body.title else stored.title,
      if body.description.Some? then body.description else stored.description,
      if body.author.Some? then body.author.value else stored.author,
      UpdatedImage(stored, body, file),
      if body.imagePublicId.Some? then body.imagePublicId else stored.imagePublicId,
      stored.createdAt)
  }

  /** PUT /:id: the owner merges the body (and a new image) into the post. */
  function UpdateBlog(st: State, caller: UserId, id: PostId, body: Body,
                      file: Option<Upload>, write: Write): (s: Step)
    ensures s.destroyed.None? && s.next.assets == st.assets
    ensures s.next.posts.Keys == st.posts.Keys
    ensures id !in st.posts ==>
      s.reply == Reply(NOT_FOUND, Message("Blog not found")) && s.next == st
    ensures id in st.posts && st.posts[id].author != caller ==>
      s.reply == Reply(FORBIDDEN, Message("Unauthorized to update this blog")) && s.next == st
    ensures s.reply.status == OK <==>
      id in st.posts && st.posts[id].author == caller && write.Committed?
    ensures id in st.posts && st.posts[id].author == caller && write.StoreFailed? ==>
      s.reply == Reply(SERVER_ERROR, Message("Can't update blog"))
    ensures s.reply.status != OK ==> s.next == st
    ensures s.reply.status == OK ==>
      && (forall k :: k in st.posts && k != id ==> s.next.posts[k] == st.posts[k])
      && var prev, p := st.posts[id], s.next.posts[id];
      && s.reply.payload == OnePost(id, p)
      && (file.Some? ==> p.image == Some(file.value.path))
      && (file.None? && Truthy(body.image) ==> p.image == body.image)
      && (file.None? && !Truthy(body.image) ==> p.image == prev.image)
      && p.title == (if body.title.Some? then body.title else prev.title)
      && p.description == (if body.description.Some? then body.description else prev.description)
      && p.author == (if body.author.Some? then body.author.value else prev.author)
      && p.imagePublicId == (if body.imagePublicId.Some? then body.imagePublicId else prev.imagePublicId)
      && p.createdAt == prev.createdAt
  {
    if id !in st.posts then
      Refuse(st, NOT_FOUND, "Blog not found")
    else if st.posts[id].author != caller then
      Refuse(st, FORBIDDEN, "Unauthorized to update this blog")
    else if write.StoreFailed? then
      Refuse(st, SERVER_ERROR, "Can't update blog")
    else
      var p := Merge(st.posts[id], body, file);
      Step(Reply(OK, OnePost(id, p)), st.(posts := st.posts[id := p]), None)
  }

  /** GET /:id: one post, or 404. */
  function GetBlogById(st: State, id: PostId): (r: Reply)
    ensures r.status == OK <==> id in st.posts
    ensures r.status == OK ==> r.payload == OnePost(id, st.posts[id])
    ensures r.status != OK ==> r == Reply(NOT_FOUND, Message("Blog not found"))
  {
    if id !in st.posts then Reply(NOT_FOUND, Message("Blog not found"))
    else Reply(OK, OnePost(id, st.posts[id]))
  }

  /** DELETE /:id: the owner removes the post; destroying its image is best effort. */
  function RemoveBlog(st: State, caller: UserId, id: PostId,
                      destroy: Destroy, write: Write): (s: Step)
    ensures id !in st.posts ==>
      s.reply == Reply(NOT_FOUND, Message("Blog not found")) && s.next == st && s.destroyed.None?
    ensures id in st.posts && st.posts[id].author != caller ==>
      s.reply == Reply(FORBIDDEN, Message("Unauthorized to delete this blog"))
      && s.next == st && s.destroyed.None?
    ensures s.destroyed.Some? <==>
      id in st.posts && st.posts[id].author == caller && Truthy(st.posts[id].imagePublicId)
    ensures s.destroyed.Some? ==> s.destroyed.value == st.posts[id].imagePublicId.value
    ensures s.next.assets ==
      if s.destroyed.Some? && destroy.Destroyed? then st.assets - {s.destroyed.value} else st.assets
    ensures s.reply.status == OK <==>
      id in st.posts && st.posts[id].author == caller && write.Committed?
    ensures s.reply.status == OK ==>
      s.reply.payload == Message("Blog deleted successfully") && s.next.posts == st.posts - {id}
    ensures s.reply.status != OK ==> s.next.posts == st.posts
    ensures id in st.posts && st.posts[id].author == caller && write.StoreFailed? ==>
      s.reply == Reply(SERVER_ERROR, Message("Can't delete blog"))
  {
    if id !in st.posts then
      Refuse(st, NOT_FOUND, "Blog not found")
    else if st.posts[id].author != caller then
      Refuse(st, FORBIDDEN, "Unauthorized to delete this blog")
    else
      var publicId := st.posts[id].imagePublicId;
      var call := if Truthy(publicId) then Some(publicId.value) else None;
      // a failed destroy is logged and swallowed
      var assets := if call.Some? && destroy.Destroyed? then st.assets - {call.value} else st.assets;
      if write.StoreFailed? then
        Step(Reply(SERVER_ERROR, Message("Can't delete blog")), st.(assets := assets), call)
      else
        Step(Reply(OK, Message("Blog deleted successfully")), State(st.posts - {id}, assets), call)
  }
}
