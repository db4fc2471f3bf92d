/**
 The data the blog controller works on: post records, the request parts a
 handler reads (caller, body, uploaded file), the reply it sends, and the
 state it changes (the post collection and the set of hosted image assets).
 */
module BlogModel {
  import opened Wrappers

  /** A principal id as the controller compares it: a string. */
  type UserId = string

  /** A post's database id. ObjectId generation is abstracted to a number. */
  type PostId = nat

  /** The public id of an image hosted by the media service. */
  type AssetId = string

  /** A string field that may be undefined (absent from a body or a document). */
  type Field = Option<string>

  /** JavaScript truthiness of a possibly-undefined string. */
  predicate Truthy(f: Field) {
    f.Some? && |f.value| > 0
  }

  /** A stored post. `image` is the public URL, `imagePublicId` the handle
      the media service needs to destroy the image. */
  datatype Post = Post(
    title: Field,
    description: Field,
    author: UserId,
    image: Field,
    imagePublicId: Field,
    createdAt: nat)

  /** The file the upload middleware stored before the handler runs:
      `path` is its URL, `filename` its public id. */
  datatype Upload = Upload(path: string, filename: AssetId)

  /** The request body fields the handlers read or spread into a record. */
  datatype Body = Body(
    title: Field,
    description: Field,
    author: Field,
    image: Field,
    imagePublicId: Field)

  /** The post collection and the assets that currently exist in the media store. */
  datatype State = State(posts: map<PostId, Post>, assets: set<AssetId>)

  /** One listed post together with its id. */
  datatype Entry = Entry(id: PostId, post: Post)

  datatype Payload =
    | Message(text: string)
    | OnePost(id: PostId, post: Post)
    | PostList(entries: seq<Entry>)

  /** A reply: HTTP status and JSON payload (`success` is `status < 300`). */
  datatype Reply = Reply(status: int, payload: Payload)

  const OK := 200
  const CREATED := 201
  const BAD_REQUEST := 400
  const UNAUTHORIZED := 401
  const FORBIDDEN := 403
  const NOT_FOUND := 404
  const SERVER_ERROR := 500

  /** The store's entries, one per stored post. */
  function Entries(posts: map<PostId, Post>): set<Entry> {
    set k | k in posts :: Entry(k, posts[k])
  }
}
