# Blog post lifecycle — a Dafny model

A model of the blog controller of a small Express/Mongoose backend
(`src/controllers/blog.controller.js`). Authenticated users create posts that
carry one image hosted by an external media service (Cloudinary); they edit and
delete their own posts; anyone lists and reads posts.

Each handler is a pure transition over a `State`: a map from post ids to
`Post` records (`title`, `description`, `author`, `image`, `imagePublicId`,
`createdAt`) plus the set of asset ids that exist in the media store. A
mutation returns a `Step`: the HTTP reply (status and payload), the next state,
and the asset id it asked the media service to destroy, if any.

Files:

- `wrappers.dfy` — `Option`, standing for a JavaScript value that may be `undefined`.
- `blog_model.dfy` — records, request body, uploaded file, reply, status codes, JS truthiness of a string field.
- `listing.dfy` — listing a store newest first (`sort({ createdAt: -1 })`) and the lemmas that a listing names every post exactly once.
- `blog_controller.dfy` — the six handlers: `AddBlog`, `GetAllBlogs`, `GetUserBlogs`, `UpdateBlog`, `GetBlogById`, `RemoveBlog`.
- `blog_properties.dfy` — properties relating several calls: read-after-write, add/remove round trip, update idempotence, the ownership guard, and the consistency between post records and hosted assets.

Things the handlers cannot decide are parameters: the fresh post id and
creation time (generated by the database), whether the one database write of a
mutation commits (`Write`: `Committed` or `StoreFailed`, the 500 path), and
whether a destroy call to the media service succeeds (`Destroy`). The image
upload itself runs in the upload middleware before the handler, so the handlers
receive the stored file (`path` = URL, `filename` = public id) as an input and
never add assets; the only asset the controller touches is the one
`removeBlog` destroys.

Two expectations one might hold about the post lifecycle do not hold of the
code, and the model follows the code:

- One might expect a post's author to be fixed once the post is created. The
  update spreads the whole request body into the record (`{ ...req.body, image }`),
  so `author` and `imagePublicId` can be overwritten by the body, and an update
  can hand a post to another principal (`UpdateCanReassignAuthor`).
- One might expect the asset handle to follow a replaced image. An update with
  a new file replaces only the locator `image`; the asset handle
  `imagePublicId` keeps its old value unless the body sets it. A later delete
  asks the media service to destroy the old handle, when it is set (a failed
  destroy is swallowed), and never the freshly uploaded one, which stays in the
  media store with no post holding its handle (`NewImageKeepsOldHandle`).

Ownership is decided by exact string equality of the stored author and the
caller id; there is no override.

## Model

| member | source | states |
|---|---|---|
| BlogController.AddBlog | src/controllers/blog.controller.js:9-31 | No file: 400 "Image is required" and nothing changes. 201 exactly when a file is present, the id is new and the write commits; then exactly one record is added, owned by the caller, with image = file path, imagePublicId = file filename, title/description from the body, and every existing record is unchanged. 400 only when there is no file; with a file but a failed write or a taken id, 500 "Error in adding blog". Any outcome other than 201 changes nothing. Assets are never touched. |
| BlogController.GetAllBlogs | src/controllers/blog.controller.js:41-47 | Replies 200 with a permutation of all stored posts, in non-increasing createdAt order. |
| BlogController.GetUserBlogs | src/controllers/blog.controller.js:56-69 | Without a caller replies 401 "Unauthorized. Please log in."; otherwise 200 with a permutation of exactly the posts whose author equals the caller, newest first. |
| BlogController.UpdateBlog | src/controllers/blog.controller.js:78-102 | Missing id: 404 and no change; stored author differs from the caller: 403 and no change; 200 exactly for the owner with a committed write. On 200: image is the new file path, else a truthy body image, else the stored image; title, description, author and imagePublicId take the body's value when given and are otherwise kept; createdAt kept; other records and the id set unchanged; assets unchanged. An owner whose write fails gets 500 "Can't update blog". |
| BlogController.GetBlogById | src/controllers/blog.controller.js:110-118 | 200 with the stored record exactly when the id is stored, otherwise 404 "Blog not found". |
| BlogController.RemoveBlog | src/controllers/blog.controller.js:127-155 | Missing id: 404; non-owner: 403; both change nothing and call no destroy. Destroy is requested exactly for the owner and a truthy imagePublicId, with that id; the asset disappears only if the destroy succeeds. 200 exactly for the owner with a committed write, whatever the destroy did; then the record is removed and all other records kept. An owner whose write fails gets 500 "Can't delete blog" with the records unchanged. |
| BlogController.AuthoredEntries | src/controllers/blog.controller.js:65-67 | Filtering the store by author and then taking entries gives exactly the entries whose stored author is that user. |
| Listing.InsertByDate | src/controllers/blog.controller.js:43-45 | Inserting into a newest-first list keeps it newest first and adds exactly that entry (multiset). |
| Listing.ListNewestFirst | src/controllers/blog.controller.js:43-45 | The listing is newest first and is a permutation of the store's entries. |
| Listing.ListingExactlyOnce | src/controllers/blog.controller.js:43-47 | A permutation of the store's entries has one element per stored post, repeats no id, and contains an entry exactly when it is a stored id with its stored record. |
| BlogProperties.UserListingExactlyOwned | src/controllers/blog.controller.js:65-69 | The caller's listing repeats no id and contains an entry exactly when it is a stored post authored by the caller. |
| BlogProperties.AddThenGet | src/controllers/blog.controller.js:21-31 | After a committed create, reading the new id returns 200 with the created record, whose author is the creator. |
| BlogProperties.RemoveThenGetNotFound | src/controllers/blog.controller.js:143-155 | After the owner's committed delete, whatever the destroy outcome, the id reads as 404 and every other id reads as before. |
| BlogProperties.AddThenRemoveRestores | src/controllers/blog.controller.js:143-152 | Create then delete by the creator restores the post collection; the uploaded asset is destroyed when its id is non-empty and disappears only if the destroy succeeded. |
| BlogProperties.UpdateIdempotent | src/controllers/blog.controller.js:94-100 | Running the update handler twice with the same body and the same stored upload (or no file) leaves the same store as running it once, including when the first run reassigned the author (the second is then refused). A re-sent multipart request uploads a new file, so it is not covered. |
| BlogProperties.OnlyOwnerMutates | src/controllers/blog.controller.js:81-140 | When the id is missing or the stored author is not the caller, update and delete leave the whole state unchanged and no destroy is requested. |
| BlogProperties.UpdateCanReassignAuthor | src/controllers/blog.controller.js:94-100 | An owner's update whose body names another author hands the post over: the creator's next update gets 403 and the new author may delete it. |
| BlogProperties.NewImageKeepsOldHandle | src/controllers/blog.controller.js:94-99 | For a freshly uploaded file whose handle no post holds, an owner's update sets image to its path but keeps the old imagePublicId; a later delete removes the post, requests the destroy of the old handle when it is truthy, never of the new one, and leaves it in the media store while no remaining post holds its handle. |
| BlogProperties.AddKeepsImagesPresent | src/controllers/blog.controller.js:18-27 | If every stored post has an image locator, this still holds after a create, which stores the upload's path. |
| BlogProperties.UpdateKeepsImagesPresent | src/controllers/blog.controller.js:94-100 | Every post keeps an image locator across an update: the new file path, a truthy body image, or the stored image. |
| BlogProperties.RemoveKeepsImagesPresent | src/controllers/blog.controller.js:143-152 | Every remaining post keeps its image locator across a delete. |
| BlogProperties.AddKeepsAssetsBacked | src/controllers/blog.controller.js:18-29 | If every post's truthy asset handle names an existing asset and the upload is stored, this still holds after a create. |
| BlogProperties.UpdateKeepsAssetsBacked | src/controllers/blog.controller.js:94-100 | Handles stay backed by existing assets across an update unless the body names a handle of a missing asset. |
| BlogProperties.RemoveKeepsAssetsBacked | src/controllers/blog.controller.js:143-152 | A committed delete keeps handles backed when no two posts share a handle. |
| BlogProperties.FailedDeleteLeavesDanglingHandle | src/controllers/blog.controller.js:143-160 | If the destroy succeeds and the record delete then fails, the reply is 500 and the surviving post holds a handle to an asset that no longer exists. |
| BlogProperties.CreateReadRefuseDelete | src/controllers/blog.controller.js:5-162 | U1 creates (201, author U1), an anonymous read returns the created post, U2's update is refused with 403 and changes nothing, U1's delete returns 200, and the id then reads as 404. |

## Left out

- The 500 catch-all of the read handlers (`getAllBlogs`, `getUserBlogs`, `getBlogById`): the store is assumed readable. For the mutations, the failing database write is modelled as `StoreFailed`; a failing `findById` before it is not.
- Malformed ids (Mongoose `CastError`) and schema validation or casting of body values: the `Blog` model is not part of this model. Post ids are abstract numbers.
- The `populate("author", "name -_id")` projection: listed and read posts carry the stored author id instead of the author's name.
- Body keys other than title, description, author, image and imagePublicId (for example `createdAt`): the handling of such keys depends on the `Blog` schema's timestamp settings, which are not part of this model. `updatedAt` is not modelled.
- The upload middleware (file-format allow-list jpg/png/jpeg, upload to the media store) and the authentication and ownership middleware wired in the routes: the caller id and the stored file are inputs.
- `addBlog`, `updateBlog` and `removeBlog` reading `req.user.id` without a user: the authentication middleware always runs first, so the caller is a given id.
- Logging, network timing of the media service, and concurrent requests racing on the same post.
- The order among posts with equal `createdAt`: the store does not fix it, so the listings promise only non-increasing creation time.
