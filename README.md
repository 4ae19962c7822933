# Course-sharing platform: comment threads, moderation and upload, in Dafny

This project models the three pieces of logic of a browser-based
course-sharing platform that sit between its pages and its remote document
store:

- **the comment forest** (`src/components/Comments.jsx`): each live snapshot
  of a topic's comments, oldest first, is rebuilt into a reply forest. A first
  pass fills a map from comment id to a node with empty `replies`. A second
  pass pushes each comment onto its parent's `replies`, or onto the top-level
  list when its `parentId` is falsy. A comment whose parent is not in the batch
  is usually dropped: it is placed nowhere, and its own replies, though
  placed under it, are reachable from no top-level comment. The comment map is a plain JavaScript object, though, so
  a parentId that names no comment but a key every object inherits
  (`toString`, `constructor`, `__proto__`, ...) finds an inherited value that
  has no `replies`. The push then throws a TypeError, the callback ends before
  `setComments`, and the thread keeps the comments it showed before. The
  comment form posts a comment when the text is not blank, a user is signed in
  and the topic is set.
- **moderation** (`src/app/admin/page.jsx`): an admin-only page lists the
  pending courses. It approves a course by setting its status in place, or
  rejects it by deleting the document, and then drops it from its local queue.
- **upload** (`src/app/upload/page.jsx`): a thumbnail is accepted up to
  `700 * 1024` = 716,800 bytes inclusive. A submission with a user and a
  thumbnail encodes the thumbnail and adds one course record, always with
  status `"pending"`.

Modules: `Wrappers` (Option), `Auth` (the signed-in user and the admin test),
`Store` (one collection of the document store as a class over a map from id to
fields), `Courses` (the course record), `JsString` (JavaScript's
`String.prototype.trim`), `Comments`, `Admin`, `Upload`.

How the environment enters the model:

- Each store call takes a `fault` flag: the environment's choice of whether the
  returned promise rejects. A rejected call changes nothing.
- The id that `addDoc` generates is a parameter `newId`. It is required to be
  fresh in the collection, as the store's generated ids are.
- The order of a live snapshot (by `createdAt`, ascending) is the store's own.
  The builder takes the documents as an already ordered sequence.
- The FileReader base64 encoding is an uninterpreted parameter
  `encode: File -> Option<string>`, where `None` is a read error.
- The signed-in user and the auth context's `loading` flag are parameters.

The comment forest is an arena. `nodes` maps each id to the comment and the
ids of its replies, and `top` lists the top-level ids. The source pushes
shared node objects: a node pushed into a parent's `replies` is the node the
map holds, and it goes on collecting its own replies. Ids stand for those
references exactly, also when two documents share an id: the map then holds
the later one, and both pushes refer to it.

Points of the code's behaviour that are easy to misread:

- The size ceiling `700 * 1024` is 716,800 bytes, and a file of exactly that
  size is accepted.
- `handleApproval` awaits the store write before it filters the queue. A
  rejected write throws past the filter, so the queue changes only after a
  successful write.
- A non-admin on the moderation page never sees the queue. The page starts
  with `isLoadingData` true and never clears it for a non-admin, so it shows
  the loading line, not nothing, until the redirect takes effect.
  `AdminPage.View` states both outcomes.
- Approving a course that is not in the store fails: `updateDoc` rejects a
  missing document. Rejecting one succeeds: `deleteDoc` of a missing document
  changes nothing.

## Model

| member | source | states |
|---|---|---|
| `Comments.FromSnapshot` | src/components/Comments.jsx:98-102 | one comment per document, in order, with the document's id and the subscription's `topicId` overriding any stored topic; parentId, text, userId and userName are carried over |
| `Comments.Index` | src/components/Comments.jsx:104-107 | the first pass's map has an entry for every comment's id, and the entry under an id is a comment with that id |
| `Comments.IndexFrom` | src/components/Comments.jsx:104-107 | every entry of the first pass's map is one of the batch's comments |
| `Comments.IndexLast` | src/components/Comments.jsx:104-107 | the entry under an id is the last comment carrying it, so with distinct ids it is that id's one comment |
| `Comments.FillMap` | src/components/Comments.jsx:104-107 | the first pass yields one node per id, every node with empty replies |
| `Comments.LinkNodes` | src/components/Comments.jsx:109-116 | the second pass throws exactly when some comment's parentId is an inherited key naming no batch comment; otherwise it yields the top-level list `Roots` and the node map `Linked` |
| `Comments.BuildForest` | src/components/Comments.jsx:104-116 | the two passes together throw exactly in that case, and otherwise build exactly `Roots(cs)` and `Linked(cs)`: each node's replies are the batch comments naming it as parent, in input order |
| `Comments.SnapshotForest` | src/components/Comments.jsx:97-116 | the callback's computation on the mapped documents throws exactly as `BuildForest` does; otherwise it builds their forest, and every node carries the subscription's topic and sits under its own id |
| `Comments.Thread.constructor` | src/components/Comments.jsx:87 | the thread starts with no comments |
| `Comments.Thread.OnSnapshot` | src/components/Comments.jsx:97-118 | a snapshot on which the callback does not throw replaces the thread's comments with its forest; one on which it throws leaves them as they were |
| `Comments.SelectAppend` | src/components/Comments.jsx:109-116 | order is kept at every level: the forest lists of a concatenation are those of the parts, one after the other |
| `Comments.SelectMember` | src/components/Comments.jsx:110-115 | an id is in the top-level list, or in the replies of node x, exactly when some comment with that id has a falsy parentId, or has parentId x |
| `Comments.Placement` | src/components/Comments.jsx:110-115 | with distinct ids, a comment is top-level if and only if its parentId is falsy (null, absent or ""), and is in node x's replies if and only if its parentId is x |
| `Comments.ReplyAttached` | src/components/Comments.jsx:104-112 | a reply whose parent is in the batch is in the parent's replies, whether the parent comes before or after it |
| `Comments.OrphanDropped` | src/components/Comments.jsx:112 | a comment whose parentId names no comment of the batch is neither top-level nor in any node's replies, and the second pass throws on it exactly when that parentId is an inherited key |
| `Comments.SlotOrder` | src/components/Comments.jsx:109-116 | two comments with the same place in the forest appear there in input order |
| `Comments.ReplyScenario` | src/components/Comments.jsx:104-116 | A at the top level, then B replying to A, gives the top-level list [A] with B as A's only reply |
| `Comments.GhostParentScenario` | src/components/Comments.jsx:112 | a comment whose parent is the missing id "ghost" is placed nowhere, and the callback does not throw |
| `Comments.InheritedParentScenario` | src/components/Comments.jsx:112 | a comment whose parent is the missing id "toString" makes the callback throw |
| `Comments.MayPost` | src/components/Comments.jsx:51 | a comment may be posted exactly when the text is not all whitespace, a user is signed in and the topic is present and not "" |
| `JsString.TrimStart` | src/components/Comments.jsx:51 | what `trim` drops at the front is all whitespace, and what it keeps does not start with whitespace |
| `JsString.TrimEnd` | src/components/Comments.jsx:51 | what `trim` drops at the back is all whitespace, and what it keeps does not end with whitespace |
| `JsString.TrimEmptyIff` | src/components/Comments.jsx:51 | `!text.trim()` holds exactly when the text is all whitespace (or empty) |
| `Comments.CommentForm.constructor` | src/components/Comments.jsx:45-47 | a form starts with empty text under its topic and parent |
| `Comments.CommentForm.Edit` | src/components/Comments.jsx:70 | the change handler sets the text |
| `Comments.CommentForm.HandleSubmit` | src/components/Comments.jsx:49-64 | with blank text, no user or a falsy topic nothing is written and the text stays; otherwise one record with the topic, parentId, the untrimmed text and the user's uid and name is written and the text is reset to ""; a rejected write leaves the text |
| `Store.Collection.Add` | src/app/upload/page.jsx:51-59 | `addDoc` stores the record under a fresh id, or changes nothing when it rejects |
| `Store.Collection.Update` | src/app/admin/page.jsx:51 | `updateDoc` patches an existing document and no other; it rejects, changing nothing, when the document is missing |
| `Store.Collection.Delete` | src/app/admin/page.jsx:53 | `deleteDoc` removes the id and nothing else, or changes nothing when it rejects |
| `Store.Collection.Query` | src/app/admin/page.jsx:32-40 | a query lists every document passing the filter, only those, each once, with its stored fields |
| `Admin.Decide` | src/app/admin/page.jsx:48-54 | "approved" keeps the course under its id with status "approved" and every other field unchanged; any other outcome leaves no course with that id; no other course changes |
| `Admin.Without` | src/app/admin/page.jsx:56 | the queue after the filter holds exactly the entries whose id differs from the decided one |
| `Admin.WithoutAppend` | src/app/admin/page.jsx:56 | the filter keeps the relative order of the remaining entries |
| `Admin.WithoutIdempotent` | src/app/admin/page.jsx:56 | filtering the same id again changes nothing |
| `Admin.WithoutAbsent` | src/app/admin/page.jsx:56 | a queue with no entry for the id is left unchanged |
| `Admin.WithoutDistinct` | src/app/admin/page.jsx:56 | a queue without repeated ids keeps that property |
| `Admin.DecisionKeepsQueue` | src/app/admin/page.jsx:32-57 | if the queue answered the pending query before a completed decision, the filtered queue answers it against the store after the decision |
| `Auth.IsAdmin` | src/app/admin/page.jsx:25 | without a user, or for a user without a role, the admin test fails; it passes exactly for a signed-in user whose role is "admin" |
| `Admin.AdminPage.constructor` | src/app/admin/page.jsx:20-21 | the page starts with an empty queue and the loading flag set |
| `Admin.AdminPage.OnAuthState` | src/app/admin/page.jsx:23-46 | nothing while auth loads; without an admin user, a redirect and no read; otherwise the loaded queue holds exactly the store's pending courses and loading ends; a rejected read leaves the page loading |
| `Admin.AdminPage.View` | src/app/admin/page.jsx:59-62 | while either load runs the loading line is shown; once both are over an admin sees the pending queue and anyone else sees nothing; the queue is never shown otherwise |
| `Admin.AdminPage.HandleApproval` | src/app/admin/page.jsx:48-57 | a completed decision applies `Decide` to the store and removes the id from the queue; a rejected write (including approving a missing course) changes neither |
| `Upload.TooLarge` | src/app/upload/page.jsx:28 | no file is refused; a file of at most 716,800 bytes passes; one of 716,801 bytes or more is refused |
| `Upload.NewCourse` | src/app/upload/page.jsx:51-59 | the record a submission writes is always pending, carries the form's title and description, names the user's uid and display name as creator, and holds the encoded thumbnail |
| `Upload.UploadPage.SubmitEnabled` | src/app/upload/page.jsx:123 | the submit button is enabled only with a thumbnail, never while an upload runs, and always with a thumbnail when no upload runs |
| `Upload.UploadPage.constructor` | src/app/upload/page.jsx:20-24 | the form starts empty, with no thumbnail, not uploading and no error |
| `Upload.UploadPage.EditTitle` | src/app/upload/page.jsx:92 | the title input sets the title and nothing else |
| `Upload.UploadPage.EditDescription` | src/app/upload/page.jsx:103 | the description input sets the description and nothing else |
| `Upload.UploadPage.HandleFileChange` | src/app/upload/page.jsx:26-36 | a file over 716,800 bytes sets the size error, clears the thumbnail and disables submit; a file of at most that size (or none) clears the error and becomes the thumbnail, and submit is then enabled exactly when a file is present and no upload runs |
| `Upload.UploadPage.HandleSubmit` | src/app/upload/page.jsx:38-69 | with no user or no thumbnail the error is set, nothing is written and the upload flag is untouched; otherwise exactly one course is added with status "pending", the user's uid as creator and the encoded thumbnail, or on a failed encoding or write the generic error is set and nothing is written; the upload flag ends cleared, so the submit button is enabled again |

## Left out

- The live subscription's lifecycle (subscribe, unsubscribe, re-run on a
  topic change) and the early return for a missing topic
  (src/components/Comments.jsx:89-97, 118-121): asynchronous plumbing. Each
  snapshot is modelled as one call of `Thread.OnSnapshot`.
- A document id that is itself an inherited key such as `__proto__`: the
  store reserves every id of the form `__.*__`, and the other inherited keys
  become own entries of the map. The model treats every id as an own key.
- A stored field named `id` would override the document id in the spread at
  src/components/Comments.jsx:98-102; no writer stores one, so the model takes
  the document id.
- The server timestamps (`createdAt`) and the ordering by them: the store's
  own. The model takes the snapshot in the order given.
- The FileReader encoding (src/app/upload/page.jsx:8-14): a browser API,
  modelled as the parameter `encode` on the file's name and bytes. Being a
  function, it gives the same outcome (a string or a read error) every time
  for the same file; a read error that comes and goes is not modelled.
- The `required` attributes of the title, description and file inputs
  (src/app/upload/page.jsx:94, 106, 118): browser form validation before the
  submit handler runs. `HandleSubmit` itself checks only the user and the
  thumbnail, so the model accepts an empty title or description.
- Clearing the file input (`e.target.value = null`, src/app/upload/page.jsx:31):
  DOM state outside the form's fields.
- The intermediate state while a submission awaits (upload flag set, button
  showing "Mengunggah..."): each handler is modelled as one step from call to
  completion, so only the state after the handler is stated.
- Router navigation, `alert` and `console.error`, and the upload page's
  redirect to the login page for a signed-out visitor (src/app/upload/page.jsx:71-75):
  navigation and rendering.
- All JSX rendering, including the recursive rendering of replies
  (src/components/Comments.jsx:16-43) and the reply form's toggle.
- The approved-course home page, the navigation bar, the login page, the
  course detail page and the add-material page: one store query or a thin
  wrapper over an authentication call each, outside the modelled core.
- Concurrent races between a local update and a later snapshot: the model is
  sequential.
