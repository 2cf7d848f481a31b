# rest_api_feed — a verified model of the feed back end

This project models the server of the `rest_api_feed` application in Dafny. The server is an Express application where authenticated users list, create, read, edit and delete image posts, and read and update a short status text. Every change to a post is broadcast over socket.io on the `posts` channel.

The model covers five parts of the server:

- **Feed controller** (`Feed.FeedStore`): seven handlers and `deleteFile`, as methods of one class.
  - The class owns an in-memory document store: posts by id, their creation order, and users by id.
  - A monotonic clock gives both the new post's id and its `createdAt`.
  - Two logs record side effects: one for broadcast events, one for image paths handed to `deleteFile`.
  - Each handler returns the response it sends, or the error it passes to `next` with the status its catch block gives.
  - Each method's `ensures` states the whole new state and the answer for every branch, in the code's order of checks.
  - A store invariant is kept by every handler and proved by lemmas in `FeedModel`. It says each post is filed under its own id with an image, ids are in strict creation order, and the users' post lists agree with the posts.
- **Listing** (`Listing`): `find().sort({createdAt: -1}).skip((page - 1) * 2).limit(2)` as pure functions. The lemmas prove:
  - the listing is newest first and holds every stored post exactly once;
  - it is the only newest-first arrangement of those posts;
  - page `k` is the slice starting at `(k - 1) * 2`.
- **Validation and routing** (`Strings`, `Validators`, `Routing`, `FeedRoutes`, `AuthRoutes`): express-validator chains are interpreted step by step. Sanitisers rewrite the value, and every failing validator adds an error. The route tables of `/feed` and `/auth` run through `isAuth` and the chains. JavaScript's `trim()` is modelled together with its white-space set.
- **Socket handle** (`Socket`): the module-level `io` variable that `init` sets and `getIO` reads.
- **Upload and error response** (`Upload`, `ErrorHandler`): the multer file filter, the stored file name, `single('image')`, and the final error middleware of `server/app.js`.

`Api` puts route and controller together.
- A created post holds the trimmed title and content.
- An accepted status update reads back as the trimmed status.
- A new post heads page 1.
- Deleting a post twice gives 200 and then 500.

## Model

| member | source | states |
|---|---|---|
| Feed.FeedStore.GetPosts | server/controllers/feed.js:8-34 | Always 200. The payload is page `page` (1 when absent) of all posts newest first, with `totalItems` = number of stored posts. The page has at most 2 posts, is sorted by `createdAt` descending, holds only stored posts, and nothing changes. |
| Feed.FeedStore.CreatePost | server/controllers/feed.js:36-80 | Validation errors give 422 with no change. No upload gives 422 with no change. Otherwise it stores the post: id and createdAt from the clock, creator = caller, image = upload path. |
| Feed.FeedStore.SaveNewPost | server/controllers/feed.js:52-73 | Saves the post and appends its id to the creator's list. Then it emits exactly one `create` event with the creator's name and answers 201. A missing user record gives 500 after the post save, with no event. An uninitialised socket gives 500 after both saves. The invariant is kept. |
| Feed.FeedStore.GetPost | server/controllers/feed.js:82-101 | 200 with the stored post, or 404 “Post is not found” when it is absent. Changes nothing. |
| Feed.FeedStore.EditPost | server/controllers/feed.js:103-151 | Checked in order: 422 for validation errors, 422 when no image URL resolves, 500 for a missing post, 500 for a missing creator record, 403 for another user's post. All of these change nothing. On success the old image is queued for deletion only if the URL changed. Title, content and image are overwritten, and ids, users and clock are unchanged. |
| Feed.FeedStore.SaveEdit | server/controllers/feed.js:136-144 | Stores the rewritten post and answers 200 with it. It appends exactly one `update` event when the socket is initialised, and none otherwise. |
| Feed.ResolvedImageMissing | server/controllers/feed.js:115-123 | The URL is the upload's path when there is one, else `body.image`. It is missing (422) exactly when there is no upload and `body.image` is absent or empty. |
| Feed.FeedStore.DeletePost | server/controllers/feed.js:153-177 | 500 for a missing post and 403 for another user's post, both changing nothing. Otherwise it queues the image, removes the post from the store and the creation order, answers 200, and emits exactly one `delete` event with the id once the socket is ready. The user lists are untouched. |
| Feed.FeedStore.GetStatus | server/controllers/feed.js:179-200 | 404 “User not found”, 404 “Status field not found” for an empty status, otherwise 200 with the status. Changes nothing. |
| Feed.FeedStore.UpdateStatus | server/controllers/feed.js:202-227 | 422 for validation errors, then 404 for a missing user, both without change. Otherwise only that user's status changes, with no event and no other state change. |
| Feed.FeedStore.DeleteFile | server/controllers/feed.js:229-236 | Appends the path to the deletion log and changes nothing else. |
| FeedModel.Catch | server/controllers/feed.js:28-32 | A caught error keeps its message. An unset or zero status code becomes 500, and any other status code (422, 403, 404) is kept. |
| FeedModel.Event.Action | server/controllers/feed.js:62-63 | The `action` tag of an emitted payload is "create", "update" or "delete", each exactly for its kind of event, so a client can tell them apart. |
| FeedModel.CreateKeeps | server/controllers/feed.js:52-61 | Saving a fresh post, and listing it on its creator's record when the creator exists, keeps the store invariant. The new id is not yet in use. |
| FeedModel.EditKeeps | server/controllers/feed.js:136-139 | Overwriting title, content and image of a stored post keeps the invariant. |
| FeedModel.CutKeepsOrder | server/controllers/feed.js:167 | Removing one post from the store and from the creation order keeps the creation order exact. |
| FeedModel.DeleteKeeps | server/controllers/feed.js:166-167 | Deleting a post keeps the whole store invariant; users' lists may keep the stale id. |
| FeedModel.StatusKeeps | server/controllers/feed.js:217-218 | Changing a user's status keeps the invariant. |
| Listing.PageNumber | server/controllers/feed.js:9 | `req.query.page \|\| 1`: an absent or empty page is 1, any other page is taken as given. Defined by its body; `GetPosts` states its use. |
| Listing.Skip | server/controllers/feed.js:16 | `skip(n)` drops the first `n` entries: entry `i` of the result is entry `n + i`, and skipping past the end leaves nothing. |
| Listing.Limit | server/controllers/feed.js:17 | `limit(n)` keeps the first `n` entries, or all of them when there are fewer. |
| Listing.Page | server/controllers/feed.js:16-17 | Page `k` is `skip((k - 1) * 2)` then `limit(2)`; `PageIsSlice` states what that selects. |
| Listing.NewestFirst | server/controllers/feed.js:13-15 | The listing has one entry per stored id; entry `k` is the `k`-th newest post. |
| Listing.NewestFirstDescending | server/controllers/feed.js:15 | The listing is strictly descending in `createdAt`. |
| Listing.ListedCount | server/controllers/feed.js:12 | The number of listed ids equals the number of stored posts (`countDocuments`). |
| Listing.NewestFirstComplete | server/controllers/feed.js:12-15 | The listing has as many entries as the store has posts; a post is listed iff it is stored. |
| Listing.DescendingUnique | server/controllers/feed.js:15 | Two newest-first sequences with the same posts are equal, so the sort fixes the listing. |
| Listing.PageIsSlice | server/controllers/feed.js:16-17 | Page `k` has at most 2 entries, exactly `min(2, max(0, n - (k-1)*2))` of them. Entry `i` is entry `(k-1)*2 + i` of the listing. |
| Listing.EntryOnItsPage | server/controllers/feed.js:16-17 | Entry `i` of the listing is entry `i % 2` of page `i / 2 + 1`. |
| Listing.PageDescending | server/controllers/feed.js:15-17 | A page of a newest-first listing is itself newest first. |
| Listing.PageWithin | server/controllers/feed.js:16-17 | A page holds only entries of the listing. |
| Listing.NewestFirstStored | server/controllers/feed.js:13 | The listing holds stored posts only. |
| Listing.PageOfStore | server/controllers/feed.js:13-17 | Any page has at most 2 posts, is newest first, and holds stored posts only. |
| Listing.NewestHeadsFirstPage | server/controllers/feed.js:15-17 | The most recently created post is the first entry of page 1. |
| Strings.Trim | server/routes/feed.js:13 | `trim()` is `TrimStart` then `TrimEnd` over the `\s` white-space set of `IsWhitespace`; what it removes is stated by `TrimStartSpec`, `TrimEndSpec`, `TrimIsInfix` and `TrimmedEnds`. |
| Strings.TrimStartSpec | server/routes/feed.js:13 | `TrimStart` removes a prefix that is all white space and stops at a character that is not white space. |
| Strings.TrimEndSpec | server/routes/feed.js:13 | `TrimEnd` removes a suffix that is all white space and stops at a character that is not white space. |
| Strings.TrimIsInfix | server/routes/feed.js:13 | `trim()` returns a contiguous part of its input. |
| Strings.TrimmedEnds | server/routes/feed.js:13 | A trimmed string is empty or starts and ends with a character that is not white space. |
| Strings.TrimFixesUntrimmed | server/routes/feed.js:13 | A string whose ends are not white space is its own trim. |
| Strings.TrimIdempotent | server/routes/feed.js:13 | Trimming twice is trimming once. |
| Strings.TrimEmptyIff | server/routes/auth.js:24-25 | The trim is empty iff the string is all white space (what `not().isEmpty()` after `trim()` rejects). |
| Strings.TrimShortens | server/routes/feed.js:13-14 | The trim is never longer than the input. |
| Validators.Holds | server/routes/feed.js:14 | The validators: `isLength` bounds the number of code points, `isEmail` is the given e-mail predicate, `not().isEmpty()` rejects only the empty string, the custom lookup rejects a registered e-mail, and `isString` always holds. Defined by its body; the chain lemmas state its effect. |
| Validators.RunSteps | server/routes/feed.js:12-17 | Running a chain reports errors only for its own field, at most one per step. |
| Validators.RunChains | server/routes/feed.js:11-18 | Running chains keeps every field of the body. |
| Validators.ThreeChains | server/routes/auth.js:8-26 | Three chains run one after another, each on the body the previous one left; the errors are concatenated in order. |
| Routing.RunMiddleware | server/routes/feed.js:8-46 | With a caller, the controller is always reached with the caller's id when `isAuth` is in the list. Without a caller, a list containing `isAuth` rejects. |
| Routing.AuthThenValidation | server/routes/feed.js:11-18 | `isAuth` then one validator list hands over exactly what the chains produce. |
| FeedRoutes.RouteOf | server/routes/feed.js:8-46 | The `/feed` route table: each of the seven controllers has exactly one route, and that route starts with `isAuth`. |
| FeedRoutes.EveryRouteGuarded | server/routes/feed.js:8-46 | No `/feed` route reaches its controller without authentication. |
| FeedRoutes.AuthenticatedReachesHandler | server/routes/feed.js:8-46 | Every `/feed` route reaches its controller with the caller's id once authenticated. |
| FeedRoutes.NoBodyValidators | server/routes/feed.js:8-37 | GET `/posts`, GET `/post/:postId`, DELETE `/post/:postId` and GET `/status` hand over the body untouched, with no errors. |
| FeedRoutes.TrimmedAtLeastFiveRuns | server/routes/feed.js:12-17 | `body(f).trim().isLength({min: 5})` yields the trimmed value, with one error exactly when it is shorter than 5. |
| FeedRoutes.PostValidation | server/routes/feed.js:11-31 | POST `/post` and PUT `/post/:postId` hand the controller the trimmed title and content. There is one "Invalid value" error per field shorter than 5 after trimming, and no errors iff both are at least 5. |
| FeedRoutes.TitleBoundary | server/routes/feed.js:12-14 | A trimmed title of length 4 fails and one of length 5 or more passes: there is no upper bound. |
| FeedRoutes.StatusChainRuns | server/routes/feed.js:41-44 | The status chain yields the trimmed value, with one error exactly when its length is outside 5..50. |
| FeedRoutes.StatusValidation | server/routes/feed.js:40-47 | POST `/status` hands over the trimmed status, with an error iff its trimmed length is outside 5..50. |
| AuthRoutes.RouteOf | server/routes/auth.js:8-28 | The `/auth` route table: sign-up and login have one route each, and neither runs `isAuth`. |
| AuthRoutes.EmailChainRuns | server/routes/auth.js:9-19 | The e-mail chain yields the normalised e-mail, with "Please, enter a valid email" when invalid and "Email is taken" when registered. |
| AuthRoutes.PasswordChainRuns | server/routes/auth.js:20-22 | The password chain yields the trimmed password, with an error iff it is shorter than 5. |
| AuthRoutes.NameChainRuns | server/routes/auth.js:23-25 | The name chain yields the trimmed name, with an error iff it is empty. |
| AuthRoutes.SignupChainsRun | server/routes/auth.js:8-26 | The three sign-up chains produce the normalised e-mail, the trimmed password and the trimmed name, with exactly the reference list of errors. |
| AuthRoutes.SignupValidation | server/routes/auth.js:8-26 | PUT `/signup` runs no `isAuth`, hands over the sanitised body and reports exactly the reference errors. |
| AuthRoutes.EmailTakenIff | server/routes/auth.js:12-18 | "Email is taken" is reported iff a user already has that e-mail. |
| AuthRoutes.InvalidEmailIff | server/routes/auth.js:9-11 | "Please, enter a valid email" is reported iff the e-mail predicate fails. |
| AuthRoutes.ShortPasswordIff | server/routes/auth.js:20-22 | A password error is reported iff its trimmed length is below 5. |
| AuthRoutes.BlankNameIff | server/routes/auth.js:23-25 | A name error is reported iff the name is empty after trimming. |
| AuthRoutes.SignupAcceptedIff | server/routes/auth.js:8-26 | Sign-up has no errors iff the e-mail is valid and free, the password has at least 5 characters and the name is not blank, all after trimming. |
| AuthRoutes.LoginUnvalidated | server/routes/auth.js:28 | POST `/login` hands over the body untouched with no errors. |
| Socket.GetIOResult | server/socket.js:7-12 | `getIO` fails with "Socket is uninitialized" iff no handle is set, and otherwise returns the handle. |
| Socket.SocketRegistry.Init | server/socket.js:3-6 | `init` creates a fresh handle on the given server, stores it replacing any earlier one, and returns it. |
| Socket.SocketRegistry.GetIO | server/socket.js:7-12 | `getIO` answers from the stored handle, fails iff none is set, and changes nothing. |
| Socket.RunAppend | server/socket.js:1-14 | One more call extends a sequence of calls: `init` sets its handle, `getIO` leaves the state alone. |
| Socket.GetIOAfter | server/socket.js:1-14 | From the start, after any calls `getIO` returns the handle of the last `init`. It fails iff there was no `init`. |
| Upload.AcceptedMimetype | server/app.js:18-28 | The file filter: `image/png`, `image/jpg` and `image/jpeg` pass, every other mimetype is refused. |
| Upload.StoredName | server/app.js:14-16 | The stored name is the ISO upload time, a dash and the client's name; its length is the sum of theirs. |
| Upload.StoredFile.Path | server/app.js:11-13 | `req.file.path` is the destination `images` joined with the stored name; `PathUnderImages` states its shape. |
| Upload.Receive | server/app.js:32-35 | `single('image')` with the filter: no file gives no `req.file`, a file under another field is refused, a refused type gives no `req.file`, and an accepted file is stored. `OtherTypesDropped`, `AcceptedStored` and `StoredOnlyAccepted` state these cases. |
| Upload.FilterAcceptsExactly | server/app.js:18-28 | The filter accepts exactly `image/png`, `image/jpg` and `image/jpeg`. |
| Upload.OtherTypesDropped | server/app.js:25-27 | A file of another type in the `image` field is dropped without an error, so `req.file` is unset. |
| Upload.AcceptedStored | server/app.js:10-16 | An accepted file is stored under `images` with the name ISO time + "-" + original name. |
| Upload.StoredOnlyAccepted | server/app.js:18-34 | A stored file always came from the `image` field with an accepted type. |
| Upload.PathUnderImages | server/app.js:11-13 | A stored file's path lies under `images/`, so it is never empty. |
| Upload.StoredNameRoundTrip | server/app.js:15 | The stored name starts with the timestamp, and the original name can be recovered from it. |
| ErrorHandler.RespondAsWritten | server/app.js:47-55 | The handler as written: it passes `error.statusCode` itself to `res.status`, with `message` and `data` as the body; `UnexpectedFieldHasNoStatus` shows where that status is unset. |
| ErrorHandler.Respond | server/app.js:47-55 | The intended response: status `error.statusCode \|\| 500`, so an unset or zero status code gives 500 and any other one is kept; a body of only `message` and `data`. |
| ErrorHandler.AgreeWhenStatusSet | server/app.js:47-55 | When the error has a non-zero status code, the handler as written and as intended agree. |
| ErrorHandler.UnexpectedFieldHasNoStatus | server/app.js:33-34 | A file under another field is refused by `single('image')`, and the handler as written calls `res.status` with no status where 500 is meant. |
| Api.CreatePostRequest | server/routes/feed.js:11-18 | POST `/feed/post` gives 422 with no change unless both fields pass. Once they pass and an image is uploaded, the new post holds the trimmed title and content. |
| Api.EditPostRequest | server/routes/feed.js:24-31 | PUT `/feed/post/:postId` gives 422 with no change unless both fields pass. Once they pass, an image URL resolves and the post is the caller's, the post is rewritten with the trimmed title and content and the resolved URL, and the answer is 200 with it. |
| Api.UpdateStatusRequest | server/routes/feed.js:40-47 | POST `/feed/status` gives 422 unless the trimmed status is within 5..50. On success it stores the trimmed status for an existing user. |
| Api.StatusRoundTrip | server/controllers/feed.js:179-227 | An accepted status update followed by `getStatus` answers 200 with the trimmed status. |
| Api.CreateThenList | server/controllers/feed.js:36-80 | After a successful create, page 1 counts one more post and starts with the new post by the caller. |
| Api.DeleteTwice | server/controllers/feed.js:153-177 | Deleting one's own post succeeds once; a second delete answers 500, since the post is gone. |

One behaviour of the code differs from what a REST API usually does, and the model keeps it: a missing post in `editPost` and `deletePost` gives 500, not 404, because the error is thrown without a status code.

Only an absent or empty `page` defaults to 1. A page of 0 or less is not normalised by the code either, but it is outside `GetPosts`'s precondition (see "## Left out").

## Left out

- Mongoose internals are not modelled: queries, `populate`, `countDocuments` and `save`. The store is a pair of maps plus the creation order. A malformed ObjectId, which Mongoose rejects with a `CastError` (500), is outside the model, since ids are natural numbers.
- The `if (!posts)` branch of `getPosts` is left out, because `find` always returns an array.
- The `populate('creator')` of the listing and of `editPost` is left out. Listed posts, the post in the edit response and the post in the `update` event carry the creator's id, not the user record.
- Feed.FeedStore.GetPosts: the page number is taken as a number of at least 1. The string query parameter, and the `skip` of a negative number that a page of 0 or less gives, are left out.
- `deleteFile` is modelled only as recording the path. `path.join`, `fs.unlink` and the uncaught error thrown from its callback are I/O and asynchronous effects.
- socket.io transport, fan-out to clients and the ordering between the HTTP response and the emit are not modelled. A handler that answers before it emits still answers 200 when the emit fails; the model then records no event.
- Concurrency is left out: interleaved requests, and the non-atomic post save followed by the user save in `createPost`.
- `isAuth` is not part of this model. The route model takes its decision (a caller id or a rejection) as given, and so does not model the status of its rejection.
- `isEmail` and `normalizeEmail` are opaque functions, given in `Env`; the set of registered e-mails replaces the `User.findOne` lookup.
- AuthRoutes.EmailChainRuns, AuthRoutes.EmailTakenIff and AuthRoutes.InvalidEmailIff assume that express-validator runs a chain's steps in the order they are declared. Then `isEmail` and the lookup see the e-mail as sent, and `normalizeEmail` only rewrites the value handed to the controller. The library version is not fixed here, and a version that applies sanitisers before validators would check and look up the normalised address instead.
- Validators.Holds counts an `isLength` length in code points, subtracting surrogate pairs only; validator.js versions that also leave out the variation selectors U+FE0E and U+FE0F would count some strings as shorter. The library version is not fixed here, so either count may apply.
- The `TypeError` thrown when `user.posts` (`createPost`) or `post.creator._id` (`editPost`) is read on a missing record is abstracted to the one constant `NullRecordMessage`. The engine's real message names the property and varies between Node versions; the status, 500, is modelled.
- `isString()` always holds in the model, since a sanitised body field is always a string.
- The time (`new Date().toISOString()`) is a parameter, and creation times come from a counter.
- `console.log` calls are left out.
- The signup and login controllers are not part of this model.
- multer's disk storage, body parsing, static serving, CORS headers, and the `mongoose.connect`/`app.listen` start-up are left out.

## Findings

| source | as written | input that shows it | evidently intended | confidence | as-written member | corrected member |
|---|---|---|---|---|---|---|
| server/app.js:49-53 | `status = error.statusCode \|\| 500` is computed, but the response uses `res.status(error.statusCode)` | a file uploaded under a field other than `image`: multer's "Unexpected field" error has no `statusCode`, so `res.status` gets no status; Express on Node then throws in `writeHead` and sends its default 500 error page, not the JSON `{message, data}` body | respond with the computed status, 500 for errors without one | not executed | ErrorHandler.RespondAsWritten, shown by ErrorHandler.UnexpectedFieldHasNoStatus | ErrorHandler.Respond |
