# In-memory users and posts store, modelled in Dafny

This project models the data layer of a small NestJS backend that keeps
users and their posts (to-do items) in memory:

- `PostsService` owns a list of posts `{ id, userId, title }` seeded with 45
  posts (three for each of the users 1 to 15). It allocates ids as one more
  than the largest id present, looks posts up by id (NotFound when absent),
  appends on create, merges partial updates in place, deletes by id, and
  offers `removeByUserId`, the hook that deletes every post of one user.
- `UsersService` owns a list of users `{ id, name, username, email }` seeded
  with users 1 to 15, with the same allocation, lookup and merge rules. Its
  `remove` deletes the user and then cascades into `removeByUserId` of the
  one `PostsService` it holds.
- `UsersController` passes user requests through and adds two post routes:
  creating a post under a user (the owner is forced to the path id) and
  listing a user's posts (a filter over all posts).

The central property is referential integrity (`Users.OwnersPresent`):
every post's `userId` names a user that is present. Deleting a user keeps it
because of the cascade (`Users.RemoveWithCascadeKeepsOwnersPresent`), and
would break it without (`Users.RemoveWithoutCascadeBreaksOwnersPresent`).
Creating a post keeps it exactly when the owner exists
(`Users.CreatePostOwnersPresent`): the post service does not check, and
neither does the controller's create-under-user route.

Files: `wrappers.dfy` (Option, the NotFound result, the `{ deleted: true }`
acknowledgement), `collections.dfy` (the JavaScript `filter`, `find`
and `Math.max` the services are written with, and the shared max+1 id rule),
`posts.dfy`, `users.dfy`, `controller.dfy` (one module per source file).
Both services are classes whose list is a `seq` field that the methods
reassign; their methods state the new list in terms of the old one, and the
lemmas prove what that means.

Two facts about the code worth stating plainly:

- Ids can be reused: they are max+1 over the live list, so deleting the
  newest record lets the next create hand out its id again
  (`Posts.NewestIdReusedAfterRemove`); a new id is only larger than every
  id currently present (`Collections.NextId`).
- A user's posts are listed by the controller as a filter over
  `findAll()` (backend/src/users/users.controller.ts:48).

## Model

| member | source | states |
|---|---|---|
| Collections.Filter | backend/src/posts/posts.service.ts:121 | `filter` keeps exactly the elements that pass the test (both directions of membership) and never grows the list |
| Collections.FilterConcat | backend/src/posts/posts.service.ts:126 | filtering distributes over concatenation, so kept elements keep their relative order |
| Collections.FilterIdempotent | backend/src/posts/posts.service.ts:125-127 | applying the same filter twice equals applying it once, so `removeByUserId` is idempotent |
| Collections.FilterDropsAll | backend/src/users/users.controller.ts:46-49 | when no element passes the test the filter gives the empty list, so listing the posts of an owner without posts gives nothing |
| Collections.FilterKeepsAll | backend/src/posts/posts.service.ts:125-127 | when no element matches the removal test the list is unchanged, so `removeByUserId` of an owner without posts is a no-op |
| Collections.FilterKeepsDistinctKeys | backend/src/posts/posts.service.ts:121 | removal by filter never creates duplicate ids |
| Collections.FindIndex | backend/src/posts/posts.service.ts:95 | the position `find` stops at: the first whose element matches, or none exactly when no element matches |
| Collections.MaxKey | backend/src/posts/posts.service.ts:101 | `Math.max(...ids)` on a non-empty list is an id present and no smaller than any id |
| Collections.NextId | backend/src/posts/posts.service.ts:85-88 | the allocated id exceeds every id present, is 1 on an empty list, and is otherwise one more than a present id |
| Collections.NextIdAfterFreshAppend | backend/src/posts/posts.service.ts:100-110 | right after a create, the next create gets the following id |
| Collections.AppendFreshKeepsDistinctKeys | backend/src/posts/posts.service.ts:101-109 | appending a record whose id exceeds all present ids keeps ids pairwise distinct |
| Collections.ReplaceSameKeyKeepsDistinctKeys | backend/src/posts/posts.service.ts:113-116 | replacing a record by one with the same id keeps ids pairwise distinct |
| Posts.Merge | backend/src/posts/posts.service.ts:115 | a partial update overwrites exactly the supplied fields, keeps the id, and an empty update changes nothing |
| Posts.SeedPosts | backend/src/posts/posts.service.ts:8-83 | the seed has 45 posts with ids 1 to 45, three per owner, owners 1 to 15 |
| Posts.SeedPostIdsDistinct | backend/src/posts/posts.service.ts:8-83 | seeded post ids are pairwise distinct |
| Posts.SeedPostsBounded | backend/src/posts/posts.service.ts:8-83 | seeded post ids lie in 1 to 45 and owners in 1 to 15 |
| Posts.SeedNextId | backend/src/posts/posts.service.ts:100-104 | the first create after start-up gets id 46 |
| Posts.CreateKeepsIdsDistinct | backend/src/posts/posts.service.ts:100-111 | a create keeps post ids pairwise distinct |
| Posts.NewestIdReusedAfterRemove | backend/src/posts/posts.service.ts:100-122 | after removing the newest post, the next create reuses its id |
| Posts.PostsService.constructor | backend/src/posts/posts.service.ts:8-83 | a new service holds the seeded posts |
| Posts.PostsService.FindAll | backend/src/posts/posts.service.ts:90-92 | `findAll` gives the current list in insertion order |
| Posts.PostsService.FindOne | backend/src/posts/posts.service.ts:94-98 | `findOne` succeeds exactly when some post has the id, returns the first such post, else NotFound with "Post not found" |
| Posts.PostsService.Create | backend/src/posts/posts.service.ts:100-111 | `create` appends a post with the next id and the request's owner and title unchecked; the returned post is the new last element and ids stay distinct |
| Posts.PostsService.Update | backend/src/posts/posts.service.ts:113-117 | `update` fails with NotFound and no change when the id is absent, otherwise merges into the first post with the id and leaves every other post as it was |
| Posts.PostsService.Remove | backend/src/posts/posts.service.ts:119-123 | `remove` fails with NotFound and no change when the id is absent, otherwise removes exactly the posts with the id, a later lookup fails, and post ids stay distinct |
| Posts.PostsService.RemoveByUserId | backend/src/posts/posts.service.ts:125-127 | `removeByUserId` never fails, keeps the other posts in order, leaves no post of that user, and keeps post ids distinct |
| Users.Merge | backend/src/users/users.service.ts:54-58 | a user update overwrites exactly the supplied fields, keeps the id, and an empty update returns the user unchanged |
| Users.SeedUsers | backend/src/users/users.service.ts:11-27 | the seed has fifteen users with ids 1 to 15 |
| Users.SeedNextId | backend/src/users/users.service.ts:44-47 | the first user created after start-up gets id 16 |
| Users.SeedOwnersPresent | backend/src/users/users.service.ts:11-27 | the seeded users and posts satisfy referential integrity and have distinct ids |
| Users.RemoveWithCascadeKeepsOwnersPresent | backend/src/users/users.service.ts:60-67 | removing a user and then that user's posts preserves referential integrity |
| Users.RemoveWithoutCascadeBreaksOwnersPresent | backend/src/users/users.service.ts:64 | without the cascade, removing a user who owns a post leaves a dangling post |
| Users.UpdateKeepsOwnersPresent | backend/src/users/users.service.ts:54-58 | a user update preserves referential integrity |
| Users.CreateUserKeepsOwnersPresent | backend/src/users/users.service.ts:44-52 | a user create preserves referential integrity |
| Users.CreatePostOwnersPresent | backend/src/posts/posts.service.ts:100-111 | a post create preserves referential integrity if and only if its owner is present |
| Users.UpdatePostKeepsOwnersPresent | backend/src/posts/posts.service.ts:113-117 | a post update preserves referential integrity if and only if it does not move the post to an absent owner |
| Users.RemovePostsKeepsOwnersPresent | backend/src/posts/posts.service.ts:119-127 | removing posts by id or by owner preserves referential integrity |
| Users.UsersService.constructor | backend/src/users/users.service.ts:10-27 | a new service holds the seeded users and the injected post service, and referential integrity holds when that post service still holds its seeded posts |
| Users.UsersService.FindAll | backend/src/users/users.service.ts:34-36 | `findAll` gives the current list in insertion order |
| Users.UsersService.FindOne | backend/src/users/users.service.ts:38-42 | `findOne` succeeds exactly when some user has the id, returns the first such user, else NotFound with "User not found" |
| Users.UsersService.Create | backend/src/users/users.service.ts:44-52 | `create` appends a user with the next id and the request's fields, with no uniqueness check on them; ids stay distinct and integrity is kept |
| Users.UsersService.Update | backend/src/users/users.service.ts:54-58 | `update` fails with NotFound before any change when the id is absent, otherwise merges into the first user with the id; ids stay distinct and integrity is kept |
| Users.UsersService.Remove | backend/src/users/users.service.ts:60-67 | `remove` fails with NotFound changing neither list when the id is absent, otherwise removes the user, keeps the others in order, purges the user's posts, makes a second remove fail, keeps user ids distinct, and keeps integrity |
| Controller.WithOwner | backend/src/users/users.controller.ts:42 | the post request built under a user carries the path id as owner, whatever the body said, and the body's title |
| Controller.CascadeLeavesNoPostsOfUser | backend/src/users/users.controller.ts:45-49 | after the cascade, listing the deleted user's posts gives nothing |
| Controller.PostsAddedUnderUserAreListedInOrder | backend/src/users/users.controller.ts:40-49 | any posts added under a user who had none are listed back exactly, in creation order |
| Controller.PairAddedUnderUserIsListed | backend/src/users/users.controller.ts:40-49 | two posts added one after the other under a user who had none are listed back as exactly those two, in that order |
| Controller.UsersController.constructor | backend/src/users/users.controller.ts:10-13 | the controller shares the user service's post service |
| Controller.UsersController.Create | backend/src/users/users.controller.ts:15-18 | user create is passed through unchanged |
| Controller.UsersController.FindAll | backend/src/users/users.controller.ts:20-23 | user listing is passed through unchanged |
| Controller.UsersController.FindOne | backend/src/users/users.controller.ts:25-28 | the service's result, NotFound included, is passed on unchanged |
| Controller.UsersController.Update | backend/src/users/users.controller.ts:30-33 | user update, NotFound included, is passed through unchanged |
| Controller.UsersController.Remove | backend/src/users/users.controller.ts:35-38 | user delete is passed through; after success the user's post listing is empty |
| Controller.UsersController.AddPostToUser | backend/src/users/users.controller.ts:40-43 | creates a post owned by the path id with the next post id, without checking that the user exists |
| Controller.UsersController.FindPostsByUser | backend/src/users/users.controller.ts:45-49 | returns exactly the posts owned by the id in list order, empty (never NotFound) for an owner without posts or an unknown user |

`Controller.ScenarioPostsOfNewUser` (with `Controller.AddPostsUnderNewUser`)
and `Controller.ScenarioCascade` are client methods that drive the classes from the seeded state (create a user,
add posts under it, list them, delete the user, delete it again) and check
the outcome with assertions.

## Left out

- HTTP routing, NestJS dependency injection, `ParseIntPipe` and the mapping of `NotFoundException` to a 404 response: NotFound is a `Result` value carrying the exception's message.
- The class-validator rules on `CreatePostDto` (integer `userId`, non-empty `title`): a validation library outside the core; any owner and title are accepted.
- The update DTO and entity files are not part of this model: update requests are taken to carry the create fields as optional fields and no `id`, and a user create request to carry no `id`. A body that smuggled an `id` past validation would, through `Object.assign` or the spread, overwrite the stored id; that is not modelled.
- An update field present with the value `undefined` or `null` (both of which `Object.assign` copies, at posts.service.ts:115 and users.service.ts:56) is treated like an absent field: `Option` has no value for them, so the model does not capture a record whose field is overwritten with `undefined` or `null`.
- Object identity: `findAll` and `findOne` hand out live references, and `update` mutates the stored object in place. The model returns values and replaces the list element, so aliasing of returned objects is not captured.
- Ids are unbounded integers; JavaScript numbers lose precision above 2^53, which is not modelled.
- The seeded post titles are replaced by a placeholder; only their ids and owners are kept.
- Concurrency: the code is single-threaded and has no locks, so interleavings are not modelled.
- All frontend code (pages, toasts, routing).
