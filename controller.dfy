/** The HTTP layer of backend/src/users/users.controller.ts, without the
    routing: pass-through user operations and the two composite post
    operations under a user. */
module Controller {
  import opened Wrappers
  import opened Collections
  import Posts
  import Users

  /** `{ ...dto, userId: id }`: the request body with its owner replaced by
      the path id. */
  function WithOwner(dto: Posts.CreatePostDto, id: int): (r: Posts.CreatePostDto)
    ensures r.userId == id && r.title == dto.title
  {
    dto.(userId := id)
  }

  /** Once a user's posts have been cascaded away, listing that user's
      posts gives nothing. */
  lemma CascadeLeavesNoPostsOfUser(posts: seq<Posts.Post>, id: int)
    ensures Filter(Posts.OwnerIs(id), Filter(Posts.OwnerIsNot(id), posts)) == []
  {
  }

  /** Posts added under a user who owned none are exactly what listing that
      user's posts returns, in the order they were added. */
  lemma PostsAddedUnderUserAreListedInOrder(posts: seq<Posts.Post>, added: seq<Posts.Post>, id: int)
    requires forall p :: p in posts ==> p.userId != id
    requires forall p :: p in added ==> p.userId == id
    ensures Filter(Posts.OwnerIs(id), posts + added) == added
  {
    FilterConcat(Posts.OwnerIs(id), posts, added);
    FilterDropsAll(Posts.OwnerIs(id), posts);
    FilterKeepsAll(Posts.OwnerIs(id), added);
  }

  /** The two-post case of PostsAddedUnderUserAreListedInOrder, stated
      without a quantifier over the pair so that clients stay cheap. */
  lemma PairAddedUnderUserIsListed(posts: seq<Posts.Post>, first: Posts.Post, second: Posts.Post, id: int)
    requires forall p :: p in posts ==> p.userId != id
    requires first.userId == id && second.userId == id
    ensures Filter(Posts.OwnerIs(id), posts + [first] + [second]) == [first, second]
  {
    assert posts + [first] + [second] == posts + [first, second];
    PostsAddedUnderUserAreListedInOrder(posts, [first, second], id);
  }

  class UsersController {
    const usersService: Users.UsersService
    const postsService: Posts.PostsService

    /** The controller and the user service share the one post service. */
    ghost predicate Valid()
    {
      usersService.postsService == postsService
    }

    constructor (usersService: Users.UsersService, postsService: Posts.PostsService)
      requires usersService.postsService == postsService
      ensures this.usersService == usersService && this.postsService == postsService
      ensures Valid()
    {
      this.usersService := usersService;
      this.postsService := postsService;
    }

    /** `POST /users`. */
    method Create(dto: Users.CreateUserDto) returns (u: Users.User)
      modifies usersService
      ensures u == Users.User(NextId(Users.Id, old(usersService.users)), dto.name, dto.username, dto.email)
      ensures usersService.users == old(usersService.users) + [u]
    {
      u := usersService.Create(dto);
    }

    /** `GET /users`. */
    method FindAll() returns (r: seq<Users.User>)
      ensures r == usersService.users
    {
      r := usersService.FindAll();
    }

    /** `GET /users/:id`: the service's NotFound is passed on unchanged. */
    method FindOne(id: int) returns (r: Result<Users.User>)
      ensures r == usersService.FindOne(id)
      ensures r.NotFound? <==> forall u :: u in usersService.users ==> u.id != id
    {
      r := usersService.FindOne(id);
    }

    /** `PATCH /users/:id`. */
    method Update(id: int, dto: Users.UpdateUserDto) returns (r: Result<Users.User>)
      modifies usersService
      ensures match FindIndex(Users.HasId(id), old(usersService.users))
        case None => r == NotFound(Users.UserNotFound) && usersService.users == old(usersService.users)
        case Some(i) => r == Ok(Users.Merge(old(usersService.users)[i], dto)) && usersService.users == old(usersService.users)[i := r.value]
    {
      r := usersService.Update(id, dto);
    }

    /** `DELETE /users/:id`: on success the user's posts are gone, so a
      following `GET /users/:id/posts` is empty. */
    method Remove(id: int) returns (r: Result<Deleted>)
      requires Valid()
      modifies usersService, postsService
      ensures r.Ok? <==> exists u :: u in old(usersService.users) && u.id == id
      ensures r.NotFound? ==> r.message == Users.UserNotFound
      ensures r.NotFound? ==> usersService.users == old(usersService.users) && postsService.posts == old(postsService.posts)
      ensures r.Ok? ==> usersService.users == Filter(Users.IdIsNot(id), old(usersService.users))
      ensures r.Ok? ==> postsService.posts == Filter(Posts.OwnerIsNot(id), old(postsService.posts))
      ensures r.Ok? ==> Filter(Posts.OwnerIs(id), postsService.posts) == []
    {
      r := usersService.Remove(id);
      if r.Ok? {
        CascadeLeavesNoPostsOfUser(old(postsService.posts), id);
      }
    }

    /** `POST /users/:id/posts`: creates a post owned by the path id,
      whatever owner the body names, without checking that the user exists. */
    method AddPostToUser(id: int, dto: Posts.CreatePostDto) returns (p: Posts.Post)
      modifies postsService
      ensures p == Posts.Post(NextId(Posts.Id, old(postsService.posts)), id, dto.title)
      ensures postsService.posts == old(postsService.posts) + [p]
    {
      p := postsService.Create(WithOwner(dto, id));
    }

    /** `GET /users/:id/posts`: the posts owned by the id, in list order;
      empty, never NotFound, for an owner without posts or an unknown user. */
    method FindPostsByUser(id: int) returns (r: seq<Posts.Post>)
      ensures forall p :: p in r <==> p in postsService.posts && p.userId == id
      ensures r == Filter(Posts.OwnerIs(id), postsService.posts)
    {
      r := Filter(Posts.OwnerIs(id), postsService.FindAll());
    }
  }

  /** A client run on freshly seeded services: a new user gets the next
      id, and its two posts are listed in creation order. */
  method ScenarioPostsOfNewUser()
  {
    var posts := new Posts.PostsService();
    var users := new Users.UsersService(posts);
    assert users.Consistent();
    var api := new UsersController(users, posts);
    AddPostsUnderNewUser(api);
  }

  /** From the seeded state: create a user, add two posts under it, and
      list them back. */
  method AddPostsUnderNewUser(api: UsersController)
    requires api.Valid()
    requires api.usersService.users == Users.SeedUsers()
    requires api.postsService.posts == Posts.SeedPosts()
    modifies api.usersService, api.postsService
  {
    Posts.SeedPostsBounded();
    Posts.SeedNextId();
    Users.SeedNextId();
    ghost var seed := Posts.SeedPosts();

    var a := api.Create(Users.CreateUserDto("A", "a", "a@x.com"));
    assert a.id == 16;
    var p1 := api.AddPostToUser(a.id, Posts.CreatePostDto(1, "T1"));
    assert p1 == Posts.Post(46, 16, "T1");
    NextIdAfterFreshAppend(Posts.Id, seed, p1);
    var p2 := api.AddPostToUser(a.id, Posts.CreatePostDto(1, "T2"));
    assert p2.id == 47 && p2.userId == 16;
    assert api.postsService.posts == seed + [p1] + [p2];

    var mine := api.FindPostsByUser(a.id);
    PairAddedUnderUserIsListed(seed, p1, p2, 16);
    assert mine == [p1, p2];
  }

  /** A client run on freshly seeded services: deleting a user removes its
      post, and deleting it again fails. */
  method ScenarioCascade()
  {
    var posts := new Posts.PostsService();
    var users := new Users.UsersService(posts);
    var api := new UsersController(users, posts);
    Posts.SeedPostsBounded();
    Posts.SeedNextId();
    Users.SeedNextId();
    ghost var seed := Posts.SeedPosts();

    var a := api.Create(Users.CreateUserDto("A", "a", "a@x.com"));
    var p := api.AddPostToUser(a.id, Posts.CreatePostDto(1, "T1"));
    assert p == Posts.Post(46, 16, "T1");
    assert a in api.usersService.users;

    var ack := api.Remove(a.id);
    assert ack.Ok?;
    var mine := api.FindPostsByUser(a.id);
    assert mine == [];
    assert forall q :: q in posts.posts ==> q in seed;
    var gone := posts.FindOne(p.id);
    assert gone.NotFound?;

    var again := api.Remove(a.id);
    assert again.NotFound?;
  }
}
