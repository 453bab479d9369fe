/** The user store of backend/src/users/users.service.ts. It holds a
    reference to the post store, into which it cascades user deletion. */
module Users {
  import opened Wrappers
  import opened Collections
  import Posts

  /** A stored user: `{ id, name, username, email }`. */
  datatype User = User(id: int, name: string, username: string, email: string)

  /** The body of a create request; it carries no id. */
  datatype CreateUserDto = CreateUserDto(name: string, username: string, email: string)

  /** The body of an update request: the create fields, each optional. */
  datatype UpdateUserDto = UpdateUserDto(name: Option<string>, username: Option<string>, email: Option<string>)

  /** The message of the NotFoundException the service throws. */
  const UserNotFound: string := "User not found"

  function Id(u: User): int { u.id }
  function HasId(id: int): User -> bool { (u: User) => u.id == id }
  function IdIsNot(id: int): User -> bool { (u: User) => u.id != id }

  /** `Object.assign(user, dto)`: supplied fields overwrite, the others and
      the id are kept; an empty request changes nothing. */
  function Merge(u: User, dto: UpdateUserDto): (r: User)
    ensures r.id == u.id
    ensures dto.name.Some? ==> r.name == dto.name.value
    ensures dto.name.None? ==> r.name == u.name
    ensures dto.username.Some? ==> r.username == dto.username.value
    ensures dto.username.None? ==> r.username == u.username
    ensures dto.email.Some? ==> r.email == dto.email.value
    ensures dto.email.None? ==> r.email == u.email
    ensures dto == UpdateUserDto(None, None, None) ==> r == u
  {
    u.(name := dto.name.GetOr(u.name),
       username := dto.username.GetOr(u.username),
       email := dto.email.GetOr(u.email))
  }

  /** The fifteen seeded users, ids 1 to 15. */
  function SeedUsers(): (s: seq<User>)
    ensures |s| == 15
    ensures forall i :: 0 <= i < |s| ==> s[i].id == i + 1
  {
    [ User(1, "Betül Yazıcı", "betul", "betul@example.com"),
      User(2, "Ali Tekin", "alitek", "ali@example.com"),
      User(3, "Kemal Lale", "kemal", "kemal@example.com"),
      User(4, "Ayşe Demir", "ayse", "ayse@example.com"),
      User(5, "Mehmet Yıldız", "mehmet", "mehmet@example.com"),
      User(6, "Zeynep Kaya", "zeynep", "zeynep@example.com"),
      User(7, "Ahmet Çelik", "ahmet", "ahmet@example.com"),
      User(8, "Elif Arslan", "elif", "elif@example.com"),
      User(9, "Murat Aksoy", "murat", "murat@example.com"),
      User(10, "Fatma Şahin", "fatma", "fatma@example.com"),
      User(11, "Hasan Koç", "hasan", "hasan@example.com"),
      User(12, "Selin Yılmaz", "selin", "selin@example.com"),
      User(13, "Okan Demirtaş", "okan", "okan@example.com"),
      User(14, "Cemre Aydın", "cemre", "cemre@example.com"),
      User(15, "Burak Güneş", "burak", "burak@example.com") ]
  }

  /** On the seeded list the next user id is 16. */
  lemma SeedNextId()
    ensures NextId(Id, SeedUsers()) == 16
  {
    var s := SeedUsers();
    assert s[14] in s;
  }

  /** Referential integrity: every post's owner is a user that is present. */
  predicate OwnersPresent(users: seq<User>, posts: seq<Posts.Post>)
  {
    forall p :: p in posts ==> exists u :: u in users && u.id == p.userId
  }

  /** The seeded users and posts satisfy referential integrity and have
      distinct ids. */
  lemma SeedOwnersPresent()
    ensures OwnersPresent(SeedUsers(), Posts.SeedPosts())
    ensures DistinctKeys(Id, SeedUsers()) && DistinctKeys(Posts.Id, Posts.SeedPosts())
  {
    var users, posts := SeedUsers(), Posts.SeedPosts();
    forall p | p in posts
      ensures exists u :: u in users && u.id == p.userId
    {
      var i :| 0 <= i < |posts| && posts[i] == p;
      assert users[i / 3] in users;
    }
  }

  /** The cascade keeps integrity: removing a user and then that user's
      posts leaves every remaining post with a present owner. */
  lemma RemoveWithCascadeKeepsOwnersPresent(users: seq<User>, posts: seq<Posts.Post>, id: int)
    requires OwnersPresent(users, posts)
    ensures OwnersPresent(Filter(IdIsNot(id), users), Filter(Posts.OwnerIsNot(id), posts))
  {
  }

  /** Without the cascade, removing a user who owns a post would leave that
      post dangling. */
  lemma RemoveWithoutCascadeBreaksOwnersPresent(users: seq<User>, posts: seq<Posts.Post>, id: int)
    requires exists p :: p in posts && p.userId == id
    ensures !OwnersPresent(Filter(IdIsNot(id), users), posts)
  {
  }

  /** A user update keeps the ids, hence integrity. */
  lemma UpdateKeepsOwnersPresent(users: seq<User>, posts: seq<Posts.Post>, i: nat, dto: UpdateUserDto)
    requires i < |users| && OwnersPresent(users, posts)
    ensures OwnersPresent(users[i := Merge(users[i], dto)], posts)
  {
    var users' := users[i := Merge(users[i], dto)];
    forall p | p in posts
      ensures exists u :: u in users' && u.id == p.userId
    {
      var u :| u in users && u.id == p.userId;
      var k :| 0 <= k < |users| && users[k] == u;
      assert users'[k] in users' && users'[k].id == u.id;
    }
  }

  /** Appending a user keeps integrity. */
  lemma CreateUserKeepsOwnersPresent(users: seq<User>, posts: seq<Posts.Post>, u: User)
    requires OwnersPresent(users, posts)
    ensures OwnersPresent(users + [u], posts)
  {
  }

  /** A post create keeps integrity exactly when its owner is present:
      the post service itself does not check. */
  lemma CreatePostOwnersPresent(users: seq<User>, posts: seq<Posts.Post>, p: Posts.Post)
    requires OwnersPresent(users, posts)
    ensures OwnersPresent(users, posts + [p]) <==> exists u :: u in users && u.id == p.userId
  {
  }

  /** A post update keeps integrity exactly when it does not move the post
      to an absent owner: like create, the post service does not check. */
  lemma UpdatePostKeepsOwnersPresent(users: seq<User>, posts: seq<Posts.Post>, i: nat, dto: Posts.UpdatePostDto)
    requires i < |posts| && OwnersPresent(users, posts)
    ensures OwnersPresent(users, posts[i := Posts.Merge(posts[i], dto)])
        <==> (dto.userId.Some? ==> exists u :: u in users && u.id == dto.userId.value)
  {
    var updated := posts[i := Posts.Merge(posts[i], dto)];
    assert updated[i] in updated;
  }

  /** Removing posts, one by id or all of one owner's, keeps integrity. */
  lemma RemovePostsKeepsOwnersPresent(users: seq<User>, posts: seq<Posts.Post>, keep: Posts.Post -> bool)
    requires OwnersPresent(users, posts)
    ensures OwnersPresent(users, Filter(keep, posts))
  {
  }

  /** The service object. It owns the user list and holds the injected
      post service. */
  class UsersService {
    const postsService: Posts.PostsService
    var users: seq<User>

    constructor (postsService: Posts.PostsService)
      ensures this.postsService == postsService
      ensures users == SeedUsers()
      ensures postsService.posts == Posts.SeedPosts() ==> Consistent()
    {
      this.postsService := postsService;
      users := SeedUsers();
      SeedOwnersPresent();
    }

    /** Referential integrity between this service's users and the posts
      of the service it cascades into. */
    predicate Consistent()
      reads this, postsService
    {
      OwnersPresent(users, postsService.posts)
    }

    /** `findAll`: the live list, in insertion order. */
    function FindAll(): (r: seq<User>)
      reads this
      ensures r == users
    {
      users
    }

    /** `findOne`: the first user with the id, or NotFound. */
    function FindOne(id: int): (r: Result<User>)
      reads this
      ensures r.Ok? <==> exists u :: u in users && u.id == id
      ensures r.Ok? ==> exists i :: 0 <= i < |users| && users[i] == r.value && forall j :: 0 <= j < i ==> users[j].id != id
      ensures r.Ok? ==> r.value.id == id
      ensures r.NotFound? ==> r.message == UserNotFound
    {
      match FindIndex(HasId(id), users)
      case Some(i) => Ok(users[i])
      case None => NotFound(UserNotFound)
    }

    /** `create`: appends a user with the next id and the request's fields;
      names, usernames and emails may repeat. */
    method Create(dto: CreateUserDto) returns (u: User)
      modifies this
      ensures u == User(NextId(Id, old(users)), dto.name, dto.username, dto.email)
      ensures forall v :: v in old(users) ==> v.id < u.id
      ensures users == old(users) + [u]
      ensures DistinctKeys(Id, old(users)) ==> DistinctKeys(Id, users)
      ensures old(Consistent()) ==> Consistent()
    {
      u := User(NextId(Id, users), dto.name, dto.username, dto.email);
      if DistinctKeys(Id, users) {
        AppendFreshKeepsDistinctKeys(Id, users, u);
      }
      if Consistent() {
        CreateUserKeepsOwnersPresent(users, postsService.posts, u);
      }
      users := users + [u];
    }

    /** `update`: NotFound before any change when no user has the id;
      otherwise merges the request into the first such user, in place. */
    method Update(id: int, dto: UpdateUserDto) returns (r: Result<User>)
      modifies this
      ensures match FindIndex(HasId(id), old(users))
        case None => r == NotFound(UserNotFound) && users == old(users)
        case Some(i) => r == Ok(Merge(old(users)[i], dto)) && users == old(users)[i := r.value]
      ensures r.NotFound? <==> old(FindOne(id)).NotFound?
      ensures DistinctKeys(Id, old(users)) ==> DistinctKeys(Id, users)
      ensures old(Consistent()) ==> Consistent()
    {
      match FindIndex(HasId(id), users)
      case None =>
        r := NotFound(UserNotFound);
      case Some(i) =>
        var updated := Merge(users[i], dto);
        if DistinctKeys(Id, users) {
          ReplaceSameKeyKeepsDistinctKeys(Id, users, i, updated);
        }
        if Consistent() {
          UpdateKeepsOwnersPresent(users, postsService.posts, i, dto);
        }
        users := users[i := updated];
        r := Ok(updated);
    }

    /** `remove`: NotFound, with neither list changed, when no user has the
      id; otherwise drops the user, then every post the user owns. */
    method Remove(id: int) returns (r: Result<Deleted>)
      modifies this, postsService
      ensures r.Ok? <==> exists u :: u in old(users) && u.id == id
      ensures r.NotFound? ==> r.message == UserNotFound
      ensures r.NotFound? ==> users == old(users) && postsService.posts == old(postsService.posts)
      ensures r.Ok? ==> users == Filter(IdIsNot(id), old(users))
      ensures r.Ok? ==> postsService.posts == Filter(Posts.OwnerIsNot(id), old(postsService.posts))
      ensures r.Ok? ==> FindOne(id).NotFound?
      ensures DistinctKeys(Id, old(users)) ==> DistinctKeys(Id, users)
      ensures old(Consistent()) ==> Consistent()
    {
      var found := FindOne(id);
      if found.NotFound? {
        return NotFound(found.message);
      }
      if DistinctKeys(Id, users) {
        FilterKeepsDistinctKeys(IdIsNot(id), Id, users);
      }
      if Consistent() {
        RemoveWithCascadeKeepsOwnersPresent(users, postsService.posts, id);
      }
      users := Filter(IdIsNot(id), users);
      postsService.RemoveByUserId(id);
      r := Ok(Deleted);
    }
  }
}
