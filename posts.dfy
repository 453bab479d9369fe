/** The post store of backend/src/posts/posts.service.ts: an in-memory list
    of posts (to-do items), each owned by a user through `userId`. */
module Posts {
  import opened Wrappers
  import opened Collections

  /** A stored post: `{ id, userId, title }`. */
  datatype Post = Post(id: int, userId: int, title: string)

  /** The body of a create request. */
  datatype CreatePostDto = CreatePostDto(userId: int, title: string)

  /** The body of an update request: the create fields, each optional. */
  datatype UpdatePostDto = UpdatePostDto(userId: Option<int>, title: Option<string>)

  /** The message of the NotFoundException the service throws. */
  const PostNotFound: string := "Post not found"

  function Id(p: Post): int { p.id }
  function HasId(id: int): Post -> bool { (p: Post) => p.id == id }
  function IdIsNot(id: int): Post -> bool { (p: Post) => p.id != id }
  function OwnerIs(userId: int): Post -> bool { (p: Post) => p.userId == userId }
  function OwnerIsNot(userId: int): Post -> bool { (p: Post) => p.userId != userId }

  /** `Object.assign(post, dto)`: every field the request carries overwrites
      the stored one, every other field and the id are kept. */
  function Merge(p: Post, dto: UpdatePostDto): (r: Post)
    ensures r.id == p.id
    ensures dto.userId.Some? ==> r.userId == dto.userId.value
    ensures dto.userId.None? ==> r.userId == p.userId
    ensures dto.title.Some? ==> r.title == dto.title.value
    ensures dto.title.None? ==> r.title == p.title
    ensures dto == UpdatePostDto(None, None) ==> r == p
  {
    p.(userId := dto.userId.GetOr(p.userId), title := dto.title.GetOr(p.title))
  }

  /** The seeded posts: ids 1 to 45, three consecutive posts per user,
      owned by users 1 to 15. Titles are not modelled. */
  function SeedPosts(): (s: seq<Post>)
    ensures |s| == 45
    ensures forall i :: 0 <= i < |s| ==> s[i].id == i + 1 && s[i].userId == i / 3 + 1
  {
    seq(45, i requires 0 <= i < 45 => Post(i + 1, i / 3 + 1, "seeded"))
  }

  /** The seeded ids are pairwise distinct. */
  lemma SeedPostIdsDistinct()
    ensures DistinctKeys(Id, SeedPosts())
  {
  }

  /** Every seeded post has an id from 1 to 45 and an owner from 1 to 15. */
  lemma SeedPostsBounded()
    ensures forall p :: p in SeedPosts() ==> 1 <= p.userId <= 15 && 1 <= p.id <= 45
  {
  }

  /** On the seeded list the next post id is 46. */
  lemma SeedNextId()
    ensures NextId(Id, SeedPosts()) == 46
  {
    var s := SeedPosts();
    assert s[44] in s;
  }

  /** After a create, the new post's id exceeds every id that was present,
      so distinct ids stay distinct. */
  lemma CreateKeepsIdsDistinct(posts: seq<Post>, dto: CreatePostDto)
    requires DistinctKeys(Id, posts)
    ensures DistinctKeys(Id, posts + [Post(NextId(Id, posts), dto.userId, dto.title)])
  {
  }

  /** Ids are allocated over the live list: once the newest post is
      removed, the next create hands out its id again. */
  lemma NewestIdReusedAfterRemove(posts: seq<Post>, dto: CreatePostDto)
    ensures var p := Post(NextId(Id, posts), dto.userId, dto.title);
            NextId(Id, Filter(IdIsNot(p.id), posts + [p])) == p.id
  {
  }

  /** The service object: it owns the list and changes it in place. */
  class PostsService {
    var posts: seq<Post>

    constructor ()
      ensures posts == SeedPosts()
    {
      posts := SeedPosts();
    }

    /** `findAll`: the live list, in insertion order. */
    function FindAll(): (r: seq<Post>)
      reads this
      ensures r == posts
    {
      posts
    }

    /** `findOne`: the first post with the id, or NotFound. */
    function FindOne(id: int): (r: Result<Post>)
      reads this
      ensures r.Ok? <==> exists p :: p in posts && p.id == id
      ensures r.Ok? ==> r.value in posts && r.value.id == id
      ensures r.Ok? ==> exists i :: 0 <= i < |posts| && posts[i] == r.value && forall j :: 0 <= j < i ==> posts[j].id != id
      ensures r.NotFound? ==> r.message == PostNotFound
    {
      match FindIndex(HasId(id), posts)
      case Some(i) => Ok(posts[i])
      case None => NotFound(PostNotFound)
    }

    /** `create`: appends a post with the next id and the request's owner
      and title; the owner is stored without checking that it exists. */
    method Create(dto: CreatePostDto) returns (p: Post)
      modifies this
      ensures p == Post(NextId(Id, old(posts)), dto.userId, dto.title)
      ensures forall q :: q in old(posts) ==> q.id < p.id
      ensures posts == old(posts) + [p]
      ensures DistinctKeys(Id, old(posts)) ==> DistinctKeys(Id, posts)
    {
      p := Post(NextId(Id, posts), dto.userId, dto.title);
      if DistinctKeys(Id, posts) {
        CreateKeepsIdsDistinct(posts, dto);
      }
      posts := posts + [p];
    }

    /** `update`: merges the request into the first post with the id, in
      place; NotFound, with nothing changed, when there is none. */
    method Update(id: int, dto: UpdatePostDto) returns (r: Result<Post>)
      modifies this
      ensures match FindIndex(HasId(id), old(posts))
        case None => r == NotFound(PostNotFound) && posts == old(posts)
        case Some(i) => r == Ok(Merge(old(posts)[i], dto)) && posts == old(posts)[i := r.value]
      ensures r.NotFound? <==> old(FindOne(id)).NotFound?
      ensures DistinctKeys(Id, old(posts)) ==> DistinctKeys(Id, posts)
    {
      match FindIndex(HasId(id), posts)
      case None =>
        r := NotFound(PostNotFound);
      case Some(i) =>
        var updated := Merge(posts[i], dto);
        if DistinctKeys(Id, posts) {
          ReplaceSameKeyKeepsDistinctKeys(Id, posts, i, updated);
        }
        posts := posts[i := updated];
        r := Ok(updated);
    }

    /** `remove`: NotFound, with nothing removed, when no post has the id;
      otherwise every post with the id is dropped, the others keep their
      order, and a second remove of the same id fails. */
    method Remove(id: int) returns (r: Result<Deleted>)
      modifies this
      ensures r.Ok? <==> exists p :: p in old(posts) && p.id == id
      ensures r.NotFound? ==> r.message == PostNotFound && posts == old(posts)
      ensures r.Ok? ==> posts == Filter(IdIsNot(id), old(posts))
      ensures r.Ok? ==> FindOne(id).NotFound?
      ensures DistinctKeys(Id, old(posts)) ==> DistinctKeys(Id, posts)
    {
      var found := FindOne(id);
      if found.NotFound? {
        return NotFound(found.message);
      }
      if DistinctKeys(Id, posts) {
        FilterKeepsDistinctKeys(IdIsNot(id), Id, posts);
      }
      posts := Filter(IdIsNot(id), posts);
      r := Ok(Deleted);
    }

    /** `removeByUserId`, the cascade hook: drops every post the user owns
      and keeps the others in order; it never fails. */
    method RemoveByUserId(userId: int)
      modifies this
      ensures posts == Filter(OwnerIsNot(userId), old(posts))
      ensures forall p :: p in posts ==> p.userId != userId
      ensures DistinctKeys(Id, old(posts)) ==> DistinctKeys(Id, posts)
    {
      if DistinctKeys(Id, posts) {
        FilterKeepsDistinctKeys(OwnerIsNot(userId), Id, posts);
      }
      posts := Filter(OwnerIsNot(userId), posts);
    }
  }
}
