/** The request handlers of app/routers/auth.py and app/routers/post.py over
    an in-memory store of the four tables.  Handlers that change the tables
    are methods of `Store`; read-only handlers are functions of it.  The
    `Depends(get_current_user)` dependency is resolved before a handler runs
    (`PostCurrentUser`), so handlers receive the caller's user id. */
module Routers {
  import opened Common
  import opened Models
  import opened AuthUtils

  /** `UserResponse`: a user without the password hash. */
  datatype UserView = UserView(id: nat, username: string)

  /** The body `login` returns. */
  datatype LoginResponse = LoginResponse(accessToken: string, tokenType: string, id: nat, username: string)

  /** The body `get_post` returns. */
  datatype PostView = PostView(id: nat, title: string, content: string, authorId: nat, authorUsername: string)

  /** `VoteResponse` */
  datatype VoteResponse = VoteResponse(postId: nat, userId: nat, message: string)

  /** `PostComprehensiveResponse`, with the post's comments keyed by id. */
  datatype ComprehensivePost = ComprehensivePost(
    id: nat, title: string, content: string, authorId: nat,
    votesCount: nat, comments: map<nat, Comment>)

  const USERNAME_EXISTS := HttpError(400, "Username already exisit")
  const AUTHENTICATION_FAILED := HttpError(401, "Authentication Failed")
  const POST_NOT_FOUND := HttpError(404, "Post not found")
  const POST_NOT_FOUND_OR_UNAUTHORIZED := HttpError(404, "Post not found or unauthorized")
  const COMMENT_NOT_FOUND_OR_UNAUTHORIZED := HttpError(404, "Comment not found or unauthorized")
  const COMMENT_NOT_FOUND_FOR_USER := HttpError(404, "Comment not found for the user")
  const ALREADY_VOTED := HttpError(400, "You have already voted for this post")
  const NOT_VOTED := HttpError(400, "You haven't voted for this post")
  const INVALID_ACTION := HttpError(400, "Invalid action. Use 'vote' or 'unvote'.")

  /** The claims `login` signs: exactly `sub` and `role`. */
  function LoginClaims(u: User): (c: Claims)
    ensures c.Keys == {"sub", "role"}
    ensures Subject(c) == Some(u.username)
    ensures c["role"] == Str(u.role.Value())
  {
    map["sub" := Str(u.username), "role" := Str(u.role.Value())]
  }

  /** `get_current_user(token)` of app/routers/post.py, read with the intended
      Tortoise meaning of `User.get`: like the resolver of app/utils/auth.py,
      except where that one answers 404.  Here a `sub` that names no user, or
      that is not a string, makes `User.get` raise `DoesNotExist`, which the
      handler does not catch and the framework answers with 500.  A payload
      without `sub` is a KeyError (500) in both.  As written, `User.get` is
      not a method of the declarative `User` class, so every call raises. */
  function PostCurrentUser(jwt: Jwt, token: string, now: int, users: map<nat, User>): (r: Result<nat>)
    requires UniqueUsernames(users)
    ensures GetCurrentUser(jwt, token, now, users).Ok? ==> r == GetCurrentUser(jwt, token, now, users)
    ensures GetCurrentUser(jwt, token, now, users) == Err(USER_NOT_FOUND) ==> r == Err(INTERNAL_SERVER_ERROR)
    ensures (GetCurrentUser(jwt, token, now, users).Err? && GetCurrentUser(jwt, token, now, users) != Err(USER_NOT_FOUND))
              ==> r == GetCurrentUser(jwt, token, now, users)
  {
    match DecodeAccessToken(jwt, token, now)
    case Err(e) => Err(e)
    case Ok(payload) =>
      if payload == map[] then Err(AUTH_REQUIRED)
      else
        match Subject(payload)
        case None => Err(INTERNAL_SERVER_ERROR)
        case Some(name) =>
          match UserByName(users, name)
          case None => Err(INTERNAL_SERVER_ERROR)
          case Some(id) => Ok(id)
  }

  /** The comments whose `post_id` is `pid`. */
  function CommentsOn(comments: map<nat, Comment>, pid: nat): (r: map<nat, Comment>)
    ensures forall c :: c in r <==> c in comments && comments[c].postId == pid
    ensures forall c :: c in r ==> r[c] == comments[c]
  {
    map c | c in comments && comments[c].postId == pid :: comments[c]
  }

  class Store {
    var users: map<nat, User>
    var posts: map<nat, Post>
    var comments: map<nat, Comment>
    var votes: map<nat, Vote>
    // The next primary key each table hands out.
    var nextUserId: nat
    var nextPostId: nat
    var nextCommentId: nat
    var nextVoteId: nat

    function Tables(): Db
      reads this
    {
      Db(users, posts, comments, votes)
    }

    /** The table constraints hold, and every next key is fresh. */
    ghost predicate Valid()
      reads this
    {
      && Consistent(Tables())
      && KeysBelow(users, nextUserId) && KeysBelow(posts, nextPostId)
      && KeysBelow(comments, nextCommentId) && KeysBelow(votes, nextVoteId)
    }

    constructor ()
      ensures Valid()
      ensures Tables() == Db(map[], map[], map[], map[])
    {
      users, posts, comments, votes := map[], map[], map[], map[];
      nextUserId, nextPostId, nextCommentId, nextVoteId := 1, 1, 1, 1;
    }

    // ----- app/routers/auth.py -----

    /** `register`: a taken username is 400 and changes nothing; otherwise one
        user is added with the hash of the password and the default role (the
        role in the request is not used). */
    method Register(username: string, password: string, salt: string, hasher: Hasher) returns (r: Result<UserView>)
      requires Valid()
      modifies this
      ensures Valid()
      ensures UsernameTaken(old(users), username) ==> r == Err(USERNAME_EXISTS) && Tables() == old(Tables())
      ensures !UsernameTaken(old(users), username) ==>
                && r.Ok? && r.value.username == username && r.value.id !in old(users)
                && users == old(users)[r.value.id := User(username, hasher.hash(password, salt), DEFAULT_ROLE)]
                && posts == old(posts) && comments == old(comments) && votes == old(votes)
    {
      if UsernameTaken(users, username) {
        r := Err(USERNAME_EXISTS);
        return;
      }
      var hashed := hasher.hash(password, salt);
      var id := nextUserId;
      AddUserKeepsUnique(users, id, User(username, hashed, DEFAULT_ROLE));
      users := users[id := User(username, hashed, DEFAULT_ROLE)];
      nextUserId := nextUserId + 1;
      r := Ok(UserView(id, username));
    }

    /** `login`: an unknown username is 404, then a password that does not
        verify is 401; otherwise a Bearer token signed over the user's `sub`
        and `role`. */
    function Login(username: string, password: string, hasher: Hasher, jwt: Jwt, now: int, setting: Option<int>): (r: Result<LoginResponse>)
      reads this
      requires Valid()
      ensures !UsernameTaken(users, username) ==> r == Err(USER_NOT_FOUND)
      ensures forall id :: id in users && users[id].username == username && !hasher.verify(password, users[id].password)
                ==> r == Err(AUTHENTICATION_FAILED)
      ensures r.Ok? <==> exists id :: id in users && users[id].username == username && hasher.verify(password, users[id].password)
      ensures r.Ok? ==>
                && r.value.id in users
                && r.value.username == users[r.value.id].username == username
                && r.value.tokenType == "Bearer"
                && r.value.accessToken == CreateAccessToken(jwt, LoginClaims(users[r.value.id]), now, setting)
    {
      match UserByName(users, username)
      case None => Err(USER_NOT_FOUND)
      case Some(id) =>
        var user := users[id];
        if !hasher.verify(password, user.password) then Err(AUTHENTICATION_FAILED)
        else
          var token := CreateAccessToken(jwt, LoginClaims(user), now, setting);
          Ok(LoginResponse(token, "Bearer", id, user.username))
    }

    /** `get_all_users`: every stored user, without password hashes. */
    function GetAllUsers(): (r: set<UserView>)
      reads this
      ensures forall v :: v in r <==> v.id in users && users[v.id].username == v.username
    {
      set id | id in users :: UserView(id, users[id].username)
    }

    /** `get_user`: an unknown id gives no user, not an error. */
    function GetUser(id: nat): (r: Option<UserView>)
      reads this
      ensures r.None? <==> id !in users
      ensures r.Some? ==> r.value.id == id && r.value.username == users[id].username
    {
      if id in users then Some(UserView(id, users[id].username)) else None
    }

    /** `delete_user`: an unknown id is 404; otherwise the user goes, with the
        posts, comments and votes the cascades remove. */
    method DeleteUser(id: nat) returns (r: Result<string>)
      requires Valid()
      modifies this
      ensures Valid()
      ensures id !in old(users) ==> r == Err(USER_NOT_FOUND) && Tables() == old(Tables())
      ensures id in old(users) ==> r == Ok("user deleted successfully") && Tables() == DeleteUserCascade(old(Tables()), id)
    {
      if id !in users {
        r := Err(USER_NOT_FOUND);
        return;
      }
      var db := DeleteUserCascade(Tables(), id);
      DeleteUserKeepsConsistent(Tables(), id);
      DeleteUserShrinks(Tables(), id);
      SubTableKeysBelow(db.users, users, nextUserId);
      SubTableKeysBelow(db.posts, posts, nextPostId);
      SubTableKeysBelow(db.comments, comments, nextCommentId);
      SubTableKeysBelow(db.votes, votes, nextVoteId);
      users, posts, comments, votes := db.users, db.posts, db.comments, db.votes;
      assert Tables() == db;
      r := Ok("user deleted successfully");
    }

    // ----- app/routers/post.py -----

    /** `create_post`: one new post by the caller. */
    method CreatePost(caller: nat, title: string, content: string) returns (id: nat)
      requires Valid() && caller in users
      modifies this
      ensures Valid()
      ensures id !in old(posts) && posts == old(posts)[id := Post(title, content, caller)]
      ensures users == old(users) && comments == old(comments) && votes == old(votes)
    {
      id := nextPostId;
      posts := posts[id := Post(title, content, caller)];
      nextPostId := nextPostId + 1;
    }

    /** `get_post`: the post with its author's username, or 404. */
    function GetPost(pid: nat): (r: Result<PostView>)
      reads this
      requires Valid()
      ensures pid !in posts ==> r == Err(POST_NOT_FOUND)
      ensures pid in posts ==>
                && r.Ok? && r.value.id == pid
                && r.value.title == posts[pid].title && r.value.content == posts[pid].content
                && r.value.authorId == posts[pid].authorId
                && r.value.authorId in users && r.value.authorUsername == users[r.value.authorId].username
    {
      if pid !in posts then Err(POST_NOT_FOUND)
      else
        var post := posts[pid];
        Ok(PostView(pid, post.title, post.content, post.authorId, users[post.authorId].username))
    }

    /** `update_post`: only the author of an existing post may change it, and
        only its title and content change. */
    method UpdatePost(caller: nat, pid: nat, title: string, content: string) returns (r: Result<nat>)
      requires Valid() && caller in users
      modifies this
      ensures Valid()
      ensures !(pid in old(posts) && old(posts)[pid].authorId == caller) ==>
                r == Err(POST_NOT_FOUND_OR_UNAUTHORIZED) && Tables() == old(Tables())
      ensures pid in old(posts) && old(posts)[pid].authorId == caller ==>
                && r == Ok(pid)
                && posts == old(posts)[pid := Post(title, content, caller)]
                && users == old(users) && comments == old(comments) && votes == old(votes)
    {
      if !(pid in posts && posts[pid].authorId == caller) {
        r := Err(POST_NOT_FOUND_OR_UNAUTHORIZED);
        return;
      }
      posts := posts[pid := posts[pid].(title := title, content := content)];
      r := Ok(pid);
    }

    /** `delete_post`: only the author of an existing post may delete it; its
        comments and votes cascade. */
    method DeletePost(caller: nat, pid: nat) returns (r: Result<string>)
      requires Valid() && caller in users
      modifies this
      ensures Valid()
      ensures !(pid in old(posts) && old(posts)[pid].authorId == caller) ==>
                r == Err(POST_NOT_FOUND_OR_UNAUTHORIZED) && Tables() == old(Tables())
      ensures pid in old(posts) && old(posts)[pid].authorId == caller ==>
                r == Ok("Post deleted successfully") && Tables() == DeletePostCascade(old(Tables()), pid)
    {
      if !(pid in posts && posts[pid].authorId == caller) {
        r := Err(POST_NOT_FOUND_OR_UNAUTHORIZED);
        return;
      }
      var db := DeletePostCascade(Tables(), pid);
      DeletePostKeepsConsistent(Tables(), pid);
      DeletePostShrinks(Tables(), pid);
      SubTableKeysBelow(db.comments, comments, nextCommentId);
      SubTableKeysBelow(db.votes, votes, nextVoteId);
      posts, comments, votes := db.posts, db.comments, db.votes;
      r := Ok("Post deleted successfully");
    }

    /** `comment_on_post`: 404 for a missing post, otherwise one new comment
        by the caller on that post. */
    method CommentOnPost(caller: nat, pid: nat, content: string) returns (r: Result<string>)
      requires Valid() && caller in users
      modifies this
      ensures Valid()
      ensures pid !in old(posts) ==> r == Err(POST_NOT_FOUND) && Tables() == old(Tables())
      ensures pid in old(posts) ==>
                && r == Ok("Comment added successfully")
                && (exists id: nat :: id !in old(comments) && comments == old(comments)[id := Comment(content, pid, caller)])
                && users == old(users) && posts == old(posts) && votes == old(votes)
    {
      if pid !in posts {
        r := Err(POST_NOT_FOUND);
        return;
      }
      var id := nextCommentId;
      comments := comments[id := Comment(content, pid, caller)];
      nextCommentId := nextCommentId + 1;
      assert id !in old(comments) && comments == old(comments)[id := Comment(content, pid, caller)];
      r := Ok("Comment added successfully");
    }

    /** `list_comments`: 404 for a missing post, otherwise exactly the
        comments on that post. */
    function ListComments(pid: nat): (r: Result<map<nat, Comment>>)
      reads this
      ensures pid !in posts ==> r == Err(POST_NOT_FOUND)
      ensures pid in posts ==>
                && r.Ok?
                && (forall c :: c in r.value <==> c in comments && comments[c].postId == pid)
                && (forall c :: c in r.value ==> r.value[c] == comments[c])
    {
      if pid !in posts then Err(POST_NOT_FOUND) else Ok(CommentsOn(comments, pid))
    }

    /** `update_comment`: only the author of an existing comment may change
        it, and only its content changes. */
    method UpdateComment(caller: nat, cid: nat, content: string) returns (r: Result<nat>)
      requires Valid() && caller in users
      modifies this
      ensures Valid()
      ensures !(cid in old(comments) && old(comments)[cid].authorId == caller) ==>
                r == Err(COMMENT_NOT_FOUND_OR_UNAUTHORIZED) && Tables() == old(Tables())
      ensures cid in old(comments) && old(comments)[cid].authorId == caller ==>
                && r == Ok(cid)
                && comments == old(comments)[cid := old(comments)[cid].(content := content)]
                && users == old(users) && posts == old(posts) && votes == old(votes)
    {
      if !(cid in comments && comments[cid].authorId == caller) {
        r := Err(COMMENT_NOT_FOUND_OR_UNAUTHORIZED);
        return;
      }
      comments := comments[cid := comments[cid].(content := content)];
      r := Ok(cid);
    }

    /** `delete_comment`: only the author of an existing comment may delete
        it; that one comment goes. */
    method DeleteComment(caller: nat, cid: nat) returns (r: Result<string>)
      requires Valid() && caller in users
      modifies this
      ensures Valid()
      ensures !(cid in old(comments) && old(comments)[cid].authorId == caller) ==>
                r == Err(COMMENT_NOT_FOUND_FOR_USER) && Tables() == old(Tables())
      ensures cid in old(comments) && old(comments)[cid].authorId == caller ==>
                && r == Ok("Comment deleted successfully")
                && comments == old(comments) - {cid}
                && users == old(users) && posts == old(posts) && votes == old(votes)
    {
      if !(cid in comments && comments[cid].authorId == caller) {
        r := Err(COMMENT_NOT_FOUND_FOR_USER);
        return;
      }
      comments := comments - {cid};
      r := Ok("Comment deleted successfully");
    }

    /** `vote_action`: a missing post is 404 whatever the action; "vote" adds
        the caller's vote unless there is one (400); "unvote" removes it unless
        there is none (400); any other action is 400.  Every failure leaves the
        tables as they were. */
    method VoteAction(caller: nat, pid: nat, action: string) returns (r: Result<VoteResponse>)
      requires Valid() && caller in users
      modifies this
      ensures Valid()
      ensures r.Err? ==> Tables() == old(Tables())
      ensures r.Ok? ==> users == old(users) && posts == old(posts) && comments == old(comments)
      ensures pid !in old(posts) ==> r == Err(POST_NOT_FOUND)
      ensures pid in old(posts) && action == "vote" ==>
                if HasVoted(old(votes), pid, caller) then r == Err(ALREADY_VOTED)
                else
                  && r == Ok(VoteResponse(pid, caller, "voted successfully"))
                  && exists id: nat :: id !in old(votes) && votes == old(votes)[id := Vote(pid, caller)]
      ensures pid in old(posts) && action == "unvote" ==>
                if !HasVoted(old(votes), pid, caller) then r == Err(NOT_VOTED)
                else
                  && r == Ok(VoteResponse(pid, caller, "unvoted_successfully"))
                  && votes == RemoveVote(old(votes), pid, caller)
      ensures pid in old(posts) && action != "vote" && action != "unvote" ==> r == Err(INVALID_ACTION)
    {
      if pid !in posts {
        r := Err(POST_NOT_FOUND);
        return;
      }
      var existing := HasVoted(votes, pid, caller);
      if action == "vote" {
        if existing {
          r := Err(ALREADY_VOTED);
        } else {
          InsertVote(caller, pid);
          r := Ok(VoteResponse(pid, caller, "voted successfully"));
        }
      } else if action == "unvote" {
        if !existing {
          r := Err(NOT_VOTED);
        } else {
          DeleteVote(caller, pid);
          r := Ok(VoteResponse(pid, caller, "unvoted_successfully"));
        }
      } else {
        r := Err(INVALID_ACTION);
      }
    }

    /** `Vote.create(post=post, user=user)` for a pair without a vote. */
    method InsertVote(caller: nat, pid: nat)
      requires Valid() && caller in users && pid in posts && !HasVoted(votes, pid, caller)
      modifies this
      ensures Valid()
      ensures users == old(users) && posts == old(posts) && comments == old(comments)
      ensures exists id: nat :: id !in old(votes) && votes == old(votes)[id := Vote(pid, caller)]
    {
      var id := nextVoteId;
      AddVoteKeepsConsistent(Tables(), id, pid, caller);
      votes := votes[id := Vote(pid, caller)];
      nextVoteId := nextVoteId + 1;
      assert id !in old(votes) && votes == old(votes)[id := Vote(pid, caller)];
    }

    /** `existing_vote.delete()` for the one vote of the pair. */
    method DeleteVote(caller: nat, pid: nat)
      requires Valid() && HasVoted(votes, pid, caller)
      modifies this
      ensures Valid()
      ensures users == old(users) && posts == old(posts) && comments == old(comments)
      ensures votes == RemoveVote(old(votes), pid, caller)
    {
      var vid :| vid in votes && votes[vid] == Vote(pid, caller);
      RemoveVoteIsOneRow(votes, vid, pid, caller);
      votes := votes - {vid};
    }

    /** `get_comprehensive_post`: 404 for a missing post, otherwise the post
        with its comments and the number of votes on it. */
    function GetComprehensivePost(pid: nat): (r: Result<ComprehensivePost>)
      reads this
      ensures pid !in posts ==> r == Err(POST_NOT_FOUND)
      ensures pid in posts ==>
                && r.Ok? && r.value.id == pid
                && r.value.title == posts[pid].title && r.value.content == posts[pid].content
                && r.value.authorId == posts[pid].authorId
                && r.value.votesCount == VoteCount(votes, pid)
                && (forall c :: c in r.value.comments <==> c in comments && comments[c].postId == pid)
                && (forall c :: c in r.value.comments ==> r.value.comments[c] == comments[c])
    {
      if pid !in posts then Err(POST_NOT_FOUND)
      else
        var post := posts[pid];
        Ok(ComprehensivePost(pid, post.title, post.content, post.authorId,
                             VoteCount(votes, pid), CommentsOn(comments, pid)))
    }
  }
}
