/** The records of app/models/user.py and app/models/post.py, the table
    constraints they declare (a unique username, a unique (post, user) vote,
    foreign keys) and the deletions their cascades perform. */
module Models {
  import opened Common

  /** `UserRole`, declared identically in both model files. */
  datatype Role = Admin | Regular {
    /** The enum member's `.value`. */
    function Value(): string
    {
      match this
      case Admin => "admin"
      case Regular => "regular"
    }
  }

  /** The enum members in declaration order. */
  const ROLES: seq<Role> := [Admin, Regular]

  /** The column default of `User.role`. */
  const DEFAULT_ROLE: Role := Regular

  /** `UserRole.choices()`: the values of the members, in declaration order. */
  function Choices(): (r: seq<string>)
    ensures |r| == |ROLES|
    ensures forall i :: 0 <= i < |ROLES| ==> r[i] == ROLES[i].Value()
  {
    seq(|ROLES|, i requires 0 <= i < |ROLES| => ROLES[i].Value())
  }

  /** Reading a role back from its value; the inverse of `Role.Value`. */
  function RoleFromValue(s: string): (r: Option<Role>)
    ensures r.Some? ==> r.value.Value() == s
    ensures r.None? ==> forall role: Role :: role.Value() != s
  {
    if s == "admin" then Some(Admin)
    else if s == "regular" then Some(Regular)
    else None
  }

  /** The choices are exactly "admin" then "regular", and each names one role. */
  lemma ChoicesAreTheTwoRoles()
    ensures Choices() == ["admin", "regular"]
    ensures forall s :: s in Choices() <==> RoleFromValue(s).Some?
    ensures forall role: Role :: RoleFromValue(role.Value()) == Some(role)
  {
    assert Choices()[0] == "admin" && Choices()[1] == "regular";
  }

  /** A row of `users`; `password` holds the stored hash. */
  datatype User = User(username: string, password: string, role: Role)

  /** A row of `posts`. */
  datatype Post = Post(title: string, content: string, authorId: nat)

  /** A row of `comments`. */
  datatype Comment = Comment(content: string, postId: nat, authorId: nat)

  /** A row of `votes`. */
  datatype Vote = Vote(postId: nat, userId: nat)

  /** The four tables, each keyed by its primary key `id`. */
  datatype Db = Db(
    users: map<nat, User>,
    posts: map<nat, Post>,
    comments: map<nat, Comment>,
    votes: map<nat, Vote>)

  /** `unique=True` on `User.username`. */
  ghost predicate UniqueUsernames(users: map<nat, User>)
  {
    forall a, b {:trigger NameOf(users, a), NameOf(users, b)} ::
      a in users && b in users && NameOf(users, a) == NameOf(users, b) ==> a == b
  }

  /** The username stored in row `id`. */
  function NameOf(users: map<nat, User>, id: nat): string
    requires id in users
  {
    users[id].username
  }

  /** The `unique_post_user_vote` constraint on (post_id, user_id). */
  ghost predicate UniqueVotes(votes: map<nat, Vote>)
  {
    forall a, b :: a in votes && b in votes && votes[a] == votes[b] ==> a == b
  }

  /** Every table constraint: unique usernames, unique votes, and every
      foreign key (`author_id`, `post_id`, `user_id`) naming a stored row. */
  ghost predicate Consistent(db: Db)
  {
    && UniqueUsernames(db.users)
    && UniqueVotes(db.votes)
    && (forall p :: p in db.posts ==> db.posts[p].authorId in db.users)
    && (forall c :: c in db.comments ==> db.comments[c].postId in db.posts && db.comments[c].authorId in db.users)
    && (forall v :: v in db.votes ==> db.votes[v].postId in db.posts && db.votes[v].userId in db.users)
  }

  predicate UsernameTaken(users: map<nat, User>, name: string)
  {
    exists id :: id in users && users[id].username == name
  }

  /** `db.query(User).filter(User.username == name).first()`, as a user id. */
  function UserByName(users: map<nat, User>, name: string): (r: Option<nat>)
    requires UniqueUsernames(users)
    ensures r.Some? <==> UsernameTaken(users, name)
    ensures r.Some? ==> r.value in users && users[r.value].username == name
    ensures forall id :: id in users && NameOf(users, id) == name ==> r == Some(id)
  {
    if UsernameTaken(users, name) then
      var id :| id in users && NameOf(users, id) == name; Some(id)
    else None
  }

  /** Deleting post `pid`: the `comments` and `votes` relationships of Post
      cascade, so the post's comments and votes go with it. */
  function DeletePostCascade(db: Db, pid: nat): (r: Db)
    ensures r.users == db.users
    ensures r.posts == db.posts - {pid}
    ensures forall c :: c in r.comments ==> c in db.comments && r.comments[c] == db.comments[c] && r.comments[c].postId != pid
    ensures forall v :: v in r.votes ==> v in db.votes && r.votes[v] == db.votes[v] && r.votes[v].postId != pid
    ensures forall c :: c in db.comments && db.comments[c].postId != pid ==> c in r.comments
    ensures forall v :: v in db.votes && db.votes[v].postId != pid ==> v in r.votes
  {
    Db(db.users,
       db.posts - {pid},
       map c | c in db.comments && db.comments[c].postId != pid :: db.comments[c],
       map v | v in db.votes && db.votes[v].postId != pid :: db.votes[v])
  }

  /** Deleting user `uid`: the `posts`, `comments` and `votes` relationships of
      User cascade, and the deleted posts cascade to their own comments and
      votes. */
  function DeleteUserCascade(db: Db, uid: nat): (r: Db)
    ensures r.users == db.users - {uid}
    ensures forall p :: p in r.posts ==> p in db.posts && r.posts[p] == db.posts[p] && r.posts[p].authorId != uid
    ensures forall c :: c in r.comments ==>
              c in db.comments && r.comments[c] == db.comments[c] && r.comments[c].authorId != uid && r.comments[c].postId in r.posts
    ensures forall v :: v in r.votes ==>
              v in db.votes && r.votes[v] == db.votes[v] && r.votes[v].userId != uid && r.votes[v].postId in r.posts
    ensures forall p :: p in db.posts && db.posts[p].authorId != uid ==> p in r.posts
    ensures forall c :: c in db.comments && db.comments[c].authorId != uid && db.comments[c].postId in r.posts ==> c in r.comments
    ensures forall v :: v in db.votes && db.votes[v].userId != uid && db.votes[v].postId in r.posts ==> v in r.votes
  {
    var posts := map p | p in db.posts && db.posts[p].authorId != uid :: db.posts[p];
    Db(db.users - {uid},
       posts,
       map c | c in db.comments && db.comments[c].authorId != uid && db.comments[c].postId in posts :: db.comments[c],
       map v | v in db.votes && db.votes[v].userId != uid && db.votes[v].postId in posts :: db.votes[v])
  }

  /** Adding a user whose name is not taken keeps the names unique. */
  lemma AddUserKeepsUnique(users: map<nat, User>, id: nat, u: User)
    requires UniqueUsernames(users) && id !in users && !UsernameTaken(users, u.username)
    ensures UniqueUsernames(users[id := u])
  {
    var r := users[id := u];
    forall x, y | x in r && y in r && NameOf(r, x) == NameOf(r, y) ensures x == y {
      if x != id && y != id {
        assert NameOf(users, x) == NameOf(r, x) && NameOf(users, y) == NameOf(r, y);
      }
    }
  }

  /** Every row of `b` is the row of `a` with the same key. */
  ghost predicate SubTable<T>(b: map<nat, T>, a: map<nat, T>)
  {
    forall k :: k in b ==> k in a && b[k] == a[k]
  }

  /** Every table of `r` is a sub-table of the same table of `db`. */
  ghost predicate SubDb(r: Db, db: Db)
  {
    SubTable(r.users, db.users) && SubTable(r.posts, db.posts)
    && SubTable(r.comments, db.comments) && SubTable(r.votes, db.votes)
  }

  /** Every key of `m` is below `n`. */
  ghost predicate KeysBelow<T>(m: map<nat, T>, n: nat)
  {
    forall k :: k in m ==> k < n
  }

  lemma SubTableKeysBelow<T>(b: map<nat, T>, a: map<nat, T>, n: nat)
    requires SubTable(b, a) && KeysBelow(a, n)
    ensures KeysBelow(b, n)
  {
  }

  lemma SubTableKeepsUniqueUsernames(b: map<nat, User>, a: map<nat, User>)
    requires UniqueUsernames(a) && SubTable(b, a)
    ensures UniqueUsernames(b)
  {
    forall x, y | x in b && y in b && NameOf(b, x) == NameOf(b, y) ensures x == y {
      assert NameOf(a, x) == NameOf(b, x) && NameOf(a, y) == NameOf(b, y);
    }
  }

  lemma SubTableKeepsUniqueVotes(b: map<nat, Vote>, a: map<nat, Vote>)
    requires UniqueVotes(a) && SubTable(b, a)
    ensures UniqueVotes(b)
  {
    forall x, y | x in b && y in b && b[x] == b[y] ensures x == y {
      assert a[x] == b[x] && a[y] == b[y];
    }
  }

  /** The cascades only remove rows. */
  lemma DeletePostShrinks(db: Db, pid: nat)
    ensures SubDb(DeletePostCascade(db, pid), db)
  {
  }

  lemma DeleteUserShrinks(db: Db, uid: nat)
    ensures SubDb(DeleteUserCascade(db, uid), db)
  {
  }

  /** Deleting a post leaves no comment or vote pointing at it. */
  lemma DeletePostKeepsConsistent(db: Db, pid: nat)
    requires Consistent(db)
    ensures Consistent(DeletePostCascade(db, pid))
  {
    var r := DeletePostCascade(db, pid);
    SubTableKeepsUniqueVotes(r.votes, db.votes);
    DeletePostKeepsReferences(db, pid);
  }

  /** After deleting a post every remaining foreign key still names a row. */
  lemma DeletePostKeepsReferences(db: Db, pid: nat)
    requires Consistent(db)
    ensures var r := DeletePostCascade(db, pid);
            && (forall p :: p in r.posts ==> r.posts[p].authorId in r.users)
            && (forall c :: c in r.comments ==> r.comments[c].postId in r.posts && r.comments[c].authorId in r.users)
            && (forall v :: v in r.votes ==> r.votes[v].postId in r.posts && r.votes[v].userId in r.users)
  {
  }

  /** Deleting a user leaves no post, comment or vote pointing at the user or
      at one of the user's posts. */
  lemma DeleteUserKeepsConsistent(db: Db, uid: nat)
    requires Consistent(db)
    ensures Consistent(DeleteUserCascade(db, uid))
  {
    var r := DeleteUserCascade(db, uid);
    SubTableKeepsUniqueUsernames(r.users, db.users);
    SubTableKeepsUniqueVotes(r.votes, db.votes);
    DeleteUserKeepsReferences(db, uid);
  }

  /** After deleting a user every remaining foreign key still names a row. */
  lemma DeleteUserKeepsReferences(db: Db, uid: nat)
    requires Consistent(db)
    ensures var r := DeleteUserCascade(db, uid);
            && (forall p :: p in r.posts ==> r.posts[p].authorId in r.users)
            && (forall c :: c in r.comments ==> r.comments[c].postId in r.posts && r.comments[c].authorId in r.users)
            && (forall v :: v in r.votes ==> r.votes[v].postId in r.posts && r.votes[v].userId in r.users)
  {
  }

  /** `Vote.get_or_none(post=post, user=user)` finds a row. */
  predicate HasVoted(votes: map<nat, Vote>, pid: nat, uid: nat)
  {
    exists v :: v in votes && votes[v] == Vote(pid, uid)
  }

  /** The table after the vote of `uid` on `pid` is deleted. */
  function RemoveVote(votes: map<nat, Vote>, pid: nat, uid: nat): (r: map<nat, Vote>)
    ensures !HasVoted(r, pid, uid)
    ensures r.Keys <= votes.Keys
    ensures forall v :: v in r ==> r[v] == votes[v]
    ensures forall v :: v in votes && votes[v] != Vote(pid, uid) ==> v in r && r[v] == votes[v]
  {
    map v | v in votes && votes[v] != Vote(pid, uid) :: votes[v]
  }

  /** Under the unique constraint, the vote of `uid` on `pid` is one row, so
      removing the pair removes exactly that row. */
  lemma RemoveVoteIsOneRow(votes: map<nat, Vote>, vid: nat, pid: nat, uid: nat)
    requires UniqueVotes(votes) && vid in votes && votes[vid] == Vote(pid, uid)
    ensures RemoveVote(votes, pid, uid) == votes - {vid}
  {
  }

  /** Adding a vote for a pair that has none keeps the (post, user) pairs
      unique. */
  lemma AddVoteKeepsUnique(votes: map<nat, Vote>, id: nat, pid: nat, uid: nat)
    requires UniqueVotes(votes) && id !in votes && !HasVoted(votes, pid, uid)
    ensures UniqueVotes(votes[id := Vote(pid, uid)])
  {
  }

  /** A first vote by a stored user on a stored post keeps every table
      constraint. */
  lemma AddVoteKeepsConsistent(db: Db, id: nat, pid: nat, uid: nat)
    requires Consistent(db) && id !in db.votes && pid in db.posts && uid in db.users
    requires !HasVoted(db.votes, pid, uid)
    ensures Consistent(Db(db.users, db.posts, db.comments, db.votes[id := Vote(pid, uid)]))
  {
    AddVoteKeepsUnique(db.votes, id, pid, uid);
  }

  /** The ids of the votes cast on `pid`. */
  function VotesOn(votes: map<nat, Vote>, pid: nat): set<nat>
  {
    set v | v in votes && votes[v].postId == pid
  }

  /** `Vote.filter(post=post).count()`: zero exactly when no vote row is on
      `pid`. */
  function VoteCount(votes: map<nat, Vote>, pid: nat): (n: nat)
    ensures n == 0 <==> forall v :: v in votes ==> votes[v].postId != pid
  {
    var ids := VotesOn(votes, pid);
    assert forall v :: v in votes && votes[v].postId == pid ==> v in ids;
    assert ids != {} ==> exists v :: v in ids;
    |ids|
  }

  /** Voting and then unvoting leaves the votes table as it was. */
  lemma VoteThenUnvote(votes: map<nat, Vote>, id: nat, pid: nat, uid: nat)
    requires id !in votes && !HasVoted(votes, pid, uid)
    ensures RemoveVote(votes[id := Vote(pid, uid)], pid, uid) == votes
  {
    var r := RemoveVote(votes[id := Vote(pid, uid)], pid, uid);
    forall v | v in votes ensures v in r && r[v] == votes[v] {
      assert votes[v] != Vote(pid, uid);
    }
  }

  /** A new vote on `pid` adds one to that post's count and no other. */
  lemma AddVoteCount(votes: map<nat, Vote>, id: nat, pid: nat, uid: nat, q: nat)
    requires id !in votes
    ensures VoteCount(votes[id := Vote(pid, uid)], q) == VoteCount(votes, q) + (if q == pid then 1 else 0)
  {
    var after := VotesOn(votes[id := Vote(pid, uid)], q);
    if q == pid {
      assert after == VotesOn(votes, q) + {id};
    } else {
      assert after == VotesOn(votes, q);
    }
  }

  /** Removing the vote of `uid` on `pid` takes one from that post's count when
      there was such a vote, and changes no other count. */
  lemma RemoveVoteCount(votes: map<nat, Vote>, pid: nat, uid: nat, q: nat)
    requires UniqueVotes(votes)
    ensures VoteCount(RemoveVote(votes, pid, uid), q)
            == VoteCount(votes, q) - (if q == pid && HasVoted(votes, pid, uid) then 1 else 0)
  {
    var after := VotesOn(RemoveVote(votes, pid, uid), q);
    if q == pid && HasVoted(votes, pid, uid) {
      var id :| id in votes && votes[id] == Vote(pid, uid);
      assert after == VotesOn(votes, q) - {id};
    } else {
      assert after == VotesOn(votes, q);
    }
  }
}
