# Blog backend core in Dafny

A model of the decision logic of a small FastAPI blog backend. Users register
and log in with a password and get a JWT bearer token. They create posts,
comment on posts and vote on posts.

The model covers three parts:

- **The pager** (`Pagination`). It turns a page number and a page size into an
  OFFSET/LIMIT window over an ordered query result. It also reports the slice
  length, the total count and the page count (an exact integer ceiling).
- **Tokens and guards** (`AuthUtils`, `Permission`). These cover the claims
  a login token is signed over, the mapping of decode errors, the resolution
  of the current user, parsing of the `Authorization: Bearer <token>` header,
  and the admin and regular role guards.
- **The tables and handlers** (`Models`, `Routers`). The users, posts,
  comments and votes tables live in one `Store` class. It has the handlers
  of the auth and post routers, the table constraints as its invariant
  `Valid()`, and the cascading deletions.

`Scenarios` connects the parts. A token issued by `login` resolves back to the
user who logged in, and it passes exactly the guard of that user's role until
it expires.

Argon2 hashing and JWT signing are foreign libraries. They enter the model as
function values (`Hasher`, `Jwt`) passed as parameters. What the model relies
on about them is written as predicates and used only as hypotheses: as
preconditions, or as the premise of `CreateAccessToken`'s ensures:

- `Verifies`: a password verifies against its own hash.
- `Sound`: a token decodes to exactly the claims it was made from until its
  `exp` passes, and fails to decode after that.

The clock is an integer parameter `now`, in seconds. The hash salt is a
parameter too.

Three behaviours of the code are easy to misread. The model follows the code:

- `is_admin` and `is_regular_user` answer 403 for every failure. That includes
  a token that does not decode. `decode_access_token` raises 401 "Invalid
  token" (app/utils/auth.py:55-56), but the guards' broad `except Exception`
  (app/permission.py:27-28 and :43-44) turns it into 403.
- `register` never uses the role in the request (app/routers/auth.py:18).
  Every new user gets the column default, `regular`.
- Both guards treat a missing `role` claim like a wrong role (403), because
  `decoded.get("role")` gives `None` (app/permission.py:24 and :38).

## Model

| member | source | states |
|---|---|---|
| Pagination.Window | app/utils/pagination.py:16-19 | OFFSET/LIMIT gives at most `limit` rows, and no rows past the end. Row i of the window is row offset+i of the query. |
| Pagination.CeilDiv | app/utils/pagination.py:22 | The page count n satisfies n·size ≥ total and (n−1)·size < total. It is 0 when total is 0. |
| Pagination.CeilDivIsLeast | app/utils/pagination.py:22 | The page count is the least n with n·size ≥ total. |
| Pagination.Offset | app/utils/pagination.py:15 | The offset of page n is (n − 1)·page_size. It has no contract of its own: OffsetNonNegative, OffsetNext and OffsetMonotone state its properties. |
| Pagination.OffsetNonNegative | app/utils/pagination.py:15 | For page number ≥ 1 and page size ≥ 0 the offset is never negative. |
| Pagination.OffsetNext | app/utils/pagination.py:15 | Page k + 1 starts exactly one page size after page k. |
| Pagination.OffsetMonotone | app/utils/pagination.py:15 | A later page never starts before an earlier one. |
| Pagination.WindowExtendsPrefix | app/utils/pagination.py:16-19 | The rows before a window followed by the window are the rows before the window's end. |
| Pagination.PastLastPageOffset | app/utils/pagination.py:15-22 | A page number above the page count gives an offset at or past the last row. |
| Pagination.PageData | app/utils/pagination.py:15-19 | A page's rows are the rows from offset (page−1)·size on, at most size of them. |
| Pagination.Paginate | app/utils/pagination.py:7-31 | current_result equals the slice length. That length is at most page_size and exactly min(size, max(0, total − offset)). total_result is the full count, the requested page number is returned as given, and total_page_number is the ceiling, the least count whose pages hold every row. |
| Pagination.PagesUpToIsPrefix | app/utils/pagination.py:15-19 | Pages 1..k, concatenated in order, are exactly the rows before the offset of page k + 1, that is the first k·size rows. |
| Pagination.PagesCoverAll | app/utils/pagination.py:15-22 | Pages 1..total_page_number, concatenated in order, give back the whole sequence. |
| Pagination.PagesDisjoint | app/utils/pagination.py:15-19 | Two different pages never show the same row position. Every row of page i comes before every row of a later page j. |
| Pagination.PastLastPage | app/utils/pagination.py:15-30 | A page beyond the last page is empty, not an error. It echoes the requested page number and carries the same totals. |
| Pagination.TwentyFiveRowsPageThree | app/utils/pagination.py:15-22 | With 25 rows, page 3 of size 10 has offset 20, holds the last 5 rows, and there are 3 pages. |
| Models.Choices | app/models/post.py:22-24 | `choices()` lists the value of each role in declaration order. |
| Models.RoleFromValue | app/models/user.py:18-20 | This inverts `Role.Value`. Only the two role values name a role. |
| Models.ChoicesAreTheTwoRoles | app/models/post.py:18-24 | The choices are exactly ["admin", "regular"]. Each choice names a role, and every role reads back from its value. |
| Models.UsernameTaken | app/routers/auth.py:15 | Some stored user has this username. It is a definition, with no contract; UserByName's contract ties it to the lookup of app/routers/auth.py:15 and :28. |
| Models.Consistent | app/models/post.py:34-36 | The table constraints: unique usernames (app/models/user.py:27), one vote per (post, user) pair (app/models/post.py:76), and every `author_id`, `post_id` and `user_id` naming a stored row (app/models/post.py:34-36, 50-55, 66-71). It is a definition. Every state-changing handler ensures it again through `Store.Valid`; the Keeps lemmas supply the steps for register, the two cascades and voting. |
| Models.UserByName | app/models/user.py:27 | With unique usernames, the lookup finds the one user with that name, or reports that no user has it. |
| Models.DeletePostCascade | app/models/post.py:41-42 | Deleting a post removes it with all its comments and votes and keeps every other row unchanged. |
| Models.DeleteUserCascade | app/models/user.py:32-34 | Deleting a user removes the user and their posts. It removes every comment and vote by them or on their posts, and keeps every other row unchanged. |
| Models.DeletePostKeepsConsistent | app/models/post.py:41-42 | Deleting a post keeps unique usernames, unique votes and every foreign key pointing at a stored row. |
| Models.DeleteUserKeepsConsistent | app/models/user.py:32-34 | Deleting a user keeps unique usernames, unique votes and every foreign key pointing at a stored row. |
| Models.DeletePostShrinks | app/models/post.py:41-42 | The post cascade only removes rows: every remaining row is the old row under the same id. |
| Models.DeleteUserShrinks | app/models/user.py:32-34 | The user cascade only removes rows: every remaining row is the old row under the same id. |
| Models.AddUserKeepsUnique | app/models/user.py:27 | Adding a user whose name no stored user has keeps usernames unique. |
| Models.AddVoteKeepsConsistent | app/models/post.py:66-76 | A first vote by a stored user on a stored post keeps every table constraint. |
| Models.HasVoted | app/routers/post.py:146 | `get_or_none(post=post, user=user)` finds a row: some vote row holds exactly this (post, user) pair. It is a definition, with no contract. |
| Models.RemoveVote | app/routers/post.py:157 | After unvoting, the pair has no vote. Every row left is the old row under the same id, and every other vote is still there. |
| Models.RemoveVoteIsOneRow | app/models/post.py:76 | Under the unique (post, user) constraint, removing the pair's vote removes exactly the one row found. |
| Models.AddVoteKeepsUnique | app/models/post.py:76 | Adding a vote for a pair without one keeps the (post, user) pairs unique. |
| Models.VoteThenUnvote | app/routers/post.py:146-157 | Voting and then unvoting restores the original votes table. |
| Models.VoteCount | app/routers/post.py:184 | A post's vote count is the number of vote rows on it. It is zero exactly when no vote row is on that post. |
| Models.AddVoteCount | app/routers/post.py:151 | A new vote adds one to that post's vote count and changes no other post's count. |
| Models.RemoveVoteCount | app/routers/post.py:157 | Unvoting takes one from that post's count if a vote existed. It changes no other count. |
| AuthUtils.ExpireMinutes | app/utils/auth.py:17 | The token lifetime is the configured value, or 300 minutes when unset. `CreateAccessToken`, and so `Login`, take the lifetime from it. |
| AuthUtils.TokenClaims | app/utils/auth.py:41-43 | The signed claims are the caller's claims with `exp` set to now + minutes·60. `exp` is added or replaced, and every other key and value is kept. |
| AuthUtils.DecodeAccessToken | app/utils/auth.py:48-56 | The result is the payload exactly when the JWT decodes. Otherwise it is 401 "Invalid token", never a partial payload. |
| AuthUtils.CreateAccessToken | app/utils/auth.py:37-45 | The token is signed over the caller's claims with `exp` set from the `ACCESS_TOKEN_EXPIRE_MINUTES` setting (300 when unset). Under a sound signer and a non-negative lifetime it decodes, when issued, to exactly those claims. |
| AuthUtils.CreatedTokenDecodes | app/utils/auth.py:37-56 | A created token decodes to the caller's claims plus `exp` until it expires. After that it is 401. |
| AuthUtils.GetCurrentUser | app/utils/auth.py:59-68 | A decode failure is 401 "Invalid token". An empty payload is 401 "Authentication Required or Invalid Token". A missing `sub` is a KeyError (500). A `sub` naming no user is 404. Otherwise the result is the user whose username is `sub`. |
| Permission.Split | app/permission.py:15 | str.split(" ") gives at least one field, and no field contains the separator. |
| Permission.JoinSplit | app/permission.py:15 | Joining the fields of a split with the separator gives back the original string. |
| Permission.SplitLeadingField | app/permission.py:15 | A separator-free word followed by the separator splits off as the first field. |
| Permission.FirstField | app/permission.py:15 | The first field of a split is the longest prefix without the separator. |
| Permission.GetTokenFromRequest | app/permission.py:6-15 | A missing or empty header, or one without the "Bearer " prefix, is 401 "Authorization token missing or invalid". Otherwise the token is the text after the prefix up to the next space. It is never an error, and the token contains no space. |
| Permission.DoubleSpaceGivesEmptyToken | app/permission.py:15 | "Bearer  x" yields the empty token. |
| Permission.RequireRole | app/permission.py:22-28 | The guard passes iff the token decodes and its `role` claim is exactly the expected string. Every failure is 403 "Invalid token or access forbidden". |
| Permission.IsAdmin | app/permission.py:18-29 | It passes iff the token decodes with role "admin". A decode error, a missing role or a wrong role are all 403. |
| Permission.IsRegularUser | app/permission.py:32-45 | It passes iff the token decodes with role "regular". Every other outcome is 403. |
| Permission.UndecodableTokenIsForbidden | app/permission.py:27-28 | A token that fails to decode is 401 from the decoder but 403 from both guards. |
| Permission.GuardsExclusive | app/permission.py:25 | No token passes both the admin guard and the regular guard. |
| Routers.LoginClaims | app/routers/auth.py:36 | The login token's claims are exactly `sub` (the username) and `role` (the role's value). |
| Routers.PostCurrentUser | app/routers/post.py:20-24 | This agrees with the utils resolver, except where that one answers 404. A `sub` that names no user, or that is not a string, raises an uncaught exception here, so it is 500. A payload without `sub` is 500 in both. |
| Routers.CommentsOn | app/routers/post.py:102 | The comments of a post: a comment is included exactly when its `post_id` is that post, with its row unchanged. The same query is at app/routers/post.py:171. |
| Routers.Store.Valid | app/models/post.py:34-36 | The store's invariant: `Consistent` holds for its tables, and every id in a table is below that table's next id. It is a definition. Every state-changing handler requires and ensures it, and two read-only handlers require it: `Login`, for the unique-username lookup, and `GetPost`, for the author lookup. No read-only function ensures it. |
| Routers.Store.constructor | app/main.py:10-11 | The tables start empty, and the invariant `Valid` holds. |
| Routers.Store.Register | app/routers/auth.py:13-22 | A taken username is 400 and changes nothing. Otherwise exactly one user is added, with the hash of the password and role `regular`. The other tables are unchanged, and usernames stay unique. |
| Routers.Store.Login | app/routers/auth.py:25-37 | An unknown username is 404 "User not found". Next, a failed password check is 401 "Authentication Failed". Otherwise the result is a Bearer token over that user's claims. |
| Routers.Store.GetAllUsers | app/routers/auth.py:40-44 | It returns every stored user, as id and username only. |
| Routers.Store.GetUser | app/routers/auth.py:47-51 | An unknown id gives no user, not an error. A known id gives that user. |
| Routers.Store.DeleteUser | app/routers/auth.py:54-61 | An unknown id is 404 and changes nothing. Otherwise the tables become the user-deletion cascade of the old tables. |
| Routers.Store.CreatePost | app/routers/post.py:28-31 | It adds one new post with the given title and content, authored by the caller. Nothing else changes. |
| Routers.Store.GetPost | app/routers/post.py:41-54 | A missing post is 404. Otherwise it returns the post's fields and its author's username. |
| Routers.Store.UpdatePost | app/routers/post.py:57-68 | A post that is missing or not the caller's is 404 and changes nothing. Otherwise only that post's title and content change. |
| Routers.Store.DeletePost | app/routers/post.py:72-78 | A post that is missing or not the caller's is 404 and changes nothing. Otherwise the tables become the post-deletion cascade. |
| Routers.Store.CommentOnPost | app/routers/post.py:82-92 | A missing post is 404 and changes nothing. Otherwise exactly one comment by the caller on that post is added. |
| Routers.Store.ListComments | app/routers/post.py:96-111 | A missing post is 404. Otherwise it returns exactly the comments whose post is that post. |
| Routers.Store.UpdateComment | app/routers/post.py:115-125 | A comment that is missing or not the caller's is 404 and changes nothing. Otherwise only that comment's content changes. |
| Routers.Store.DeleteComment | app/routers/post.py:129-136 | A comment that is missing or not the caller's is 404 and changes nothing. Otherwise exactly that comment is removed. |
| Routers.Store.VoteAction | app/routers/post.py:140-161 | A missing post is 404, whatever the action. "vote" adds exactly the pair, or is 400 if a vote exists. "unvote" removes exactly the pair, or is 400 if none exists. Any other action is 400. Every failure changes nothing. |
| Routers.Store.InsertVote | app/routers/post.py:151 | It adds one fresh vote row for (post, caller) and keeps the pairs unique. |
| Routers.Store.DeleteVote | app/routers/post.py:157 | It removes the caller's one vote on the post and nothing else. |
| Routers.Store.GetComprehensivePost | app/routers/post.py:165-195 | A missing post is 404. Otherwise it returns the post, exactly its comments, and votes_count, the number of votes on that post. |
| Scenarios.LoginTokenClaims | app/routers/auth.py:36 | A login token's decoded claims are non-empty, name the user in `sub`, and carry the user's role. |
| Scenarios.LoginTokenIdentifiesUser | app/utils/auth.py:59-68 | Before expiry, a login token resolves in both resolvers to the user who logged in. It passes the admin guard iff that user is an admin, and the regular guard iff the user is regular. |
| Scenarios.ExpiredLoginToken | app/utils/auth.py:52-56 | After expiry, a login token is 401 to the resolver and 403 to both guards. |
| Scenarios.AliceLogsIn | app/routers/auth.py:13-37 | In a new store, "alice" registers and logs in. A wrong password is 401. Her token is 403 at the admin guard and passes the regular guard. |

## Left out

- AuthUtils.Sound: it over-approximates the JWT decoder for claim sets the program never signs. python-jose would reject a non-string `sub`, an `aud` claim when no audience is given, or a future `nbf`, but `Sound` promises a round trip for every claim set. So `CreatedTokenDecodes` for arbitrary `data` holds of the model, not of the library. `login` signs only a string `sub` and `role`, so no property of the login path depends on this.
- Password hashing and JWT signing and verification are foreign libraries. They are the function values `Hasher` and `Jwt`. Their assumed behaviour (`Verifies`, `Sound`) is a precondition of the lemmas that use it. The scenario that tries a wrong password requires only that this one password does not verify against the stored hash: Argon2 digests have collisions, so rejecting every other password is not assumed.
- `verify_password` raising on a malformed stored hash is not modelled. Every stored hash is made by `hash`, and verification is a plain boolean.
- The clock is an integer `now` in seconds. The `created_at`/`updated_at` timestamps, and their fields in the responses, are omitted.
- `ceil(total_result / page_size)` uses a float division. The model uses the exact integer ceiling, so float rounding at huge counts is not modelled.
- Reading the environment and `int(...)` parsing of `ACCESS_TOKEN_EXPIRE_MINUTES` are not modelled. `ExpireMinutes` takes the already-parsed setting.
- The handlers in app/routers/post.py get the resolved caller's id. `Depends(get_current_user)` dependency injection and HTTP routing are not modelled. The resolver itself is `PostCurrentUser`.
- Which ORM exception propagates is not modelled. Any uncaught exception becomes 500.
- The handlers and both resolvers are given the table meaning their ORM and session calls were meant to have. As written, none of those calls can run, and each raises before any table is read or changed, so the framework answers 500:
  - app/routers/post.py imports the SQLAlchemy declarative classes of app/models/post.py and app/models/user.py, then calls Tortoise class methods on them (`User.get`, `Post.create`, `get_or_none`, `filter`, `Vote.create`). Those classes have no such methods (AttributeError).
  - app/routers/auth.py and app/utils/auth.py:64 call `db.query`, but `get_db` (app/database.py:10-12) yields an `AsyncSession`, which has no `query`.
  - app/models/user.py and app/models/post.py import `Base` from app.database, which does not define it, so the model modules themselves fail to import.
- `list_post` (app/routers/post.py:35-37) returns the posts table as it is. With nothing to decide, it has no member.
- Query results whose order the code leaves to the database (all users, a post's comments) are sets and maps keyed by id, so their order is not modelled.
- Primary keys come from per-table counters. That gives the database's "a new row gets an unused id", but not SQLite's exact id reuse.
- The 100-character title bound is declared on the column. Neither SQLite nor the request schema enforces it, so the model does not bound titles.
- Request and response schema validation and serialisation are not modelled. This includes 422 answers for malformed bodies and the `author` / `author_id` key mismatch in `list_comments`.
- Database sessions, migrations, app wiring, async plumbing and concurrency between handlers are not modelled. One example is two concurrent registrations of the same username.
- Routers.Store.Register: states which hash is stored, not that it differs from the plaintext. The hash function is abstract.
- AuthUtils.GetCurrentUser: a `sub` claim that is not a string matches no user (404). The JWT library would already reject such a token.
