# Secret playlists API — a Dafny model

This project models the request-handling core of a small REST backend for music
playlists: registration and login, playlists with a per-user quota of secret
playlists, sharing a playlist with other users, adding songs to playlists, searching
songs, and the bearer-token middleware that guards every playlist and song endpoint.

The database is an object (`Handlers.Store`) holding the users, playlists and songs as
maps keyed by their auto-incremented ids, and the share and playlist-song join tables
as sequences of rows. Each HTTP handler of `index.js` is a method on it that returns
the status code (and the response payload where one matters) and updates the tables.
Its contract gives the status as the ordered chain of checks the handler makes
(400, then 404, then 403, and so on), the new contents of every table, and "nothing
changed" on every error path. The store's `Valid()` invariant holds the uniqueness
rules the handlers enforce: unique e-mails, one song per (name, artist), one share row
per (playlist, user), and one link row per (playlist, song). It also requires every
row reference to point at an existing row.

The pure parts are functions: the read-access rule (creator or shared-with user), the
secret-playlist count, the projections `.map(ps => ps.song)` and
`.map(u => u.user.email)`, and the song-search filter (case-insensitive substring per
supplied filter). `auth.js` becomes a token-extraction function (`split(' ')[1]`,
truthy), a decision function, and a middleware method that sets `req.user` on a
`Request` object.

JWT signing and verification, and bcrypt hashing and comparison, are passed in as
function parameters (`sign`, `verify`, `hash`, `compare`). Nothing is assumed about
them except in `Auth.LoginTokenAuthenticates`, which requires two things of the
freshly signed token: it is non-empty and contains no space (true of a compact JWT,
base64url parts joined by dots), so `split(' ')[1]` returns it whole; and verifying
it gives back its claims.

Files: `common.dfy` (Option, JavaScript truthiness, row filter), `text.dfy` (split and
join on a separator, ASCII lower-casing, substring search), `schema.dfy` (records and
pure decisions of `index.js`), `store.dfy` (the handlers), `auth.dfy` (the
middleware), `scenario.dfy` (request sequences checked against the contracts alone:
sharing with B and not with C; the tenth secret playlist created, the eleventh
refused, then an update taking the owner to eleven).

Points where the code does something a reader of the API might not expect, all
modelled as written:
- Adding a song checks no ownership, although every other handler that changes a
  playlist lets only its creator do so.
- The scheme word of the Authorization header is never checked, although section 2.1
  of RFC 6750 expects `Bearer <token>`.
- The shared-users endpoint answers 404, not 403, to a non-owner, because its query
  filters on the playlist's creator.
- Updating a playlist does not re-check the secret quota. `Scenarios.QuotaScenario`
  reaches eleven secret playlists this way.

## Model

| member | source | states |
|---|---|---|
| `Text.Split` | auth.js:8 | `split(' ')` yields at least one field, no field contains a space, and joining the fields with single spaces gives back the header (round trip with `Join`) |
| `Text.SplitWithoutSeparator` | auth.js:8 | a header without a space splits into itself alone, so it has no second field |
| `Text.SplitAfterFirst` | auth.js:8 | the text before the first space is exactly the first field, and the rest splits independently |
| `Text.IsInfixIffOccurs` | index.js:548-549 | the `contains` test holds exactly when the needle occurs at some position of the field |
| `Schema.SongMatchesIffOccurs` | index.js:545-552 | a song matches the search exactly when each truthy filter, lower-cased, occurs in the lower-cased field; an absent or empty filter matches everything |
| `Schema.CanRead` | index.js:214-218 | read access to a playlist: the requester is its creator or has a share row for it (the same rule at index.js:411-420) |
| `Schema.ShareGrantsReadToTargetOnly` | index.js:476-481 | appending a share row for a user makes that user able to read the playlist and changes no other user's access |
| `Schema.SecretCount` | index.js:123-128 | the create handler's `count` query: the number of the owner's playlists with `isSecret` true |
| `Schema.FilterMatches` | index.js:548-549 | one search filter: an absent or empty query matches every value, otherwise the lower-cased query must occur in the lower-cased field |
| `Schema.SongMatches` | index.js:547-550 | the search `where` clause: the `AND` of the name filter and the artist filter |
| `Schema.SecretCountAfterStore` | index.js:123-141 | storing one playlist row (create or update) changes an owner's secret count by minus the old row if it counted, plus the new row if it counts: at most one up |
| `Schema.SecretCountAfterRemove` | index.js:285-287 | deleting a playlist lowers its owner's secret count by one exactly when it was secret |
| `Schema.Patched` | index.js:251-258 | an update keeps the creator and cover; an absent name or description keeps the old value; `isSecret` changes only when a boolean is sent |
| `Schema.LinkedSongs` | index.js:424 | the songs listed for a playlist are the songs of its link rows, one entry per link and in link order (entry i is the song of the playlist's i-th link row), so exactly the linked songs appear |
| `Schema.ShareEmails` | index.js:532 | the projection `.map(pu => pu.user.email)`: one e-mail per share row of the playlist, in row order, and exactly the e-mails of those rows' users |
| `Schema.SharedEmails` | index.js:512-532 | when the requester created the playlist, one e-mail per share row of the playlist, in row order (entry i is the e-mail of the user on the i-th share row), so exactly the shared users' e-mails appear; empty for a missing playlist or a non-owner |
| `Handlers.Store.Valid` | index.js:35-38 | the store invariant every handler keeps: unique e-mails (the register check cited here), and likewise from the song lookup (index.js:350-365), the share check (index.js:466-474) and the link check (index.js:367-376): one song per (name, artist), one share row per (playlist, user), one link row per (playlist, song), ids below their counters, and every row reference pointing at an existing row |
| `Handlers.Store.Register` | index.js:27-53 | missing e-mail or password gives 400, then an already registered e-mail gives 400, both changing nothing; otherwise 201 and exactly one new user with a fresh id and the hashed password, so e-mails stay unique |
| `Handlers.Store.Login` | index.js:55-85 | unknown e-mail or rejected password gives 400 and no token; otherwise 200 with the token signed over that user's id and e-mail |
| `Handlers.Store.CreatePlaylist` | index.js:111-147 | missing name or description gives 400; a secret create (only the literal `true`) when the requester has 10 or more secret playlists gives 403; both change nothing; otherwise 200 and one new playlist owned by the requester; no user goes from at most 10 secret playlists to more than 10 |
| `Handlers.Store.ListPlaylists` | index.js:149-162 | 200 with exactly the playlists the requester created |
| `Handlers.Store.SharedWithMe` | index.js:164-183 | the share rows naming the requester, in table order; 404 when there are none |
| `Handlers.Store.GetPlaylist` | index.js:185-231 | a missing playlist gives 404 for any requester; otherwise 403 exactly when the requester is neither its creator nor shared with; otherwise 200 with the playlist; the store is only read |
| `Handlers.Store.PatchPlaylist` | index.js:233-266 | 404 before 403; only the creator gets 200, and then only that playlist changes, as `Patched` says, with no quota check; otherwise nothing changes |
| `Handlers.Store.DeletePlaylist` | index.js:268-294 | 404 before 403; only the creator gets 200, which removes the playlist with its share and link rows; otherwise nothing changes |
| `Handlers.Store.UpdateCover` | index.js:296-331 | 404, then 403, then 400 for a missing file (after the ownership check); on 200 only the cover of that playlist changes |
| `Handlers.Store.FindOrCreateSong` | index.js:350-365 | when a song with this name and artist exists it is returned and the song table is unchanged; otherwise exactly one song with a fresh id and the given url (empty when falsy) is added |
| `Handlers.Store.LinkSong` | index.js:367-385 | an existing (playlist, song) link gives 400 and leaves the link table as it was; otherwise 201 and exactly that one link row appended, so link rows stay unique |
| `Handlers.Store.AddSong` | index.js:333-390 | missing name or artist gives 400 before any lookup, a missing playlist gives 404, both changing nothing; no ownership check; an existing song with the same name and artist is reused, else one is created; an existing link gives 400 and changes nothing; otherwise 201 and one new link |
| `Handlers.Store.GetSongs` | index.js:392-432 | same 404 and 403 rule as reading the playlist; on 200 the songs linked to it; the store is only read |
| `Handlers.Store.SharePlaylist` | index.js:434-488 | falsy userId gives 400, missing playlist 404, non-creator 403, missing target user 404, existing share 400, all changing nothing; otherwise 200, one new share row, and the target can now read the playlist |
| `Handlers.Store.SharedUsers` | index.js:490-539 | the e-mails of the playlist's shared users; an empty result, including every non-owner request, gives 404, never 403 |
| `Handlers.Store.SearchSongs` | index.js:541-560 | 200 with exactly the songs that match every supplied filter |
| `Auth.TokenOf` | auth.js:7-12 | no header, a header without a space, or an empty second field gives no token; a token is never empty and never contains a space |
| `Auth.TokenIsSecondField` | auth.js:8 | whatever the first word, the token is the text between the first space and the next space or the end; the scheme word is ignored |
| `Auth.Decide` | auth.js:6-26 | every failure is a single 401; no token gives "Token no proporcionado" before any verification; failed verification gives "Token no valido o expirado"; a verified id that no user has gives "Usuario no valido o eliminado"; otherwise `next` exactly when a user has the verified id, with that user |
| `Auth.LoginTokenAuthenticates` | index.js:71-78 | a login token for a stored user, sent after any scheme word, lets the request through as that user, provided the signed token is non-empty and has no space, and verifying it returns its claims |
| `Auth.AuthenticateToken` | auth.js:6-27 | the outcome is `Decide`'s: one 401 response or one `next`, never both; on `next`, `req.user` is the stored user with the verified id; on 401 it is untouched; the store is not modified |

## Left out

- JWT signing, verification and expiry: `sign` and `verify` are parameters. A payload without a usable id is treated as `verify` returning `None`; in the code the lookup then throws and the catch gives the same 401.
- bcrypt hashing and comparison: `hash` and `compare` are parameters; salting and cost are not modelled.
- Every 500 path (the ORM throwing, a non-numeric id from `parseInt`, a login without an e-mail or password, a non-string body value): the store never fails, and ids are integers.
- The `/me` handler (index.js:87-109): it falls through after its 401, and a typo means its 500 is never sent. It is not modelled.
- Express routing, `app.listen`, configuration loading, the API documentation files and console logging.
- File upload and static serving: `UpdateCover` receives the stored file name or `None`. The file written before the handler runs is not modelled.
- Handlers.Store.GetPlaylist: returns the stored playlist record only. The included songs, creator and share list, and the rewrite of the cover into a `http://localhost:3000/uploads/` URL, are not modelled.
- Handlers.Store.SharedWithMe: returns the share rows without the playlist each row includes.
- Handlers.Store.ListPlaylists: returns the owned playlists as a map keyed by id. The handler answers `{ playlists: [...] }`, an ordered list inside a wrapper object; the order and the wrapper are not modelled.
- Handlers.Store.SearchSongs: returns the matching songs as a map keyed by id. The order of the query's result list is not modelled.
- Schema.SongMatchesIffOccurs: case-insensitive matching folds ASCII letters only. The database's locale-dependent case folding is not modelled.
- Handlers.Store.DeletePlaylist: the database schema is not part of the model. The model assumes that deleting a playlist also deletes its share and link rows; without such a cascade the delete would fail with 500.
- Response bodies and messages of `index.js` are not modelled, only status codes and the payloads above. The middleware's three 401 messages are modelled.
- The count-then-create race on the secret quota between concurrent requests: each request is one atomic step of the model.
