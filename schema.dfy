/** The records of the playlist service's database, and the pure decisions and
    projections the request handlers of index.js compute from them. */
module Schema {
  import opened Common
  import opened Text

  /** A registered account; `password` holds the password hash, never the password. */
  datatype User = User(id: int, email: string, password: string)

  /** A playlist; `creatorId` is its owner and never changes after creation. */
  datatype Playlist = Playlist(
    name: string,
    description: string,
    isSecret: bool,
    creatorId: int,
    coverImageUrl: Option<string>)

  datatype Song = Song(name: string, artist: string, url: string)

  /** A row of the share table: `userId` may read playlist `playlistId`. */
  datatype Share = Share(playlistId: int, userId: int)

  /** A row of the playlist-song link table. */
  datatype PlaylistSong = PlaylistSong(playlistId: int, songId: int)

  /** The claims a login token carries. */
  datatype Claims = Claims(id: int, email: string)

  /** An `isSecret` member of a JSON request body: absent, a boolean, or any other JSON value. */
  datatype Flag = NotSent | Boolean(value: bool) | NotBoolean

  const StatusOk := 200
  const StatusCreated := 201
  const StatusBadRequest := 400
  const StatusUnauthorized := 401
  const StatusForbidden := 403
  const StatusNotFound := 404

  /** The most secret playlists a user may create. */
  const SecretQuota := 10

  // ---- Uniqueness ----

  predicate EmailRegistered(users: map<int, User>, email: string) {
    exists id :: id in users && users[id].email == email
  }

  /** No two accounts share an e-mail. */
  predicate EmailsUnique(users: map<int, User>) {
    forall i, j | i in users && j in users && i != j :: users[i].email != users[j].email
  }

  predicate SongExists(songs: map<int, Song>, name: string, artist: string) {
    exists id :: id in songs && songs[id].name == name && songs[id].artist == artist
  }

  /** No two songs share a (name, artist) pair. */
  predicate SongKeysUnique(songs: map<int, Song>) {
    forall i, j | i in songs && j in songs && i != j ::
      songs[i].name != songs[j].name || songs[i].artist != songs[j].artist
  }

  // ---- Access control ----

  predicate IsOwner(p: Playlist, requester: int) {
    p.creatorId == requester
  }

  predicate IsSharedWith(shares: seq<Share>, playlistId: int, requester: int) {
    Share(playlistId, requester) in shares
  }

  /** Read access to a playlist: its creator, or a user it was shared with. */
  predicate CanRead(p: Playlist, shares: seq<Share>, playlistId: int, requester: int) {
    IsOwner(p, requester) || IsSharedWith(shares, playlistId, requester)
  }

  /** A new share row for `target` grants read access to `target` and to nobody else;
      every other user's access is as before. */
  lemma ShareGrantsReadToTargetOnly(p: Playlist, shares: seq<Share>, playlistId: int, target: int, requester: int)
    ensures CanRead(p, shares + [Share(playlistId, target)], playlistId, requester)
        <==> CanRead(p, shares, playlistId, requester) || requester == target
  {
  }

  // ---- Secret-playlist quota ----

  predicate CountsAsSecret(p: Playlist, owner: int) {
    p.isSecret && p.creatorId == owner
  }

  function SecretIds(playlists: map<int, Playlist>, owner: int): set<int> {
    set id | id in playlists && CountsAsSecret(playlists[id], owner)
  }

  /** What the create handler's `count` query returns: the owner's secret playlists. */
  function SecretCount(playlists: map<int, Playlist>, owner: int): nat {
    |SecretIds(playlists, owner)|
  }

  /** Storing `p` under `id` (a create or an update) changes an owner's secret count
      by at most one: minus the old row if it counted, plus the new row if it counts. */
  lemma SecretCountAfterStore(playlists: map<int, Playlist>, id: int, p: Playlist, owner: int)
    ensures SecretCount(playlists[id := p], owner)
         == SecretCount(playlists, owner)
          - (if id in playlists && CountsAsSecret(playlists[id], owner) then 1 else 0)
          + (if CountsAsSecret(p, owner) then 1 else 0)
  {
    var before := SecretIds(playlists, owner);
    var added: set<int> := if CountsAsSecret(p, owner) then {id} else {};
    SecretIdsAfterStore(playlists, id, p, owner);
    RemoveOneCount(before, id);
    assert (before - {id}) !! added;
  }

  lemma SecretIdsAfterStore(playlists: map<int, Playlist>, id: int, p: Playlist, owner: int)
    ensures SecretIds(playlists[id := p], owner)
         == (SecretIds(playlists, owner) - {id}) + (if CountsAsSecret(p, owner) then {id} else {})
  {
    var after := SecretIds(playlists[id := p], owner);
    var expected := (SecretIds(playlists, owner) - {id}) + (if CountsAsSecret(p, owner) then {id} else {});
    forall x | x in after ensures x in expected {
      if x != id { assert playlists[id := p][x] == playlists[x]; }
    }
    forall x | x in expected ensures x in after {
      if x != id { assert playlists[id := p][x] == playlists[x]; }
    }
  }

  /** Taking one element out of a set lowers its size by one exactly when it was there. */
  lemma RemoveOneCount(s: set<int>, x: int)
    ensures |s - {x}| == |s| - (if x in s then 1 else 0)
  {
    if x in s {
      assert s == (s - {x}) + {x};
    } else {
      assert s - {x} == s;
    }
  }

  /** Removing a playlist lowers its owner's secret count by one when it was secret. */
  lemma SecretCountAfterRemove(playlists: map<int, Playlist>, id: int, owner: int)
    ensures SecretCount(playlists - {id}, owner)
         == SecretCount(playlists, owner)
          - (if id in playlists && CountsAsSecret(playlists[id], owner) then 1 else 0)
  {
    var before := SecretIds(playlists, owner);
    assert SecretIds(playlists - {id}, owner) == before - {id};
    RemoveOneCount(before, id);
  }

  // ---- Update ----

  /** The playlist after a PATCH: an absent name or description keeps the old one
      (the ORM skips `undefined` members), `isSecret` changes only when a boolean is
      sent, and the creator and the cover never change. */
  function Patched(p: Playlist, name: Option<string>, description: Option<string>, isSecret: Flag): (q: Playlist)
    ensures q.creatorId == p.creatorId && q.coverImageUrl == p.coverImageUrl
    ensures q.name == (if name.Some? then name.value else p.name)
    ensures q.description == (if description.Some? then description.value else p.description)
    ensures isSecret.Boolean? ==> q.isSecret == isSecret.value
    ensures !isSecret.Boolean? ==> q.isSecret == p.isSecret
  {
    Playlist(
      if name.Some? then name.value else p.name,
      if description.Some? then description.value else p.description,
      match isSecret
      case Boolean(b) => b
      case _ => p.isSecret,
      p.creatorId,
      p.coverImageUrl)
  }

  // ---- Projections ----

  /** The `where` clause of the shared-with-me query. */
  function SharedWithUser(userId: int): Share -> bool {
    (s: Share) => s.userId == userId
  }

  /** The rows kept when playlist `playlistId` is deleted. */
  function ShareOfOtherPlaylist(playlistId: int): Share -> bool {
    (s: Share) => s.playlistId != playlistId
  }

  function LinkOfOtherPlaylist(playlistId: int): PlaylistSong -> bool {
    (l: PlaylistSong) => l.playlistId != playlistId
  }

  /** The link rows of playlist `playlistId`: the relation `playlist.playlistSongs`. */
  function LinkOfPlaylist(playlistId: int): PlaylistSong -> bool {
    (l: PlaylistSong) => l.playlistId == playlistId
  }

  /** `playlist.playlistSongs.map(ps => ps.song)`: the songs linked to the playlist,
      in link order, one entry per link. */
  function LinkedSongs(links: seq<PlaylistSong>, songs: map<int, Song>, playlistId: int): (r: seq<Song>)
    requires forall l | l in links :: l.songId in songs
    ensures |r| == |Filter(links, LinkOfPlaylist(playlistId))| <= |links|
    ensures forall i | 0 <= i < |r| :: r[i] == songs[Filter(links, LinkOfPlaylist(playlistId))[i].songId]
    ensures forall s :: s in r <==> exists l :: l in links && l.playlistId == playlistId && songs[l.songId] == s
  {
    if links == [] then []
    else
      var rest := LinkedSongs(links[1..], songs, playlistId);
      assert forall l :: l in links[1..] ==> l in links;
      assert forall l :: l in links ==> l == links[0] || l in links[1..];
      if links[0].playlistId == playlistId then [songs[links[0].songId]] + rest else rest
  }

  /** The share rows of playlist `playlistId`. */
  function ShareOfPlaylist(playlistId: int): Share -> bool {
    (s: Share) => s.playlistId == playlistId
  }

  /** `playlistUsers.map(pu => pu.user.email)`: the e-mails of the users on the share
      rows of `playlistId`, in row order, one entry per row. */
  function ShareEmails(shares: seq<Share>, users: map<int, User>, playlistId: int): (r: seq<string>)
    requires forall s | s in shares :: s.userId in users
    ensures |r| == |Filter(shares, ShareOfPlaylist(playlistId))| <= |shares|
    ensures forall i | 0 <= i < |r| :: r[i] == users[Filter(shares, ShareOfPlaylist(playlistId))[i].userId].email
    ensures forall e :: e in r <==> exists s :: s in shares && s.playlistId == playlistId && users[s.userId].email == e
  {
    if shares == [] then []
    else
      var rest := ShareEmails(shares[1..], users, playlistId);
      assert forall x :: x in shares[1..] ==> x in shares;
      assert forall x :: x in shares ==> x == shares[0] || x in shares[1..];
      if shares[0].playlistId == playlistId then [users[shares[0].userId].email] + rest else rest
  }

  /** The shared-users query and projection: the share rows of `playlistId`, kept only
      when its creator is `requester`, projected to their users' e-mails. */
  function SharedEmails(shares: seq<Share>, playlists: map<int, Playlist>, users: map<int, User>,
                        playlistId: int, requester: int): (r: seq<string>)
    requires forall s | s in shares :: s.userId in users
    ensures |r| <= |shares|
    ensures playlistId !in playlists || !IsOwner(playlists[playlistId], requester) ==> r == []
    ensures playlistId in playlists && IsOwner(playlists[playlistId], requester) ==>
      && |r| == |Filter(shares, ShareOfPlaylist(playlistId))|
      && forall i | 0 <= i < |r| :: r[i] == users[Filter(shares, ShareOfPlaylist(playlistId))[i].userId].email
    ensures forall e :: e in r <==>
      playlistId in playlists && IsOwner(playlists[playlistId], requester) &&
      exists s :: s in shares && s.playlistId == playlistId && users[s.userId].email == e
  {
    if playlistId in playlists && IsOwner(playlists[playlistId], requester)
    then ShareEmails(shares, users, playlistId)
    else []
  }

  // ---- Song search ----

  /** One optional search filter: a falsy query matches every value. */
  predicate FilterMatches(query: Option<string>, field: string) {
    !Truthy(query) || ContainsIgnoringCase(field, query.value)
  }

  /** The search condition: every supplied filter is a case-insensitive substring
      of its field. */
  predicate SongMatches(song: Song, name: Option<string>, artist: Option<string>) {
    FilterMatches(name, song.name) && FilterMatches(artist, song.artist)
  }

  /** Search matches a song exactly when each truthy filter, lower-cased, occurs at
      some position of the lower-cased field. */
  lemma SongMatchesIffOccurs(song: Song, name: Option<string>, artist: Option<string>)
    ensures SongMatches(song, name, artist) <==>
      (!Truthy(name) || exists i :: OccursAt(Lower(name.value), Lower(song.name), i)) &&
      (!Truthy(artist) || exists i :: OccursAt(Lower(artist.value), Lower(song.artist), i))
  {
    if Truthy(name) { IsInfixIffOccurs(Lower(name.value), Lower(song.name)); }
    if Truthy(artist) { IsInfixIffOccurs(Lower(artist.value), Lower(song.artist)); }
  }
}
