/** The request handlers of index.js as methods on the database they query and update. */
module Handlers {
  import opened Common
  import opened Schema

  /** The database: tables keyed by their auto-incremented ids, and the two join tables
      as row sequences. Every handler receives the authenticated user's id as `requester`. */
  class Store {
    var users: map<int, User>
    var playlists: map<int, Playlist>
    var songs: map<int, Song>
    var shares: seq<Share>
    var playlistSongs: seq<PlaylistSong>
    var nextUserId: int
    var nextPlaylistId: int
    var nextSongId: int

    /** The table invariants the handlers maintain: unique e-mails, unique (name, artist)
        songs, one share row per (playlist, user) pair, one link row per (playlist, song)
        pair, and every reference pointing at an existing row. */
    ghost predicate Valid()
      reads this
    {
      && 1 <= nextUserId && 1 <= nextPlaylistId && 1 <= nextSongId
      && (forall id | id in users :: users[id].id == id && 1 <= id < nextUserId)
      && EmailsUnique(users)
      && (forall id | id in playlists :: 1 <= id < nextPlaylistId && playlists[id].creatorId in users)
      && (forall id | id in songs :: 1 <= id < nextSongId)
      && SongKeysUnique(songs)
      && Distinct(shares)
      && (forall s | s in shares :: s.playlistId in playlists && s.userId in users)
      && Distinct(playlistSongs)
      && (forall l | l in playlistSongs :: l.playlistId in playlists && l.songId in songs)
    }

    constructor ()
      ensures Valid()
      ensures users == map[] && playlists == map[] && songs == map[]
      ensures shares == [] && playlistSongs == []
    {
      users, playlists, songs := map[], map[], map[];
      shares, playlistSongs := [], [];
      nextUserId, nextPlaylistId, nextSongId := 1, 1, 1;
    }

    /** POST /auth/register. */
    method Register(email: Option<string>, password: Option<string>, hash: string -> string)
      returns (status: int, userId: Option<int>)
      requires Valid()
      modifies this
      ensures Valid()
      ensures status == (if !Truthy(email) || !Truthy(password) then StatusBadRequest
                         else if EmailRegistered(old(users), email.value) then StatusBadRequest
                         else StatusCreated)
      ensures status == StatusBadRequest ==> userId == None && unchanged(this)
      ensures status == StatusCreated ==>
        && userId == Some(old(nextUserId))
        && old(nextUserId) !in old(users)
        && users == old(users)[old(nextUserId) := User(old(nextUserId), email.value, hash(password.value))]
        && nextUserId == old(nextUserId) + 1
        && unchanged(this`playlists, this`songs, this`shares, this`playlistSongs, this`nextPlaylistId, this`nextSongId)
    {
      if !Truthy(email) || !Truthy(password) {
        return StatusBadRequest, None;
      }
      if EmailRegistered(users, email.value) {
        return StatusBadRequest, None;
      }
      var id := nextUserId;
      users := users[id := User(id, email.value, hash(password.value))];
      nextUserId := nextUserId + 1;
      return StatusCreated, Some(id);
    }

    /** POST /auth/login: 400 for an unknown e-mail or a password the hash does not
        accept, otherwise 200 with a token signed over the user's id and e-mail. */
    method Login(email: string, password: string, compare: (string, string) -> bool, sign: Claims -> string)
      returns (status: int, token: Option<string>)
      requires Valid()
      ensures !EmailRegistered(users, email) ==> status == StatusBadRequest && token == None
      ensures forall id | id in users && users[id].email == email ::
        if compare(password, users[id].password)
        then status == StatusOk && token == Some(sign(Claims(id, email)))
        else status == StatusBadRequest && token == None
    {
      if id :| id in users && users[id].email == email {
        if !compare(password, users[id].password) {
          return StatusBadRequest, None;
        }
        return StatusOk, Some(sign(Claims(users[id].id, users[id].email)));
      }
      return StatusBadRequest, None;
    }

    /** POST /playlists: only the literal `true` makes a playlist secret, and a secret
        create is refused once the requester owns `SecretQuota` secret playlists. */
    method CreatePlaylist(requester: int, name: Option<string>, description: Option<string>, isSecret: Flag)
      returns (status: int, playlistId: Option<int>)
      requires Valid() && requester in users
      modifies this
      ensures Valid()
      ensures status == (if !Truthy(name) || !Truthy(description) then StatusBadRequest
                         else if isSecret == Boolean(true) && old(SecretCount(playlists, requester)) >= SecretQuota
                         then StatusForbidden
                         else StatusOk)
      ensures status != StatusOk ==> playlistId == None && unchanged(this)
      ensures status == StatusOk ==>
        && playlistId == Some(old(nextPlaylistId))
        && old(nextPlaylistId) !in old(playlists)
        && playlists == old(playlists)[old(nextPlaylistId) :=
             Playlist(name.value, description.value, isSecret == Boolean(true), requester, None)]
        && nextPlaylistId == old(nextPlaylistId) + 1
        && unchanged(this`users, this`songs, this`shares, this`playlistSongs, this`nextUserId, this`nextSongId)
      ensures forall owner :: old(SecretCount(playlists, owner)) <= SecretQuota ==> SecretCount(playlists, owner) <= SecretQuota
    {
      if !Truthy(name) || !Truthy(description) {
        return StatusBadRequest, None;
      }
      var secret := isSecret == Boolean(true);
      if secret && SecretCount(playlists, requester) >= SecretQuota {
        return StatusForbidden, None;
      }
      var id := nextPlaylistId;
      var p := Playlist(name.value, description.value, secret, requester, None);
      forall owner ensures SecretCount(playlists[id := p], owner) <= SecretCount(playlists, owner) + (if CountsAsSecret(p, owner) then 1 else 0) {
        SecretCountAfterStore(playlists, id, p, owner);
      }
      playlists := playlists[id := p];
      nextPlaylistId := nextPlaylistId + 1;
      return StatusOk, Some(id);
    }

    /** GET /playlists: the requester's own playlists (not those shared with them). */
    method ListPlaylists(requester: int) returns (status: int, owned: map<int, Playlist>)
      ensures status == StatusOk
      ensures forall id :: id in owned <==> id in playlists && IsOwner(playlists[id], requester)
      ensures forall id | id in owned :: owned[id] == playlists[id]
    {
      owned := map id | id in playlists && IsOwner(playlists[id], requester) :: playlists[id];
      return StatusOk, owned;
    }

    /** GET /playlists/shared-with-me: the share rows naming the requester; 404 when there are none. */
    method SharedWithMe(requester: int) returns (status: int, rows: seq<Share>)
      ensures forall s :: s in rows <==> s in shares && s.userId == requester
      ensures rows == Filter(shares, SharedWithUser(requester))
      ensures status == (if rows == [] then StatusNotFound else StatusOk)
    {
      rows := Filter(shares, SharedWithUser(requester));
      status := if rows == [] then StatusNotFound else StatusOk;
    }

    /** GET /playlists/:id: 404 before 403; readable by the creator and by users it was shared with. */
    method GetPlaylist(requester: int, playlistId: int) returns (status: int, playlist: Option<Playlist>)
      ensures status == (if playlistId !in playlists then StatusNotFound
                         else if !CanRead(playlists[playlistId], shares, playlistId, requester) then StatusForbidden
                         else StatusOk)
      ensures playlist == (if status == StatusOk then Some(playlists[playlistId]) else None)
    {
      if playlistId !in playlists {
        return StatusNotFound, None;
      }
      var p := playlists[playlistId];
      var isOwner := p.creatorId == requester;
      var isSharedWithUser := Share(playlistId, requester) in shares;
      if !(isOwner || isSharedWithUser) {
        return StatusForbidden, None;
      }
      return StatusOk, Some(p);
    }

    /** GET /playlists/:id/songs: the same access rule as GET /playlists/:id; on 200 the
        songs linked to the playlist. */
    method GetSongs(requester: int, playlistId: int) returns (status: int, result: seq<Song>)
      requires Valid()
      ensures status == (if playlistId !in playlists then StatusNotFound
                         else if !CanRead(playlists[playlistId], shares, playlistId, requester) then StatusForbidden
                         else StatusOk)
      ensures status == StatusOk ==> result == LinkedSongs(playlistSongs, songs, playlistId)
      ensures status != StatusOk ==> result == []
    {
      if playlistId !in playlists {
        return StatusNotFound, [];
      }
      var isOwner := playlists[playlistId].creatorId == requester;
      var isSharedWithUser := Share(playlistId, requester) in shares;
      if !isOwner && !isSharedWithUser {
        return StatusForbidden, [];
      }
      return StatusOk, LinkedSongs(playlistSongs, songs, playlistId);
    }

    /** PATCH /playlists/:id: 404 before 403, only the creator succeeds, and the secret
        quota is not checked again. */
    method PatchPlaylist(requester: int, playlistId: int, name: Option<string>, description: Option<string>, isSecret: Flag)
      returns (status: int)
      requires Valid()
      modifies this
      ensures Valid()
      ensures status == (if playlistId !in old(playlists) then StatusNotFound
                         else if !IsOwner(old(playlists)[playlistId], requester) then StatusForbidden
                         else StatusOk)
      ensures status != StatusOk ==> unchanged(this)
      ensures status == StatusOk ==>
        && playlists == old(playlists)[playlistId := Patched(old(playlists)[playlistId], name, description, isSecret)]
        && unchanged(this`users, this`songs, this`shares, this`playlistSongs, this`nextUserId, this`nextPlaylistId, this`nextSongId)
    {
      if playlistId !in playlists {
        return StatusNotFound;
      }
      if playlists[playlistId].creatorId != requester {
        return StatusForbidden;
      }
      playlists := playlists[playlistId := Patched(playlists[playlistId], name, description, isSecret)];
      return StatusOk;
    }

    /** DELETE /playlists/:id: 404 before 403; the creator's delete also removes the
        playlist's share and link rows. */
    method DeletePlaylist(requester: int, playlistId: int) returns (status: int)
      requires Valid()
      modifies this
      ensures Valid()
      ensures status == (if playlistId !in old(playlists) then StatusNotFound
                         else if !IsOwner(old(playlists)[playlistId], requester) then StatusForbidden
                         else StatusOk)
      ensures status != StatusOk ==> unchanged(this)
      ensures status == StatusOk ==>
        && playlists == old(playlists) - {playlistId}
        && shares == Filter(old(shares), ShareOfOtherPlaylist(playlistId))
        && playlistSongs == Filter(old(playlistSongs), LinkOfOtherPlaylist(playlistId))
        && unchanged(this`users, this`songs, this`nextUserId, this`nextPlaylistId, this`nextSongId)
    {
      if playlistId !in playlists {
        return StatusNotFound;
      }
      if playlists[playlistId].creatorId != requester {
        return StatusForbidden;
      }
      playlists := playlists - {playlistId};
      shares := Filter(shares, ShareOfOtherPlaylist(playlistId));
      playlistSongs := Filter(playlistSongs, LinkOfOtherPlaylist(playlistId));
      return StatusOk;
    }

    /** PATCH /playlists/:id/cover: 404, then 403, then 400 for a missing file. */
    method UpdateCover(requester: int, playlistId: int, file: Option<string>) returns (status: int)
      requires Valid()
      modifies this
      ensures Valid()
      ensures status == (if playlistId !in old(playlists) then StatusNotFound
                         else if !IsOwner(old(playlists)[playlistId], requester) then StatusForbidden
                         else if file.None? then StatusBadRequest
                         else StatusOk)
      ensures status != StatusOk ==> unchanged(this)
      ensures status == StatusOk ==>
        && playlists == old(playlists)[playlistId := old(playlists)[playlistId].(coverImageUrl := file)]
        && unchanged(this`users, this`songs, this`shares, this`playlistSongs, this`nextUserId, this`nextPlaylistId, this`nextSongId)
    {
      if playlistId !in playlists {
        return StatusNotFound;
      }
      if playlists[playlistId].creatorId != requester {
        return StatusForbidden;
      }
      if file.None? {
        return StatusBadRequest;
      }
      playlists := playlists[playlistId := playlists[playlistId].(coverImageUrl := file)];
      return StatusOk;
    }

    /** The song lookup of the add-song handler: the song with this name and artist if
        there is one, otherwise a new song with the given url. */
    method FindOrCreateSong(name: string, artist: string, url: string) returns (id: int)
      requires Valid()
      modifies this`songs, this`nextSongId
      ensures Valid()
      ensures if SongExists(old(songs), name, artist) then
          && id in old(songs) && old(songs)[id].name == name && old(songs)[id].artist == artist
          && songs == old(songs) && nextSongId == old(nextSongId)
        else
          && id == old(nextSongId) && id !in old(songs)
          && songs == old(songs)[id := Song(name, artist, url)]
          && nextSongId == old(nextSongId) + 1
    {
      if found :| found in songs && songs[found].name == name && songs[found].artist == artist {
        id := found;
      } else {
        id := nextSongId;
        songs := songs[id := Song(name, artist, url)];
        nextSongId := nextSongId + 1;
      }
    }

    /** The link step of the add-song handler: 400 when the song is already in the
        playlist, otherwise 201 and one new link row. */
    method LinkSong(playlistId: int, songId: int) returns (status: int)
      requires Valid() && playlistId in playlists && songId in songs
      modifies this`playlistSongs
      ensures Valid()
      ensures status == (if PlaylistSong(playlistId, songId) in old(playlistSongs) then StatusBadRequest else StatusCreated)
      ensures status == StatusBadRequest ==> playlistSongs == old(playlistSongs)
      ensures status == StatusCreated ==> playlistSongs == old(playlistSongs) + [PlaylistSong(playlistId, songId)]
    {
      if PlaylistSong(playlistId, songId) in playlistSongs {
        return StatusBadRequest;
      }
      playlistSongs := playlistSongs + [PlaylistSong(playlistId, songId)];
      return StatusCreated;
    }

    /** POST /playlists/:id/songs: no ownership check; a song with the same name and
        artist is reused, and a song already in the playlist is refused. */
    method AddSong(requester: int, playlistId: int, name: Option<string>, artist: Option<string>, url: Option<string>)
      returns (status: int, songId: Option<int>)
      requires Valid()
      modifies this
      ensures Valid()
      ensures !Truthy(name) || !Truthy(artist) ==> status == StatusBadRequest && songId == None
      ensures Truthy(name) && Truthy(artist) && playlistId !in old(playlists) ==> status == StatusNotFound && songId == None
      ensures status == StatusBadRequest || status == StatusNotFound ==> unchanged(this)
      ensures Truthy(name) && Truthy(artist) && playlistId in old(playlists) ==>
        && songId.Some?
        && (if SongExists(old(songs), name.value, artist.value) then
              && songId.value in old(songs)
              && old(songs)[songId.value].name == name.value
              && old(songs)[songId.value].artist == artist.value
              && songs == old(songs) && nextSongId == old(nextSongId)
            else
              && songId.value == old(nextSongId) && songId.value !in old(songs)
              && songs == old(songs)[songId.value := Song(name.value, artist.value, if Truthy(url) then url.value else "")]
              && nextSongId == old(nextSongId) + 1)
        && (status == StatusBadRequest <==> PlaylistSong(playlistId, songId.value) in old(playlistSongs))
        && (status != StatusBadRequest ==>
              status == StatusCreated && playlistSongs == old(playlistSongs) + [PlaylistSong(playlistId, songId.value)])
      ensures unchanged(this`users, this`playlists, this`shares, this`nextUserId, this`nextPlaylistId)
    {
      if !Truthy(name) || !Truthy(artist) {
        return StatusBadRequest, None;
      }
      if playlistId !in playlists {
        return StatusNotFound, None;
      }
      var id := FindOrCreateSong(name.value, artist.value, if Truthy(url) then url.value else "");
      status := LinkSong(playlistId, id);
      songId := Some(id);
    }

    /** POST /playlists/:id/share: 400, 404, 403, 404, 400 in that order; a successful
        share adds the one missing row, which gives the target user read access. */
    method SharePlaylist(requester: int, playlistId: int, userId: Option<int>) returns (status: int)
      requires Valid()
      modifies this
      ensures Valid()
      ensures status == (if !TruthyId(userId) then StatusBadRequest
                         else if playlistId !in old(playlists) then StatusNotFound
                         else if !IsOwner(old(playlists)[playlistId], requester) then StatusForbidden
                         else if userId.value !in old(users) then StatusNotFound
                         else if IsSharedWith(old(shares), playlistId, userId.value) then StatusBadRequest
                         else StatusOk)
      ensures status != StatusOk ==> unchanged(this)
      ensures status == StatusOk ==>
        && shares == old(shares) + [Share(playlistId, userId.value)]
        && CanRead(playlists[playlistId], shares, playlistId, userId.value)
        && unchanged(this`users, this`playlists, this`songs, this`playlistSongs, this`nextUserId, this`nextPlaylistId, this`nextSongId)
    {
      if !TruthyId(userId) {
        return StatusBadRequest;
      }
      if playlistId !in playlists {
        return StatusNotFound;
      }
      if playlists[playlistId].creatorId != requester {
        return StatusForbidden;
      }
      if userId.value !in users {
        return StatusNotFound;
      }
      if Share(playlistId, userId.value) in shares {
        return StatusBadRequest;
      }
      shares := shares + [Share(playlistId, userId.value)];
      return StatusOk;
    }

    /** GET /playlists/:id/shared-users: the e-mails of the users the requester's
        playlist is shared with; an empty answer, for a non-owner too, is 404. */
    method SharedUsers(requester: int, playlistId: int) returns (status: int, emails: seq<string>)
      requires Valid()
      ensures emails == SharedEmails(shares, playlists, users, playlistId, requester)
      ensures status == (if emails == [] then StatusNotFound else StatusOk)
      ensures playlistId !in playlists || !IsOwner(playlists[playlistId], requester) ==> status == StatusNotFound
    {
      emails := SharedEmails(shares, playlists, users, playlistId, requester);
      status := if emails == [] then StatusNotFound else StatusOk;
    }

    /** GET /songs/search: every song whose fields satisfy each supplied filter. */
    method SearchSongs(name: Option<string>, artist: Option<string>) returns (status: int, found: map<int, Song>)
      ensures status == StatusOk
      ensures forall id :: id in found <==> id in songs && SongMatches(songs[id], name, artist)
      ensures forall id | id in found :: found[id] == songs[id]
    {
      found := map id | id in songs && SongMatches(songs[id], name, artist) :: songs[id];
      return StatusOk, found;
    }
  }
}
