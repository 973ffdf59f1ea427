/** End-to-end request sequences, checked against the handlers' contracts alone. */
module Scenarios {
  import opened Common
  import opened Schema
  import opened Handlers

  /** A creates a playlist and shares it with B: B may read it and list its songs but
      not change, delete or re-share it; C may not read it; a second identical share is
      refused and leaves one share row; an unknown playlist is 404 for everyone. */
  method SharingScenario(hash: string -> string, emailA: string, emailB: string, emailC: string)
    requires emailA != [] && emailB != [] && emailC != []
    requires emailA != emailB && emailB != emailC && emailA != emailC
  {
    var store := new Store();
    var status, a := store.Register(Some(emailA), Some("secret-a"), hash);
    assert status == StatusCreated;
    assert store.users.Keys == {a.value} && store.users[a.value].email == emailA;
    var b, c;
    status, b := store.Register(Some(emailB), Some("secret-b"), hash);
    assert status == StatusCreated;
    assert store.users.Keys == {a.value, b.value} && store.users[b.value].email == emailB;
    status, c := store.Register(Some(emailC), Some("secret-c"), hash);
    assert status == StatusCreated;
    assert a.value != b.value && b.value != c.value && a.value != c.value;
    ShareTwice(store, a.value, b.value, c.value);
  }

  /** A creates a playlist and shares it with B twice: the second share is refused and
      leaves a single share row. */
  method ShareTwice(store: Store, a: int, b: int, c: int)
    requires store.Valid() && a in store.users && b in store.users && c in store.users
    requires a != b && b != c && a != c
    requires store.playlists == map[] && store.shares == []
    modifies store
  {
    var status, playlist := store.CreatePlaylist(a, Some("Road trip"), Some("Songs for the road"), NotSent);
    assert status == StatusOk;
    var p := playlist.value;
    status := store.SharePlaylist(a, p, Some(b));
    assert status == StatusOk;
    status := store.SharePlaylist(a, p, Some(b));
    assert status == StatusBadRequest && |store.shares| == 1;
    AccessAfterSharing(store, a, b, c, p);
  }

  /** What B (shared with) and C (not shared with) may do to A's playlist `p`. */
  method AccessAfterSharing(store: Store, a: int, b: int, c: int, p: int)
    requires store.Valid() && a in store.users && b in store.users && c in store.users
    requires a != b && b != c && a != c
    requires store.playlists.Keys == {p} && store.playlists[p].creatorId == a
    requires store.shares == [Share(p, b)]
    modifies store
  {
    var status, seen := store.GetPlaylist(b, p);
    assert status == StatusOk;
    var songs;
    status, songs := store.GetSongs(b, p);
    assert status == StatusOk;
    status := store.PatchPlaylist(b, p, Some("Mine now"), None, NotSent);
    assert status == StatusForbidden;
    status := store.DeletePlaylist(b, p);
    assert status == StatusForbidden;
    status := store.SharePlaylist(b, p, Some(c));
    assert status == StatusForbidden;
    status, seen := store.GetPlaylist(c, p);
    assert status == StatusForbidden;
    status, seen := store.GetPlaylist(a, p + 1);
    assert status == StatusNotFound;
    var emails;
    status, emails := store.SharedUsers(b, p);
    assert status == StatusNotFound;
  }

  /** The tenth secret playlist is created and the eleventh refused; an update then
      turns an ordinary playlist secret, leaving its owner with eleven. */
  method QuotaScenario(hash: string -> string)
  {
    var store := new Store();
    var status, user := store.Register(Some("owner@example.com"), Some("pw"), hash);
    assert status == StatusCreated;
    var u := user.value;
    var plain;
    status, plain := store.CreatePlaylist(u, Some("Public"), Some("Everyone may see"), Boolean(false));
    assert status == StatusOk && SecretCount(store.playlists, u) == 0 by {
      assert SecretIds(store.playlists, u) == {};
    }
    var created := 0;
    while created < SecretQuota
      invariant store.Valid() && u in store.users
      invariant 0 <= created <= SecretQuota
      invariant SecretCount(store.playlists, u) == created
      invariant plain.value in store.playlists && !store.playlists[plain.value].isSecret
      invariant store.playlists[plain.value].creatorId == u
    {
      var id;
      ghost var before := store.playlists;
      status, id := store.CreatePlaylist(u, Some("Hidden"), Some("Only mine"), Boolean(true));
      SecretCountAfterStore(before, id.value, store.playlists[id.value], u);
      created := created + 1;
    }
    var refused;
    status, refused := store.CreatePlaylist(u, Some("One more"), Some("Too many"), Boolean(true));
    assert status == StatusForbidden && SecretCount(store.playlists, u) == SecretQuota;

    ghost var before := store.playlists;
    status := store.PatchPlaylist(u, plain.value, None, None, Boolean(true));
    assert status == StatusOk;
    SecretCountAfterStore(before, plain.value, store.playlists[plain.value], u);
    assert SecretCount(store.playlists, u) == SecretQuota + 1;
  }
}
