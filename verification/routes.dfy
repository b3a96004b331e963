/** The data routes of the server that make a decision: deleting a song,
    favourites, appending to and deleting playlists, and song upload with its
    file filter. Each takes the store and returns the reply with the new store.
    SQLite does not enforce foreign keys unless asked to, and the server never
    asks, so no delete cascades into another table. */
module Routes {
  import opened Basics
  import opened Text
  import opened Store
  import opened Auth

  // ------------------------------------------------------------ delete song

  /** The rows of `songs` whose id is not `id`, in their order. */
  function WithoutSong(songs: seq<SongRow>, id: int): (r: seq<SongRow>)
    ensures |r| <= |songs|
    ensures forall s :: s in r <==> s in songs && s.id != id
    ensures forall s :: multiset(r)[s] == if s.id == id then 0 else multiset(songs)[s]
    decreases |songs|
  {
    assert |songs| > 0 ==> songs == [songs[0]] + songs[1..];
    if |songs| == 0 then []
    else if songs[0].id == id then WithoutSong(songs[1..], id)
    else [songs[0]] + WithoutSong(songs[1..], id)
  }

  /** The row with this id, if any (`SELECT * FROM songs WHERE id = ?`). */
  function FindSong(songs: seq<SongRow>, id: int): (r: Option<SongRow>)
    ensures r.Some? ==> r.value in songs && r.value.id == id
    ensures r.None? ==> forall s :: s in songs ==> s.id != id
    decreases |songs|
  {
    if |songs| == 0 then None
    else if songs[0].id == id then Some(songs[0])
    else FindSong(songs[1..], id)
  }

  /** An admin may delete any song; anyone else only a song they uploaded. */
  predicate MayDelete(caller: Claims, song: SongRow): (b: bool)
    ensures caller.role == Admin ==> b
    ensures b && caller.role != Admin ==> song.uploadedBy == Some(caller.id)
    ensures song.uploadedBy.None? ==> (b <==> caller.role == Admin)
  {
    caller.role == Admin || song.uploadedBy == Some(caller.id)
  }

  const SongNotFound := Reply(404, Error("Song not found"))
  const AccessDenied := Reply(403, Error("Access denied"))
  const SongDeleted := Reply(200, Note("Song deleted successfully"))

  /** `DELETE /api/songs/:id`: 404 for a missing song, checked before
      permission; 403 for a caller who is neither admin nor the uploader;
      otherwise exactly that song row goes. Files on disk are not modelled. */
  function DeleteSong(db: Db, caller: Claims, id: int): (out: (Reply, Db))
    ensures (forall s :: s in db.songs ==> s.id != id) ==> out == (SongNotFound, db)
    ensures out.0 == SongNotFound <==> FindSong(db.songs, id).None?
    ensures FindSong(db.songs, id).Some? && MayDelete(caller, FindSong(db.songs, id).value) ==>
      out.0 == SongDeleted
    ensures out.0 == AccessDenied <==>
      FindSong(db.songs, id).Some? && !MayDelete(caller, FindSong(db.songs, id).value)
    ensures out.0 != SongDeleted ==> out.1 == db
    ensures out.0 == SongDeleted ==>
      && (exists s :: s in db.songs && s.id == id && MayDelete(caller, s))
      && out.1 == db.(songs := out.1.songs)
      && (forall s :: s in out.1.songs <==> s in db.songs && s.id != id)
  {
    match FindSong(db.songs, id)
    case None => (SongNotFound, db)
    case Some(song) =>
      if !MayDelete(caller, song) then (AccessDenied, db)
      else (SongDeleted, db.(songs := WithoutSong(db.songs, id)))
  }

  /** With distinct ids, removing an id that is present removes exactly one row. */
  lemma {:induction false} WithoutPresentSong(songs: seq<SongRow>, id: int)
    requires UniqueSongIds(songs)
    requires exists s :: s in songs && s.id == id
    ensures |WithoutSong(songs, id)| == |songs| - 1
    decreases |songs|
  {
    if songs[0].id == id {
      forall s | s in songs[1..]
        ensures s.id != id
      {
        var k :| 0 <= k < |songs[1..]| && songs[1..][k] == s;
        assert songs[k + 1] == s;
      }
      WithoutAbsentSong(songs[1..], id);
    } else {
      var s :| s in songs && s.id == id;
      assert s in songs[1..];
      WithoutPresentSong(songs[1..], id);
    }
  }

  lemma {:induction false} WithoutAbsentSong(songs: seq<SongRow>, id: int)
    requires forall s :: s in songs ==> s.id != id
    ensures WithoutSong(songs, id) == songs
    decreases |songs|
  {
    if |songs| > 0 {
      assert songs[0] in songs;
      assert forall s :: s in songs[1..] ==> s in songs;
      WithoutAbsentSong(songs[1..], id);
    }
  }

  /** A successful delete of a stored song shrinks the table by one row and
      keeps the ids distinct. */
  lemma DeleteSongRemovesOne(db: Db, caller: Claims, id: int)
    requires UniqueSongIds(db.songs)
    requires DeleteSong(db, caller, id).0 == SongDeleted
    ensures |DeleteSong(db, caller, id).1.songs| == |db.songs| - 1
  {
    WithoutPresentSong(db.songs, id);
  }

  // ------------------------------------------------------------ favourites

  const AlreadyFavorite := Reply(400, Error("Song already in favorites"))

  /** `POST /api/favorites/:songId`: the UNIQUE(user_id, song_id) constraint
      turns a repeated add into 400 with nothing changed. The song id is not
      checked against the songs table. */
  function AddFavorite(db: Db, caller: Claims, songId: int): (out: (Reply, Db))
    ensures Favorite(caller.id, songId) in db.favorites ==> out == (AlreadyFavorite, db)
    ensures Favorite(caller.id, songId) !in db.favorites ==>
      out.0.status == 200 && out.1 == db.(favorites := out.1.favorites)
    ensures Favorite(caller.id, songId) in out.1.favorites
    ensures out.1.favorites - {Favorite(caller.id, songId)} == db.favorites - {Favorite(caller.id, songId)}
  {
    var f := Favorite(caller.id, songId);
    if f in db.favorites then (AlreadyFavorite, db)
    else (Reply(200, Note("Added to favorites")), db.(favorites := db.favorites + {f}))
  }

  /** `DELETE /api/favorites/:songId`: succeeds whether or not the pair was there. */
  function RemoveFavorite(db: Db, caller: Claims, songId: int): (out: (Reply, Db))
    ensures out.0.status == 200
    ensures Favorite(caller.id, songId) !in out.1.favorites
    ensures out.1.favorites - {Favorite(caller.id, songId)} == db.favorites - {Favorite(caller.id, songId)}
    ensures out.1 == db.(favorites := out.1.favorites)
  {
    (Reply(200, Note("Removed from favorites")),
     db.(favorites := db.favorites - {Favorite(caller.id, songId)}))
  }

  /** Favourites of other users are never touched by either route. */
  lemma FavoritesOfOthersUntouched(db: Db, caller: Claims, songId: int, f: Favorite)
    requires f.userId != caller.id
    ensures f in AddFavorite(db, caller, songId).1.favorites <==> f in db.favorites
    ensures f in RemoveFavorite(db, caller, songId).1.favorites <==> f in db.favorites
  {
  }

  /** Adding a new favourite and removing it again restores the store. */
  lemma AddThenRemoveFavorite(db: Db, caller: Claims, songId: int)
    requires Favorite(caller.id, songId) !in db.favorites
    ensures RemoveFavorite(AddFavorite(db, caller, songId).1, caller, songId).1 == db
  {
  }

  // ------------------------------------------------------------ playlists

  /** `SELECT MAX(position) ... WHERE playlist_id = ?`: `None` (NULL) when the
      playlist has no items. */
  function MaxPosition(items: seq<Item>, playlistId: int): (m: Option<int>)
    ensures m.None? <==> forall it :: it in items ==> it.playlistId != playlistId
    ensures m.Some? ==> exists it :: it in items && it.playlistId == playlistId && it.position == m.value
    ensures m.Some? ==> forall it :: it in items && it.playlistId == playlistId ==> it.position <= m.value
    decreases |items|
  {
    if |items| == 0 then None
    else
      var rest := MaxPosition(items[1..], playlistId);
      assert forall it :: it in items ==> it == items[0] || it in items[1..];
      if items[0].playlistId != playlistId then rest
      else if rest.None? || rest.value < items[0].position then Some(items[0].position)
      else rest
  }

  /** `(result?.max_pos || 0) + 1`: one past the largest position, or 1 for an
      empty playlist. */
  function NextPosition(items: seq<Item>, playlistId: int): (p: int)
    ensures forall it :: it in items && it.playlistId == playlistId ==> it.position < p
    ensures (forall it :: it in items ==> it.playlistId != playlistId) ==> p == 1
    ensures (exists it :: it in items && it.playlistId == playlistId) ==>
      exists it :: it in items && it.playlistId == playlistId && it.position == p - 1
  {
    var m := MaxPosition(items, playlistId);
    (if m.None? || m.value == 0 then 0 else m.value) + 1
  }

  /** `POST /api/playlists/:id/songs/:songId`: appends an item after the last
      position of that playlist. Neither the playlist's owner nor its existence
      is checked. */
  function AddToPlaylist(db: Db, playlistId: int, songId: int): (out: (Reply, Db))
    ensures out.0.status == 200
    ensures out.1 == db.(items := out.1.items)
    ensures |out.1.items| == |db.items| + 1 && out.1.items[..|db.items|] == db.items
    ensures var it := out.1.items[|db.items|];
      && it.playlistId == playlistId && it.songId == songId
      && (forall prior :: prior in db.items && prior.playlistId == playlistId ==> prior.position < it.position)
      && ((forall prior :: prior in db.items ==> prior.playlistId != playlistId) ==> it.position == 1)
    ensures out.1.items[|db.items|].position == NextPosition(db.items, playlistId)
    ensures (exists prior :: prior in db.items && prior.playlistId == playlistId) ==>
      exists prior :: prior in db.items && prior.playlistId == playlistId
        && out.1.items[|db.items|].position == prior.position + 1
  {
    (Reply(200, Note("Song added to playlist")),
     db.(items := db.items + [Item(playlistId, songId, NextPosition(db.items, playlistId))]))
  }

  /** No two items of one playlist share a position. */
  ghost predicate DistinctPositions(items: seq<Item>) {
    forall i, j :: 0 <= i < j < |items| && items[i].playlistId == items[j].playlistId ==>
      items[i].position != items[j].position
  }

  /** Appending keeps positions distinct within each playlist, and the new item
      sits after every earlier item of its playlist. */
  lemma AddToPlaylistKeepsPositionsDistinct(db: Db, playlistId: int, songId: int)
    requires DistinctPositions(db.items)
    ensures DistinctPositions(AddToPlaylist(db, playlistId, songId).1.items)
    ensures var items := AddToPlaylist(db, playlistId, songId).1.items;
      forall i :: 0 <= i < |items| - 1 && items[i].playlistId == playlistId ==>
        items[i].position < items[|items| - 1].position
  {
  }

  /** `DELETE FROM playlists WHERE id = ? AND user_id = ?`. */
  function WithoutPlaylist(playlists: seq<PlaylistRow>, id: int, owner: int): (r: seq<PlaylistRow>)
    ensures forall p :: p in r <==> p in playlists && !(p.id == id && p.userId == owner)
    ensures forall p :: multiset(r)[p] == if p.id == id && p.userId == owner then 0 else multiset(playlists)[p]
    decreases |playlists|
  {
    assert |playlists| > 0 ==> playlists == [playlists[0]] + playlists[1..];
    if |playlists| == 0 then []
    else
      var rest := WithoutPlaylist(playlists[1..], id, owner);
      if playlists[0].id == id && playlists[0].userId == owner then rest else [playlists[0]] + rest
  }

  /** `DELETE /api/playlists/:id`: removes the playlist only if the caller owns
      it, and answers 200 either way. Its items stay (no cascade). */
  function DeletePlaylist(db: Db, caller: Claims, id: int): (out: (Reply, Db))
    ensures out.0.status == 200
    ensures out.1 == db.(playlists := out.1.playlists)
    ensures forall p :: p in db.playlists && p.userId != caller.id ==> p in out.1.playlists
    ensures forall p :: p in db.playlists && !(p.id == id && p.userId == caller.id) ==> p in out.1.playlists
    ensures forall p :: p in out.1.playlists ==> p in db.playlists && !(p.id == id && p.userId == caller.id)
  {
    (Reply(200, Note("Playlist deleted")), db.(playlists := WithoutPlaylist(db.playlists, id, caller.id)))
  }

  /** Concrete store on which the as-written delete leaves an item that points
      at a playlist that no longer exists. */
  lemma DeletePlaylistOrphansItems()
    ensures
      var db := Db([], [], {}, [PlaylistRow(1, 7, "Mix")], [Item(1, 5, 1)], 1, 1);
      var after := DeletePlaylist(db, Claims(7, "u", Listener), 1).1;
      ItemsReferToPlaylists(db) && !ItemsReferToPlaylists(after)
  {
  }

  /** The items of playlists other than `id`. */
  function WithoutItemsOf(items: seq<Item>, id: int): (r: seq<Item>)
    ensures forall it :: it in r <==> it in items && it.playlistId != id
    decreases |items|
  {
    if |items| == 0 then []
    else
      var rest := WithoutItemsOf(items[1..], id);
      if items[0].playlistId == id then rest else [items[0]] + rest
  }

  /** Every item belongs to a stored playlist. */
  ghost predicate ItemsReferToPlaylists(db: Db) {
    forall it :: it in db.items ==> exists p :: p in db.playlists && p.id == it.playlistId
  }

  /** The delete the schema's ON DELETE CASCADE asks for: when the caller's
      playlist goes, its items go with it. */
  function DeletePlaylistIntended(db: Db, caller: Claims, id: int): (out: (Reply, Db))
    ensures out.0.status == 200
    ensures forall p :: p in out.1.playlists ==> p in db.playlists && !(p.id == id && p.userId == caller.id)
    ensures forall p :: p in db.playlists && !(p.id == id && p.userId == caller.id) ==> p in out.1.playlists
    ensures ItemsReferToPlaylists(db) ==> ItemsReferToPlaylists(out.1)
    ensures out.1 == db.(playlists := out.1.playlists, items := out.1.items)
    ensures forall it :: it in db.items && it.playlistId != id ==> it in out.1.items
    ensures forall it :: it in out.1.items ==> it in db.items
    ensures (exists p :: p in db.playlists && p.id == id && p.userId == caller.id) ==>
      out.1.items == WithoutItemsOf(db.items, id)
    ensures !(exists p :: p in db.playlists && p.id == id && p.userId == caller.id) ==>
      out.1.items == db.items
  {
    var playlists := WithoutPlaylist(db.playlists, id, caller.id);
    var owned := exists p :: p in db.playlists && p.id == id && p.userId == caller.id;
    var items := if owned then WithoutItemsOf(db.items, id) else db.items;
    var db' := db.(playlists := playlists, items := items);
    assert ItemsReferToPlaylists(db) ==> ItemsReferToPlaylists(db') by {
      if ItemsReferToPlaylists(db) {
        forall it | it in items
          ensures exists p :: p in playlists && p.id == it.playlistId
        {
          var p :| p in db.playlists && p.id == it.playlistId;
          assert !(p.id == id && p.userId == caller.id);
          assert p in playlists;
        }
      }
    }
    (Reply(200, Note("Playlist deleted")), db')
  }

  // ------------------------------------------------------------ upload

  /** The two file fields the upload form declares. */
  datatype Field = SongField | ArtworkField

  datatype Filtered = Accept | Refuse(error: string)

  /** The upload `fileFilter`: song files must have an `audio/` type and
      artwork an `image/` type. */
  function FileFilter(field: Field, mimetype: string): (f: Filtered)
    ensures f.Accept? <==>
      || (field == SongField && StartsWith(mimetype, "audio/"))
      || (field == ArtworkField && StartsWith(mimetype, "image/"))
  {
    match field
    case SongField => if StartsWith(mimetype, "audio/") then Accept else Refuse("Only audio files are allowed")
    case ArtworkField => if StartsWith(mimetype, "image/") then Accept else Refuse("Only image files are allowed")
  }

  /** An uploaded file part: its declared type and the name it is stored under. */
  datatype Part = Part(mimetype: string, storedName: string)

  /** The request as the upload middleware sees it. `multipart` says whether
      the body is multipart at all (otherwise no files object is set), and
      `surplusPart` whether it carries a file part beyond the one allowed per
      field or under a field name the form does not declare. */
  datatype UploadForm = UploadForm(
    multipart: bool,
    surplusPart: bool,
    title: Option<string>,
    artist: Option<string>,
    album: Option<string>,
    genre: Option<string>,
    duration: Option<string>,
    song: Option<Part>,
    artwork: Option<Part>)

  /** A present part the filter refuses. */
  predicate Refused(field: Field, part: Option<Part>) {
    part.Some? && FileFilter(field, part.value.mimetype).Refuse?
  }

  const UploadRoles := [Artist, Admin]
  const SongRequired := Reply(400, Error("Song file is required"))

  /** Why the upload middleware or the handler threw, each ending in the
      default error handler's 500. */
  const NoFiles := Reply(500, Error("Cannot read properties of undefined"))
  const UnexpectedField := Reply(500, Error("Unexpected field"))
  const UploadFailed := Reply(500, Error("Failed to upload song"))

  /** `POST /api/songs/upload` with its middleware chain: authentication, the
      artist/admin gate, then the upload middleware. A body that is not
      multipart leaves no files object, so the handler throws (500); a surplus
      part is rejected by the middleware (500), as is a file the filter
      refuses (500). Then the required song file (400), and the insert, which
      fails on a missing title or artist (NOT NULL, 500). */
  function Upload(db: Db, header: Option<string>, verify: string -> Option<Claims>, form: UploadForm): (out: (Reply, Db))
    ensures out.0.status != 201 ==> out.1 == db
    ensures out.0.status == 201 <==>
      && Guard(header, verify, UploadRoles).Admit?
      && form.multipart && !form.surplusPart
      && form.song.Some? && !Refused(SongField, form.song) && !Refused(ArtworkField, form.artwork)
      && form.title.Some? && form.artist.Some?
    ensures Guard(header, verify, UploadRoles).Reject? ==> out == (Guard(header, verify, UploadRoles).reply, db)
    ensures (Guard(header, verify, UploadRoles).Admit? && form.multipart && !form.surplusPart &&
             (Refused(SongField, form.song) || Refused(ArtworkField, form.artwork))) ==>
      out.0.status == 500 && out.1 == db
    ensures (Guard(header, verify, UploadRoles).Admit? && form.multipart && !form.surplusPart &&
             form.song.Some? && !Refused(SongField, form.song) && !Refused(ArtworkField, form.artwork) &&
             (form.title.None? || form.artist.None?)) ==>
      out == (UploadFailed, db)
    ensures Guard(header, verify, UploadRoles).Admit? && (!form.multipart || form.surplusPart) ==>
      out.0.status == 500 && out.1 == db
    ensures out == (SongRequired, db) <==>
      && Guard(header, verify, UploadRoles).Admit? && form.multipart && !form.surplusPart
      && form.song.None? && !Refused(ArtworkField, form.artwork)
    ensures out.0.status == 201 ==> |out.1.songs| == |db.songs| + 1
    ensures out.0.status == 201 ==>
      var row := out.1.songs[|db.songs|];
      && out.1 == db.(songs := db.songs + [row], nextSongId := db.nextSongId + 1)
      && row.id == db.nextSongId
      && row.uploadedBy == Some(Guard(header, verify, UploadRoles).user.id)
      && StartsWith(form.song.value.mimetype, "audio/")
      && row.filePath == "/uploads/songs/" + form.song.value.storedName
      && row.playCount == 0
      && row.title == form.title.value && row.artist == form.artist.value
      && row.album == form.album && row.genre == form.genre && row.duration == form.duration
      && (form.artwork.Some? ==> row.artworkPath == Some("/uploads/artwork/" + form.artwork.value.storedName))
      && (form.artwork.None? ==> row.artworkPath.None?)
  {
    match Guard(header, verify, UploadRoles)
    case Reject(reply) => (reply, db)
    case Admit(user) =>
      if !form.multipart then (NoFiles, db)
      else if form.surplusPart then (UnexpectedField, db)
      else if Refused(SongField, form.song) then
        (Reply(500, Error(FileFilter(SongField, form.song.value.mimetype).error)), db)
      else if Refused(ArtworkField, form.artwork) then
        (Reply(500, Error(FileFilter(ArtworkField, form.artwork.value.mimetype).error)), db)
      else if form.song.None? then (SongRequired, db)
      else if form.title.None? || form.artist.None? then (UploadFailed, db)
      else
        var artworkPath :=
          if form.artwork.Some? then Some("/uploads/artwork/" + form.artwork.value.storedName) else None;
        var row := SongRow(db.nextSongId, form.title.value, form.artist.value, form.album, form.genre,
                           form.duration, "/uploads/songs/" + form.song.value.storedName, artworkPath,
                           Some(user.id), 0);
        (Reply(201, Note("Song uploaded successfully")),
         db.(songs := db.songs + [row], nextSongId := db.nextSongId + 1))
  }

  /** A caller whose token decodes to a listener can never add a song. */
  lemma ListenerCannotUpload(db: Db, header: Option<string>, verify: string -> Option<Claims>, form: UploadForm)
    requires Authenticate(header, verify).Admit? && Authenticate(header, verify).user.role == Listener
    ensures Upload(db, header, verify, form) == (Forbidden, db)
  {
  }
}
