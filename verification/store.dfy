/** The server's relational store and its HTTP replies, as values. Each table is
    a sequence of rows in insertion (rowid) order, except favourites, whose
    UNIQUE(user_id, song_id) constraint makes them a set of pairs. */
module Store {
  import opened Basics

  datatype User = User(
    id: int,
    username: string,
    email: string,
    passwordHash: string,
    role: string,
    displayName: string)

  datatype SongRow = SongRow(
    id: int,
    title: string,
    artist: string,
    album: Option<string>,
    genre: Option<string>,
    duration: Option<string>,
    filePath: string,
    artworkPath: Option<string>,
    uploadedBy: Option<int>,
    playCount: int)

  datatype Favorite = Favorite(userId: int, songId: int)

  datatype PlaylistRow = PlaylistRow(id: int, userId: int, name: string)

  datatype Item = Item(playlistId: int, songId: int, position: int)

  /** The whole database. `nextUserId` and `nextSongId` are the AUTOINCREMENT
      counters of the two tables whose new ids the handlers report. */
  datatype Db = Db(
    users: seq<User>,
    songs: seq<SongRow>,
    favorites: set<Favorite>,
    playlists: seq<PlaylistRow>,
    items: seq<Item>,
    nextUserId: int,
    nextSongId: int)

  /** The payload a token carries: `{ id, username, role }`. */
  datatype Claims = Claims(id: int, username: string, role: string)

  /** The user object sent back after registration or login. */
  datatype Profile = Profile(id: int, username: string, email: string, role: string, displayName: string)

  datatype Body =
    | Error(error: string)
    | Note(message: string)
    | Session(message: string, token: string, user: Profile)
    | Account(user: Profile)

  datatype Reply = Reply(status: int, body: Body)

  function ProfileOf(u: User): Profile {
    Profile(u.id, u.username, u.email, u.role, u.displayName)
  }

  function ClaimsOf(u: User): Claims {
    Claims(u.id, u.username, u.role)
  }

  /** No two accounts share a username, and no two share an email
      (the UNIQUE columns of the users table). */
  ghost predicate UniqueLogins(users: seq<User>) {
    forall i, j :: 0 <= i < j < |users| ==>
      users[i].username != users[j].username && users[i].email != users[j].email
  }

  /** Song ids are distinct (the primary key). */
  ghost predicate UniqueSongIds(songs: seq<SongRow>) {
    forall i, j :: 0 <= i < j < |songs| ==> songs[i].id != songs[j].id
  }

  /** The accounts holding the admin role. */
  ghost function Admins(users: seq<User>): set<User> {
    set i | 0 <= i < |users| && users[i].role == "admin" :: users[i]
  }
}
