# MIXIT music app — a Dafny model of its decision logic

MIXIT is a small music-streaming web application: an Express server over SQLite
(accounts, songs, favourites, playlists, uploads), a player page that drives an
HTML5 audio element, and an admin dashboard. Most of it is I/O and rendering.
This project models the three places where it makes decisions, as pure functions
over immutable values, and proves what they promise.

- **Player** (`public/js/home.js`): the playback controller. Its state is the
  page's global variables: loaded song, index, song list, play flag, shuffle,
  repeat mode, mixer (volume and the pre-mute volume), and elapsed time. Its
  transitions are the buttons and the audio element's events. Modules `Player`,
  `Volume` and `Clock` (`formatDuration`).
- **Server** (`server.js`): the bearer-token middleware, the role gate,
  registration, both logins, `/api/auth/me`, song delete, favourites, playlist
  append and delete, and upload with its file filter. Each handler takes the
  store (`Store.Db`) and returns the reply with the new store. Modules
  `Store`, `Auth`, `Routes`; string helpers in `Text`.
- **Admin dashboard** (`public/js/admin.js`): the top-songs ranking (a stable
  sort by play count), the table filter, the delete-confirmation dialog, and the
  page's access decision. Modules `Ranking` and `Dashboard`.

Modelling choices:

- The volume is a whole percentage 0..100, which is the unit of the slider. The
  page starts at 70.
- `Math.random()` is a `Draw`, a real in [0, 1). The shuffle index is
  `Floor(u * n)`.
- The JWT library (`sign`, `verify`) and bcrypt (`hash`, `compare`) are
  function parameters. The token's expiry is part of what `verify` decides.
- The player's `index` is not tied to `playlist`. `playSong` receives indices
  into search results or the recently-played grid (home.js:120, home.js:176).
  Reloading the list keeps the index (home.js:81). So the model never assumes
  `playlist[index]` is the loaded song. It proves that next and previous (when
  they change track) re-establish that link (`Player.Synced`).
- Reporting a play to the server (home.js:214-225) has no effect on the player.
- SQLite enforces foreign keys only when asked to, and `server.js` never asks.
  So deleting a song or a playlist does not cascade into any other table.

Behaviour the code does not have that a reader might expect:

- The code never clamps the volume; the slider's range keeps it in 0..100.
- On repeat-one the end-of-track handler rewinds and calls `play()`, but does not
  touch `isPlaying`.
- The code does not keep the index valid for the current list.

## Model

| member | source | states |
|---|---|---|
| Player.Initial | public/js/home.js:1-7 | The page starts with nothing loaded, nothing playing, an empty list, repeat off, shuffle off, volume 70 |
| Player.PlaySong | public/js/home.js:191-204 | Selecting a song loads it at the given index, from time 0, with playing on; list, shuffle, repeat and volume are untouched |
| Player.LoadSongs | public/js/home.js:77-89 | Loading the catalogue replaces only the list; index and loaded song stay as they were |
| Player.TogglePlay | public/js/home.js:229-239 | Without a loaded song the button does nothing; otherwise it flips the play flag and changes nothing else |
| Player.TogglePlayTwice | public/js/home.js:229-239 | Two presses of play/pause restore the state |
| Player.Scale | public/js/home.js:250 | `Math.floor(Math.random() * n)` is always an index below n |
| Player.ScaleReachesEvery | public/js/home.js:249-250 | Every index of the list can be drawn by shuffle |
| Player.PlayNext | public/js/home.js:246-256 | Empty list: no change. Otherwise the next index (wrapping) or the drawn index when shuffling; that song of the list plays from 0, settings unchanged |
| Player.PlayPrevious | public/js/home.js:258-268 | Empty list: no change. Past 3 seconds: only rewinds. Otherwise steps back one index (wrapping) and plays that song of the list |
| Player.ModUnique | public/js/home.js:252 | Euclidean remainder is unique, the arithmetic fact the index wrap-around rests on |
| Player.StepBackAfterForward | public/js/home.js:252-266 | `(i+1) % n` followed by `(j-1+n) % n` gives `i % n` |
| Player.StepForwardAfterBack | public/js/home.js:252-266 | `(i-1+n) % n` followed by `(j+1) % n` gives `i % n` |
| Player.NextThenPrevious | public/js/home.js:246-268 | With shuffle off, next then previous returns to the starting index, and to the same song when the index was inside the list |
| Player.PreviousThenNext | public/js/home.js:246-268 | With shuffle off and at most 3 seconds played, previous then next returns to the starting index |
| Player.ToggleShuffle | public/js/home.js:270-273 | The shuffle button flips only the shuffle flag |
| Player.ShuffleTwice | public/js/home.js:270-273 | Two presses of shuffle restore the state |
| Player.Code | public/js/home.js:7 | Repeat modes are stored as 0, 1, 2 |
| Player.NextRepeat | public/js/home.js:276 | The next mode's code is `(code + 1) % 3` |
| Player.ToggleRepeat | public/js/home.js:275-293 | The repeat button changes only the mode, to the next one in the 0→1→2→0 cycle |
| Player.RepeatCycle | public/js/home.js:275-276 | Three presses of repeat restore the state |
| Player.Ended | public/js/home.js:310-320 | Track end: repeat-one rewinds only; repeat-all or not the last index behaves exactly as the next button; otherwise playing stops with the index kept |
| Player.EndedMidList | public/js/home.js:310-320 | Repeat off, shuffle off, before the last song: the following song of the list plays |
| Player.SlideVolume | public/js/home.js:323-326 | The slider sets the volume and leaves the saved pre-mute volume and all else alone |
| Player.MuteButton | public/js/home.js:363-373 | The mute button acts on the mixer only, and after it the volume is zero exactly when it was audible before |
| Player.StepKeepsConsistent | public/js/home.js:190-373 | No event makes the player play with no song loaded; a loaded song and a saved volume are never lost |
| Player.RunKeepsConsistent | public/js/home.js:190-373 | The same holds over any sequence of events |
| Player.Step | public/js/home.js:297-373 | The event wiring: only loading changes the list, only the volume controls change the mixer and nothing else, only the shuffle button changes shuffling, and the audio clock changes only the elapsed time |
| Player.Run | public/js/home.js:297-373 | Events handled in order: the list survives a run without a load, the mixer a run without a volume event, and shuffling is flipped by each press of its button |
| Volume.IconFor | public/js/home.js:332-343 | The icon is mute exactly at 0, down exactly for 0 < v < 50, up exactly from 50: the tiers partition the range |
| Volume.InitialMixer | public/js/home.js:328-329 | The page starts at 70 percent (up icon) with nothing saved |
| Volume.Slide | public/js/home.js:323-326 | The slider sets the level and keeps the saved volume |
| Volume.MuteClick | public/js/home.js:363-373 | Audible: saved and silenced. Silent: the saved volume comes back, or 70 if none was saved; the restored level is always > 0 |
| Volume.MuteClickToggles | public/js/home.js:363-373 | Each click flips between muted and audible, and the icon follows |
| Volume.MuteTwiceRestores | public/js/home.js:363-373 | Two clicks from an audible level restore exactly that level |
| Volume.MuteFromSilence | public/js/home.js:363-373 | From silence, the third click returns to what the first click gave |
| Clock.Decimal | public/js/home.js:595 | `n.toString()`: at least one decimal digit, no leading zero |
| Clock.DecimalRoundTrip | public/js/home.js:595 | Reading back the printed digits gives the number |
| Clock.PadRoundTrip | public/js/home.js:595 | The padded seconds are exactly two digits with the right value |
| Clock.FormatDuration | public/js/home.js:592-596 | The text is minutes, a colon, then exactly two digits whose value is below 60 |
| Clock.ParseDuration | public/js/home.js:592-596 | Reading "m:ss" back; only texts with the colon three from the end are read |
| Clock.FormatParseRoundTrip | public/js/home.js:592-596 | The minutes and seconds shown recombine to the input: m*60 + ss == s |
| Clock.FormatInjective | public/js/home.js:592-596 | Different durations are shown differently |
| Basics.OrElse | server.js:205 | `display_name \|\| username`: a missing or empty value falls back to the default |
| Text.Split | server.js:164 | `split(" ")` always gives at least one field |
| Text.SplitFieldsSpaceFree | server.js:164 | No field contains a space |
| Text.JoinSplit | server.js:164 | Joining the fields with single spaces gives back the header |
| Text.SplitAfterWord | server.js:164 | A space-free word followed by a space is the first field |
| Text.SplitSpaceFree | server.js:164 | A space-free string is one field |
| Auth.BearerToken | server.js:163-168 | The token is a non-empty, space-free second field of the header; an empty second field counts as no token |
| Auth.TokenAfterAnyScheme | server.js:163-164 | The scheme word is never checked: any space-free word before the token works (section 2.1 of RFC 6750 requires "Bearer") |
| Auth.NoSpaceNoToken | server.js:164-168 | A header without a space carries no token |
| Auth.Authenticate | server.js:162-177 | No token: 401; token that does not verify: 403; otherwise the decoded payload is admitted |
| Auth.SignedTokenAdmits | server.js:162-177 | A token the library signed and verifies back admits exactly its payload |
| Auth.AuthorizeRoles | server.js:180-187 | Passes exactly when a user is attached and their role is listed; otherwise the 403 "Insufficient permissions" reply |
| Auth.Guard | server.js:340-343 | Authentication then role gate: admitted exactly when the token verifies to a listed role. A rejected token keeps authentication's own reply (401 without a token, 403 for a bad one); a verified token with an unlisted role gets the role gate's 403 |
| Auth.Register | server.js:192-226 | A bad role is 400 with no change and before hashing. Success (201) exactly when the role is listener/artist, all fields are present and username and email are unused; then only that account is appended, display name defaulting to the username. A taken username or email with a valid role and all fields present: 400 "already exists", no change. A valid role with a missing username, email or password: 500, no change. The set of admins never changes |
| Auth.RegisterKeepsLoginsUnique | server.js:203-212 | Registration keeps usernames and emails unique |
| Auth.FirstMatch | server.js:232 | The lookup returns the first row matching username or email (and admin role when asked) |
| Auth.SignIn | server.js:232-258 | Success exactly when the first matching account's password compares equal; every failure is one and the same reply |
| Auth.Login | server.js:229-260 | Login succeeds only for an account matching by username or email with the right password; every failure is the same 401 |
| Auth.AdminLogin | server.js:263-298 | Admin login succeeds only for an admin account; every failure is the same 401 |
| Auth.LoginFailuresIndistinguishable | server.js:237-244 | A wrong password gets the same reply as an unknown account |
| Auth.AdminLoginAgrees | server.js:266-281 | When the account found by plain login is an admin, admin login gives the same status and token |
| Auth.FirstMatchAdmin | server.js:266-268 | The first match, when it is an admin, is also the first admin match |
| Auth.FindUser | server.js:302-304 | The lookup by id finds a stored account with that id, or there is none |
| Auth.Me | server.js:301-312 | 200 exactly when the token verifies and an account with its id exists; the reply then carries that stored account. A rejected token gets authentication's 401 or 403; a verified token whose id has no account gets 404 "User not found" |
| Routes.WithoutSong | server.js:399 | The delete keeps exactly the rows with another id, each as many times as it occurred |
| Routes.FindSong | server.js:389 | The lookup finds a row with that id, or there is none |
| Routes.MayDelete | server.js:395 | An admin may delete any song. Anyone else may delete only a song they uploaded, so a song with no uploader is deletable by admins alone |
| Routes.DeleteSong | server.js:388-415 | 404 exactly when no song has the id, checked before permission. 403 exactly when the song exists and the caller is neither admin nor uploader. An admin or the uploader deleting an existing song succeeds. Failures leave the store unchanged; success removes exactly the rows with that id and nothing else |
| Routes.WithoutPresentSong | server.js:399 | With distinct ids, deleting a present id removes exactly one row |
| Routes.WithoutAbsentSong | server.js:399 | Removing an id that no row carries leaves the table as it was |
| Routes.DeleteSongRemovesOne | server.js:388-413 | A successful delete shrinks the songs table by one row |
| Routes.AddFavorite | server.js:459-469 | An existing pair gives 400 with no change; otherwise 200 and only that pair is added |
| Routes.RemoveFavorite | server.js:472-479 | Always 200; the pair is absent afterwards and nothing else changes |
| Routes.FavoritesOfOthersUntouched | server.js:459-479 | Neither route touches another user's favourites |
| Routes.AddThenRemoveFavorite | server.js:459-479 | Adding a new favourite and then removing it restores the store |
| Routes.MaxPosition | server.js:531-535 | The largest position among the playlist's items, or none for an empty playlist |
| Routes.NextPosition | server.js:535 | The new position is above every existing position of the playlist; the first item gets 1 |
| Routes.AddToPlaylist | server.js:530-549 | Always 200. Exactly one item is appended and nothing else changes. Its position is one past the playlist's largest position, or 1 for an empty playlist |
| Routes.AddToPlaylistKeepsPositionsDistinct | server.js:530-548 | Appending keeps positions distinct within each playlist, and the new item comes after all earlier ones |
| Routes.WithoutPlaylist | server.js:553 | The delete keeps exactly the rows that are not this id owned by this caller, each as many times as it occurred |
| Routes.DeletePlaylist | server.js:552-559 | Always 200. A playlist stays exactly when it is not the caller's playlist with that id. No other table changes |
| Routes.DeletePlaylistOrphansItems | server.js:552-559 | The as-written delete can leave items whose playlist no longer exists |
| Routes.WithoutItemsOf | server.js:100 | Keeps exactly the items of other playlists |
| Routes.DeletePlaylistIntended | server.js:100 | With the cascade the schema declares, every item still belongs to a stored playlist after the delete. When the caller owned the playlist, exactly its items go; otherwise the items stay. Other playlists' items, users, songs and favourites are untouched |
| Routes.FileFilter | server.js:144-158 | A song file is accepted exactly with an `audio/` type, artwork exactly with an `image/` type |
| Routes.Upload | server.js:340-385 | Store changes only on 201. 201 exactly when the caller is an artist or admin, the body is multipart with no surplus file part, a song file is present, no file is refused, and title and artist are present. Then exactly one row is added: the next id, owned by the caller, play count 0, with the form's title, artist, album, genre and duration, and the artwork path only when artwork was sent. A rejected caller gets the guard's 401 or 403. A body that is not multipart, or a surplus part: 500. A refused song or artwork file: 500. A missing title or artist: 500 "Failed to upload song". 400 exactly when an admitted, well-formed request has no song file and no refused artwork |
| Routes.ListenerCannotUpload | server.js:343 | A listener is refused with 403 and the store is unchanged |
| Ranking.Insert | public/js/admin.js:71 | Insertion adds one element and nothing foreign |
| Ranking.InsertKeepsOrder | public/js/admin.js:71 | Insertion keeps the list in non-increasing play count |
| Ranking.InsertPermutes | public/js/admin.js:71 | Insertion adds exactly the element (multiset) |
| Ranking.SortByPlays | public/js/admin.js:71 | The sort is a permutation of the fetched songs in non-increasing play count, a missing count read as 0 |
| Ranking.InsertWithCount | public/js/admin.js:71 | Insertion puts the element before every other element of its count |
| Ranking.SortIsStable | public/js/admin.js:71 | Songs with equal counts keep their fetched order |
| Ranking.LoadOverview | public/js/admin.js:68-76 | Top songs are at most 5, highest count first, taken from the sorted array; the array itself is sorted in place, so "recent activity" equals the top songs |
| Ranking.TopIsHighest | public/js/admin.js:71 | No song left out of the top list has a higher count than one in it |
| Ranking.RecentActivityShowsRanking | public/js/admin.js:71-76 | On two concrete songs the recent-activity list shows ranking order, not upload order |
| Ranking.LoadOverviewIntended | public/js/admin.js:75-76 | With the sort on a copy, the same top songs and the five newest songs in fetched order |
| Dashboard.ReadMe | public/js/admin.js:21-32 | A non-2xx reply is a failure. A 2xx reply carrying an account gives that account; any other 2xx reply gives no user |
| Dashboard.CheckAuth | public/js/admin.js:13-47 | No or empty token: index page, token kept. Failed lookup or no user: token removed, index page. Non-admin: home page. Stay exactly for an admin |
| Dashboard.HomeCheckAuth | public/js/home.js:34-74 | The player page's check. No or empty token: index page, token kept. Failed lookup or no user: token removed, index page. Otherwise the page stays; the upload button shows exactly for artists and admins, the admin button exactly for admins |
| Dashboard.PagesAgree | public/js/home.js:34-74 | The player page shows the admin button exactly when the admin page keeps the visitor; both pages send a visitor away in the same cases and drop the token in the same cases |
| Dashboard.StayOnlyForStoredAdmins | public/js/admin.js:13-47 | The page keeps a visitor only if the stored account their token names is an admin |
| Dashboard.FilterTable | public/js/admin.js:412-424 | A row is shown exactly when its lower-cased text contains the lower-cased query; rows keep their text and number |
| Dashboard.EmptyQueryShowsAll | public/js/admin.js:418 | An empty query shows every row |
| Dashboard.FilterIgnoresCase | public/js/admin.js:417-418 | Lower-casing the query changes nothing, and filtering twice equals filtering once |
| Dashboard.RowMatchingQueryShown | public/js/admin.js:417-418 | Searching for a row's own text keeps it visible |
| Dashboard.ShowDeleteModal | public/js/admin.js:300-307 | Opening the dialog stores exactly the new action, replacing any earlier one |
| Dashboard.Confirm | public/js/admin.js:345-351 | Confirm runs the pending action at most once, and only it, then closes the dialog and empties the slot |
| Dashboard.Dismiss | public/js/admin.js:335-343 | Cancel and close empty the slot without running anything |
| Dashboard.Clicks | public/js/admin.js:335-351 | The dialog's buttons over a click sequence: after a showing the dialog is open with that action pending; after any button it is closed with nothing pending |
| Dashboard.EachShowRunsAtMostOnce | public/js/admin.js:300-351 | Over any clicks from any dialog, actions run at most once per showing (plus once for an action already pending), and every action run was shown or already pending |
| Text.LowerChar | public/js/admin.js:417 | Upper-case ASCII letters become lower case; everything else is kept |
| Text.Lower | public/js/admin.js:417 | Lower-casing works character by character and keeps the length |
| Text.Includes | public/js/admin.js:418 | `includes` is true exactly when the query occurs at some position |
| Text.IncludesEmpty | public/js/admin.js:418 | The empty query occurs in every text |

## Findings

| source | as written | input that shows it | evidently intended | confidence | as-written member | corrected member |
|---|---|---|---|---|---|---|
| public/js/admin.js:71-76 | `songs.sort(...)` sorts the fetched array in place, so `songs.slice(0, 5)` for "recent activity" gives the top five by plays again | songs [New (no plays), Old (3 plays)], newest first: recent activity shows [Old, New] | recent activity lists the five newest uploads in fetched order | high, not executed | Ranking.LoadOverview, Ranking.RecentActivityShowsRanking | Ranking.LoadOverviewIntended |
| server.js:100, server.js:552-559 | playlist items declare ON DELETE CASCADE, but the server never turns on SQLite foreign keys, so deleting a playlist leaves its items | playlist 1 of user 7 with one item; user 7 deletes playlist 1; the item remains | the playlist's items are deleted with it | medium, not executed | Routes.DeletePlaylist, Routes.DeletePlaylistOrphansItems | Routes.DeletePlaylistIntended |

## Left out

- `public/js/auth.js`: `localStorage`, `JSON.parse`, `fetch` and navigation wrappers. Its role check (auth.js:28-33) is the same rule as `Auth.AuthorizeRoles`.
- Database setup, DDL, the seeded admin account, directory creation, Express wiring and `listen` (server.js:10-124, server.js:600-602): plumbing.
- Concurrency: each request is handled as one atomic step on the store, and requests are handled one at a time. Node interleaves the callbacks of concurrent requests. In server.js:531-539 the `SELECT MAX(position)` and the `INSERT` run in separate callbacks, so two concurrent appends to one playlist can read the same maximum and store the same position. `Routes.AddToPlaylistKeepsPositionsDistinct` holds only for appends handled one after the other. Modelling interleavings would need a model of the event loop.
- Database errors (the `err` branches answering 500): the store is a value and does not fail. Constraint failures (NOT NULL, UNIQUE) are modelled.
- bcrypt and JWT internals: they are parameters. Token expiry is part of `verify`.
- Multer disk storage, random file names (a `Part` carries its stored name) and the 50 MB limit (server.js:127-143). A part under an undeclared field name, or a second part under a declared one, is modelled only as the flag `surplusPart`.
- Routes.Upload: the order in which multer sees the file parts is not modelled. When several parts would fail, the model reports a surplus part first, then the song's refusal, then the artwork's; the library reports whichever part arrives first. The status is 500 either way.
- Deleting the song's files from disk (server.js:404-410): file system.
- Row order of an unordered `SELECT`: SQLite does not promise one. `Auth.FirstMatch` takes the first matching row in insertion order, which is the usual outcome. With unique usernames and emails, at most two rows can match.
- Non-numeric ids in route parameters: ids are integers in the model.
- Login with a missing password (server.js:241, server.js:278): `bcrypt.compare` rejects inside an async database callback and nothing handles the rejection. No reply is sent, and under Node's default for unhandled rejections (since Node 15) the server process ends. The model takes the password as a string.
- Routes.WithoutSong, Routes.WithoutPlaylist: the contracts state which rows are kept and how often, not their order. The bodies keep the table order.
- Plain query routes with no decision: song list, song by id, search, favourites list, playlists list, playlist songs, create playlist, admin user list. Also the admin statistics (server.js:578-597), which are COUNT/SUM queries defaulting to 0.
- Recording a play (server.js:433-437, home.js:214-225): asynchronous and best effort, with no effect on the player.
- The player page's `checkAuth` (home.js:34-74) is modelled as `Dashboard.HomeCheckAuth`. The user name and capitalised role it writes into the page are display only.
- DOM rendering, `alert`s, navigation, and the 300 ms search debounce: UI and timers.
- Progress bar and scrubbing (home.js:297-304, home.js:346-351): floating-point display and seeking. Both do nothing while the duration is unknown.
- The admin user-delete call (admin.js:249) targets a route the server does not define. There is no server behaviour to model.
- Clock.FormatDuration: covers whole, non-negative seconds only. The source floors fractional `currentTime` values, and a NaN or infinite duration is not modelled.
- Text.Lower: lower-cases ASCII letters only, whereas `toLowerCase` covers all of Unicode.
- Text.LowerChar: maps only the ASCII letters A-Z to lower case; other upper-case letters are kept.
- Dashboard.FilterTable: inherits the ASCII-only lower-casing of `Text.Lower`.
- Player.SlideVolume: the slider has integer steps, so the volume is a whole percentage. Volumes between steps are not modelled.
