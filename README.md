# World Connect — a Dafny model of the client's decision logic

World Connect is a browser chat and news client: regular users talk to
admins, admins publish news posts, and a service worker keeps the
application usable offline. Most of its code is glue around a hosted
backend and HTML templating. This project models the decision logic beneath
that glue and proves what it guarantees.

- **Service worker** (`service_worker.dfy`). The worker's cache store is a
  class, `CacheStorage`. It holds the cache names in creation order and,
  for each cache, a map from request URL to response.
  - install adds the application shell to the static cache;
  - activate deletes every cache other than the static and the dynamic one;
  - fetch routes a request: network first, then the caches in creation
    order, then the offline page for a document;
  - the `CACHE_URLS` message pre-warms the dynamic cache.
  - The push notification and the click decision are pure functions.
- **Push key decoder** (`app.dfy`, `base64.dfy`). `urlBase64ToUint8Array`
  is a method with its copy loop. It is proved against a reference codec
  for sections 4 and 5 of RFC 4648, including the round trip from the
  unpadded section 5 encoding. `formatNumber` tiers and the filter of the
  global error alert are also here.
- **Page scripts** (`utils.dfy`, `messages.dfy`, `auth.dfy`, `admin.dfy`,
  `posts.dfy`):
  - initials and the relative-time tiers;
  - tab switching and the two search filters, each over an array of
    display states;
  - the counterpart and receiver of a conversation, and the roles of the
    get-or-create RPC;
  - message labels and the guards of sending;
  - the audio clock, and exclusive audio playback over the dictionary of
    players;
  - the auth form, and profile loading or creation;
  - the publishing form, and the post labels and media tiles of the feed.
- **Helper modules**: `wrappers.dfy` (Option), `js_strings.dfy`
  (`trim`, ASCII `toLowerCase`/`toUpperCase`, `includes`, `startsWith`,
  `repeat`, `padStart`), and `decimal.dfy` (`Number#toString` on integers,
  with its read-back).

Backend answers (query rows, RPC results, upload results, whether an insert
succeeded), the network, the clock and the local time-zone offset are
parameters. `escapeHtml` is applied outside the model: the functions that
render escaped text take its result as a parameter.

## Model

| member | source | states |
|---|---|---|
| ServiceWorker.AddAll | service-worker.js:35 | `cache.addAll` stores every URL's response iff all of them answer with an ok status other than 206 and without a `Vary: *` header, and no URL is named twice, and otherwise stores nothing; the cache then holds exactly its old keys and the batch, and keys outside the batch are kept |
| ServiceWorker.StaticFilesDistinct | service-worker.js:10-25 | the shell list names no file twice, so install's batch is never refused for a repeated request |
| ServiceWorker.Installed | service-worker.js:31-39 | when all shell files load, the static cache holds exactly its old keys and the shell files, each mapped to its fetched response; when any fails it is unchanged (the error is swallowed); other entries are kept |
| ServiceWorker.CacheStorage.Install | service-worker.js:28-44 | install opens the static cache (appended to the creation order if new) and leaves it as `Installed` says; no other cache changes |
| ServiceWorker.CacheStorage.Open | service-worker.js:32 | `caches.open` creates an empty cache under a new name, last in creation order, and changes nothing else |
| ServiceWorker.CacheStorage.Delete | service-worker.js:57 | `caches.delete` removes the name and its cache; the names stay distinct |
| ServiceWorker.CacheStorage.AddAllTo | service-worker.js:35 | `addAll` on an open cache: the cache becomes the `AddAll` result, or stays as it was when the batch rejects |
| ServiceWorker.Survivors | service-worker.js:55 | a name survives activation iff it was present and is the static or the dynamic cache name |
| ServiceWorker.SurvivorsSnoc | service-worker.js:54-59 | the survivors of a list extended by one name are the old survivors, extended by that name iff it is current |
| ServiceWorker.Without | service-worker.js:57 | the names left after deleting one are exactly the other names |
| ServiceWorker.WithoutAppend | service-worker.js:57 | deleting a name from a concatenation deletes it from each part |
| ServiceWorker.WithoutAbsent | service-worker.js:57 | deleting an absent name changes nothing |
| ServiceWorker.WithoutDistinct | service-worker.js:57 | deletion keeps the cache names distinct |
| ServiceWorker.DropAbsent | service-worker.js:54-58 | deleting the one name not present elsewhere closes the gap it leaves in the list |
| ServiceWorker.ActivateStep | service-worker.js:54-58 | one step of activate's map over the snapshot turns the survivors of a prefix into the survivors of the next prefix |
| ServiceWorker.CacheStorage.DeleteIfStale | service-worker.js:55-58 | the i-th snapshot name is deleted iff it is neither the static nor the dynamic cache |
| ServiceWorker.CacheStorage.Activate | service-worker.js:47-66 | afterwards the names are the old names that are static or dynamic, in order; the surviving caches keep their contents; the unused `CACHE_NAME` is never kept |
| ServiceWorker.StoreAfterPut | service-worker.js:88-91 | after `cache.put` the dynamic cache maps the URL to the response, and every other entry of every cache is unchanged |
| ServiceWorker.CacheStorage.Put | service-worker.js:88-91 | open then put: the new store is `StoreAfterPut` |
| ServiceWorker.Match | service-worker.js:97 | `caches.match` answers nothing iff no cache holds the URL; otherwise it answers from the first holder in creation order |
| ServiceWorker.MatchStep | service-worker.js:97 | the search over the remaining caches, shifted by one, still finds the first holder |
| ServiceWorker.MatchAt | service-worker.js:97 | `caches.match` answers from a cache that holds the URL when no cache created before it does |
| ServiceWorker.OpenedNames | service-worker.js:32 | the names after `caches.open` hold the opened name and all earlier names, and nothing else |
| ServiceWorker.OpenedCache | service-worker.js:32 | the cache `caches.open` returns is the existing one, or a new empty one |
| ServiceWorker.Route | service-worker.js:69-110 | non-GET and `supabase.co` requests pass through; a network answer is returned itself; after a network failure the first cached match is returned unchanged, a document miss gets the cached `/index.html`, and any other miss gets no response |
| ServiceWorker.CacheStorage.Fetch | service-worker.js:69-110 | the outcome is `Route` on the old store; only a network answer changes the store, by putting it into the dynamic cache |
| ServiceWorker.OfflineAfterOnline | service-worker.js:83-107 | once the network has answered a request, the same request offline is a cache hit; it gets that response whenever no cache created before the dynamic one holds the URL |
| ServiceWorker.PushNotification | service-worker.js:113-141 | no notification iff the payload is not JSON or is `null`; otherwise icon and badge are `/wc.png`, the actions are open and close, vibrate is [200,100,200], and title, body, tag and data take their defaults when the payload lacks them |
| ServiceWorker.NotificationClick | service-worker.js:144-154 | a click always closes the notification, and opens a window at `/` iff the action is `open` or empty |
| ServiceWorker.CacheStorage.OnMessage | service-worker.js:175-186 | asks to skip waiting iff the message type is `SKIP_WAITING`; `CACHE_URLS` opens the dynamic cache and adds the URLs all or nothing; every other message changes nothing |
| Base64.StdValue | js/app.js:204 | the decoder's character value is the inverse of the RFC 4648 section 4 alphabet |
| Base64.StdCharValue | js/app.js:204 | every sextet's character is in the alphabet, is not `=`, and reads back as that sextet |
| Base64.ToSextets | js/app.js:204 | `n` bytes become `ceil(4n/3)` sextets, never 1 modulo 4 |
| Base64.FromSextets | js/app.js:204 | `m` sextets give `floor(3m/4)` bytes |
| Base64.SextetsRoundTrip | js/app.js:204 | regrouping the sextets of any bytes gives back those bytes |
| Base64.StdChars | js/app.js:204 | the RFC 4648 section 4 spelling maps each sextet to its alphabet character |
| Base64.PadCount | js/app.js:199 | the padding count is below 4 and completes the length to a multiple of 4 |
| Base64.Pad | js/app.js:199-200 | padding keeps the text as a prefix and appends exactly `PadCount` `=` characters |
| Base64.EncodeUrl | js/app.js:198-211 | the unpadded RFC 4648 section 5 encoding has `ceil(4n/3)` characters and no `=` |
| Base64.TrailingPad | js/app.js:204 | the count of closing `=` is at most 2, and all counted characters are `=` |
| Base64.DecodeStd | js/app.js:204 | `atob` accepts only lengths that are multiples of 4, and yields 3/4 of the unpadded length in bytes |
| Base64.StdRoundTrip | js/app.js:204 | decoding the padded RFC 4648 section 4 encoding of any bytes gives them back |
| Base64.DecodeOfPadded | js/app.js:204 | the padded spelling of a sextet sequence decodes to the bytes those sextets carry |
| Base64.PadIsTrailing | js/app.js:199-204 | the padding added is exactly the padding the decoder strips |
| App.Atob | js/app.js:204 | the binary string `atob` returns has one code unit per decoded byte, equal to that byte; malformed input throws |
| App.Padding | js/app.js:199 | `(4 - len % 4) % 4` `=` characters: at most 3, all `=`, and the padded length is a multiple of 4 |
| App.ToUint8 | js/app.js:208 | a Uint8Array element stores a code unit modulo 256, so a code below 256 is stored unchanged |
| App.KeyBytes | js/app.js:198-211 | the key's bytes are exactly what the RFC 4648 section 4 decoder gives for the padded, re-spelled key, and there are none iff that decoder refuses it |
| App.ReplaceAll | js/app.js:201-202 | a global one-character replace keeps the length and changes exactly the matching characters |
| App.ToStandardAlphabet | js/app.js:200-202 | every `-` becomes `+` and every `_` becomes `/`, all else is kept with the length, and neither `-` nor `_` remains |
| App.UrlBase64ToUint8Array | js/app.js:198-211 | the array has the decoded string's length and holds its code units in order; a malformed key throws |
| App.CopyCodeUnits | js/app.js:205-209 | the loop fills a fresh array of the string's length with each code unit, in order, as a Uint8Array stores it |
| App.KeyRoundTrip | js/app.js:198-211 | decoding the unpadded RFC 4648 section 5 encoding of any bytes returns those bytes |
| App.RespellUrlEncoding | js/app.js:199-202 | padding and re-spelling the RFC 4648 section 5 encoding yields the padded RFC 4648 section 4 encoding |
| App.KeyBytesOfDecoded | js/app.js:204-209 | when `atob` yields bytes, the copy loop hands back exactly those bytes |
| App.AcceptsStandardSpelling | js/app.js:198-211 | the padded RFC 4648 section 4 spelling is accepted too and decodes to its bytes |
| App.RejectsLengthOneModFour | js/app.js:199-204 | a key of length 1 modulo 4 always makes `atob` throw |
| App.FormatNumber | js/app.js:325-329 | suffix `M` iff num ≥ 1000000, `K` iff 1000 ≤ num < 1000000, plain `toString` (reading back as num) below 1000 |
| App.RaisesErrorAlert | js/app.js:252-260 | an alert is raised iff the event carries an error with a non-empty message that does not contain `ResizeObserver` |
| JsStrings.Trim | js/auth.js:32-35 | `trim` removes exactly the leading and trailing white space; the result occurs in the input between all-space margins, and is empty iff the input is all space |
| JsStrings.ToLower | js/utils.js:134-137 | `toLowerCase` keeps the length and maps every character through `LowerChar` (ASCII capitals to small letters, all else kept) |
| JsStrings.ToLowerIdempotent | js/messages.js:388-391 | lower-casing an already lower-cased string changes nothing |
| JsStrings.UpperChar | js/utils.js:61-62 | `toUpperCase` on one character sends a small ASCII letter to a capital and keeps every other character |
| JsStrings.StartsWith | js/posts.js:53 | `startsWith(p)` holds iff `p` is no longer than the string and agrees with it character by character; the string is then `p` followed by the rest |
| JsStrings.Repeat | js/app.js:199 | `repeat(n)` on one character gives n copies of it |
| JsStrings.PadStart | js/messages.js:569 | `padStart(width, fill)` keeps a string already that wide; otherwise it reaches exactly the width, ends with the string, and everything before it is the fill |
| JsStrings.OrElse | service-worker.js:117-123 | `value`-or-fallback on a string that may be absent (also js/auth.js:108-109): a non-empty value is kept, and an absent or empty one gives the fallback |
| JsStrings.Contains | js/utils.js:138 | `includes` is true iff the query occurs at some index |
| JsStrings.ContainsEmpty | js/utils.js:134-138 | every text includes the empty string |
| Decimal.NatToString | js/utils.js:33 | a whole number prints as a non-empty digit string with no leading zero unless it is 0 |
| Decimal.IntToString | js/app.js:328 | a negative integer prints as `-` followed by the digits of its magnitude |
| Decimal.ParseNatToString | js/utils.js:33 | the printed digits read back as the number |
| Decimal.NatToStringInjective | js/utils.js:33 | distinct numbers print differently |
| Decimal.NoLeadingZero | js/utils.js:33 | a printed whole number starts with '0' only when it is "0" |
| Utils.Initial | js/utils.js:61-62 | a name's initial is its upper-cased first character, and nothing iff the name is absent or empty |
| Utils.GetInitials | js/utils.js:60-64 | one or two characters: the first name's initial, then the last name's; `?` when neither is present |
| Utils.QuestionMarkIsAmbiguous | js/utils.js:63 | a first name `?` with no last name also gives `?` |
| Utils.Weekday | js/utils.js:37 | `getDay` lies in 0..6 |
| Utils.NextDay | js/utils.js:37 | one day later is the next day of the week |
| Utils.MinutesText | js/utils.js:33 | the minutes label reads back as `floor(diff/60000)`, which lies in 1..59 and is written without a leading zero, followed by ` min` |
| Utils.FormatTime | js/utils.js:26-40 | empty iff no timestamp; `À l'instant` below a minute (negative differences included); minutes below an hour; clock time below a day; one of the seven weekday names below a week; the day and month otherwise |
| Utils.FormatDate | js/utils.js:42-58 | empty iff no timestamp; `Aujourd'hui à` with the clock time below one day; `Hier à` below two days; the long date otherwise |
| Utils.ClockTiersAgree | js/utils.js:34-48 | between an hour and a day, `formatTime` shows the same clock time as `formatDate` |
| Utils.AppendCancel | js/utils.js:96 | two tab names with the same container id are equal |
| Utils.ShownContainers | js/utils.js:93-101 | the container of tab j is shown iff the tab name is that tab; an unknown name hides all three |
| Utils.TabLoadFor | js/utils.js:104-108 | posts are loaded iff the tab is `posts`; the admin panel iff the tab is `admin` and the current role is admin |
| Utils.TabBar.SwitchTab | js/utils.js:80-109 | exactly the buttons whose data-tab is the name become active, each container is hidden iff it is not the named one, and the load follows `TabLoadFor` |
| Utils.EmptyQueryMatches | js/utils.js:134-138 | an empty query matches every text |
| Utils.MatchesQuery | js/utils.js:134-138 | a text matches iff the lower-cased query occurs at some index of the lower-cased text (the same test filters the contacts, js/messages.js:388-391) |
| Utils.MatchesQueryIgnoresCase | js/utils.js:134-138 | lower-casing the text or the query before filtering changes nothing |
| Utils.SearchConversations | js/utils.js:132-140 | each item is shown iff its lower-cased text includes the lower-cased query, and hidden otherwise |
| Messages.Counterpart | js/messages.js:31-41 | the list shows the admin when the current user is the conversation's user, and the user otherwise |
| Messages.ReceiverId | js/messages.js:243-245 | the receiver is one of the two participants, and never the sender when the two differ |
| Messages.CounterpartIsReceiver | js/messages.js:31-41 | the person shown for a conversation is the one its messages go to |
| Messages.ConversationRpcArgs | js/messages.js:396-401 | picking an admin puts the current user in the user role; picking a user puts the current user in the admin role |
| Messages.CreatedConversationReachesTarget | js/messages.js:398-401 | in the conversation the RPC returns, messages of the current user go to the person picked |
| Messages.PreviewLabel | js/messages.js:71-74 | fixed labels for audio, image and video; otherwise the escaped content, or `💬 Nouveau message` when it is empty |
| Messages.StatusTick | js/messages.js:219 | ticks only on sent messages: `✓✓` iff seen, `✓` iff delivered, nothing otherwise |
| Messages.ContentKind | js/messages.js:165-198 | audio, image or video rendering iff the type matches and a media URL is present; otherwise text, with `📎 Média` for empty content |
| Messages.TextMessage | js/messages.js:229-258 | ignored iff the trimmed input is empty or there is no current conversation; fails when the lookup finds nothing; otherwise inserts the trimmed text, sent to the other participant |
| Messages.VoiceMessage | js/messages.js:469-515 | ignored iff there is no current conversation; fails when the upload or the lookup fails; otherwise inserts an audio message with the uploaded URL, sent to the other participant |
| Messages.Chat.LoadConversation | js/messages.js:89-99 | the conversation becomes current, and exactly the list items with its id are highlighted |
| Messages.Chat.SendMessage | js/messages.js:229-265 | the outcome is `TextMessage` on the input; the input is cleared iff the insert went through |
| Messages.JsRem | js/messages.js:568 | `%` is truncated: for a ≥ 0 it is the Euclidean remainder in [0, b), and for a < 0 it is the negated remainder of −a, in (−b, 0] |
| Messages.FormatAudioTime | js/messages.js:565-570 | NaN gives `0:00`; whole seconds s ≥ 0 give `m:ss`, the minutes without leading zeros, reading back as m·60 + ss = s with ss < 60; negative seconds start with `-` |
| Messages.TwoDigits | js/messages.js:569 | `padStart(2, '0')` of a number below 100 gives two digits reading back as it |
| Messages.AudioClockOf | js/messages.js:567-569 | the label built from `s / 60` and `s % 60` is a clock (minutes without leading zeros, two second digits) that reads back as s |
| Messages.AudioPlayers.PauseAllExcept | js/messages.js:552-554 | every player but the message's own ends paused, and the set of players is unchanged |
| Messages.AudioPlayers.TogglePlayback | js/messages.js:525-563 | at most one player plays; a paused or new player starts and all others are paused; a playing one is paused and nothing else changes; a new player uses the given URL |
| Messages.AudioPlayers.PlaybackEnded | js/messages.js:543-547 | a player whose playback ended (or whose `play()` was refused) is paused, nothing else changes, and at most one player is still playing, so the next click plays it again |
| Messages.FilterContacts | js/messages.js:386-394 | each contact is shown iff its lower-cased name includes the lower-cased query |
| Auth.ModeView | js/auth.js:5-27 | the sign-up fields are hidden iff in sign-in mode, and the button names the mode's action |
| Auth.SwitchLinkNamesOtherMode | js/auth.js:5-27 | the switch link names the other mode's action, and the two views differ |
| Auth.Session.ToggleAuthMode | js/auth.js:5-27 | the mode is negated, so two toggles restore it, and the view of the new mode is shown |
| Auth.AuthFormAction | js/auth.js:29-83 | refused iff the trimmed email or the raw password is empty; in sign-up mode also when a trimmed name is empty; otherwise sign-up or sign-in with the trimmed values |
| Auth.SignInIgnoresNames | js/auth.js:42 | sign-in never depends on the name fields |
| Auth.DefaultProfile | js/auth.js:105-111 | a missing profile gets the auth id and email, the sign-up first name or `Utilisateur`, the sign-up last name or `''`, and role `user` |
| Auth.ProfileStepOf | js/auth.js:89-125 | an error other than `PGRST116` fails; a found profile is used unchanged; otherwise the default profile is created |
| Auth.Session.LoadUserData | js/auth.js:86-149 | signs out iff the lookup fails or the creation fails; otherwise the current user is the found or created row, and auto-loading is asked for iff that user is not an admin |
| Auth.CreatedProfileAutoLoads | js/auth.js:135 | `ShouldAutoLoadConversation` (role other than `admin`) holds for every profile created at sign-in, so a first load always opens a conversation |
| Auth.AutoLoadPlan | js/auth.js:188-226 | opens the existing conversation if there is one; otherwise requests one with the first admin, the current user in the user role; does nothing without an admin |
| Auth.AutoLoadMatchesManualPick | js/auth.js:210-213 | the automatic request has the roles of a manual pick of that admin, so messages go to the admin |
| Admin.Utf16Length | js/admin.js:224-225 | `length` counts UTF-16 code units: between one and two per character, and one per character iff all lie in the Basic Multilingual Plane |
| Admin.UpdatePreview | js/admin.js:203-226 | each field previews as itself, or as its placeholder iff empty; the counters are the raw lengths |
| Admin.UpdateMediaUpload | js/admin.js:228-244 | hidden iff the type is `text`; otherwise the audio, video or file label, or `📎 Fichier média` |
| Admin.PublishPlan | js/admin.js:294-322 | refused iff the user is not an admin; then refused iff the trimmed title or content is empty; otherwise inserts the trimmed values, admin_id the user, published iff status is `published`, and published_at null iff not published |
| Admin.PublishForm.constructor | js/admin.js:24-165 | the form loadAdminPanel builds starts with empty title, content and file, type `text` and status `published` (the first options) and both previews hidden: the reset state |
| Admin.PublishForm.ClearMediaFile | js/admin.js:288-292 | the file input is emptied and both previews hidden; the fields are kept |
| Admin.PublishForm.ResetPublishForm | js/admin.js:340-348 | title and content `''`, type `text`, status `published`, no file; empty previews with zero counters, and the media section hidden |
| Admin.PublishForm.Submit | js/admin.js:294-338 | the outcome is `PublishPlan` on the fields; the form is reset iff the insert went through, and is otherwise untouched |
| Admin.CountOrZero | js/admin.js:357-360 | a missing count shows as 0, a present one as itself |
| Admin.StatsCards | js/admin.js:350-365 | without an answer the cards keep what they showed; with one they show the counts or 0, and views are 15 × posts, 0 iff there are no posts |
| Posts.OwnLabel | js/posts.js:92-97 | the literal's own labels are defined exactly for text, audio, video and file |
| Posts.PostTypeLabelAsWritten | js/posts.js:91-99 | the lookup as written yields an inherited prototype member iff the type names one; otherwise the own label or the fallback |
| Posts.InheritedKeyIsRendered | js/posts.js:98 | a post typed `toString` gets the inherited member, not a label |
| Posts.PostTypeLabel | js/posts.js:91-99 | text, audio, video and file get their four labels; `📝 Texte` iff the type is not audio, video or file |
| Posts.LabelAgreesOffPrototype | js/posts.js:98 | the corrected label equals the code as written for every type that is not a prototype key |
| Posts.TileFor | js/posts.js:53-59 | a tile is an image of the file's URL iff file_type is present and starts with `image` |
| Posts.MediaGrid | js/posts.js:49-63 | the grid is rendered iff media_files is non-empty; it holds the tiles of the first four files, in order |

## Left out

- Backend calls (Supabase queries, RPCs, storage uploads, auth calls, realtime channels) are not modelled. Their answers are parameters: lookup rows, `created`, `insertSucceeds`, `publicUrl`, `conv`.
- DOM, markup and icons are not modelled. Visibility is a boolean or display string per element, and rendered content is a datatype.
- `escapeHtml` depends on DOM serialisation. Its result is a parameter (`escaped`).
- Case mapping covers ASCII only: `toLowerCase` and `toUpperCase` leave other characters as they are.
- Strings are sequences of code points. `charAt(0)` on a name starting outside the Basic Multilingual Plane returns half a surrogate pair in JavaScript; the model returns the whole character. `Admin.Utf16Length` does count code units.
- `atob` is modelled as the strict section 4 decoder of RFC 4648. Its stripping of ASCII white space is not modelled.
- Floating point is not modelled: `toFixed` in `formatNumber` (the scaled value is left symbolic in `App.FormatNumber`), the file size in MB, and the audio progress percentage.
- Locale formatting (`toLocaleTimeString`, `toLocaleDateString`) is abstract: `Piece` carries only the timestamp it renders.
- Time is in integer milliseconds, with the clock and a fixed local offset as parameters. A daylight-saving change between two dates is not modelled.
- Utils.FormatTime, Utils.FormatDate: a timestamp that does not parse (Invalid Date) is not modelled. `None` is a missing or empty timestamp.
- Utils.GetInitials: `?` is returned when neither name is present, but also for a first name starting with `?` (`Utils.QuestionMarkIsAmbiguous`). The converse of "'?' iff both are missing" therefore does not hold and is not stated.
- Messages.FormatAudioTime: only whole seconds are modelled. Fractional seconds, and `Infinity` durations before the metadata loads, are not.
- Audio playback display (`loadedmetadata`, `timeupdate`, the icon and progress bar reset on `ended`), MediaRecorder and `getUserMedia` are not modelled. Only the paused flags of `currentAudioPlayers` are, changed by clicks (`TogglePlayback`) and by the browser when playback ends or `play()` is refused (`PlaybackEnded`).
- Promise interleaving is not modelled. In particular, the fire-and-forget `cache.put` in fetch is treated as completing atomically after the network answer.
- ServiceWorker.PushNotification: the payload's `title`, `body` and `tag` are modelled as strings or absent, and `data` as a string-to-string map or absent. Other JSON values in those fields (numbers, objects, `false`) are not representable, so the defaults the `||` gives for other falsy values, and the rendering of non-string titles, are not modelled.
- `cache.put` rejections (partial 206 responses, `Vary: *`) are not modelled: every network answer is stored, whatever its status.
- Request keys are URL strings as written. URL resolution and request-header matching are not modelled.
- `syncMessages` is an empty stub, and the `sync` listener is not modelled.
- `self.skipWaiting` and `clients.claim` in install and activate are not modelled, and neither are `clients.openWindow` or `showNotification` beyond the decisions they receive.
- `showAlert`, `setTimeout`, the delayed `switchTab('posts')` after publishing and the delayed `toggleAuthMode` after sign-up are not modelled.
- Auth.DefaultProfile: the created row's `activated_at` (the clock at creation, `new Date().toISOString()`) is not modelled; the user record has no activation time.
- Auth.Session.LoadUserData: once the profile is set, only `updateUIWithUser` or `subscribeToRealtime` throwing (a missing DOM element, a realtime failure) reaches the sign-out, and then `currentUser` stays set; `loadConversations`, `loadPosts` and `autoLoadOrCreateConversation` catch their own errors. The model covers only the lookup and the creation.
- Admin.UpdateMediaUpload: the type comes from a `<select>` whose options are text, audio, video and file. The inherited-key lookup noted under Findings for posts cannot arise there and is not modelled.
- `previewMediaFile`, modals, scrolling, realtime subscriptions, the offline/online banners and clipboard sharing are page glue and are not modelled.

## Findings

| source | as written | input that shows it | evidently intended | confidence | as-written member | corrected member |
|---|---|---|---|---|---|---|
| js/posts.js:91-99 | `labels[type]`, with `📝 Texte` as the falsy fallback, reads `type` from an object literal, so names inherited from `Object.prototype` are found | a post whose type is `toString` (or `constructor`, `valueOf`, …) renders that inherited member instead of a label | any type other than the four known ones gets `📝 Texte` | low, not executed: the database may constrain the type column | Posts.PostTypeLabelAsWritten, Posts.InheritedKeyIsRendered | Posts.PostTypeLabel, Posts.LabelAgreesOffPrototype |
