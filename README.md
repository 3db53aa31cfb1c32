# IndieDeck core in Dafny

IndieDeck is a Next.js web app for discovering indie games. Players swipe
through a deck of game cards: a left swipe likes the game, a right swipe
passes on it. Swiped cards are remembered as "seen" and do not come back.
The app also has these views:

- an explore view with one row per genre;
- a page of liked games with a genre filter;
- a settings page holding the genre preferences, the playback switches and
  a reset of the seen set;
- a form for submitting a game.

All client state (likes, the seen set, preferences, playback switches and
the home page's mode) lives in `localStorage` under fixed keys. Tabs follow
each other's changes through `storage` events.

This project models that core:

| module | file |
|---|---|
| `Storage` | the `localStorage` key-value store and the shapes of the values the app writes into it |
| `Text`, `Seqs` | JavaScript's `trim`, insertion-ordered `Set`s, filtering and sorting |
| `GameLoad` | normalising the catalog's rows into games, and the per-session catalog cache of `useGameStore` |
| `LikeStore` | the likes reducer, its provider and the liked-games hooks |
| `CardDeck` | the drag gesture of one card, the deck's stack, the seen set and the deferred like/seen effects |
| `GameCard` | the card's data, YouTube embed URLs, the playback settings, link labels, preview fades and the lightbox's navigation |
| `Genres` | the trimmed genre names of a catalog |
| `HomePage` | the home page's mode, its genre filter and its deck items |
| `Explore` | the per-genre rows |
| `LikedPage` | the genre chips, the filter and the overlay |
| `YouPage` | the settings page |
| `Submission` | reading and validating the submission form, and the upload paths |

Stateful components are classes whose methods change their fields and the
shared `LocalStorage` object. Pure computations are functions with lemmas.
Loops in the source are methods with loop invariants, each proved against
a specification function.

## Model

| member | source | states |
|---|---|---|
| Storage.LocalStorage.GetItem | src/app/likestore.tsx:11 | `getItem` yields a value exactly when the key is stored, and that value is the stored one |
| Storage.LocalStorage.SetItem | src/app/likestore.tsx:20-25 | `setItem` replaces the key's value and leaves every other key as it was |
| Storage.LocalStorage.RemoveItem | src/app/you/page.tsx:114 | `removeItem` deletes only that key |
| Storage.SetOf | src/app/carddeck.tsx:9 | `new Set(JSON.parse(raw))`: a stored array gives its elements, `null` the empty set, a JSON string the set of its characters; it throws exactly for a boolean, a number, an object or unparsable text |
| Text.Trim | src/app/page.tsx:124 | `trim` returns a string with no leading or trailing JavaScript whitespace; the result is empty exactly when the input is all whitespace; an already trimmed string is returned unchanged |
| Text.TrimIsSlice | src/app/page.tsx:124 | `trim` removes only white space, and only from the two ends: its result is a slice of the input with white space before and after it |
| Seqs.Distinct | src/app/page.tsx:121-127 | a `Set` filled in order holds each element of the input once, and nothing else |
| Seqs.DistinctOrder | src/app/page.tsx:121-127 | `Array.from` of that `Set` lists the elements in the order of their first occurrence in the input |
| Seqs.Sort | src/app/you/page.tsx:23 | the sorted array is a permutation of its input and is in order |
| GameLoad.NormalizeVideoUrl | src/app/gameload.tsx:56-72 | a missing or empty value gives no URL; an array gives its first element when that is non-empty; a string gives its trimmed, unquoted form, or nothing when that is empty; a URL is never "" |
| GameLoad.StripQuotes | src/app/gameload.tsx:70 | removes exactly one pair of surrounding double quotes, and does so exactly when the text starts and ends with `"` and has no line terminator between them; otherwise the text is returned unchanged |
| GameLoad.StripQuotesRoundTrip | src/app/gameload.tsx:70 | quoting a single-line string and stripping the quotes gives that string back |
| GameLoad.NormalizePlainLink | src/app/gameload.tsx:59-71 | a plain link (not an array, not quoted) normalises to its trimmed text |
| GameLoad.NormalizeJsonArray | src/app/gameload.tsx:61-68 | a JSON-array string normalises to its first element |
| GameLoad.ImageUrls | src/app/gameload.tsx:75-79 | keeps only the entries that are present, non-blank and parse as URLs, so there are never more URLs than entries |
| GameLoad.ImageUrlsOrder | src/app/gameload.tsx:75-79 | image URLs keep the row's order: the URLs of a concatenation are the concatenation of the URLs |
| GameLoad.ImageUrlsSingle | src/app/gameload.tsx:76-78 | a single entry yields its trimmed URL when it is present, non-blank and parses, and nothing otherwise |
| GameLoad.MapRowToGame | src/app/gameload.tsx:74-93 | the game keeps the row's id, name and links (`{}` when absent); developer, description, age rating and publisher are the row's or "" when absent; it has one genre when the row's is non-empty and none otherwise; its images are the row's kept image URLs in order and never outnumber the row's entries; its video is the normalised one |
| GameLoad.CatalogCache.constructor | src/app/gameload.tsx:54 | the session cache starts empty |
| GameLoad.GameStore.constructor | src/app/gameload.tsx:107-130 | a mounted store shows the cached catalog, or `[]`; it starts loading only when the cache is empty |
| GameLoad.GameStore.Reload | src/app/gameload.tsx:112-115 | `load` sets loading and clears the error; the catalog stays until the fetch ends |
| GameLoad.GameStore.LoadCompleted | src/app/gameload.tsx:116-123 | a successful fetch replaces the catalog and the cache with the mapped rows, one game per row; a failure keeps both and records the message ("Unknown error" without one); loading ends either way |
| GameLoad.MountTwice | src/app/gameload.tsx:126-130 | after one store has filled the cache, a second mount fetches nothing and shows the cached games |
| LikeStore.Reduce | src/app/likestore.tsx:39-87 | the reducer: `like` adds the id, `unlike` removes it, `toggle` flips it, each leaving every other id as it was; `clear` empties the set and `reset` replaces it |
| LikeStore.LikeAdds | src/app/likestore.tsx:50-56 | `like` adds exactly the id; liking twice is the same as liking once |
| LikeStore.UnlikeRemoves | src/app/likestore.tsx:57-62 | `unlike` removes the id and keeps every other id's membership |
| LikeStore.ToggleInverts | src/app/likestore.tsx:63-74 | `toggle` flips the id's membership and no other; it acts as `unlike` on a liked id and as `like` otherwise; toggling twice restores the set |
| LikeStore.ReadFromStorage | src/app/likestore.tsx:8-18 | the stored array without its empty strings; the empty set when nothing, or something other than an array (`null`, a boolean, a string, a number, an object, unparsable text), is stored |
| LikeStore.LikesProvider.constructor | src/app/likestore.tsx:91 | the initial liked set is read from storage |
| LikeStore.LikesProvider.Dispatch | src/app/likestore.tsx:40-88 | the new state is the reducer's, and it is written through to storage under the likes key |
| LikeStore.LikesProvider.Like | src/app/likestore.tsx:104 | an empty id changes nothing; otherwise the id is added and persisted |
| LikeStore.LikesProvider.Unlike | src/app/likestore.tsx:105 | an empty id changes nothing; otherwise the id is removed and persisted |
| LikeStore.LikesProvider.Toggle | src/app/likestore.tsx:106 | an empty id changes nothing; otherwise the id's membership flips and the set is persisted |
| LikeStore.LikesProvider.Clear | src/app/likestore.tsx:108 | the set becomes empty and storage holds the empty array |
| LikeStore.LikesProvider.OnStorageEvent | src/app/likestore.tsx:94-102 | an event on the likes key replaces the set with what storage holds; other keys change nothing |
| LikeStore.LikesProvider.HandleClick | src/app/likestore.tsx:168-173 | the button reports the liked state as the negation of the state before the click; for a non-empty id that is the new state |
| LikeStore.CrossTabConvergence | src/app/likestore.tsx:94-108 | after one tab likes, unlikes, toggles or clears and the other tab receives the storage event, both tabs hold the same set, and storage holds it too |
| LikeStore.LikeMap | src/app/likestore.tsx:125-135 | the map has a key for exactly the games with a non-empty id, and each key maps to whether that id is liked |
| LikeStore.LikedGames | src/app/likestore.tsx:138-143 | exactly the games with a non-empty, liked id |
| LikeStore.LikedGamesOrder | src/app/likestore.tsx:141 | liked games keep the catalog's order |
| CardDeck.Threshold | src/app/carddeck.tsx:31 | the threshold is `min(220, 0.28 * width)`, or 200 without a window; it is never above 220 and never negative for a real width |
| CardDeck.Release | src/app/carddeck.tsx:72-123 | pointer-up and pointer-leave fling exactly when the displacement exceeds the threshold, keeping the card where it is, towards the side of the displacement; otherwise they snap back to the origin; the drag ends either way |
| CardDeck.Handle | src/app/carddeck.tsx:57-123 | pointer-down restarts the drag from the current offset; without a drag every other event is ignored; a move tracks the pointer from the anchor; up and leave release; cancel always snaps back |
| CardDeck.FlingX | src/app/carddeck.tsx:83 | the fling target is `innerWidth + 400` px off screen, to the left for a negative displacement and to the right otherwise |
| CardDeck.ReleaseDecision | src/app/carddeck.tsx:72-123 | releasing or leaving during a drag flings exactly when the displacement exceeds the threshold, towards the side of the displacement; otherwise the card snaps back to the origin; the drag ends either way |
| CardDeck.AtThresholdSnapsBack | src/app/carddeck.tsx:72-94 | a displacement exactly at the threshold snaps back |
| CardDeck.CancelSnapsBack | src/app/carddeck.tsx:96-106 | `pointercancel` during a drag always snaps back, even past the threshold |
| CardDeck.IdleIgnores | src/app/carddeck.tsx:65-123 | without a drag, move, up, leave and cancel change nothing |
| CardDeck.FlingLeavesOnItsSide | src/app/carddeck.tsx:76-80 | the fling's target x is at least 400px off screen, on the side of its direction |
| CardDeck.MoveAllTracksLast | src/app/carddeck.tsx:65-71 | moves during a drag keep it open and keep its anchor; the position is the last pointer position relative to the anchor |
| CardDeck.GestureDecision | src/app/carddeck.tsx:57-94 | press, moves and release fling exactly when the last pointer x is more than the threshold from where the press started |
| CardDeck.DraggableCard.constructor | src/app/carddeck.tsx:20-29 | a card starts at rest at the origin, with no pending `onSwiped` |
| CardDeck.DraggableCard.OnPointer | src/app/carddeck.tsx:48-133 | a non-interactive card ignores everything; an interactive card follows the gesture recogniser; a move drags the card; a snap back animates it to the origin; a fling animates it off screen and schedules `onSwiped` with the direction |
| CardDeck.DraggableCard.FlingElapsed | src/app/carddeck.tsx:86 | the fling timer delivers the oldest scheduled direction |
| CardDeck.ShuffleArray | src/app/carddeck.tsx:142-149 | the shuffled array is a permutation of the source |
| CardDeck.FilterUnseen | src/app/carddeck.tsx:172-176 | an item stays exactly when it has no id, or its id has not been seen |
| CardDeck.FilterUnseenOrder | src/app/carddeck.tsx:173 | the filter keeps the items' order |
| CardDeck.ReadSeen | src/app/carddeck.tsx:7-10 | the seen set is what the `Set` constructor makes of the stored value (an array's elements, nothing for `null`, a JSON string's characters), and empty when nothing is stored or reading throws |
| CardDeck.LiveDir | src/app/carddeck.tsx:214 | the live glyph shows exactly while dragging more than 6px, pointing left exactly for a negative displacement |
| CardDeck.LiveDirAnnouncesFling | src/app/carddeck.tsx:72-94 | with a threshold of at least 6px, a drag that flings already shows the live glyph of the side it flies to; a snap back returns to the origin |
| CardDeck.Visible | src/app/carddeck.tsx:244-249 | only the last two cards of the stack are rendered, with their stack indexes; the front card is the top of the stack |
| CardDeck.OneFrontCard | src/app/carddeck.tsx:249-268 | a non-empty stack shows exactly one front card, its top, and only that card takes pointer events |
| CardDeck.Deck.constructor | src/app/carddeck.tsx:151-178 | the seen set is read from storage; the stack is a permutation of the items not yet seen |
| CardDeck.Deck.ItemsChanged | src/app/carddeck.tsx:169-178 | new items rebuild the stack as a permutation of the items that are unseen according to storage |
| CardDeck.Deck.OnStorageEvent | src/app/carddeck.tsx:163-167 | an event on the seen key re-reads the seen set; nothing else changes |
| CardDeck.Deck.HandleSwiped | src/app/carddeck.tsx:180-210 | the top card leaves the stack (an empty stack stays empty); a tracked id queues its like or unlike together with the seen set of this render |
| CardDeck.Deck.RunPending | src/app/carddeck.tsx:187-204 | the deferred effect likes (left) or unlikes (right) the id, and writes the captured seen set plus the id to the state and to storage |
| CardDeck.Deck.KeyDown | src/app/carddeck.tsx:218-232 | an arrow key on a non-empty stack shows its direction glyph and swipes the top card that way; other keys and an empty stack change nothing |
| CardDeck.Deck.OnDrag | src/app/carddeck.tsx:275 | the deck records that a drag is under way, with its x |
| CardDeck.Deck.OnDragEnd | src/app/carddeck.tsx:276-286 | a drag of more than 25px shows the release glyph for its side, which is the live glyph the drag last showed; the drag state resets |
| CardDeck.Deck.ReleaseGlyphElapsed | src/app/carddeck.tsx:225-283 | the glyph timer clears the release glyph |
| CardDeck.SwipeAndSettle | src/app/carddeck.tsx:180-210 | after a swipe and its deferred effect, the top card is gone; its id is liked on a left swipe and unliked on a right one; it is in the seen set and in storage |
| GameCard.MainImage | src/app/page.tsx:160 | the main image is the first image, or "" when there is none |
| GameCard.Previews | src/app/page.tsx:161 | the previews are images 2 to 5, in order |
| GameCard.CardOfShape | src/app/page.tsx:156-169 | a deck card keeps the game's id, title, links and video, and joins its genres with ", " |
| GameCard.CoerceFirstUrl | src/app/gamecard.tsx:63-77 | the card's `coerceFirstUrl` gives the same URL as the loader's `normalizeVideoUrl` for every input, and never "" |
| GameCard.CommonParams | src/app/gamecard.tsx:84-93 | the embed parameters start with `autoplay=1` and the mute flag |
| GameCard.MuteParam | src/app/gamecard.tsx:87 | the mute parameter is `mute=1` exactly when muted |
| GameCard.EmbedId | src/app/gamecard.tsx:97-98 | the id taken after `/embed/` has at least six id characters; without one, no position holds such an id |
| GameCard.EmbedIdLeftmost | src/app/gamecard.tsx:97-98 | the id is the whole run of id characters after the leftmost `/embed/` that is followed by at least six of them |
| GameCard.Split | src/app/gamecard.tsx:116 | splitting at `/` gives at least one piece, and no piece contains `/` |
| GameCard.SplitJoin | src/app/gamecard.tsx:116 | joining the pieces with `/` gives the path back |
| GameCard.RemoveFirstSlash | src/app/gamecard.tsx:123 | removes one character when there is a `/`, and nothing otherwise |
| GameCard.RemoveFirstSlashAt | src/app/gamecard.tsx:123 | the character removed is the first `/`; everything before and after it stays in place |
| GameCard.ToYouTubeEmbed | src/app/gamecard.tsx:80-132 | no URL, or "", embeds nothing; a URL that is not an embed URL embeds only from a parsed YouTube host |
| GameCard.WatchUrlEmbeds | src/app/gamecard.tsx:108-114 | a watch URL with `v` embeds that video, looped |
| GameCard.ShortsUrlEmbeds | src/app/gamecard.tsx:116-118 | a `/shorts/<id>` URL without `v` embeds that id, looped |
| GameCard.ShortLinkEmbeds | src/app/gamecard.tsx:122-126 | a `youtu.be/<id>` link embeds that id, looped |
| GameCard.EmbedUrlExtended | src/app/gamecard.tsx:96-102 | an embed URL is kept and extended with the parameters, using `&` when it already has a query and `?` otherwise, followed by `&loop=1&playlist=<id>` exactly when it names a video id |
| GameCard.OtherHostsRejected | src/app/gamecard.tsx:104-130 | an unparsable URL, or one on another host, embeds nothing |
| GameCard.VideoScheduled | src/app/gamecard.tsx:171-178 | the video is scheduled exactly when there is a non-empty embed URL, autoplay is on and the card is not known to be behind the front |
| GameCard.MatchLen | src/app/gamecard.tsx:180-189 | a match of a label pattern is non-empty and lies within the key |
| GameCard.FirstMatch | src/app/gamecard.tsx:180-189 | the match found is the leftmost one |
| GameCard.ReplaceFirst | src/app/gamecard.tsx:180-189 | without a match the key is unchanged; otherwise only the leftmost match is replaced |
| GameCard.WholeKeyReplaced | src/app/gamecard.tsx:180-189 | a key that is one whole match becomes the replacement |
| GameCard.NoPatternUnchanged | src/app/gamecard.tsx:180-189 | a pattern that matches nowhere leaves the key unchanged |
| GameCard.FormatLinkLabel | src/app/gamecard.tsx:180-189 | a key naming no known store is shown as it is |
| GameCard.MaskStyle | src/app/gamecard.tsx:244-271 | no mask without fades; the mask fades exactly the sides that have more content |
| GameCard.ShowLeft | src/app/gamecard.tsx:195 | the left fade shows exactly when the strip is scrolled away from its start |
| GameCard.ShowRight | src/app/gamecard.tsx:196 | the right fade shows exactly when more than one pixel of content lies beyond the right edge |
| GameCard.FadesAtTheEnds | src/app/gamecard.tsx:191-197 | at the start, a strip that fits needs no mask and one that overflows fades only on the right |
| GameCard.JsRem | src/app/gamecard.tsx:218-219 | JavaScript's `%` agrees with the mathematical remainder for non-negative operands |
| GameCard.KeyNext | src/app/gamecard.tsx:218 | from an index in range, the right arrow moves one on and wraps from the last preview to the first |
| GameCard.KeyPrev | src/app/gamecard.tsx:219 | from an index in range, the left arrow moves one back and wraps from the first preview to the last |
| GameCard.KeyIndexInRange | src/app/gamecard.tsx:218-219 | the lightbox's arrow keys keep the index in range and undo each other; with no previews they stay at 0 |
| GameCard.ArrowNext | src/app/gamecard.tsx:661 | the on-screen next arrow gives no index when there are no previews, otherwise the key handler's next index |
| GameCard.ArrowPrev | src/app/gamecard.tsx:653 | the on-screen previous arrow gives no index when there are no previews, otherwise the key handler's previous index |
| GameCard.ReadMuted | src/app/gamecard.tsx:18-27 | muted exactly when the stored value is JSON `true`; not muted when nothing is stored |
| GameCard.ReadAutoplay | src/app/gamecard.tsx:43-56 | autoplay is on when nothing is stored or the stored text cannot be parsed; otherwise it is on exactly when the stored value is `true`, so a stored `null` turns it off |
| GameCard.OnSettingEvent | src/app/gamecard.tsx:38-57 | a storage event re-reads a setting only when it is on that setting's key |
| GameCard.Playback.constructor | src/app/gamecard.tsx:16-60 | mounting reads muted and autoplay from storage, shows the poster and sets the video timer exactly when the video is scheduled |
| GameCard.Playback.RunVideoEffect | src/app/gamecard.tsx:171-178 | an unscheduled video is hidden and its timer cleared; a scheduled one gets a fresh timer and stays as it is; only a scheduled video shows or is pending |
| GameCard.Playback.OnStorageEvent | src/app/gamecard.tsx:30-178 | (the two storage listeners, `embedSrc` and the video effect) the muted key re-reads muted, the autoplay key re-reads autoplay, any other key changes nothing; the video effect re-runs when the embed URL or autoplay changed; an event never brings the video up |
| GameCard.Playback.SetFront | src/app/gamecard.tsx:171-178 | a card known to be behind the front hides its video and has no timer |
| GameCard.Playback.TimerElapsed | src/app/gamecard.tsx:176 | the timer shows the video, which is then scheduled |
| Genres.Names | src/app/page.tsx:123-124 | genre names are trimmed and non-empty |
| Genres.AllNames | src/app/page.tsx:123-124 | every name collected from a catalog is trimmed and non-empty |
| Genres.NamesMembership | src/app/page.tsx:124 | a name is collected exactly when it is non-empty and some genre trims to it |
| Genres.AllNamesMembership | src/app/page.tsx:123-124 | a name is collected from a catalog exactly when it is non-empty and some game has a genre that trims to it |
| Genres.GenreListSpec | src/app/page.tsx:121-127 | the genre list has no duplicates; its members are exactly the catalog's trimmed non-empty genres, all trimmed |
| Genres.CollectGenres | src/app/page.tsx:121-127 | the loop builds the insertion-ordered set of the catalog's names |
| HomePage.ReadPrefs | src/app/page.tsx:129-149 | what the `Set` constructor makes of the stored value (an array's elements, nothing for `null`, a JSON string's characters); every genre of the catalog when nothing is stored or reading throws |
| HomePage.FilteredCatalog | src/app/page.tsx:151-154 | nothing when no genre is selected; otherwise exactly the games with a selected trimmed genre |
| HomePage.FilteredCatalogOrder | src/app/page.tsx:153 | the filtered catalog keeps the catalog's order |
| HomePage.DefaultPrefsShowGenredGames | src/app/page.tsx:139-154 | with the default preferences (nothing stored, or a value reading throws on), the deck shows exactly the games that have a non-blank genre |
| HomePage.DeckItems | src/app/page.tsx:156-169 | one card per filtered game, in order |
| HomePage.StoredMode | src/app/page.tsx:95-100 | explore exactly when storage holds the text "explore" |
| HomePage.SwitchMode | src/app/page.tsx:108-111 | explore exactly when the event's detail is "explore" |
| HomePage.ModeRoundTrip | src/app/page.tsx:98-103 | a persisted mode reads back as itself |
| HomePage.Page.constructor | src/app/page.tsx:91-146 | mounting reads the mode and persists it back, and reads the genre preferences |
| HomePage.Page.OnSwitch | src/app/page.tsx:102-111 | the switch event sets the mode, which is persisted |
| HomePage.Page.OnStorageEvent | src/app/page.tsx:147 | any storage event re-reads the preferences and leaves the mode alone |
| Explore.RowOfGame | src/app/explore.tsx:97-102 | one game's entries in a row are that game |
| Explore.RowOfGameMembership | src/app/explore.tsx:97-102 | a game is in a row exactly when one of its genres trims to the row's name |
| Explore.RowMembership | src/app/explore.tsx:95-103 | a row holds exactly the catalog's games with a genre that trims to the row's name |
| Explore.RowOrder | src/app/explore.tsx:95-101 | rows keep the catalog's order |
| Explore.Add | src/app/explore.tsx:98-102 | a blank name is skipped; otherwise the game is appended to the name's array, which is created on first use; other names keep their arrays |
| Explore.GroupFacts | src/app/explore.tsx:97-103 | adding a game's genres adds its names as keys and appends its entries to each name's array |
| Explore.AddGame | src/app/explore.tsx:97-103 | the inner loop adds one game's genres to the map and its new names to the key order |
| Explore.Grouped | src/app/explore.tsx:94-108 | one row per distinct genre name, rows strictly in name order, each row being all the games of that genre in catalog order |
| Explore.SortedEntries | src/app/explore.tsx:106 | the map's entries sorted by name, each once |
| Explore.ToCardData | src/app/explore.tsx:127-139 | the explore card takes the game's id, title, links and video, its first image as the main one, the next four as previews, and its genres joined with ", " |
| LikedPage.AvailableGenres | src/app/liked/page.tsx:199-208 | "All" first, then exactly the trimmed, non-empty genres of the liked games, each once, strictly in name order |
| LikedPage.FilteredLiked | src/app/liked/page.tsx:213-216 | the "All" chip shows every liked game; any other chip shows exactly the liked games with that trimmed genre |
| LikedPage.FilteredLikedOrder | src/app/liked/page.tsx:215 | the filter keeps the liked order |
| LikedPage.ChipNeverEmpty | src/app/liked/page.tsx:199-216 | a genre chip never leads to an empty list |
| LikedPage.ToCardData | src/app/liked/page.tsx:240-253 | the liked card is the deck card without a video |
| LikedPage.LikedView.constructor | src/app/liked/page.tsx:210-218 | the page starts on "All" with no overlay |
| LikedPage.LikedView.ChooseGenre | src/app/liked/page.tsx:339 | a chip makes its genre the active one |
| LikedPage.LikedView.Open | src/app/liked/page.tsx:306 | clicking a game opens it in the overlay |
| LikedPage.LikedView.OnKey | src/app/liked/page.tsx:220-224 | Escape closes the overlay; other keys change nothing |
| YouPage.AllGenres | src/app/you/page.tsx:15-24 | exactly the catalog's trimmed non-empty genres, each once, strictly in name order |
| YouPage.InitialSelection | src/app/you/page.tsx:27-37 | what the `Set` constructor makes of the stored value (an array's elements, nothing for `null`, a JSON string's characters), and empty when nothing is stored or reading throws |
| YouPage.Toggle | src/app/you/page.tsx:103-107 | flips the genre's membership and no other |
| YouPage.ToggleTwice | src/app/you/page.tsx:103-107 | toggling a genre twice restores the selection |
| YouPage.AllOf | src/app/you/page.tsx:109 | "select all" selects exactly the listed genres |
| YouPage.BootstrapSelection | src/app/you/page.tsx:90-101 | once there are genres, the bootstrap selects them all exactly when storage holds nothing usable or the selection is empty |
| YouPage.Settings.constructor | src/app/you/page.tsx:27-74 | mounting reads the selection and both switches, and the persist effects write all three back |
| YouPage.Settings.Bootstrap | src/app/you/page.tsx:90-101 | the bootstrap's selection replaces the current one and is persisted; otherwise nothing changes |
| YouPage.Settings.ToggleGenre | src/app/you/page.tsx:61-107 | the toggled selection is persisted |
| YouPage.Settings.SelectAll | src/app/you/page.tsx:61-109 | every genre is selected and persisted (the page defines `selectAll` but renders no control that calls it) |
| YouPage.Settings.ClearAll | src/app/you/page.tsx:61-110 | the selection is emptied and persisted (the page defines `clearAll` but renders no control that calls it) |
| YouPage.Settings.OnPlaybackToggle | src/app/you/page.tsx:68-387 | each switch flips and persists its own setting; other names change nothing |
| YouPage.Settings.OnStorageEvent | src/app/you/page.tsx:61-87 | on the preferences key, a stored value the `Set` constructor accepts (an array, `null`, a JSON string) replaces the selection, which is then persisted as an array; anything else is ignored |
| YouPage.Settings.ResetSeen | src/app/you/page.tsx:112-120 | the seen key ends up holding the empty array; other keys are untouched |
| YouPage.ResetSeenShowsAll | src/app/you/page.tsx:112-117 | after a reset, the next deck built from storage skips no item |
| YouPage.Visit | src/app/you/page.tsx:27-101 | a non-empty selection read from storage survives a visit; otherwise every genre of the catalog ends up selected; storage holds the selection either way |
| Submission.Get | src/app/submission/page.tsx:97 | `fd.get` yields a value exactly for a present field |
| Submission.FieldOr | src/app/submission/page.tsx:98-108 | a missing or empty field gives the fallback; non-empty text gives itself |
| Submission.ReadForm | src/app/submission/page.tsx:97-108 | each text field is its submitted value trimmed, "" when missing; the publisher is absent exactly when it is blank and otherwise its trimmed value; the age rating is the submitted value, untrimmed, or "Not Rated" when it is missing or empty; rights are confirmed exactly by the checkbox value "on" |
| Submission.LinksOver | src/app/submission/page.tsx:111-114 | the pass over the keys keeps exactly the keys whose trimmed value is non-empty, each with that value |
| Submission.CollectLinks | src/app/submission/page.tsx:110-114 | a link for exactly the platforms with a non-blank value, holding that trimmed value; no links exactly when no platform has one |
| Submission.NatToString | src/app/submission/page.tsx:137 | a slot number is written as decimal digits |
| Submission.NatToStringRoundTrip | src/app/submission/page.tsx:137 | the digits read back as the number |
| Submission.NatToStringInjective | src/app/submission/page.tsx:137 | distinct slots have distinct field names |
| Submission.SlotFiles | src/app/submission/page.tsx:135-139 | at most one file per slot |
| Submission.SlotFilesMembership | src/app/submission/page.tsx:136-139 | a file is collected exactly when some slot from 1 to 5 holds it and it is not empty |
| Submission.CollectFiles | src/app/submission/page.tsx:135-139 | the loop collects the non-empty files of slots 1 to 5, in slot order |
| Submission.OnSubmit | src/app/submission/page.tsx:116-151 | each error message is given exactly when its check is the first to fail, in the page's order; otherwise the upload plan holds the form, the links and the files, under `GameCardFootage/<id>` |
| Submission.SafeName | src/app/submission/page.tsx:159 | same length; every character is safe; safe characters are kept |
| Submission.SafeNameIdempotent | src/app/submission/page.tsx:159 | sanitising twice is sanitising once, and a safe name is unchanged |
| Submission.UploadPath | src/app/submission/page.tsx:160 | every upload path lies inside the game's folder |
| Submission.UnderscoreSplit | src/app/submission/page.tsx:160 | two paths whose underscore-free heads are joined to their tails by `_` split the same way, so the timestamp and index fields can be read back unambiguously |
| Submission.PathsDistinct | src/app/submission/page.tsx:157-160 | uploads at different indexes get different paths, whatever the clock says |
| Submission.UploadPaths | src/app/submission/page.tsx:157-160 | one path per file, each inside the folder, all pairwise distinct |
| Submission.Present | src/app/submission/page.tsx:83 | the filter leaves no empty part |
| Submission.Wrap | src/app/submission/page.tsx:82-83 | `wrap` joins the class and the extra class with a space, leaving out whichever is empty |

## Left out

- Rendering, styles, animation easing, the DOM and React's scheduling are not modelled. Effects that persist a value run synchronously after the change that triggers them.
- The network is not modelled. The Supabase fetch of the catalog, the uploads, the public URLs and the insert of the submission are left out; the fetch's result is a parameter of `GameLoad.GameStore.LoadCompleted`.
- `Math.random`, `Date.now()` and `window.innerWidth` are parameters. `Submission.UploadPaths` takes one clock reading per file.
- Timers are modelled only through their order. `FLING_MS` fires the oldest scheduled `onSwiped`, and any release-glyph timer clears the glyph.
- CardDeck.ShuffleArray: states that the result is a permutation, not that the shuffle is uniform. Randomness is outside the model.
- `JSON.parse`, `new URL` and `encodeURIComponent` are parameters. Stored values are classified as an array of strings, a boolean, `null`, a JSON string, another JSON value (a number or an object) or unparsable text. Arrays holding non-strings are not modelled, and an object with its own `filter` member is treated like any other object.
- A failed `localStorage` write and exceptions thrown by storage are not modelled. All the source's writes are wrapped in `try` and ignore failures.
- Pixel positions and scroll offsets are real numbers, not IEEE doubles.
- `localeCompare` is replaced by code-point order.
- Hostnames are lowercased for ASCII letters only.
- `safeName` works on code points; JavaScript's regular expression works on UTF-16 units.
- A form field submitted several times under one name is not modelled; each name has one value.
- Pointer-cancel during a drag always snaps back, even past the threshold, because the source's cancel handler only resets.
- In src/app/explore.tsx, the branch for a genre that is not an array cannot happen for a loaded `Game`, whose genres are always a list.
- In src/app/you/page.tsx, the bootstrap also replaces a stored empty selection with every genre. The model follows the code.
- The home page lists its genres in insertion order. The settings and liked pages sort them.
- GameCard.FormatLinkLabel: only general facts are proved: the leftmost match is replaced, and keys naming no store stay unchanged. No concrete label is computed.
- The home page's resize scaling and the liked page's filter popover visibility are not modelled. Neither changes any data.
- GameCard.Playback.constructor: models the state once the mount effects have settled. In the source, autoplay starts as `true` for one render before the stored value is read, and the video effect can run once with that value before it re-runs.
- In src/app/you/page.tsx, `selectAll` and `clearAll` are defined but no rendered control calls them. They are modelled as the operations they would be.
- The gestures, keys and clicks of the lightbox other than its index arithmetic are not modelled. That covers opening, closing and the links menu.
