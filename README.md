# Dokdo rock explorer: a Dafny model of its client-side logic

The Dokdo education site lets a visitor explore named rock formations on Dokdo's two
islands, 동도 (Dongdo, east) and 서도 (Seodo, west). The site has an overview page, where a 3D
model carries one hotspot per rock beside a list of rocks. It also has a detail page per
rock, with a 3D model or a video, narration by the browser's speech engine, and a sidebar
of both islands' rocks. Two preferences are kept in browser storage: background music and
narration. A background-music controller follows the music preference.

This project models that logic in Dafny and proves properties of it:

- `rocks.dfy`, module `Rocks`: the rock record, detail routes, and the island filter used
  by the detail page's sidebar. Proved: the filter keeps order, keeps sortedness, and
  splits the list exactly.
- `embed_url.dfy`, module `EmbedUrl`: `getYoutubeEmbedUrl`. It is an explicit scanner with
  JavaScript regular-expression semantics. A declarative reading of the pattern states
  which match JavaScript reports: the leftmost start, and there the alternative written
  first, with the greedy `.+` taking the last `&v=` on the line. The scanner is proved to
  return exactly that match's capture, in both directions. Also proved: the accepted link shapes, tail dropping,
  and idempotence.
- `rock_detail.dfy`, module `RockDetail`: the detail page's state as a class. It holds the
  narration toggle, the video and sidebar toggles, and navigation. Also here: the sidebar
  sections and their highlight.
- `home.dfy`, module `Home`: the hotspot table and lookup, hotspot and list generation, and
  the overview page's state as a class. That state is the sidebar and developer-mode
  toggles plus navigation.
- `settings.dfy`, module `Settings`: the settings store as a class. It covers load with
  default merge and parse-failure fallback, the render gate, write-through update, and the
  `useSettings` guard.
- `settings_modal.dfy`, module `SettingsModal`: the settings dialog. It is a pure function
  of `isOpen` and the settings, plus the effect of each click on the store.
- `bgm_player.dfy`, module `Bgm`: the lazily created audio handle, driven by the music flag.
- `wrappers.dfy`: `Option` and `Result`.

Calls to the outside are recorded in sequence fields: router pushes in `pushed`, speech
requests in `speechCalls`. Browser storage is a `map<string, string>`. `JSON.parse` is
passed in as a function. The browser's autoplay decision is a `bool` parameter.

### Notes on the source

- Ordering field: the record type declares `order_index` (src/types/rock.ts:11), and the
  pages sort by it (src/app/page.tsx:9). The components read `display_order` instead
  (src/components/HomeClient.tsx:139, src/components/RockDetailClient.tsx:213). If the rows
  carry only `order_index`, every hotspot would fall back to `"0m 0.5m 0m"`. The model uses
  one field, `displayOrder`.
- The overview list is one flat list in listing order. It is not grouped by island
  (src/components/HomeClient.tsx:204-215).
- The video toggle is offered whenever `youtube_url` is non-empty. This holds even when no
  identifier can be extracted; the frame's `src` is then `""`
  (src/components/RockDetailClient.tsx:89-91, 134).
- The code has no automatic narration after two seconds and cancels no speech on unmount.
  The narration setting does not gate anything on the detail page. The ⚙️ buttons have no
  handler. None of this is modelled.
- A stored empty string counts as "nothing saved" (`if (saved)`), so it leaves the defaults.

## Model

| member | source | states |
|---|---|---|
| `Rocks.DetailRoute` | src/components/RockDetailClient.tsx:204 | the detail route starts with `/rocks/` and continues with exactly the rock's id |
| `Rocks.OnIsland` | src/components/RockDetailClient.tsx:23-24 | every rock kept is on the island; each rock occurs as often as in the input if it is on the island, else never |
| `Rocks.IslandsPartition` | src/components/RockDetailClient.tsx:23-24 | the 동도 and 서도 lists together hold every rock exactly once (multisets and lengths add up) |
| `Rocks.OnIslandIsSubsequence` | src/components/RockDetailClient.tsx:23-24 | each island list is an order-preserving subsequence of `allRocks` |
| `Rocks.OnIslandKeepsSorted` | src/components/RockDetailClient.tsx:23-24 | a list sorted by display order stays sorted after the island filter |
| `Rocks.CountIdSplits` | src/components/RockDetailClient.tsx:23-24 | occurrences of an id in both island lists add up to its occurrences in the whole list |
| `EmbedUrl.EmbedUrlOf` | src/components/RockDetailClient.tsx:60-66 | `""` for an empty link; otherwise `""` or the embed prefix followed by a non-empty id without `&` or `?` |
| `EmbedUrl.CaptureAtExact` | src/components/RockDetailClient.tsx:63 | the scanner's capture equals the group `([^&?]+)` read declaratively (maximal run), both directions |
| `EmbedUrl.MatchAtSound` | src/components/RockDetailClient.tsx:62-64 | whatever the scanner finds at a position is a match of the pattern there |
| `EmbedUrl.MatchAtComplete` | src/components/RockDetailClient.tsx:62-64 | if the pattern matches at a position in any way, including the greedy `/watch?.+&v=` form, the scanner reports a match there |
| `EmbedUrl.MatchAtPreferred` | src/components/RockDetailClient.tsx:62-64 | the scanner's match at a position is the one backtracking tries first: no marker of an earlier alternative has a capture, and no `&v=` later on the line completes |
| `EmbedUrl.PreferredUnique` | src/components/RockDetailClient.tsx:62-64 | at one start position only one capture is the one tried first |
| `EmbedUrl.MatchAtIffPreferred` | src/components/RockDetailClient.tsx:62-64 | the scanner returns `id` at a position iff `id` is the capture of the match tried first there |
| `EmbedUrl.LeftmostMatchReported` | src/components/RockDetailClient.tsx:60-66 | when the match JavaScript reports captures `id`, the result is the embed prefix followed by `id` |
| `EmbedUrl.EmbedUrlFollowsPattern` | src/components/RockDetailClient.tsx:60-66 | the result is `""` iff the pattern matches nowhere; otherwise it is the embed URL of the capture of the match JavaScript reports (leftmost start, first alternative, last `&v=`), and of no other |
| `EmbedUrl.SameVideoFromEveryShape` | src/components/RockDetailClient.tsx:63 | `youtu.be/ID`, `youtube.com/watch?v=ID`, `youtube.com/embed/ID`, `youtube.com/v/ID` give the same embed URL, and a `&…`/`?…` tail is dropped |
| `EmbedUrl.EmbedUrlIdempotent` | src/components/RockDetailClient.tsx:60-66 | feeding the result back in returns it unchanged |
| `EmbedUrl.NoVideoWithoutY` | src/components/RockDetailClient.tsx:65 | a link that contains no `y` cannot match, so it gives `""` |
| `RockDetail.NarrationText` | src/components/RockDetailClient.tsx:51-53 | the spoken text is the name, then `". "`, then the description |
| `RockDetail.Section` | src/components/RockDetailClient.tsx:200-243 | one entry per rock of the island, in order, with its id, order and name, highlighted iff its id is the current rock's |
| `RockDetail.NoRocksMessage` | src/components/RockDetailClient.tsx:216-218 | "바위 없음" shows under an island iff its section is empty, iff no listed rock is on that island (the same for 서도 at lines 244-246) |
| `RockDetail.ExactlyOneHighlighted` | src/components/RockDetailClient.tsx:207-211 | with unique ids and the current rock listed, exactly one entry is highlighted over both sections |
| `RockDetail.DetailView.constructor` | src/components/RockDetailClient.tsx:15-17 | sidebar closed, not speaking, no calls made; `ShowsVideo()` is false, so the 3D viewer is shown rather than the video frame (line 89) |
| `RockDetail.DetailView.VideoSource` | src/components/RockDetailClient.tsx:89-91 | no link gives an empty `src`; otherwise the `src` is `""` or an embed URL |
| `RockDetail.DetailView.PressNarration` | src/components/RockDetailClient.tsx:44-58 | while speaking: one `cancel`, now idle, nothing spoken; while idle: speaks name + ". " + description in `ko-KR`, now speaking; nothing else changes |
| `RockDetail.DetailView.SpeechEnded` | src/components/RockDetailClient.tsx:55 | the end event returns narration to idle and changes nothing else |
| `RockDetail.DetailView.ToggleVideo` | src/components/RockDetailClient.tsx:134-142 | offered only with a non-empty link; flips video mode and nothing else; since the link is non-empty, it switches between the video frame and the 3D viewer (`ShowsVideo()`, line 89) |
| `RockDetail.DetailView.ToggleSidebar` | src/components/RockDetailClient.tsx:72 | flips the sidebar and nothing else |
| `RockDetail.DetailView.ClickOverlay` | src/components/RockDetailClient.tsx:254-258 | the overlay exists only while the sidebar is open; a click closes it and changes nothing else |
| `RockDetail.DetailView.GoBack` | src/components/RockDetailClient.tsx:82 | pushes `/` and changes nothing else |
| `RockDetail.DetailView.SelectEntry` | src/components/RockDetailClient.tsx:203-206 | pushes the chosen rock's detail route and closes the sidebar; narration and video are unchanged |
| `RockDetail.PressTwice` | src/components/RockDetailClient.tsx:44-58 | from idle, two presses speak once, cancel once, and end idle: no second utterance is started |
| `Home.HotspotPosition` | src/components/HomeClient.tsx:40-42 | the lookup is total and never yields an empty coordinate string |
| `Home.AuthoredOrders` | src/components/HomeClient.tsx:10-38 | the authored orders are exactly 1 through 24 |
| `Home.HotspotPositionLookup` | src/components/HomeClient.tsx:10-42 | orders 1–24 get their authored coordinate; every other order gets `"0m 0.5m 0m"` |
| `Home.Hotspots` | src/components/HomeClient.tsx:134-147 | exactly one hotspot per rock, in input order, with slot `hotspot-<id>`, the looked-up position, normal `"0m 1m 0m"` and target `/rocks/<id>` |
| `Home.HotspotsIdentifyRocks` | src/components/HomeClient.tsx:136-141 | with unique ids, different hotspots have different slots and different targets |
| `Home.ListEntries` | src/components/HomeClient.tsx:204-215 | one list entry per rock, in input order, with its id, order and name |
| `Home.EmptyMessageIffNoEntries` | src/components/HomeClient.tsx:216-218 | the "바위 없음" message shows iff there are no entries (and no hotspots) |
| `Home.Overview.constructor` | src/components/HomeClient.tsx:46-47 | sidebar closed, developer mode off, nothing pushed |
| `Home.Overview.ToggleSidebar` | src/components/HomeClient.tsx:112 | flips the sidebar and nothing else |
| `Home.Overview.ClickOverlay` | src/components/HomeClient.tsx:225-229 | the overlay exists only while the sidebar is open; a click closes it and changes nothing else |
| `Home.Overview.ToggleDevMode` | src/components/HomeClient.tsx:181 | flips developer mode and nothing else |
| `Home.Overview.ClickHotspot` | src/components/HomeClient.tsx:141 | pushes `/rocks/<id>` of that hotspot's rock; the sidebar is untouched |
| `Home.Overview.ClickListEntry` | src/components/HomeClient.tsx:207-210 | pushes `/rocks/<id>` of that entry's rock and closes the sidebar |
| `Settings.Merge` | src/contexts/SettingsContext.tsx:43 | each field present in the partial takes its value; each absent field keeps the old one |
| `Settings.MergeIdempotent` | src/contexts/SettingsContext.tsx:43 | applying the same partial twice equals applying it once |
| `Settings.MergeComposes` | src/contexts/SettingsContext.tsx:41-47 | two successive updates equal one update with the later fields winning |
| `Settings.MergeExtremes` | src/contexts/SettingsContext.tsx:32 | an empty partial changes nothing; a full one replaces everything |
| `Settings.Serialize` | src/contexts/SettingsContext.tsx:44 | the stored text is a non-empty JSON object, so a later load does not read it as "nothing saved" |
| `Settings.SerializeInjective` | src/contexts/SettingsContext.tsx:44 | different settings are stored as different text |
| `Settings.LoadCases` | src/contexts/SettingsContext.tsx:27-38 | nothing or `""` saved gives the defaults; a parse failure gives exactly the defaults; a parsed blob overrides exactly the fields it has |
| `Settings.ReloadSeesUpdate` | src/contexts/SettingsContext.tsx:28-44 | with a parser that reads back what was written, loading after an update yields the updated settings |
| `Settings.UseSettings` | src/contexts/SettingsContext.tsx:60-66 | outside a provider it raises the "must be used within a SettingsProvider" error; inside it returns the provided settings |
| `Settings.Store.constructor` | src/contexts/SettingsContext.tsx:15-24 | starts at the defaults (music off, narration on), not loaded, with the given storage |
| `Settings.Store.Rendered` | src/contexts/SettingsContext.tsx:49-57 | the provider renders nothing until loaded, and then provides the current settings |
| `Settings.Store.Load` | src/contexts/SettingsContext.tsx:27-38 | the settings become those derived from storage (see `LoadCases`); the store is loaded; storage is untouched |
| `Settings.Store.Update` | src/contexts/SettingsContext.tsx:41-47 | the settings become the merge; the storage key now holds the serialisation of the new settings (write-through) |
| `Settings.UpdateTwice` | src/contexts/SettingsContext.tsx:41-47 | two identical updates leave settings and storage as one update does |
| `SettingsModal.EffectOf` | src/components/SettingsModal.tsx:19-82 | the backdrop and the X button, and only they, call `onClose` |
| `SettingsModal.SettingsAfter` | src/components/SettingsModal.tsx:45-82 | music buttons set only `bgmEnabled` (on → true, off → false); narration buttons set only `ttsEnabled`; closing changes nothing; the clicked button is highlighted afterwards |
| `SettingsModal.OneOfEachPairHighlighted` | src/components/SettingsModal.tsx:47-86 | for each setting exactly one of its two buttons is highlighted: "on" iff the flag is set |
| `SettingsModal.Rendered` | src/components/SettingsModal.tsx:13-86 | nothing is rendered while closed; otherwise the four buttons, in order, each with its highlight |
| `SettingsModal.Click` | src/components/SettingsModal.tsx:19-82 | a setting button updates the store, writing through; a close control reports closing and leaves settings and storage alone |
| `Bgm.AudioHandle.constructor` | src/components/BGMPlayer.tsx:23 | a new audio element is paused, not looping, at full volume |
| `Bgm.AudioHandle.Play` | src/components/BGMPlayer.tsx:32-34 | playback starts when allowed; a rejected attempt changes nothing |
| `Bgm.AudioHandle.Pause` | src/components/BGMPlayer.tsx:36 | the element is paused; loop and volume are kept |
| `Bgm.Player.constructor` | src/components/BGMPlayer.tsx:13-14 | no handle yet; the effect has not run |
| `Bgm.MountPlayer` | src/components/BGMPlayer.tsx:10-14 | the component as mounted plays the site's own track address, which is non-empty, so the effect's guard lets it through |
| `Bgm.Player.Render` | src/components/BGMPlayer.tsx:16-42 | the effect reruns only when the flag changes; with no track (absent or `""`, as `!BGM_URL`) it does nothing; the handle is created once (looped, volume 0.15) and then kept; flag on plays (a refusal is swallowed); flag off pauses |
| `Bgm.Player.Unmount` | src/components/BGMPlayer.tsx:45-52 | unmounting pauses the handle and drops it |

## Left out

- Zoom in and out (src/components/RockDetailClient.tsx:26-42, src/components/HomeClient.tsx:90-106): floating-point camera arithmetic on the 3D viewer, found by a DOM lookup.
- AR activation, the `model-viewer` attributes and the dynamic import of the viewer: calls into a foreign web component.
- The developer coordinate picker (src/components/HomeClient.tsx:54-87): DOM hit-testing, `toFixed` on floats, the clipboard and console output. Only the `devMode` flag is kept.
- src/app/page.tsx and src/app/rocks/[id]/page.tsx: database queries. Their ordering is done by the database, and their error→`[]`/`null` fallbacks are I/O plumbing.
- src/hooks/useSFX.ts, src/components/RockCard.tsx, src/app/layout.tsx, src/types/model-viewer.d.ts: a fresh `Audio` per click, presentation, composition, and type declarations.
- Rock fields `features`, `image_url`, `audio_url`, `created_at`: nothing in the modelled code depends on them. `model_url` only picks a placeholder, which is not modelled.
- The speech engine's own queue and timing: only the calls the page makes to it are recorded. A cancelled utterance's `onend` is the same `SpeechEnded` event.
- Settings.Store.Load: `JSON.parse` is a parameter. Stored keys other than the two flags, which the spread would carry along and later re-serialise, are not modelled. Stored non-boolean field values (for example `"bgmEnabled": 1`) are not modelled either.
- Settings.Store.Update: React's batching and the double call of updater functions in development mode are not modelled; each update is applied at once.
- Sidebar labels `${display_order}. ${name}`: the entries carry the number and the name, but the number's decimal formatting is not modelled.
- Strings are sequences of Unicode characters, not UTF-16 code units. The pattern never names a character outside the Basic Multilingual Plane, so this changes no match.
- CSS classes, layout, and the rule that the sidebar is always visible on wide screens.
