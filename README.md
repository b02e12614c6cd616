# telegram-ytdl core, modelled in Dafny

This project models the decision-making core of the telegram-ytdl bot (`bot.py`). The bot is a Telegram bot that takes a URL from an allowed user and asks yt-dlp which formats exist. It offers the user a video/audio menu and then a high/medium/low quality menu, and downloads the chosen tier. The model covers these parts:

- **Format classifier** (`classifier.dfy`, `download_context.dfy`). `DownloadContext.process_formats` and `update_from_info` work over yt-dlp format records:
  - records are filtered into a muxed video list and an audio-only list;
  - the stable descending sort is `list.sort(key=..., reverse=True)`, defined in `lists.dfy`;
  - the first-match `next(...)` chains fill the `high`/`medium`/`low` tiers.
- **Serial job queue** (`work_queue.dfy`). The `Queue` class has `add` and the `bump` drain loop.
- **Preference store and translation cache** (`preferences.dfy`, `translation.dfy`, `nested_maps.dfy`). Both are two-level dictionaries keyed by strings.
- **Session map and callback dispatch** (`callbacks.dfy`, `bot.dfy`):
  - the `download_contexts` map of `TelegramYTDLBot`;
  - the URL-message, probe, button-press and download-end handlers;
  - the callback payload protocol;
  - the two menus;
  - the yt-dlp format selector.
- **Small helpers:**
  - `escape_code`, `remove_hashtags_mentions` and `chunk_array` (`helpers.dfy`);
  - whitelist parsing and `is_whitelisted` (`environment.dfy`);
  - `get_thumbnail` (`thumbnails.dfy`);
  - the delay arithmetic of `Updater._schedule_next_update` (`schedule.dfy`).
- **Python semantics the core relies on** (`strings.dfy`, `lists.dfy`): `str.strip`, `str.split`, `str.isdigit`, `int()`, `str(int)` and `in` on strings, `next(gen, default)`, and the stable sort.

The model follows the source's own form:
- `Queue`, `UserPreferences`, `TranslationService`, `DownloadContext` and `TelegramYTDLBot` (here `Bot`) are classes whose methods update their fields.
- The loops of `process_formats`, `escape_code`, the whitelist parser, `get_thumbnail`, `bump`, the URL-entity scan and the quality keyboard are methods with loop invariants. Each is proved against its contract or a specification function.
- The rest is functions and lemmas.

Telegram, yt-dlp and OpenAI are outside the model. Their answers arrive as parameters:
- the probe result of `extract_info`;
- the reply of the chat-completion call;
- whether each queued job raises;
- how far a download got.

What the bot would send back is returned as a reply value.

Some behaviour of the code as written, which the model keeps:
- The error path of `process_url` (bot.py:1478-1491) does not remove the session, so a failed probe leaves it in the map.
- Callback data carries only a prefix and a choice, never a session identity. A button from an old menu therefore acts on whatever session the user has now. The "session has expired" answer comes only when the user has no session at all (bot.py:1103-1107).
- `is_whitelisted` (bot.py:955-962) checks only the whitelist. Apart from a startup log line (bot.py:184), the admin id is used only as the target of notices (bot.py:969-971, 1190-1192), and `is_whitelisted` does not admit it.
- The high video tier is always the first entry of the sorted list. In a list sorted by height first, "first with height ≥ 1080, else first with height ≥ 720, else the first entry" is always index 0.

## Model

| member | source | states |
|---|---|---|
| Strings.StripStartFacts | bot.py:120 | the left half of `str.strip`: the result is a suffix of the input that is empty or starts with a non-space, and everything removed is whitespace |
| Strings.StripEndFacts | bot.py:120 | the right half of `str.strip`: the result is a prefix of the input that is empty or ends with a non-space, and everything removed is whitespace |
| Strings.Split | bot.py:119 | `str.split(sep)` gives at least one part, and no part contains the separator |
| Strings.SplitJoin | bot.py:119 | splitting a separator-joined list of separator-free parts gives the parts back |
| Strings.IntToStringInjective | bot.py:282 | different user ids give different `str(user_id)` keys |
| Strings.ParseIntRoundTrip | bot.py:608 | `int()` of a rendered integer gives the integer back |
| Helpers.EscapeCode | bot.py:324-334 | the loop over the five replacements computes `EscapedText`, the per-character expansion |
| Helpers.ReplaceAllIsExpansion | bot.py:325-333 | five whole-text replacements in table order equal replacing each input character by its expansion |
| Helpers.EscapedTextHasNoAngles | bot.py:325-333 | the escaped text contains no `<` and no `>` |
| Helpers.EscapedTextKeepsPlainText | bot.py:325-333 | text without any of the five characters comes out unchanged |
| Helpers.EscapeCodeDoubleEscapes | bot.py:326-330 | as written, `<` becomes `&amp;lt;` and a backtick becomes two backslashes and a backtick; unescaping `<`'s output gives `&lt;`, not `<` |
| Helpers.EscapeCodeOnceRoundTrip | bot.py:324-334 | the single-pass escape (each character replaced once by its table entry) is undone by unescaping, for every text |
| Helpers.RemoveHashtagsMentionsFacts | bot.py:337-340 | after removal no `#`/`@` is followed by a non-space character; text with no `#`/`@` is only stripped |
| Helpers.SkipWordIsSuffix | bot.py:340 | the greedy `\S+` consumes exactly a leading run of non-space characters and leaves the rest of the text |
| Helpers.DropTagsLeavesNoTags | bot.py:340 | the `[#@]\S+` removal leaves no tag behind |
| Helpers.DropTagsKeepsUntagged | bot.py:340 | the removal changes nothing in text without `#`/`@` |
| Helpers.ChunkArray | bot.py:342-344 | a zero chunk size raises; a negative one gives no chunks; a positive one gives non-empty chunks of at most that size whose concatenation is the array |
| Helpers.ChunksConcat | bot.py:344 | concatenating the chunks gives the array back |
| Helpers.ChunksShape | bot.py:344 | every chunk but the last has exactly `size` elements; the count is the number of indices of `range(0, len, size)` |
| Lists.Find | bot.py:722-746 | the index found is the first whose element satisfies the filter; none is found only when no element does |
| Lists.Next | bot.py:722-746 | `next(gen, default)` returns the first satisfying element in list order when one exists, otherwise the default |
| Lists.SortDescPermutes | bot.py:707-710 | sorting keeps every element, each as often (a permutation) |
| Lists.SortDescSorted | bot.py:707-710 | after sorting, no element's key is less than a later element's key |
| Lists.SortDescStable | bot.py:707-710 | elements with equal keys keep their input order (Python's sort is stable) |
| Lists.SortDescMembers | bot.py:707-710 | sorting keeps the length and the set of elements |
| Lists.FindIsBest | bot.py:722-746 | in a descending list, the first match of a filter has the greatest key among all matches |
| Classifier.UsableExclusive | bot.py:665-685 | no record enters both lists |
| Classifier.VideoCandidatesMembers | bot.py:663-684 | the video list holds exactly the converted records with both codecs not `'none'` (absent counts as `'none'`), a truthy height and `tbr > 0` |
| Classifier.AudioCandidatesMembers | bot.py:685-697 | the audio list holds exactly the converted records with an audio codec, no video codec and a truthy `abr` |
| Classifier.VideoCandidatesEmpty | bot.py:663-684 | the video list is empty iff no record is usable as video |
| Classifier.AudioCandidatesEmpty | bot.py:685-697 | the audio list is empty iff no record is usable as audio |
| Classifier.ClassifyFails | bot.py:702-704 | `process_formats` raises "No valid formats found for this video" exactly when no record is usable |
| Classifier.VideoTiersShape | bot.py:713-746 | a non-empty video list fills all three tiers with its own elements; an empty one leaves them `None` |
| Classifier.AudioTiersShape | bot.py:713-779 | a non-empty audio list fills all three tiers with its own elements; an empty one leaves them `None` |
| Classifier.SortedVideoTiers | bot.py:707-746 | the tiers of the sorted video list are elements of the unsorted list |
| Classifier.SortedAudioTiers | bot.py:710-779 | the tiers of the sorted audio list are elements of the unsorted list |
| Classifier.ClassifyTiers | bot.py:702-779 | after success, a kind with a usable record has three tiers taken from its list, and a kind without one has three `None` tiers |
| Classifier.VideoHighIsBest | bot.py:722-728 | the high video tier is the first sorted entry, whose (height, tbr) no entry exceeds |
| Classifier.UnderCapIsBest | bot.py:731-746 | in a list sorted best first, the nested `next` with a cap and a fallback cap returns the best entry under the cap, else the best under the fallback, else the last entry |
| Classifier.VideoMediumIsBestUnderCap | bot.py:731-737 | medium is the best entry of height ≤ 720; else the best of height ≤ 1080; else the last entry |
| Classifier.VideoLowIsBestUnderCap | bot.py:740-746 | low is the best entry of height ≤ 480; else the best of height ≤ 720; else the last entry |
| Classifier.VideoTierHeights | bot.py:707-746 | height(high) ≥ height(medium) ≥ height(low) |
| Classifier.AudioHighIsBest | bot.py:764-767 | the high audio tier is the first sorted entry, with the greatest `abr` |
| Classifier.AudioLowerTiersAreBestInBand | bot.py:770-779 | medium is the best entry with 128 ≤ abr < 256, else high; low is the best with abr ≤ 128, else medium |
| Classifier.AudioTierBitrates | bot.py:710-779 | abr(high) ≥ abr(medium) ≥ abr(low) |
| Classifier.ClassifyTierOrder | bot.py:706-779 | a successful classification keeps both tier orderings |
| Classifier.ExampleCandidates | bot.py:658-719 | for records 1080p/4000 muxed, 480p/800 muxed and audio-only 128: the first two enter the video list in record order and the third the audio list, with `mp4`/`mp3` and size 0 filled in |
| Classifier.ExampleTiers | bot.py:720-779 | sorted best first, the 1080p entry is the high video tier and the 480p entry both lower tiers (the first at most 720 and at most 480 high); the 128 kbps entry fills all three audio tiers |
| Classifier.ExampleClassification | bot.py:658-779 | for records 1080p/4000, 480p/800 and audio 128: video tiers are 1080p, 480p, 480p and all audio tiers are the 128 entry |
| Context.InfoOutcomeFails | bot.py:640-656 | `update_from_info` raises exactly when `formats` is absent or no record is usable |
| Context.DownloadContext.constructor | bot.py:622-634 | a new context has every field unset, both flags false and no formats |
| Context.DownloadContext.ProcessFormats | bot.py:658-779 | the loop builds exactly the candidate lists; it succeeds iff classification does, stores the classified tiers, and leaves `formats` untouched when it raises |
| Context.DownloadContext.UpdateFromInfo | bot.py:640-656 | info, title (tags removed; `Untitled` when absent) and the two stream flags (`info.get(k) != 'none'`) are set before the formats; failures are re-raised with the "Failed to process video information: " prefix |
| Environment.ParseWhitelist | bot.py:116-121 | the parsing loop returns the ids of the comma-separated entries that strip to ASCII digits, in order |
| Environment.ValidIdsMembers | bot.py:119-121 | an id is listed iff some entry parses to it |
| Environment.ValidIdsEmpty | bot.py:119-121 | the list is empty iff no entry parses |
| Environment.WhitelistGuardRedundant | bot.py:118 | the blank-value guard gives the same list as parsing without it |
| Environment.WhitelistAdmits | bot.py:116-121 | a user passes `is_whitelisted` iff no entry parses or some entry parses to that user's id |
| Environment.EntryIdOfNumber | bot.py:120-121 | a decimal rendering of an id is an entry that parses to that id |
| Environment.WhitelistRoundTrip | bot.py:116-121 | a comma-joined list of ids parses back to the same list |
| Schedule.SecondsUntilUpdate | bot.py:475-490 | for a valid clock time the delay is 1..86400 seconds and lands exactly on 04:20:00 |
| Schedule.SecondsUntilUpdateIsNext | bot.py:475-490 | no shorter positive delay lands on 04:20:00 |
| Schedule.AtTargetWaitsADay | bot.py:481-485 | at exactly 04:20:00 the next update is a full day away |
| Thumbnails.GetThumbnail | bot.py:588-618 | an empty list gives `None`; otherwise the last thumbnail that fits 320×320 (by width/height or a `WxH` resolution), or the first one when none fits |
| Thumbnails.ParseResolutionRoundTrip | bot.py:608 | a `WxH` resolution built from two integers parses back to them |
| NestedMaps.Put | bot.py:289-292 | the new entry reads back; every other (key, key) pair reads as before; the outer key set gains only the new key |
| Preferences.LookupAfterStore | bot.py:280-293 | after setting a preference, getting it returns the value, whatever the default |
| Preferences.LookupOtherAfterStore | bot.py:280-293 | setting one (user, key) changes no other user's or key's value |
| Preferences.LookupMissing | bot.py:283-285 | a missing user or key returns the supplied default |
| Preferences.UserPreferences.constructor | bot.py:264-266 | the store starts as the loaded document |
| Preferences.UserPreferences.SetUserPreference | bot.py:287-293 | the document becomes the stored one, and the value reads back |
| Translation.TranslateKeepsEntries | bot.py:450-453 | the cache only grows: every saved translation survives a call |
| Translation.TranslateHitIgnoresReply | bot.py:424-426 | a cached translation is returned whatever the remote call would say |
| Translation.TranslateTwice | bot.py:419-456 | once a translation is cached, asking again returns it and leaves the cache alone |
| Translation.TranslateFallsBack | bot.py:421-460 | without a key, or with an empty or raised reply, the text comes back unchanged and nothing is cached |
| Translation.TranslationService.constructor | bot.py:402-405 | the service starts with its key and the loaded cache |
| Translation.TranslateStoresAnswer | bot.py:445-455 | with a key and no cached entry, a non-empty answer is returned and saved under the text and language |
| Translation.TranslationService.TranslateText | bot.py:419-460 | the returned text and the new cache are those of `Translate` on the old cache |
| WorkQueue.AddedInOrder | bot.py:396-397 | executors added one after another leave the queue in that order, after those already queued |
| WorkQueue.Queue.constructor | bot.py:370-373 | a new queue is empty and not running |
| WorkQueue.Queue.Add | bot.py:396-398 | `add` appends at the tail and leaves `running` alone |
| WorkQueue.Queue.Bump | bot.py:381-394 | while running, returns at once and changes nothing; otherwise runs every executor in FIFO order, skipping falsy entries, goes on past raising jobs, and ends empty and not running |
| Callbacks.Route | bot.py:1112-1165 | dispatch on `format:`/`vq:`/`aq:` and the exact `cancel`; each action is determined by its payload, and unknown exactly when no prefix matches |
| Callbacks.RouteOfPayload | bot.py:245-249 | every action's payload is dispatched back to that action |
| Callbacks.PayloadOfRoute | bot.py:1112-1165 | every payload that is not unknown is the payload of the action it is dispatched to |
| Callbacks.FormatMenu | bot.py:1493-1529 | a video button iff the info announced video, an audio button iff it announced audio, video before audio, then cancel |
| Callbacks.FormatMenuRoutes | bot.py:1500-1521 | every format-menu button is dispatched to choosing a kind or to cancel |
| Callbacks.Slot | bot.py:1271-1276 | a tier lookup finds something only for high, medium or low |
| Callbacks.QualityButtonsFacts | bot.py:1557-1577 | every quality row names a filled tier, and every filled tier has a row |
| Callbacks.QualityKeyboard | bot.py:1533-1592 | the loop builds one row per filled tier in high/medium/low order, then back and cancel; it raises `KeyError` before any classification |
| Callbacks.QualityButtonsRoute | bot.py:1572-1577 | every quality button is dispatched to downloading a filled tier of its kind |
| Callbacks.Selector | bot.py:1271-1299 | audio asks for `bestaudio/best`; video asks for the tier's format id merged with the best audio, or format 18 when there is no tier or no id |
| Callbacks.HighSelectorIsBest | bot.py:1271-1287 | after a classification with usable video, the high video selector names the record with the greatest (height, tbr) |
| Callbacks.ReleaseAsWritten | bot.py:1411-1429 | as written, cleanup keeps the session when the download failed before the file was found, and otherwise deletes whatever entry the user id holds |
| Callbacks.SessionLeaksAsWritten | bot.py:1413-1426 | a download that fails early leaves its session in the map |
| Callbacks.NewerSessionDroppedAsWritten | bot.py:1426 | a download ending after a new URL removes the newer session (reachable only with concurrent update handling, see Findings) |
| Callbacks.Release | bot.py:1426 | the intended release: the finished session is gone afterwards, nothing else changes, and a newer session of the same user stays |
| Callbacks.ReleaseFixesBoth | bot.py:1411-1429 | under the intended release, the finished session always leaves and a newer one always stays |
| Callbacks.Slice | bot.py:1059 | Python slicing with clamped bounds: an in-range slice is exact, an out-of-range or reversed one is empty |
| Callbacks.MessageUrl | bot.py:1053-1062 | the URL is the text of the first `url` entity; there is none iff no entity is a URL |
| Callbacks.ExtractUrl | bot.py:1053-1062 | the entity loop with `break` computes `MessageUrl` |
| TelegramBot.NewSession | bot.py:1073-1083 | a fresh session holding the URL, user, chat and processing message, flagged for TikTok and YouTube Music exactly when the URL contains those hosts, with no info, no title, no formats and neither stream flag set |
| TelegramBot.Bot.constructor | bot.py:805-819 | the bot starts with no sessions |
| TelegramBot.Bot.HandleUrlMessage | bot.py:1045-1086 | users off the whitelist are denied, and a message without a URL gets the reminder, both changing nothing; otherwise (a whitelisted user and a non-empty first URL) a fresh, unprobed session always replaces the user's entry and one probe job is appended to the queue; sessions stay filed under their own user |
| TelegramBot.Bot.ProcessUrl | bot.py:1430-1491 | on success the session takes the info, title, flags and, when the info classifies, the classified tiers; a failed probe or a failed classification leaves the tiers as they were, and a failed probe changes nothing in the session; the format menu is shown iff the info classifies; errors are reported; the session map is untouched on every path |
| TelegramBot.Bot.HandleCallbackQuery | bot.py:1088-1165 | no session gives "session expired"; otherwise the dispatched action redraws a menu, stores the format or quality preference, starts the download with the tier's selector, or deletes the session (cancel only) |
| TelegramBot.Bot.FinishDownloadAsWritten | bot.py:1411-1429 | as written: a download that fails before its file is found leaves the map unchanged; otherwise the entry under the user id is deleted whichever session it holds; the map stays keyed by user id |
| TelegramBot.Bot.FinishDownload | bot.py:1411-1429 | with the intended release, the finished session is no longer in the map; a newer session of the same user is kept |

## Left out

- Telegram, yt-dlp, OpenAI and the Cobalt API are foreign calls and are not modelled. Their results are parameters: the probe result, the chat-completion reply, whether a job raises, how far a download got. Message texts, labels, "(Preferred)" markers, emoji and parse modes are left out.
- `download_media`'s file handling is I/O and is left out: temp files, globbing, size and extension checks, sending and unlinking. Only its format selector (`Callbacks.Selector`) and its session cleanup (`Callbacks.ReleaseAsWritten`, `Callbacks.Release`) are modelled.
- The `Text` attributes `DOWNLOADING`, `DOWNLOAD_FAILED`, `SELECT_FORMAT`, `SELECT_QUALITY` and `CUTOFF_NOTICE` are undefined (bot.py:231-242). As written:
  - `download_media` always raises at bot.py:1248;
  - `show_format_options` and `show_quality_options` raise at their final edit.
  The model treats message texts as opaque and follows the control flow with those texts defined. The early raise at bot.py:1248 is the `FailedBeforeFile` outcome.
- `cutoff_with_notice`, `url_matcher` and `format_file_size` are left out. They need the undefined notice, URL parsing and float formatting.
- The JSON load and save of preferences and translations, logging, environment and storage setup, the FFmpeg download and the pip self-update are left out as I/O.
- `Queue.add` schedules `bump` with `asyncio.create_task`, and `bump` takes an `asyncio.Lock`. The model is sequential: `Add` and `Bump` are separate calls, and interleavings of concurrent handlers are not modelled.
- The application is built without `concurrent_updates` (bot.py:837-843) and the handlers are registered without `block=False` (bot.py:1206-1230), so updates are handled one at a time and a button press runs its download to the end before the next message is handled. The model has `HandleCallbackQuery` and `FinishDownload` as separate calls, so it also admits a URL message between them, which this configuration does not.
- bot.py:852-856 import `Queue` from `queue_manager`, `Updater` from `updater`, `TranslationService` from `translation` and `UserPreferences` from `user_preferences`, and bot.py:858-862 instantiate those imported classes. These modules are not part of this model. `work_queue.dfy`, `schedule.dfy`, `translation.dfy` and `preferences.dfy` (and `Bot.queue`, `Bot.prefs`) model the classes of the same names defined in bot.py, which the imports shadow.
- The `except` fallbacks of the classifier (bot.py:747-758, 780-791) are left out. `next(..., default)` there cannot raise, so they are unreachable.
- Numeric fields of format records are `Option` values, with absent and JSON `null` treated alike. Both drop the record: a `null` `tbr` raises `TypeError`, which the per-record `except` catches. `tbr` and `abr` are reals. The truncation of a float `height`/`filesize` by `int()` is not modelled: heights and sizes are integers.
- Format records whose `format_id` or `ext` is JSON `null` are left out, as is a `null` `formats` list. The model reads those string fields as absent.
- `Strings.IsDigits` and `Strings.ParseInt` accept ASCII digits only. Python's `isdigit`/`int()` also accept other Unicode digits, and `int()` accepts underscores. `Strings.IsSpace` is the full set of characters for which Python's `str.isspace` holds.
- `Callbacks.Slice` indexes characters, as bot.py:1059 does: Python slices code points. Telegram entity offsets count UTF-16 code units, so for text outside the Basic Multilingual Plane the source itself cuts the wrong span, and the model cuts the same span.
- `get_thumbnail` raises `KeyError` for a thumbnail without `url`; the model gives every thumbnail a url.
- `DownloadContext.clear` is never called and is left out.
- `processing_message` is represented by its message id.
- The admin id parsing and the denied-user report to the admin are left out.

## Findings

| source | as written | input that shows it | evidently intended | confidence | as-written member | corrected member |
|---|---|---|---|---|---|---|
| bot.py:325-333 | `&` is replaced after `<`, `>` and `` ` ``, so the entities and backslashes just inserted are escaped again | the text `<` gives `&amp;lt;`, which displays as `&lt;`; a backtick gives two backslashes and a backtick | each character replaced once by its table entry, so the text reads back unchanged | not executed | Helpers.EscapeCodeDoubleEscapes | Helpers.EscapeCodeOnceRoundTrip |
| bot.py:1413-1426 | the cleanup first reads `downloaded_file`, which is unbound when the download fails before bot.py:1319; the `UnboundLocalError` is swallowed and the `del` is skipped | any download that raises before the file is found, which as written is every download, since bot.py:1248 raises | the session is released on every outcome | not executed | Callbacks.SessionLeaksAsWritten | Callbacks.Release |
| bot.py:1426 | the entry is deleted by user id, whichever session it holds | with concurrent update handling (`concurrent_updates` or `block=False` handlers), the user sends a second URL while the first download runs; when the first ends, the second session is deleted and its buttons answer "session expired". As configured at bot.py:837-843 and 1206-1230 updates are sequential, so this is latent | only the finished session is removed, and a newer one is kept | not executed | Callbacks.NewerSessionDroppedAsWritten | Callbacks.Release |
