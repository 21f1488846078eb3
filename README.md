# slack-channel-to-timeline, modelled in Dafny

`slack.py` turns the history of one Slack channel into an HTML timeline. It
downloads the member list, the custom emoji list and the channel's
messages. It normalises each message: the sender is resolved, `<@ID>`
mentions are rewritten, and reactions and file attachments are reduced to
the fields the template needs. It caches every avatar and thumbnail image
under `.cache/<md5 of the URL>.png`. Finally it annotates each message with
its distance in time from the first message and from the previous one.
While rendering, links written `<URL>` / `<URL|LABEL>` become anchors and
each delta is printed in its largest non-zero unit.

This project models that pipeline with the Slack client, HTTP, JSON files,
MD5 and templating abstracted away. It proves what each step promises.

| module | file | models |
|---|---|---|
| `Wrappers` | wrappers.dfy | `Option` |
| `Strings` | strings.dfy | Python truthiness of strings, `startswith`, `replace(p, "")`, `split`/`join`, the `%d` / `%02d` formats and reading digits back |
| `Types` | types.dfy | the raw API records and the normalised `User`, `Reaction`, `File` and `Message` |
| `Markup` | markup.dfy | the two regular-expression rewriters, as a scanner into plain characters and matches plus a substitution |
| `Collections` | collections.dfy | pages flattened; a Python `dict` built by assignments (last write wins, first-insertion key order) |
| `Records` | records.dfy | `User.from_message`, `Reaction.from_raw`, `File.from_dict`, `Message.from_message` |
| `Extract` | extract.dfy | `users` (the member table) and `extract_channel` |
| `Media` | media.dfy | `download_file` and `cache_thumbs` over a `Disk` object holding the set of present paths and a log of fetches |
| `Render` | render.dfy | `render_thumbnail`, `render_user_img` |
| `Duration` | duration.dfy | `timedelta` at second resolution and `render_delta` |
| `Emoji` | emoji.dfy | the in-place alias rewrite of `emojis` |
| `Timeline` | timeline.dfy | the in-place `annotate_with_time` loop over an array |
| `Memo` | memo.dfy | the memo slot of `persist_to_file` |

The model makes these choices:

- **MD5.** It is the parameter `md5hex: string -> string`, so a cache key is `md5hex(url) + ".png"`.
- **Times.** They are integer seconds. A difference of two times becomes `TimeDelta(days, seconds)` with `0 <= seconds < 86400`, through floor division, as Python's `timedelta` normalises.
- **Senders.** After `extract_channel` a sender is either a resolved member (`Known`) or the stub `{"id": <ID or None>}` (`Stub`). Both are truthy in Python, so `Message.from_message` keeps every extracted message.
- **Mutable state.** Where the source changes state step by step, the model is imperative:
  - `cache_thumbs` / `download_file` are methods of the class `Disk`.
  - `annotate_with_time` updates an `array<Entry>` in place.
  - `emojis`, `users` and `extract_channel` are loops over maps and sequences.
  - The memo slot is the class `Slot`.

  Each method is proved against a specification function.

## Model

| member | source | states |
|---|---|---|
| Strings.Split | slack.py:50 | the pieces of `split("\|")` contain no separator, there is at least one, and joining them with the separator gives back the text |
| Strings.SplitJoin | slack.py:50 | splitting the join of separator-free pieces gives back exactly those pieces |
| Strings.RemoveAllLeading | slack.py:251 | `replace("alias:", "")` drops a leading occurrence and continues after it |
| Strings.IntToString | slack.py:102 | definition of `'%d'`: a minus sign for a negative number, then its decimal digits; the digits read back by `ParseNatToString` |
| Strings.ParseNatToString | slack.py:102 | the decimal digits of a natural number read back as that number |
| Strings.Pad2RoundTrip | slack.py:105 | `%02d` of a count below 100 is exactly two digits that read back as the count |
| Markup.Scan | slack.py:22-23 | definition of the regular-expression scan: the leftmost match wins, a match's body runs to the first `>`, and where no match starts one plain character is kept; characterised by `ScanRoundTrip`, `ScanPlainPrefix` and `CloseAt` |
| Markup.Substitute | slack.py:45 | definition of `sub`: each match is replaced by the function's value on its body and plain characters are kept, with no replacement scanned again (the same at slack.py:56); characterised by `SubstituteOneTag` and `NoTagUnchanged` |
| Markup.CloseAt | slack.py:22-23 | the match of `[^>]*>` ends at the first `>` after the opener: none before it |
| Markup.ScanRoundTrip | slack.py:22-23 | cutting a text into plain characters and matches loses nothing: writing every match back verbatim restores the text |
| Markup.ScanPlainPrefix | slack.py:22-23 | characters at which no occurrence of the opener starts are scanned as plain characters, and scanning resumes unchanged after them |
| Markup.MentionFreeOpenerFree | slack.py:22 | in text without `<@` followed by a mention, no `<@` starts before the mention: a link or a stray `<` before it does not hide it |
| Markup.NoAngleOpenerFree | slack.py:22-23 | in text without `<`, no match of either pattern starts |
| Markup.SubstituteOneTag | slack.py:22-23 | characters at which no opener starts, one match and a rest are rewritten as those characters, the replacement of the body, and the rewrite of the rest |
| Markup.NoTagUnchanged | slack.py:45 | a text in which the pattern matches nowhere is returned unchanged by any substitution |
| Markup.ProcessTextForUsername | slack.py:34-45 | definition: every `<@ID>` match is replaced by `MentionText`; characterised by `UsernameRewrite`, `UsernameNoMention` and `OneMention` |
| Markup.MentionText | slack.py:36-43 | definition: the replacement of one mention; characterised by `UsernameRewrite` |
| Markup.UsernameRewrite | slack.py:34-45 | after text without `<@` (links and stray `<` allowed), a mention of a known member with a name becomes `@name`; with an empty name, `@ID`; an unknown ID becomes the bare ID without `@`; the rest of the text is rewritten independently |
| Markup.MentionStep | slack.py:36-43 | after text without `<@`, a mention is replaced by the member-dependent text and nothing else around it changes |
| Markup.UsernameNoMention | slack.py:45 | text with no `<@…>` match is returned unchanged |
| Markup.NoAtNoMention | slack.py:22 | a text without `@` contains no mention |
| Markup.OneMention | slack.py:34-45 | one mention of a named member, with no `<@` before it and no mention after it, becomes `@name` and the rest is kept |
| Markup.MentionAfterLinkExample | slack.py:34-45 | `see <http://x> a < b <@U1>` with U1 named Alice becomes `see <http://x> a < b @Alice`: a link and a stray `<` before a mention are kept |
| Markup.ProcessTextForLinks | slack.py:47-56 | definition: every `<…>` match is replaced by `LinkText`; characterised by `LinkRewrite`, `LinksNoLink` and `OneLink` |
| Markup.LinkText | slack.py:49-54 | definition: the anchor for one link body; characterised by `LinkForms` |
| Markup.LinkForms | slack.py:49-54 | `<URL>` links the URL to itself; `<URL\|LABEL>` and `<URL\|LABEL\|…>` link the URL under LABEL and ignore further pieces |
| Markup.LinkTwoPieces | slack.py:53-54 | a body with exactly one `\|` is the URL and its caption |
| Markup.LinkMorePieces | slack.py:53-54 | a body with two or more `\|` uses only the first two pieces |
| Markup.LinkRewrite | slack.py:47-56 | a link after `<`-free text is replaced by the anchor of its body, and the rest of the text is rewritten independently |
| Markup.LinksNoLink | slack.py:56 | text with no `<…>` match is returned unchanged |
| Markup.OneLink | slack.py:47-56 | a labelled link at the end of `<`-free text becomes its anchor |
| Markup.MentionThenLinkExample | slack.py:34-56 | `hello <@U123> see <http://x\|here>` with U123 named Alice becomes `hello @Alice see <a href="http://x">here</a>` after both stages |
| Duration.FromSeconds | slack.py:305-306 | a difference of two times becomes a delta whose length is that difference, with the seconds part in `[0, 86400)` and the days any integer |
| Duration.FromTotalSeconds | slack.py:305-306 | the normal form is unique: a delta is rebuilt from its own length |
| Duration.NonNegativeDelta | slack.py:101-102 | a delta is negative exactly when its days are |
| Duration.RenderDelta | slack.py:97-113 | definition: the delta in its largest non-zero unit; characterised by `RenderDeltaUnits` and `RenderDeltaReadsBack` |
| Duration.RenderDeltaUnits | slack.py:97-113 | non-zero days print as `N days` of either sign; otherwise from one hour up as hours (below 24), from one minute as minutes (below 60), else as seconds; the result is `""` exactly for a zero delta |
| Duration.RenderDeltaReadsBack | slack.py:104-111 | below a day the printed count is two digits that read back as the whole hours, minutes or seconds of the delta |
| Collections.ToMapKeys | slack.py:283-290 | a dictionary built by assignments has exactly the assigned keys |
| Collections.ToMapLastWrite | slack.py:283-290 | a key holds the value of its last assignment |
| Collections.KeyOrderIsKeys | slack.py:293 | the iteration order lists every key of the dictionary exactly once |
| Collections.ToMapFunctional | slack.py:283-290 | when every assigned value is a function of its key, so is every stored value |
| Records.CacheKey | slack.py:127-129 | definition: `md5hex(url) + ".png"`; stated of users and files by `UserFromRaw` and `FileFromRaw` |
| Records.KeyOf | slack.py:184-189 | definition: the cache key of a truthy URL, `None` otherwise; stated by `UserFromRaw` and `FileFromRaw` |
| Records.UserFromRaw | slack.py:123-137 | id and name are copied; the avatar URL is `profile.image_192` (absent without a profile); the real name is the profile's or `""`; the avatar key is present exactly for a truthy URL and is `md5hex(url) + ".png"` |
| Records.ResolveIds | slack.py:150 | the reacting members are resolved IDs only, at most one per ID; with every ID known, exactly one per ID in the same order; with none known, an empty list |
| Records.ResolveIdsAppend | slack.py:150 | resolution preserves the order of the IDs: resolving a concatenation resolves each part in turn |
| Records.ReactionFromRaw | slack.py:145-151 | name and count are kept and the members are the resolved IDs of `users` (absent means none) |
| Records.FileFromRaw | slack.py:163-191 | id, URL and type are copied; a PDF takes the `thumb_pdf*` fields and any other type the `thumb_480*` fields; the key is present exactly for a truthy thumbnail URL and is `md5hex(url) + ".png"` |
| Records.FileKeyIgnoresType | slack.py:184-189 | the thumbnail key depends on the URL alone, not on the file type |
| Records.MessageFromRaw | slack.py:201-213 | `None` exactly when there is no sender; otherwise the text with mentions rewritten, the sender and time, and one reaction and one file per raw entry in order |
| Records.MessageFilesWellKeyed | slack.py:212 | every file of a normalised message carries its thumbnail's cache key |
| Extract.ConvertUsers | slack.py:256 | definition: every raw member converted under its own ID; characterised by `ExtractedSender` |
| Extract.SenderOf | slack.py:259-260 | definition: the converted member for a known ID, the stub otherwise; characterised by `WithSender` and `ExtractedSender` |
| Extract.CollectUsers | slack.py:235-242 | the member table is the dictionary assigned by every member of every page in order |
| Extract.CollectedUsers | slack.py:239-240 | every listed member is in the table under its ID, as its last listing |
| Extract.WithSender | slack.py:258-260 | the sender slot is always filled: the member named by the ID when the table knows it, the stub with the ID otherwise; the other fields are kept |
| Extract.ExtractChannel | slack.py:255-261 | exactly one normalised message per message of every page, in order, each the normalisation of the message with its sender substituted |
| Extract.ExtractedSender | slack.py:256-261 | an extracted message's sender is the converted member when the ID is known and the stub otherwise, and its time is the message's |
| Media.Disk.DownloadFile | slack.py:263-276 | a path already present is left alone and nothing is fetched; otherwise the URL is fetched into it and the path becomes present |
| Media.Disk.CacheThumbs | slack.py:278-294 | afterwards the present paths are the old ones plus every mapped cache path; the fetches are exactly the jobs whose paths were missing, in dictionary order |
| Media.Disk.FetchAll | slack.py:292-294 | the download loop makes every key's path present and fetches exactly the missing ones |
| Media.CollectUrls | slack.py:279-290 | the first loop builds the dictionary and key order of all avatar and thumbnail assignments |
| Media.CollectMessageUrls | slack.py:280-290 | one message contributes its sender's avatar assignment, then its files' thumbnail assignments |
| Media.CollectFileUrls | slack.py:285-290 | the files' loop assigns each truthy thumbnail URL and skips the others |
| Media.Assign | slack.py:290 | an assignment overwrites the value, and a new URL goes to the end of the iteration order |
| Media.Jobs | slack.py:293-294 | one download job per key, in order, to `.cache/<key>` |
| Media.Downloads | slack.py:264-265 | a run never fetches more often than there are jobs |
| Media.DownloadsFetchMissing | slack.py:264-265 | every fetch is one of the jobs, and its path was missing at the start |
| Media.DownloadsNoneWhenPresent | slack.py:264-265 | when every job's path is present nothing is fetched |
| Media.DownloadsDistinct | slack.py:264-276 | no path is fetched twice in one run |
| Media.RerunFetchesNothing | slack.py:292-294 | once every mapped path is present, running the cache again over the same messages fetches nothing |
| Media.SenderRefs | slack.py:281-283 | definition: a resolved sender with a truthy avatar URL gives one assignment, any other sender none; characterised by `CollectMessageUrls` and `UrlMapDomain` |
| Media.FileRefs | slack.py:285-290 | definition: one assignment per file with a truthy thumbnail URL, in order; characterised by `CollectFileUrls` and `UrlMapDomain` |
| Media.Refs | slack.py:279-290 | definition: the avatar and thumbnail assignments of the first loop, in order; used by `UrlMapDomain` and `CollectUrls` |
| Media.UrlMap | slack.py:279-290 | definition: the dictionary those assignments build; characterised by `UrlMapDomain` and `UrlMapKeys` |
| Media.CachePath | slack.py:294 | definition: `.cache/<key>`; characterised by `UrlMapKeys` and `Jobs` |
| Media.UrlMapDomain | slack.py:279-290 | the dictionary holds exactly the truthy avatar URLs of resolved senders and the truthy thumbnail URLs of files |
| Media.UrlMapKeys | slack.py:283-290 | for normalised messages every URL maps to `md5hex(url) + ".png"` and is cached at `.cache/<md5>.png`, whichever assignment came last |
| Render.RenderThumbnail | slack.py:61-66 | definition: a link around the cached thumbnail, or around the file type without one; characterised by `ThumbnailServedFromCache` |
| Render.RenderUserImg | slack.py:68-73 | definition: the cached avatar, or the placeholder without one; characterised by `AvatarServedFromCache` |
| Render.ExtractedWellKeyed | slack.py:256-261 | a message as `extract_channel` yields it carries `md5hex(url) + ".png"` as the key of its sender's avatar and of each thumbnail |
| Render.ExtractedChannelWellKeyed | slack.py:255-261 | every message `extract_channel` yields is well keyed, so `UrlMapKeys` and the two rendering lemmas apply to its output |
| Render.ThumbnailServedFromCache | slack.py:61-66 | after the cache has run, a file with a thumbnail URL is shown from `./.cache/<md5 of the URL>.png`, and that file is present |
| Render.AvatarServedFromCache | slack.py:68-73 | after the cache has run, a sender with an avatar URL is shown from `./.cache/<md5 of the URL>.png`, and that file is present; any other sender gets the placeholder |
| Emoji.Lift | slack.py:247 | the listing as a dictionary of optional values: same keys, every value present |
| Emoji.AliasTarget | slack.py:251 | definition: `val.replace("alias:", "")`; characterised by `AliasOf` and `RemoveAllNone` |
| Emoji.Visit | slack.py:249-251 | one visit keeps the key set; an `alias:` value is replaced by the current value of its target, or `None` (see `ResolvedValue`) |
| Emoji.VisitAll | slack.py:248-251 | visiting keys never adds or removes a key |
| Emoji.ResolveAliases | slack.py:244-253 | the loop over the listing's key order gives the dictionary of every visit applied in that order |
| Emoji.ResolvedKeys | slack.py:248-251 | the key set is unchanged |
| Emoji.StateStep | slack.py:248 | the state after `n + 1` names is the state after `n` with name `n` visited |
| Emoji.VisitAllState | slack.py:248-251 | names not yet visited keep their listed value; a visited name keeps the value its own visit gave it |
| Emoji.ResolvedAtVisit | slack.py:249-251 | a name's final value is the one its own visit gives it, made when it still had its listed value |
| Emoji.ResolvedValue | slack.py:248-251 | a value not starting with `alias:` is kept; an alias to a missing name becomes `None`; an alias to a name visited earlier takes that name's final value; to a name visited later (or itself), its listed value |
| Emoji.AliasOf | slack.py:250-251 | `alias:` followed by a name without `:` is an alias whose target is that name |
| Strings.RemoveAll | slack.py:251 | `replace(p, "")` never lengthens the text; characterised by `RemoveAllLeading` and `Emoji.RemoveAllNone` |
| Emoji.RemoveAllNone | slack.py:251 | removing `alias:` leaves a name without `:` unchanged |
| Emoji.AliasOrderMatters | slack.py:248-251 | with `a → alias:b`, `b → alias:c` and an image `c`, visiting `a` first leaves `alias:c` in `a`, visiting `b` first gives `a` the image |
| Timeline.Annotated | slack.py:305-306 | an annotated message keeps the message, and its two deltas measure its time minus the start time and minus the previous time |
| Timeline.AnnotateWithTime | slack.py:296-310 | in place, the array keeps its messages in order; entry `i` gets its distance from message 0 and from message `i - 1` (message 0 from itself) |
| Timeline.AnnotationFirst | slack.py:302-306 | the first entry has both deltas zero, printed as `""` |
| Timeline.AnnotationAdditive | slack.py:305-306 | the distance from the start of entry `i` is that of entry `i - 1` plus entry `i`'s distance from its predecessor |
| Timeline.AnnotationTelescopes | slack.py:305-308 | the distance from the start is the sum of the distances between neighbours up to that entry |
| Timeline.AnnotationChronological | slack.py:305-306 | on messages in time order no delta is negative, and the distance from the start never decreases |
| Memo.Filled | slack.py:225 | definition of Python truthiness of the slot, the negation of `not cached['b']`: `None` and `{}` are falsy; used by `Call`, `FilledStaysPut` and `EmptyAlwaysRefetches` |
| Memo.Call | slack.py:225-229 | a call fetches exactly when the slot is falsy (`None` or `{}`), and afterwards the slot holds the value returned |
| Memo.Slot.constructor | slack.py:218-222 | the slot starts with the file's contents (nothing if unreadable) and no fetch made |
| Memo.Slot.Get | slack.py:224-229 | the returned value, the new slot and the fetch count are those of `Call`; the slot stays equal to the file |
| Memo.FilledStaysPut | slack.py:225 | a truthy slot is never refetched and every later call returns its value |
| Memo.AtMostOneFetch | slack.py:225-227 | if the API never answers with an empty listing, a series of calls fetches at most once, and exactly once when the slot starts falsy |
| Memo.EmptyAlwaysRefetches | slack.py:225-227 | an empty answer leaves the slot falsy, so every call of the series fetches again |

## Left out

- The command line and the main flow (slack.py:312-401) are not modelled. This covers argument parsing, environment and credential loading, printing, `exit`, the `data.reverse()` before annotation, and writing the HTML/DOCX output.
- The Slack `WebClient` calls (`users_list`, `emoji_list`, `conversations_history`, `api_test`) are given as input sequences and maps.
- `requests` streaming, `raise_for_status` and chunked writes are not modelled. A download is one logged `(url, path)` fetch that makes the path present. A failing HTTP request is not modelled.
- `os.makedirs(CACHE_DIR)` is not modelled, because the disk is a set of paths.
- The JSON load and dump of `persist_to_file` are not modelled. The file is a field holding its contents, and an unreadable file is `None`.
- `hashlib.md5` is the parameter `md5hex`.
- `datetime.fromtimestamp(float(ts))` and `datetime.fromisoformat` are not modelled, because they need floating point and library parsing. Times are integer seconds, so microseconds are not modelled. The source subtracts naive local-time datetimes, so across a daylight-saving change its deltas differ by an hour from the epoch-second differences that `Timeline.Annotated` computes.
- `EnhancedJSONEncoder`, `img_to_data`, `render_slack` (an external converter), the Jinja template and `HtmlToDocx` are not modelled. They are formatting or foreign calls.
- A JSON `null` in `real_name_normalized` is treated like an absent field, and `profile: null` is not modelled.
- Emoji.ResolveAliases: the values of the listing are strings. A visit therefore never reads a `None` into `startswith`. This holds because a name's value only changes at its own visit (Emoji.VisitAllState).
- Media.CachePath: a missing key is formatted as `.cache/None`, as the f-string would. It never happens for normalised records, because the key is present exactly for a truthy URL.
