# autoanime-server, modelled in Dafny

autoanime-server keeps a small database of titles that a user follows. Each title has a
`serverMap` that gives its identifier on each streaming or reading site. The server finds
the episodes of a title by asking one handler per site, merges the handlers' answers and
stores them. Clients talk to it over a socket, and the server answers their events strictly
one after the other.

This project models the three parts that make this work:

- **The handlers** (`server_handler.dfy`, module `ServerHandler`). These are the factory
  `getServerHandler` and the Gogoanime, OtakuStream and MangaKakalot handlers. Each handler
  has its first-episode and last-episode numbers, its episode-url builder, and its
  `getAllEpisodeUrls`. The regular expression `chapter_(.+)$` that MangaKakalot applies to
  chapter links is modelled character by character. `parseFloat` of its capture is modelled
  for integers only (see "Left out").
  Fetched pages are an input. `Web` maps each url to what the handler's selectors extract
  from that page, and a url missing from it stands for a request that failed.
- **The aggregator** (`server_group.dfy`, module `ServerGroup`). This covers `knowsServer`,
  the selection of servers, the merge of the handlers' results into one slot per episode
  number, the final sort, and `getEpisodeUrls`. The merge loop is a method over a `map` and
  a `seq`. It is proved equal to a specification by functions, and the lemmas state what
  the merged result contains.
- **The socket layer** (`dispatch_queue.dfy` and `store.dfy`).
  - `chainSocket` is a class holding the module-level FIFO of listeners that wait for
    acknowledgment. Every event whose last argument is a callback waits in that FIFO.
  - The event handlers that change the database are methods of a store class. Its fields
    are the `animes` and `servers` collections, and the class keeps a store invariant.

Three further modules hold shared pieces:

- `common.dfy` holds options and results, decimal rendering and reading, and sequence
  helpers.
- `server_map.dfy` holds `serverMap` objects as ordered property lists.
- `sorting.dfy` holds `Array.prototype.sort` with an ascending comparator, modelled as a
  stable insertion sort.

Some things are parameters rather than computations:

- The network is the `Web` argument.
- The fresh identifier of a created title (`genId`) is the `newId` argument.
- A listener or callback function is an abstract identity.

## Model

| member | source | states |
|---|---|---|
| ServerHandler.GetServerHandler | server-handler.js:27-38 | a handler exists exactly for "gogoanime", "otakustream" and "mangakakalot", and has that server name; any other name gives the error "Tried to get a handler for unknown server " + name |
| ServerHandler.GetServerHandlerOfName | server-handler.js:27-38 | each handler is returned again for its own server name |
| ServerHandler.Identifier | server-handler.js:94-97 | the title's identifier on the server: `serverMap[serverName]` when that is a non-empty string; a missing key, null or "" give none (the same guard is at lines 110-113, 126-129, 187-190, 204-207, 221-224, 284-287, 300-303, 316-319 and 339-342) |
| ServerHandler.ListingUrl | server-handler.js:101 | the page each handler requests: `/category/<id>` on Gogoanime (also line 117), `/anime/<id>` on OtakuStream (lines 194, 211), `/manga/<id>` on MangaKakalot (lines 290, 306, 322, 346) |
| ServerHandler.EpisodeUrlFor | server-handler.js:132 | the episode url patterns: Gogoanime `<site>/<id>-episode-<n>` (line 132), OtakuStream `https://otakustream.tv/anime/<id>/episode-<n>/` (line 227), MangaKakalot `https://manganelo.com/chapter/<id>/chapter_<n>/` (line 330) |
| ServerHandler.ChapterNumber | server-handler.js:351 | `parseFloat(/chapter_(.+)$/.exec(href)[1])`: none when `exec` finds no match, otherwise the integer read from the capture (also lines 293, 309) |
| ServerHandler.LeadingInteger | server-handler.js:351 | the integer `parseFloat` reads from a capture: leading white space skipped, an optional sign, then the longest run of digits; none where no digit follows |
| ServerHandler.SkipWhiteSpace | server-handler.js:351 | the capture without the leading white space and line terminators that `parseFloat` skips |
| ServerHandler.ChapterListing | server-handler.js:344-354 | the entries `.each` pushes, one per link in page order, each with its chapter number; none when some link gives no number |
| ServerHandler.ListingPage | server-handler.js:94-101 | a title with no identifier on the server (missing, null or empty) makes no request and gets no page |
| ServerHandler.EpisodeUrlForInjective | server-handler.js:132 | two different episode numbers of one title never get the same url, on any of the three sites |
| ServerHandler.ChapterMatchFromLeftmost | server-handler.js:293 | the match search returns the leftmost position where `chapter_(.+)$` matches, and no earlier position matches |
| ServerHandler.ChapterCapture | server-handler.js:293 | a successful `exec` captures at least one character |
| ServerHandler.ChapterCaptureSpec | server-handler.js:293 | `exec` succeeds exactly when the pattern matches at some position; the link then ends with `chapter_` followed by the capture, and no earlier position matches |
| ServerHandler.DigitRunOfNatToString | server-handler.js:351 | the digit run that `parseFloat` reads from a rendered natural number is the whole rendering, and its value is the number |
| ServerHandler.LeadingIntegerOfIntToString | server-handler.js:351 | `parseFloat` reads the rendering of any integer back as that integer |
| ServerHandler.CanonicalChapterHref | server-handler.js:326-351 | a link whose capture is the rendering of n is read by the listing as chapter n, and ends with the `chapter_<n>` suffix that the single-chapter scan looks for |
| ServerHandler.ChapterListingSpec | server-handler.js:348-354 | the listing succeeds exactly when every link yields a chapter number; it then pairs each link, in page order, with that number |
| ServerHandler.EpisodicFirstEpisodeNumber | server-handler.js:109-123 | Gogoanime answers `ep_start` + 1 when the page has the marker; OtakuStream answers the number in the last episode link; a failed request answers nothing |
| ServerHandler.EpisodicLastEpisodeNumber | server-handler.js:93-107 | Gogoanime answers the `ep_end` of the last page link, and OtakuStream answers the number in the first episode link (lines 186-201); a failed request answers nothing |
| ServerHandler.EpisodicEpisodeUrl | server-handler.js:125-133 | a url is given exactly when the title has an identifier on the server; it is the site's url pattern for that identifier and number, and no request is made |
| ServerHandler.EpisodicEpisodeUrlInjective | server-handler.js:220-227 | two episodes of one title never share a url |
| ServerHandler.EpisodeSpan | server-handler.js:160-163 | the span has hi − lo + 1 entries (none when lo > hi), and entry i is episode lo + i with its url |
| ServerHandler.EpisodicEntries | server-handler.js:145-173 | the result is empty when either bound is missing or the first bound exceeds the last; otherwise it is a run of consecutive numbers |
| ServerHandler.EpisodicEntriesShape | server-handler.js:153-169 | when both bounds are found, the title has an identifier and the result is exactly the span of episodes from first to last |
| ServerHandler.EpisodeSpanEnds | server-handler.js:160 | a non-empty span starts at lo and ends at hi |
| ServerHandler.EpisodicEntriesBounds | server-handler.js:145-169 | a non-empty episodic result starts at the first episode number and ends at the last one |
| ServerHandler.EpisodicEntriesUrls | server-handler.js:162-168 | every entry of the episodic result carries the url that `getEpisodeUrl` gives for its number |
| ServerHandler.EpisodicEntriesAscending | server-handler.js:160-169 | the episodic result ascends strictly by number |
| ServerHandler.MangaKakalotFirstEpisodeNumber | server-handler.js:283-297 | the first chapter is read from the last link of the listing; an empty listing or a failed request answers nothing |
| ServerHandler.MangaKakalotLastEpisodeNumber | server-handler.js:299-313 | the last chapter is read from the first link of the listing; an empty listing or a failed request answers nothing |
| ServerHandler.MangaKakalotEpisodeUrl | server-handler.js:315-334 | a url is given exactly when the listing page was fetched and some link ends with `chapter_<n>`; it is then the chapter url pattern for the identifier and n |
| ServerHandler.MangaKakalotListedChapterHasUrl | server-handler.js:315-334 | a chapter that a link of the listing names canonically can be asked for by number |
| ServerHandler.MangaKakalotEntries | server-handler.js:336-362 | the result is empty when the request fails or some link yields no number; otherwise it is a permutation of the listing, sorted by ascending number |
| ServerHandler.MangaKakalotEntriesFromListing | server-handler.js:348-356 | every entry is a link of the listing paired with the chapter number read from it |
| ServerHandler.MangaKakalotEntriesCoverListing | server-handler.js:348-356 | every link of a listing that reads in full has its entry in the result |
| ServerHandler.MangaKakalotEntryBetween | server-handler.js:348-356 | for a newest-first listing, every entry's number lies between the last link's number and the first link's |
| ServerHandler.MangaKakalotListingEnds | server-handler.js:283-313 | the first and last chapter numbers are the numbers of the last and first entries of the listing |
| ServerHandler.MangaKakalotSortedEnds | server-handler.js:355-356 | sorting a newest-first listing puts its last entry first and its first entry last |
| ServerHandler.MangaKakalotBounds | server-handler.js:283-356 | for a newest-first listing, the sorted result runs from `getFirstEpisodeNumber` to `getLastEpisodeNumber` |
| ServerHandler.EpisodeUrl | server-handler.js:125-334 | any handler's url for episode n is its url pattern for the title's identifier and n |
| ServerHandler.AllEpisodes | server-handler.js:145-362 | every handler's result is sorted by number, and is empty for a title with no identifier on that server |
| ServerHandler.PairPresent | server-handler.js:166-169 | the pairing keeps at most one entry per url; when every url is present it pairs them index by index |
| ServerHandler.EpisodicAllEpisodeUrls | server-handler.js:145-173 | the method's result equals the episodic result specified above |
| ServerHandler.PairPresentOfSpan | server-handler.js:157-169 | pairing the loop's numbers with their urls gives exactly the span of episodes |
| ServerHandler.EpisodeRange | server-handler.js:157-163 | the loop collects every number from lo to hi, each with the url `getEpisodeUrl` gives for it |
| ServerHandler.MangaKakalotAllEpisodeUrls | server-handler.js:336-362 | the method's result equals the MangaKakalot result specified above |
| ServerHandler.CollectChapters | server-handler.js:344-354 | the `.each` loop builds exactly the chapter listing, and fails as the `try` does when a link yields no number |
| ServerHandler.FindChapterUrl | server-handler.js:315-334 | the method's result equals the MangaKakalot url specified above |
| ServerHandler.ScanForSuffix | server-handler.js:324-329 | `found` is set exactly when some link ends with the suffix |
| ServerHandler.GetEpisodeUrl | server-handler.js:125-334 | dispatching `getEpisodeUrl` gives the handler's url |
| ServerHandler.GetAllEpisodeUrls | server-handler.js:145-362 | dispatching `getAllEpisodeUrls` gives the handler's result |
| ServerHandler.BooleanComparatorInconsistent | server-handler.js:169 | the comparator never answers "less", and calls two different numbers unordered one way round |
| ServerHandler.EpisodicEntriesSortedUnchanged | server-handler.js:169 | with an ascending comparator the sort leaves the episodic result unchanged |
| ServerGroup.KnowsServer | server-group.js:18-26 | `knowsServer`: the factory returns a handler for the name instead of throwing |
| ServerGroup.Selected | server-group.js:39-42 | the three filters: the identifier is a string, the server is known, and it is the requested server when a name was given |
| ServerGroup.Servers | server-group.js:39-42 | `Object.keys(anime.serverMap)` through the three filters |
| ServerGroup.Tagged | server-group.js:51 | every entry of every result, tagged with its server, in the order of the nested `forEach` |
| ServerGroup.FirstSeen | server-group.js:55 | the numbers in the order they are first met: `epNumbers` |
| ServerGroup.UrlsFor | server-group.js:53-56 | the links that the slot of a number accumulates, in visit order |
| ServerGroup.Slots | server-group.js:59 | `epNumbers.map(epNumber => outEps[epNumber])` |
| ServerGroup.Merged | server-group.js:46-59 | the slots sorted by ascending number |
| ServerGroup.GroupEpisodes | server-group.js:36-63 | `getAllEpisodeUrls(anime, serverName)`: the merge of the selected servers' handler results |
| ServerGroup.HandlerOf | server-group.js:44 | the handler of a known server carries that server's name |
| ServerGroup.KnowsServerSpec | server-group.js:18-26 | a server is known exactly when some handler has that name |
| ServerGroup.SelectFrom | server-group.js:39-42 | a key is selected exactly when its identifier is a string, its server is known, and it is the requested server when one was named |
| ServerGroup.SelectFromInKeyOrder | server-group.js:39-42 | the selection keeps the keys in their order |
| ServerGroup.SelectFromDistinct | server-group.js:39-42 | distinct keys give distinct selected servers |
| ServerGroup.HandlersOf | server-group.js:44 | there is one handler per selected server, in the same order, each with that server's name |
| ServerGroup.FirstSeenSpec | server-group.js:51-58 | `epNumbers` holds every reported number exactly once |
| ServerGroup.UrlsForAppend | server-group.js:51-58 | the links gathered over two runs of entries are the first run's links followed by the second's |
| ServerGroup.UrlsForUnmentioned | server-group.js:52-56 | a number that no entry carries gathers no links |
| ServerGroup.UrlsForTagAll | server-group.js:51-58 | one handler's result gives number n one link per entry with that number, each tagged with that handler's server |
| ServerGroup.UrlsForTagged | server-group.js:51-58 | the slot of n gets one link per reported entry with number n, each from the server that reported it |
| ServerGroup.TaggedNumbers | server-group.js:51-58 | a number is met during the merge exactly when some result reports it |
| ServerGroup.MergedAscending | server-group.js:46-59 | the merged result ascends strictly by number: one slot per episode |
| ServerGroup.MergedNumbers | server-group.js:46-59 | the merged result has a slot for exactly the numbers that some result reports |
| ServerGroup.MergedUrls | server-group.js:51-59 | each slot holds the links of every entry reported with its number, in the order they were visited |
| ServerGroup.GroupEpisodesAscending | server-group.js:36-63 | the group's result ascends strictly by number |
| ServerGroup.GroupEpisodesNumbers | server-group.js:36-63 | the group's result has a slot for exactly the numbers that some selected server's handler reports |
| ServerGroup.ServedIsReported | server-group.js:44-49 | a number that a selected server's handler reports appears in the collected results |
| ServerGroup.ReportedIsServed | server-group.js:44-49 | a number in the collected results is reported by some selected server's handler |
| ServerGroup.GroupEpisodesLinks | server-group.js:36-63 | every link in a slot comes from a selected key of the `serverMap` whose handler reported that url for that number, and a slot has one link per report of its number |
| ServerGroup.SameHandler | server-group.js:18-26 | a handler's server name is known and maps back to that handler |
| ServerGroup.MergeStep | server-group.js:52-57 | one visit appends to the slot of a number already seen, or opens a slot and records the new number |
| ServerGroup.MergeUrlSet | server-group.js:51-58 | the inner `forEach` keeps the merge state in step with the entries visited |
| ServerGroup.CollectResults | server-group.js:49 | the collected results are the handlers' results, in handler order |
| ServerGroup.MergeAll | server-group.js:46-59 | the merge loop and the mapping over `epNumbers` produce exactly the specified slots |
| ServerGroup.GetAllEpisodeUrls | server-group.js:36-63 | the method's result equals the group result specified above |
| ServerGroup.EpisodeLinks | server-group.js:79-88 | a pair is kept exactly when its server is among those asked and that server's handler gives a url for the episode |
| ServerGroup.EpisodeLinksInServerOrder | server-group.js:85-88 | the kept pairs come in the order of the servers asked, at most one per server when the servers are distinct |
| ServerGroup.SubsequenceTrans | server-group.js:75-88 | a subsequence of the selected servers is a subsequence of the `serverMap` keys |
| ServerGroup.GetEpisodeUrls | server-group.js:72-94 | a pair `{server, url}` is returned exactly when the server is a selected key of the `serverMap` and its handler gives that url for the episode; the pairs follow the key order, one per key |
| Common.IntToString | server-handler.js:132 | JavaScript's rendering of an integer inside a string (also lines 227, 326, 330, and sockets.js:207, 232-233) |
| Common.NatToString | server-handler.js:330 | the rendering of a natural number is a non-empty run of digits, with no leading zero unless the number is 0 |
| Common.IntToStringRoundTrip | server-handler.js:326 | reading back the rendering of an integer gives the integer |
| Common.IntToStringInjective | server-handler.js:132 | different integers render differently |
| Common.IndexOf | sockets.js:93 | `find` returns the first index that matches, or nothing when no element matches |
| Common.Omit | sockets.js:181 | `remove` drops every copy of the name and keeps every other element |
| Common.OmitKeepsDistinct | sockets.js:181 | removing a name from a list without duplicates leaves a list without duplicates |
| ServerMaps.ValueSpec | server-group.js:40 | a key that is not a property reads as absent; a present value is the value of a property under that key |
| ServerMaps.Assign | sockets.js:157 | after the assignment the key reads the new value, and every other key reads what it read before |
| ServerMaps.AssignKeys | sockets.js:156-159 | assigning keeps the keys in order, and appends a key that was not there |
| ServerMaps.AssignNew | sockets.js:157 | assigning a new key appends exactly one property |
| ServerMaps.ValueAt | server-group.js:39-40 | with distinct keys, every property reads back under its own key |
| ServerMaps.Remove | sockets.js:185 | after `delete`, the key reads as absent and every other key reads what it read before |
| ServerMaps.RemoveKeys | sockets.js:183-187 | deleting a property removes its key and keeps the other keys in order |
| Sorting.Insert | server-group.js:59 | insertion adds the element and keeps the others (as multisets) |
| Sorting.InsertSorted | server-group.js:59 | inserting into a sorted list keeps it sorted |
| Sorting.SortBy | server-group.js:59 | the sort is a permutation of its input, sorted by ascending key |
| Sorting.SortBySorted | server-handler.js:169 | a list that is already ascending comes out of the sort unchanged |
| Sorting.SortByStrict | server-group.js:59 | a list whose keys are pairwise distinct sorts into strictly ascending order |
| DispatchQueue.QueuedStartsMembers | sockets.js:36-49 | an entry is among the started queued listeners exactly when the log records its queued start |
| DispatchQueue.QueuedStartsSnoc | sockets.js:39 | logging one action adds an entry to the started list only when it starts a queued listener |
| DispatchQueue.WithWrappedAck | sockets.js:19-25 | a queued listener receives the event's arguments with the last one (the callback) replaced by its wrapper |
| DispatchQueue.Dispatcher.constructor | sockets.js:34 | the queue starts empty |
| DispatchQueue.Dispatcher.Enqueue | sockets.js:36-41 | the entry is appended, and its listener starts exactly when the queue held nothing before |
| DispatchQueue.Dispatcher.Dequeue | sockets.js:43-49 | the head is dropped (nothing happens on an empty queue), and the new head, if any, starts |
| DispatchQueue.Dispatcher.Receive | sockets.js:15-26 | an event whose last argument is not a function starts its listener at once and leaves the queue alone; any other event is enqueued with its callback wrapped |
| DispatchQueue.Dispatcher.Acknowledge | sockets.js:20-23 | the acknowledgment is forwarded to the client's callback first, then the queue moves on |
| DispatchQueue.StartsInEnqueueOrder | sockets.js:36-49 | queued listeners start in the order they were enqueued, and at most one started listener (the head) is still unacknowledged |
| DispatchQueue.OneRunningAtATime | sockets.js:36-41 | before any acknowledgment, only the first queued listener has started |
| Store.OrNull | sockets.js:86 | the requested identifier when it is a non-empty string, otherwise null |
| Store.RequestedIds | sockets.js:83-87 | the `serverMap` written for a request: one property per store server, in store order |
| Store.NewEpisodes | sockets.js:126 | `out.episodes = urls`: the aggregator's slots as episode records, with no `watched` field |
| Store.Refreshed | sockets.js:103-106 | an episode with the links of the slot carrying its number, if any |
| Store.RefreshAll | sockets.js:102-107 | every stored episode refreshed in place |
| Store.WithServer | sockets.js:157 | a record with `serverMap[name] = null` |
| Store.WithServerAll | sockets.js:156-159 | every record with the new server |
| Store.StripAll | sockets.js:184 | every episode without the server's links |
| Store.WithoutServer | sockets.js:184-185 | a record without the server's links and without its `serverMap` key |
| Store.WithoutServerAll | sockets.js:183-187 | every record without the server |
| Store.WithWatched | sockets.js:209 | a record whose j-th episode has `watched` set |
| Store.WithLinks | sockets.js:237 | a record whose j-th episode has its links replaced |
| Store.RescanOne | sockets.js:249-257 | one visit of the `forEach`: replace the links of the episode with that number, or append the fetched episode with `watched: false` |
| Store.Rescanned | sockets.js:248-258 | the episodes after visiting every fetched slot in order |
| Store.ReplaceKeepsInvariant | sockets.js:108 | replacing one record by a well-formed record keeps the store invariant |
| Store.AppendKeepsInvariant | sockets.js:127 | appending a well-formed record keeps the store invariant |
| Store.FindTitleSpec | sockets.js:118 | a title is found exactly when some record carries it, and the record found carries it |
| Store.FindSlotUnique | sockets.js:103 | with one slot per number, the slot found for a number is that number's slot |
| Store.RequestedIdsSpec | sockets.js:83-87 | the written `serverMap` has exactly the store's servers as keys, in order; each maps to the requested identifier when that is a non-empty string, and to null otherwise |
| Store.BuildServerMap | sockets.js:84-87 | the loop builds exactly that `serverMap` |
| Store.RefreshedSpec | sockets.js:102-107 | an update keeps each episode's number and `watched`, takes the links of the slot with its number, and keeps its links when no slot has it |
| Store.RefreshEpisodes | sockets.js:102-107 | the loop refreshes every episode as specified |
| Store.SlotLinksFromKeys | sockets.js:100 | every link the aggregator returns names a key of the `serverMap` it was given |
| Store.UpdatedWellFormed | sockets.js:92-108 | the record an update writes is well formed |
| Store.CreatedWellFormed | sockets.js:117-127 | the record a creation writes is well formed |
| Store.AddServerToAll | sockets.js:156-159 | the loop adds the server to every record |
| Store.WithServerSpec | sockets.js:156-159 | adding a new server appends a null property for it, and keeps the record well formed over the extended server list |
| Store.CreateServerKeepsInvariant | sockets.js:152-159 | creating a new non-empty server keeps the store invariant |
| Store.Strip | sockets.js:184 | the filter keeps exactly the links of the other servers |
| Store.StripEpisodes | sockets.js:184 | the loop strips the server's links from every episode |
| Store.RemoveServerFromAll | sockets.js:183-187 | the loop removes the server from every record |
| Store.WithoutServerSpec | sockets.js:181-187 | removing a server drops its key and every link it gave; every other link, and every episode's number and `watched`, stay; the record stays well formed over the remaining servers |
| Store.DeleteServerKeepsInvariant | sockets.js:181-187 | deleting a server keeps the store invariant over the remaining servers |
| Store.WithWatchedWellFormed | sockets.js:209 | marking an episode watched or unwatched keeps the record well formed |
| Store.WithLinksWellFormed | sockets.js:235-237 | storing the links found for one episode keeps the record well formed |
| Store.RescanEpisodes | sockets.js:248-258 | the loop applies every fetched slot, in order |
| Store.RescanOneSpec | sockets.js:249-257 | one visit changes only the links of the episode with the fetched number, or appends an unwatched episode with a number that no episode had |
| Store.RescannedKeepsEpisodes | sockets.js:247-259 | a full rescan keeps every stored episode in its place with its number and `watched`; an episode whose number no slot carries keeps its links |
| Store.RescannedAppends | sockets.js:253-256 | every appended episode is unwatched and carries a fetched number that no stored episode had |
| Store.RescannedDistinct | sockets.js:247-259 | a full rescan keeps one episode per number |
| Store.RescannedLinks | sockets.js:247-259 | a full rescan brings in only links from the fetched slots |
| Store.RescannedCovers | sockets.js:247-259 | after a full rescan, each fetched slot's links are the links of the episode with its number |
| Store.RescannedWellFormed | sockets.js:244-259 | a full rescan keeps the record well formed |
| Store.WithoutTitle | sockets.js:279 | `remove` drops every record with the title and keeps all others |
| Store.AnimeStore.constructor | db.js:28 | the store starts with no titles and no servers |
| Store.AnimeStore.CreateOrUpdateAnime | sockets.js:69-135 | a missing or empty title is rejected. With an id, an unknown id is rejected; otherwise that record gets the new title, active flag and `serverMap`, and its episodes are refreshed from the aggregator. Without an id, a duplicate title is rejected; otherwise a record is appended whose episodes are the aggregator's slots. The invariant is kept, and the exact error messages are given |
| Store.AnimeStore.CreateServer | sockets.js:137-165 | a missing or empty name and a duplicate name are rejected with their messages; otherwise the server is appended, and every record gets a null identifier for it |
| Store.AnimeStore.DeleteServer | sockets.js:167-192 | a missing name, and a name that is empty or not a server, are rejected with their messages; otherwise the server, its keys and its links are removed everywhere |
| Store.AnimeStore.WatchEpisode | sockets.js:194-212 | an unknown title and a missing episode are rejected with their messages; otherwise only that episode's `watched` changes, to the request's flag or false |
| Store.AnimeStore.RescanLinks | sockets.js:214-265 | a missing title, an unknown title and a missing episode are rejected with their messages. With a number, that episode's links are replaced by the aggregator's links for it, and those links are returned. Without one, every fetched slot is applied; the invariant is kept |
| Store.AnimeStore.DeleteAnime | sockets.js:267-282 | a missing or empty title and an unknown title are rejected with their messages; otherwise every record with the title is removed |

## Left out

- HTTP requests, HTML parsing with cheerio, and the regular expressions that read Gogoanime's
  `ep_start`/`ep_end` and OtakuStream's `Episode N` labels are not modelled. The `Page`
  input carries what those would extract.
- ServerHandler.LeadingInteger: it skips leading white space, then reads an optional sign
  and a run of digits. Where `parseFloat` would also read a fraction (`10.5` gives 10.5) or
  an exponent (`1e3` gives 1000), the model reads only the integer part (10, 1). Where
  `parseFloat` reads `Infinity`, the model reads nothing. Episode numbers are integers
  throughout the model.
- ServerHandler.MangaKakalotFirstEpisodeNumber: when the capture of the last link reads as
  `NaN` (`chapter_abc`), the model answers no number, while the source answers `NaN`
  (server-handler.js:293). No modelled operation uses this answer.
- ServerHandler.MangaKakalotLastEpisodeNumber: the same holds for the first link
  (server-handler.js:309). The model answers no number, while the source answers `NaN`.
- ServerHandler.EpisodicLastEpisodeNumber: when Gogoanime's last page link has no `ep_end`
  attribute, or there is no page link, `parseInt` gives `NaN` (server-handler.js:103). The
  model folds this into an absent `lastEpEnd`, so it answers no number. Either way
  `getAllEpisodeUrls` then returns `[]`: `NaN` passes the `typeof` guard, but the loop
  `i <= NaN` never runs.
- ServerHandler.ChapterListing: a link that yields `NaN` makes the whole MangaKakalot result
  empty. The source keeps such an entry with number `NaN`, and `NaN` is not an integer.
- ServerHandler.MangaKakalotEntries: the order among chapters with equal numbers is not
  stated. The source's comparator is not consistent for equal numbers, so it is stated only
  as a sorted permutation.
- An `href` attribute missing from a chapter link is not modelled; every link is a string.
- Common.IntToString renders every integer in plain decimal. JavaScript switches to
  exponent notation from 1e21 on, and that is not modelled.
- Promise concurrency is not modelled. `Promise.all` is modelled as asking the handlers one
  after the other, which gives the same result because handlers do not affect each other.
- The `await` gaps between a handler's read of the database and its write are not
  modelled. Each store method runs as one step, which is what the dispatch queue provides
  when clients acknowledge.
- The "never rejects" promise of every handler and of the aggregator has no counterpart.
  Every failure path is a value (`None`, `[]`), so nothing can throw.
- `io.emit('anime list data', ...)` broadcasts, the `anime list request` event, the startup
  scan in sockets.js:58, and the debug logging only read or send data. They are not
  modelled.
- `genId` (id-generator.js) is not part of this model. A new record's identifier is the
  `newId` argument.
- The lowdb persistence of db.js, the HTTP routes in routes/ and the error class of
  errors.js are not modelled. The store is the class's two fields.
- Request fields whose JavaScript type differs from the declared one are not modelled:
  - a number as a server name;
  - a non-string identifier in a requested `serverMap`;
  - a non-number episode number.

  Each of these is modelled as an option of the declared type.
- A listener that throws is not modelled, nor is a client that never acknowledges (its
  queue then stalls, as in the source). The `this` binding passed to listeners is not
  modelled either.
- Store.AnimeStore.CreateOrUpdateAnime: an update does not check whether the new title
  duplicates another record's title, because the source does not check it either.
- The dispatch queue is one module-level queue shared by every connection
  (sockets.js:34-49), not one queue per connection. The model follows the code.
- Episodes created from the aggregator's slots have no `watched` field (`None`), while
  episodes appended by a full rescan have `watched: false` (`Some(false)`). The model
  follows the code.
- A full rescan appends new episodes at the end without re-sorting, as the code does. The
  message for a missing episode in a single rescan lacks spaces ("…does not exist as record
  from anime…"), and the model keeps the code's text.

## Findings

| source | as written | input that shows it | evidently intended | confidence | as-written member | corrected member |
|---|---|---|---|---|---|---|
| server-handler.js:169 (and 267) | `.sort((a, b) => a.number < b.number)` returns a boolean. `sort` reads it as 1 or 0, so it never answers "less" and calls any pair unordered one way round | an episodic result `[{number: 1}, {number: 2}]`: compare(1, 2) = 1 claims 1 > 2, and compare(2, 1) = 0 claims they are equal, so the final order depends on the engine's sort algorithm | an ascending comparator `a.number - b.number`, which leaves the ascending result the loop built unchanged | medium, not executed | ServerHandler.BooleanComparatorInconsistent | ServerHandler.EpisodicEntriesSortedUnchanged |
