/** The socket event handlers that read and change the store: creating or updating a
    title, adding and removing servers, marking an episode watched, rescanning links and
    deleting a title. The store is the database's `animes` and `servers` collections; a
    handler's reply is what it passes to the client's callback. */
module Store {
  import opened Common
  import opened ServerMaps
  import opened Sorting
  import opened ServerHandler
  import opened ServerGroup

  /** An episode record; `watched` is absent on an episode taken as-is from the
      aggregator. */
  datatype Episode = Episode(number: int, watched: Option<bool>, urls: seq<ServerUrl>)

  /** A title record. */
  datatype Anime = Anime(id: string, title: string, active: bool, episodes: seq<Episode>, serverMap: ServerMap)

  /** What a handler passes to the callback: an error, `false`, or `false` and the links a
      single-episode rescan found. */
  datatype Reply = Rejected(message: string) | Done | DoneWith(links: seq<ServerUrl>)

  /** The payload of an `anime create/update request`. */
  datatype AnimeRequest = AnimeRequest(title: Option<string>, serverMap: ServerMap, active: Option<bool>, id: Option<string>)

  /** A string that `if (s)` accepts: present and not empty. */
  predicate Truthy(s: Option<string>) {
    s.Some? && s.value != ""
  }

  // ---------------------------------------------------------------------------------
  // The store invariant

  ghost predicate EpisodeNumbersDistinct(eps: seq<Episode>) {
    forall i, j :: 0 <= i < j < |eps| ==> eps[i].number != eps[j].number
  }

  /** Every link of every episode names one of `servers`. */
  ghost predicate LinksFrom(eps: seq<Episode>, servers: seq<string>) {
    forall e, l :: e in eps && l in e.urls ==> l.server in servers
  }

  /** A record has a title, a `serverMap` keyed by exactly the store's servers, one
      episode per number, and links only from the store's servers. */
  ghost predicate WellFormed(a: Anime, servers: seq<string>) {
    a.title != "" && Keys(a.serverMap) == servers &&
    EpisodeNumbersDistinct(a.episodes) && LinksFrom(a.episodes, servers)
  }

  ghost predicate StoreInvariant(animes: seq<Anime>, servers: seq<string>) {
    Distinct(servers) && "" !in servers && forall a :: a in animes ==> WellFormed(a, servers)
  }

  /** Replacing one record by a well-formed one keeps the invariant. */
  lemma ReplaceKeepsInvariant(animes: seq<Anime>, servers: seq<string>, i: nat, a: Anime)
    requires StoreInvariant(animes, servers) && i < |animes| && WellFormed(a, servers)
    ensures StoreInvariant(animes[i := a], servers)
  {
    forall b | b in animes[i := a] ensures WellFormed(b, servers) {
      var k :| 0 <= k < |animes[i := a]| && animes[i := a][k] == b;
      if k != i {
        assert b == animes[k];
      }
    }
  }

  // ---------------------------------------------------------------------------------
  // Lookups

  /** `find({ title })`. */
  function FindTitle(animes: seq<Anime>, title: string): Option<nat> {
    IndexOf(animes, (a: Anime) => a.title == title)
  }

  /** `find({ _id })`. */
  function FindId(animes: seq<Anime>, id: string): Option<nat> {
    IndexOf(animes, (a: Anime) => a.id == id)
  }

  /** `find({ number })` among a record's episodes. */
  function FindEpisode(eps: seq<Episode>, n: int): Option<nat> {
    IndexOf(eps, (e: Episode) => e.number == n)
  }

  /** `urls.find(url => url.number === n)` among the aggregator's slots. */
  function FindSlot(slots: seq<ResolvedEpisode>, n: int): Option<nat> {
    IndexOf(slots, (s: ResolvedEpisode) => s.number == n)
  }

  /** A title is found exactly when some record carries it. */
  lemma FindTitleSpec(animes: seq<Anime>, title: string)
    ensures FindTitle(animes, title).Some? <==> exists a :: a in animes && a.title == title
    ensures FindTitle(animes, title).Some? ==> animes[FindTitle(animes, title).value].title == title
  {
    if exists a :: a in animes && a.title == title {
      var a :| a in animes && a.title == title;
      var k :| 0 <= k < |animes| && animes[k] == a;
      assert ((x: Anime) => x.title == title)(animes[k]);
    }
  }

  /** With one slot per number, the slot found for `n` is the slot of `n`. */
  lemma FindSlotUnique(slots: seq<ResolvedEpisode>, s: ResolvedEpisode)
    requires StrictlyAscendingBy(slots, SlotNumber) && s in slots
    ensures FindSlot(slots, s.number).Some? && slots[FindSlot(slots, s.number).value] == s
  {
    var k :| 0 <= k < |slots| && slots[k] == s;
    assert ((x: ResolvedEpisode) => x.number == s.number)(slots[k]);
    var j := FindSlot(slots, s.number).value;
    assert SlotNumber(slots[j]) == SlotNumber(slots[k]);
  }

  // ---------------------------------------------------------------------------------
  // anime create/update request

  /** `anime.serverMap[serverName] || null`. */
  function OrNull(id: Option<string>): Option<string> {
    if Truthy(id) then id else None
  }

  /** The `serverMap` of the written record: one property per store server, holding the
      requested identifier or `null`. */
  function RequestedIds(servers: seq<string>, requested: ServerMap): ServerMap {
    seq(|servers|, i requires 0 <= i < |servers| => Binding(servers[i], OrNull(Value(requested, servers[i]))))
  }

  /** The built `serverMap` has exactly the store's servers as keys, in their order, each
      mapped to the requested identifier when that is a non-empty string and to `null`
      otherwise. */
  lemma RequestedIdsSpec(servers: seq<string>, requested: ServerMap, s: string)
    requires Distinct(servers)
    ensures Keys(RequestedIds(servers, requested)) == servers
    ensures Value(RequestedIds(servers, requested), s) ==
            if s in servers then OrNull(Value(requested, s)) else None
  {
    var r := RequestedIds(servers, requested);
    assert Keys(r) == servers;
    if s in servers {
      var i :| 0 <= i < |servers| && servers[i] == s;
      ValueAt(r, i);
    } else {
      ValueSpec(r, s);
    }
  }

  /** The `for (const serverName of servers)` loop that builds the `serverMap`. */
  method BuildServerMap(servers: seq<string>, requested: ServerMap) returns (out: ServerMap)
    requires Distinct(servers)
    ensures out == RequestedIds(servers, requested)
  {
    out := [];
    for i := 0 to |servers|
      invariant out == RequestedIds(servers[..i], requested)
    {
      assert Keys(out) == servers[..i];
      assert servers[i] !in servers[..i];
      AssignNew(out, servers[i], OrNull(Value(requested, servers[i])));
      out := Assign(out, servers[i], OrNull(Value(requested, servers[i])));
      assert servers[..i + 1] == servers[..i] + [servers[i]];
    }
    assert servers[..|servers|] == servers;
  }

  /** `out.episodes = urls`: the aggregator's slots become episode records. */
  function NewEpisodes(slots: seq<ResolvedEpisode>): seq<Episode> {
    seq(|slots|, i requires 0 <= i < |slots| => Episode(slots[i].number, None, slots[i].urls))
  }

  /** `ep.urls = matchingUrl.urls` when some slot carries the episode's number. */
  function Refreshed(ep: Episode, slots: seq<ResolvedEpisode>): Episode {
    match FindSlot(slots, ep.number)
    case None => ep
    case Some(j) => ep.(urls := slots[j].urls)
  }

  function RefreshAll(eps: seq<Episode>, slots: seq<ResolvedEpisode>): seq<Episode> {
    seq(|eps|, i requires 0 <= i < |eps| => Refreshed(eps[i], slots))
  }

  /** An update keeps every episode's number and `watched`, takes the links of the slot
      with its number when there is one, and keeps its links otherwise. */
  lemma RefreshedSpec(ep: Episode, slots: seq<ResolvedEpisode>, s: ResolvedEpisode)
    requires StrictlyAscendingBy(slots, SlotNumber)
    ensures Refreshed(ep, slots).number == ep.number && Refreshed(ep, slots).watched == ep.watched
    ensures s in slots && s.number == ep.number ==> Refreshed(ep, slots).urls == s.urls
    ensures (forall t :: t in slots ==> t.number != ep.number) ==> Refreshed(ep, slots) == ep
  {
    if s in slots && s.number == ep.number {
      FindSlotUnique(slots, s);
    }
    if FindSlot(slots, ep.number).Some? {
      assert slots[FindSlot(slots, ep.number).value] in slots;
    }
  }

  /** The `out.episodes.forEach` loop of an update. */
  method RefreshEpisodes(eps: seq<Episode>, slots: seq<ResolvedEpisode>) returns (r: seq<Episode>)
    ensures r == RefreshAll(eps, slots)
  {
    r := eps;
    for i := 0 to |eps|
      invariant |r| == |eps|
      invariant forall k :: 0 <= k < i ==> r[k] == Refreshed(eps[k], slots)
      invariant forall k :: i <= k < |eps| ==> r[k] == eps[k]
    {
      var matching := FindSlot(slots, r[i].number);
      if matching.Some? {
        r := r[i := r[i].(urls := slots[matching.value].urls)];
      }
    }
  }

  /** Every link of a slot of the aggregator's result names a key of the `serverMap` it
      was given. */
  lemma SlotLinksFromKeys(m: ServerMap, web: Web, e: ResolvedEpisode, l: ServerUrl)
    requires e in GroupEpisodes(m, None, web) && l in e.urls
    ensures l.server in Keys(m)
  {
    GroupEpisodesLinks(m, None, web, e, l);
  }

  /** The record an update writes is well formed. */
  lemma UpdatedWellFormed(a: Anime, servers: seq<string>, title: string, active: bool, sm: ServerMap, web: Web)
    requires WellFormed(a, servers) && title != "" && Keys(sm) == servers
    ensures WellFormed(Anime(a.id, title, active, RefreshAll(a.episodes, GroupEpisodes(sm, None, web)), sm), servers)
  {
    var slots := GroupEpisodes(sm, None, web);
    var eps := RefreshAll(a.episodes, slots);
    GroupEpisodesAscending(sm, None, web);
    forall k | 0 <= k < |eps| ensures eps[k].number == a.episodes[k].number {
      RefreshedSpec(a.episodes[k], slots, ResolvedEpisode(0, []));
    }
    forall e, l | e in eps && l in e.urls ensures l.server in servers {
      var k :| 0 <= k < |eps| && eps[k] == e;
      match FindSlot(slots, a.episodes[k].number)
      case None =>
        assert a.episodes[k] in a.episodes;
      case Some(j) =>
        assert slots[j] in slots;
        SlotLinksFromKeys(sm, web, slots[j], l);
    }
  }

  /** The record a creation writes is well formed. */
  lemma CreatedWellFormed(servers: seq<string>, id: string, title: string, active: bool, sm: ServerMap, web: Web)
    requires title != "" && Keys(sm) == servers
    ensures WellFormed(Anime(id, title, active, NewEpisodes(GroupEpisodes(sm, None, web)), sm), servers)
  {
    var slots := GroupEpisodes(sm, None, web);
    var eps := NewEpisodes(slots);
    GroupEpisodesAscending(sm, None, web);
    assert EpisodeNumbersDistinct(eps) by {
      forall i, j | 0 <= i < j < |eps| ensures eps[i].number != eps[j].number {
        assert SlotNumber(slots[i]) < SlotNumber(slots[j]);
      }
    }
    forall e, l | e in eps && l in e.urls ensures l.server in servers {
      var k :| 0 <= k < |eps| && eps[k] == e;
      assert slots[k] in slots;
      SlotLinksFromKeys(sm, web, slots[k], l);
    }
  }

  // ---------------------------------------------------------------------------------
  // server create request

  /** `anime.serverMap[serverName] = null`. */
  function WithServer(a: Anime, name: string): Anime {
    a.(serverMap := Assign(a.serverMap, name, None))
  }

  function WithServerAll(animes: seq<Anime>, name: string): seq<Anime> {
    seq(|animes|, i requires 0 <= i < |animes| => WithServer(animes[i], name))
  }

  /** The `db.get('animes').map(...)` loop that adds the server to every record. */
  method AddServerToAll(animes: seq<Anime>, name: string) returns (r: seq<Anime>)
    ensures r == WithServerAll(animes, name)
  {
    r := animes;
    for i := 0 to |animes|
      invariant |r| == |animes|
      invariant forall k :: 0 <= k < i ==> r[k] == WithServer(animes[k], name)
      invariant forall k :: i <= k < |animes| ==> r[k] == animes[k]
    {
      r := r[i := r[i].(serverMap := Assign(r[i].serverMap, name, None))];
    }
  }

  /** Adding a new server appends a `null` property for it to the record's `serverMap`,
      and keeps the record well formed over the larger set of servers. */
  lemma WithServerSpec(a: Anime, servers: seq<string>, name: string)
    requires WellFormed(a, servers) && name !in servers
    ensures WithServer(a, name).serverMap == a.serverMap + [Binding(name, None)]
    ensures WellFormed(WithServer(a, name), servers + [name])
  {
    AssignNew(a.serverMap, name, None);
    assert Keys(a.serverMap + [Binding(name, None)]) == servers + [name];
  }

  lemma CreateServerKeepsInvariant(animes: seq<Anime>, servers: seq<string>, name: string)
    requires StoreInvariant(animes, servers) && name != "" && name !in servers
    ensures StoreInvariant(WithServerAll(animes, name), servers + [name])
  {
    var r := WithServerAll(animes, name);
    forall a | a in r ensures WellFormed(a, servers + [name]) {
      var k :| 0 <= k < |r| && r[k] == a;
      assert animes[k] in animes;
      WithServerSpec(animes[k], servers, name);
    }
    assert Distinct(servers + [name]) by {
      forall i, j | 0 <= i < j < |servers| + 1 ensures (servers + [name])[i] != (servers + [name])[j] {
        if j == |servers| {
          assert servers[i] in servers;
        }
      }
    }
  }

  // ---------------------------------------------------------------------------------
  // server delete request

  /** `urls.filter(url => url.server !== serverName)`. */
  function Strip(urls: seq<ServerUrl>, name: string): (r: seq<ServerUrl>)
    ensures forall l :: l in r <==> l in urls && l.server != name
    ensures |r| <= |urls|
  {
    if urls == [] then []
    else
      var rest := Strip(urls[1..], name);
      assert urls == [urls[0]] + urls[1..];
      if urls[0].server != name then [urls[0]] + rest else rest
  }

  function StripAll(eps: seq<Episode>, name: string): seq<Episode> {
    seq(|eps|, i requires 0 <= i < |eps| => eps[i].(urls := Strip(eps[i].urls, name)))
  }

  /** `anime.episodes.forEach(...)` and `delete anime.serverMap[serverName]`. */
  function WithoutServer(a: Anime, name: string): Anime {
    a.(episodes := StripAll(a.episodes, name), serverMap := Remove(a.serverMap, name))
  }

  function WithoutServerAll(animes: seq<Anime>, name: string): seq<Anime> {
    seq(|animes|, i requires 0 <= i < |animes| => WithoutServer(animes[i], name))
  }

  /** The `anime.episodes.forEach` loop that strips the server's links. */
  method StripEpisodes(eps: seq<Episode>, name: string) returns (r: seq<Episode>)
    ensures r == StripAll(eps, name)
  {
    r := eps;
    for i := 0 to |eps|
      invariant |r| == |eps|
      invariant forall k :: 0 <= k < i ==> r[k] == eps[k].(urls := Strip(eps[k].urls, name))
      invariant forall k :: i <= k < |eps| ==> r[k] == eps[k]
    {
      r := r[i := r[i].(urls := Strip(r[i].urls, name))];
    }
  }

  /** The `db.get('animes').map(...)` loop that removes the server from every record. */
  method RemoveServerFromAll(animes: seq<Anime>, name: string) returns (r: seq<Anime>)
    ensures r == WithoutServerAll(animes, name)
  {
    r := animes;
    for i := 0 to |animes|
      invariant |r| == |animes|
      invariant forall k :: 0 <= k < i ==> r[k] == WithoutServer(animes[k], name)
      invariant forall k :: i <= k < |animes| ==> r[k] == animes[k]
    {
      var eps := StripEpisodes(r[i].episodes, name);
      r := r[i := r[i].(episodes := eps, serverMap := Remove(r[i].serverMap, name))];
    }
  }

  /** Removing a server drops its key and every link it gave, keeps every other link and
      every episode's number and `watched`, and keeps the record well formed over the
      remaining servers. */
  lemma WithoutServerSpec(a: Anime, servers: seq<string>, name: string, k: nat, l: ServerUrl)
    requires WellFormed(a, servers)
    ensures Keys(WithoutServer(a, name).serverMap) == Omit(servers, name)
    ensures |WithoutServer(a, name).episodes| == |a.episodes|
    ensures k < |a.episodes| ==>
              var e := WithoutServer(a, name).episodes[k];
              e.number == a.episodes[k].number && e.watched == a.episodes[k].watched &&
              (l in e.urls <==> l in a.episodes[k].urls && l.server != name)
    ensures WellFormed(WithoutServer(a, name), Omit(servers, name))
  {
    RemoveKeys(a.serverMap, name);
    var eps := WithoutServer(a, name).episodes;
    forall e, l' | e in eps && l' in e.urls ensures l'.server in Omit(servers, name) {
      var j :| 0 <= j < |eps| && eps[j] == e;
      assert a.episodes[j] in a.episodes;
    }
  }

  lemma DeleteServerKeepsInvariant(animes: seq<Anime>, servers: seq<string>, name: string)
    requires StoreInvariant(animes, servers)
    ensures StoreInvariant(WithoutServerAll(animes, name), Omit(servers, name))
  {
    OmitKeepsDistinct(servers, name);
    var r := WithoutServerAll(animes, name);
    forall a | a in r ensures WellFormed(a, Omit(servers, name)) {
      var k :| 0 <= k < |r| && r[k] == a;
      assert animes[k] in animes;
      WithoutServerSpec(animes[k], servers, name, 0, ServerUrl("", ""));
    }
  }

  // ---------------------------------------------------------------------------------
  // episode watch/unwatch request

  /** `episodeQuery.set('watched', ...)` on the `j`-th episode. */
  function WithWatched(a: Anime, j: nat, watched: bool): Anime
    requires j < |a.episodes|
  {
    a.(episodes := a.episodes[j := a.episodes[j].(watched := Some(watched))])
  }

  /** Marking an episode keeps the record well formed. */
  lemma WithWatchedWellFormed(a: Anime, servers: seq<string>, j: nat, watched: bool)
    requires WellFormed(a, servers) && j < |a.episodes|
    ensures WellFormed(WithWatched(a, j, watched), servers)
  {
    var eps := WithWatched(a, j, watched).episodes;
    forall e, l | e in eps && l in e.urls ensures l.server in servers {
      var k :| 0 <= k < |eps| && eps[k] == e;
      assert a.episodes[k] in a.episodes;
    }
  }

  // ---------------------------------------------------------------------------------
  // link rescan request

  /** `epQuery.set('urls', urls)` on the `j`-th episode. */
  function WithLinks(a: Anime, j: nat, links: seq<ServerUrl>): Anime
    requires j < |a.episodes|
  {
    a.(episodes := a.episodes[j := a.episodes[j].(urls := links)])
  }

  /** Storing the links the aggregator found for one episode keeps the record well
      formed. */
  lemma WithLinksWellFormed(a: Anime, servers: seq<string>, j: nat, web: Web, n: int)
    requires WellFormed(a, servers) && j < |a.episodes|
    ensures WellFormed(WithLinks(a, j, GetEpisodeUrls(a.serverMap, web, n)), servers)
  {
    var eps := WithLinks(a, j, GetEpisodeUrls(a.serverMap, web, n)).episodes;
    forall e, l | e in eps && l in e.urls ensures l.server in servers {
      var k :| 0 <= k < |eps| && eps[k] == e;
      assert a.episodes[k] in a.episodes;
    }
  }

  /** One visit of `fetchedEps.forEach`: replace the links of the episode with that
      number, or append the fetched episode as unwatched. */
  function RescanOne(eps: seq<Episode>, f: ResolvedEpisode): seq<Episode> {
    match FindEpisode(eps, f.number)
    case Some(j) => eps[j := eps[j].(urls := f.urls)]
    case None => eps + [Episode(f.number, Some(false), f.urls)]
  }

  /** The episodes after visiting every fetched slot in order. */
  function Rescanned(eps: seq<Episode>, fetched: seq<ResolvedEpisode>): seq<Episode> {
    if fetched == [] then eps
    else RescanOne(Rescanned(eps, fetched[..|fetched| - 1]), fetched[|fetched| - 1])
  }

  /** The `fetchedEps.forEach` loop of a full rescan. */
  method RescanEpisodes(eps: seq<Episode>, fetched: seq<ResolvedEpisode>) returns (r: seq<Episode>)
    ensures r == Rescanned(eps, fetched)
  {
    r := eps;
    for i := 0 to |fetched|
      invariant r == Rescanned(eps, fetched[..i])
    {
      assert fetched[..i + 1][..i] == fetched[..i];
      var correspondent := FindEpisode(r, fetched[i].number);
      if correspondent.Some? {
        var j := correspondent.value;
        r := r[j := r[j].(urls := fetched[i].urls)];
      } else {
        r := r + [Episode(fetched[i].number, Some(false), fetched[i].urls)];
      }
    }
    assert fetched[..|fetched|] == fetched;
  }

  /** One visit changes only the links of the episode with the fetched number, or appends
      an unwatched episode with a number no episode had. */
  lemma RescanOneSpec(eps: seq<Episode>, f: ResolvedEpisode)
    requires EpisodeNumbersDistinct(eps)
    ensures var r := RescanOne(eps, f);
            |r| >= |eps| &&
            (forall k :: 0 <= k < |eps| ==>
               r[k].number == eps[k].number && r[k].watched == eps[k].watched &&
               r[k].urls == (if eps[k].number == f.number then f.urls else eps[k].urls)) &&
            (forall k :: |eps| <= k < |r| ==>
               r[k] == Episode(f.number, Some(false), f.urls) &&
               forall j :: 0 <= j < |eps| ==> eps[j].number != f.number)
  {
  }

  /** A full rescan keeps every episode already stored, in its place, with its number and
      `watched`; an episode whose number no slot carries keeps its links. */
  lemma {:induction false} RescannedKeepsEpisodes(eps: seq<Episode>, fetched: seq<ResolvedEpisode>, k: nat)
    requires EpisodeNumbersDistinct(eps)
    ensures var r := Rescanned(eps, fetched);
            |r| >= |eps| &&
            (k < |eps| ==> r[k].number == eps[k].number && r[k].watched == eps[k].watched) &&
            (k < |eps| && (forall f :: f in fetched ==> f.number != eps[k].number) ==> r[k] == eps[k])
  {
    if fetched != [] {
      var init := fetched[..|fetched| - 1];
      var f := fetched[|fetched| - 1];
      RescannedKeepsEpisodes(eps, init, k);
      RescannedDistinct(eps, init);
      RescanOneSpec(Rescanned(eps, init), f);
      if k < |eps| && (forall f :: f in fetched ==> f.number != eps[k].number) {
        assert forall g :: g in init ==> g in fetched;
        assert f in fetched;
      }
    }
  }

  /** Every episode a full rescan appends is unwatched and has a fetched number that no
      stored episode had. */
  lemma {:induction false} RescannedAppends(eps: seq<Episode>, fetched: seq<ResolvedEpisode>, k: nat)
    requires EpisodeNumbersDistinct(eps)
    ensures var r := Rescanned(eps, fetched);
            |eps| <= k < |r| ==>
              r[k].watched == Some(false) &&
              (exists f :: f in fetched && f.number == r[k].number) &&
              forall j :: 0 <= j < |eps| ==> eps[j].number != r[k].number
  {
    if fetched != [] {
      var init := fetched[..|fetched| - 1];
      var f := fetched[|fetched| - 1];
      var prev := Rescanned(eps, init);
      RescannedDistinct(eps, init);
      RescanOneSpec(prev, f);
      RescannedAppends(eps, init, k);
      var r := Rescanned(eps, fetched);
      if |eps| <= k < |r| {
        assert f in fetched;
        if k < |prev| {
          var g :| g in init && g.number == prev[k].number;
          assert g in fetched;
        } else {
          forall j | 0 <= j < |eps| ensures eps[j].number != r[k].number {
            RescannedKeepsEpisodes(eps, init, j);
          }
        }
      }
    }
  }

  /** A full rescan keeps one episode per number. */
  lemma {:induction false} RescannedDistinct(eps: seq<Episode>, fetched: seq<ResolvedEpisode>)
    requires EpisodeNumbersDistinct(eps)
    ensures EpisodeNumbersDistinct(Rescanned(eps, fetched))
  {
    if fetched != [] {
      var init := fetched[..|fetched| - 1];
      var prev := Rescanned(eps, init);
      RescannedDistinct(eps, init);
      RescanOneSpec(prev, fetched[|fetched| - 1]);
    }
  }

  /** A full rescan only brings in links of the fetched slots. */
  lemma {:induction false} RescannedLinks(eps: seq<Episode>, fetched: seq<ResolvedEpisode>, servers: seq<string>)
    requires EpisodeNumbersDistinct(eps) && LinksFrom(eps, servers)
    requires forall f, l :: f in fetched && l in f.urls ==> l.server in servers
    ensures LinksFrom(Rescanned(eps, fetched), servers)
  {
    if fetched != [] {
      var init := fetched[..|fetched| - 1];
      var f := fetched[|fetched| - 1];
      var prev := Rescanned(eps, init);
      RescannedLinks(eps, init, servers);
      RescannedDistinct(eps, init);
      RescanOneSpec(prev, f);
      var r := Rescanned(eps, fetched);
      assert f in fetched;
      forall e, l | e in r && l in e.urls ensures l.server in servers {
        var k :| 0 <= k < |r| && r[k] == e;
        if k < |prev| && prev[k].number != f.number {
          assert prev[k] in prev;
        }
      }
    }
  }

  /** After a full rescan, every fetched slot's links are the links of the episode with
      its number. */
  lemma {:induction false} RescannedCovers(eps: seq<Episode>, fetched: seq<ResolvedEpisode>, f: ResolvedEpisode)
    requires EpisodeNumbersDistinct(eps) && DistinctKeysBy(fetched, SlotNumber) && f in fetched
    ensures exists k :: 0 <= k < |Rescanned(eps, fetched)| &&
              Rescanned(eps, fetched)[k].number == f.number && Rescanned(eps, fetched)[k].urls == f.urls
  {
    var init := fetched[..|fetched| - 1];
    var last := fetched[|fetched| - 1];
    var prev := Rescanned(eps, init);
    var r := Rescanned(eps, fetched);
    RescannedDistinct(eps, init);
    RescanOneSpec(prev, last);
    if f == last {
      match FindEpisode(prev, last.number)
      case Some(j) =>
        assert r[j].number == f.number && r[j].urls == f.urls;
      case None =>
        assert r[|prev|].number == f.number;
    } else {
      var i :| 0 <= i < |fetched| && fetched[i] == f;
      assert i < |fetched| - 1 && init[i] == f;
      assert SlotNumber(fetched[i]) != SlotNumber(fetched[|fetched| - 1]);
      assert DistinctKeysBy(init, SlotNumber) by {
        forall a, b | 0 <= a < b < |init| ensures SlotNumber(init[a]) != SlotNumber(init[b]) {
          assert init[a] == fetched[a] && init[b] == fetched[b];
        }
      }
      RescannedCovers(eps, init, f);
      var k :| 0 <= k < |prev| && prev[k].number == f.number && prev[k].urls == f.urls;
      assert r[k].number == f.number && r[k].urls == f.urls;
    }
  }

  /** A full rescan keeps the record well formed. */
  lemma RescannedWellFormed(a: Anime, servers: seq<string>, web: Web)
    requires WellFormed(a, servers)
    ensures WellFormed(a.(episodes := Rescanned(a.episodes, GroupEpisodes(a.serverMap, None, web))), servers)
  {
    var fetched := GroupEpisodes(a.serverMap, None, web);
    RescannedDistinct(a.episodes, fetched);
    forall f, l | f in fetched && l in f.urls ensures l.server in servers {
      SlotLinksFromKeys(a.serverMap, web, f, l);
    }
    RescannedLinks(a.episodes, fetched, servers);
  }

  // ---------------------------------------------------------------------------------
  // anime delete request

  /** `remove({ title })`: every record with that title goes, the others stay in order. */
  function WithoutTitle(animes: seq<Anime>, title: string): (r: seq<Anime>)
    ensures forall a :: a in r <==> a in animes && a.title != title
    ensures |r| <= |animes|
  {
    if animes == [] then []
    else
      var rest := WithoutTitle(animes[1..], title);
      assert animes == [animes[0]] + animes[1..];
      if animes[0].title != title then [animes[0]] + rest else rest
  }

  /** Adding a well-formed record keeps the invariant. */
  lemma AppendKeepsInvariant(animes: seq<Anime>, servers: seq<string>, a: Anime)
    requires StoreInvariant(animes, servers) && WellFormed(a, servers)
    ensures StoreInvariant(animes + [a], servers)
  {
  }

  // ---------------------------------------------------------------------------------
  // The store and its event handlers

  /** The database's `animes` and `servers` collections. */
  class AnimeStore {
    var animes: seq<Anime>
    var servers: seq<string>

    ghost predicate Valid()
      reads this
    {
      StoreInvariant(animes, servers)
    }

    /** `db.defaults({animes: [], servers: []})`. */
    constructor ()
      ensures Valid() && animes == [] && servers == []
    {
      animes := [];
      servers := [];
    }

    /** `anime create/update request`: an `_id` names the record to update, otherwise a
        record is created under the fresh identifier `newId`. */
    method CreateOrUpdateAnime(req: AnimeRequest, newId: string, web: Web) returns (reply: Reply)
      requires Valid()
      modifies this
      ensures Valid() && servers == old(servers)
      ensures !Truthy(req.title) ==>
                reply == Rejected("Anime must have a title") && animes == old(animes)
      ensures Truthy(req.title) && Truthy(req.id) ==>
                var sm := RequestedIds(old(servers), req.serverMap);
                match FindId(old(animes), req.id.value)
                case None =>
                  reply == Rejected("No anime exists with supplied id. Cannot update") && animes == old(animes)
                case Some(i) =>
                  reply == Done &&
                  animes == old(animes)[i := Anime(old(animes)[i].id, req.title.value, req.active == Some(true),
                                                   RefreshAll(old(animes)[i].episodes, GroupEpisodes(sm, None, web)), sm)]
      ensures Truthy(req.title) && !Truthy(req.id) ==>
                var sm := RequestedIds(old(servers), req.serverMap);
                if FindTitle(old(animes), req.title.value).Some? then
                  reply == Rejected("Anime with supplied name already exists. Cannot duplicate") && animes == old(animes)
                else
                  reply == Done &&
                  animes == old(animes) + [Anime(newId, req.title.value, req.active == Some(true),
                                                 NewEpisodes(GroupEpisodes(sm, None, web)), sm)]
    {
      if !Truthy(req.title) {
        return Rejected("Anime must have a title");
      }
      var title := req.title.value;
      var sm := BuildServerMap(servers, req.serverMap);
      RequestedIdsSpec(servers, req.serverMap, title);
      var active := req.active == Some(true);
      if Truthy(req.id) {
        var found := FindId(animes, req.id.value);
        if found.None? {
          return Rejected("No anime exists with supplied id. Cannot update");
        }
        var i := found.value;
        var urls := ServerGroup.GetAllEpisodeUrls(sm, None, web);
        var eps := RefreshEpisodes(animes[i].episodes, urls);
        var out := Anime(animes[i].id, title, active, eps, sm);
        assert animes[i] in animes;
        UpdatedWellFormed(animes[i], servers, title, active, sm, web);
        ReplaceKeepsInvariant(animes, servers, i, out);
        animes := animes[i := out];
      } else {
        if FindTitle(animes, title).Some? {
          return Rejected("Anime with supplied name already exists. Cannot duplicate");
        }
        var urls := ServerGroup.GetAllEpisodeUrls(sm, None, web);
        var out := Anime(newId, title, active, NewEpisodes(urls), sm);
        CreatedWellFormed(servers, newId, title, active, sm, web);
        AppendKeepsInvariant(animes, servers, out);
        animes := animes + [out];
      }
      reply := Done;
    }

    /** `server create request`. */
    method CreateServer(name: Option<string>) returns (reply: Reply)
      requires Valid()
      modifies this
      ensures Valid()
      ensures !Truthy(name) ==>
                reply == Rejected("Must supply a name for the server") &&
                animes == old(animes) && servers == old(servers)
      ensures Truthy(name) && name.value in old(servers) ==>
                reply == Rejected("A server with supplied name already exists. Cannot have duplicates") &&
                animes == old(animes) && servers == old(servers)
      ensures Truthy(name) && name.value !in old(servers) ==>
                reply == Done && servers == old(servers) + [name.value] &&
                animes == WithServerAll(old(animes), name.value)
    {
      if !Truthy(name) {
        return Rejected("Must supply a name for the server");
      }
      if name.value in servers {
        return Rejected("A server with supplied name already exists. Cannot have duplicates");
      }
      CreateServerKeepsInvariant(animes, servers, name.value);
      servers := servers + [name.value];
      animes := AddServerToAll(animes, name.value);
      reply := Done;
    }

    /** `server delete request`. */
    method DeleteServer(name: Option<string>) returns (reply: Reply)
      requires Valid()
      modifies this
      ensures Valid()
      ensures name.None? ==>
                reply == Rejected("Must supply a name for the server") &&
                animes == old(animes) && servers == old(servers)
      ensures name.Some? && (name.value == "" || name.value !in old(servers)) ==>
                reply == Rejected("No server exists with such name") &&
                animes == old(animes) && servers == old(servers)
      ensures name.Some? && name.value != "" && name.value in old(servers) ==>
                reply == Done && servers == Omit(old(servers), name.value) &&
                animes == WithoutServerAll(old(animes), name.value)
    {
      if name.None? {
        return Rejected("Must supply a name for the server");
      }
      if name.value == "" || name.value !in servers {
        return Rejected("No server exists with such name");
      }
      DeleteServerKeepsInvariant(animes, servers, name.value);
      servers := Omit(servers, name.value);
      animes := RemoveServerFromAll(animes, name.value);
      reply := Done;
    }

    /** `episode watch/unwatch request`: `watched` is the request's flag, or `false` when
        it is not `true`. */
    method WatchEpisode(title: string, number: int, watched: Option<bool>) returns (reply: Reply)
      requires Valid()
      modifies this
      ensures Valid() && servers == old(servers)
      ensures FindTitle(old(animes), title).None? ==>
                reply == Rejected("No anime exists with supplied title") && animes == old(animes)
      ensures FindTitle(old(animes), title).Some? ==>
                var i := FindTitle(old(animes), title).value;
                match FindEpisode(old(animes)[i].episodes, number)
                case None =>
                  reply == Rejected("The supplied anime does not have episode number " + IntToString(number)) &&
                  animes == old(animes)
                case Some(j) =>
                  reply == Done && animes == old(animes)[i := WithWatched(old(animes)[i], j, watched == Some(true))]
    {
      var found := FindTitle(animes, title);
      if found.None? {
        return Rejected("No anime exists with supplied title");
      }
      var i := found.value;
      var episode := FindEpisode(animes[i].episodes, number);
      if episode.None? {
        return Rejected("The supplied anime does not have episode number " + IntToString(number));
      }
      var a := WithWatched(animes[i], episode.value, watched == Some(true));
      assert animes[i] in animes;
      WithWatchedWellFormed(animes[i], servers, episode.value, watched == Some(true));
      ReplaceKeepsInvariant(animes, servers, i, a);
      animes := animes[i := a];
      reply := Done;
    }

    /** `link rescan request`: one episode when a number is given, all of them otherwise. */
    method RescanLinks(title: Option<string>, number: Option<int>, web: Web) returns (reply: Reply)
      requires Valid()
      modifies this
      ensures Valid() && servers == old(servers)
      ensures title.None? ==>
                reply == Rejected("Must specify an anime to rescan") && animes == old(animes)
      ensures title.Some? && FindTitle(old(animes), title.value).None? ==>
                reply == Rejected("Supplied anime does not exist: " + title.value) && animes == old(animes)
      ensures title.Some? && FindTitle(old(animes), title.value).Some? && number.Some? ==>
                var i := FindTitle(old(animes), title.value).value;
                var a := old(animes)[i];
                match FindEpisode(a.episodes, number.value)
                case None =>
                  reply == Rejected("Requested episode " + IntToString(number.value) +
                                    "does not exist as record from anime" + title.value) &&
                  animes == old(animes)
                case Some(j) =>
                  var links := GetEpisodeUrls(a.serverMap, web, number.value);
                  reply == DoneWith(links) && animes == old(animes)[i := WithLinks(a, j, links)]
      ensures title.Some? && FindTitle(old(animes), title.value).Some? && number.None? ==>
                var i := FindTitle(old(animes), title.value).value;
                var a := old(animes)[i];
                reply == Done &&
                animes == old(animes)[i := a.(episodes := Rescanned(a.episodes, GroupEpisodes(a.serverMap, None, web)))]
    {
      if title.None? {
        return Rejected("Must specify an anime to rescan");
      }
      var found := FindTitle(animes, title.value);
      if found.None? {
        return Rejected("Supplied anime does not exist: " + title.value);
      }
      var i := found.value;
      var a := animes[i];
      assert a in animes;
      if number.Some? {
        var episode := FindEpisode(a.episodes, number.value);
        if episode.None? {
          return Rejected("Requested episode " + IntToString(number.value) +
                          "does not exist as record from anime" + title.value);
        }
        var links := GetEpisodeUrls(a.serverMap, web, number.value);
        WithLinksWellFormed(a, servers, episode.value, web, number.value);
        ReplaceKeepsInvariant(animes, servers, i, WithLinks(a, episode.value, links));
        animes := animes[i := WithLinks(a, episode.value, links)];
        reply := DoneWith(links);
      } else {
        var fetchedEps := ServerGroup.GetAllEpisodeUrls(a.serverMap, None, web);
        var dbEps := RescanEpisodes(a.episodes, fetchedEps);
        RescannedWellFormed(a, servers, web);
        ReplaceKeepsInvariant(animes, servers, i, a.(episodes := dbEps));
        animes := animes[i := a.(episodes := dbEps)];
        reply := Done;
      }
    }

    /** `anime delete request`. */
    method DeleteAnime(title: Option<string>) returns (reply: Reply)
      requires Valid()
      modifies this
      ensures Valid() && servers == old(servers)
      ensures !Truthy(title) ==>
                reply == Rejected("Must specify an anime title to delete") && animes == old(animes)
      ensures Truthy(title) && FindTitle(old(animes), title.value).None? ==>
                reply == Rejected("No anime exists with title: " + title.value) && animes == old(animes)
      ensures Truthy(title) && FindTitle(old(animes), title.value).Some? ==>
                reply == Done && animes == WithoutTitle(old(animes), title.value)
    {
      if !Truthy(title) {
        return Rejected("Must specify an anime title to delete");
      }
      if FindTitle(animes, title.value).None? {
        return Rejected("No anime exists with title: " + title.value);
      }
      animes := WithoutTitle(animes, title.value);
      reply := Done;
    }
  }
}
