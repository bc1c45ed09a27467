/** The source adapters: one handler per external site, each answering four questions
    about a title (first episode, last episode, the url of one episode, the urls of all
    episodes), and the factory that picks a handler by server name.

    Fetching a page and querying its markup are not modelled: the `Web` input maps each
    requested url to what the handler's selectors and regular expressions extract from
    that page, and a url missing from it is a request that failed. */
module ServerHandler {
  import opened Common
  import opened ServerMaps
  import opened Sorting

  /** The three handler classes behind the factory. */
  datatype ServerKind = Gogoanime | OtakuStream | MangaKakalot

  /** One entry of `getAllEpisodeUrls`' result. */
  datatype NumberedUrl = NumberedUrl(number: int, url: string)

  function EpNumber(e: NumberedUrl): int {
    e.number
  }

  /** The `serverName` field of each handler: its key in an anime's `serverMap`. */
  function ServerName(k: ServerKind): string {
    match k
    case Gogoanime => "gogoanime"
    case OtakuStream => "otakustream"
    case MangaKakalot => "mangakakalot"
  }

  /** The `serverUrl` field of each handler. */
  function ServerUrl(k: ServerKind): string {
    match k
    case Gogoanime => "https://www3.gogoanime.se"
    case OtakuStream => "https://otakustream.tv"
    case MangaKakalot => "https://manganelo.com"
  }

  /** `getServerHandler`: a handler for exactly the three known names, an error for any
      other. */
  function GetServerHandler(name: string): (r: Result<ServerKind>)
    ensures r.Ok? <==> name == "gogoanime" || name == "otakustream" || name == "mangakakalot"
    ensures r.Ok? ==> ServerName(r.value) == name
    ensures r.Err? ==> r.message == "Tried to get a handler for unknown server " + name
  {
    match name
    case "gogoanime" => Ok(Gogoanime)
    case "otakustream" => Ok(OtakuStream)
    case "mangakakalot" => Ok(MangaKakalot)
    case _ => Err("Tried to get a handler for unknown server " + name)
  }

  /** Each handler is found again under its own server name. */
  lemma GetServerHandlerOfName(k: ServerKind)
    ensures GetServerHandler(ServerName(k)) == Ok(k)
  {
  }

  // ---------------------------------------------------------------------------------
  // The fetched pages

  /** What the handlers extract from one fetched page. */
  datatype Page = Page(
    // Gogoanime: the digits of the `ep_start = "…"` marker in the page text
    epStart: Option<nat>,
    // Gogoanime: `parseInt` of `ep_end` on the last `ul#episode_page > li > a`
    lastEpEnd: Option<int>,
    // OtakuStream: the digits after `Episode` in the text of each
    // `div.ep-list > ul > li > a`, in page order (absent where the text has none)
    episodeLabels: seq<Option<nat>>,
    // MangaKakalot: the `href` of each `div.chapter-list > div.row > span > a`, in page order
    chapterHrefs: seq<string>)

  /** The pages a request can reach; a url that is not a key is a request that fails. */
  type Web = map<string, Page>

  function Fetch(web: Web, url: string): Option<Page> {
    if url in web then Some(web[url]) else None
  }

  /** `anime.serverMap[this.serverName]` after the `if (!name)` guard: a missing key,
      `null` and the empty string all leave the handler without an identifier. */
  function Identifier(m: ServerMap, k: ServerKind): Option<string> {
    var name := Value(m, ServerName(k));
    if name.Some? && name.value != "" then name else None
  }

  /** The page each handler requests for a title. */
  function ListingUrl(k: ServerKind, name: string): string {
    match k
    case Gogoanime => ServerUrl(k) + "/category/" + name
    case OtakuStream => ServerUrl(k) + "/anime/" + name
    case MangaKakalot => ServerUrl(k) + "/manga/" + name
  }

  /** The listing page of the title on server `k`, if it has an identifier there and the
      request succeeds. */
  function ListingPage(k: ServerKind, m: ServerMap, web: Web): (r: Option<Page>)
    ensures Identifier(m, k).None? ==> r.None?
  {
    match Identifier(m, k)
    case None => None
    case Some(name) => Fetch(web, ListingUrl(k, name))
  }

  /** The url each handler builds for episode (or chapter) `n` of the title `name`. */
  const GogoanimeEpisodePath: string := "https://www3.gogoanime.se/"
  const GogoanimeEpisodeInfix: string := "-episode-"
  const OtakuStreamEpisodePath: string := "https://otakustream.tv/anime/"
  const OtakuStreamEpisodeInfix: string := "/episode-"
  const MangaKakalotChapterPath: string := "https://manganelo.com/chapter/"
  const MangaKakalotChapterInfix: string := "/chapter_"

  function EpisodeUrlFor(k: ServerKind, name: string, n: int): string {
    match k
    case Gogoanime => GogoanimeEpisodePath + name + GogoanimeEpisodeInfix + IntToString(n)
    case OtakuStream => OtakuStreamEpisodePath + name + OtakuStreamEpisodeInfix + IntToString(n) + "/"
    case MangaKakalot => MangaKakalotChapterPath + name + MangaKakalotChapterInfix + IntToString(n) + "/"
  }

  /** Different episodes of one title get different urls. */
  lemma EpisodeUrlForInjective(k: ServerKind, name: string, n1: int, n2: int)
    requires EpisodeUrlFor(k, name, n1) == EpisodeUrlFor(k, name, n2)
    ensures n1 == n2
  {
    match k
    case Gogoanime =>
      CancelPrefix(GogoanimeEpisodePath + name + GogoanimeEpisodeInfix, IntToString(n1), IntToString(n2));
      IntToStringInjective(n1, n2);
    case OtakuStream =>
      var p := OtakuStreamEpisodePath + name + OtakuStreamEpisodeInfix;
      CancelSuffix(p + IntToString(n1), p + IntToString(n2), "/");
      CancelPrefix(p, IntToString(n1), IntToString(n2));
      IntToStringInjective(n1, n2);
    case MangaKakalot =>
      var p := MangaKakalotChapterPath + name + MangaKakalotChapterInfix;
      CancelSuffix(p + IntToString(n1), p + IntToString(n2), "/");
      CancelPrefix(p, IntToString(n1), IntToString(n2));
      IntToStringInjective(n1, n2);
  }

  // ---------------------------------------------------------------------------------
  // MangaKakalot chapter links: the regular expression `chapter_(.+)$` and `parseFloat`

  const ChapterMarker: string := "chapter_"

  predicate IsLineTerminator(c: char) {
    c == '\n' || c == '\r' || c == '\U{2028}' || c == '\U{2029}'
  }

  /** `chapter_(.+)$` matches starting at position `i` of `s`: the literal, then at least
      one character, none of them a line terminator, up to the end of `s`. */
  predicate ChapterMatchAt(s: string, i: nat) {
    i + 8 < |s| && s[i..i + 8] == ChapterMarker && NoLineTerminator(s[i + 8..])
  }

  /** `.` of a regular expression without the `s` flag matches every character of `s`. */
  predicate NoLineTerminator(s: string)
    ensures NoLineTerminator(s) <==> forall j :: 0 <= j < |s| ==> !IsLineTerminator(s[j])
  {
    s == [] || (!IsLineTerminator(s[0]) && NoLineTerminator(s[1..]))
  }

  /** The leftmost position at or after `from` where `chapter_(.+)$` matches. */
  function ChapterMatchFrom(s: string, from: nat): (r: Option<nat>)
    ensures r.Some? ==> from <= r.value && r.value + 8 < |s|
    decreases |s| - from
  {
    if from >= |s| then None
    else if ChapterMatchAt(s, from) then Some(from)
    else ChapterMatchFrom(s, from + 1)
  }

  lemma {:induction false} ChapterMatchFromLeftmost(s: string, from: nat)
    ensures var r := ChapterMatchFrom(s, from);
            (r.Some? ==> ChapterMatchAt(s, r.value)) &&
            forall p :: from <= p && (r.None? || p < r.value) ==> !ChapterMatchAt(s, p)
    decreases |s| - from
  {
    if from < |s| && !ChapterMatchAt(s, from) {
      ChapterMatchFromLeftmost(s, from + 1);
    }
  }

  /** The capture group of `/chapter_(.+)$/.exec(s)`, absent where `exec` returns `null`. */
  function ChapterCapture(s: string): (r: Option<string>)
    ensures r.Some? ==> |r.value| >= 1
  {
    match ChapterMatchFrom(s, 0)
    case None => None
    case Some(p) => Some(s[p + 8..])
  }

  /** `exec` succeeds exactly when the pattern matches somewhere; the capture is then what
      follows the leftmost `chapter_` from which no line terminator remains, and the link
      ends with `chapter_` and the capture. */
  lemma ChapterCaptureSpec(s: string)
    ensures ChapterCapture(s).Some? <==> exists p: nat :: ChapterMatchAt(s, p)
    ensures ChapterCapture(s).Some? ==>
              var c := ChapterCapture(s).value;
              EndsWith(s, ChapterMarker + c) && ChapterMatchAt(s, |s| - |c| - 8) &&
              forall p: nat :: p < |s| - |c| - 8 ==> !ChapterMatchAt(s, p)
  {
    ChapterMatchFromLeftmost(s, 0);
    match ChapterMatchFrom(s, 0)
    case None =>
    case Some(p) =>
      assert s[p..] == s[p..p + 8] + s[p + 8..];
  }

  function Pow10(k: nat): nat {
    if k == 0 then 1 else 10 * Pow10(k - 1)
  }

  /** The value and the length of the longest run of decimal digits at the start of `s`. */
  function DigitRun(s: string): (nat, nat) {
    if s == [] || !IsDigit(s[0]) then (0, 0)
    else
      var rest := DigitRun(s[1..]);
      (DigitValue(s[0]) * Pow10(rest.1) + rest.0, rest.1 + 1)
  }

  /** A `StrWhiteSpaceChar` of ECMAScript: the white space and line terminators that
      `parseFloat` skips before the number. */
  predicate IsStrWhiteSpace(c: char) {
    c == '\t' || c == '\U{000B}' || c == '\U{000C}' || c == ' ' || c == '\U{00A0}' ||
    c == '\U{FEFF}' || c == '\U{1680}' || ('\U{2000}' <= c <= '\U{200A}') ||
    c == '\U{202F}' || c == '\U{205F}' || c == '\U{3000}' || IsLineTerminator(c)
  }

  /** `s` without its leading white space. */
  function SkipWhiteSpace(s: string): string {
    if s != [] && IsStrWhiteSpace(s[0]) then SkipWhiteSpace(s[1..]) else s
  }

  /** `parseFloat` restricted to integers: leading white space skipped, then an optional
      sign and the longest run of digits after it; absent where `parseFloat` gives `NaN`. */
  function LeadingInteger(s: string): Option<int> {
    var t := SkipWhiteSpace(s);
    if |t| >= 1 && (t[0] == '-' || t[0] == '+') then
      var run := DigitRun(t[1..]);
      if run.1 == 0 then None else if t[0] == '-' then Some(-(run.0 as int)) else Some(run.0)
    else
      var run := DigitRun(t);
      if run.1 == 0 then None else Some(run.0)
  }

  /** `parseFloat(/chapter_(.+)$/.exec(href)[1])`, absent where `exec` finds nothing or
      the number is `NaN`. */
  function ChapterNumber(href: string): Option<int> {
    match ChapterCapture(href)
    case None => None
    case Some(c) => LeadingInteger(c)
  }

  /** Appending a digit to a run of digits shifts its value one decimal place. */
  lemma {:induction false} DigitRunSnoc(a: string, c: char)
    requires AllDigits(a) && IsDigit(c)
    ensures DigitRun(a).1 == |a|
    ensures DigitRun(a + [c]) == (DigitRun(a).0 * 10 + DigitValue(c), |a| + 1)
  {
    if a != [] {
      var tail := a[1..];
      assert (a + [c])[1..] == tail + [c];
      DigitRunSnoc(tail, c);
      var d, v, p := DigitValue(a[0]), DigitRun(tail).0, Pow10(|tail|);
      assert DigitRun(a) == (d * p + v, |a|);
      assert DigitRun(a + [c]) == (d * Pow10(|a|) + (v * 10 + DigitValue(c)), |a| + 1);
      assert Pow10(|a|) == 10 * p;
      ShiftDecimal(d, p, v, DigitValue(c));
    }
  }

  lemma ShiftDecimal(d: int, p: int, v: int, c: int)
    ensures d * (10 * p) + (v * 10 + c) == (d * p + v) * 10 + c
  {
  }

  /** The digit run of a rendered natural number is the whole rendering, worth the number. */
  lemma {:induction false} DigitRunOfNatToString(n: nat)
    ensures DigitRun(NatToString(n)) == (n, |NatToString(n)|)
  {
    if n < 10 {
      DigitRunSnoc([], DigitChar(n));
      assert [] + [DigitChar(n)] == NatToString(n);
    } else {
      DigitRunOfNatToString(n / 10);
      DigitRunSnoc(NatToString(n / 10), DigitChar(n % 10));
    }
  }

  /** `parseFloat` reads the rendering of an integer back as that integer. */
  lemma LeadingIntegerOfIntToString(n: int)
    ensures LeadingInteger(IntToString(n)) == Some(n)
  {
    var c := IntToString(n);
    assert !IsStrWhiteSpace(c[0]) by {
      if n >= 0 { assert IsDigit(c[0]); }
    }
    assert SkipWhiteSpace(c) == c;
    if n < 0 {
      assert c[1..] == NatToString(-n);
      DigitRunOfNatToString(-n);
    } else {
      assert IsDigit(c[0]);
      DigitRunOfNatToString(n);
    }
  }

  /** A chapter link whose capture is exactly the rendering of `n` is read as chapter `n`
      by the listing, and is what the single-chapter scan looks for when asked for `n`. */
  lemma CanonicalChapterHref(href: string, n: int)
    requires ChapterCapture(href) == Some(IntToString(n))
    ensures ChapterNumber(href) == Some(n)
    ensures EndsWith(href, ChapterMarker + IntToString(n))
  {
    ChapterCaptureSpec(href);
    LeadingIntegerOfIntToString(n);
  }

  /** The entries the listing's `.each` pushes, if every link yields a chapter number. */
  function ChapterListing(hrefs: seq<string>): Option<seq<NumberedUrl>> {
    if hrefs == [] then Some([])
    else
      match ChapterListing(hrefs[..|hrefs| - 1])
      case None => None
      case Some(es) =>
        match ChapterNumber(hrefs[|hrefs| - 1])
        case None => None
        case Some(n) => Some(es + [NumberedUrl(n, hrefs[|hrefs| - 1])])
  }

  /** The listing succeeds exactly when every link yields a chapter number, and then pairs
      each link, in page order, with its number. */
  lemma {:induction false} ChapterListingSpec(hrefs: seq<string>)
    ensures ChapterListing(hrefs).Some? <==> forall j :: 0 <= j < |hrefs| ==> ChapterNumber(hrefs[j]).Some?
    ensures ChapterListing(hrefs).Some? ==>
              |ChapterListing(hrefs).value| == |hrefs| &&
              forall j :: 0 <= j < |hrefs| ==>
                ChapterListing(hrefs).value[j] == NumberedUrl(ChapterNumber(hrefs[j]).value, hrefs[j])
  {
    if hrefs != [] {
      var init := hrefs[..|hrefs| - 1];
      ChapterListingSpec(init);
      assert forall j :: 0 <= j < |init| ==> init[j] == hrefs[j];
    }
  }

  /** Some link of the listing ends with `chapter_<n>`. */
  predicate ListsChapter(hrefs: seq<string>, n: int) {
    exists i :: 0 <= i < |hrefs| && EndsWith(hrefs[i], ChapterMarker + IntToString(n))
  }

  // ---------------------------------------------------------------------------------
  // GogoanimeHandler and OtakuStreamHandler

  /** `getFirstEpisodeNumber` of the two episodic handlers. */
  function EpisodicFirstEpisodeNumber(k: ServerKind, m: ServerMap, web: Web): (r: Option<int>)
    requires k != MangaKakalot
    ensures ListingPage(k, m, web).None? ==> r.None?
    ensures k == Gogoanime && ListingPage(k, m, web).Some? ==>
              (r.Some? <==> ListingPage(k, m, web).value.epStart.Some?) &&
              (r.Some? ==> ListingPage(k, m, web).value.epStart == Some(r.value - 1))
    ensures k == OtakuStream && ListingPage(k, m, web).Some? ==>
              var labels := ListingPage(k, m, web).value.episodeLabels;
              (r.Some? <==> labels != [] && labels[|labels| - 1].Some?) &&
              (r.Some? ==> labels[|labels| - 1] == r)
  {
    match ListingPage(k, m, web)
    case None => None
    case Some(page) =>
      if k == Gogoanime then
        // the site counts from 0 where the episodes count from 1
        if page.epStart.Some? then Some(page.epStart.value + 1) else None
      else if page.episodeLabels == [] then None
      else match page.episodeLabels[|page.episodeLabels| - 1]
        case None => None
        case Some(n) => Some(n)
  }

  /** `getLastEpisodeNumber` of the two episodic handlers. */
  function EpisodicLastEpisodeNumber(k: ServerKind, m: ServerMap, web: Web): (r: Option<int>)
    requires k != MangaKakalot
    ensures ListingPage(k, m, web).None? ==> r.None?
    ensures k == Gogoanime && ListingPage(k, m, web).Some? ==> r == ListingPage(k, m, web).value.lastEpEnd
    ensures k == OtakuStream && ListingPage(k, m, web).Some? ==>
              var labels := ListingPage(k, m, web).value.episodeLabels;
              (r.Some? <==> labels != [] && labels[0].Some?) &&
              (r.Some? ==> labels[0] == r)
  {
    match ListingPage(k, m, web)
    case None => None
    case Some(page) =>
      if k == Gogoanime then page.lastEpEnd
      else if page.episodeLabels == [] then None
      else match page.episodeLabels[0]
        case None => None
        case Some(n) => Some(n)
  }

  /** `getEpisodeUrl` of the two episodic handlers: the url is built without any request,
      for any number, as soon as the title has an identifier on the server. */
  function EpisodicEpisodeUrl(k: ServerKind, m: ServerMap, n: int): (r: Option<string>)
    requires k != MangaKakalot
    ensures r.Some? <==> Identifier(m, k).Some?
    ensures r.Some? ==> r.value == EpisodeUrlFor(k, Identifier(m, k).value, n)
  {
    match Identifier(m, k)
    case None => None
    case Some(name) => Some(EpisodeUrlFor(k, name, n))
  }

  /** Two episodes of one title never share a url. */
  lemma EpisodicEpisodeUrlInjective(k: ServerKind, m: ServerMap, n1: int, n2: int)
    requires k != MangaKakalot
    requires EpisodicEpisodeUrl(k, m, n1).Some? && EpisodicEpisodeUrl(k, m, n1) == EpisodicEpisodeUrl(k, m, n2)
    ensures n1 == n2
  {
    EpisodeUrlForInjective(k, Identifier(m, k).value, n1, n2);
  }

  /** Episodes `lo` to `hi` of the title `name` on server `k`, each with its url. */
  function EpisodeSpan(k: ServerKind, name: string, lo: int, hi: int): (r: seq<NumberedUrl>)
    ensures |r| == if lo <= hi then hi - lo + 1 else 0
    ensures forall i :: 0 <= i < |r| ==> r[i] == NumberedUrl(lo + i, EpisodeUrlFor(k, name, lo + i))
  {
    if lo > hi then [] else seq(hi - lo + 1, i => NumberedUrl(lo + i, EpisodeUrlFor(k, name, lo + i)))
  }

  /** The result of `getAllEpisodeUrls` for the two episodic handlers: one entry per
      integer from the first to the last episode, each paired with its url. */
  function EpisodicEntries(k: ServerKind, m: ServerMap, web: Web): (r: seq<NumberedUrl>)
    requires k != MangaKakalot
    ensures (|| EpisodicFirstEpisodeNumber(k, m, web).None?
             || EpisodicLastEpisodeNumber(k, m, web).None?
             || EpisodicFirstEpisodeNumber(k, m, web).value > EpisodicLastEpisodeNumber(k, m, web).value) ==> r == []
    ensures forall i :: 0 <= i < |r| ==> r[i].number == r[0].number + i
  {
    var lo, hi := EpisodicFirstEpisodeNumber(k, m, web), EpisodicLastEpisodeNumber(k, m, web);
    if lo.None? || hi.None? then [] else EpisodeSpan(k, Identifier(m, k).value, lo.value, hi.value)
  }

  lemma EpisodicEntriesShape(k: ServerKind, m: ServerMap, web: Web)
    requires k != MangaKakalot
    requires EpisodicFirstEpisodeNumber(k, m, web).Some? && EpisodicLastEpisodeNumber(k, m, web).Some?
    ensures Identifier(m, k).Some?
    ensures EpisodicEntries(k, m, web) ==
              EpisodeSpan(k, Identifier(m, k).value, EpisodicFirstEpisodeNumber(k, m, web).value,
                          EpisodicLastEpisodeNumber(k, m, web).value)
  {
  }

  lemma EpisodeSpanEnds(k: ServerKind, name: string, lo: int, hi: int)
    requires lo <= hi
    ensures var r := EpisodeSpan(k, name, lo, hi);
            r != [] && r[0].number == lo && r[|r| - 1].number == hi
  {
  }

  /** The episodic result runs from the first episode number to the last one. */
  lemma EpisodicEntriesBounds(k: ServerKind, m: ServerMap, web: Web)
    requires k != MangaKakalot
    ensures var r := EpisodicEntries(k, m, web);
            r != [] ==>
              EpisodicFirstEpisodeNumber(k, m, web) == Some(r[0].number) &&
              EpisodicLastEpisodeNumber(k, m, web) == Some(r[|r| - 1].number)
  {
    var lo, hi := EpisodicFirstEpisodeNumber(k, m, web), EpisodicLastEpisodeNumber(k, m, web);
    if lo.Some? && hi.Some? {
      EpisodicEntriesShape(k, m, web);
      if lo.value <= hi.value {
        EpisodeSpanEnds(k, Identifier(m, k).value, lo.value, hi.value);
      }
    }
  }

  /** The episodic result pairs each number with the url `getEpisodeUrl` gives for it. */
  lemma EpisodicEntriesUrls(k: ServerKind, m: ServerMap, web: Web)
    requires k != MangaKakalot
    ensures var r := EpisodicEntries(k, m, web);
            forall i :: 0 <= i < |r| ==> EpisodicEpisodeUrl(k, m, r[i].number) == Some(r[i].url)
  {
    var r := EpisodicEntries(k, m, web);
    if r != [] {
      EpisodicEntriesShape(k, m, web);
    }
  }

  /** The episodic result ascends strictly by number. */
  lemma EpisodicEntriesAscending(k: ServerKind, m: ServerMap, web: Web)
    requires k != MangaKakalot
    ensures StrictlyAscendingBy(EpisodicEntries(k, m, web), EpNumber)
  {
    var r := EpisodicEntries(k, m, web);
    forall i, j | 0 <= i < j < |r| ensures EpNumber(r[i]) < EpNumber(r[j]) {
      assert r[i].number == r[0].number + i;
      assert r[j].number == r[0].number + j;
    }
  }

  // ---------------------------------------------------------------------------------
  // MangaKakalotHander

  /** `getFirstEpisodeNumber` of MangaKakalot: the listing runs from the newest chapter to
      the oldest, so the first chapter is read from the last link. */
  function MangaKakalotFirstEpisodeNumber(m: ServerMap, web: Web): (r: Option<int>)
    ensures ListingPage(MangaKakalot, m, web).None? ==> r.None?
    ensures ListingPage(MangaKakalot, m, web).Some? ==>
              var hrefs := ListingPage(MangaKakalot, m, web).value.chapterHrefs;
              (hrefs == [] ==> r.None?) && (hrefs != [] ==> r == ChapterNumber(hrefs[|hrefs| - 1]))
  {
    match ListingPage(MangaKakalot, m, web)
    case None => None
    case Some(page) =>
      if page.chapterHrefs == [] then None
      else ChapterNumber(page.chapterHrefs[|page.chapterHrefs| - 1])
  }

  /** `getLastEpisodeNumber` of MangaKakalot: read from the first link of the listing. */
  function MangaKakalotLastEpisodeNumber(m: ServerMap, web: Web): (r: Option<int>)
    ensures ListingPage(MangaKakalot, m, web).None? ==> r.None?
    ensures ListingPage(MangaKakalot, m, web).Some? ==>
              var hrefs := ListingPage(MangaKakalot, m, web).value.chapterHrefs;
              (hrefs == [] ==> r.None?) && (hrefs != [] ==> r == ChapterNumber(hrefs[0]))
  {
    match ListingPage(MangaKakalot, m, web)
    case None => None
    case Some(page) =>
      if page.chapterHrefs == [] then None
      else ChapterNumber(page.chapterHrefs[0])
  }

  /** `getEpisodeUrl` of MangaKakalot: the url is built only if some link of the listing
      ends with `chapter_<n>`. */
  function MangaKakalotEpisodeUrl(m: ServerMap, web: Web, n: int): (r: Option<string>)
    ensures r.Some? <==> ListingPage(MangaKakalot, m, web).Some? &&
                         ListsChapter(ListingPage(MangaKakalot, m, web).value.chapterHrefs, n)
    ensures r.Some? ==> Identifier(m, MangaKakalot).Some? &&
                        r.value == EpisodeUrlFor(MangaKakalot, Identifier(m, MangaKakalot).value, n)
  {
    match Identifier(m, MangaKakalot)
    case None => None
    case Some(name) =>
      match Fetch(web, ListingUrl(MangaKakalot, name))
      case None => None
      case Some(page) =>
        if ListsChapter(page.chapterHrefs, n) then Some(EpisodeUrlFor(MangaKakalot, name, n)) else None
  }

  /** A chapter the listing reads from one of its links can be asked for by number. */
  lemma MangaKakalotListedChapterHasUrl(m: ServerMap, web: Web, i: nat, n: int)
    requires ListingPage(MangaKakalot, m, web).Some?
    requires var hrefs := ListingPage(MangaKakalot, m, web).value.chapterHrefs;
             i < |hrefs| && ChapterCapture(hrefs[i]) == Some(IntToString(n))
    ensures MangaKakalotEpisodeUrl(m, web, n).Some?
  {
    CanonicalChapterHref(ListingPage(MangaKakalot, m, web).value.chapterHrefs[i], n);
  }

  /** The result of `getAllEpisodeUrls` for MangaKakalot: the chapter listing sorted by
      ascending chapter number, or nothing if the identifier is missing, the request
      fails or some link yields no chapter number. */
  function MangaKakalotEntries(m: ServerMap, web: Web): (r: seq<NumberedUrl>)
    ensures ListingPage(MangaKakalot, m, web).None? ==> r == []
    ensures ListingPage(MangaKakalot, m, web).Some? ==>
              var listing := ChapterListing(ListingPage(MangaKakalot, m, web).value.chapterHrefs);
              (listing.None? ==> r == []) && (listing.Some? ==> multiset(r) == multiset(listing.value))
    ensures SortedBy(r, EpNumber)
  {
    match ListingPage(MangaKakalot, m, web)
    case None => []
    case Some(page) =>
      match ChapterListing(page.chapterHrefs)
      case None => []
      case Some(es) => SortBy(es, EpNumber)
  }

  /** Every MangaKakalot entry is a link of the listing paired with the chapter number read
      from it. */
  lemma MangaKakalotEntriesFromListing(m: ServerMap, web: Web, e: NumberedUrl)
    requires e in MangaKakalotEntries(m, web)
    ensures ListingPage(MangaKakalot, m, web).Some?
    ensures e.url in ListingPage(MangaKakalot, m, web).value.chapterHrefs
    ensures ChapterNumber(e.url) == Some(e.number)
  {
    var hrefs := ListingPage(MangaKakalot, m, web).value.chapterHrefs;
    ChapterListingSpec(hrefs);
    var es := ChapterListing(hrefs).value;
    assert e in multiset(es);
    var i :| 0 <= i < |es| && es[i] == e;
    assert e.url == hrefs[i];
  }

  /** Every link of a listing that reads in full has its entry in the result. */
  lemma MangaKakalotEntriesCoverListing(m: ServerMap, web: Web, i: nat)
    requires ListingPage(MangaKakalot, m, web).Some?
    requires var hrefs := ListingPage(MangaKakalot, m, web).value.chapterHrefs;
             i < |hrefs| && forall j :: 0 <= j < |hrefs| ==> ChapterNumber(hrefs[j]).Some?
    ensures var hrefs := ListingPage(MangaKakalot, m, web).value.chapterHrefs;
            NumberedUrl(ChapterNumber(hrefs[i]).value, hrefs[i]) in MangaKakalotEntries(m, web)
  {
    var hrefs := ListingPage(MangaKakalot, m, web).value.chapterHrefs;
    ChapterListingSpec(hrefs);
    var es := ChapterListing(hrefs).value;
    assert es[i] in multiset(es);
    assert es[i] in multiset(MangaKakalotEntries(m, web));
  }

  /** Whether the entries read, one after the other, as non-increasing chapter numbers. */
  ghost predicate NewestFirst(es: seq<NumberedUrl>) {
    forall i, j :: 0 <= i < j < |es| ==> es[j].number <= es[i].number
  }

  lemma MangaKakalotEntryBetween(m: ServerMap, web: Web, e: NumberedUrl)
    requires ListingPage(MangaKakalot, m, web).Some?
    requires var listing := ChapterListing(ListingPage(MangaKakalot, m, web).value.chapterHrefs);
             listing.Some? && NewestFirst(listing.value)
    requires e in MangaKakalotEntries(m, web)
    ensures var es := ChapterListing(ListingPage(MangaKakalot, m, web).value.chapterHrefs).value;
            es != [] && es[|es| - 1].number <= e.number <= es[0].number
  {
    var es := ChapterListing(ListingPage(MangaKakalot, m, web).value.chapterHrefs).value;
    assert e in multiset(es);
    var a :| 0 <= a < |es| && es[a] == e;
  }

  /** MangaKakalot's first and last chapter are the numbers of the last and the first entry
      of the listing. */
  lemma MangaKakalotListingEnds(m: ServerMap, web: Web)
    requires ListingPage(MangaKakalot, m, web).Some?
    requires var hrefs := ListingPage(MangaKakalot, m, web).value.chapterHrefs;
             hrefs != [] && ChapterListing(hrefs).Some?
    ensures var es := ChapterListing(ListingPage(MangaKakalot, m, web).value.chapterHrefs).value;
            es != [] &&
            MangaKakalotFirstEpisodeNumber(m, web) == Some(es[|es| - 1].number) &&
            MangaKakalotLastEpisodeNumber(m, web) == Some(es[0].number)
  {
    var hrefs := ListingPage(MangaKakalot, m, web).value.chapterHrefs;
    ChapterListingSpec(hrefs);
    var es := ChapterListing(hrefs).value;
    var n := |hrefs|;
    assert ChapterNumber(hrefs[n - 1]).Some? && ChapterNumber(hrefs[0]).Some?;
    assert es[n - 1].number == ChapterNumber(hrefs[n - 1]).value;
    assert es[0].number == ChapterNumber(hrefs[0]).value;
  }

  /** Sorting a newest-first listing puts its last entry first and its first entry last. */
  lemma MangaKakalotSortedEnds(m: ServerMap, web: Web)
    requires ListingPage(MangaKakalot, m, web).Some?
    requires var listing := ChapterListing(ListingPage(MangaKakalot, m, web).value.chapterHrefs);
             listing.Some? && listing.value != [] && NewestFirst(listing.value)
    ensures var es := ChapterListing(ListingPage(MangaKakalot, m, web).value.chapterHrefs).value;
            var r := MangaKakalotEntries(m, web);
            r != [] && r[0].number == es[|es| - 1].number && r[|r| - 1].number == es[0].number
  {
    var es := ChapterListing(ListingPage(MangaKakalot, m, web).value.chapterHrefs).value;
    var r := MangaKakalotEntries(m, web);
    var n := |es|;
    assert es[n - 1] in multiset(r) && es[0] in multiset(r);
    SortedEnds(r, EpNumber, es[n - 1]);
    SortedEnds(r, EpNumber, es[0]);
    MangaKakalotEntryBetween(m, web, r[0]);
    MangaKakalotEntryBetween(m, web, r[|r| - 1]);
  }

  /** When the site lists the chapters from the newest to the oldest, the sorted result
      starts at the first chapter and ends at the last one. */
  lemma MangaKakalotBounds(m: ServerMap, web: Web)
    requires ListingPage(MangaKakalot, m, web).Some?
    requires var hrefs := ListingPage(MangaKakalot, m, web).value.chapterHrefs;
             hrefs != [] && ChapterListing(hrefs).Some? && NewestFirst(ChapterListing(hrefs).value)
    ensures var r := MangaKakalotEntries(m, web);
            r != [] &&
            Some(r[0].number) == MangaKakalotFirstEpisodeNumber(m, web) &&
            Some(r[|r| - 1].number) == MangaKakalotLastEpisodeNumber(m, web)
  {
    MangaKakalotListingEnds(m, web);
    MangaKakalotSortedEnds(m, web);
  }

  // ---------------------------------------------------------------------------------
  // Dispatch over the three handlers

  /** `handler.getEpisodeUrl(anime, n)` for whichever handler `k` is. */
  function EpisodeUrl(k: ServerKind, m: ServerMap, web: Web, n: int): (r: Option<string>)
    ensures r.Some? ==> Identifier(m, k).Some? && r.value == EpisodeUrlFor(k, Identifier(m, k).value, n)
  {
    if k == MangaKakalot then MangaKakalotEpisodeUrl(m, web, n) else EpisodicEpisodeUrl(k, m, n)
  }

  /** `handler.getAllEpisodeUrls(anime)` for whichever handler `k` is: sorted by number,
      and empty for a title without an identifier on that server. */
  function AllEpisodes(k: ServerKind, m: ServerMap, web: Web): (r: seq<NumberedUrl>)
    ensures Identifier(m, k).None? ==> r == []
    ensures SortedBy(r, EpNumber)
  {
    if k == MangaKakalot then MangaKakalotEntries(m, web)
    else
      EpisodicEntriesAscending(k, m, web);
      EpisodicEntries(k, m, web)
  }

  // ---------------------------------------------------------------------------------
  // The handler methods that loop

  /** `urls.map((url, index) => ({number: episodes[index], url})).filter(u => typeof u.url
      === 'string')`. */
  function PairPresent(episodes: seq<int>, urls: seq<Option<string>>): (r: seq<NumberedUrl>)
    requires |episodes| == |urls|
    ensures |r| <= |urls|
    ensures (forall i :: 0 <= i < |urls| ==> urls[i].Some?) ==>
              |r| == |urls| && forall i :: 0 <= i < |r| ==> r[i] == NumberedUrl(episodes[i], urls[i].value)
  {
    if urls == [] then []
    else
      var rest := PairPresent(episodes[1..], urls[1..]);
      if urls[0].Some? then [NumberedUrl(episodes[0], urls[0].value)] + rest else rest
  }

  /** `getAllEpisodeUrls` of GogoanimeHandler and OtakuStreamHandler. */
  method EpisodicAllEpisodeUrls(k: ServerKind, m: ServerMap, web: Web) returns (r: seq<NumberedUrl>)
    requires k != MangaKakalot
    ensures r == EpisodicEntries(k, m, web)
  {
    var minEp := EpisodicFirstEpisodeNumber(k, m, web);
    var maxEp := EpisodicLastEpisodeNumber(k, m, web);
    if minEp.None? || maxEp.None? || minEp.value > maxEp.value {
      return [];
    }
    // the bounds were found, so the title has an identifier and every url is present;
    // the trailing `.sort` is discussed in the Findings of README.md and keeps this order
    var episodes, urls := EpisodeRange(k, m, minEp.value, maxEp.value);
    r := PairPresent(episodes, urls);
    EpisodicEntriesShape(k, m, web);
    PairPresentOfSpan(k, Identifier(m, k).value, m, minEp.value, maxEp.value, episodes, urls);
  }

  lemma PairPresentOfSpan(k: ServerKind, name: string, m: ServerMap, lo: int, hi: int,
                          episodes: seq<int>, urls: seq<Option<string>>)
    requires k != MangaKakalot && Identifier(m, k) == Some(name)
    requires |episodes| == |urls| == hi - lo + 1
    requires forall j :: 0 <= j < |episodes| ==> episodes[j] == lo + j
    requires forall j :: 0 <= j < |urls| ==> urls[j] == EpisodicEpisodeUrl(k, m, lo + j)
    ensures PairPresent(episodes, urls) == EpisodeSpan(k, name, lo, hi)
  {
    assert forall j :: 0 <= j < |urls| ==> urls[j].Some?;
    var r, expected := PairPresent(episodes, urls), EpisodeSpan(k, name, lo, hi);
    assert |r| == |expected|;
    assert forall j :: 0 <= j < |r| ==> r[j] == expected[j];
  }

  /** The loop of the episodic `getAllEpisodeUrls`: every number from `lo` to `hi`, each
      with the url `getEpisodeUrl` gives for it. */
  method EpisodeRange(k: ServerKind, m: ServerMap, lo: int, hi: int)
    returns (episodes: seq<int>, urls: seq<Option<string>>)
    requires k != MangaKakalot && lo <= hi
    ensures |episodes| == |urls| == hi - lo + 1
    ensures forall j :: 0 <= j < |episodes| ==> episodes[j] == lo + j
    ensures forall j :: 0 <= j < |urls| ==> urls[j] == EpisodicEpisodeUrl(k, m, lo + j)
  {
    episodes, urls := [], [];
    var i := lo;
    while i <= hi
      invariant lo <= i <= hi + 1
      invariant |episodes| == |urls| == i - lo
      invariant forall j :: 0 <= j < |episodes| ==> episodes[j] == lo + j
      invariant forall j :: 0 <= j < |urls| ==> urls[j] == EpisodicEpisodeUrl(k, m, lo + j)
    {
      episodes := episodes + [i];
      urls := urls + [EpisodicEpisodeUrl(k, m, i)];
      i := i + 1;
    }
  }

  /** `getAllEpisodeUrls` of MangaKakalotHander. */
  method MangaKakalotAllEpisodeUrls(m: ServerMap, web: Web) returns (r: seq<NumberedUrl>)
    ensures r == MangaKakalotEntries(m, web)
  {
    var name := Identifier(m, MangaKakalot);
    if name.None? {
      return [];
    }
    var page := Fetch(web, ListingUrl(MangaKakalot, name.value));
    if page.None? {
      return [];
    }
    var listing := CollectChapters(page.value.chapterHrefs);
    if listing.None? {
      return [];
    }
    r := SortBy(listing.value, EpNumber);
  }

  /** The `.each` of MangaKakalot's `getAllEpisodeUrls`: pushes one entry per link, and
      fails as the source's `try` block does when `exec` returns `null` (a TypeError) or
      the number read is `NaN`. */
  method CollectChapters(hrefs: seq<string>) returns (r: Option<seq<NumberedUrl>>)
    ensures r == ChapterListing(hrefs)
  {
    var episodeUrls: seq<NumberedUrl> := [];
    var i := 0;
    while i < |hrefs|
      invariant 0 <= i <= |hrefs|
      invariant ChapterListing(hrefs[..i]) == Some(episodeUrls)
    {
      var number := ChapterNumber(hrefs[i]);
      if number.None? {
        ChapterListingSpec(hrefs);
        return None;
      }
      assert hrefs[..i + 1][..i] == hrefs[..i] && hrefs[..i + 1][i] == hrefs[i];
      episodeUrls := episodeUrls + [NumberedUrl(number.value, hrefs[i])];
      i := i + 1;
    }
    assert hrefs[..i] == hrefs;
    r := Some(episodeUrls);
  }

  /** `getEpisodeUrl` of MangaKakalotHander: scans the listing with a `found` flag. */
  method FindChapterUrl(m: ServerMap, web: Web, n: int) returns (r: Option<string>)
    ensures r == MangaKakalotEpisodeUrl(m, web, n)
  {
    var name := Identifier(m, MangaKakalot);
    if name.None? {
      return None;
    }
    var page := Fetch(web, ListingUrl(MangaKakalot, name.value));
    if page.None? {
      return None;
    }
    var found := ScanForSuffix(page.value.chapterHrefs, ChapterMarker + IntToString(n));
    r := if found then Some(EpisodeUrlFor(MangaKakalot, name.value, n)) else None;
  }

  /** The `.each` of MangaKakalot's `getEpisodeUrl`: sets `found` when a link ends with
      `suffix`. */
  method ScanForSuffix(hrefs: seq<string>, suffix: string) returns (found: bool)
    ensures found <==> exists j :: 0 <= j < |hrefs| && EndsWith(hrefs[j], suffix)
  {
    found := false;
    var i := 0;
    while i < |hrefs|
      invariant 0 <= i <= |hrefs|
      invariant found <==> exists j :: 0 <= j < i && EndsWith(hrefs[j], suffix)
    {
      if EndsWith(hrefs[i], suffix) {
        found := true;
      }
      i := i + 1;
    }
  }

  /** `handler.getEpisodeUrl(anime, n)` for whichever handler `k` is. */
  method GetEpisodeUrl(k: ServerKind, m: ServerMap, web: Web, n: int) returns (r: Option<string>)
    ensures r == EpisodeUrl(k, m, web, n)
  {
    if k == MangaKakalot {
      r := FindChapterUrl(m, web, n);
    } else {
      r := EpisodicEpisodeUrl(k, m, n);
    }
  }

  /** `handler.getAllEpisodeUrls(anime)` for whichever handler `k` is. */
  method GetAllEpisodeUrls(k: ServerKind, m: ServerMap, web: Web) returns (r: seq<NumberedUrl>)
    ensures r == AllEpisodes(k, m, web)
  {
    if k == MangaKakalot {
      r := MangaKakalotAllEpisodeUrls(m, web);
    } else {
      r := EpisodicAllEpisodeUrls(k, m, web);
    }
  }

  // ---------------------------------------------------------------------------------
  // The comparator of the episodic handlers

  /** `(a, b) => a.number < b.number`, as `sort` sees it: `true` is 1, `false` is 0. */
  function BooleanComparator(a: NumberedUrl, b: NumberedUrl): int {
    if a.number < b.number then 1 else 0
  }

  /** The comparator never answers "less": for any two entries with different numbers it
      puts the smaller one after the larger one one way round and calls them equal the
      other way round, so `sort` may order them as it pleases. */
  lemma BooleanComparatorInconsistent(a: NumberedUrl, b: NumberedUrl)
    requires a.number < b.number
    ensures BooleanComparator(a, b) > 0 && BooleanComparator(b, a) == 0
    ensures forall x, y :: BooleanComparator(x, y) >= 0
  {
  }

  /** With an ascending comparator the sort leaves the episodic result as the loop built
      it, which is the order the model keeps. */
  lemma EpisodicEntriesSortedUnchanged(k: ServerKind, m: ServerMap, web: Web)
    requires k != MangaKakalot
    ensures SortBy(EpisodicEntries(k, m, web), EpNumber) == EpisodicEntries(k, m, web)
  {
    EpisodicEntriesAscending(k, m, web);
    SortBySorted(EpisodicEntries(k, m, web), EpNumber);
  }
}
