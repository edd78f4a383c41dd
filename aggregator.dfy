/**
 * fetch_rss_feeds and the lookups it relies on: the configured feeds, each
 * feed's source name, the blocked-title and short-content filters, and the
 * collect, sort and cap of the aggregated list.
 */
module Aggregator {
  import opened Php
  import opened Feed
  import opened Sanitiser
  import opened Image
  import opened Ordering

  /** How many words of the sanitised description wp_trim_words keeps. */
  const DescriptionWords: nat := 30

  /** A description whose tag-stripped text has fewer bytes than this counts as short. */
  const ShortContentLength: nat := 100

  /** get_default_feeds: the stored feeds option, or no feeds when it is absent or empty(). */
  function DefaultFeeds(stored: Option<FeedMap>): (r: FeedMap)
    ensures stored.None? ==> r == []
    ensures stored.Some? ==> r == stored.value
  {
    match stored
    case None => []
    case Some(feeds) => feeds
  }

  /** array_keys of the feeds option: the feed URLs in configuration order. */
  function Urls(feeds: seq<FeedEntry>): (r: seq<string>)
    ensures |r| == |feeds|
  {
    if feeds == [] then [] else [feeds[0].url] + Urls(feeds[1..])
  }

  /** The i-th URL is the i-th feed's: the keys keep the configuration order. */
  lemma {:induction false} UrlsAt(feeds: seq<FeedEntry>)
    ensures forall i :: 0 <= i < |feeds| ==> Urls(feeds)[i] == feeds[i].url
  {
    if feeds != [] {
      UrlsAt(feeds[1..]);
      assert forall i :: 1 <= i < |feeds| ==> Urls(feeds)[i] == Urls(feeds[1..])[i - 1];
    }
  }

  /**
   * get_source_name: the name configured for `url`, or the URL's host when
   * `url` is not a configured feed.
   */
  function SourceName(feeds: FeedMap, url: string, platform: Platform): string {
    LookupName(feeds, url, platform)
  }

  /** The configured name of a configured URL, and the URL's host for any other URL. */
  lemma SourceNameLookup(feeds: FeedMap, url: string, platform: Platform)
    ensures forall i :: 0 <= i < |feeds| && feeds[i].url == url ==> SourceName(feeds, url, platform) == feeds[i].name
    ensures (forall i :: 0 <= i < |feeds| ==> feeds[i].url != url) ==> SourceName(feeds, url, platform) == platform.urlHost(url)
  {
  }

  /** The first entry of `entries` for `url`, whose name `SourceName` returns. */
  function LookupName(entries: seq<FeedEntry>, url: string, platform: Platform): (r: string)
    requires UniqueUrls(entries)
    ensures forall i :: 0 <= i < |entries| && entries[i].url == url ==> r == entries[i].name
    ensures (forall i :: 0 <= i < |entries| ==> entries[i].url != url) ==> r == platform.urlHost(url)
  {
    if entries == [] then platform.urlHost(url)
    else if entries[0].url == url then entries[0].name
    else
      assert forall i :: 0 <= i < |entries| - 1 ==> entries[1..][i] == entries[i + 1];
      LookupName(entries[1..], url, platform)
  }

  /** The trimmed lines that are not empty(): array_filter(array_map('trim', explode("\n", ...))). */
  function NonEmptyTrimmed(lines: seq<string>): (r: seq<string>)
    ensures forall t :: t in r <==> exists l :: l in lines && !IsEmpty(Trim(l)) && t == Trim(l)
  {
    if lines == [] then []
    else
      var rest := NonEmptyTrimmed(lines[1..]);
      assert forall l :: l in lines <==> l == lines[0] || l in lines[1..];
      var t := Trim(lines[0]);
      if IsEmpty(t) then rest else [t] + rest
  }

  /** The blocked titles: the non-empty() trimmed lines of the setting, or none when it is absent. */
  function BlockedTitles(settings: Settings): seq<string> {
    match settings.blockedTitles
    case None => []
    case Some(text) => NonEmptyTrimmed(Split(text, '\n'))
  }

  /** An item title is blocked when its trimmed form is one of the blocked titles. */
  predicate TitleBlocked(title: string, settings: Settings) {
    Trim(title) in BlockedTitles(settings)
  }

  /**
   * A title is blocked exactly when its trimmed text equals the trimmed text
   * of a setting line that is not blank: blank lines block nothing, and the
   * comparison is whole-title equality.
   */
  lemma TitleBlockedExactly(title: string, settings: Settings)
    ensures settings.blockedTitles.None? ==> !TitleBlocked(title, settings)
    ensures settings.blockedTitles.Some? ==> (TitleBlocked(title, settings) <==>
      exists l :: l in Split(settings.blockedTitles.value, '\n') && !IsEmpty(Trim(l)) && Trim(title) == Trim(l))
  {
  }

  /**
   * Blocking compares whole titles: the setting line `line` blocks the title
   * `line` but not a longer title that merely starts with it, such as
   * "Breaking News Update" for the line "Breaking News".
   */
  lemma BlockingIsWholeTitle(line: string, extra: string)
    requires '\n' !in line && !IsEmpty(line) && extra != []
    requires !IsTrimChar(line[0]) && !IsTrimChar(line[|line| - 1])
    requires !IsTrimChar(extra[|extra| - 1])
    ensures var settings := Settings(Some(line), None, None, None);
      TitleBlocked(line, settings) && !TitleBlocked(line + extra, settings)
  {
    var long := line + extra;
    SplitWithoutSeparator(line, '\n');
    TrimIdentity(line);
    assert long[0] == line[0] && long[|long| - 1] == extra[|extra| - 1];
    TrimIdentity(long);
    assert NonEmptyTrimmed([line]) == [line] by {
      assert [line][1..] == [];
    }
  }

  /** The skip_short_content setting, off when absent. */
  function SkipShort(settings: Settings): bool {
    settings.skipShortContent.GetOr(false)
  }

  /** The item's description, with its markup stripped, has fewer than 100 bytes. */
  predicate IsShort(item: RawItem, platform: Platform) {
    |platform.stripTags(item.description)| < ShortContentLength
  }

  /** An item passes both filters: its title is not blocked, and it is not short while short content is skipped. */
  predicate Accepted(item: RawItem, settings: Settings, platform: Platform) {
    !TitleBlocked(item.title, settings) && !(SkipShort(settings) && IsShort(item, platform))
  }

  /**
   * The short-content rule: when the setting is off or absent it excludes
   * nothing; when it is on it excludes exactly the short items.
   */
  lemma ShortContentRule(item: RawItem, settings: Settings, platform: Platform)
    requires !TitleBlocked(item.title, settings)
    ensures !SkipShort(settings) ==> Accepted(item, settings, platform)
    ensures settings.skipShortContent.None? ==> Accepted(item, settings, platform)
    ensures SkipShort(settings) ==> (Accepted(item, settings, platform) <==> !IsShort(item, platform))
  {
  }

  /** The record fetch_rss_feeds builds for one accepted item. */
  function Normalize(item: RawItem, sourceName: string, settings: Settings, platform: Platform): (a: Article)
    ensures a.title == platform.escHtml(item.title) && a.link == platform.escUrl(item.permalink)
    ensures a.description == platform.trimWords(SanitisedDescription(item.description, settings), DescriptionWords)
    ensures a.date == item.date && a.source == sourceName
    ensures a.image == ResolveImage(item, sourceName, settings, platform)
  {
    Article(
      platform.escHtml(item.title),
      platform.escUrl(item.permalink),
      platform.trimWords(SanitisedDescription(item.description, settings), DescriptionWords),
      item.date,
      sourceName,
      ResolveImage(item, sourceName, settings, platform))
  }

  /**
   * The items the feed library hands over for get_items(0, maxItems): all of
   * them when maxItems is 0, and array_slice(items, 0, maxItems) otherwise.
   */
  function FeedItems(result: FetchResult, maxItems: int): (r: seq<RawItem>)
    ensures result.FetchError? ==> r == []
    ensures result.Fetched? ==> |r| <= |result.items| && r == result.items[..|r|]
    ensures result.Fetched? && maxItems > 0 ==> |r| == if maxItems < |result.items| then maxItems else |result.items|
  {
    match result
    case FetchError => []
    case Fetched(items) => if maxItems == 0 then items else ArraySlice(items, maxItems)
  }

  /**
   * The caps that are not positive: get_items(0, 0) returns every item, and a
   * negative cap drops that many items from the end.
   */
  lemma FeedItemsNonPositiveCap(result: FetchResult, maxItems: int)
    ensures result.Fetched? && maxItems == 0 ==> FeedItems(result, maxItems) == result.items
    ensures result.Fetched? && maxItems < 0 ==>
      |FeedItems(result, maxItems)| == if |result.items| + maxItems > 0 then |result.items| + maxItems else 0
  {
  }

  /** The records `build` makes of the items of `items` that `keep` accepts, in the order of `items`. */
  function AcceptAll(items: seq<RawItem>, keep: RawItem -> bool, build: RawItem -> Article): (r: seq<Article>)
    ensures |r| <= |items|
  {
    if items == [] then []
    else
      var init := items[..|items| - 1];
      var last := items[|items| - 1];
      AcceptAll(init, keep, build) + (if keep(last) then [build(last)] else [])
  }

  /** An article is in the list exactly when it is the record of an accepted item. */
  lemma {:induction false} AcceptAllExactly(items: seq<RawItem>, keep: RawItem -> bool, build: RawItem -> Article, a: Article)
    ensures a in AcceptAll(items, keep, build) <==> exists it :: it in items && keep(it) && a == build(it)
  {
    if items != [] {
      var init := items[..|items| - 1];
      var last := items[|items| - 1];
      AcceptAllExactly(init, keep, build, a);
      assert items == init + [last];
      if exists it :: it in items && keep(it) && a == build(it) {
        var it :| it in items && keep(it) && a == build(it);
        if it != last {
          assert it in init;
        }
      }
    }
  }

  /** The acceptance test of one item, as a function value. */
  function Keep(settings: Settings, platform: Platform): (keep: RawItem -> bool)
    ensures forall it :: keep(it) == Accepted(it, settings, platform)
  {
    it => Accepted(it, settings, platform)
  }

  /** The record builder for one feed's items, as a function value. */
  function Builder(sourceName: string, settings: Settings, platform: Platform): (build: RawItem -> Article)
    ensures forall it :: build(it) == Normalize(it, sourceName, settings, platform)
  {
    it => Normalize(it, sourceName, settings, platform)
  }

  /** What the feed at `url` adds to the list: nothing when its fetch failed, else its accepted items' records. */
  function Contribution(feeds: FeedMap, url: string, settings: Settings, maxItems: int,
                        fetch: string -> FetchResult, platform: Platform): (r: seq<Article>)
    ensures fetch(url).FetchError? ==> r == []
    ensures maxItems > 0 ==> |r| <= maxItems
  {
    AcceptAll(FeedItems(fetch(url), maxItems), Keep(settings, platform), Builder(SourceName(feeds, url, platform), settings, platform))
  }

  /** Each feed's contribution, as a function value. */
  function Contributor(feeds: FeedMap, settings: Settings, maxItems: int,
                       fetch: string -> FetchResult, platform: Platform): (c: string -> seq<Article>)
    ensures forall u :: c(u) == Contribution(feeds, u, settings, maxItems, fetch, platform)
  {
    u => Contribution(feeds, u, settings, maxItems, fetch, platform)
  }

  /** The contributions of the feeds in `urls`, feed after feed. */
  function ConcatMap(urls: seq<string>, contribute: string -> seq<Article>): seq<Article> {
    if urls == [] then []
    else ConcatMap(urls[..|urls| - 1], contribute) + contribute(urls[|urls| - 1])
  }

  /** The records of every feed in `urls`, feed after feed: $all_items before the sort. */
  function Collected(feeds: FeedMap, urls: seq<string>, settings: Settings, maxItems: int,
                     fetch: string -> FetchResult, platform: Platform): seq<Article>
  {
    ConcatMap(urls, Contributor(feeds, settings, maxItems, fetch, platform))
  }

  /** One more feed adds its contribution at the end. */
  lemma CollectedSnoc(feeds: FeedMap, urls: seq<string>, url: string, settings: Settings, maxItems: int,
                      fetch: string -> FetchResult, platform: Platform)
    ensures Collected(feeds, urls + [url], settings, maxItems, fetch, platform)
            == Collected(feeds, urls, settings, maxItems, fetch, platform) + Contribution(feeds, url, settings, maxItems, fetch, platform)
  {
    assert (urls + [url])[..|urls|] == urls;
  }

  /** The URLs of `urls` whose fetch succeeded. */
  function Reachable(urls: seq<string>, fetch: string -> FetchResult): (r: seq<string>)
    ensures forall u :: u in r <==> u in urls && fetch(u).Fetched?
  {
    if urls == [] then []
    else
      var init := urls[..|urls| - 1];
      var last := urls[|urls| - 1];
      assert forall u :: u in urls <==> u in init || u == last by {
        assert urls == init + [last];
      }
      Reachable(init, fetch) + (if fetch(last).Fetched? then [last] else [])
  }

  /** Dropping the feeds that contribute nothing because their fetch failed leaves the concatenation as it is. */
  lemma {:induction false} ConcatMapSkipsFailed(urls: seq<string>, contribute: string -> seq<Article>,
                                                fetch: string -> FetchResult)
    requires forall u :: fetch(u).FetchError? ==> contribute(u) == []
    ensures ConcatMap(urls, contribute) == ConcatMap(Reachable(urls, fetch), contribute)
  {
    if urls != [] {
      var init := urls[..|urls| - 1];
      var last := urls[|urls| - 1];
      ConcatMapSkipsFailed(init, contribute, fetch);
      var reach := Reachable(init, fetch);
      if fetch(last).Fetched? {
        var r := reach + [last];
        assert r[..|r| - 1] == reach;
      } else {
        assert Reachable(urls, fetch) == reach + [] == reach;
        assert ConcatMap(urls, contribute) == ConcatMap(init, contribute) + [];
      }
    }
  }

  /** An article is in the concatenation exactly when it is in the contribution of one of the feeds. */
  lemma {:induction false} ConcatMapExactly(urls: seq<string>, contribute: string -> seq<Article>, a: Article)
    ensures a in ConcatMap(urls, contribute) <==> exists u :: u in urls && a in contribute(u)
  {
    if urls != [] {
      var init := urls[..|urls| - 1];
      var last := urls[|urls| - 1];
      ConcatMapExactly(init, contribute, a);
      assert urls == init + [last];
      if exists u :: u in urls && a in contribute(u) {
        var u :| u in urls && a in contribute(u);
        if u != last {
          assert u in init;
        }
      }
    }
  }

  /** Feeds whose fetch failed add nothing: collecting from the reachable feeds only gives the same list. */
  lemma FailingFeedsSkipped(feeds: FeedMap, urls: seq<string>, settings: Settings, maxItems: int,
                            fetch: string -> FetchResult, platform: Platform)
    ensures Collected(feeds, urls, settings, maxItems, fetch, platform) ==
      Collected(feeds, Reachable(urls, fetch), settings, maxItems, fetch, platform)
  {
    ConcatMapSkipsFailed(urls, Contributor(feeds, settings, maxItems, fetch, platform), fetch);
  }

  /** An article is collected exactly when it is part of the contribution of one of the listed feeds. */
  lemma CollectedExactly(feeds: FeedMap, urls: seq<string>, settings: Settings, maxItems: int,
                         fetch: string -> FetchResult, platform: Platform, a: Article)
    ensures a in Collected(feeds, urls, settings, maxItems, fetch, platform) <==>
      exists u :: u in urls && a in Contribution(feeds, u, settings, maxItems, fetch, platform)
  {
    ConcatMapExactly(urls, Contributor(feeds, settings, maxItems, fetch, platform), a);
  }

  /** `a` is the record of an accepted item of the feed at `url`. */
  predicate ProducedBy(feeds: FeedMap, url: string, settings: Settings, maxItems: int,
                       fetch: string -> FetchResult, platform: Platform, a: Article)
  {
    exists it :: it in FeedItems(fetch(url), maxItems) && Accepted(it, settings, platform)
      && a == Normalize(it, SourceName(feeds, url, platform), settings, platform)
  }

  /**
   * An article is part of a feed's contribution exactly when the feed's fetch
   * succeeded and the article is the record of one of its accepted items.
   */
  lemma ContributionExactly(feeds: FeedMap, url: string, settings: Settings, maxItems: int,
                            fetch: string -> FetchResult, platform: Platform, a: Article)
    ensures a in Contribution(feeds, url, settings, maxItems, fetch, platform) <==>
      fetch(url).Fetched? && ProducedBy(feeds, url, settings, maxItems, fetch, platform, a)
  {
    var keep := Keep(settings, platform);
    var build := Builder(SourceName(feeds, url, platform), settings, platform);
    AcceptAllExactly(FeedItems(fetch(url), maxItems), keep, build, a);
  }

  /** The list fetch_rss_feeds returns: every feed's records, sorted latest first, then array_slice'd to maxItems. */
  function Aggregated(stored: Option<FeedMap>, settings: Settings, maxItems: int,
                      fetch: string -> FetchResult, platform: Platform): (r: seq<Article>)
    ensures SortedByDateDesc(r)
    ensures maxItems >= 0 ==> |r| <= maxItems
    ensures DefaultFeeds(stored) == [] ==> r == []
  {
    var feeds := DefaultFeeds(stored);
    var sorted := SortByDateDesc(Collected(feeds, Urls(feeds), settings, maxItems, fetch, platform));
    var r := ArraySlice(sorted, maxItems);
    assert r == sorted[..|r|];
    r
  }

  /**
   * Every returned article is the record of an accepted item of a configured
   * feed whose fetch succeeded.
   */
  lemma AggregatedFromAcceptedItems(stored: Option<FeedMap>, settings: Settings, maxItems: int,
                                    fetch: string -> FetchResult, platform: Platform, a: Article)
    requires a in Aggregated(stored, settings, maxItems, fetch, platform)
    ensures var feeds := DefaultFeeds(stored);
      exists u, it :: u in Urls(feeds) && fetch(u).Fetched? && it in FeedItems(fetch(u), maxItems)
        && Accepted(it, settings, platform) && a == Normalize(it, SourceName(feeds, u, platform), settings, platform)
  {
    var feeds := DefaultFeeds(stored);
    var collected := Collected(feeds, Urls(feeds), settings, maxItems, fetch, platform);
    var sorted := SortByDateDesc(collected);
    var r := ArraySlice(sorted, maxItems);
    assert a in sorted;
    assert a in multiset(collected);
    CollectedExactly(feeds, Urls(feeds), settings, maxItems, fetch, platform, a);
    var u :| u in Urls(feeds) && a in Contribution(feeds, u, settings, maxItems, fetch, platform);
    ContributionExactly(feeds, u, settings, maxItems, fetch, platform, a);
  }

  /**
   * When the cap does not bite, nothing is lost: every record of an accepted
   * item of a reachable configured feed is returned.
   */
  lemma AggregatedKeepsAllUnderCap(stored: Option<FeedMap>, settings: Settings, maxItems: int,
                                   fetch: string -> FetchResult, platform: Platform, u: string, it: RawItem)
    requires var feeds := DefaultFeeds(stored);
      |Collected(feeds, Urls(feeds), settings, maxItems, fetch, platform)| <= maxItems
    requires u in Urls(DefaultFeeds(stored)) && it in FeedItems(fetch(u), maxItems) && Accepted(it, settings, platform)
    ensures Normalize(it, SourceName(DefaultFeeds(stored), u, platform), settings, platform) in
      Aggregated(stored, settings, maxItems, fetch, platform)
  {
    var feeds := DefaultFeeds(stored);
    var a := Normalize(it, SourceName(feeds, u, platform), settings, platform);
    var collected := Collected(feeds, Urls(feeds), settings, maxItems, fetch, platform);
    ContributionExactly(feeds, u, settings, maxItems, fetch, platform, a);
    CollectedExactly(feeds, Urls(feeds), settings, maxItems, fetch, platform, a);
    var sorted := SortByDateDesc(collected);
    assert a in multiset(sorted);
    assert ArraySlice(sorted, maxItems) == sorted;
  }

  /**
   * What the cap keeps: as many records as array_slice allows (the first
   * maxItems for a non-negative cap, all but the last -maxItems for a
   * negative one), all of them collected ones, and none older than a record
   * the cap dropped.
   */
  lemma AggregatedKeepsLatest(stored: Option<FeedMap>, settings: Settings, maxItems: int,
                              fetch: string -> FetchResult, platform: Platform)
    ensures var feeds := DefaultFeeds(stored);
      var collected := Collected(feeds, Urls(feeds), settings, maxItems, fetch, platform);
      var r := Aggregated(stored, settings, maxItems, fetch, platform);
      && (maxItems >= 0 ==> |r| == if maxItems < |collected| then maxItems else |collected|)
      && (maxItems < 0 ==> |r| == if |collected| + maxItems > 0 then |collected| + maxItems else 0)
      && multiset(r) <= multiset(collected)
      && forall a, b :: a in r && b in multiset(collected) - multiset(r) ==> a.date >= b.date
  {
    var feeds := DefaultFeeds(stored);
    var collected := Collected(feeds, Urls(feeds), settings, maxItems, fetch, platform);
    var sorted := SortByDateDesc(collected);
    var r := Aggregated(stored, settings, maxItems, fetch, platform);
    assert r == sorted[..|r|];
    SortedCutKeepsLatest(sorted, |r|);
    assert multiset(collected) - multiset(r) == multiset(sorted[|r|..]);
  }

  /**
   * Articles with the same timestamp keep their collection order (feed order
   * first, then item order within a feed): the returned ones of a timestamp
   * are the first ones collected with it, and all of them when the cap does
   * not bite.
   */
  lemma AggregatedKeepsTieOrder(stored: Option<FeedMap>, settings: Settings, maxItems: int,
                                fetch: string -> FetchResult, platform: Platform, d: int)
    ensures var feeds := DefaultFeeds(stored);
      WithDate(Aggregated(stored, settings, maxItems, fetch, platform), d) <=
        WithDate(Collected(feeds, Urls(feeds), settings, maxItems, fetch, platform), d)
    ensures var feeds := DefaultFeeds(stored);
      var collected := Collected(feeds, Urls(feeds), settings, maxItems, fetch, platform);
      |collected| <= maxItems ==> WithDate(Aggregated(stored, settings, maxItems, fetch, platform), d) == WithDate(collected, d)
  {
    var feeds := DefaultFeeds(stored);
    var collected := Collected(feeds, Urls(feeds), settings, maxItems, fetch, platform);
    var sorted := SortByDateDesc(collected);
    var r := Aggregated(stored, settings, maxItems, fetch, platform);
    assert r == sorted[..|r|];
    SortedCutKeepsTiePrefix(collected, |r|, d);
    if |collected| <= maxItems {
      assert r == sorted;
      SortIsStable(collected, d);
    }
  }

  /**
   * The settings record the admin page saves: the three fields the form
   * submits, and no use_fallback_images.
   */
  function SavedSettings(blockedTitles: string, customFilters: string, skipShortContent: bool): (s: Settings)
    ensures s.useFallbackImages.None? && UseFallback(s)
    ensures SkipShort(s) == skipShortContent
  {
    Settings(Some(blockedTitles), Some(customFilters), Some(skipShortContent), None)
  }

  /**
   * fetch_rss_feeds: returns at once when no feed is configured; otherwise
   * collects the records of every feed, sorts them latest first and caps the
   * list. `requested` lists the URLs handed to fetch_feed, in order.
   */
  method FetchRssFeeds(stored: Option<FeedMap>, settings: Settings, maxItems: int,
                       fetch: string -> FetchResult, platform: Platform)
    returns (items: seq<Article>, requested: seq<string>)
    ensures items == Aggregated(stored, settings, maxItems, fetch, platform)
    ensures requested == Urls(DefaultFeeds(stored))
  {
    var feedMap := DefaultFeeds(stored);
    var feeds := Urls(feedMap);
    if feeds == [] {
      return [], [];
    }
    var allItems;
    allItems, requested := CollectFeeds(feedMap, settings, maxItems, fetch, platform);
    allItems := SortByDateDesc(allItems);
    items := ArraySlice(allItems, maxItems);
  }

  /**
   * The outer loop of fetch_rss_feeds: fetch each feed in order, skip the
   * failed ones, and append the records of each feed's accepted items.
   */
  method CollectFeeds(feedMap: FeedMap, settings: Settings, maxItems: int,
                      fetch: string -> FetchResult, platform: Platform)
    returns (allItems: seq<Article>, requested: seq<string>)
    ensures allItems == Collected(feedMap, Urls(feedMap), settings, maxItems, fetch, platform)
    ensures requested == Urls(feedMap)
  {
    var feeds := Urls(feedMap);
    var blockedTitles := BlockedTitles(settings);
    allItems := [];
    requested := [];
    for f := 0 to |feeds|
      invariant requested == feeds[..f]
      invariant allItems == Collected(feedMap, feeds[..f], settings, maxItems, fetch, platform)
    {
      var feedUrl := feeds[f];
      requested := requested + [feedUrl];
      var added := CollectFeedAt(feedMap, feedUrl, blockedTitles, settings, maxItems, fetch, platform);
      assert allItems + added == Collected(feedMap, feeds[..f + 1], settings, maxItems, fetch, platform) by {
        assert feeds[..f + 1] == feeds[..f] + [feedUrl];
        CollectedSnoc(feedMap, feeds[..f], feedUrl, settings, maxItems, fetch, platform);
      }
      allItems := allItems + added;
    }
    assert feeds[..|feeds|] == feeds;
  }

  /**
   * One pass of the outer loop of fetch_rss_feeds: fetch the feed, and when
   * that succeeds, gather the records of its accepted items.
   */
  method CollectFeedAt(feedMap: FeedMap, feedUrl: string, blockedTitles: seq<string>, settings: Settings,
                       maxItems: int, fetch: string -> FetchResult, platform: Platform)
    returns (added: seq<Article>)
    requires blockedTitles == BlockedTitles(settings)
    ensures added == Contribution(feedMap, feedUrl, settings, maxItems, fetch, platform)
  {
    var rss := fetch(feedUrl);
    var sourceName := SourceName(feedMap, feedUrl, platform);
    added := [];
    if rss.Fetched? {
      var rssItems := FeedItems(rss, maxItems);
      added := CollectFeed(rssItems, sourceName, blockedTitles, settings, platform);
    }
  }

  /**
   * The inner loop of fetch_rss_feeds for one feed: each item in the order get_items yields,
   * its record appended when it passes the filters.
   */
  method CollectFeed(rssItems: seq<RawItem>, sourceName: string, blockedTitles: seq<string>,
                     settings: Settings, platform: Platform)
    returns (added: seq<Article>)
    requires blockedTitles == BlockedTitles(settings)
    ensures added == AcceptAll(rssItems, Keep(settings, platform), Builder(sourceName, settings, platform))
  {
    ghost var keep := Keep(settings, platform);
    ghost var build := Builder(sourceName, settings, platform);
    added := [];
    for k := 0 to |rssItems|
      invariant added == AcceptAll(rssItems[..k], keep, build)
    {
      assert rssItems[..k + 1][..k] == rssItems[..k];
      var record := CollectItem(rssItems[k], sourceName, blockedTitles, settings, platform);
      added := added + record;
    }
    assert rssItems[..|rssItems|] == rssItems;
  }

  /**
   * One pass of the inner loop: skip a blocked title and, when the setting
   * asks for it, short content; otherwise build the item's record.
   */
  method CollectItem(item: RawItem, sourceName: string, blockedTitles: seq<string>,
                     settings: Settings, platform: Platform)
    returns (record: seq<Article>)
    requires blockedTitles == BlockedTitles(settings)
    ensures record == if Accepted(item, settings, platform) then [Normalize(item, sourceName, settings, platform)] else []
  {
    if Trim(item.title) in blockedTitles {
      assert TitleBlocked(item.title, settings);
      return [];
    }
    var skipShortContent := settings.skipShortContent.GetOr(false);
    if skipShortContent && |platform.stripTags(item.description)| < ShortContentLength {
      assert SkipShort(settings) && IsShort(item, platform);
      return [];
    }
    assert Accepted(item, settings, platform);
    var cleanDescription := FilterDescription(item.description, settings);
    var image := ExtractFeaturedImage(item, sourceName, settings, platform);
    record := [Article(
      platform.escHtml(item.title),
      platform.escUrl(item.permalink),
      platform.trimWords(cleanDescription, DescriptionWords),
      item.date,
      sourceName,
      image)];
  }
}
