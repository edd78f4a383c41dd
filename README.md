# Topic RSS Fetcher — a verified model of the feed aggregation core

Topic RSS Fetcher is a WordPress plugin. It pulls a list of configured RSS
feeds and merges them into one date-ordered list of article records. It
filters the items and cleans their descriptions on the way. This project
models that pipeline in Dafny, as the plugin's `TopicRSSFetcher` class runs it:

- `php.dfy` (module `Php`): the PHP primitives the pipeline relies on,
  written out byte by byte:
  - `empty()` on strings, so `""` and `"0"` are both empty;
  - `trim()` with its default character set `" \t\n\r\0\x0B"`;
  - `explode`/`implode`, and `array_slice(s, 0, n)` for any `n`;
  - ASCII case folding, as `/i` and `stripos` do it.
- `feed.dfy` (module `Feed`): the data the pipeline reads and writes:
  - a parsed feed item and a fetch result;
  - the article record;
  - the settings option, where every key may be absent;
  - the feeds option, a URL-to-name map kept in insertion order with
    distinct URLs;
  - `Platform`, a record of the host functions this model does not look
    inside (`esc_url`, `esc_html`, `strip_tags`, `wp_trim_words`,
    `parse_url`, `filter_var(FILTER_VALIDATE_URL)` and the two image-address
    regexes).
- `image.dfy` (module `Image`): `extract_featured_image`.
  - The eight strategies run in their fixed order, each one only while the
    image is still `empty()`. The meta-field loop stops at the first URL.
  - When every strategy fails, the NESN fallback logo is used if
    `use_fallback_images` is on (the default) and the source name contains
    "NESN" in any case.
  - The code is a method (`ExtractFeaturedImage`). It is proved equal to a
    specification function (`ResolveImage`), and the strategy order
    properties are lemmas about that function.
- `sanitiser.dfy` (module `Sanitiser`): `filter_description`.
  - It applies the six photo-credit patterns, then one case-insensitive
    literal per non-blank custom-filter line, each removal running on the
    previous one's output.
  - It then collapses `\s{2,}` runs to one space and trims.
  - The patterns and the removal pass are modelled concretely: the leftmost
    match is cut and scanning resumes after it.
- `ordering.dfy` (module `Ordering`): the `usort` by date, latest first. PHP 8's
  sort is stable; the model is a stable insertion sort. It is proved sorted,
  a permutation of its input, and order-preserving among equal dates.
- `aggregator.dfy` (module `Aggregator`):
  - `get_default_feeds`, `get_source_name` and `fetch_rss_feeds`. The outer
    loop over feeds and the inner loop over items are methods, proved equal
    to the specification function `Aggregated`.
  - The blocked-title rule and the short-content rule.
  - The settings record the admin page saves.

The WordPress options, `fetch_feed` and the host functions are parameters.
The settings are one `Settings` value, and the stored feeds option is an
`Option<FeedMap>`. Each item's date is its `strtotime` timestamp.

Properties one might expect that the code does not have:

- **Sanitising is not idempotent.** With the custom filter `ab`, the text
  `aabb` loses only its middle `ab`. That leaves `ab`, which a second pass
  removes (`Sanitiser.SanitiserNotIdempotent`).
- **The sanitised text can begin or end with whitespace.** `trim()` does not
  strip a form feed, and a lone form feed survives the `\s{2,}` collapse. So
  the guarantee is that no `trim()` character sits at either end, not that
  no whitespace does.
- **An empty result need not be `''`.** When no image is found, the result is
  an `empty()` string, not necessarily `''`: an `esc_url` result of `"0"` is
  kept and returned.

## Model

| member | source | states |
|---|---|---|
| Php.Trim | topic-rss-fetcher.php:180 | trim() never lengthens its input, and the result neither starts nor ends with a trim character |
| Php.TrimCutsOnlyEnds | topic-rss-fetcher.php:180 | trim() removes only from the ends: its result is a slice of the input, and everything outside the slice is a trim character |
| Php.Split | topic-rss-fetcher.php:154 | explode yields at least one piece and no piece contains the separator |
| Php.SplitJoin | topic-rss-fetcher.php:154 | exploding on a separator and imploding with it gives back the original text |
| Php.ArraySlice | topic-rss-fetcher.php:242 | array_slice(s, 0, n) keeps the first min(n, len) elements for n >= 0, and drops -n elements from the end for n < 0; the result is always a prefix |
| Aggregator.DefaultFeeds | topic-rss-fetcher.php:36-45 | the stored feeds option when there is one, no feeds otherwise |
| Aggregator.Urls | topic-rss-fetcher.php:187 | array_keys: one URL per configured feed |
| Aggregator.UrlsAt | topic-rss-fetcher.php:187 | array_keys keeps configuration order: the i-th URL is the i-th configured feed's |
| Aggregator.SourceNameLookup | topic-rss-fetcher.php:248-251 | the configured name of a configured URL, and the URL's host for any other URL |
| Aggregator.LookupName | topic-rss-fetcher.php:250 | the `??` lookup: the name of the entry with that URL, or the host when no entry has it |
| Aggregator.NonEmptyTrimmed | topic-rss-fetcher.php:196 | array_filter(array_map('trim', …)): a string is kept exactly when it is the trim of some line whose trim is not empty() |
| Aggregator.TitleBlockedExactly | topic-rss-fetcher.php:196-212 | with no blocked_titles key no title is blocked; otherwise a title is blocked iff its trimmed text equals the trimmed text of a non-blank line of the setting |
| Aggregator.BlockingIsWholeTitle | topic-rss-fetcher.php:210-212 | a setting line blocks its own title and not a longer title that starts with it ("Breaking News" does not block "Breaking News Update") |
| Aggregator.ShortContentRule | topic-rss-fetcher.php:214-220 | with the setting off or absent nothing is skipped as short; with it on, an unblocked item is skipped iff its tag-stripped description has under 100 bytes |
| Aggregator.Normalize | topic-rss-fetcher.php:225-232 | the record's title is esc_html of the item's title, its link esc_url of the permalink, its description wp_trim_words of the filtered description to 30 words, its date the item's and its source the feed's name, and its image the one extract_featured_image resolves |
| Aggregator.FeedItems | topic-rss-fetcher.php:203 | get_items(0, max): nothing for a failed fetch; otherwise a prefix of the feed's items, of exactly min(max, count) items when max > 0 |
| Aggregator.FeedItemsNonPositiveCap | topic-rss-fetcher.php:203 | get_items(0, 0) gives every item of a fetched feed, and a negative max gives all but the last -max items (none when there are fewer) |
| Aggregator.AcceptAllExactly | topic-rss-fetcher.php:205-233 | an article is added for a feed exactly when it is the record of one of its items that passes the filters |
| Aggregator.Contribution | topic-rss-fetcher.php:198-235 | a feed whose fetch failed adds nothing, and no feed adds more than max items when max > 0 |
| Aggregator.ContributionExactly | topic-rss-fetcher.php:202-233 | an article comes from a feed iff its fetch succeeded and the article is the record of an accepted item among the first max items |
| Aggregator.ConcatMapSkipsFailed | topic-rss-fetcher.php:198-202 | leaving out the feeds whose fetch failed does not change the concatenated contributions |
| Aggregator.ConcatMapExactly | topic-rss-fetcher.php:198-235 | an article is in the concatenated contributions iff it is in the contribution of one of the feeds |
| Aggregator.FailingFeedsSkipped | topic-rss-fetcher.php:198-202 | the collected list is the same when only the reachable feeds are collected |
| Aggregator.CollectedExactly | topic-rss-fetcher.php:198-235 | an article is collected iff it is part of the contribution of one of the configured feeds |
| Aggregator.Aggregated | topic-rss-fetcher.php:186-243 | the returned list is sorted latest first, has at most max_items articles, and is empty when no feed is configured |
| Aggregator.AggregatedKeepsLatest | topic-rss-fetcher.php:237-242 | the result holds min(max_items, collected) articles when max_items >= 0 and max(0, collected + max_items) when it is negative, all of them collected, and none older than an article the cap dropped |
| Aggregator.AggregatedFromAcceptedItems | topic-rss-fetcher.php:186-243 | every returned article is the record of an accepted item of a configured feed whose fetch succeeded |
| Aggregator.AggregatedKeepsAllUnderCap | topic-rss-fetcher.php:237-242 | when the collected list fits under the cap, every accepted item's record is returned |
| Aggregator.AggregatedKeepsTieOrder | topic-rss-fetcher.php:237-242 | for every cap, the returned articles of one timestamp are the first ones collected with it, in collection order (feed order, then item order); under the cap, all of them |
| Aggregator.SavedSettings | topic-rss-fetcher.php:441-446 | the admin form saves no use_fallback_images key, so the fallback stays on; skip_short_content is the checkbox state |
| Aggregator.FetchRssFeeds | topic-rss-fetcher.php:186-243 | the method returns exactly the Aggregated list, and hands each configured URL to fetch_feed once, in order; none when no feed is configured |
| Aggregator.CollectFeeds | topic-rss-fetcher.php:198-235 | the outer loop builds exactly the concatenation of every feed's contribution, feed after feed, and fetches every configured URL in order |
| Aggregator.CollectFeedAt | topic-rss-fetcher.php:199-234 | one pass of the outer loop adds exactly the feed's contribution: nothing when fetch_feed fails, otherwise the records of its accepted items |
| Aggregator.CollectFeed | topic-rss-fetcher.php:205-233 | the inner loop adds exactly the records of the accepted items, in the order get_items yields them |
| Aggregator.CollectItem | topic-rss-fetcher.php:206-232 | one item yields its record iff its title is not blocked and it is not skipped as short, and nothing otherwise |
| Image.Tag | topic-rss-fetcher.php:122 | an un-namespaced item tag has data exactly when the item carries a tag of that name |
| Image.IfFilled | topic-rss-fetcher.php:60-65 | a strategy offers a value exactly when the value is present and not empty(), and then offers it unchanged |
| Image.EncodedCandidate | topic-rss-fetcher.php:75-90 | content:encoded offers nothing unless its data is filled, then the thumbnailUrl field when there is one, and otherwise the first img src |
| Image.FirstUsableMeta | topic-rss-fetcher.php:117-132 | the chosen meta field is filled and validates as a URL, and no field before it does; none is chosen only when no field qualifies |
| Image.FirstUsableMetaIs | topic-rss-fetcher.php:121-129 | a usable meta field with no usable field before it is the one the loop picks |
| Image.ChainKeepsFound | topic-rss-fetcher.php:59-132 | once the image is not empty(), no later strategy changes it |
| Image.ChainFirstSuccess | topic-rss-fetcher.php:53-132 | from an empty image, the chain ends with the escaped value of the first strategy that succeeds |
| Image.ChainNoSuccess | topic-rss-fetcher.php:53-132 | when no strategy succeeds, the image stays empty() |
| Image.ChainOutcome | topic-rss-fetcher.php:51-132 | starting from '', both outcomes hold: the first success wins, and no success leaves the image empty() |
| Image.UseFallback | topic-rss-fetcher.php:137 | use_fallback_images defaults to true when the key is absent, and is the stored value when it is present |
| Image.ResolveImage | topic-rss-fetcher.php:50-146 | the image is the escaped value of the first successful strategy; otherwise the NESN logo when the fallback applies, and an empty() string when it does not |
| Image.EnclosureWins | topic-rss-fetcher.php:53-57 | a usable enclosure link is the image, whatever else the item offers |
| Image.MediaContentBeatsThumbnail | topic-rss-fetcher.php:59-73 | without an enclosure, a usable Media RSS content url beats the Media RSS thumbnail |
| Image.ThumbnailUrlBeatsImg | topic-rss-fetcher.php:75-88 | inside content:encoded, a usable thumbnailUrl is used even when the data also holds an img tag |
| Image.MetaStopsAtFirstUrl | topic-rss-fetcher.php:117-132 | the meta-field strategy offers the first field that is filled and a valid URL; later fields are not looked at |
| Image.FallbackRule | topic-rss-fetcher.php:134-145 | when every strategy failed: the NESN logo iff the setting allows it and the source name contains "NESN" in any case, else an empty() string; with the key absent, only the source name decides |
| Image.BrandMatchesAnyCase | topic-rss-fetcher.php:139 | the brand test ignores case ("Boston nEsN" matches) and a name shorter than the brand, or a different one, does not match |
| Image.ExtractFeaturedImage | topic-rss-fetcher.php:50-146 | the method computes exactly ResolveImage |
| Image.RunStrategies | topic-rss-fetcher.php:51-132 | the eight guarded strategy steps compute the chain over all candidates from '' |
| Image.FeedStrategies | topic-rss-fetcher.php:53-90 | the first four steps advance the chain past the enclosure, Media RSS and content:encoded strategies |
| Image.PostStrategies | topic-rss-fetcher.php:92-132 | the last four steps compute the rest of the chain from the image found so far |
| Image.EncodedStep | topic-rss-fetcher.php:75-90 | the content:encoded step takes the escaped thumbnailUrl, or else the escaped first img src, when the data is filled |
| Image.MetaFieldStep | topic-rss-fetcher.php:117-132 | the meta loop takes the escaped data of the first filled, URL-valid field and leaves the image unchanged when there is none |
| Sanitiser.RemoveFromWithoutMatch | topic-rss-fetcher.php:174 | preg_replace leaves text in which the pattern matches nowhere unchanged |
| Sanitiser.RemoveFromLeftmost | topic-rss-fetcher.php:174 | preg_replace keeps everything before the leftmost match, drops the match, and goes on after it |
| Sanitiser.MatchLenMeaning | topic-rss-fetcher.php:157-169 | a literal matches at the start exactly when it occurs there ignoring case; a credit pattern matches its lead ignoring case, then a run of non-dots (at least one for the "+" patterns), up to and including the first dot |
| Sanitiser.Collapse | topic-rss-fetcher.php:178 | after the \s{2,} replacement no two adjacent characters are whitespace, the length does not grow, and a leading whitespace character stays whitespace |
| Sanitiser.CollapseKeepsText | topic-rss-fetcher.php:178 | the collapse changes only whitespace: the other characters stay, in order |
| Sanitiser.CollapseFixesSpacedText | topic-rss-fetcher.php:178 | text without two adjacent whitespace characters is left unchanged by the collapse |
| Sanitiser.CollapseRun | topic-rss-fetcher.php:178 | a run of two or more whitespace characters collapses to one space |
| Sanitiser.CollapseLeadingRun | topic-rss-fetcher.php:178 | a maximal whitespace run at the front becomes one space when it has two or more characters, and stays otherwise; the rest collapses on its own |
| Sanitiser.CollapseKeepsNonSpace | topic-rss-fetcher.php:178 | a non-space character at the front is kept and the rest collapses on its own, so with CollapseLeadingRun the collapse is fixed on every text |
| Sanitiser.CollapseAroundRun | topic-rss-fetcher.php:178 | a maximal whitespace run between two texts collapses on its own: Collapse(a + w + b) is Collapse(a), then " " for a run of two or more (the run itself otherwise), then Collapse(b) |
| Sanitiser.PerLineMembers | topic-rss-fetcher.php:167-171 | a pattern is produced by the per-line loop iff some line produces it |
| Sanitiser.CustomPatternsExactly | topic-rss-fetcher.php:166-171 | blank custom lines add nothing, and every other line adds exactly its trimmed text, as a literal |
| Sanitiser.BuildPatterns | topic-rss-fetcher.php:153-171 | the pattern list is the six fixed credit patterns followed by the custom literals in line order |
| Sanitiser.ApplyPatternsSnoc | topic-rss-fetcher.php:173-175 | one more pattern in the list is one more removal pass over the previous pass's output |
| Sanitiser.ApplyPatternsCompose | topic-rss-fetcher.php:173-175 | the removal passes run in list order: removing ps1 + ps2 is removing ps1, then ps2 from what is left |
| Sanitiser.RemovePatterns | topic-rss-fetcher.php:173-175 | each pattern in list order is removed from the previous pass's output |
| Sanitiser.SanitisedDescription | topic-rss-fetcher.php:151-181 | the result has no two adjacent whitespace characters, no trim character at either end, and is no longer than the input |
| Sanitiser.FilterDescription | topic-rss-fetcher.php:151-181 | the method computes exactly SanitisedDescription |
| Sanitiser.ShortTextUntouched | topic-rss-fetcher.php:157-164 | credit patterns whose lead text is longer than the text remove nothing from it |
| Sanitiser.PatternsWithOneFilter | topic-rss-fetcher.php:154-171 | a one-line custom filter with no blank ends adds exactly that line, as a literal, after the fixed patterns |
| Sanitiser.PatternsWithFilterAb | topic-rss-fetcher.php:154-171 | the custom filter "ab" adds the single literal "ab" |
| Sanitiser.LiteralPassOverAabb | topic-rss-fetcher.php:169-174 | one left-to-right removal of "ab" from "aabb" gives "ab" |
| Sanitiser.LiteralPassOverAb | topic-rss-fetcher.php:169-174 | removing "ab" from "ab" gives "" |
| Sanitiser.OnlyLiteralMatchesShortText | topic-rss-fetcher.php:157-175 | on text of at most four characters, the fixed patterns followed by the literal "ab" remove exactly what the literal alone removes |
| Sanitiser.SanitiseTextWithoutSpaces | topic-rss-fetcher.php:177-180 | when the pattern pass leaves no whitespace and no trim character, collapse and trim change nothing |
| Sanitiser.SanitiseAabb | topic-rss-fetcher.php:151-181 | with the custom filter "ab", "aabb" sanitises to "ab" |
| Sanitiser.SanitiseAb | topic-rss-fetcher.php:151-181 | with the custom filter "ab", "ab" sanitises to "" |
| Sanitiser.SanitiserNotIdempotent | topic-rss-fetcher.php:151-181 | sanitising twice can differ from sanitising once ("aabb" with the filter "ab") |
| Ordering.InsertPermutes | topic-rss-fetcher.php:238-240 | inserting an article adds it and loses nothing |
| Ordering.InsertSorted | topic-rss-fetcher.php:238-240 | inserting into a list sorted latest first keeps it sorted |
| Ordering.InsertKeepsDateOrder | topic-rss-fetcher.php:238-240 | an inserted article goes after the articles with its own timestamp, and the others' order is kept |
| Ordering.SortByDateDesc | topic-rss-fetcher.php:237-240 | usort by the date comparator: sorted latest first, and a permutation of its input |
| Ordering.SortIsStable | topic-rss-fetcher.php:237-240 | the sort is stable: articles with one timestamp keep their relative order |
| Ordering.SortedCutKeepsLatest | topic-rss-fetcher.php:242 | cutting a sorted list keeps the latest articles: nothing kept is older than anything cut, and kept plus cut is the whole list |
| Ordering.SortedCutKeepsTiePrefix | topic-rss-fetcher.php:237-242 | cutting the stably sorted list keeps, for each timestamp, a leading part of the input's articles with it, in input order |
| Ordering.InterleavedFeeds | topic-rss-fetcher.php:237-240 | articles dated 1 and 3 from one feed and 2 from another come out 3, 2, 1 |

## Left out

- `rss_shortcode`, `add_css`, `add_admin_menu`, `render_admin_page` and
  `init` are left out. They are HTML rendering and WordPress hook
  registration, not the feed pipeline. Of the admin page, only the settings
  record it saves is modelled (`Aggregator.SavedSettings`).
- `get_option`, `fetch_feed` and the WordPress and PHP host functions are
  parameters: `Settings`, the stored feeds option, `fetch` and `Platform`.
  Their own behaviour is not modelled. Neither are I/O, caching and the
  network behind `fetch_feed`.
- The settings option is re-read inside the item loop and in the image and
  description helpers. The model reads it once, as one `Settings` value,
  because nothing writes it during a call.
- The `$source` parameter of `filter_description` is unused by the code, so
  it is not part of the model.
- The `thumbnailUrl` and `<img src>` regexes are `Platform` functions, not
  regex matchers. The model states only in which order the strategies use
  them.
- The article's `date` field is the `strtotime` timestamp, not the formatted
  `'Y-m-d H:i:s'` string the plugin stores. Time zones and unparsable dates
  are not modelled.
- `Aggregator.TitleBlockedExactly` and `Aggregator.CollectItem` compare titles
  with string equality. `in_array`'s loose comparison treats two numeric
  strings as equal when their numbers are (for example "1.0" and "1"); that
  case is not modelled.
- Characters stand for bytes. Multibyte text, locale-dependent case folding
  and PCRE errors (a backtracking limit making `preg_replace` return null)
  are not modelled.
- The feed library's item model is simplified. Each item tag is read as the
  data of its first occurrence. `get_items(0, n)` returns all items for
  `n == 0` and `array_slice(items, 0, n)` otherwise. The items come in the
  order `get_items` yields them; the library's own ordering (it sorts by
  date by default) is not modelled. A feed that parses with
  an error but is not a `WP_Error` is treated as a successful fetch.
- PHP array keys that look like integers are converted by PHP; the feeds
  option is modelled as a sequence of string URLs with distinct values.
- The default `$max_items = 30` of `fetch_rss_feeds` is not modelled:
  `maxItems` is always passed explicitly.
