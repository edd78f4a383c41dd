/**
 * The records the aggregation pipeline reads and produces, and the foreign
 * functions it calls, which this model takes as parameters.
 */
module Feed {
  import opened Php

  /**
   * One parsed feed item, as the feed library hands it over. Each optional
   * field is the first value of its kind, or None when the item has none.
   */
  datatype RawItem = RawItem(
    title: string,                      // get_title()
    description: string,                // get_description(), markup included
    permalink: string,                  // get_permalink()
    date: int,                          // strtotime of get_date('Y-m-d H:i:s'); 0 where it fails
    enclosureLink: Option<string>,      // get_enclosure()->get_link()
    mediaContentUrl: Option<string>,    // url attribute of the first Media RSS <content>
    mediaThumbnailUrl: Option<string>,  // url attribute of the first Media RSS <thumbnail>
    contentEncoded: Option<string>,     // data of the first content:encoded element
    tags: map<string, string>)          // data of the first un-namespaced item tag of each name

  /** What fetch_feed gives for one URL: an error, or the feed's items in the order get_items yields them. */
  datatype FetchResult = FetchError | Fetched(items: seq<RawItem>)

  /** One display-ready record of the aggregated list. */
  datatype Article = Article(
    title: string,
    link: string,
    description: string,
    date: int,
    source: string,
    image: string)

  /**
   * The plugin's settings option. A field is None when the stored option has
   * no such key (and all are None when the option is absent).
   */
  datatype Settings = Settings(
    blockedTitles: Option<string>,     // newline-separated titles
    customFilters: Option<string>,     // newline-separated literal texts to remove
    skipShortContent: Option<bool>,
    useFallbackImages: Option<bool>)

  /** One entry of the stored url => name feeds option. */
  datatype FeedEntry = FeedEntry(url: string, name: string)

  predicate UniqueUrls(entries: seq<FeedEntry>) {
    forall i, j :: 0 <= i < j < |entries| ==> entries[i].url != entries[j].url
  }

  /** The feeds option: a PHP array keyed by URL, so in insertion order and with distinct URLs. */
  type FeedMap = entries: seq<FeedEntry> | UniqueUrls(entries) witness []

  /**
   * The host platform's functions whose code is not part of this model:
   * WordPress escaping and excerpting, PHP's URL filter and parser, strip_tags,
   * and the two PCRE searches for an image address.
   */
  datatype Platform = Platform(
    escUrl: string -> string,                  // esc_url
    escHtml: string -> string,                 // esc_html
    isValidUrl: string -> bool,                // filter_var(.., FILTER_VALIDATE_URL) succeeds
    stripTags: string -> string,               // strip_tags
    trimWords: (string, nat) -> string,        // wp_trim_words
    urlHost: string -> string,                 // parse_url(.., PHP_URL_HOST), null read as ""
    thumbnailUrlIn: string -> Option<string>,  // capture of /"thumbnailUrl"\s*:\s*"([^"]+)"/
    imgSrcIn: string -> Option<string>)        // capture of the first <img ... src="..."> tag
}
