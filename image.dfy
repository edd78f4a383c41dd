/**
 * extract_featured_image: an ordered chain of strategies for finding an
 * item's image, each tried only while the image found so far is empty(),
 * with a per-brand fallback when every strategy comes up empty.
 */
module Image {
  import opened Php
  import opened Feed

  /** The NESN editorial logo used when no image is found for an NESN source. */
  const FallbackImage: string := "https://s47719.pcdn.co/wp-content/plugins/arsenal-images/dist/svg/nesn-editorial.svg"

  /** The brand a source name must mention, ignoring case, to get the fallback image. */
  const FallbackBrand: string := "NESN"

  /** The un-namespaced item tags tried last, in this order. */
  const MetaFields: seq<string> := ["_thumbnail_id", "featured_image", "post_image", "image_url"]

  /** A present value that PHP does not consider empty(). */
  predicate Filled(o: Option<string>) {
    o.Some? && !IsEmpty(o.value)
  }

  /** The data of the item's first un-namespaced tag called `name`, if any. */
  function Tag(item: RawItem, name: string): (r: Option<string>)
    ensures r.Some? <==> name in item.tags
  {
    if name in item.tags then Some(item.tags[name]) else None
  }

  /** The value a strategy offers when it is filled, and nothing otherwise. */
  function IfFilled(o: Option<string>): (r: Option<string>)
    ensures r.Some? <==> Filled(o)
    ensures r.Some? ==> r == o
  {
    if Filled(o) then o else None
  }

  /**
   * The content:encoded strategy: when the element's data is filled, the
   * thumbnailUrl field if it has one, and otherwise the first <img src>.
   */
  function EncodedCandidate(item: RawItem, platform: Platform): (r: Option<string>)
    ensures !Filled(item.contentEncoded) ==> r == None
    ensures Filled(item.contentEncoded) && platform.thumbnailUrlIn(item.contentEncoded.value).Some? ==>
      r == platform.thumbnailUrlIn(item.contentEncoded.value)
    ensures Filled(item.contentEncoded) && platform.thumbnailUrlIn(item.contentEncoded.value).None? ==>
      r == platform.imgSrcIn(item.contentEncoded.value)
  {
    if !Filled(item.contentEncoded) then None
    else
      var data := item.contentEncoded.value;
      match platform.thumbnailUrlIn(data)
      case Some(u) => Some(u)
      case None => platform.imgSrcIn(data)
  }

  /** A meta field the last strategy accepts: its tag is filled and its data validates as a URL. */
  predicate MetaUsable(item: RawItem, field: string, platform: Platform) {
    Filled(Tag(item, field)) && platform.isValidUrl(Tag(item, field).value)
  }

  /** The index of the first usable field of `fields`, if there is one. */
  function FirstUsableMeta(item: RawItem, fields: seq<string>, platform: Platform): (r: Option<nat>)
    ensures r.Some? ==> r.value < |fields| && MetaUsable(item, fields[r.value], platform)
    ensures r.Some? ==> forall j :: 0 <= j < r.value ==> !MetaUsable(item, fields[j], platform)
    ensures r.None? ==> forall j :: 0 <= j < |fields| ==> !MetaUsable(item, fields[j], platform)
  {
    if fields == [] then None
    else if MetaUsable(item, fields[0], platform) then Some(0)
    else match FirstUsableMeta(item, fields[1..], platform)
      case None => None
      case Some(i) => Some(i + 1)
  }

  /** A usable field with no usable field before it is the one `FirstUsableMeta` picks. */
  lemma FirstUsableMetaIs(item: RawItem, fields: seq<string>, platform: Platform, i: nat)
    requires i < |fields| && MetaUsable(item, fields[i], platform)
    requires forall j :: 0 <= j < i ==> !MetaUsable(item, fields[j], platform)
    ensures FirstUsableMeta(item, fields, platform) == Some(i)
  {
  }

  /** The meta-field strategy: the data of the first usable meta field. */
  function MetaCandidate(item: RawItem, platform: Platform): Option<string> {
    match FirstUsableMeta(item, MetaFields, platform)
    case None => None
    case Some(i) => Tag(item, MetaFields[i])
  }

  /**
   * The raw value each strategy offers, in the order they are tried:
   * enclosure link, Media RSS content, Media RSS thumbnail, content:encoded,
   * post-thumbnail tag, featuredImage tag, <img> in the description, meta fields.
   */
  function Candidates(item: RawItem, platform: Platform): (r: seq<Option<string>>)
    ensures |r| == 8
  {
    [ IfFilled(item.enclosureLink),
      IfFilled(item.mediaContentUrl),
      IfFilled(item.mediaThumbnailUrl),
      EncodedCandidate(item, platform),
      IfFilled(Tag(item, "post-thumbnail")),
      IfFilled(Tag(item, "featuredImage")),
      platform.imgSrcIn(item.description),
      MetaCandidate(item, platform) ]
  }

  /** A strategy succeeds when it offers a value whose escaped form is not empty(). */
  predicate Succeeds(c: Option<string>, escUrl: string -> string) {
    c.Some? && !IsEmpty(escUrl(c.value))
  }

  /** One `if (empty($image))` step: an empty image takes the escaped candidate, if there is one. */
  function Step(image: string, c: Option<string>, escUrl: string -> string): string {
    if IsEmpty(image) && c.Some? then escUrl(c.value) else image
  }

  /** The image after running the remaining strategies `cs` from `image`. */
  function Chain(image: string, cs: seq<Option<string>>, escUrl: string -> string): string
    decreases |cs|
  {
    if cs == [] then image else Chain(Step(image, cs[0], escUrl), cs[1..], escUrl)
  }

  /** Strategy `i` is the first of `cs` that succeeds. */
  predicate FirstSucceedsAt(cs: seq<Option<string>>, escUrl: string -> string, i: nat) {
    i < |cs| && Succeeds(cs[i], escUrl) && forall j :: 0 <= j < i ==> !Succeeds(cs[j], escUrl)
  }

  /** Once the image is not empty(), no later strategy changes it. */
  lemma {:induction false} ChainKeepsFound(image: string, cs: seq<Option<string>>, escUrl: string -> string)
    requires !IsEmpty(image)
    ensures Chain(image, cs, escUrl) == image
    decreases |cs|
  {
    if cs != [] {
      ChainKeepsFound(image, cs[1..], escUrl);
    }
  }

  /** From an empty image, the chain ends with the escaped value of the first strategy that succeeds. */
  lemma {:induction false} ChainFirstSuccess(image: string, cs: seq<Option<string>>, escUrl: string -> string, i: nat)
    requires IsEmpty(image) && FirstSucceedsAt(cs, escUrl, i)
    ensures Chain(image, cs, escUrl) == escUrl(cs[i].value)
    decreases |cs|
  {
    var next := Step(image, cs[0], escUrl);
    if i == 0 {
      ChainKeepsFound(next, cs[1..], escUrl);
    } else {
      assert !Succeeds(cs[0], escUrl);
      assert FirstSucceedsAt(cs[1..], escUrl, i - 1) by {
        forall j | 0 <= j < i - 1 ensures !Succeeds(cs[1..][j], escUrl) {
          assert cs[1..][j] == cs[j + 1];
        }
      }
      ChainFirstSuccess(next, cs[1..], escUrl, i - 1);
    }
  }

  /** From an empty image, when no strategy succeeds the image stays empty(). */
  lemma {:induction false} ChainNoSuccess(image: string, cs: seq<Option<string>>, escUrl: string -> string)
    requires IsEmpty(image)
    requires forall j :: 0 <= j < |cs| ==> !Succeeds(cs[j], escUrl)
    ensures IsEmpty(Chain(image, cs, escUrl))
    decreases |cs|
  {
    if cs != [] {
      assert !Succeeds(cs[0], escUrl);
      ChainNoSuccess(Step(image, cs[0], escUrl), cs[1..], escUrl);
    }
  }

  /** Both outcomes of a chain started from "": the first success wins, and no success leaves it empty(). */
  lemma ChainOutcome(cs: seq<Option<string>>, escUrl: string -> string)
    ensures forall i: nat :: FirstSucceedsAt(cs, escUrl, i) ==> Chain("", cs, escUrl) == escUrl(cs[i].value)
    ensures (forall j :: 0 <= j < |cs| ==> !Succeeds(cs[j], escUrl)) ==> IsEmpty(Chain("", cs, escUrl))
  {
    forall i: nat | FirstSucceedsAt(cs, escUrl, i) ensures Chain("", cs, escUrl) == escUrl(cs[i].value) {
      ChainFirstSuccess("", cs, escUrl, i);
    }
    if forall j :: 0 <= j < |cs| ==> !Succeeds(cs[j], escUrl) {
      ChainNoSuccess("", cs, escUrl);
    }
  }

  /** The use_fallback_images setting, which is on unless explicitly stored as off. */
  function UseFallback(settings: Settings): (r: bool)
    ensures settings.useFallbackImages.None? ==> r
    ensures settings.useFallbackImages.Some? ==> r == settings.useFallbackImages.value
  {
    settings.useFallbackImages.GetOr(true)
  }

  /** The fallback applies to an item whose source name mentions the brand, when the setting allows it. */
  predicate FallbackApplies(sourceName: string, settings: Settings) {
    UseFallback(settings) && ContainsIgnoreCase(sourceName, FallbackBrand)
  }

  /**
   * The brand test is `stripos`: it ignores case, and a source name shorter
   * than the brand never contains it.
   */
  lemma BrandMatchesAnyCase()
    ensures ContainsIgnoreCase("Boston nEsN", FallbackBrand)
    ensures !ContainsIgnoreCase("NES", FallbackBrand)
    ensures !ContainsIgnoreCase("ESPN", FallbackBrand)
  {
    assert OccursAt("Boston nEsN", FallbackBrand, 7) by {
      assert "Boston nEsN"[7..11] == "nEsN";
    }
    assert !OccursAt("ESPN", FallbackBrand, 0) by {
      assert Lower("ESPN"[0]) != Lower(FallbackBrand[0]);
    }
  }

  /**
   * The image extract_featured_image returns: the escaped value of the first
   * strategy that succeeds; otherwise the fallback image when the fallback
   * applies, and an empty() string when it does not.
   */
  function ResolveImage(item: RawItem, sourceName: string, settings: Settings, platform: Platform): (r: string)
    ensures forall i: nat :: FirstSucceedsAt(Candidates(item, platform), platform.escUrl, i) ==>
      r == platform.escUrl(Candidates(item, platform)[i].value)
    ensures (forall j :: 0 <= j < 8 ==> !Succeeds(Candidates(item, platform)[j], platform.escUrl)) ==>
      if FallbackApplies(sourceName, settings) then r == FallbackImage else IsEmpty(r)
  {
    var cs := Candidates(item, platform);
    var found := Chain("", cs, platform.escUrl);
    ChainOutcome(cs, platform.escUrl);
    if IsEmpty(found) && FallbackApplies(sourceName, settings) then FallbackImage else found
  }

  /** An enclosure link whose escaped form is not empty() is the image, whatever else the item offers. */
  lemma EnclosureWins(item: RawItem, sourceName: string, settings: Settings, platform: Platform)
    requires Filled(item.enclosureLink) && !IsEmpty(platform.escUrl(item.enclosureLink.value))
    ensures ResolveImage(item, sourceName, settings, platform) == platform.escUrl(item.enclosureLink.value)
  {
    assert FirstSucceedsAt(Candidates(item, platform), platform.escUrl, 0);
  }

  /** Without an enclosure link, a filled Media RSS content url beats the Media RSS thumbnail. */
  lemma MediaContentBeatsThumbnail(item: RawItem, sourceName: string, settings: Settings, platform: Platform)
    requires !Filled(item.enclosureLink)
    requires Filled(item.mediaContentUrl) && !IsEmpty(platform.escUrl(item.mediaContentUrl.value))
    ensures ResolveImage(item, sourceName, settings, platform) == platform.escUrl(item.mediaContentUrl.value)
  {
    assert FirstSucceedsAt(Candidates(item, platform), platform.escUrl, 1);
  }

  /**
   * Inside content:encoded, a thumbnailUrl field is used even when the data
   * also holds an <img> tag.
   */
  lemma ThumbnailUrlBeatsImg(item: RawItem, sourceName: string, settings: Settings, platform: Platform)
    requires !Filled(item.enclosureLink) && !Filled(item.mediaContentUrl) && !Filled(item.mediaThumbnailUrl)
    requires Filled(item.contentEncoded)
    requires platform.thumbnailUrlIn(item.contentEncoded.value).Some?
    requires !IsEmpty(platform.escUrl(platform.thumbnailUrlIn(item.contentEncoded.value).value))
    ensures ResolveImage(item, sourceName, settings, platform) ==
      platform.escUrl(platform.thumbnailUrlIn(item.contentEncoded.value).value)
  {
    assert FirstSucceedsAt(Candidates(item, platform), platform.escUrl, 3);
  }

  /**
   * The meta-field strategy offers the first field that is filled and
   * validates as a URL: fields before it are skipped, fields after it are not
   * looked at.
   */
  lemma MetaStopsAtFirstUrl(item: RawItem, platform: Platform, i: nat)
    requires i < |MetaFields| && MetaUsable(item, MetaFields[i], platform)
    requires forall j :: 0 <= j < i ==> !MetaUsable(item, MetaFields[j], platform)
    ensures MetaCandidate(item, platform) == Tag(item, MetaFields[i])
  {
    FirstUsableMetaIs(item, MetaFields, platform, i);
  }

  /**
   * The fallback image is the result exactly when every strategy failed and
   * the fallback applies; when the setting is absent, only the source name decides.
   */
  lemma FallbackRule(item: RawItem, sourceName: string, settings: Settings, platform: Platform)
    requires forall j :: 0 <= j < 8 ==> !Succeeds(Candidates(item, platform)[j], platform.escUrl)
    ensures FallbackApplies(sourceName, settings) ==> ResolveImage(item, sourceName, settings, platform) == FallbackImage
    ensures !FallbackApplies(sourceName, settings) ==> IsEmpty(ResolveImage(item, sourceName, settings, platform))
    ensures settings.useFallbackImages.None? ==>
      (ResolveImage(item, sourceName, settings, platform) == FallbackImage <==> ContainsIgnoreCase(sourceName, FallbackBrand))
  {
  }

  /** The resolved image is the chain's result, replaced by the fallback when that is empty() and the fallback applies. */
  lemma ResolveImageFromChain(item: RawItem, sourceName: string, settings: Settings, platform: Platform)
    ensures var found := Chain("", Candidates(item, platform), platform.escUrl);
      ResolveImage(item, sourceName, settings, platform) ==
        if IsEmpty(found) && FallbackApplies(sourceName, settings) then FallbackImage else found
  {
  }

  /** Running the strategies from position `k` is one step at `k`, then the rest. */
  lemma ChainAdvance(image: string, cs: seq<Option<string>>, escUrl: string -> string, k: nat)
    requires k < |cs|
    ensures Chain(image, cs[k..], escUrl) == Chain(Step(image, cs[k], escUrl), cs[k + 1..], escUrl)
  {
    assert cs[k..][0] == cs[k];
    assert cs[k..][1..] == cs[k + 1..];
  }

  /** One more strategy run: the chain from `start` has reached strategy `k` with `before`, and goes on with `after`. */
  lemma ChainStep(start: string, cs: seq<Option<string>>, escUrl: string -> string, k: nat, before: string, after: string)
    requires k < |cs| && Chain(start, cs, escUrl) == Chain(before, cs[k..], escUrl)
    requires after == Step(before, cs[k], escUrl)
    ensures Chain(start, cs, escUrl) == Chain(after, cs[k + 1..], escUrl)
  {
    ChainAdvance(before, cs, escUrl, k);
  }

  /**
   * extract_featured_image as the source runs it: the strategies in order,
   * then the fallback when the image is still empty().
   */
  method ExtractFeaturedImage(item: RawItem, sourceName: string, settings: Settings, platform: Platform)
    returns (image: string)
    ensures image == ResolveImage(item, sourceName, settings, platform)
  {
    image := RunStrategies(item, platform);
    ResolveImageFromChain(item, sourceName, settings, platform);
    if IsEmpty(image) {
      var useFallback := settings.useFallbackImages.GetOr(true);
      if useFallback && ContainsIgnoreCase(sourceName, FallbackBrand) {
        image := FallbackImage;
      }
    }
  }

  /**
   * The strategies of extract_featured_image, each tried only while `image`
   * is empty(), the meta fields in a loop that stops at the first URL.
   */
  method RunStrategies(item: RawItem, platform: Platform) returns (image: string)
    ensures image == Chain("", Candidates(item, platform), platform.escUrl)
  {
    image := FeedStrategies(item, platform);
    image := PostStrategies(item, platform, image);
    ghost var cs := Candidates(item, platform);
    assert cs[8..] == [];
  }

  /** The first four strategies: enclosure, Media RSS content and thumbnail, content:encoded. */
  method FeedStrategies(item: RawItem, platform: Platform) returns (image: string)
    ensures Chain("", Candidates(item, platform), platform.escUrl) == Chain(image, Candidates(item, platform)[4..], platform.escUrl)
  {
    var escUrl := platform.escUrl;
    ghost var cs := Candidates(item, platform);
    assert cs[0..] == cs;
    image := "";
    if Filled(item.enclosureLink) {
      image := escUrl(item.enclosureLink.value);
    }
    ChainStep("", cs, escUrl, 0, "", image);
    ghost var before := image;
    if IsEmpty(image) && Filled(item.mediaContentUrl) {
      image := escUrl(item.mediaContentUrl.value);
    }
    ChainStep("", cs, escUrl, 1, before, image);
    before := image;
    if IsEmpty(image) && Filled(item.mediaThumbnailUrl) {
      image := escUrl(item.mediaThumbnailUrl.value);
    }
    ChainStep("", cs, escUrl, 2, before, image);
    before := image;
    if IsEmpty(image) {
      image := EncodedStep(item, platform, image);
    }
    ChainStep("", cs, escUrl, 3, before, image);
  }

  /** The last four strategies: post-thumbnail, featuredImage, <img> in the description, meta fields. */
  method PostStrategies(item: RawItem, platform: Platform, image0: string) returns (image: string)
    ensures image == Chain(image0, Candidates(item, platform)[4..], platform.escUrl)
  {
    var escUrl := platform.escUrl;
    ghost var cs := Candidates(item, platform);
    ghost var rest := cs[4..];
    assert rest[0..] == rest;
    image := image0;
    if IsEmpty(image) {
      var thumbnail := Tag(item, "post-thumbnail");
      if Filled(thumbnail) {
        image := escUrl(thumbnail.value);
      }
    }
    ChainStep(image0, rest, escUrl, 0, image0, image);
    ghost var before := image;
    if IsEmpty(image) {
      var featured := Tag(item, "featuredImage");
      if Filled(featured) {
        image := escUrl(featured.value);
      }
    }
    ChainStep(image0, rest, escUrl, 1, before, image);
    before := image;
    if IsEmpty(image) {
      match platform.imgSrcIn(item.description) {
        case Some(u) => image := escUrl(u);
        case None =>
      }
    }
    ChainStep(image0, rest, escUrl, 2, before, image);
    before := image;
    if IsEmpty(image) {
      image := MetaFieldStep(item, platform, image);
    }
    ChainStep(image0, rest, escUrl, 3, before, image);
    assert rest[4..] == [];
  }

  /**
   * The content:encoded strategy: when the element's data is filled, the
   * escaped thumbnailUrl field, or failing that the escaped first <img src>.
   */
  method EncodedStep(item: RawItem, platform: Platform, image0: string) returns (image: string)
    requires IsEmpty(image0)
    ensures image == Step(image0, EncodedCandidate(item, platform), platform.escUrl)
  {
    image := image0;
    if Filled(item.contentEncoded) {
      var data := item.contentEncoded.value;
      match platform.thumbnailUrlIn(data) {
        case Some(u) =>
          image := platform.escUrl(u);
        case None =>
          match platform.imgSrcIn(data) {
            case Some(u) => image := platform.escUrl(u);
            case None =>
          }
      }
    }
  }

  /**
   * The meta-field loop: the escaped data of the first field that is filled
   * and validates as a URL; `image` stays as it was when there is none.
   */
  method MetaFieldStep(item: RawItem, platform: Platform, image0: string) returns (image: string)
    requires IsEmpty(image0)
    ensures image == Step(image0, MetaCandidate(item, platform), platform.escUrl)
  {
    image := image0;
    var i := 0;
    while i < |MetaFields|
      invariant 0 <= i <= |MetaFields|
      invariant forall j :: 0 <= j < i ==> !MetaUsable(item, MetaFields[j], platform)
      invariant image == image0
    {
      var meta := Tag(item, MetaFields[i]);
      if Filled(meta) {
        var potentialImage := meta.value;
        if platform.isValidUrl(potentialImage) {
          FirstUsableMetaIs(item, MetaFields, platform, i);
          image := platform.escUrl(potentialImage);
          return;
        }
      }
      i := i + 1;
    }
  }
}
