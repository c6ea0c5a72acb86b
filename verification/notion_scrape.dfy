/**
 * The proxy-notion route: given a page URL it fetches the page, takes the `src`
 * attribute of every `<img>` element in document order, turns each into an absolute
 * URL (or drops it), and answers with the list as JSON.
 *
 * Fetching and parsing the page are a parameter `fetchPage` (the `src` attribute of
 * each `<img>` element, in document order, or None when fetching or parsing threw).
 * `new URL(src, base).href`, the WHATWG URL parser's reference resolution, is a
 * parameter `resolve` (None when the constructor throws).
 */
module NotionScrape {
  import opened Wrappers

  /** The origin prefixed to Notion's own root-relative image paths. */
  const NotionOrigin: string := "https://www.notion.so"

  /** `new URL(reference, base).href`, or None when it throws. */
  type Resolver = (string, string) -> Option<string>

  /** Fetch the page at a URL and list the `src` attribute of its `<img>` elements
      (None for an element without one); None when fetching or parsing throws. */
  type PageFetcher = string -> Option<seq<Option<string>>>

  /** The JSON body of a response. */
  datatype Body = ErrorBody(error: string) | ImagesBody(images: seq<string>)

  /** A response: HTTP status and JSON body. */
  datatype Response = Response(status: int, body: Body)

  /** The callback of `imgElements.map(...)`: the absolute URL for one `src`, "" for a
      missing or empty one, None when resolving it against the page threw. The tests
      are case-sensitive prefix tests applied in order. The `startsWith('https')`
      alternative of the pass-through test is dead, since every string beginning with
      "https" begins with "http"; and a relative file name such as "http-logo.png" is
      passed through unresolved. */
  function AbsoluteSrc(src: Option<string>, pageUrl: string, resolve: Resolver): (r: Option<string>)
    ensures r.None? ==> src.Some? && r == resolve(src.value, pageUrl)
    ensures r == Some("") ==> src.None? || src.value == "" || Some("") == resolve(src.value, pageUrl)
  {
    match src
    case None => Some("")
    case Some(s) =>
      if s == "" then Some("")
      else if "/image" <= s then Some(NotionOrigin + s)
      else if "http" <= s || "https" <= s then Some(s)
      else if "//" <= s then Some("https:" + s)
      else resolve(s, pageUrl)
  }

  /** A missing or empty `src` maps to "", which the filter then removes. */
  lemma MissingSrcMapsToEmpty(src: Option<string>, pageUrl: string, resolve: Resolver)
    requires src.None? || src == Some("")
    ensures AbsoluteSrc(src, pageUrl, resolve) == Some("")
  {
  }

  /** A `src` beginning with "/image" (so also "/images/...") is put on the Notion
      origin, whatever the later tests would say about it. */
  lemma NotionImagePathFirst(s: string, pageUrl: string, resolve: Resolver)
    requires "/image" <= s
    ensures AbsoluteSrc(Some(s), pageUrl, resolve) == Some(NotionOrigin + s)
  {
  }

  /** A `src` beginning with "http" is returned unchanged (it cannot begin with
      "/image" as well). */
  lemma HttpSrcPassesThrough(s: string, pageUrl: string, resolve: Resolver)
    requires "http" <= s
    ensures AbsoluteSrc(Some(s), pageUrl, resolve) == Some(s)
  {
    assert s[0] == 'h';
  }

  /** A network-path reference (section 4.2 of RFC 3986) gets the fixed scheme
      "https:". */
  lemma NetworkPathGetsHttps(s: string, pageUrl: string, resolve: Resolver)
    requires "//" <= s
    ensures AbsoluteSrc(Some(s), pageUrl, resolve) == Some("https:" + s)
  {
    assert s[1] == '/';
  }

  /** Any other non-empty `src` is resolved against the page URL. */
  lemma OtherSrcResolvedAgainstPage(s: string, pageUrl: string, resolve: Resolver)
    requires s != "" && !("/image" <= s) && !("http" <= s) && !("//" <= s)
    ensures AbsoluteSrc(Some(s), pageUrl, resolve) == resolve(s, pageUrl)
  {
  }

  /** `imgElements.map(...)`: one entry per element, in document order; None as soon
      as any element's resolution throws. */
  function MapSrcs(srcs: seq<Option<string>>, pageUrl: string, resolve: Resolver): (r: Option<seq<string>>)
    ensures r.None? <==> exists i :: 0 <= i < |srcs| && AbsoluteSrc(srcs[i], pageUrl, resolve).None?
    ensures r.Some? ==> |r.value| == |srcs|
    ensures r.Some? ==> forall i :: 0 <= i < |srcs| ==> AbsoluteSrc(srcs[i], pageUrl, resolve) == Some(r.value[i])
    decreases |srcs|
  {
    if srcs == [] then Some([])
    else
      match AbsoluteSrc(srcs[0], pageUrl, resolve)
      case None => None
      case Some(first) =>
        match MapSrcs(srcs[1..], pageUrl, resolve)
        case None => None
        case Some(rest) => Some([first] + rest)
  }

  /** `.filter(url => url !== '')`: the non-empty entries, in their order. */
  function DropEmpty(urls: seq<string>): (r: seq<string>)
    ensures |r| <= |urls|
    ensures "" !in r
    ensures forall u :: u in r <==> u in urls && u != ""
    decreases |urls|
  {
    if urls == [] then []
    else (if urls[0] == "" then [] else [urls[0]]) + DropEmpty(urls[1..])
  }

  /** The filter keeps relative order: filtering a concatenation is concatenating the
      filtered parts. */
  lemma {:induction false} DropEmptyAppend(a: seq<string>, b: seq<string>)
    ensures DropEmpty(a + b) == DropEmpty(a) + DropEmpty(b)
    decreases |a|
  {
    if a == [] {
      assert a + b == b;
    } else {
      var head := if a[0] == "" then [] else [a[0]];
      assert (a + b)[0] == a[0];
      assert (a + b)[1..] == a[1..] + b;
      calc {
        DropEmpty(a + b);
        head + DropEmpty(a[1..] + b);
        { DropEmptyAppend(a[1..], b); }
        head + (DropEmpty(a[1..]) + DropEmpty(b));
        (head + DropEmpty(a[1..])) + DropEmpty(b);
      }
    }
  }

  /** A list without empty strings passes the filter unchanged. */
  lemma {:induction false} DropEmptyKeepsNonEmpty(urls: seq<string>)
    requires "" !in urls
    ensures DropEmpty(urls) == urls
    decreases |urls|
  {
    if urls != [] {
      DropEmptyKeepsNonEmpty(urls[1..]);
    }
  }

  /** The image URLs of a page whose `<img>` elements have the attributes `srcs`. */
  function ImageUrls(srcs: seq<Option<string>>, pageUrl: string, resolve: Resolver): (r: Option<seq<string>>)
    ensures r.None? <==> exists i :: 0 <= i < |srcs| && AbsoluteSrc(srcs[i], pageUrl, resolve).None?
    ensures r.Some? ==> |r.value| <= |srcs| && "" !in r.value
  {
    match MapSrcs(srcs, pageUrl, resolve)
    case None => None
    case Some(mapped) => Some(DropEmpty(mapped))
  }

  /** The route's list holds exactly the non-empty normalised `src` values of the
      page's `<img>` elements. */
  lemma ImageUrlsContents(srcs: seq<Option<string>>, pageUrl: string, resolve: Resolver)
    requires ImageUrls(srcs, pageUrl, resolve).Some?
    ensures forall u :: u in ImageUrls(srcs, pageUrl, resolve).value <==>
      u != "" && exists i :: 0 <= i < |srcs| && AbsoluteSrc(srcs[i], pageUrl, resolve) == Some(u)
  {
  }

  /** One `<img>` whose normalised `src` is non-empty contributes exactly that URL. */
  lemma ImageUrlsSingle(src: Option<string>, pageUrl: string, resolve: Resolver)
    requires AbsoluteSrc(src, pageUrl, resolve).Some? && AbsoluteSrc(src, pageUrl, resolve).value != ""
    ensures ImageUrls([src], pageUrl, resolve) == Some([AbsoluteSrc(src, pageUrl, resolve).value])
  {
    var x := AbsoluteSrc(src, pageUrl, resolve).value;
    assert [src][0] == src && [src][1..] == [];
    assert MapSrcs([], pageUrl, resolve) == Some([]);
    assert [x] + [] == [x];
    assert MapSrcs([src], pageUrl, resolve) == Some([x]);
    assert [x][1..] == [];
    assert DropEmpty([x]) == [x];
  }

  /** The map keeps document order: mapping a concatenation of elements is
      concatenating the mapped parts. */
  lemma {:induction false} MapSrcsAppend(a: seq<Option<string>>, b: seq<Option<string>>, pageUrl: string, resolve: Resolver)
    ensures MapSrcs(a + b, pageUrl, resolve) ==
      if MapSrcs(a, pageUrl, resolve).Some? && MapSrcs(b, pageUrl, resolve).Some?
      then Some(MapSrcs(a, pageUrl, resolve).value + MapSrcs(b, pageUrl, resolve).value)
      else None
    decreases |a|
  {
    if a == [] {
      assert a + b == b;
      assert MapSrcs(a, pageUrl, resolve) == Some([]);
      var rb := MapSrcs(b, pageUrl, resolve);
      if rb.Some? {
        assert [] + rb.value == rb.value;
      }
    } else {
      assert (a + b)[0] == a[0];
      assert (a + b)[1..] == a[1..] + b;
      MapSrcsAppend(a[1..], b, pageUrl, resolve);
      var first := AbsoluteSrc(a[0], pageUrl, resolve);
      var ra, rb := MapSrcs(a[1..], pageUrl, resolve), MapSrcs(b, pageUrl, resolve);
      if first.Some? && ra.Some? && rb.Some? {
        assert [first.value] + (ra.value + rb.value) == ([first.value] + ra.value) + rb.value;
      }
    }
  }

  /** The route's list is in document order: the URLs of a concatenation of elements
      are the URLs of the first part followed by those of the second. */
  lemma ImageUrlsAppend(a: seq<Option<string>>, b: seq<Option<string>>, pageUrl: string, resolve: Resolver)
    ensures ImageUrls(a + b, pageUrl, resolve) ==
      if ImageUrls(a, pageUrl, resolve).Some? && ImageUrls(b, pageUrl, resolve).Some?
      then Some(ImageUrls(a, pageUrl, resolve).value + ImageUrls(b, pageUrl, resolve).value)
      else None
  {
    MapSrcsAppend(a, b, pageUrl, resolve);
    var ma, mb := MapSrcs(a, pageUrl, resolve), MapSrcs(b, pageUrl, resolve);
    if ma.Some? && mb.Some? {
      DropEmptyAppend(ma.value, mb.value);
    }
  }

  /** An `<img>` without a `src`, or with an empty one, contributes no entry. */
  lemma MissingSrcContributesNothing(a: seq<Option<string>>, src: Option<string>, b: seq<Option<string>>, pageUrl: string, resolve: Resolver)
    requires src.None? || src == Some("")
    ensures ImageUrls(a + [src] + b, pageUrl, resolve) == ImageUrls(a + b, pageUrl, resolve)
  {
    MissingSrcMapsToEmpty(src, pageUrl, resolve);
    assert [src][0] == src && [src][1..] == [];
    assert MapSrcs([], pageUrl, resolve) == Some([]);
    assert [""] + [] == [""];
    assert MapSrcs([src], pageUrl, resolve) == Some([""]);
    assert [""][1..] == [];
    assert DropEmpty([""]) == [];
    ImageUrlsAppend(a + [src], b, pageUrl, resolve);
    ImageUrlsAppend(a, [src], pageUrl, resolve);
    ImageUrlsAppend(a, b, pageUrl, resolve);
    var ua := ImageUrls(a, pageUrl, resolve);
    if ua.Some? {
      assert ua.value + [] == ua.value;
    }
  }

  /** The route handler `GET`: 400 when the `url` parameter is missing or empty, 500
      when fetching, parsing or resolving throws, and otherwise 200 with the image
      URLs. */
  function Get(urlParam: Option<string>, fetchPage: PageFetcher, resolve: Resolver): (r: Response)
    ensures r.status == 400 <==> urlParam.None? || urlParam.value == ""
    ensures r.status == 400 ==> r.body == ErrorBody("URL parameter is required")
    ensures r.status == 500 ==> r.body == ErrorBody("Failed to fetch or parse HTML")
    ensures r.status == 200 || r.status == 400 || r.status == 500
    ensures r.status == 200 <==> r.body.ImagesBody?
    ensures r.status == 200 ==>
      fetchPage(urlParam.value).Some? &&
      ImageUrls(fetchPage(urlParam.value).value, urlParam.value, resolve) == Some(r.body.images)
    ensures r.status == 500 <==>
      urlParam.Some? && urlParam.value != "" &&
      (fetchPage(urlParam.value).None? ||
       ImageUrls(fetchPage(urlParam.value).value, urlParam.value, resolve).None?)
    ensures (urlParam.Some? && urlParam.value != "" && fetchPage(urlParam.value).Some? &&
             ImageUrls(fetchPage(urlParam.value).value, urlParam.value, resolve).Some?) ==>
      r == Response(200, ImagesBody(ImageUrls(fetchPage(urlParam.value).value, urlParam.value, resolve).value))
  {
    match urlParam
    case None => Response(400, ErrorBody("URL parameter is required"))
    case Some(url) =>
      if url == "" then Response(400, ErrorBody("URL parameter is required"))
      else
        match fetchPage(url)
        case None => Response(500, ErrorBody("Failed to fetch or parse HTML"))
        case Some(srcs) =>
          match ImageUrls(srcs, url, resolve)
          case None => Response(500, ErrorBody("Failed to fetch or parse HTML"))
          case Some(urls) => Response(200, ImagesBody(urls))
  }
}
