# Image stitcher: layout, loading and image-source normalisation

This project models the two pieces of logic in the image-stitching web app:

- **The vertical stitch** done by `handleDownload` in `UrlImageStitcher`. It takes the
  chosen output width `W` and the natural size `(w, h)` of each preview image, in
  display order. The canvas is `W` wide and `Σ (W / w) · h` tall. Each image is drawn at
  `x = 0`, at a running `yOffset`, scaled to `W × h · (W / w)`. `StitchLayout.HandleDownload`
  is that method, with its `for` loop. Its invariant says the offset is the sum of the
  scaled heights of the images already drawn. The draw calls come back as a sequence of
  `DrawCall` records instead of going to a canvas context.
- **Loading the previews.** The component replaces its preview list only when every
  image loads through the image proxy (`Promise.all`). The list is then in gateway
  order. When submissions are made one at a time and any load fails, the list stays
  empty, because a successful gateway reply cleared it first (`ImageLoading`).
- **The proxy-notion route.** It turns the `src` of each `<img>` of a page into an
  absolute URL, or drops it (`NotionScrape`). The tests are ordered prefix tests:
  1. missing or empty: dropped;
  2. `/image…`: put on `https://www.notion.so`;
  3. `http…`: kept as is;
  4. `//…`: given `https:`;
  5. anything else: resolved against the page URL.

  A missing or empty `url` parameter gives status 400.

Arithmetic is over `real`, with no floating-point rounding.

These things are parameters of the model rather than part of it:
- Reference resolution by `new URL(src, base)`, as the WHATWG URL parser does it. It
  is the function parameter `resolve`, and `None` stands for a throw.
- Fetching and parsing the page. It is the parameter `fetchPage`, which gives the list
  of `src` attributes.
- The answers of the image proxy and of the gateway. They are values: `ProxyReply` for
  each position and `GatewayReply`.

## Model

| member | source | states |
|---|---|---|
| `StitchLayout.ScaledHeight` | src/components/UrlImageStitcher.tsx:97-98 | the scaled height keeps the aspect ratio (`drawH · w == h · W`) and is non-negative for a non-negative width and height |
| `StitchLayout.CanvasHeight` | src/components/UrlImageStitcher.tsx:85 | the canvas height (the left-to-right `reduce` from 0) is non-negative when the width and every height are |
| `StitchLayout.HandleDownload` | src/components/UrlImageStitcher.tsx:66-100 | it fails exactly when there are no preview images. Otherwise the canvas is `W` wide and `CanvasHeight` tall, and it has one draw call per image, in preview order. Draw `i` is at x = 0, at the exclusive prefix sum of the earlier scaled heights, `W` wide and scaled-height tall. The last row ends at the canvas height |
| `StitchLayout.RowsAbut` | src/components/UrlImageStitcher.tsx:90-99 | row `i` ends exactly where row `i + 1` starts (no gap, no overlap) |
| `StitchLayout.RowsFillCanvas` | src/components/UrlImageStitcher.tsx:85-99 | the last row ends at the canvas height, so the final running offset equals the height |
| `StitchLayout.RowKeepsAspectRatio` | src/components/UrlImageStitcher.tsx:92-98 | row `i` draws image `i` at x = 0 with width `W`, and its height-to-width ratio is the image's own |
| `StitchLayout.CanvasHeightAppend` | src/components/UrlImageStitcher.tsx:85 | the canvas height of a concatenation of image lists is the sum of their heights |
| `StitchLayout.PrefixHeightMonotone` | src/components/UrlImageStitcher.tsx:90-99 | for a non-negative width and heights, the running offset never decreases |
| `StitchLayout.RowsDoNotOverlap` | src/components/UrlImageStitcher.tsx:91-99 | for a non-negative width and heights, every earlier row ends at or above the start of every later row |
| `ImageLoading.HandleImageLoad` | src/components/UrlImageStitcher.tsx:119-134 | a load succeeds exactly when the proxy answered with `ok` and its body was read, and it then yields that response's object URL. A network or body-read failure is a network error; a non-2xx status is an error carrying the status |
| `ImageLoading.LoadAll` | src/components/UrlImageStitcher.tsx:40 | `Promise.all` over the loads yields a list exactly when every load succeeds. That list has one object URL per gateway URL, at that URL's position |
| `ImageLoading.FetchImages` | src/components/UrlImageStitcher.tsx:17-33 | a failed gateway call leaves the view unchanged. A successful one stores the URL list and clears the preview list |
| `ImageLoading.FetchAllImages` | src/components/UrlImageStitcher.tsx:35-50 | an empty URL list, or any failed load, leaves the preview list as it was. Otherwise the preview list becomes the loaded object URLs |
| `ImageLoading.SubmitIsAllOrNothing` | src/components/UrlImageStitcher.tsx:24-47 | after a successful gateway reply and its own loads, with no other submission in between, the preview list is empty exactly when there were no URLs or some load failed. Otherwise it holds the i-th reply's object URL at position i, for every URL |
| `NotionScrape.AbsoluteSrc` | src/app/api/proxy-notion/route.ts:18-32 | only resolution against the page can throw. An empty result comes only from a missing or empty `src`, or from the resolver |
| `NotionScrape.MissingSrcMapsToEmpty` | src/app/api/proxy-notion/route.ts:19-20 | a missing or empty `src` maps to the empty string |
| `NotionScrape.NotionImagePathFirst` | src/app/api/proxy-notion/route.ts:21-23 | a `src` beginning with `/image` becomes `https://www.notion.so` + `src`, before any other test |
| `NotionScrape.HttpSrcPassesThrough` | src/app/api/proxy-notion/route.ts:26-27 | a `src` beginning with `http` is returned unchanged (a plain prefix test, so a relative name such as `http-logo.png` is kept unresolved too) |
| `NotionScrape.NetworkPathGetsHttps` | src/app/api/proxy-notion/route.ts:28-29 | a `src` beginning with `//` becomes `https:` + `src` |
| `NotionScrape.OtherSrcResolvedAgainstPage` | src/app/api/proxy-notion/route.ts:30-31 | any other non-empty `src` gives exactly what resolving it against the page URL gives |
| `NotionScrape.MapSrcs` | src/app/api/proxy-notion/route.ts:18-32 | the map fails exactly when some element's resolution throws. Otherwise it has one entry per element, and entry `i` is element `i`'s normalised `src` |
| `NotionScrape.DropEmpty` | src/app/api/proxy-notion/route.ts:33 | the filter never lengthens the list. Its result holds no empty string and holds exactly the non-empty entries of its input |
| `NotionScrape.DropEmptyAppend` | src/app/api/proxy-notion/route.ts:33 | filtering a concatenation is concatenating the filtered parts, so relative order is kept |
| `NotionScrape.DropEmptyKeepsNonEmpty` | src/app/api/proxy-notion/route.ts:33 | a list without empty strings passes the filter unchanged |
| `NotionScrape.ImageUrls` | src/app/api/proxy-notion/route.ts:16-33 | the image list fails exactly when some resolution throws. Otherwise it is no longer than the number of `<img>` elements and contains no empty string |
| `NotionScrape.ImageUrlsContents` | src/app/api/proxy-notion/route.ts:18-33 | a URL is in the route's list exactly when it is non-empty and is the normalised `src` of some `<img>` element |
| `NotionScrape.ImageUrlsSingle` | src/app/api/proxy-notion/route.ts:18-33 | one `<img>` whose normalised `src` is non-empty contributes exactly that one URL |
| `NotionScrape.MapSrcsAppend` | src/app/api/proxy-notion/route.ts:18-32 | the map of a concatenation of elements is the concatenation of the maps, so document order is kept |
| `NotionScrape.ImageUrlsAppend` | src/app/api/proxy-notion/route.ts:16-33 | the image list of a concatenation of elements is the concatenation of their lists, so document order is kept |
| `NotionScrape.MissingSrcContributesNothing` | src/app/api/proxy-notion/route.ts:18-33 | inserting an `<img>` with a missing or empty `src` anywhere leaves the image list unchanged |
| `NotionScrape.Get` | src/app/api/proxy-notion/route.ts:4-40 | the status is 400 with the "URL parameter is required" body exactly when `url` is missing or empty. It is 500 with the "Failed to fetch or parse HTML" body exactly when `url` is given and fetching, parsing or resolving throws. When the page is fetched and every `src` resolves, the response is 200 with the page's image list |

## Left out

- Browser APIs are left out, because they are foreign calls:
  - the null checks on the preview container and the 2D context (UrlImageStitcher.tsx:52-62);
  - `canvas.toBlob`, object-URL handling and the hidden download anchor (103-116).
  The model stops at the draw calls.
- Reading the natural sizes through `Image.onload` (71-81) is left out. The sizes are an
  input, so a failing `onerror` there, which aborts the handler, is not modelled.
- Floating-point rounding and the browser's integer conversion of `canvas.height` are
  left out. Arithmetic is over `real`.
- A zero natural width would divide by zero. `Measurable` requires every width to be
  positive.
- The `parseInt` of the width input (line 164) and its `min`/`max` hints (161-162) are
  left out. The width is any real number.
- React scheduling is left out: `useState` batching, when `useEffect` runs, and the
  `isLoading` flag. Every successful gateway answer triggers the load effect, because
  it stores a new array; a failed one never calls `setPreLoadImages`, so the effect
  does not run.
- The network and the concurrency of `Promise.all` are left out. Replies are given per
  position, so the order in which loads complete cannot be expressed. Only the ordered,
  all-or-nothing outcome is modelled. Which error `Promise.all` rejects with is not
  kept, because the component only logs it.
- SubmitIsAllOrNothing: submissions are treated as sequential. The effect has no
  cleanup, so a `Promise.all` from an earlier submission that settles after a newer
  submission cleared the list would fill it with the earlier images; the model does
  not capture that interleaving.
- A failed `response.blob()` after an ok proxy reply (UrlImageStitcher.tsx:127) is
  folded into `NetworkFailure`: `Reply(true, …)` stands only for a reply whose body
  was read.
- Anything that throws in `fetchImages` is one `GatewayFailure`. That covers a non-2xx
  reply and a JSON failure alike.
- In the proxy-notion route, `fetch`, `response.text()` and HTML parsing by
  `node-html-parser` are the parameter `fetchPage`. The route does not check the page's
  HTTP status, so `fetchPage` fails only when fetching or parsing throws.
- The internals of `new URL(src, base)` are left out. It is the parameter `resolve`.
- The image-bytes proxy (src/app/api/proxy-image/route.ts) and the forwarding gateway
  (src/app/api/fetch-images/route.ts) are left out. They are request plumbing with no
  logic beyond pass-through.
- The page layout and the styling config are left out.
