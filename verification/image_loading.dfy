/**
 * How UrlImageStitcher turns the gateway's list of image URLs into the list of
 * preview images it displays: every URL is loaded through the image proxy, and the
 * displayed list is replaced only when every load succeeded (`Promise.all`).
 *
 * React state hooks become a `View` value and the asynchronous steps become
 * functions from the old view and the replies received to the new view. Replies are
 * indexed by the position of the URL they answer, so the order in which loads
 * complete does not appear in the model: only positions do. Submissions are taken
 * one at a time: the loads of one submission settle before the next one starts.
 */
module ImageLoading {
  import opened Wrappers

  /** What the image proxy answered for one image URL: the request failed outright
      (`NetworkFailure`, which also stands for a failed read of an ok response's body),
      or a response arrived with its `ok` flag, status, and (when read) the object URL
      that `URL.createObjectURL` gives for its body. */
  datatype ProxyReply = NetworkFailure | Reply(ok: bool, status: int, objectUrl: string)

  /** Why one image load threw. */
  datatype LoadError = NetworkError | HttpError(status: int)

  /** What the gateway route answered for the page URL. */
  datatype GatewayReply = GatewayFailure | GatewayImages(images: seq<string>)

  /** The component's two image lists: the gateway URLs to load, and the object URLs
      shown in the preview. */
  datatype View = View(preLoadImages: seq<string>, images: seq<string>)

  /** `handleImageLoad`: an object URL for the proxied bytes when the proxy answered
      with a 2xx status, and an error otherwise. */
  function HandleImageLoad(reply: ProxyReply): (r: Result<string, LoadError>)
    ensures r.Success? <==> reply.Reply? && reply.ok
    ensures r.Success? ==> r.value == reply.objectUrl
    ensures reply.NetworkFailure? ==> r == Failure(NetworkError)
    ensures reply.Reply? && !reply.ok ==> r == Failure(HttpError(reply.status))
  {
    match reply
    case NetworkFailure => Failure(NetworkError)
    case Reply(ok, status, objectUrl) =>
      if !ok then Failure(HttpError(status)) else Success(objectUrl)
  }

  /** Every load in `replies` succeeds. */
  predicate AllLoaded(replies: seq<ProxyReply>)
  {
    forall i :: 0 <= i < |replies| ==> HandleImageLoad(replies[i]).Success?
  }

  /** `Promise.all(preLoadImages.map(handleImageLoad))`, where `replies[i]` is the
      proxy's answer for the i-th URL: the object URLs in URL order when every load
      succeeds, and nothing when any one fails. */
  function LoadAll(replies: seq<ProxyReply>): (r: Option<seq<string>>)
    ensures r.Some? <==> AllLoaded(replies)
    ensures r.Some? ==> |r.value| == |replies|
    ensures r.Some? ==> forall i :: 0 <= i < |replies| ==> r.value[i] == replies[i].objectUrl
    decreases |replies|
  {
    if replies == [] then Some([])
    else
      match HandleImageLoad(replies[0])
      case Failure(_) => None
      case Success(first) =>
        match LoadAll(replies[1..])
        case None => None
        case Some(rest) => Some([first] + rest)
  }

  /** `fetchImages`: on a gateway failure the error is only logged and the view is
      unchanged; otherwise the new URL list is stored and the preview list cleared. */
  function FetchImages(v: View, reply: GatewayReply): (v': View)
    ensures reply.GatewayFailure? ==> v' == v
    ensures reply.GatewayImages? ==> v'.preLoadImages == reply.images && v'.images == []
  {
    match reply
    case GatewayFailure => v
    case GatewayImages(urls) => View(urls, [])
  }

  /** The effect that runs when `preLoadImages` changes: nothing happens for an empty
      list; otherwise the preview list becomes the loaded object URLs when every load
      succeeded, and stays as it was when any load threw. `replies[i]` answers the
      load of `v.preLoadImages[i]`. */
  function FetchAllImages(v: View, replies: seq<ProxyReply>): (v': View)
    requires |replies| == |v.preLoadImages|
    ensures v'.preLoadImages == v.preLoadImages
    ensures v.preLoadImages == [] || !AllLoaded(replies) ==> v'.images == v.images
    ensures v.preLoadImages != [] && AllLoaded(replies) ==> v'.images == LoadAll(replies).value
  {
    if |v.preLoadImages| == 0 then v
    else
      match LoadAll(replies)
      case None => v
      case Some(loaded) => View(v.preLoadImages, loaded)
  }

  /** A successful gateway reply followed by its own loads, with no other submission
      in between, leaves the preview list either empty (no URLs, or some load failed)
      or holding one object URL per gateway URL, in gateway order. */
  lemma SubmitIsAllOrNothing(v: View, urls: seq<string>, replies: seq<ProxyReply>)
    requires |replies| == |urls|
    ensures var v' := FetchAllImages(FetchImages(v, GatewayImages(urls)), replies);
      v'.preLoadImages == urls &&
      (v'.images == [] <==> urls == [] || !AllLoaded(replies)) &&
      (v'.images != [] ==>
        |v'.images| == |urls| && forall i :: 0 <= i < |urls| ==> v'.images[i] == replies[i].objectUrl)
  {
  }
}
