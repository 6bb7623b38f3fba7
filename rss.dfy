/** rss.FetchFeed: the URL gates, the HTTP and decoding gates, and the
    in-place HTML-unescape pass over the decoded channel and its items. The
    HTTP exchange and the XML decoding are library calls; their outcome is the
    `Exchange` the caller passes in. */
module Rss {
  import opened Common

  datatype RssItem = RssItem(title: string, link: string, description: string, pubDate: string)

  datatype RssFeed = RssFeed(title: string, link: string, description: string, items: seq<RssItem>)

  /** What reading and decoding the response body gives. */
  datatype Body = Unreadable | Undecodable | Decoded(doc: RssFeed)

  /** The outcome of building and sending the one GET request. */
  datatype Exchange = RequestRejected | SendFailed | Response(status: int, body: Body)

  function UnescapedItem(unescape: string -> string, it: RssItem): RssItem {
    it.(title := unescape(it.title), description := unescape(it.description))
  }

  /** The decoded document after the unescape pass: channel title and
      description and every item's title and description are unescaped; links,
      publication dates, the number of items and their order are kept. */
  function Unescaped(unescape: string -> string, d: RssFeed): (r: RssFeed)
    ensures r.title == unescape(d.title) && r.description == unescape(d.description) && r.link == d.link
    ensures |r.items| == |d.items|
    ensures forall i | 0 <= i < |d.items| ::
      && r.items[i].title == unescape(d.items[i].title)
      && r.items[i].description == unescape(d.items[i].description)
      && r.items[i].link == d.items[i].link
      && r.items[i].pubDate == d.items[i].pubDate
  {
    RssFeed(unescape(d.title), d.link, unescape(d.description),
            seq(|d.items|, i requires 0 <= i < |d.items| => UnescapedItem(unescape, d.items[i])))
  }

  /** What FetchFeed returns once the URL has passed its gates. */
  function Received(unescape: string -> string, ex: Exchange): Result<RssFeed, FetchError> {
    match ex
    case RequestRejected => Err(RequestNotBuilt)
    case SendFailed => Err(NotSent)
    case Response(status, body) =>
      if status > 299 then Err(HttpStatus(status))
      else match body
        case Unreadable => Err(BodyNotRead)
        case Undecodable => Err(NotDecoded)
        case Decoded(d) => Ok(Unescaped(unescape, d))
  }

  /** What FetchFeed(feedURL) returns. */
  function Fetched(lib: Lib, feedUrl: string, ex: Exchange): (r: Result<RssFeed, FetchError>)
    // The empty URL is refused before it is parsed or any request is made.
    ensures feedUrl == "" ==> r == Err(EmptyFeedUrl)
    // A URL that does not parse, or lacks a scheme or a host, is refused before any request.
    ensures feedUrl != "" && !IsValidUrl(lib.parseUrl, feedUrl) ==> r == Err(InvalidFeedUrl)
    // A status above 299 is an error whatever the body holds: the body is never decoded.
    ensures feedUrl != "" && IsValidUrl(lib.parseUrl, feedUrl) && ex.Response? && ex.status > 299 ==>
      r == Err(HttpStatus(ex.status))
    // Success exactly when the gates pass and the body decodes; the document is then unescaped.
    ensures r.Ok? <==>
      feedUrl != "" && IsValidUrl(lib.parseUrl, feedUrl) && ex.Response? && ex.status <= 299 && ex.body.Decoded?
    ensures r.Ok? ==> r.value == Unescaped(lib.unescapeHtml, ex.body.doc)
  {
    if feedUrl == "" then Err(EmptyFeedUrl)
    else if !IsValidUrl(lib.parseUrl, feedUrl) then Err(InvalidFeedUrl)
    else Received(lib.unescapeHtml, ex)
  }

  /** A URL the handlers accept (isValidUrl) always gets past FetchFeed's URL
      gates, so what happens to it depends on the network alone. */
  lemma ValidUrlReachesNetwork(lib: Lib, feedUrl: string, ex: Exchange)
    requires ParsesEmptyUrlAsEmpty(lib)
    requires IsValidUrl(lib.parseUrl, feedUrl)
    ensures Fetched(lib, feedUrl, ex) == Received(lib.unescapeHtml, ex)
  {
  }

  method FetchFeed(lib: Lib, feedUrl: string, ex: Exchange) returns (r: Result<RssFeed, FetchError>)
    ensures r == Fetched(lib, feedUrl, ex)
  {
    if feedUrl == "" {
      return Err(EmptyFeedUrl);
    }
    var u := lib.parseUrl(feedUrl);
    if u.None? || u.value.scheme == "" || u.value.host == "" {
      return Err(InvalidFeedUrl);
    }
    if ex.RequestRejected? {
      return Err(RequestNotBuilt);
    }
    if ex.SendFailed? {
      return Err(NotSent);
    }
    if ex.status > 299 {
      return Err(HttpStatus(ex.status));
    }
    if ex.body.Unreadable? {
      return Err(BodyNotRead);
    }
    if ex.body.Undecodable? {
      return Err(NotDecoded);
    }
    var doc := ex.body.doc;
    doc := doc.(title := lib.unescapeHtml(doc.title));
    doc := doc.(description := lib.unescapeHtml(doc.description));
    var items := doc.items;
    for i := 0 to |items|
      invariant |items| == |ex.body.doc.items|
      invariant forall k | 0 <= k < i :: items[k] == UnescapedItem(lib.unescapeHtml, ex.body.doc.items[k])
      invariant forall k | i <= k < |items| :: items[k] == ex.body.doc.items[k]
    {
      items := items[i := items[i].(title := lib.unescapeHtml(items[i].title))];
      items := items[i := items[i].(description := lib.unescapeHtml(items[i].description))];
    }
    doc := doc.(items := items);
    assert doc.items == Unescaped(lib.unescapeHtml, ex.body.doc).items;
    return Ok(doc);
  }
}
