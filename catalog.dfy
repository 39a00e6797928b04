/**
 * The Apple Music catalog service: ISRC search, equivalent-id lookup and the
 * iTunes text search. Each operation is a decision over what the rate-limited
 * call settled with (`Reply`); logging is dropped.
 */
module Catalog {
  import opened Text
  import opened Http

  /**
   * An `AppleSong` as the converter reads it: its id and the two attributes
   * it compares. An attribute the server left out is `None`.
   */
  datatype Song = Song(id: string, albumName: Option<string>, artistName: Option<string>)

  /** The body of a catalog song query; its `data` member may be missing. */
  datatype SongList = SongList(data: Option<seq<Song>>)

  /** One entry of the iTunes search API's `results`. */
  datatype ItunesItem = ItunesItem(
    trackId: string,
    trackName: Option<string>,
    artistName: Option<string>,
    collectionName: Option<string>,
    trackViewUrl: Option<string>)

  /** The body of an iTunes search; its `results` member may be missing. */
  datatype SearchBody = SearchBody(results: Option<seq<ItunesItem>>)

  /** `{ results: [] }`. */
  const NoResults: SearchBody := SearchBody(Some([]))

  /** The ISRC query URL. The country code goes in unencoded, the ISRC encoded. */
  function IsrcSearchUrl(country: string, encode: string -> string, isrc: string): string
  {
    "https://amp-api.music.apple.com/v1/catalog/" + country + "/songs?filter[isrc]=" + encode(isrc)
  }

  /** The equivalents query URL. Both the country code and the id are encoded. */
  function EquivalentsUrl(country: string, encode: string -> string, songId: string): string
  {
    "https://amp-api.music.apple.com/v1/catalog/" + encode(country) + "/songs?filter[equivalents]=" + encode(songId)
  }

  /** A reply that is an ok response whose body parsed. */
  predicate OkJson<B>(reply: Reply<B>)
  {
    reply.Returned? && reply.value.Ok() && reply.value.body.Json?
  }

  /**
   * `searchByIsrc`: never throws. An ok response gives its `data` (or nothing
   * when `data` is missing); a failed response, a body that does not parse or
   * a thrown error gives no songs.
   */
  function SearchByIsrc(reply: Reply<SongList>): (songs: seq<Song>)
    ensures songs != [] ==> OkJson(reply) && reply.value.body.value.data == Some(songs)
    ensures OkJson(reply) && reply.value.body.value.data.Some? ==>
              songs == reply.value.body.value.data.value
  {
    match reply
    case Raised(_) => []
    case Returned(response) =>
      if !response.Ok() then []
      else match response.body
        case NotJson => []
        case Json(list) => if list.data.Some? then list.data.value else []
  }

  /**
   * `getEquivalentSongId`: the id of the first song an ok response lists, and
   * `songId` itself in every other case, errors included.
   */
  function GetEquivalentSongId(songId: string, reply: Reply<SongList>): (id: string)
    ensures id != songId ==> OkJson(reply)
    ensures OkJson(reply) && reply.value.body.value.data.Some? && reply.value.body.value.data.value != [] ==>
              id == reply.value.body.value.data.value[0].id
    ensures !(OkJson(reply) && reply.value.body.value.data.Some? && reply.value.body.value.data.value != []) ==>
              id == songId
  {
    match reply
    case Raised(_) => songId
    case Returned(response) =>
      if response.Ok() && response.body.Json?
         && response.body.value.data.Some? && |response.body.value.data.value| > 0
      then response.body.value.data.value[0].id
      else songId
  }

  /**
   * `textSearch`: an ok response gives its parsed body, a 404 gives empty
   * results, and any other status throws. A thrown error is rethrown.
   */
  function TextSearch(reply: Reply<SearchBody>): (r: Settled<SearchBody>)
    ensures reply.Raised? ==> r == Raised(reply.error)
    ensures OkJson(reply) ==> r == Returned(reply.value.body.value)
    ensures reply.Returned? && reply.value.status == 404 ==> r == Returned(NoResults)
    ensures r.Returned? <==> OkJson(reply) || (reply.Returned? && reply.value.status == 404)
  {
    match reply
    case Raised(e) => Raised(e)
    case Returned(response) =>
      if response.Ok() then
        match response.body
        case Json(body) => Returned(body)
        case NotJson => Raised(Some(OtherError("body is not JSON")))
      else if response.status == 404 then Returned(NoResults)
      else Raised(Some(OtherError("HTTP error status")))
  }

  /** The URL every text-search variant starts with. */
  function SearchBase(country: string, encode: string -> string, title: string): string
  {
    "https://itunes.apple.com/search?country=" + country
      + "&media=music&entity=song&limit=15&term=" + encode(title)
  }

  function ArtistTerm(encode: string -> string, artist: string): string
  {
    "&artistTerm=" + encode(artist)
  }

  function AlbumTerm(encode: string -> string, album: string): string
  {
    "&albumTerm=" + encode(album)
  }

  /**
   * The four search variants, most specific first: title with artist and
   * album, title with artist, title with album, title alone.
   */
  function SearchUrls(country: string, encode: string -> string, title: string, artist: string, album: string): (urls: seq<string>)
    ensures |urls| == 4
    ensures forall k :: 0 <= k < 4 ==> StartsWith(urls[k], SearchBase(country, encode, title))
    ensures forall k :: 0 <= k < 4 ==>
              urls[k] == SearchBase(country, encode, title)
                         + (if k < 2 then ArtistTerm(encode, artist) else "")
                         + (if k % 2 == 0 then AlbumTerm(encode, album) else "")
  {
    var base := SearchBase(country, encode, title);
    var urls := [base + ArtistTerm(encode, artist) + AlbumTerm(encode, album),
                 base + ArtistTerm(encode, artist),
                 base + AlbumTerm(encode, album),
                 base];
    assert forall k :: 0 <= k < 4 ==> urls[k][..|base|] == base;
    urls
  }

  /** A reply `searchByText` returns: ok, parsed, with at least one result. */
  predicate Hit(reply: Reply<SearchBody>)
  {
    OkJson(reply) && reply.value.body.value.results.Some? && reply.value.body.value.results.value != []
  }

  /** A reply that ends `searchByText` with empty results: a 404. */
  predicate NotFound404(reply: Reply<SearchBody>)
  {
    reply.Returned? && !reply.value.Ok() && reply.value.status == 404
  }

  /** What `searchByText` returns, and how many of the variant URLs it called. */
  datatype TextSearchRun = TextSearchRun(body: SearchBody, calls: nat)

  /**
   * The variant loop of `searchByText` over `urls`: the first hit is
   * returned, a 404 ends the search with empty results, and every other
   * reply (another status, a body that does not parse, a thrown error) moves
   * on to the next URL. Running out of URLs gives empty results.
   */
  function SearchVariants(get: string -> Reply<SearchBody>, urls: seq<string>): (r: TextSearchRun)
    ensures r.calls <= |urls|
    ensures forall k :: 0 <= k < r.calls - 1 ==> !Hit(get(urls[k])) && !NotFound404(get(urls[k]))
    ensures r.calls < |urls| ==> r.calls >= 1 && (Hit(get(urls[r.calls - 1])) || NotFound404(get(urls[r.calls - 1])))
    ensures r.calls >= 1 && Hit(get(urls[r.calls - 1])) ==> r.body == get(urls[r.calls - 1]).value.body.value
    ensures !(r.calls >= 1 && Hit(get(urls[r.calls - 1]))) ==> r.body == NoResults
  {
    if urls == [] then TextSearchRun(NoResults, 0)
    else
      var reply := get(urls[0]);
      if Hit(reply) then TextSearchRun(reply.value.body.value, 1)
      else if NotFound404(reply) then TextSearchRun(NoResults, 1)
      else
        var rest := SearchVariants(get, urls[1..]);
        TextSearchRun(rest.body, rest.calls + 1)
  }

  /** Every URL before index `k` answered neither with a hit nor with a 404. */
  predicate FallsThrough(get: string -> Reply<SearchBody>, urls: seq<string>, k: nat)
    requires k <= |urls|
  {
    forall j :: 0 <= j < k ==> !Hit(get(urls[j])) && !NotFound404(get(urls[j]))
  }

  /**
   * `searchByText`: the variant loop over the four search URLs. It calls one
   * to four of them, and returns results only when the last one called was a
   * hit, whose body it returns. Conversely, the first hit not preceded by a
   * hit or a 404 is the last call made, and its body is the result.
   */
  function SearchByText(get: string -> Reply<SearchBody>, country: string, encode: string -> string,
                        title: string, artist: string, album: string): (r: TextSearchRun)
    ensures 1 <= r.calls <= 4
    ensures var urls := SearchUrls(country, encode, title, artist, album);
            r.body != NoResults ==> Hit(get(urls[r.calls - 1])) && r.body == get(urls[r.calls - 1]).value.body.value
    ensures var urls := SearchUrls(country, encode, title, artist, album);
            forall k :: 0 <= k < 4 && Hit(get(urls[k])) && FallsThrough(get, urls, k) ==>
              r.calls == k + 1 && r.body == get(urls[k]).value.body.value
  {
    SearchVariants(get, SearchUrls(country, encode, title, artist, album))
  }

  /**
   * `searchByText` calls at most four URLs. A 404 stops it at once: no URL
   * after the one that answered 404 is called.
   */
  lemma SearchByTextBounds(get: string -> Reply<SearchBody>, country: string, encode: string -> string,
                           title: string, artist: string, album: string)
    ensures var r := SearchByText(get, country, encode, title, artist, album);
            var urls := SearchUrls(country, encode, title, artist, album);
            && 1 <= r.calls <= 4
            && (forall k :: 0 <= k < r.calls && NotFound404(get(urls[k])) ==> k == r.calls - 1 && r.body == NoResults)
  {
  }

  /**
   * When every variant falls through (no hit and no 404), all four URLs are
   * called and the results are empty.
   */
  lemma {:induction false} AllVariantsFail(get: string -> Reply<SearchBody>, urls: seq<string>)
    requires forall k :: 0 <= k < |urls| ==> !Hit(get(urls[k])) && !NotFound404(get(urls[k]))
    ensures SearchVariants(get, urls) == TextSearchRun(NoResults, |urls|)
  {
    if urls != [] {
      assert forall k :: 0 <= k < |urls[1..]| ==> urls[1..][k] == urls[k + 1];
      AllVariantsFail(get, urls[1..]);
    }
  }
}
