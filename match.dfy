/**
 * Text-based matching against the iTunes search API: the five-way acceptance
 * test on one search result, the first-match scan over a search's results,
 * and the four-variant fallback chain of `getItunesId`. Fetching a result's
 * page to compare release dates is an uninterpreted oracle.
 */
module Match {
  import opened Text
  import opened Http
  import opened Catalog

  /** The track a row describes, after apostrophe escaping. */
  datatype Query = Query(title: string, artist: string, album: string, date: string)

  /**
   * The release-date check on a page: given a result's `trackViewUrl` and the
   * row's date, whether the page shows that release date.
   */
  type DateOracle = (string, string) -> bool

  /** `x?.toLowerCase()`: a missing member stays missing. */
  function LowerOpt(o: Option<string>): Option<string>
  {
    match o
    case None => None
    case Some(s) => Some(Lower(s))
  }

  /** `s.toLowerCase().replace(/\s/g, "")`. */
  function Squash(s: string): string
  {
    StripWhitespace(Lower(s))
  }

  /** `x?.toLowerCase().replace(/\s/g, "")`: a missing member stays missing. */
  function SquashOpt(o: Option<string>): Option<string>
  {
    match o
    case None => None
    case Some(s) => Some(Squash(s))
  }

  /** `o === s` with `o` possibly undefined: a missing member equals no string. */
  predicate Same(o: Option<string>, s: string)
  {
    o.Some? && o.value == s
  }

  /** `s === o`, the comparison written the other way round. */
  predicate SameMirrored(s: string, o: Option<string>)
  {
    o.Some? && s == o.value
  }

  /** Exact track, artist and album names, ignoring case. */
  predicate ExactTrackArtistAlbum(e: ItunesItem, q: Query)
  {
    && Same(LowerOpt(e.trackName), Lower(q.title))
    && Same(LowerOpt(e.artistName), Lower(q.artist))
    && Same(LowerOpt(e.collectionName), Lower(q.album))
  }

  /** `verifyReleaseDate`: a result without a (non-empty) page URL is never checked. */
  predicate ReleaseDateMatches(e: ItunesItem, date: string, oracle: DateOracle)
  {
    e.trackViewUrl.Some? && e.trackViewUrl.value != "" && oracle(e.trackViewUrl.value, date)
  }

  /** Exact track and artist names, ignoring case. */
  predicate ExactTrackArtist(e: ItunesItem, q: Query)
  {
    Same(LowerOpt(e.trackName), Lower(q.title)) && Same(LowerOpt(e.artistName), Lower(q.artist))
  }

  /** Exact track name, artist names equal once lower-cased and stripped of white space. */
  predicate ExactTrackLooseArtist(e: ItunesItem, q: Query)
  {
    && Same(LowerOpt(e.trackName), Lower(q.title))
    && (Same(SquashOpt(e.artistName), Squash(q.artist)) || SameMirrored(Squash(q.artist), SquashOpt(e.artistName)))
  }

  /**
   * The fifth test. As written it compares crosswise: the result's artist
   * name with the row's title, and the result's track name, stripped of white
   * space, with the row's artist.
   */
  predicate CrossedNames(e: ItunesItem, q: Query)
  {
    && Same(LowerOpt(e.artistName), Lower(q.title))
    && (Same(SquashOpt(e.trackName), Squash(q.artist)) || SameMirrored(Squash(q.artist), SquashOpt(e.trackName)))
  }

  /** The five-way disjunction `tryTextMatch` accepts a result on. */
  predicate Accepts(e: ItunesItem, q: Query, oracle: DateOracle)
  {
    || ExactTrackArtistAlbum(e, q)
    || ReleaseDateMatches(e, q.date, oracle)
    || ExactTrackArtist(e, q)
    || ExactTrackLooseArtist(e, q)
    || CrossedNames(e, q)
  }

  /** The first test implies the third, and the third implies the fourth. */
  lemma RulesNest(e: ItunesItem, q: Query)
    ensures ExactTrackArtistAlbum(e, q) ==> ExactTrackArtist(e, q)
    ensures ExactTrackArtist(e, q) ==> ExactTrackLooseArtist(e, q)
  {
  }

  /** Hence acceptance needs only the release date, the fourth or the fifth test. */
  lemma AcceptsReduced(e: ItunesItem, q: Query, oracle: DateOracle)
    ensures Accepts(e, q, oracle) <==>
              ReleaseDateMatches(e, q.date, oracle) || ExactTrackLooseArtist(e, q) || CrossedNames(e, q)
  {
    RulesNest(e, q);
  }

  /** The two halves of each stripped comparison are the same test. */
  lemma MirroredComparisons(o: Option<string>, s: string)
    ensures Same(o, s) <==> SameMirrored(s, o)
  {
  }

  /** A result without a track name is accepted only on its release date. */
  lemma NoTrackNameOnlyDate(e: ItunesItem, q: Query, oracle: DateOracle)
    requires e.trackName.None?
    ensures Accepts(e, q, oracle) <==> ReleaseDateMatches(e, q.date, oracle)
  {
  }

  /** A result without a page URL never passes the release-date check. */
  lemma NoUrlNoDate(e: ItunesItem, date: string, oracle: DateOracle)
    requires e.trackViewUrl.None? || e.trackViewUrl == Some("")
    ensures !ReleaseDateMatches(e, date, oracle)
  {
  }

  /**
   * The crosswise fifth test accepts a result whose track and artist names
   * are the row's artist and title, swapped.
   */
  lemma SwappedNamesAccepted(e: ItunesItem, q: Query, oracle: DateOracle)
    requires e.trackName == Some(q.artist) && e.artistName == Some(q.title)
    ensures Accepts(e, q, oracle)
  {
    assert CrossedNames(e, q);
  }

  /** Index of the first accepted result, or `|items|` when none is. */
  function FirstAccepted(items: seq<ItunesItem>, q: Query, oracle: DateOracle): (k: nat)
    ensures k <= |items|
    ensures k < |items| ==> Accepts(items[k], q, oracle)
    ensures forall j :: 0 <= j < k ==> !Accepts(items[j], q, oracle)
  {
    if items == [] then 0
    else if Accepts(items[0], q, oracle) then 0
    else 1 + FirstAccepted(items[1..], q, oracle)
  }

  /**
   * What `tryTextMatch` returns for the reply to its search: the `trackId` of
   * the first accepted result, or nothing when no result is accepted, the
   * search throws, or the body has no `results` to iterate.
   */
  function TextMatch(reply: Reply<SearchBody>, q: Query, oracle: DateOracle): (r: Option<string>)
    ensures r.Some? ==>
              && OkJson(reply) && reply.value.body.value.results.Some?
              && var items := reply.value.body.value.results.value;
                 exists k :: 0 <= k < |items| && items[k].trackId == r.value
                   && Accepts(items[k], q, oracle)
                   && forall j :: 0 <= j < k ==> !Accepts(items[j], q, oracle)
    ensures (OkJson(reply) && reply.value.body.value.results.Some?
              && exists e :: e in reply.value.body.value.results.value && Accepts(e, q, oracle)) ==> r.Some?
  {
    match TextSearch(reply)
    case Raised(_) => None
    case Returned(body) =>
      if body.results.None? then None
      else
        var items := body.results.value;
        var k := FirstAccepted(items, q, oracle);
        if k < |items| then Some(items[k].trackId) else None
  }

  /** `tryTextMatch`: the scan over the search results, stopping at the first accepted one. */
  method TryTextMatch(reply: Reply<SearchBody>, q: Query, oracle: DateOracle) returns (id: Option<string>)
    ensures id == TextMatch(reply, q, oracle)
  {
    var data := TextSearch(reply);
    if data.Raised? || data.value.results.None? {
      return None;
    }
    var items := data.value.results.value;
    var i := 0;
    while i < |items|
      invariant 0 <= i <= |items|
      invariant forall j :: 0 <= j < i ==> !Accepts(items[j], q, oracle)
    {
      if Accepts(items[i], q, oracle) {
        return Some(items[i].trackId);
      }
      i := i + 1;
    }
    return None;
  }

  /** The country `getItunesId` searches in, whatever the configured one. */
  const ItunesCountry: string := "US"

  /** The four URLs `getItunesId` tries, most specific first. */
  function ItunesUrls(encode: string -> string, q: Query): seq<string>
  {
    SearchUrls(ItunesCountry, encode, q.title, q.artist, q.album)
  }

  /**
   * `getItunesId`: the text match on the title-artist-album search, else on
   * the title-artist search, else on the title-album search, else on the
   * title-only search.
   */
  function GetItunesId(get: string -> Reply<SearchBody>, encode: string -> string, q: Query, oracle: DateOracle): (r: Option<string>)
    ensures var urls := ItunesUrls(encode, q);
            r.None? <==> forall k :: 0 <= k < 4 ==> TextMatch(get(urls[k]), q, oracle).None?
    ensures var urls := ItunesUrls(encode, q);
            r.Some? ==> exists k :: 0 <= k < 4 && r == TextMatch(get(urls[k]), q, oracle)
                          && forall j :: 0 <= j < k ==> TextMatch(get(urls[j]), q, oracle).None?
  {
    var urls := ItunesUrls(encode, q);
    var result := TextMatch(get(urls[0]), q, oracle);
    if result.Some? then result
    else
      var result := TextMatch(get(urls[1]), q, oracle);
      if result.Some? then result
      else
        var result := TextMatch(get(urls[2]), q, oracle);
        if result.Some? then result
        else TextMatch(get(urls[3]), q, oracle)
  }
}
