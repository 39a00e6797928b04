/**
 * The library-playlist service: find or create the target playlist, list the
 * catalog ids already in it, and add one song. Each operation is a decision
 * over what the rate-limited calls settled with; `process.exit(1)` becomes a
 * `Fatal` outcome.
 */
module Playlists {
  import opened Http

  /** A library playlist as listed: its id, and its name when it has attributes. */
  datatype Playlist = Playlist(id: string, name: Option<string>)

  /** The body of a playlist listing or creation; its `data` member may be missing. */
  datatype PlaylistList = PlaylistList(data: Option<seq<Playlist>>)

  /** Why `getOrCreatePlaylist` ends the process. */
  datatype FatalReason =
    | BadRequest                     // the create call answered 400
    | Unauthorized                   // 401
    | Forbidden                      // 403
    | CreateFailed(status: int)      // any other failed create status
    | Crashed                        // a thrown error or a body that could not be used

  datatype PlaylistOutcome =
    | Found(id: string)              // an existing playlist of that name
    | Created(id: string)            // made by the create call
    | Fatal(reason: FatalReason)     // the process exits

  /** Index of the first playlist named exactly `name`, or `|ps|` when there is none. */
  function FirstNamed(ps: seq<Playlist>, name: string): (k: nat)
    ensures k <= |ps|
    ensures k < |ps| ==> ps[k].name == Some(name)
    ensures forall j :: 0 <= j < k ==> ps[j].name != Some(name)
  {
    if ps == [] then 0
    else if ps[0].name == Some(name) then 0
    else 1 + FirstNamed(ps[1..], name)
  }

  /** A listing that names a playlist `name`. */
  predicate Lists(listing: Reply<PlaylistList>, name: string)
  {
    && listing.Returned? && listing.value.Ok() && listing.value.body.Json?
    && listing.value.body.value.data.Some?
    && FirstNamed(listing.value.body.value.data.value, name) < |listing.value.body.value.data.value|
  }

  /**
   * `getOrCreatePlaylist`. An ok listing that names the playlist gives the
   * first one so named. Otherwise, also when the listing is not ok, the
   * create call is made, and its ok answer gives `data[0].id`. A 400, 401 or
   * 403 answer, any other failed status, a thrown error or an unusable body
   * ends the process.
   */
  function GetOrCreatePlaylist(name: string, listing: Reply<PlaylistList>, creation: Reply<PlaylistList>): (r: PlaylistOutcome)
    ensures r.Found? <==> Lists(listing, name)
    ensures r.Found? ==>
              var ps := listing.value.body.value.data.value;
              exists k :: 0 <= k < |ps| && ps[k].id == r.id && ps[k].name == Some(name)
                && forall j :: 0 <= j < k ==> ps[j].name != Some(name)
    ensures r.Created? ==>
              && creation.Returned? && creation.value.Ok() && creation.value.body.Json?
              && var data := creation.value.body.value.data;
                 data.Some? && data.value != [] && r.id == data.value[0].id
    ensures r.Created? ==> CallsCreate(name, listing)
    ensures r == Fatal(BadRequest) <==> CallsCreate(name, listing) && creation.Returned? && creation.value.status == 400
    ensures r == Fatal(Unauthorized) <==> CallsCreate(name, listing) && creation.Returned? && creation.value.status == 401
    ensures r == Fatal(Forbidden) <==> CallsCreate(name, listing) && creation.Returned? && creation.value.status == 403
    ensures r.Fatal? && r.reason.CreateFailed? <==>
              && CallsCreate(name, listing) && creation.Returned? && !creation.value.Ok()
              && creation.value.status !in {400, 401, 403}
    ensures r.Fatal? && r.reason.CreateFailed? ==> r.reason.status == creation.value.status
    ensures CallsCreate(name, listing) && creation.Returned? && creation.value.Ok() ==>
              var body := creation.value.body;
              if body.Json? && body.value.data.Some? && body.value.data.value != []
              then r == Created(body.value.data.value[0].id)
              else r == Fatal(Crashed)
    ensures CallsCreate(name, listing) && creation.Raised? ==> r == Fatal(Crashed)
    ensures listing.Raised? ==> r == Fatal(Crashed)
    ensures listing.Returned? && listing.value.Ok() && listing.value.body.NotJson? ==> r == Fatal(Crashed)
  {
    match listing
    case Raised(_) => Fatal(Crashed)
    case Returned(response) =>
      if response.Ok() && response.body.NotJson? then Fatal(Crashed)
      else if response.Ok() && response.body.value.data.Some?
              && FirstNamed(response.body.value.data.value, name) < |response.body.value.data.value| then
        Found(response.body.value.data.value[FirstNamed(response.body.value.data.value, name)].id)
      else
        match creation
        case Raised(_) => Fatal(Crashed)
        case Returned(created) =>
          if created.Ok() then
            if created.body.Json? && created.body.value.data.Some? && |created.body.value.data.value| > 0
            then Created(created.body.value.data.value[0].id)
            else Fatal(Crashed)
          else if created.status == 400 then Fatal(BadRequest)
          else if created.status == 401 then Fatal(Unauthorized)
          else if created.status == 403 then Fatal(Forbidden)
          else Fatal(CreateFailed(created.status))
  }

  /** Whether `getOrCreatePlaylist` makes the create call. */
  predicate CallsCreate(name: string, listing: Reply<PlaylistList>)
  {
    listing.Returned? && !(listing.value.Ok() && listing.value.body.NotJson?) && !Lists(listing, name)
  }

  /**
   * The create call is made exactly when the listing settled with a usable
   * response that does not name the playlist; whenever it is not made, the
   * outcome does not depend on its reply.
   */
  lemma CreateOnlyWhenNotListed(name: string, listing: Reply<PlaylistList>, c1: Reply<PlaylistList>, c2: Reply<PlaylistList>)
    ensures !CallsCreate(name, listing) ==> GetOrCreatePlaylist(name, listing, c1) == GetOrCreatePlaylist(name, listing, c2)
    ensures CallsCreate(name, listing) ==> !GetOrCreatePlaylist(name, listing, c1).Found?
  {
  }

  /**
   * Once the create call is made, anything but an ok answer ends the process:
   * a thrown error as well as every failed status.
   */
  lemma IdOrExit(name: string, listing: Reply<PlaylistList>, creation: Reply<PlaylistList>)
    ensures var r := GetOrCreatePlaylist(name, listing, creation);
            CallsCreate(name, listing) && creation.Raised? ==> r == Fatal(Crashed)
    ensures var r := GetOrCreatePlaylist(name, listing, creation);
            creation.Returned? && !creation.value.Ok() && CallsCreate(name, listing) ==> r.Fatal?
  {
  }

  /** A track of a library playlist: its `attributes.playParams.catalogId`, when present. */
  datatype Track = Track(catalogId: Option<string>)

  /** The body of a playlist's track listing; its `data` member may be missing. */
  datatype TrackList = TrackList(data: Option<seq<Track>>)

  /** A `catalogId` the filter keeps: present and not empty. */
  predicate HasCatalogId(t: Track)
  {
    t.catalogId.Some? && t.catalogId.value != ""
  }

  /** `.filter(...).map(...)`: the catalog ids of the tracks that have one, in order. */
  function CatalogIds(tracks: seq<Track>): (ids: seq<string>)
    ensures |ids| <= |tracks|
    ensures forall c :: c in ids <==> exists t :: t in tracks && HasCatalogId(t) && t.catalogId.value == c
    ensures "" !in ids
  {
    if tracks == [] then []
    else
      var rest := CatalogIds(tracks[1..]);
      assert forall t :: t in tracks[1..] ==> t in tracks;
      assert forall t :: t in tracks ==> t == tracks[0] || t in tracks[1..];
      if HasCatalogId(tracks[0]) then [tracks[0].catalogId.value] + rest else rest
  }

  /** When every track has a catalog id, the ids are the tracks' ids, one for one. */
  lemma {:induction false} CatalogIdsAll(tracks: seq<Track>)
    requires forall k :: 0 <= k < |tracks| ==> HasCatalogId(tracks[k])
    ensures |CatalogIds(tracks)| == |tracks|
    ensures forall k :: 0 <= k < |tracks| ==> CatalogIds(tracks)[k] == tracks[k].catalogId.value
  {
    if tracks != [] {
      CatalogIdsAll(tracks[1..]);
    }
  }

  /**
   * `CatalogIds` works track by track: the ids of a concatenation are the ids
   * of its parts, in order, and a single track contributes its id exactly when
   * it has one.
   */
  lemma {:induction false} CatalogIdsConcat(a: seq<Track>, b: seq<Track>, t: Track)
    ensures CatalogIds(a + b) == CatalogIds(a) + CatalogIds(b)
    ensures CatalogIds([t]) == if HasCatalogId(t) then [t.catalogId.value] else []
    decreases |a|
  {
    if a == [] {
      assert a + b == b;
    } else {
      assert (a + b)[1..] == a[1..] + b;
      CatalogIdsConcat(a[1..], b, t);
    }
  }

  /**
   * `getPlaylistCatalogIds`: an ok response gives the catalog ids of its
   * tracks (none when `data` is missing), a 404 gives none, and any other
   * status, a body that does not parse or a thrown error is thrown on.
   */
  function GetPlaylistCatalogIds(reply: Reply<TrackList>): (r: Settled<seq<string>>)
    ensures reply.Raised? ==> r == Raised(reply.error)
    ensures r.Returned? <==> reply.Returned? && (reply.value.status == 404 || (reply.value.Ok() && reply.value.body.Json?))
    ensures r.Returned? && r.value != [] ==>
              reply.value.Ok() && reply.value.body.value.data.Some?
              && r.value == CatalogIds(reply.value.body.value.data.value)
    ensures reply.Returned? && reply.value.Ok() && reply.value.body.Json? ==>
              var data := reply.value.body.value.data;
              r == Returned(if data.Some? then CatalogIds(data.value) else [])
    ensures reply.Returned? && reply.value.status == 404 ==> r == Returned([])
  {
    match reply
    case Raised(e) => Raised(e)
    case Returned(response) =>
      if response.Ok() then
        match response.body
        case NotJson => Raised(Some(OtherError("body is not JSON")))
        case Json(list) => if list.data.Some? then Returned(CatalogIds(list.data.value)) else Returned([])
      else if response.status == 404 then Returned([])
      else Raised(Some(OtherError("HTTP error status")))
  }

  datatype AddResult = OK | ERROR | DUPLICATE

  /** Whether `addSongToPlaylist` posts the song: only when it is not listed already. */
  predicate PostsSong(songId: string, trackIds: seq<string>)
  {
    songId !in trackIds
  }

  /** A reply to the add call that `addSongToPlaylist` reports as OK: ok, 201 or 204. */
  predicate AddSucceeds(reply: Reply<()>)
  {
    reply.Returned? && (reply.value.Ok() || reply.value.status == 201 || reply.value.status == 204)
  }

  /**
   * `addSongToPlaylist`: DUPLICATE, with no call, for a listed song; OK when
   * the post answered ok or with 201 or 204; ERROR for any other status and
   * for a thrown error. It never throws.
   */
  function AddSongToPlaylist(songId: string, trackIds: seq<string>, reply: Reply<()>): (r: AddResult)
    ensures r == DUPLICATE <==> songId in trackIds
    ensures r == OK <==> PostsSong(songId, trackIds) && AddSucceeds(reply)
    ensures r == ERROR <==> PostsSong(songId, trackIds) && !AddSucceeds(reply)
  {
    if songId in trackIds then DUPLICATE
    else match reply
      case Raised(_) => ERROR
      case Returned(response) =>
        if response.Ok() || response.status == 201 || response.status == 204 then OK else ERROR
  }

  /** The 201 and 204 tests add nothing: both statuses are already ok. */
  lemma CreatedStatusesAreOk(songId: string, trackIds: seq<string>, reply: Reply<()>)
    ensures AddSongToPlaylist(songId, trackIds, reply) == OK <==>
              PostsSong(songId, trackIds) && reply.Returned? && reply.value.Ok()
  {
  }
}
