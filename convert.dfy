/**
 * The `convert` command: derive the playlist name from the CSV path, find or
 * create the playlist, read the rows, and for every row search by ISRC, fall
 * back to the text search, substitute the equivalent catalog id and add the
 * song, keeping the statistics and the list of ids already in the playlist.
 *
 * The network is a fixed map from request to reply, so the same request
 * always gets the same reply; the rows of a batch are processed one after
 * the other.
 */
module Convert {
  import opened Text
  import opened Http
  import opened Csv
  import opened Catalog
  import opened Match
  import opened Playlists

  // ---------------------------------------------------------------------
  // The playlist name

  /**
   * `filePath.split("/").pop() || filePath`, then `.split(".")[0]`: the file
   * name after the last '/' (the whole path when that is empty), cut at its
   * first '.'.
   */
  function FileStem(path: string): (stem: string)
    ensures var file := if AfterLast(path, '/') != "" then AfterLast(path, '/') else path;
            stem == BeforeFirst(file, '.')
  {
    var parts := Split(path, '/');
    SplitLast(path, '/');
    var last := parts[|parts| - 1];
    var file := if last != "" then last else path;
    SplitFirst(file, '.');
    Split(file, '.')[0]
  }

  /**
   * `derivePlaylistName`: the file stem with every '_' turned into a space
   * and the first character upper-cased.
   */
  function DerivePlaylistName(path: string): (name: string)
    ensures var stem := FileStem(path);
            && |name| == |stem|
            && (forall k :: 0 < k < |stem| ==> name[k] == (if stem[k] == '_' then ' ' else stem[k]))
            && (|stem| > 0 ==> name[0] == UpperChar(if stem[0] == '_' then ' ' else stem[0]))
  {
    Capitalized(ReplaceChar(FileStem(path), '_', ' '))
  }

  /** `s.charAt(0).toUpperCase() + s.slice(1)`. */
  function Capitalized(s: string): (r: string)
    ensures |r| == |s| && forall k :: 0 < k < |s| ==> r[k] == s[k]
    ensures |s| > 0 ==> r[0] == UpperChar(s[0])
  {
    if s == "" then "" else [UpperChar(s[0])] + s[1..]
  }

  /**
   * The name holds no '_' and no '.', and no '/' unless the path ends with
   * one.
   */
  lemma NameOmitsSeparators(path: string)
    ensures '_' !in DerivePlaylistName(path)
    ensures '.' !in DerivePlaylistName(path)
    ensures AfterLast(path, '/') != "" ==> '/' !in DerivePlaylistName(path)
  {
    NameAvoids(path, '_');
    StemOmitsDot(path);
    NameAvoids(path, '.');
    if AfterLast(path, '/') != "" {
      StemOmitsSlash(path);
      NameAvoids(path, '/');
    }
  }

  lemma StemOmitsDot(path: string)
    ensures '.' !in FileStem(path)
  {
    var stem := FileStem(path);
    assert forall k :: 0 <= k < |stem| ==> stem[k] != '.';
  }

  lemma StemOmitsSlash(path: string)
    requires AfterLast(path, '/') != ""
    ensures '/' !in FileStem(path)
  {
    var file := AfterLast(path, '/');
    AfterLastOmits(path, '/');
    var stem := FileStem(path);
    assert stem == file[..IndexOf(file, '.')];
    forall k | 0 <= k < |stem|
      ensures stem[k] != '/'
    {
      assert stem[k] == file[k];
      assert file[k] in file;
    }
  }

  /** '_' never reaches the name, nor does a character other than a space or a capital that the stem lacks. */
  lemma NameAvoids(path: string, x: char)
    requires x == '_' || (x != ' ' && !('A' <= x <= 'Z') && x !in FileStem(path))
    ensures x !in DerivePlaylistName(path)
  {
    var name := DerivePlaylistName(path);
    var stem := FileStem(path);
    forall k | 0 <= k < |name|
      ensures name[k] != x
    {
      assert stem[k] in stem;
    }
  }

  // ---------------------------------------------------------------------
  // Choosing among the ISRC search's candidates

  /** The row's album and album artist as candidates are compared with them: escaped, then lower-cased. */
  datatype Wanted = Wanted(album: string, albumArtist: string)

  /** A candidate can be compared only when it has both an album and an artist name. */
  predicate Named(s: Song)
  {
    s.albumName.Some? && s.artistName.Some?
  }

  /** A candidate's names as compared: lower-cased, then escaped. */
  function CandidateAlbum(s: Song, escape: string -> string): string
    requires Named(s)
  {
    escape(Lower(s.albumName.value))
  }

  function CandidateArtist(s: Song, escape: string -> string): string
    requires Named(s)
  {
    escape(Lower(s.artistName.value))
  }

  /** Rule 1: the same album and the same artist. */
  predicate SameAlbumAndArtist(album: string, artist: string, w: Wanted)
  {
    album == w.album && artist == w.albumArtist
  }

  /** Rule 2: the same album, and one artist name contains the other. */
  predicate SameAlbumArtistContained(album: string, artist: string, w: Wanted)
  {
    album == w.album && (Includes(artist, w.albumArtist) || Includes(w.albumArtist, artist))
  }

  /** Rule 3: both names start with the first seven characters of the row's. */
  predicate SamePrefixes(album: string, artist: string, w: Wanted)
  {
    StartsWith(album, Take(w.album, 7)) && StartsWith(artist, Take(w.albumArtist, 7))
  }

  /** Rule 4: the same album. */
  predicate SameAlbum(album: string, w: Wanted)
  {
    album == w.album
  }

  /** A candidate passes when any of the four rules holds for it. */
  predicate IsrcAccepts(album: string, artist: string, w: Wanted)
  {
    || SameAlbumAndArtist(album, artist, w)
    || SameAlbumArtistContained(album, artist, w)
    || SamePrefixes(album, artist, w)
    || SameAlbum(album, w)
  }

  /**
   * Rules 1 and 2 both imply rule 4, so a candidate passes exactly when its
   * album is the row's or both names start with the row's seven-character
   * prefixes.
   */
  lemma IsrcRulesReduce(album: string, artist: string, w: Wanted)
    ensures SameAlbumAndArtist(album, artist, w) ==> SameAlbum(album, w)
    ensures SameAlbumArtistContained(album, artist, w) ==> SameAlbum(album, w)
    ensures IsrcAccepts(album, artist, w) <==> SameAlbum(album, w) || SamePrefixes(album, artist, w)
  {
  }

  /** A candidate that passes, judged on its escaped lower-cased names. */
  predicate Passes(s: Song, w: Wanted, escape: string -> string)
  {
    Named(s) && IsrcAccepts(CandidateAlbum(s, escape), CandidateArtist(s, escape), w)
  }

  /**
   * The outcome of the candidate loop: the id of the chosen candidate, no
   * candidate passing, or a candidate without names reached before any
   * passed (reading its name throws, which abandons the row).
   */
  datatype IsrcPick = Picked(id: string) | NoneMatched | MissingName

  /**
   * The candidates are tried in order, each against all four rules: the
   * first that passes is chosen, and a nameless one stops the loop.
   */
  function FirstIsrcPick(songs: seq<Song>, w: Wanted, escape: string -> string): (p: IsrcPick)
    ensures p.Picked? ==>
              exists k :: 0 <= k < |songs| && songs[k].id == p.id && Passes(songs[k], w, escape)
                && forall j :: 0 <= j < k ==> Named(songs[j]) && !Passes(songs[j], w, escape)
    ensures p == NoneMatched <==> forall k :: 0 <= k < |songs| ==> Named(songs[k]) && !Passes(songs[k], w, escape)
    ensures p == MissingName ==>
              exists k :: 0 <= k < |songs| && !Named(songs[k])
                && forall j :: 0 <= j < k ==> Named(songs[j]) && !Passes(songs[j], w, escape)
  {
    if songs == [] then NoneMatched
    else if !Named(songs[0]) then MissingName
    else if Passes(songs[0], w, escape) then Picked(songs[0].id)
    else
      var p := FirstIsrcPick(songs[1..], w, escape);
      assert forall k :: 1 <= k < |songs| ==> songs[k] == songs[1..][k - 1];
      p
  }

  /**
   * The rules are checked per candidate, not rule by rule over the list: a
   * candidate passing only the prefix rule beats a later one passing rule 1.
   */
  lemma EarlierCandidateWins(songs: seq<Song>, w: Wanted, escape: string -> string, i: nat)
    requires i < |songs| && Passes(songs[i], w, escape)
    requires forall j :: 0 <= j < i ==> Named(songs[j]) && !Passes(songs[j], w, escape)
    ensures FirstIsrcPick(songs, w, escape) == Picked(songs[i].id)
  {
    var p := FirstIsrcPick(songs, w, escape);
    if p.Picked? {
      var k :| 0 <= k < |songs| && songs[k].id == p.id && Passes(songs[k], w, escape)
                && forall j :: 0 <= j < k ==> Named(songs[j]) && !Passes(songs[j], w, escape);
      assert k == i;
    }
  }

  /** The candidate loop, breaking out at the first candidate that passes. */
  method SelectIsrc(songs: seq<Song>, w: Wanted, escape: string -> string) returns (pick: IsrcPick)
    ensures pick == FirstIsrcPick(songs, w, escape)
  {
    var i := 0;
    while i < |songs|
      invariant 0 <= i <= |songs|
      invariant FirstIsrcPick(songs[i..], w, escape) == FirstIsrcPick(songs, w, escape)
    {
      var song := songs[i];
      assert songs[i..][0] == song && songs[i..][1..] == songs[i + 1..];
      if song.albumName.None? || song.artistName.None? {
        return MissingName;
      }
      var albumName := escape(Lower(song.albumName.value));
      var artistName := escape(Lower(song.artistName.value));
      if albumName == w.album && artistName == w.albumArtist {
        return Picked(song.id);
      } else if albumName == w.album && (Includes(artistName, w.albumArtist) || Includes(w.albumArtist, artistName)) {
        return Picked(song.id);
      } else if StartsWith(albumName, Take(w.album, 7)) && StartsWith(artistName, Take(w.albumArtist, 7)) {
        return Picked(song.id);
      } else if albumName == w.album {
        return Picked(song.id);
      }
      i := i + 1;
    }
    return NoneMatched;
  }

  // ---------------------------------------------------------------------
  // The environment of a run

  /** The configuration and the helpers the command calls but this model does not define. */
  datatype Env = Env(
    country: string,                // the configured country code
    escape: string -> string,       // escapeApostrophes
    encode: string -> string,       // encodeURIComponent
    releaseDate: DateOracle)        // fetchAndVerifyReleaseDate

  /** What each request settles with, through the rate limiter. */
  datatype Network = Network(
    catalog: string -> Reply<SongList>,         // catalog song queries, by URL
    itunes: string -> Reply<SearchBody>,        // iTunes searches, by URL
    listPlaylists: Reply<PlaylistList>,         // the library playlists
    createPlaylist: Reply<PlaylistList>,        // the create call
    playlistTracks: string -> Reply<TrackList>, // a playlist's tracks, by playlist id
    addSong: (string, string) -> Reply<()>)     // adding a song, by playlist id and song id

  /** The row's fields as the command uses them, each escaped. */
  function Escaped(escape: string -> string, row: TrackRow): Query
  {
    Query(escape(row.title), escape(row.artist), escape(row.album), escape(row.date))
  }

  function WantedOf(env: Env, row: TrackRow): Wanted
  {
    Wanted(Lower(env.escape(row.album)), Lower(env.escape(row.albumArtist)))
  }

  /** The songs the ISRC search returns for the row's escaped ISRC. */
  function IsrcResults(env: Env, net: Network, row: TrackRow): seq<Song>
  {
    SearchByIsrc(net.catalog(IsrcSearchUrl(env.country, env.encode, env.escape(row.isrc))))
  }

  /**
   * The ISRC phase: skipped for an empty ISRC; otherwise the candidate loop
   * over the songs the ISRC search returns. The test for an empty result
   * changes nothing: the loop over no candidates matches none.
   */
  function IsrcPhase(env: Env, net: Network, row: TrackRow): (p: IsrcPick)
    ensures env.escape(row.isrc) == "" ==> p == NoneMatched
    ensures env.escape(row.isrc) != "" ==> p == FirstIsrcPick(IsrcResults(env, net, row), WantedOf(env, row), env.escape)
  {
    var isrc := env.escape(row.isrc);
    if isrc == "" then NoneMatched
    else
      var results := SearchByIsrc(net.catalog(IsrcSearchUrl(env.country, env.encode, isrc)));
      if |results| > 0 then FirstIsrcPick(results, WantedOf(env, row), env.escape) else NoneMatched
  }

  /** A truthy track id: present and not empty. */
  predicate Truthy(id: Option<string>)
  {
    id.Some? && id.value != ""
  }

  /** Which search found the track. */
  datatype Via = ByIsrc | ByText

  /**
   * Where a row's searches lead: a crash in the candidate loop, no track, or
   * a track found by one of the searches together with the id that is added
   * (its equivalent, when the catalog lists one).
   */
  datatype Resolution = Broken | Unresolved | Resolved(via: Via, trackId: string, songId: string)

  function TextPhase(env: Env, net: Network, row: TrackRow): Option<string>
  {
    GetItunesId(net.itunes, env.encode, Escaped(env.escape, row), env.releaseDate)
  }

  /**
   * The searches of one row: the ISRC phase, the text search only when that
   * found no id, and the equivalent-id lookup on whatever was found.
   */
  function Resolve(env: Env, net: Network, row: TrackRow): (r: Resolution)
    ensures r == Broken <==> IsrcPhase(env, net, row) == MissingName
    ensures r.Resolved? ==> r.trackId != ""
    ensures r.Resolved? && r.via == ByIsrc ==> IsrcPhase(env, net, row) == Picked(r.trackId)
    ensures r.Resolved? && r.via == ByText ==>
              !Truthy(if IsrcPhase(env, net, row).Picked? then Some(IsrcPhase(env, net, row).id) else None)
              && TextPhase(env, net, row) == Some(r.trackId)
    ensures r == Unresolved ==> !Truthy(TextPhase(env, net, row))
    ensures r.Resolved? ==>
              r.songId == GetEquivalentSongId(r.trackId, net.catalog(EquivalentsUrl(env.country, env.encode, r.trackId)))
    ensures var pick := IsrcPhase(env, net, row);
            pick.Picked? && pick.id != "" ==> r.Resolved? && r.via == ByIsrc && r.trackId == pick.id
    ensures var pick := IsrcPhase(env, net, row);
            var text := TextPhase(env, net, row);
            pick != MissingName && !(pick.Picked? && pick.id != "") ==>
              if Truthy(text) then r.Resolved? && r.via == ByText && r.trackId == text.value
              else r == Unresolved
  {
    var pick := IsrcPhase(env, net, row);
    if pick == MissingName then Broken
    else
      var found: Option<string> :=
        if pick.Picked? && pick.id != "" then Some(pick.id) else TextPhase(env, net, row);
      var via := if pick.Picked? && pick.id != "" then ByIsrc else ByText;
      if !Truthy(found) then Unresolved
      else
        var trackId := found.value;
        Resolved(via, trackId,
                 GetEquivalentSongId(trackId, net.catalog(EquivalentsUrl(env.country, env.encode, trackId))))
  }

  /**
   * The ISRC phase, statement by statement: the search runs only for a
   * non-empty ISRC, and the candidate loop only over a non-empty result.
   */
  method IsrcStage(env: Env, net: Network, row: TrackRow) returns (pick: IsrcPick)
    ensures pick == IsrcPhase(env, net, row)
    ensures env.escape(row.isrc) == "" ==> pick == NoneMatched
    ensures env.escape(row.isrc) != "" && IsrcResults(env, net, row) == [] ==> pick == NoneMatched
    ensures env.escape(row.isrc) != "" ==> pick == FirstIsrcPick(IsrcResults(env, net, row), WantedOf(env, row), env.escape)
  {
    var isrc := env.escape(row.isrc);
    pick := NoneMatched;
    if isrc != "" {
      var results := SearchByIsrc(net.catalog(IsrcSearchUrl(env.country, env.encode, isrc)));
      if |results| > 0 {
        pick := SelectIsrc(results, WantedOf(env, row), env.escape);
      }
    }
  }

  // ---------------------------------------------------------------------
  // One row

  /** What became of a found song. */
  datatype AddStatus = AlreadyPresent | Added | AddFailed | AddDuplicate

  /** What became of one row. */
  datatype RowOutcome = Abandoned | NotFound | Matched(via: Via, songId: string, status: AddStatus)

  /**
   * The outcome of a row from where its searches led, given the ids already
   * in the playlist and the replies to add calls.
   */
  function Outcome(res: Resolution, existing: seq<string>, add: string -> Reply<()>): (o: RowOutcome)
    ensures o == Abandoned <==> res == Broken
    ensures o == NotFound <==> res == Unresolved
    ensures res.Resolved? ==> o.Matched? && o.via == res.via && o.songId == res.songId
    ensures o.Matched? && o.status == AlreadyPresent <==> res.Resolved? && res.songId in existing
    ensures o.Matched? && o.status == Added <==>
              res.Resolved? && res.songId !in existing && AddSucceeds(add(res.songId))
    ensures o.Matched? && o.status == AddFailed <==>
              res.Resolved? && res.songId !in existing && !AddSucceeds(add(res.songId))
  {
    match res
    case Broken => Abandoned
    case Unresolved => NotFound
    case Resolved(via, _, songId) =>
      if songId in existing then Matched(via, songId, AlreadyPresent)
      else match AddSongToPlaylist(songId, existing, add(songId))
        case OK => Matched(via, songId, Added)
        case ERROR => Matched(via, songId, AddFailed)
        case DUPLICATE => Matched(via, songId, AddDuplicate)
  }

  /** The membership test before the add means the add never answers DUPLICATE. */
  lemma NeverDuplicate(res: Resolution, existing: seq<string>, add: string -> Reply<()>)
    ensures var o := Outcome(res, existing, add);
            o.Matched? ==> o.status != AddDuplicate
  {
  }

  /** The `Stats` record. */
  datatype Stats = Stats(total: nat, converted: nat, failed: nat, isrcBased: nat, textBased: nat)

  /**
   * The state a run carries from row to row: the statistics, the ids in the
   * playlist, the lines appended to the no-result file, and the number of
   * rows abandoned by a crash (counted nowhere in `Stats`).
   */
  datatype Progress = Progress(stats: Stats, existing: seq<string>, failureLines: seq<string>, crashed: nat)

  /**
   * What a run does per row: where a row's searches lead, what an add call
   * settles with, and apostrophe escaping.
   */
  datatype Actions = Actions(
    resolve: TrackRow -> Resolution,
    add: string -> Reply<()>,
    escape: string -> string)

  /** The actions of a run against `net`, adding to the playlist `playlistId`. */
  function ActionsOf(env: Env, net: Network, playlistId: string): Actions
  {
    Actions(row => Resolve(env, net, row), songId => net.addSong(playlistId, songId), env.escape)
  }

  /** A line of the no-result file. */
  function FailureLine(q: Query, reason: string): string
  {
    q.title + " | " + q.artist + " | " + q.album + " => " + reason
  }

  function CountFound(via: Via, s: Stats): Stats
  {
    if via == ByIsrc then s.(isrcBased := s.isrcBased + 1) else s.(textBased := s.textBased + 1)
  }

  /**
   * The bookkeeping for a row with outcome `o`. Every row that does not
   * crash counts once in `converted` or `failed`; a found song counts once
   * in `isrcBased` or `textBased`; only an added song is appended to the
   * playlist's ids and counts as converted; only a song not found or not
   * added gets a no-result line.
   */
  function Record(o: RowOutcome, q: Query, p: Progress): (next: Progress)
    ensures next.stats.total == p.stats.total
    ensures next.stats.converted + next.stats.failed + next.crashed
            == p.stats.converted + p.stats.failed + p.crashed + 1
    ensures next.crashed == p.crashed + (if o == Abandoned then 1 else 0)
    ensures next.stats.isrcBased + next.stats.textBased
            == p.stats.isrcBased + p.stats.textBased + (if o.Matched? then 1 else 0)
    ensures next.stats.converted == p.stats.converted + (if o.Matched? && o.status == Added then 1 else 0)
    ensures next.existing == p.existing + (if o.Matched? && o.status == Added then [o.songId] else [])
    ensures |next.failureLines| == |p.failureLines|
            + (if o == NotFound || (o.Matched? && o.status == AddFailed) then 1 else 0)
    ensures next.failureLines == p.failureLines
            + (if o == NotFound then [FailureLine(q, "NOT FOUND")]
               else if o.Matched? && o.status == AddFailed then [FailureLine(q, "UNABLE TO ADD TO PLAYLIST")]
               else [])
    ensures next.stats.isrcBased == p.stats.isrcBased + (if o.Matched? && o.via == ByIsrc then 1 else 0)
    ensures next.stats.textBased == p.stats.textBased + (if o.Matched? && o.via == ByText then 1 else 0)
  {
    match o
    case Abandoned => p.(crashed := p.crashed + 1)
    case NotFound =>
      p.(stats := p.stats.(failed := p.stats.failed + 1),
         failureLines := p.failureLines + [FailureLine(q, "NOT FOUND")])
    case Matched(via, songId, status) =>
      var s := CountFound(via, p.stats);
      match status
      case Added => p.(stats := s.(converted := s.converted + 1), existing := p.existing + [songId])
      case AddFailed =>
        p.(stats := s.(failed := s.failed + 1),
           failureLines := p.failureLines + [FailureLine(q, "UNABLE TO ADD TO PLAYLIST")])
      case AlreadyPresent => p.(stats := s.(failed := s.failed + 1))
      case AddDuplicate => p.(stats := s.(failed := s.failed + 1))
  }

  /** One row's effect on the run. */
  function Step(a: Actions, p: Progress, row: TrackRow): Progress
  {
    Record(Outcome(a.resolve(row), p.existing, a.add), Escaped(a.escape, row), p)
  }

  /**
   * `a` does what the row task does against `net` when adding to the
   * playlist `playlistId`. (The quantifiers fire only on the search and add
   * terms, so a proof about a run does not unfold the searches.)
   */
  ghost predicate Realizes(a: Actions, env: Env, net: Network, playlistId: string)
  {
    && (forall row {:trigger Resolve(env, net, row)} :: a.resolve(row) == Resolve(env, net, row))
    && (forall songId {:trigger net.addSong(playlistId, songId)} :: a.add(songId) == net.addSong(playlistId, songId))
    && a.escape == env.escape
  }

  lemma ActionsOfRealizes(env: Env, net: Network, playlistId: string)
    ensures Realizes(ActionsOf(env, net, playlistId), env, net, playlistId)
  {
  }

  /**
   * The searches of the row task, statement by statement: the ISRC phase,
   * the text search when that found no id, each counted where it succeeds,
   * and the equivalent-id lookup.
   */
  method ResolveRow(env: Env, net: Network, stats: Stats, row: TrackRow) returns (res: Resolution, counted: Stats)
    ensures res == Resolve(env, net, row)
    ensures counted == if res.Resolved? then CountFound(res.via, stats) else stats
  {
    var pick := IsrcStage(env, net, row);
    if pick == MissingName {
      return Broken, stats;
    }
    var trackId, via;
    trackId, via, counted := FindTrackId(env, net, stats, row, pick);
    if !Truthy(trackId) {
      return Unresolved, counted;
    }
    var songId := GetEquivalentSongId(trackId.value,
                    net.catalog(EquivalentsUrl(env.country, env.encode, trackId.value)));
    res := Resolved(via, trackId.value, songId);
  }

  /**
   * The id the row task goes on with: the ISRC pick when it is a non-empty
   * id, else the text search's answer, counted by the search that found it.
   */
  method FindTrackId(env: Env, net: Network, stats: Stats, row: TrackRow, pick: IsrcPick)
    returns (trackId: Option<string>, via: Via, counted: Stats)
    ensures pick.Picked? && pick.id != "" ==> trackId == Some(pick.id) && via == ByIsrc
    ensures !(pick.Picked? && pick.id != "") ==> trackId == TextPhase(env, net, row) && via == ByText
    ensures counted == if Truthy(trackId) then CountFound(via, stats) else stats
  {
    counted := stats;
    trackId := None;
    if pick.Picked? {
      trackId := Some(pick.id);
    }
    via := ByIsrc;
    if Truthy(trackId) {
      counted := counted.(isrcBased := counted.isrcBased + 1);
    } else {
      via := ByText;
      trackId := GetItunesId(net.itunes, env.encode, Escaped(env.escape, row), env.releaseDate);
      if Truthy(trackId) {
        counted := counted.(textBased := counted.textBased + 1);
      }
    }
  }

  /**
   * The rest of the row task once the searches are done: a song already in
   * the playlist counts as failed, any other is added, and a song not found
   * or not added gets a no-result line.
   */
  method Settle(env: Env, net: Network, playlistId: string, ghost a: Actions,
                p: Progress, stats: Stats, res: Resolution, q: Query) returns (next: Progress)
    requires Realizes(a, env, net, playlistId)
    requires stats == if res.Resolved? then CountFound(res.via, p.stats) else p.stats
    ensures next == Record(Outcome(res, p.existing, a.add), q, p)
  {
    if res == Broken {
      return p.(crashed := p.crashed + 1);
    }
    if res.Resolved? {
      var songId := res.songId;
      if songId in p.existing {
        return p.(stats := stats.(failed := stats.failed + 1));
      }
      var result := AddSongToPlaylist(songId, p.existing, net.addSong(playlistId, songId));
      if result == OK {
        next := p.(stats := stats.(converted := stats.converted + 1), existing := p.existing + [songId]);
      } else if result == ERROR {
        next := p.(stats := stats.(failed := stats.failed + 1),
                   failureLines := p.failureLines + [FailureLine(q, "UNABLE TO ADD TO PLAYLIST")]);
      } else {
        // DUPLICATE: the membership test above rules it out
        assert false;
      }
    } else {
      next := p.(stats := stats.(failed := stats.failed + 1),
                 failureLines := p.failureLines + [FailureLine(q, "NOT FOUND")]);
    }
  }

  /** The row task: the searches, then the add when the song is not in the playlist yet. */
  method ProcessRow(env: Env, net: Network, playlistId: string, ghost a: Actions, p: Progress, row: TrackRow)
    returns (next: Progress)
    requires Realizes(a, env, net, playlistId)
    ensures next == Step(a, p, row)
  {
    var res, stats := ResolveRow(env, net, p.stats, row);
    next := Settle(env, net, playlistId, a, p, stats, res, Escaped(env.escape, row));
  }

  // ---------------------------------------------------------------------
  // A whole run

  /** The rows processed in order, starting from `p`. */
  function Run(a: Actions, p: Progress, rows: seq<TrackRow>): Progress
    decreases |rows|
  {
    if rows == [] then p
    else Run(a, Step(a, p, rows[0]), rows[1..])
  }

  /** A run over the rows from `i` on is the step on row `i`, then the run from `i + 1` on. */
  lemma RunFrom(a: Actions, p: Progress, rows: seq<TrackRow>, i: nat)
    requires i < |rows|
    ensures Run(a, p, rows[i..]) == Run(a, Step(a, p, rows[i]), rows[i + 1..])
  {
    assert rows[i..][1..] == rows[i + 1..];
  }

  /** A run over `rows` is a run over its first `n` rows, then over the rest. */
  lemma {:induction false} RunSplit(a: Actions, p: Progress, rows: seq<TrackRow>, n: nat)
    requires n <= |rows|
    ensures Run(a, p, rows) == Run(a, Run(a, p, rows[..n]), rows[n..])
    decreases n
  {
    if n > 0 {
      RunSplit(a, Step(a, p, rows[0]), rows[1..], n - 1);
      assert rows[..n][1..] == rows[1..][..n - 1];
      assert rows[1..][n - 1..] == rows[n..];
    }
  }

  /** The state before the first row. */
  function Start(rows: seq<TrackRow>, existing: seq<string>): Progress
  {
    Progress(Stats(|rows|, 0, 0, 0, 0), existing, [], 0)
  }

  /** Every row is counted once: in `converted`, in `failed`, or as a crash. */
  lemma {:induction false} RunCountsEveryRow(a: Actions, p: Progress, rows: seq<TrackRow>)
    ensures var r := Run(a, p, rows);
            && r.stats.total == p.stats.total
            && r.stats.converted + r.stats.failed + r.crashed
               == p.stats.converted + p.stats.failed + p.crashed + |rows|
    decreases |rows|
  {
    if rows != [] {
      RunCountsEveryRow(a, Step(a, p, rows[0]), rows[1..]);
    }
  }

  /** A run abandons no row when no row's searches break. */
  lemma {:induction false} NoCrashWithoutBrokenRows(a: Actions, p: Progress, rows: seq<TrackRow>)
    requires forall k :: 0 <= k < |rows| ==> a.resolve(rows[k]) != Broken
    ensures Run(a, p, rows).crashed == p.crashed
    decreases |rows|
  {
    if rows != [] {
      assert a.resolve(rows[0]) != Broken;
      assert forall k :: 0 <= k < |rows[1..]| ==> rows[1..][k] == rows[k + 1];
      NoCrashWithoutBrokenRows(a, Step(a, p, rows[0]), rows[1..]);
    }
  }

  /**
   * Hence, from the start and when no row reaches a nameless ISRC
   * candidate, `converted + failed == total`.
   */
  lemma TotalsAddUp(env: Env, net: Network, playlistId: string, rows: seq<TrackRow>, existing: seq<string>)
    requires forall k :: 0 <= k < |rows| ==> IsrcPhase(env, net, rows[k]) != MissingName
    ensures var r := Run(ActionsOf(env, net, playlistId), Start(rows, existing), rows);
            r.stats.converted + r.stats.failed == r.stats.total
  {
    var a := ActionsOf(env, net, playlistId);
    forall k | 0 <= k < |rows|
      ensures a.resolve(rows[k]) != Broken
    {
      assert a.resolve(rows[k]) == Resolve(env, net, rows[k]);
    }
    RunCountsEveryRow(a, Start(rows, existing), rows);
    NoCrashWithoutBrokenRows(a, Start(rows, existing), rows);
  }

  /**
   * How the counters relate: every converted row was found by a search, and
   * every found row was converted or failed.
   */
  predicate CountersConsistent(s: Stats)
  {
    s.converted <= s.isrcBased + s.textBased <= s.converted + s.failed
  }

  /** Every row keeps the counters consistent. */
  lemma {:induction false} RunKeepsCountersConsistent(a: Actions, p: Progress, rows: seq<TrackRow>)
    requires CountersConsistent(p.stats)
    ensures CountersConsistent(Run(a, p, rows).stats)
    decreases |rows|
  {
    if rows != [] {
      var next := Step(a, p, rows[0]);
      RunKeepsCountersConsistent(a, next, rows[1..]);
    }
  }

  /** From the start: `converted <= isrcBased + textBased <= total`. */
  lemma FoundBounds(a: Actions, rows: seq<TrackRow>, existing: seq<string>)
    ensures var r := Run(a, Start(rows, existing), rows);
            r.stats.converted <= r.stats.isrcBased + r.stats.textBased <= r.stats.total
  {
    RunKeepsCountersConsistent(a, Start(rows, existing), rows);
    RunCountsEveryRow(a, Start(rows, existing), rows);
  }

  /** The ids from position `from` on were each new when appended. */
  predicate FreshFrom(ids: seq<string>, from: nat)
  {
    forall k :: from <= k < |ids| ==> ids[k] !in ids[..k]
  }

  /**
   * The playlist's ids only grow, and an id already among them is never
   * appended again.
   */
  lemma {:induction false} RunOnlyAppendsNewIds(a: Actions, p: Progress, rows: seq<TrackRow>, from: nat)
    requires from <= |p.existing| && FreshFrom(p.existing, from)
    ensures var r := Run(a, p, rows);
            && |p.existing| <= |r.existing| && r.existing[..|p.existing|] == p.existing
            && FreshFrom(r.existing, from)
    decreases |rows|
  {
    if rows != [] {
      var next := Step(a, p, rows[0]);
      assert next.existing[..|p.existing|] == p.existing;
      RunOnlyAppendsNewIds(a, next, rows[1..], from);
      var r := Run(a, p, rows);
      assert r.existing[..|next.existing|][..|p.existing|] == r.existing[..|p.existing|];
    }
  }

  /**
   * Every song a row resolves to and whose add call succeeds is in the
   * playlist's ids after the run: it was there already or it was added.
   */
  lemma {:induction false} AddedSongsEndUpPresent(a: Actions, p: Progress, rows: seq<TrackRow>)
    ensures forall k :: 0 <= k < |rows| && a.resolve(rows[k]).Resolved? && AddSucceeds(a.add(a.resolve(rows[k]).songId)) ==>
              a.resolve(rows[k]).songId in Run(a, p, rows).existing
    decreases |rows|
  {
    if rows != [] {
      var next := Step(a, p, rows[0]);
      AddedSongsEndUpPresent(a, next, rows[1..]);
      RunOnlyAppendsNewIds(a, next, rows[1..], |next.existing|);
      var r := Run(a, p, rows);
      assert r == Run(a, next, rows[1..]);
      if a.resolve(rows[0]).Resolved? && AddSucceeds(a.add(a.resolve(rows[0]).songId)) {
        var s := a.resolve(rows[0]).songId;
        assert s in next.existing;
        assert next.existing == r.existing[..|next.existing|];
        assert s in r.existing;
      }
      forall k | 1 <= k < |rows| && a.resolve(rows[k]).Resolved? && AddSucceeds(a.add(a.resolve(rows[k]).songId))
        ensures a.resolve(rows[k]).songId in r.existing
      {
        assert rows[k] == rows[1..][k - 1];
      }
    }
  }

  /**
   * When every add call succeeds, every song a row resolves to is in the
   * playlist's ids after the run.
   */
  lemma ResolvedSongsEndUpPresent(a: Actions, p: Progress, rows: seq<TrackRow>)
    requires forall s :: AddSucceeds(a.add(s))
    ensures forall k :: 0 <= k < |rows| && a.resolve(rows[k]).Resolved? ==>
              a.resolve(rows[k]).songId in Run(a, p, rows).existing
  {
    AddedSongsEndUpPresent(a, p, rows);
  }

  /**
   * When every song the rows resolve to is already in the playlist or its
   * add call fails, a run converts nothing and appends no id.
   */
  lemma {:induction false} PresentOrFailingConvertNothing(a: Actions, p: Progress, rows: seq<TrackRow>)
    requires forall k :: 0 <= k < |rows| && a.resolve(rows[k]).Resolved? ==>
               a.resolve(rows[k]).songId in p.existing || !AddSucceeds(a.add(a.resolve(rows[k]).songId))
    ensures Run(a, p, rows).stats.converted == p.stats.converted
    ensures Run(a, p, rows).existing == p.existing
    decreases |rows|
  {
    if rows != [] {
      var next := Step(a, p, rows[0]);
      assert next.existing == p.existing;
      assert forall k :: 0 <= k < |rows[1..]| ==> rows[1..][k] == rows[k + 1];
      PresentOrFailingConvertNothing(a, next, rows[1..]);
    }
  }

  /**
   * When every song the rows resolve to is already in the playlist, a run
   * converts nothing and appends no id.
   */
  lemma PresentSongsConvertNothing(a: Actions, p: Progress, rows: seq<TrackRow>)
    requires forall k :: 0 <= k < |rows| && a.resolve(rows[k]).Resolved? ==> a.resolve(rows[k]).songId in p.existing
    ensures Run(a, p, rows).stats.converted == p.stats.converted
    ensures Run(a, p, rows).existing == p.existing
  {
    PresentOrFailingConvertNothing(a, p, rows);
  }

  /**
   * Running the same rows again with the same replies, on a playlist
   * holding at least what the first run left, converts nothing: a song the
   * first run added is present, and a song whose add failed fails again.
   */
  lemma SecondRunConvertsNothing(a: Actions, rows: seq<TrackRow>, first: Progress, second: Progress)
    requires forall s :: s in Run(a, first, rows).existing ==> s in second.existing
    ensures Run(a, second, rows).stats.converted == second.stats.converted
    ensures Run(a, second, rows).existing == second.existing
  {
    AddedSongsEndUpPresent(a, first, rows);
    PresentOrFailingConvertNothing(a, second, rows);
  }

  // ---------------------------------------------------------------------
  // Batches

  /** `rows.slice(i, i + size)` for `i = 0, size, 2 * size, ...`. */
  function Batches<T>(rows: seq<T>, size: nat): (bs: seq<seq<T>>)
    requires size >= 1
    ensures forall k :: 0 <= k < |bs| ==> 1 <= |bs[k]| <= size
    decreases |rows|
  {
    if rows == [] then []
    else if |rows| <= size then [rows]
    else [rows[..size]] + Batches(rows[size..], size)
  }

  function Flatten<T>(bs: seq<seq<T>>): seq<T>
  {
    if bs == [] then [] else bs[0] + Flatten(bs[1..])
  }

  /** Where batch `b` starts: after `b` full batches. */
  function BatchStart(b: nat, size: nat): nat
  {
    if b == 0 then 0 else BatchStart(b - 1, size) + size
  }

  lemma {:induction false} BatchStartIsProduct(b: nat, size: nat)
    ensures BatchStart(b, size) == b * size
  {
    if b > 0 {
      BatchStartIsProduct(b - 1, size);
      assert (b - 1) * size + size == b * size;
    }
  }

  /** Batch `b` is the slice of the rows from `BatchStart(b, size)`, of at most `size` rows. */
  lemma {:induction false} BatchAt<T>(rows: seq<T>, size: nat, b: nat, lo: nat, hi: nat)
    requires size >= 1 && lo == BatchStart(b, size) < |rows| && hi == Min(lo + size, |rows|)
    ensures b < |Batches(rows, size)| && Batches(rows, size)[b] == rows[lo..hi]
    decreases b
  {
    if b > 0 {
      var rest := rows[size..];
      BatchAt(rest, size, b - 1, lo - size, hi - size);
      assert Batches(rows, size) == [rows[..size]] + Batches(rest, size);
      DropSlice(rows, size, lo - size, hi - size);
    }
  }

  /** A slice of `rows[n..]` is the slice of `rows` shifted by `n`. */
  lemma DropSlice<T>(rows: seq<T>, n: nat, lo: nat, hi: nat)
    requires n <= |rows| && lo <= hi <= |rows| - n
    ensures rows[n..][lo..hi] == rows[n + lo..n + hi]
  {
  }

  /**
   * Running the rows left from batch `b` on is running batch `b`, then the
   * rows left from batch `b + 1` on.
   */
  lemma NextBatch(a: Actions, p: Progress, batches: seq<seq<TrackRow>>, b: nat, rest: seq<TrackRow>)
    requires b < |batches| && Flatten(batches[b..]) == rest
    ensures |batches[b]| <= |rest|
    ensures rest[..|batches[b]|] == batches[b]
    ensures Flatten(batches[b + 1..]) == rest[|batches[b]|..]
    ensures Run(a, p, rest) == Run(a, Run(a, p, batches[b]), Flatten(batches[b + 1..]))
  {
    assert batches[b..][1..] == batches[b + 1..];
    RunSplit(a, p, rest, |batches[b]|);
  }

  /** The batches, put back together in order, are the rows. */
  lemma {:induction false} BatchesCoverRows<T>(rows: seq<T>, size: nat)
    requires size >= 1
    ensures Flatten(Batches(rows, size)) == rows
    decreases |rows|
  {
    if rows != [] && |rows| > size {
      BatchesCoverRows(rows[size..], size);
      var bs := Batches(rows, size);
      assert bs[1..] == Batches(rows[size..], size);
      assert rows == rows[..size] + rows[size..];
    }
  }

  // ---------------------------------------------------------------------
  // The command

  /** How `convertPlaylist` ends. */
  datatype ConvertResult =
    | Exited(reason: FatalReason)          // getOrCreatePlaylist ended the process
    | Rejected(thrown: Option<Failure>)    // getPlaylistCatalogIds threw
    | BadCsv(csvError: CsvError)           // readCsv threw
    | Done(progress: Progress)             // every row was processed

  /**
   * What `convertPlaylist` does with the CSV file at `path` holding
   * `content`. The steps run in order, each only when the one before it
   * succeeded; a run that gets through them counts every row of the file
   * once, as converted, failed or abandoned.
   */
  function Conversion(env: Env, net: Network, path: string, content: string): (r: ConvertResult)
    ensures var playlist := GetOrCreatePlaylist(DerivePlaylistName(path), net.listPlaylists, net.createPlaylist);
            && (r.Exited? <==> playlist.Fatal?)
            && (r.Exited? ==> r.reason == playlist.reason)
            && (r.Rejected? <==> !playlist.Fatal? && GetPlaylistCatalogIds(net.playlistTracks(playlist.id)).Raised?)
            && (r.BadCsv? <==>
                  && !playlist.Fatal? && GetPlaylistCatalogIds(net.playlistTracks(playlist.id)).Returned?
                  && CsvContents(content).Err?)
            && (r.BadCsv? ==> CsvContents(content) == Err(r.csvError))
    ensures r.Done? ==>
              && CsvContents(content).Ok?
              && r.progress.stats.total == |CsvContents(content).value.rows|
              && r.progress.stats.converted + r.progress.stats.failed + r.progress.crashed == r.progress.stats.total
  {
    var name := DerivePlaylistName(path);
    var playlist := GetOrCreatePlaylist(name, net.listPlaylists, net.createPlaylist);
    if playlist.Fatal? then Exited(playlist.reason)
    else
      var ids := GetPlaylistCatalogIds(net.playlistTracks(playlist.id));
      if ids.Raised? then Rejected(ids.error)
      else match CsvContents(content)
        case Err(e) => BadCsv(e)
        case Ok(data) =>
          RunCountsEveryRow(ActionsOf(env, net, playlist.id), Start(data.rows, ids.value), data.rows);
          Done(Run(ActionsOf(env, net, playlist.id), Start(data.rows, ids.value), data.rows))
  }

  /**
   * `convertPlaylist`: the set-up calls, then the rows in batches of
   * `batchSize`, each batch's rows in order.
   */
  method ConvertPlaylist(env: Env, net: Network, path: string, content: string, batchSize: nat) returns (r: ConvertResult)
    requires batchSize >= 1
    ensures r == Conversion(env, net, path, content)
  {
    var name := DerivePlaylistName(path);
    var playlist := GetOrCreatePlaylist(name, net.listPlaylists, net.createPlaylist);
    if playlist.Fatal? {
      return Exited(playlist.reason);
    }
    var ids := GetPlaylistCatalogIds(net.playlistTracks(playlist.id));
    if ids.Raised? {
      return Rejected(ids.error);
    }
    var csv := ReadCsv(content);
    if csv.Err? {
      return BadCsv(csv.error);
    }
    var rows := csv.value.rows;
    ghost var a := ActionsOf(env, net, playlist.id);
    ActionsOfRealizes(env, net, playlist.id);
    var progress := ProcessRows(env, net, playlist.id, a, rows, Start(rows, ids.value), batchSize);
    r := Done(progress);
  }

  /** The batch loop of `convertPlaylist`. */
  method ProcessRows(env: Env, net: Network, playlistId: string, ghost a: Actions,
                     rows: seq<TrackRow>, start: Progress, batchSize: nat) returns (p: Progress)
    requires Realizes(a, env, net, playlistId)
    requires batchSize >= 1
    ensures p == Run(a, start, rows)
  {
    p := start;
    var i := 0;
    ghost var b := 0;
    ghost var rest := rows;
    while i < |rows|
      invariant i == BatchStart(b, batchSize)
      invariant rest == if i < |rows| then rows[i..] else []
      invariant Run(a, p, rest) == Run(a, start, rows)
      decreases |rows| - i
    {
      p, rest := RunBatch(env, net, playlistId, a, p, rows, batchSize, b, i);
      i := i + batchSize;
      b := b + 1;
    }
  }

  /**
   * One pass of the batch loop: `rows.slice(i, i + batchSize)`, which is
   * batch `b`, run in order; what is left to run starts at its end.
   */
  method RunBatch(env: Env, net: Network, playlistId: string, ghost a: Actions, p: Progress,
                  rows: seq<TrackRow>, batchSize: nat, ghost b: nat, i: nat)
    returns (next: Progress, ghost left: seq<TrackRow>)
    requires Realizes(a, env, net, playlistId)
    requires batchSize >= 1 && i == BatchStart(b, batchSize) < |rows|
    ensures b < |Batches(rows, batchSize)| && next == Run(a, p, Batches(rows, batchSize)[b])
    ensures left == if i + batchSize < |rows| then rows[i + batchSize..] else []
    ensures Run(a, next, left) == Run(a, p, rows[i..])
  {
    var end := Min(i + batchSize, |rows|);
    BatchStep(a, p, rows, batchSize, b, i, end);
    next := ProcessBatch(env, net, playlistId, a, p, rows[i..end]);
    left := rows[end..];
  }

  /**
   * The slice a pass takes is batch `b`, and running the rows from `i` on
   * is running that slice, then the rows after it.
   */
  lemma BatchStep(a: Actions, p: Progress, rows: seq<TrackRow>, size: nat, b: nat, i: nat, end: nat)
    requires size >= 1 && i == BatchStart(b, size) < |rows| && end == Min(i + size, |rows|)
    ensures b < |Batches(rows, size)| && Batches(rows, size)[b] == rows[i..end]
    ensures rows[end..] == if i + size < |rows| then rows[i + size..] else []
    ensures Run(a, p, rows[i..]) == Run(a, Run(a, p, rows[i..end]), rows[end..])
  {
    BatchAt(rows, size, b, i, end);
    RunSlices(a, p, rows, i, end);
    if i + size >= |rows| {
      assert end == |rows|;
    }
  }

  /** Running `rows[i..]` is running `rows[i..end]`, then `rows[end..]`. */
  lemma RunSlices(a: Actions, p: Progress, rows: seq<TrackRow>, i: nat, end: nat)
    requires i <= end <= |rows|
    ensures Run(a, p, rows[i..]) == Run(a, Run(a, p, rows[i..end]), rows[end..])
  {
    RunSplit(a, p, rows[i..], end - i);
    assert rows[i..][..end - i] == rows[i..end];
    assert rows[i..][end - i..] == rows[end..];
  }

  /** One batch: its rows in order. */
  method ProcessBatch(env: Env, net: Network, playlistId: string, ghost a: Actions,
                      start: Progress, batch: seq<TrackRow>) returns (p: Progress)
    requires Realizes(a, env, net, playlistId)
    ensures p == Run(a, start, batch)
  {
    p := start;
    var j := 0;
    while j < |batch|
      invariant 0 <= j <= |batch|
      invariant Run(a, p, batch[j..]) == Run(a, start, batch)
    {
      RunFrom(a, p, batch, j);
      p := ProcessRow(env, net, playlistId, a, p, batch[j]);
      j := j + 1;
    }
  }
}
