/** Track handling in the server: `extractYouTubeId`, and the part of
    `getSongFromYouTube` / `getSongFromSpotify` that does not touch the network.
    The answers of the network calls are the `Lookup` parameter. */
module Tracks {
  import opened Schema
  import opened JsString

  const WatchMarker: string := "youtube.com/watch?v="
  const ShortMarker: string := "youtu.be/"
  const EmbedMarker: string := "youtube.com/embed/"

  /** The prefix of the URL the resolver stores for every song. */
  const WatchUrlPrefix: string := "https://www.youtube.com/watch?v="

  /** `[^&\n?#]`: a character the video-id group may contain. */
  predicate IdChar(c: char)
  {
    c != '&' && c != '\n' && c != '?' && c != '#'
  }

  /** `[a-zA-Z0-9_-]`: a character of a bare 11-character id. */
  predicate BareIdChar(c: char)
  {
    ('a' <= c <= 'z') || ('A' <= c <= 'Z') || ('0' <= c <= '9') || c == '_' || c == '-'
  }

  /** `^([a-zA-Z0-9_-]{11})$` (without the multiline flag `$` is the end of input). */
  predicate IsBareId(s: string)
  {
    |s| == 11 && forall k :: 0 <= k < |s| ==> BareIdChar(s[k])
  }

  /** A non-empty id the first pattern's group can capture in full. */
  predicate ValidId(id: string)
  {
    id != [] && forall k :: 0 <= k < |id| ==> IdChar(id[k])
  }

  /** Marker `m` sits at index `i` of `s` and is followed by at least one id character. */
  predicate MatchWith(s: string, i: int, m: string)
  {
    0 <= i && i + |m| < |s| && s[i..i + |m|] == m && IdChar(s[i + |m|])
  }

  /** The first pattern, `(?:youtube\.com\/watch\?v=|youtu\.be\/|youtube\.com\/embed\/)([^&\n?#]+)`,
      matches at index `i`. */
  predicate MatchAt(s: string, i: int)
  {
    MatchWith(s, i, WatchMarker) || MatchWith(s, i, ShortMarker) || MatchWith(s, i, EmbedMarker)
  }

  /** The index just after the marker of a match at `i`. */
  function GroupStart(s: string, i: int): (j: nat)
    requires MatchAt(s, i)
    ensures i < j < |s| && IdChar(s[j])
  {
    if MatchWith(s, i, WatchMarker) then i + |WatchMarker|
    else if MatchWith(s, i, ShortMarker) then i + |ShortMarker|
    else i + |EmbedMarker|
  }

  /** The greedy run `[^&\n?#]*` starting at index `j`: the longest slice of id characters. */
  function Run(s: string, j: nat): (t: string)
    requires j <= |s|
    ensures j + |t| <= |s| && t == s[j..j + |t|]
    ensures forall k :: 0 <= k < |t| ==> IdChar(t[k])
    ensures j + |t| == |s| || !IdChar(s[j + |t|])
    decreases |s| - j
  {
    if j < |s| && IdChar(s[j]) then [s[j]] + Run(s, j + 1) else []
  }

  /** The captured group of a match at `i`. */
  function GroupAt(s: string, i: int): (g: string)
    requires MatchAt(s, i)
    ensures ValidId(g)
  {
    var j := GroupStart(s, i);
    var g := Run(s, j);
    assert g[0] == s[j];
    g
  }

  /** `i` is where the regex search stops: a match, and none further left. */
  predicate LeftmostMatch(s: string, i: int)
  {
    MatchAt(s, i) && forall j :: 0 <= j < i ==> !MatchAt(s, j)
  }

  /** Scans for the first pattern from index `i` on. */
  function FindFrom(s: string, i: nat): (r: Option<string>)
    requires i <= |s|
    ensures r.None? <==> forall j :: i <= j ==> !MatchAt(s, j)
    ensures r.Some? ==> exists k :: i <= k && MatchAt(s, k) && (forall j :: i <= j < k ==> !MatchAt(s, j)) && r.value == GroupAt(s, k)
    decreases |s| - i
  {
    if i == |s| then None
    else if MatchAt(s, i) then Some(GroupAt(s, i))
    else FindFrom(s, i + 1)
  }

  /** `extractYouTubeId(url)`: the group of the leftmost match of the first pattern;
      failing that the whole input when it is a bare id; otherwise null. */
  function ExtractYouTubeId(url: string): (r: Option<string>)
    ensures r.Some? ==> ValidId(r.value)
  {
    var found := FindFrom(url, 0);
    if found.Some? then found
    else if IsBareId(url) then Some(url)
    else None
  }

  /** What `extractYouTubeId` answers, stated on the patterns: the leftmost match wins,
      and only an input with no match at all is tried as a bare id. */
  lemma ExtractYouTubeIdMeaning(url: string)
    ensures (exists i :: MatchAt(url, i)) ==>
      exists i :: LeftmostMatch(url, i) && ExtractYouTubeId(url) == Some(GroupAt(url, i))
    ensures (forall i :: !MatchAt(url, i)) ==>
      ExtractYouTubeId(url) == if IsBareId(url) then Some(url) else None
  {
    var found := FindFrom(url, 0);
    if found.Some? {
      var k :| 0 <= k && MatchAt(url, k) && (forall j :: 0 <= j < k ==> !MatchAt(url, j)) && found.value == GroupAt(url, k);
      assert LeftmostMatch(url, k);
    }
  }

  /** Every marker starts with 'y'. */
  lemma MatchStartsWithY(s: string, i: int)
    requires MatchAt(s, i)
    ensures s[i] == 'y'
  {
    var m := if MatchWith(s, i, WatchMarker) then WatchMarker
      else if MatchWith(s, i, ShortMarker) then ShortMarker else EmbedMarker;
    assert s[i..i + |m|][0] == m[0];
  }

  /** A search has one stopping point. */
  lemma LeftmostIsUnique(s: string, i: int, k: int)
    requires LeftmostMatch(s, i) && LeftmostMatch(s, k)
    ensures i == k
  {
  }

  /** The URL the resolver builds from a video id. */
  function WatchUrl(id: string): (u: string)
    ensures |u| == |WatchUrlPrefix| + |id|
    ensures u[..|WatchUrlPrefix|] == WatchUrlPrefix && u[|WatchUrlPrefix|..] == id
  {
    WatchUrlPrefix + id
  }

  /** No marker starts inside "https://www.". */
  lemma NoMatchInScheme(id: string, j: int)
    requires 0 <= j < |WatchUrlPrefix| - |WatchMarker|
    ensures !MatchAt(WatchUrl(id), j)
  {
    var u := WatchUrl(id);
    assert u[j] == WatchUrlPrefix[j];
    assert WatchUrlPrefix[..12] == "https://www.";
    assert u[j] != 'y';
    if MatchAt(u, j) {
      MatchStartsWithY(u, j);
    }
  }

  /** The watch marker of a watch URL is followed by the id, which the group captures whole. */
  lemma MatchAtWatchMarker(id: string)
    requires ValidId(id)
    ensures MatchAt(WatchUrl(id), |WatchUrlPrefix| - |WatchMarker|)
    ensures GroupAt(WatchUrl(id), |WatchUrlPrefix| - |WatchMarker|) == id
  {
    var u := WatchUrl(id);
    var start := |WatchUrlPrefix| - |WatchMarker|;
    assert u[..|WatchUrlPrefix|] == WatchUrlPrefix;
    assert u[start..start + |WatchMarker|] == WatchMarker;
    assert u[|WatchUrlPrefix|] == id[0];
    assert MatchWith(u, start, WatchMarker);
    assert GroupStart(u, start) == |WatchUrlPrefix|;
    var g := Run(u, |WatchUrlPrefix|);
    assert u[|WatchUrlPrefix|..] == id;
    assert g == id;
  }

  /** The stored URL gives back the id it was built from. */
  lemma WatchUrlRoundTrip(id: string)
    requires ValidId(id)
    ensures ExtractYouTubeId(WatchUrl(id)) == Some(id)
  {
    var u := WatchUrl(id);
    var start := |WatchUrlPrefix| - |WatchMarker|;
    forall j | 0 <= j < start ensures !MatchAt(u, j) {
      NoMatchInScheme(id, j);
    }
    MatchAtWatchMarker(id);
    assert LeftmostMatch(u, start);
    ExtractYouTubeIdMeaning(u);
    var i :| LeftmostMatch(u, i) && ExtractYouTubeId(u) == Some(GroupAt(u, i));
    LeftmostIsUnique(u, i, start);
  }

  /** An id the parser returns survives being put into a watch URL and parsed again. */
  lemma ReparseExtracted(url: string)
    requires ExtractYouTubeId(url).Some?
    ensures ExtractYouTubeId(WatchUrl(ExtractYouTubeId(url).value)) == ExtractYouTubeId(url)
  {
    WatchUrlRoundTrip(ExtractYouTubeId(url).value);
  }

  /** The Piped `/streams` answer of the first reachable mirror that lists an audio stream. */
  datatype VideoInfo = VideoInfo(title: string, uploader: Option<string>, duration: nat, thumbnailUrl: Option<string>)

  /** The answers of the network calls one resolution makes: the id of the first video
      the search finds for a Spotify track, the Piped metadata, and `randomUUID()`. */
  datatype Lookup = Lookup(searchHit: Option<string>, video: Option<VideoInfo>, songId: string)

  const YouTubeFailure: string := "Failed to fetch YouTube video information"
  const SpotifyFailure: string := "Failed to fetch Spotify track information"
  const UnsupportedUrl: string := "Unsupported URL. Please use YouTube or Spotify links."

  /** `getSongFromYouTube(url)`: needs an id in the URL and an answer from Piped. */
  function SongFromYouTube(url: string, video: Option<VideoInfo>, songId: string): (r: Result<Song>)
    ensures r.Ok? <==> ExtractYouTubeId(url).Some? && video.Some?
    ensures r.Ok? ==>
      && r.value.id == songId
      && r.value.url == WatchUrl(ExtractYouTubeId(url).value)
      && r.value.source == Youtube
    ensures r.Err? ==> r.message == YouTubeFailure
  {
    var videoId := ExtractYouTubeId(url);
    if videoId.None? || video.None? then Err(YouTubeFailure)
    else
      var v := video.value;
      Ok(Song(
        songId,
        v.title,
        Some(if v.uploader.Some? && v.uploader.value != "" then v.uploader.value else "Unknown"),
        Some(v.duration / 1000),
        WatchUrl(videoId.value),
        v.thumbnailUrl,
        Youtube))
  }

  /** `getSongFromSpotify(url)`: resolves the search hit's watch URL as a YouTube song. */
  function SongFromSpotify(lookup: Lookup): (r: Result<Song>)
    ensures r.Err? ==> r.message == SpotifyFailure
  {
    if lookup.searchHit.None? then Err(SpotifyFailure)
    else match SongFromYouTube(WatchUrl(lookup.searchHit.value), lookup.video, lookup.songId)
      case Ok(song) => Ok(song)
      case Err(_) => Err(SpotifyFailure)
  }

  /** The URL classification of `add_song`: Spotify first, then YouTube, else unsupported. */
  function ResolveSong(url: string, lookup: Lookup): (r: Result<Song>)
    ensures Includes(url, "spotify.com") ==> r.Err? ==> r.message == SpotifyFailure
    ensures !Includes(url, "spotify.com") && (Includes(url, "youtube.com") || Includes(url, "youtu.be")) ==>
      r.Err? ==> r.message == YouTubeFailure
    ensures r == Err(UnsupportedUrl) <==>
      !Includes(url, "spotify.com") && !Includes(url, "youtube.com") && !Includes(url, "youtu.be")
    ensures r.Ok? ==> r.value.source == Youtube && r.value.id == lookup.songId
  {
    if Includes(url, "spotify.com") then SongFromSpotify(lookup)
    else if Includes(url, "youtube.com") || Includes(url, "youtu.be") then SongFromYouTube(url, lookup.video, lookup.songId)
    else Err(UnsupportedUrl)
  }

  /** A Spotify track whose search hit is a usable id is stored under that video's watch URL. */
  lemma SpotifyHitKeepsVideoId(hit: string, video: VideoInfo, songId: string)
    requires ValidId(hit)
    ensures SongFromSpotify(Lookup(Some(hit), Some(video), songId)).Ok?
    ensures SongFromSpotify(Lookup(Some(hit), Some(video), songId)).value.url == WatchUrl(hit)
  {
    WatchUrlRoundTrip(hit);
  }

  /** Every resolved song's URL parses again to the id it was built from, so the
      extraction at the start of streaming never fails on it. */
  lemma ResolvedSongReparses(url: string, lookup: Lookup)
    requires ResolveSong(url, lookup).Ok?
    ensures exists id :: ValidId(id) && ResolveSong(url, lookup).value.url == WatchUrl(id)
    ensures ExtractYouTubeId(ResolveSong(url, lookup).value.url).Some?
  {
    var song := ResolveSong(url, lookup).value;
    var source := if Includes(url, "spotify.com") then WatchUrl(lookup.searchHit.value) else url;
    assert song == SongFromYouTube(source, lookup.video, lookup.songId).value;
    var id := ExtractYouTubeId(source).value;
    WatchUrlRoundTrip(id);
  }
}
