/** Turning the flat playlist listing into video records: classification of each
    entry (placeholder, private, public), the canonical watch URL, and the
    metadata enrichment that runs only for public entries with a URL. */
module Playlist {
  import opened Wrappers
  import opened Text
  import opened UploadDate

  const WatchUrlPrefix := "https://www.youtube.com/watch?v="
  const PrivateSentinel := "[private video]"
  const UnknownPlaylist := "Unknown Playlist"

  /** A string field of a flat entry: the key may be missing, present as JSON
      `null`, or present with a string. */
  datatype Field = Missing | Null | Str(text: string)

  /** One element of the listing's `entries`: JSON `null`, or an object with its
      `id` and `title` fields and the number of other keys it carries. */
  datatype RawEntry =
    | NullEntry
    | Entry(id: Field, title: Field, otherKeys: nat)

  /** The flat listing: the playlist's `title` (if any) and its entries. A failed
      or unparsable run of the extraction tool is the empty listing. */
  datatype Listing = Listing(title: Option<string>, entries: seq<RawEntry>)

  /** What the single-video extraction returns: `upload_date` and `duration`,
      each possibly absent; a failed run has both absent. */
  datatype Metadata = Metadata(uploadDate: Option<string>, duration: Option<int>)

  /** A video as the importer keeps it between listing and writing. */
  datatype VideoRecord = VideoRecord(
    title: string,
    url: Option<string>,
    ogAddedIso: Option<string>,
    lengthSec: Option<int>,
    isPrivate: bool)

  /** `dict.get(key)` on a string field. */
  function Get(f: Field): Option<string> {
    if f.Str? then Some(f.text) else None
  }

  /** Python's `not entry`: `None` or an object with no keys at all. */
  predicate IsEmptyEntry(e: RawEntry) {
    e.NullEntry? || (e.id.Missing? && e.title.Missing? && e.otherKeys == 0)
  }

  /** `playlist_name`: the listing's title, "Unknown Playlist" when it has none. */
  function PlaylistName(l: Listing): string {
    l.title.GetOr(UnknownPlaylist)
  }

  function PrivateTitle(playlistName: string): string {
    "Private Video -> " + playlistName
  }

  function WatchUrl(id: string): string {
    WatchUrlPrefix + id
  }

  /** The video id a canonical watch URL carries, if it is one. */
  function VideoIdOf(url: string): (r: Option<string>)
    ensures r.Some? ==> WatchUrl(r.value) == url
  {
    if |url| >= |WatchUrlPrefix| && url[..|WatchUrlPrefix|] == WatchUrlPrefix
    then
      assert url == url[..|WatchUrlPrefix|] + url[|WatchUrlPrefix|..];
      Some(url[|WatchUrlPrefix|..])
    else None
  }

  lemma WatchUrlRoundTrip(id: string)
    ensures VideoIdOf(WatchUrl(id)) == Some(id)
  {
    assert WatchUrl(id)[..|WatchUrlPrefix|] == WatchUrlPrefix;
  }

  /** `title.lower() == "[private video]"`. Lower-casing only ASCII letters gives
      the same verdict as Python's full lower-casing here, since no other
      character lower-cases into a string of ASCII characters from the sentinel. */
  predicate IsSentinel(title: string) {
    AsciiLower(title) == PrivateSentinel
  }

  /** The sentinel check ignores exactly the case of the letters. */
  lemma SentinelIgnoresCase(title: string)
    ensures IsSentinel(title) <==>
              && |title| == |PrivateSentinel|
              && forall i | 0 <= i < |title| ::
                   title[i] == PrivateSentinel[i]
                   || ('a' <= PrivateSentinel[i] <= 'z' && title[i] as int == PrivateSentinel[i] as int - 32)
  {
    var low := AsciiLower(title);
    if |title| == |PrivateSentinel| {
      if forall i | 0 <= i < |title| ::
           title[i] == PrivateSentinel[i]
           || ('a' <= PrivateSentinel[i] <= 'z' && title[i] as int == PrivateSentinel[i] as int - 32)
      {
        assert forall i | 0 <= i < |title| :: low[i] == PrivateSentinel[i];
      }
    }
  }

  /** The record for one entry before enrichment: placeholder, private or public,
      with no upload date or length yet. */
  function Classify(e: RawEntry, playlistName: string): (v: VideoRecord)
    ensures v.ogAddedIso.None? && v.lengthSec.None?
    ensures v.url.Some? <==> !IsEmptyEntry(e) && Get(e.id).Some? && Get(e.id).value != ""
    ensures v.url.Some? ==> VideoIdOf(v.url.value) == Get(e.id) && v.url.value != ""
    ensures v.isPrivate <==>
              || IsEmptyEntry(e)
              || Get(e.title).None? || Get(e.title) == Some("")
              || IsSentinel(Get(e.title).value)
    ensures v.isPrivate ==> v.title == PrivateTitle(playlistName)
    ensures !v.isPrivate ==> Some(v.title) == Get(e.title)
  {
    if IsEmptyEntry(e) then
      VideoRecord(PrivateTitle(playlistName), None, None, None, true)
    else
      var id := Get(e.id);
      var url := if id.Some? && id.value != "" then Some(WatchUrl(id.value)) else None;
      var raw := Get(e.title);
      var isPrivate := raw.None? || raw.value == "" || IsSentinel(raw.value);
      var title := if isPrivate then PrivateTitle(playlistName) else raw.value;
      WatchUrlRoundTrip(id.GetOr(""));
      VideoRecord(title, url, None, None, isPrivate)
  }

  /** Enrichment runs for a public record with a (non-empty) URL. */
  predicate NeedsMetadata(v: VideoRecord) {
    !v.isPrivate && v.url.Some? && v.url.value != ""
  }

  /** Fills in upload date and length from the extraction tool when enrichment
      runs; a date `strptime` rejects raises, which fails the whole run. */
  function Enrich(v: VideoRecord, fetch: string -> Metadata): (r: Result<VideoRecord, DateError>)
    ensures !NeedsMetadata(v) ==> r == Success(v)
    ensures NeedsMetadata(v) ==>
              var md := fetch(v.url.value);
              && (r.Failure? <==> ToIsoDate(md.uploadDate).Failure?)
              && (r.Success? ==>
                    && r.value.title == v.title && r.value.url == v.url
                    && r.value.isPrivate == v.isPrivate
                    && r.value.lengthSec == md.duration
                    && Success(r.value.ogAddedIso) == ToIsoDate(md.uploadDate))
  {
    if NeedsMetadata(v) then
      var md := fetch(v.url.value);
      var date :- ToIsoDate(md.uploadDate);
      Success(v.(ogAddedIso := date, lengthSec := md.duration))
    else
      Success(v)
  }

  /** The record for one entry, enriched. */
  function RecordFor(e: RawEntry, playlistName: string, fetch: string -> Metadata): Result<VideoRecord, DateError>
  {
    Enrich(Classify(e, playlistName), fetch)
  }

  /** The records of all entries, in listing order; the first entry whose upload
      date `strptime` rejects aborts the whole listing with that error. */
  function BuildRecords(entries: seq<RawEntry>, playlistName: string, fetch: string -> Metadata)
    : (r: Result<seq<VideoRecord>, DateError>)
    ensures r.Success? ==>
              && |r.value| == |entries|
              && forall i | 0 <= i < |entries| :: RecordFor(entries[i], playlistName, fetch) == Success(r.value[i])
    ensures r.Failure? ==>
              exists i | 0 <= i < |entries| ::
                && RecordFor(entries[i], playlistName, fetch) == Failure(r.error)
                && forall j | 0 <= j < i :: RecordFor(entries[j], playlistName, fetch).Success?
    ensures r.Success? <==> forall i | 0 <= i < |entries| :: RecordFor(entries[i], playlistName, fetch).Success?
  {
    if |entries| == 0 then Success([])
    else
      match RecordFor(entries[0], playlistName, fetch)
      case Failure(e) => Failure(e)
      case Success(v) =>
        match BuildRecords(entries[1..], playlistName, fetch)
        case Failure(e) =>
          var k :| 0 <= k < |entries| - 1
                   && RecordFor(entries[1..][k], playlistName, fetch) == Failure(e)
                   && forall j | 0 <= j < k :: RecordFor(entries[1..][j], playlistName, fetch).Success?;
          assert RecordFor(entries[k + 1], playlistName, fetch) == Failure(e);
          Failure(e)
        case Success(vs) =>
          assert forall i | 1 <= i < |entries| :: entries[i] == entries[1..][i - 1];
          Success([v] + vs)
  }

  /** Conversely, when every entry yields its record, the listing yields exactly
      those records in order. */
  lemma BuildRecordsOf(entries: seq<RawEntry>, playlistName: string, fetch: string -> Metadata, vs: seq<VideoRecord>)
    requires |vs| == |entries|
    requires forall i | 0 <= i < |entries| :: RecordFor(entries[i], playlistName, fetch) == Success(vs[i])
    ensures BuildRecords(entries, playlistName, fetch) == Success(vs)
  {
    var r := BuildRecords(entries, playlistName, fetch);
    assert r.Success?;
    assert forall i | 0 <= i < |entries| :: r.value[i] == vs[i];
    assert r.value == vs;
  }

  /** `fetch_playlist_videos`: the records of the listing and the playlist name. */
  function FetchPlaylistVideos(listing: Listing, fetch: string -> Metadata)
    : (r: Result<(seq<VideoRecord>, string), DateError>)
    ensures r.Success? <==> BuildRecords(listing.entries, PlaylistName(listing), fetch).Success?
    ensures r.Success? ==>
              && BuildRecords(listing.entries, PlaylistName(listing), fetch) == Success(r.value.0)
              && |r.value.0| == |listing.entries| && r.value.1 == PlaylistName(listing)
              && forall i | 0 <= i < |listing.entries| ::
                   RecordFor(listing.entries[i], PlaylistName(listing), fetch) == Success(r.value.0[i])
    ensures r.Failure? ==> BuildRecords(listing.entries, PlaylistName(listing), fetch) == Failure(r.error)
  {
    var name := PlaylistName(listing);
    var vs :- BuildRecords(listing.entries, name, fetch);
    Success((vs, name))
  }

  /** The URLs the importer asks the extraction tool about, in order. */
  function QueriedUrls(entries: seq<RawEntry>, playlistName: string): seq<string>
  {
    if |entries| == 0 then []
    else
      var v := Classify(entries[0], playlistName);
      (if NeedsMetadata(v) then [v.url.value] else []) + QueriedUrls(entries[1..], playlistName)
  }

  /** The records depend on the extraction tool only through the URLs it is
      asked about: placeholders, private videos and URL-less entries never
      trigger a metadata lookup. */
  lemma {:induction false} OnlyQueriedUrlsMatter(
    entries: seq<RawEntry>, playlistName: string, fetch1: string -> Metadata, fetch2: string -> Metadata)
    requires forall u <- QueriedUrls(entries, playlistName) :: fetch1(u) == fetch2(u)
    ensures BuildRecords(entries, playlistName, fetch1) == BuildRecords(entries, playlistName, fetch2)
    decreases |entries|
  {
    if |entries| > 0 {
      var v := Classify(entries[0], playlistName);
      if NeedsMetadata(v) {
        assert v.url.value in QueriedUrls(entries, playlistName);
      }
      assert RecordFor(entries[0], playlistName, fetch1) == RecordFor(entries[0], playlistName, fetch2);
      assert forall u <- QueriedUrls(entries[1..], playlistName) :: u in QueriedUrls(entries, playlistName);
      OnlyQueriedUrlsMatter(entries[1..], playlistName, fetch1, fetch2);
    }
  }
}
