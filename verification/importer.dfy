/** One import run: check the configuration, list and enrich the playlist,
    collect the stored URLs, and write the missing videos. The extraction tool and
    the database are inputs: the listing and metadata lookups as functions, the
    query responses as a sequence of pages. */
module Importer {
  import opened Wrappers
  import opened Config
  import opened UploadDate
  import opened Playlist
  import opened Reconcile
  import opened Text

  /** Why a run stops early: a missing setting, or an upload date `strptime` rejects. */
  datatype ImportError = ConfigFailure(config: ConfigError) | DateFailure(date: DateError)

  /** What a completed run did: the pages it created and the count it reported. */
  datatype Outcome = Outcome(requests: seq<PageRequest>, added: nat)

  method Run(
    env: Env,
    listPlaylist: string -> Listing,
    fetch: string -> Metadata,
    responses: seq<seq<Page>>)
    returns (r: Result<Outcome, ImportError>)
    ensures r == Failure(ConfigFailure(MissingSetting)) <==> Load(env).Failure?
    ensures Load(env).Success? ==>
              var s := Load(env).value;
              var listing := listPlaylist(s.playlistUrl);
              var name := PlaylistName(listing);
              match BuildRecords(listing.entries, name, fetch)
              case Failure(e) => r == Failure(DateFailure(e))
              case Success(videos) =>
                && r.Success?
                && r.value.requests == Requests(videos, StoredUrls(Flatten(responses)), s, name)
                && r.value.added == |r.value.requests|
  {
    var loaded := Load(env);
    if loaded.Failure? {
      return Failure(ConfigFailure(loaded.error));
    }
    var s := loaded.value;
    var fetched := FetchPlaylistVideos(listPlaylist(s.playlistUrl), fetch);
    if fetched.Failure? {
      return Failure(DateFailure(fetched.error));
    }
    var (videos, name) := fetched.value;
    var existing := CollectExistingUrls(responses);
    var requests, added := AddVideos(videos, name, existing, s);
    return Success(Outcome(requests, added));
  }

  /** A playlist of a removed entry, a private video and a public video with id
      `abc123`, uploaded 2023-01-15 and 212 seconds long. */
  const ExampleEntries := [
    NullEntry,
    Entry(Str("xyz789"), Str("[Private Video]"), 0),
    Entry(Str("abc123"), Str("A talk"), 0)]

  function ExampleFetch(url: string): Metadata {
    Metadata(Some("20230115"), Some(212))
  }

  lemma ExampleUploadDate()
    ensures ToIsoDate(Some("20230115")) == Success(Some("2023-01-15"))
  {
    var d := "20230115";
    assert d[..4] == "2023" && d[4..6] == "01" && d[6..] == "15";
    Year2023(d);
    TwoDigitValue("01");
    TwoDigitValue("15");
    assert "2023" + "-" + "01" + "-" + "15" == "2023-01-15";
    assert IsValidDate(Date(2023, 1, 15));
    EightDigitConversion(d);
  }

  lemma ExamplePrivateTitle()
    ensures IsSentinel("[Private Video]")
  {
    SentinelIgnoresCase("[Private Video]");
  }

  const ExampleVideos := [
    VideoRecord(PrivateTitle("Talks"), None, None, None, true),
    VideoRecord(PrivateTitle("Talks"), Some(WatchUrl("xyz789")), None, None, true),
    VideoRecord("A talk", Some(WatchUrl("abc123")), Some("2023-01-15"), Some(212), false)]

  /** The removed entry becomes a URL-less private placeholder. */
  lemma ExampleRemovedEntry()
    ensures RecordFor(ExampleEntries[0], "Talks", ExampleFetch) == Success(ExampleVideos[0])
  {
  }

  /** The entry titled "[Private Video]" keeps its URL but is not looked up. */
  lemma ExamplePrivateEntry()
    ensures RecordFor(ExampleEntries[1], "Talks", ExampleFetch) == Success(ExampleVideos[1])
  {
    ExamplePrivateTitle();
    var v := Classify(ExampleEntries[1], "Talks");
    assert v.isPrivate && v.url == Some(WatchUrl("xyz789"));
  }

  /** The public entry is looked up and gets its date and length. */
  lemma ExamplePublicEntry()
    ensures RecordFor(ExampleEntries[2], "Talks", ExampleFetch) == Success(ExampleVideos[2])
  {
    ExampleUploadDate();
    var v := Classify(ExampleEntries[2], "Talks");
    assert !IsSentinel("A talk") by {
      assert AsciiLower("A talk")[0] != PrivateSentinel[0];
    }
    assert !v.isPrivate && v.url == Some(WatchUrl("abc123")) && v.title == "A talk";
  }

  /** The example yields two private records, one of them without a URL, and one
      enriched public record. */
  lemma ExampleRecords()
    ensures BuildRecords(ExampleEntries, "Talks", ExampleFetch) == Success(ExampleVideos)
  {
    forall i | 0 <= i < |ExampleEntries|
      ensures RecordFor(ExampleEntries[i], "Talks", ExampleFetch) == Success(ExampleVideos[i])
    {
      if i == 0 {
        ExampleRemovedEntry();
      } else if i == 1 {
        ExamplePrivateEntry();
      } else {
        ExamplePublicEntry();
      }
    }
    BuildRecordsOf(ExampleEntries, "Talks", ExampleFetch, ExampleVideos);
  }

  /** Against a database that already holds the public video, the example adds
      the two private records and skips the public one. */
  lemma ExampleReconcile()
    ensures Kept(ExampleVideos, {WatchUrl("abc123")}) == ExampleVideos[..2]
  {
    var videos := ExampleVideos;
    var existing := {WatchUrl("abc123")};
    assert WatchUrl("xyz789") != WatchUrl("abc123") by {
      assert WatchUrl("xyz789")[|WatchUrlPrefix|] != WatchUrl("abc123")[|WatchUrlPrefix|];
    }
    KeptAppend(videos[..2], [videos[2]], existing);
    KeptAppend(videos[..1], [videos[1]], existing);
    assert videos[..2] == videos[..1] + [videos[1]];
    assert videos == videos[..2] + [videos[2]];
  }
}
