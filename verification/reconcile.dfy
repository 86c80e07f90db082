/** Reconciliation with the database: the set of URLs already stored, the
    filter that skips recorded videos, and the page-creation requests (property
    map and icon) for the rest. */
module Reconcile {
  import opened Wrappers
  import opened Config
  import opened Playlist

  const LockEmoji := "\U{1F512}"
  const PlayIconUrl := "https://www.iconsdb.com/icons/preview/black/play-5-xl.png"
  const OnHold := "On Hold"

  /** A stored page as the importer reads it: the `url` field of its "URL"
      property, `None` when the property or the field is missing or null. */
  datatype Page = Page(url: Option<string>)

  /** One property value of a page, by its database type. */
  datatype PropertyValue =
    | TitleValue(content: string)
    | SelectValue(name: string)
    | MultiSelectValue(names: seq<string>)
    | RichTextValue(content: string)
    | UrlValue(url: string)
    | DateValue(start: string)
    | NumberValue(number: int)

  /** A page icon: an emoji, or an external image URL. */
  datatype Icon = Emoji(emoji: string) | External(url: string)

  /** A page-creation request: parent database, icon and properties. */
  datatype PageRequest = PageRequest(parent: string, icon: Icon, properties: map<string, PropertyValue>)

  // ---------------------------------------------------------- existing URLs

  /** The URLs stored in `pages`: every non-empty `url`. */
  function StoredUrls(pages: seq<Page>): (r: set<string>)
    ensures "" !in r
    ensures forall p <- pages :: IsSet(p.url) ==> p.url.value in r
  {
    set p | p in pages && IsSet(p.url) :: p.url.value
  }

  /** All pages of a paginated query, response by response. */
  function Flatten(responses: seq<seq<Page>>): seq<Page>
  {
    if |responses| == 0 then []
    else Flatten(responses[..|responses| - 1]) + responses[|responses| - 1]
  }

  lemma StoredUrlsAppend(pages: seq<Page>, p: Page)
    ensures StoredUrls(pages + [p]) == StoredUrls(pages) + (if IsSet(p.url) then {p.url.value} else {})
  {
    var all := pages + [p];
    forall u | u in StoredUrls(all)
      ensures u in StoredUrls(pages) || (IsSet(p.url) && u == p.url.value)
    {
      var q :| q in all && IsSet(q.url) && q.url.value == u;
      if q != p {
        assert q in pages;
      }
    }
    forall u | u in StoredUrls(pages)
      ensures u in StoredUrls(all)
    {
      var q :| q in pages && IsSet(q.url) && q.url.value == u;
      assert q in all;
    }
    if IsSet(p.url) {
      assert p in all;
    }
  }

  /** `fetch_existing_urls`: folds the pages of every query response, in order,
      into the set of their non-empty URLs. */
  method CollectExistingUrls(responses: seq<seq<Page>>) returns (urls: set<string>)
    ensures urls == StoredUrls(Flatten(responses))
    ensures "" !in urls
  {
    urls := {};
    var i := 0;
    while i < |responses|
      invariant 0 <= i <= |responses|
      invariant urls == StoredUrls(Flatten(responses[..i]))
    {
      var batch := responses[i];
      var j := 0;
      while j < |batch|
        invariant 0 <= j <= |batch|
        invariant urls == StoredUrls(Flatten(responses[..i]) + batch[..j])
      {
        var p := batch[j];
        StoredUrlsAppend(Flatten(responses[..i]) + batch[..j], p);
        assert Flatten(responses[..i]) + batch[..j + 1] == Flatten(responses[..i]) + batch[..j] + [p];
        if p.url.Some? && p.url.value != "" {
          urls := urls + {p.url.value};
        }
        j := j + 1;
      }
      assert batch[..j] == batch;
      assert responses[..i + 1][..i] == responses[..i];
      i := i + 1;
    }
    assert responses[..i] == responses;
  }

  // ---------------------------------------------------------------- filter

  /** A record is skipped when it has a URL that is already stored; `None` is
      never a member of the set, so URL-less records are always written. */
  predicate Skipped(v: VideoRecord, existing: set<string>) {
    v.url.Some? && v.url.value in existing
  }

  /** The records that are written, in input order. */
  function Kept(videos: seq<VideoRecord>, existing: set<string>): (r: seq<VideoRecord>)
    ensures |r| <= |videos|
    ensures forall v <- r :: !Skipped(v, existing)
  {
    if |videos| == 0 then []
    else
      (if Skipped(videos[0], existing) then [] else [videos[0]]) + Kept(videos[1..], existing)
  }

  /** Every record that is not skipped is written as often as it occurs, and
      no skipped record is written. */
  lemma {:induction false} KeptCounts(videos: seq<VideoRecord>, existing: set<string>)
    ensures forall v :: multiset(Kept(videos, existing))[v] ==
                          if Skipped(v, existing) then 0 else multiset(videos)[v]
    decreases |videos|
  {
    if |videos| > 0 {
      assert videos == [videos[0]] + videos[1..];
      KeptCounts(videos[1..], existing);
    }
  }

  /** Filtering commutes with concatenation: the order of the input is kept. */
  lemma {:induction false} KeptAppend(a: seq<VideoRecord>, b: seq<VideoRecord>, existing: set<string>)
    ensures Kept(a + b, existing) == Kept(a, existing) + Kept(b, existing)
    decreases |a|
  {
    if |a| > 0 {
      assert (a + b)[0] == a[0];
      assert (a + b)[1..] == a[1..] + b;
      KeptAppend(a[1..], b, existing);
    } else {
      assert a + b == b;
    }
  }

  /** A record that is not skipped is written right after the records written
      before it. */
  lemma KeptAt(videos: seq<VideoRecord>, existing: set<string>, i: nat)
    requires i < |videos| && !Skipped(videos[i], existing)
    ensures |Kept(videos[..i], existing)| < |Kept(videos, existing)|
    ensures Kept(videos, existing)[|Kept(videos[..i], existing)|] == videos[i]
  {
    var rest := [videos[i]] + videos[i + 1..];
    assert videos == videos[..i] + rest;
    KeptAppend(videos[..i], rest, existing);
    assert rest[0] == videos[i];
  }

  /** Two records with the same URL, absent from the database, are both written,
      in their input order: the stored set does not grow during a run. */
  lemma RepeatedUrlBothWritten(videos: seq<VideoRecord>, existing: set<string>, i: nat, j: nat)
    requires i < j < |videos|
    requires videos[i].url == videos[j].url
    requires !Skipped(videos[i], existing)
    ensures var k := Kept(videos, existing);
            exists a, b | 0 <= a < b < |k| :: k[a] == videos[i] && k[b] == videos[j]
  {
    KeptAt(videos, existing, i);
    KeptAt(videos, existing, j);
    var a := |Kept(videos[..i], existing)|;
    var b := |Kept(videos[..j], existing)|;
    assert videos[..j] == videos[..i] + videos[i..j];
    KeptAppend(videos[..i], videos[i..j], existing);
    KeptAt(videos[i..j], existing, 0);
    assert videos[i..j][..0] == [];
    assert a < b;
  }

  // ------------------------------------------------------ page properties

  /** The property map of a record: title, priority, topics and playlist name
      always; status for private records; URL, date and length when known. */
  function Properties(v: VideoRecord, priority: string, topics: seq<string>, playlistName: string)
    : (m: map<string, PropertyValue>)
    ensures m.Keys <= {"Name", "Priority", "Topic", "Playlist Name", "Status", "URL", "OG ADDED", "Length Sec"}
    ensures "Name" in m && m["Name"] == TitleValue(v.title)
    ensures "Priority" in m && m["Priority"] == SelectValue(priority)
    ensures "Topic" in m && m["Topic"] == MultiSelectValue(topics)
    ensures "Playlist Name" in m && m["Playlist Name"] == RichTextValue(playlistName)
    ensures "Status" in m <==> v.isPrivate
    ensures "Status" in m ==> m["Status"] == SelectValue(OnHold)
    ensures "URL" in m <==> IsSet(v.url)
    ensures "URL" in m ==> m["URL"] == UrlValue(v.url.value)
    ensures "OG ADDED" in m <==> IsSet(v.ogAddedIso)
    ensures "OG ADDED" in m ==> m["OG ADDED"] == DateValue(v.ogAddedIso.value)
    ensures "Length Sec" in m <==> v.lengthSec.Some?
    ensures "Length Sec" in m ==> m["Length Sec"] == NumberValue(v.lengthSec.value)
  {
    var base := map[
      "Name" := TitleValue(v.title),
      "Priority" := SelectValue(priority),
      "Topic" := MultiSelectValue(topics),
      "Playlist Name" := RichTextValue(playlistName)];
    var m1 := if v.isPrivate then base["Status" := SelectValue(OnHold)] else base;
    var m2 := if IsSet(v.url) then m1["URL" := UrlValue(v.url.value)] else m1;
    var m3 := if IsSet(v.ogAddedIso) then m2["OG ADDED" := DateValue(v.ogAddedIso.value)] else m2;
    if v.lengthSec.Some? then m3["Length Sec" := NumberValue(v.lengthSec.value)] else m3
  }

  /** The icon: a lock for private records, the play image otherwise. */
  function IconFor(isPrivate: bool): (icon: Icon)
    ensures icon.Emoji? <==> isPrivate
    ensures icon == Emoji(LockEmoji) || icon == External(PlayIconUrl)
  {
    if isPrivate then Emoji(LockEmoji) else External(PlayIconUrl)
  }

  /** The record a stored page shows when read back. */
  function ReadBack(m: map<string, PropertyValue>): VideoRecord
  {
    VideoRecord(
      if "Name" in m && m["Name"].TitleValue? then m["Name"].content else "",
      if "URL" in m && m["URL"].UrlValue? then Some(m["URL"].url) else None,
      if "OG ADDED" in m && m["OG ADDED"].DateValue? then Some(m["OG ADDED"].start) else None,
      if "Length Sec" in m && m["Length Sec"].NumberValue? then Some(m["Length Sec"].number) else None,
      "Status" in m && m["Status"] == SelectValue(OnHold))
  }

  /** An empty URL or date is written as no value at all. */
  function Normalized(v: VideoRecord): VideoRecord
  {
    v.(url := if IsSet(v.url) then v.url else None,
       ogAddedIso := if IsSet(v.ogAddedIso) then v.ogAddedIso else None)
  }

  /** A written page holds every field of its record, except that empty URLs and
      dates are dropped. */
  lemma PropertiesReadBack(v: VideoRecord, priority: string, topics: seq<string>, playlistName: string)
    ensures ReadBack(Properties(v, priority, topics, playlistName)) == Normalized(v)
  {
  }

  /** The creation request for one record. */
  function Request(v: VideoRecord, s: Settings, playlistName: string): (r: PageRequest)
    ensures r.parent == s.databaseId
    ensures r.icon == IconFor(v.isPrivate)
    ensures ReadBack(r.properties) == Normalized(v)
    ensures r.properties == Properties(v, s.priority, s.topics, playlistName)
  {
    PropertiesReadBack(v, s.priority, s.topics, playlistName);
    PageRequest(s.databaseId, IconFor(v.isPrivate), Properties(v, s.priority, s.topics, playlistName))
  }

  /** The requests for the records that are not skipped, in input order. */
  function Requests(videos: seq<VideoRecord>, existing: set<string>, s: Settings, playlistName: string)
    : (r: seq<PageRequest>)
    ensures |r| == |Kept(videos, existing)|
    ensures forall i | 0 <= i < |r| :: r[i] == Request(Kept(videos, existing)[i], s, playlistName)
  {
    var k := Kept(videos, existing);
    seq(|k|, i requires 0 <= i < |k| => Request(k[i], s, playlistName))
  }

  /** `add_videos_to_notion`: the requests it submits and the count it reports. */
  method AddVideos(videos: seq<VideoRecord>, playlistName: string, existing: set<string>, s: Settings)
    returns (requests: seq<PageRequest>, added: nat)
    ensures requests == Requests(videos, existing, s, playlistName)
    ensures added == |requests|
  {
    requests := [];
    added := 0;
    var i := 0;
    while i < |videos|
      invariant 0 <= i <= |videos|
      invariant requests == Requests(videos[..i], existing, s, playlistName)
      invariant added == |requests|
    {
      var v := videos[i];
      KeptAppend(videos[..i], [v], existing);
      assert videos[..i + 1] == videos[..i] + [v];
      if !(v.url.Some? && v.url.value in existing) {
        requests := requests + [Request(v, s, playlistName)];
        added := added + 1;
      }
      i := i + 1;
    }
    assert videos[..i] == videos;
  }

  // ------------------------------------------------------------ re-running

  /** The page the database stores for a request, as the next run reads it. */
  function StoredPage(r: PageRequest): Page
  {
    Page(if "URL" in r.properties && r.properties["URL"].UrlValue? then Some(r.properties["URL"].url) else None)
  }

  function StoredPages(rs: seq<PageRequest>): (ps: seq<Page>)
    ensures |ps| == |rs| && forall i | 0 <= i < |rs| :: ps[i] == StoredPage(rs[i])
  {
    seq(|rs|, i requires 0 <= i < |rs| => StoredPage(rs[i]))
  }

  /** After the first run, every listed non-empty URL is stored: either it was
      already, or the first run created a page carrying it. */
  lemma StoredAfterFirstRun(videos: seq<VideoRecord>, pages: seq<Page>, s: Settings, playlistName: string)
    ensures var first := Requests(videos, StoredUrls(pages), s, playlistName);
            var after := pages + StoredPages(first);
            forall v <- videos :: IsSet(v.url) ==> v.url.value in StoredUrls(after)
  {
    var existing := StoredUrls(pages);
    var first := Requests(videos, existing, s, playlistName);
    var after := pages + StoredPages(first);
    var k1 := Kept(videos, existing);
    KeptCounts(videos, existing);
    forall v | v in videos && IsSet(v.url)
      ensures v.url.value in StoredUrls(after)
    {
      if v.url.value in existing {
        var p :| p in pages && IsSet(p.url) && p.url.value == v.url.value;
        assert p in after;
      } else {
        assert multiset(videos)[v] > 0;
        assert multiset(k1)[v] > 0;
        var a :| 0 <= a < |k1| && k1[a] == v;
        var page := StoredPages(first)[a];
        assert page == StoredPage(Request(v, s, playlistName));
        assert page.url == v.url;
        assert page == after[|pages| + a];
      }
    }
  }

  /** Importing the same playlist a second time, against the database the first
      run left behind, writes only records without a URL. */
  lemma SecondRunWritesOnlyUrlLess(videos: seq<VideoRecord>, pages: seq<Page>, s: Settings, playlistName: string)
    ensures var first := Requests(videos, StoredUrls(pages), s, playlistName);
            var after := pages + StoredPages(first);
            forall v <- Kept(videos, StoredUrls(after)) :: !IsSet(v.url)
  {
    var first := Requests(videos, StoredUrls(pages), s, playlistName);
    var after := pages + StoredPages(first);
    StoredAfterFirstRun(videos, pages, s, playlistName);
    KeptCounts(videos, StoredUrls(after));
    forall v | v in Kept(videos, StoredUrls(after))
      ensures v in videos
    {
      assert multiset(Kept(videos, StoredUrls(after)))[v] > 0;
    }
  }
}
