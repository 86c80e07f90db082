# NotionYoutube import, modelled in Dafny

`import_playlist_to_notion.py` copies a YouTube playlist into a Notion database.
It takes the flat listing of the playlist from `yt-dlp`. For each public entry
with a video id it looks up the upload date and duration. It then reads the URLs
already stored in the database and creates a page for every video whose URL is
not among them.

This project models the decision logic between those external calls:

- the configuration check and the topic list (`Config`);
- the classification of each flat entry into a video record (`Playlist`);
- the conversion of `upload_date` from YYYYMMDD to YYYY-MM-DD, as `strptime` and
  `isoformat` do it (`UploadDate`);
- the fold that collects the stored URLs, the duplicate filter, and the property
  map and icon of each new page (`Reconcile`);
- one whole run (`Importer`).

The Python string operations it relies on are in `Text`: `strip`, `split` and
lower-casing. `Text.Join` is there only to state that `split` is undone by
joining with the separator. `Wrappers` holds `Option` and `Result`.

The external collaborators are inputs:

- the flat listing is a `Listing` value, produced by a function of the playlist URL;
- the single-video lookup is a function from URL to `Metadata`;
- the database's query responses are a sequence of responses, each a sequence of pages;
- the pages the run would create are returned as `PageRequest` values.

A failed or unparsable `yt-dlp` run is the empty listing, or metadata with both
fields absent.

Exceptions are `Result` failures. A missing setting is `ConfigFailure`. A
`ValueError` from `strptime` is `DateFailure`. That error is not caught anywhere,
so one bad upload date ends the whole run before the database is touched.

Some behaviour of the script that is easy to miss:

- A title that is the empty string marks a video private, as an absent title
  or the "[private video]" title does.
- Every private placeholder has the same title, "Private Video -> {playlist}",
  with no number.
- `strptime` with `%Y%m%d` does not require eight digits. It also accepts
  one-digit months and days (`2023115` becomes `2023-11-05`). It raises on
  leftover characters and on days that do not exist.
- Public videos get no Status property at all.
- Nothing catches an error from page creation, so a failing page stops the
  pages after it.

## Model

| member | source | states |
|---|---|---|
| Text.Strip | import_playlist_to_notion.py:24 | `str.strip()`: the result is the infix of the input between leading and trailing whitespace (Python's `isspace` set); it is empty exactly for all-whitespace input and leaves trimmed strings unchanged |
| Text.Split | import_playlist_to_notion.py:24 | `str.split(",")`: at least one piece, no piece contains the separator, and joining the pieces with it gives the input back |
| Text.SplitJoin | import_playlist_to_notion.py:24 | splitting undoes joining when no piece contains the separator, so the split pieces are determined uniquely |
| Text.IndexOfFirst | import_playlist_to_notion.py:24 | a position holding the separator with none before it is where `split` cuts the first piece |
| Text.StripKeepsAbsent | import_playlist_to_notion.py:24 | stripping never introduces a character, so stripped topic pieces stay comma-free |
| Config.NonBlank | import_playlist_to_notion.py:24 | the filter `if t.strip()` yields only non-empty, comma-free, trimmed topics, never more than there are pieces; which topics and in what order is stated by the lemmas below |
| Config.Piece | import_playlist_to_notion.py:24 | one piece contributes its stripped form as the single topic, or nothing exactly when it is all whitespace; an already clean topic contributes itself |
| Config.NonBlankOne | import_playlist_to_notion.py:24 | a list of one piece yields exactly that piece's contribution |
| Config.NonBlankAppend | import_playlist_to_notion.py:24 | the filter works piece by piece: the topics of two concatenated lists are the topics of the first followed by those of the second, so order is kept |
| Config.NonBlankKeeps | import_playlist_to_notion.py:24 | every piece that is not blank appears, stripped, among the topics |
| Config.NonBlankFrom | import_playlist_to_notion.py:24 | every topic is the stripped form of some piece |
| Config.NonBlankClean | import_playlist_to_notion.py:24 | pieces that are already clean topics come through unchanged and in order |
| Config.ParseTopics | import_playlist_to_notion.py:24 | an unset or empty topic list gives no topics; every parsed topic is non-empty, comma-free and trimmed; there are at most as many topics as comma pieces (which topics, and in what order, is fixed by Config.TopicsArePieces and Config.NonBlankAppend) |
| Config.TopicsArePieces | import_playlist_to_notion.py:24 | for any list, every non-blank comma piece appears stripped among the topics, and every topic is a stripped piece |
| Config.ExampleTopics | import_playlist_to_notion.py:24 | `"a, b,"` parses to `["a", "b"]`: the blank after the comma is stripped and the empty last piece is dropped |
| Config.TopicsRoundTrip | import_playlist_to_notion.py:24 | parsing clean topics joined with commas returns exactly those topics, in order |
| Config.Load | import_playlist_to_notion.py:18-37 | the run is rejected iff the token, database id, playlist id or priority is unset or empty, or the topic list is unset; otherwise the settings carry those values, the playlist URL and the parsed topics |
| Config.EmptyTopicListAccepted | import_playlist_to_notion.py:27-37 | an empty topic list passes the check with no topics, while an empty priority fails it |
| UploadDate.Padded | import_playlist_to_notion.py:70 | zero-padded decimal of `isoformat`: exactly `w` digits that read back as the number |
| UploadDate.PaddedValue | import_playlist_to_notion.py:70 | a digit string is below 10 to the power of its length and padding its value back restores it |
| UploadDate.MonthAlternatives | import_playlist_to_notion.py:70 | every way the `%m` group can match is a month 1 to 12, and a two-character match reads the two digits |
| UploadDate.DayGroup | import_playlist_to_notion.py:70 | the `%d` group, when it matches, is a day 1 to 31, and a two-digit match reads the two digits |
| UploadDate.MatchMonthDay | import_playlist_to_notion.py:70 | there is no match exactly when no month alternative is followed by a day; otherwise the match uses the first alternative, in regex order, that a day follows, with that day |
| UploadDate.MatchBasic | import_playlist_to_notion.py:70 | `re.match` of the pattern: a match starts with four year digits, read as the year, followed by a month 1 to 12 and a day 1 to 31, and consumes six to eight characters |
| UploadDate.Strptime | import_playlist_to_notion.py:70 | `strptime(s, "%Y%m%d")` succeeds only with a date `datetime.date` can hold |
| UploadDate.IsoFormat | import_playlist_to_notion.py:70 | `isoformat()`: ten characters, dashes at 4 and 7, digit fields reading back as year, month and day |
| UploadDate.BasicFormat | import_playlist_to_notion.py:68-70 | the eight-digit basic form of a date, whose fields read back as year, month and day |
| UploadDate.ToIsoDate | import_playlist_to_notion.py:68-73 | an absent or empty `upload_date` (and only that) gives no date; any date produced is a well-formed extended date of a real day |
| UploadDate.EightDigitConversion | import_playlist_to_notion.py:68-73 | an eight-digit upload date converts iff its digits name a valid date, and then the result is the same digits with dashes inserted |
| UploadDate.MatchesAllEight | import_playlist_to_notion.py:70 | a valid eight-digit date is matched with two-digit month and day consuming the whole string |
| UploadDate.FullMatchReadsDigits | import_playlist_to_notion.py:70 | any match of `%Y%m%d` that consumes all eight digits reads the year, month and day as four, two and two digits |
| UploadDate.NoOtherFullMatch | import_playlist_to_notion.py:70 | an eight-digit string whose digits are not a valid date makes `strptime` raise |
| UploadDate.BasicToExtended | import_playlist_to_notion.py:68-73 | writing a valid date as YYYYMMDD and converting it gives the same date as YYYY-MM-DD |
| UploadDate.OneDigitDayAccepted | import_playlist_to_notion.py:70 | `strptime` accepts the seven-character `2023115` as 2023-11-05, reading a one-digit day |
| UploadDate.MonthAboveTwelveLeavesDigit | import_playlist_to_notion.py:70 | in `20231315` the month matches as 1 and a digit is left unconverted, so `strptime` raises |
| UploadDate.MissingLeapDayRejected | import_playlist_to_notion.py:70 | `20230229` matches the pattern but `strptime` rejects it, since 2023 is not a leap year |
| UploadDate.LeftmostMonthWins | import_playlist_to_notion.py:70 | `2023111` is 1 November, not 11 January: the two-digit month is tried first and a day follows it |
| Playlist.VideoIdOf | import_playlist_to_notion.py:100 | an id recovered from a URL rebuilds that URL |
| Playlist.WatchUrlRoundTrip | import_playlist_to_notion.py:100 | the canonical watch URL gives its video id back |
| Playlist.IsEmptyEntry | import_playlist_to_notion.py:87 | `not entry`: the entry is JSON `null` or an object with no keys |
| Playlist.PlaylistName | import_playlist_to_notion.py:81 | `get("title", "Unknown Playlist")`: the listing's title, or "Unknown Playlist" when it has none |
| Playlist.Get | import_playlist_to_notion.py:99-101 | `entry.get(key)` on a string field: the string when the key holds one, nothing when the key is missing or holds JSON `null` |
| Playlist.WatchUrl | import_playlist_to_notion.py:100 | the watch URL of a video id, `https://www.youtube.com/watch?v=` followed by the id; Playlist.VideoIdOf and Playlist.WatchUrlRoundTrip show it can be read back |
| Playlist.PrivateTitle | import_playlist_to_notion.py:90 | the placeholder title `Private Video -> {playlist}`, used for removed entries and, at l.103, for private videos |
| Playlist.IsSentinel | import_playlist_to_notion.py:102 | `title.lower() == "[private video]"`, with lower-casing on ASCII letters |
| Playlist.SentinelIgnoresCase | import_playlist_to_notion.py:102 | `title.lower() == "[private video]"` holds iff the title has 15 characters each equal to the sentinel's or its upper-case letter |
| Playlist.Classify | import_playlist_to_notion.py:86-103 | a null or key-less entry is a URL-less private placeholder; otherwise the URL is present iff the id is non-empty and carries that id; private iff the title is absent, empty or the sentinel; private records get the placeholder title, public ones keep theirs; no date or length yet |
| Playlist.NeedsMetadata | import_playlist_to_notion.py:106 | `not is_private and video_url`: a lookup runs only for public records with a non-empty URL |
| Playlist.RecordFor | import_playlist_to_notion.py:99-117 | the record of one entry is its classification, enriched by the lookup when one runs |
| Playlist.Enrich | import_playlist_to_notion.py:105-107 | without a lookup (private or URL-less) the record is unchanged; with one, the length is the duration verbatim, the date is the converted upload date, and a rejected date fails |
| Playlist.BuildRecords | import_playlist_to_notion.py:86-117 | on success exactly one record per entry, in order, each the entry's enriched record; failure iff some entry's date is rejected, and then the error is that of the first such entry |
| Playlist.BuildRecordsOf | import_playlist_to_notion.py:86-117 | conversely, when every entry yields its record, the listing yields exactly those records in order |
| Playlist.FetchPlaylistVideos | import_playlist_to_notion.py:78-120 | the playlist name is the listing's title or "Unknown Playlist"; it succeeds iff every entry's record succeeds, and then returns exactly one record per entry, in listing order, each the entry's enriched record; otherwise it fails with the error of the listing's records |
| Playlist.OnlyQueriedUrlsMatter | import_playlist_to_notion.py:105-107 | the records depend on the metadata lookup only at the URLs of public entries with a URL |
| Reconcile.StoredUrlsAppend | import_playlist_to_notion.py:133-135 | one more page adds its URL to the stored set iff the URL is non-empty |
| Reconcile.StoredUrls | import_playlist_to_notion.py:132-135 | the URL set never holds the empty string and holds the URL of every page whose URL is set and non-empty |
| Reconcile.Skipped | import_playlist_to_notion.py:152 | `v["url"] in existing_urls`: a record is skipped iff it has a URL and that URL is stored; a missing URL is never in the set |
| Reconcile.CollectExistingUrls | import_playlist_to_notion.py:125-142 | folding all query responses yields exactly the non-empty URLs of all returned pages, never the empty string |
| Reconcile.Kept | import_playlist_to_notion.py:151-154 | no written record has a URL in the stored set, and no more records are written than listed |
| Reconcile.KeptCounts | import_playlist_to_notion.py:151-154 | every record not skipped is written as many times as it is listed, skipped ones never; in particular URL-less records are always written |
| Reconcile.KeptAppend | import_playlist_to_notion.py:151-154 | the filter commutes with concatenation, so written records keep the listing order |
| Reconcile.KeptAt | import_playlist_to_notion.py:151-154 | a record that is not skipped is written right after the records written for the entries before it |
| Reconcile.RepeatedUrlBothWritten | import_playlist_to_notion.py:151-154 | two listed records with the same new URL are both written, in order, since the stored set is not updated during a run |
| Reconcile.Properties | import_playlist_to_notion.py:156-171 | Name, Priority, Topic (all topics, in order) and Playlist Name always; Status "On Hold" iff private; URL iff non-empty; OG ADDED iff the date is non-empty; Length Sec iff the length is present, zero included; no other keys |
| Reconcile.IconFor | import_playlist_to_notion.py:173-181 | the lock emoji iff private, otherwise the external play image |
| Reconcile.PropertiesReadBack | import_playlist_to_notion.py:156-171 | reading a written property map back gives the record, with empty URL or date dropped |
| Reconcile.Request | import_playlist_to_notion.py:156-186 | the page is created under the configured database with the record's icon and properties, from which the record can be read back |
| Reconcile.Requests | import_playlist_to_notion.py:151-186 | one request per record that is not skipped, in order |
| Reconcile.StoredPages | import_playlist_to_notion.py:133-135 | the pages a later query returns are the created pages, one per request, each with the URL property it was created with; this is an assumption about the database, which keeps what it is given, and the cited lines are where a later run reads that property back |
| Reconcile.StoredAfterFirstRun | import_playlist_to_notion.py:133-186 | after one run, every record with a non-empty URL has that URL among the stored pages: it was stored before or the run created its page |
| Reconcile.AddVideos | import_playlist_to_notion.py:145-190 | the loop submits exactly the requests of the non-skipped records, in order, and reports their number as the added count |
| Reconcile.SecondRunWritesOnlyUrlLess | import_playlist_to_notion.py:151-171 | re-importing the same records against the database the first run produced writes only records without a URL |
| Importer.Run | import_playlist_to_notion.py:193-196 | a run fails with the configuration error iff the check fails; then a rejected upload date fails it; otherwise it writes exactly the non-duplicate records against the URLs collected from the query responses |
| Importer.ExampleUploadDate | import_playlist_to_notion.py:68-73 | `20230115` converts to `2023-01-15` |
| Importer.ExamplePrivateTitle | import_playlist_to_notion.py:102 | "[Private Video]" is the private sentinel |
| Importer.ExampleRemovedEntry | import_playlist_to_notion.py:87-96 | a JSON `null` entry becomes a URL-less private placeholder titled after the playlist |
| Importer.ExamplePrivateEntry | import_playlist_to_notion.py:98-107 | an entry titled "[Private Video]" keeps its watch URL, gets the placeholder title and is not looked up |
| Importer.ExamplePublicEntry | import_playlist_to_notion.py:98-117 | a public entry keeps its title and gets the looked-up date `2023-01-15` and length 212 |
| Importer.ExampleRecords | import_playlist_to_notion.py:86-117 | a null entry, a "[Private Video]" entry and a public video give two private records (one URL-less, one with its URL but no date or length) and one enriched public record |
| Importer.ExampleReconcile | import_playlist_to_notion.py:151-154 | with the public video already stored, the two private records are written and the public one is skipped |

## Left out

- Running `yt-dlp` and decoding its JSON (import_playlist_to_notion.py:43-56): the process and the JSON parser are external. The listing and metadata are inputs, and a failed run is the empty listing or absent metadata.
- The Notion client (import_playlist_to_notion.py:40, 128-131, 137-139, 182-186): the query and page-creation calls and the cursor loop are external. The query responses are an input sequence, and the created pages are the returned requests.
- Errors of the remote service: they propagate uncaught and the code says nothing more about them. A run either completes or fails on configuration or an upload date.
- `load_dotenv`, logging, and `LOCAL_UTC_OFFSET` (import_playlist_to_notion.py:11-17, 25): these are side effects or unused configuration.
- JSON values of unexpected types: non-string `id`, `title` or `upload_date`, a non-integer `duration`, a JSON `null` playlist title, a non-list `entries`, and a top-level value that is not an object. In Python these raise or format differently; the model's fields are strings and integers.
- UploadDate.Strptime: recognises ASCII digits only. Python's `\d` also matches other Unicode decimal digits, which `yt-dlp` never emits in `upload_date`.
- Playlist.IsSentinel: lower-cases ASCII letters only. Python lower-cases all of Unicode, but the only non-ASCII characters that lower-case to ASCII letters are the Kelvin sign (to `k`) and `İ` (to `i` plus a combining dot). Neither can complete "[private video]", so the verdict is the same.
