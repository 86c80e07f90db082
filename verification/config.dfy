/** Start-up configuration: the settings read from the environment, the parsed
    topic list, and the check that rejects a run before any external call. */
module Config {
  import opened Wrappers
  import opened Text

  const PlaylistUrlPrefix := "https://www.youtube.com/playlist?list="

  /** The environment variables the importer reads; `None` is an unset variable. */
  datatype Env = Env(
    notionToken: Option<string>,
    databaseId: Option<string>,
    playlistId: Option<string>,
    priority: Option<string>,
    topicList: Option<string>)

  /** Validated settings, handed to every later step. */
  datatype Settings = Settings(
    notionToken: string,
    databaseId: string,
    playlistUrl: string,
    priority: string,
    topics: seq<string>)

  /** The `ValueError` raised for a missing required setting. */
  datatype ConfigError = MissingSetting

  /** Python truthiness of an optional string: set and non-empty. */
  predicate IsSet(v: Option<string>) {
    v.Some? && v.value != ""
  }

  /** A topic as the parser produces it: non-empty, comma-free, and without
      surrounding whitespace. */
  predicate IsTopic(t: string) {
    t != "" && ',' !in t && IsTrimmed(t)
  }

  /** What one piece contributes: its stripped form, or nothing when it is blank. */
  function Piece(p: string): (r: seq<string>)
    requires ',' !in p
    ensures |r| <= 1 && forall t <- r :: IsTopic(t)
    ensures r != [] ==> r[0] == Strip(p)
    ensures r == [] <==> SpaceBetween(p, 0, |p|)
    ensures IsTopic(p) ==> r == [p]
  {
    var t := Strip(p);
    StripKeepsAbsent(p, ',');
    if t == "" then [] else [t]
  }

  /** The stripped pieces that are not blank, in their original order. */
  function NonBlank(pieces: seq<string>): (r: seq<string>)
    requires forall p <- pieces :: ',' !in p
    ensures |r| <= |pieces|
    ensures forall t <- r :: IsTopic(t)
  {
    if |pieces| == 0 then []
    else
      Piece(pieces[0]) + NonBlank(pieces[1..])
  }

  /** Pieces that are already clean topics pass through unchanged. */
  lemma {:induction false} NonBlankClean(pieces: seq<string>)
    requires forall p <- pieces :: ',' !in p
    requires forall p <- pieces :: IsTopic(p)
    ensures NonBlank(pieces) == pieces
    decreases |pieces|
  {
    if |pieces| > 0 {
      var rest := pieces[1..];
      NonBlankClean(rest);
      assert Piece(pieces[0]) == [pieces[0]];
      assert pieces == [pieces[0]] + rest;
    }
  }

  /** Every piece that is not blank appears, stripped, among the topics. */
  lemma {:induction false} NonBlankKeeps(pieces: seq<string>)
    requires forall p <- pieces :: ',' !in p
    ensures forall p <- pieces :: Strip(p) != "" ==> Strip(p) in NonBlank(pieces)
    decreases |pieces|
  {
    if |pieces| > 0 {
      NonBlankKeeps(pieces[1..]);
      assert forall p <- pieces :: p == pieces[0] || p in pieces[1..];
    }
  }

  /** Every topic is the stripped form of one of the pieces. */
  lemma {:induction false} NonBlankFrom(pieces: seq<string>)
    requires forall p <- pieces :: ',' !in p
    ensures forall t <- NonBlank(pieces) :: exists p <- pieces :: Strip(p) == t
    decreases |pieces|
  {
    if |pieces| > 0 {
      var rest := pieces[1..];
      NonBlankFrom(rest);
      forall t <- NonBlank(pieces)
        ensures exists p <- pieces :: Strip(p) == t
      {
        if t in Piece(pieces[0]) {
          assert Strip(pieces[0]) == t;
        } else {
          var p :| p in rest && Strip(p) == t;
          assert p in pieces;
        }
      }
    }
  }

  /** The filter works piece by piece, so the topics keep the order of the pieces. */
  lemma {:induction false} NonBlankAppend(a: seq<string>, b: seq<string>)
    requires forall p <- a :: ',' !in p
    requires forall p <- b :: ',' !in p
    ensures NonBlank(a + b) == NonBlank(a) + NonBlank(b)
    decreases |a|
  {
    if |a| == 0 {
      assert a + b == b;
    } else {
      assert (a + b)[1..] == a[1..] + b;
      NonBlankAppend(a[1..], b);
    }
  }

  /** One piece contributes exactly its own part. */
  lemma NonBlankOne(p: string)
    requires ',' !in p
    ensures NonBlank([p]) == Piece(p)
  {
    assert [p][1..] == [];
  }

  /** The topic list: every comma-separated piece, stripped, blank pieces dropped,
      order kept; an unset or empty list yields no topics. */
  function ParseTopics(topicList: Option<string>): (r: seq<string>)
    ensures !IsSet(topicList) ==> r == []
    ensures forall t <- r :: IsTopic(t)
    ensures IsSet(topicList) ==> |r| <= |Split(topicList.value, ',')|
  {
    if IsSet(topicList) then NonBlank(Split(topicList.value, ',')) else []
  }

  /** Every non-blank piece of the list appears stripped among the topics, and
      every topic is such a piece. */
  lemma TopicsArePieces(list: string)
    ensures var pieces := Split(list, ',');
            var r := ParseTopics(Some(list));
            && (forall p <- pieces :: Strip(p) != "" ==> Strip(p) in r)
            && (forall t <- r :: exists p <- pieces :: Strip(p) == t)
  {
    var pieces := Split(list, ',');
    if list == "" {
      assert ',' !in list;
      assert pieces == [list];
      assert SpaceBetween(list, 0, |list|);
    } else {
      NonBlankKeeps(pieces);
      NonBlankFrom(pieces);
    }
  }

  /** The example list splits into "a", " b" and an empty last piece. */
  lemma ExampleSplit()
    ensures Split("a, b,", ',') == ["a", " b", ""]
  {
    var pieces := ["a", " b", ""];
    assert Join(pieces[2..], ',') == "";
    assert Join(pieces[1..], ',') == " b,";
    assert Join(pieces, ',') == "a, b,";
    SplitJoin(pieces, ',');
  }

  /** What each example piece contributes. */
  lemma ExampleStrip()
    ensures Piece(" b") == ["b"] && Piece("a") == ["a"] && Piece("") == []
  {
    assert SkipSpaceForward(" b", 0) == 1;
    assert SkipSpaceBackward(" b", 2) == 2;
    assert " b"[1..2] == "b";
    assert !IsSpace('a') && !IsSpace('b');
    assert IsTopic("a");
  }

  /** Parsing the example list is filtering its three comma pieces. */
  lemma ExampleTopicPieces()
    ensures ParseTopics(Some("a, b,")) == NonBlank(["a", " b", ""])
  {
    ExampleSplit();
  }

  /** The filter strips the second piece and drops the empty third one. */
  lemma ExampleNonBlank()
    ensures NonBlank(["a", " b", ""]) == ["a", "b"]
  {
    ExampleStrip();
    NonBlankOne("a");
    NonBlankOne(" b");
    NonBlankOne("");
    NonBlankAppend([" b"], [""]);
    NonBlankAppend(["a"], [" b", ""]);
    assert ["a"] + [" b", ""] == ["a", " b", ""];
    assert [" b"] + [""] == [" b", ""];
  }

  /** The usual form: a blank after the comma is stripped and an empty piece is
      dropped. */
  lemma ExampleTopics()
    ensures ParseTopics(Some("a, b,")) == ["a", "b"]
  {
    ExampleTopicPieces();
    ExampleNonBlank();
  }

  /** Joining clean topics with commas and parsing the result gives them back. */
  lemma TopicsRoundTrip(topics: seq<string>)
    requires forall t <- topics :: IsTopic(t)
    ensures ParseTopics(Some(Join(topics, ','))) == topics
  {
    if |topics| > 0 {
      SplitJoin(topics, ',');
      NonBlankClean(topics);
      assert IsTopic(topics[0]);
      assert |Join(topics, ',')| >= |topics[0]| > 0;
    }
  }

  /** The start-up check: the token, database id, playlist id and priority must
      be set and non-empty, and the topic list must be set though it may be empty. */
  function Load(env: Env): (r: Result<Settings, ConfigError>)
    ensures r.Failure? <==>
              || !IsSet(env.notionToken) || !IsSet(env.databaseId)
              || !IsSet(env.playlistId) || !IsSet(env.priority)
              || env.topicList.None?
    ensures r.Success? ==>
              && r.value.notionToken == env.notionToken.value
              && r.value.databaseId == env.databaseId.value
              && r.value.priority == env.priority.value
              && r.value.playlistUrl == PlaylistUrlPrefix + env.playlistId.value
              && r.value.topics == ParseTopics(env.topicList)
  {
    if !IsSet(env.notionToken) || !IsSet(env.databaseId) || !IsSet(env.playlistId)
       || !IsSet(env.priority) || env.topicList.None?
    then Failure(MissingSetting)
    else Success(Settings(
      env.notionToken.value,
      env.databaseId.value,
      PlaylistUrlPrefix + env.playlistId.value,
      env.priority.value,
      ParseTopics(env.topicList)))
  }

  /** A set but empty topic list passes the check and yields no topics, while an
      empty value for any other required setting fails it. */
  lemma EmptyTopicListAccepted(token: string, databaseId: string, playlistId: string, priority: string)
    requires token != "" && databaseId != "" && playlistId != "" && priority != ""
    ensures var r := Load(Env(Some(token), Some(databaseId), Some(playlistId), Some(priority), Some("")));
            r.Success? && r.value.topics == []
    ensures Load(Env(Some(token), Some(databaseId), Some(playlistId), Some(""), Some(""))).Failure?
  {
  }
}
