/** Publishing (core/uploader.py): choosing the packaged task, shaping the
    upload request, the resumable chunk loop with its retry bound, and the
    completed_packaged -> uploaded commit. The video service is a sequence
    of replies to `next_chunk`; authentication is not part of this model. */
module Uploader {
  import opened Common
  import opened Tasks

  // ---------------------------------------------------------------------
  // Request shaping
  // ---------------------------------------------------------------------

  /** `CATEGORY_MAP`: niche to YouTube category id. */
  const CategoryMap: map<string, string> := map[
    "motivation" := "22",
    "tech" := "28",
    "space" := "28",
    "nature" := "15",
    "history" := "27",
    "general" := "24"]

  /** The category used for a niche outside the map (People & Blogs). */
  const DefaultCategory := "22"

  const DescriptionMax: nat := 4000
  const TitleMax: nat := 100
  /** Upload chunk size, 4 MiB; chunking is the service's concern here. */
  const ChunkSize: nat := 4 * 1024 * 1024
  /** The loop gives up on the exception that takes the count past this. */
  const MaxRetries: nat := 10

  /** `CATEGORY_MAP.get(niche, "22")`. */
  function CategoryFor(niche: string): (c: string)
    ensures niche in CategoryMap ==> c == CategoryMap[niche]
    ensures niche !in CategoryMap ==> c == DefaultCategory
  {
    if niche in CategoryMap then CategoryMap[niche] else DefaultCategory
  }

  /** Every id the uploader sends is one of the map's ids. */
  lemma CategoryIsKnown(niche: string)
    ensures CategoryFor(niche) in CategoryMap.Values
  {
    assert CategoryMap["motivation"] == DefaultCategory;
  }

  /** Of the twelve niches the scraper rotates through, only `history` has a
      category of its own; every other one is published as People & Blogs. */
  lemma ScrapedNicheCategories(n: string)
    requires n in ["entertainment", "gaming", "sports", "animals", "movies", "science",
                   "worldnews", "finance", "health", "travel", "truecrime", "history"]
    ensures CategoryFor(n) == (if n == "history" then "27" else DefaultCategory)
  {
  }

  /** `s.split(sep)`: the pieces between separators, one more piece than
      there are separators (so `"".split(",")` is `[""]`). */
  function Split(s: string, sep: char): (r: seq<string>)
    ensures |r| >= 1
    ensures forall m :: 0 <= m < |r| ==> sep !in r[m]
  {
    if s == [] then [""]
    else if s[0] == sep then [""] + Split(s[1..], sep)
    else
      var rest := Split(s[1..], sep);
      [[s[0]] + rest[0]] + rest[1..]
  }

  /** `sep.join(parts)`. */
  function Join(parts: seq<string>, sep: char): string
    requires |parts| >= 1
  {
    if |parts| == 1 then parts[0] else parts[0] + [sep] + Join(parts[1..], sep)
  }

  /** Joining the pieces gives back the split string. */
  lemma {:induction false} JoinSplit(s: string, sep: char)
    ensures Join(Split(s, sep), sep) == s
  {
    if s != [] {
      JoinSplit(s[1..], sep);
      var rest := Split(s[1..], sep);
      if s[0] != sep {
        var r := [[s[0]] + rest[0]] + rest[1..];
        if |rest| == 1 {
          assert Join(r, sep) == [s[0]] + rest[0];
        } else {
          assert r[1..] == rest[1..];
          assert Join(r, sep) == [s[0]] + (rest[0] + [sep] + Join(rest[1..], sep));
        }
        assert s == [s[0]] + s[1..];
      } else {
        assert ([""] + rest)[1..] == rest;
        assert s == [sep] + s[1..];
      }
    }
  }

  /** Splitting a join of separator-free pieces gives back the pieces. */
  lemma {:induction false} SplitJoin(parts: seq<string>, sep: char)
    requires |parts| >= 1 && forall m :: 0 <= m < |parts| ==> sep !in parts[m]
    ensures Split(Join(parts, sep), sep) == parts
    decreases |parts|, |parts[0]|
  {
    if |parts| == 1 {
      SplitPlain(parts[0], sep);
    } else {
      var p := parts[0];
      if p == [] {
        var tail := Join(parts[1..], sep);
        assert Join(parts, sep) == [sep] + tail;
        SplitJoin(parts[1..], sep);
        assert [""] + parts[1..] == parts;
      } else {
        var parts' := [p[1..]] + parts[1..];
        assert parts'[1..] == parts[1..];
        SplitJoin(parts', sep);
        assert Join(parts, sep) == [p[0]] + Join(parts', sep);
        var j := Join(parts, sep);
        assert j[0] == p[0] && p[0] != sep && j[1..] == Join(parts', sep);
        assert [p[0]] + p[1..] == p;
        assert [[p[0]] + p[1..]] + parts[1..] == parts;
      }
    }
  }

  /** A string without the separator splits into itself. */
  lemma {:induction false} SplitPlain(s: string, sep: char)
    requires sep !in s
    ensures Split(s, sep) == [s]
  {
    if s != [] {
      SplitPlain(s[1..], sep);
      assert [s[0]] + s[1..] == s;
    }
  }

  /** The request body of `upload_video`. */
  datatype Request = Request(categoryId: string, title: string, description: string, tags: seq<string>)

  /** The description: the first 4000 characters of the AI description, the
      `#Shorts` line and the source, with every `<` and `>` removed. */
  function Description(aiDescription: string, sourceUrl: string): (d: string)
    ensures '<' !in d && '>' !in d
    ensures forall c :: c != '<' && c != '>' ==>
      (c in d <==> c in Take(aiDescription, DescriptionMax) + "\n\n#Shorts\n\nSource: " + sourceUrl)
    ensures d == DropAngles(Take(aiDescription, DescriptionMax)) + "\n\n#Shorts\n\nSource: " + DropAngles(sourceUrl)
  {
    DropAnglesAround(Take(aiDescription, DescriptionMax), "\n\n#Shorts\n\nSource: ", sourceUrl);
    DropAngles(Take(aiDescription, DescriptionMax) + "\n\n#Shorts\n\nSource: " + sourceUrl)
  }

  /** A middle part free of angle brackets survives the removal unchanged,
      between the cleaned outer parts. */
  lemma DropAnglesAround(a: string, mid: string, b: string)
    requires '<' !in mid && '>' !in mid
    ensures DropAngles(a + mid + b) == DropAngles(a) + mid + DropAngles(b)
  {
    DropCharAppend(a + mid, b, '<');
    DropCharAppend(a, mid, '<');
    DropCharAppend(DropChar(a, '<') + mid, DropChar(b, '<'), '>');
    DropCharAppend(DropChar(a, '<'), mid, '>');
  }

  /** `<` and `>` removed, in that order. */
  function DropAngles(s: string): (r: string)
    ensures '<' !in r && '>' !in r
    ensures forall c :: c != '<' && c != '>' ==> (c in r <==> c in s)
  {
    DropChar(DropChar(s, '<'), '>')
  }

  /** A short description and source without angle brackets pass unchanged. */
  lemma DescriptionPlain(aiDescription: string, sourceUrl: string)
    requires |aiDescription| <= DescriptionMax
    requires '<' !in aiDescription && '>' !in aiDescription && '<' !in sourceUrl && '>' !in sourceUrl
    ensures Description(aiDescription, sourceUrl) == aiDescription + "\n\n#Shorts\n\nSource: " + sourceUrl
  {
    var raw := aiDescription + "\n\n#Shorts\n\nSource: " + sourceUrl;
    assert Take(aiDescription, DescriptionMax) == aiDescription;
    assert '<' !in raw && '>' !in raw;
  }

  /** The request for task `t`; `Err` when `ai_description` is missing. */
  function BuildRequest(t: Task): (r: Result<Request>)
    ensures r.Err? <==> t.aiDescription.None?
    ensures r.Ok? ==>
      var niche := Lower(t.niche);
      && r.value.categoryId == CategoryFor(niche)
      && |r.value.title| == Min(|t.title|, TitleMax) && r.value.title == t.title[..|r.value.title|]
      && r.value.description == Description(t.aiDescription.value, t.sourceUrl)
      && '<' !in r.value.description && '>' !in r.value.description
      && r.value.tags == Split(t.tags.GetOr(""), ',') + ["Shorts", niche]
  {
    match t.aiDescription
    case None => Err("TypeError: 'NoneType' object is not subscriptable")
    case Some(d) =>
      var niche := Lower(t.niche);
      Ok(Request(CategoryFor(niche), Take(t.title, TitleMax), Description(d, t.sourceUrl),
                 Split(t.tags.GetOr(""), ',') + ["Shorts", niche]))
  }

  /** With no `tags` key (scripting stores `ai_tags`), the tag list starts
      with an empty tag. */
  lemma UntaggedRequest(t: Task)
    requires t.aiDescription.Some? && t.tags.None?
    ensures BuildRequest(t).value.tags == ["", "Shorts", Lower(t.niche)]
  {
  }

  // ---------------------------------------------------------------------
  // The chunk loop
  // ---------------------------------------------------------------------

  /** One `next_chunk` call: it raised, it reported progress without a
      response, or it returned the final response, whose `id` key may be
      missing. */
  datatype ChunkReply = Raised | InProgress | Finished(id: Option<string>)

  /** How the loop ends. `Stalled` stands for the replies running out, which
      the real loop cannot observe. */
  datatype UploadEnd = Aborted | Responded(id: Option<string>) | Stalled

  /** Exceptions raised before the first final response. */
  function FailuresBeforeResponse(replies: seq<ChunkReply>): nat {
    if replies == [] || replies[0].Finished? then 0
    else (if replies[0].Raised? then 1 else 0) + FailuresBeforeResponse(replies[1..])
  }

  /** Whether any reply is a final response. */
  predicate HasResponse(replies: seq<ChunkReply>) {
    exists m :: 0 <= m < |replies| && replies[m].Finished?
  }

  /** The first final response. */
  function FirstResponse(replies: seq<ChunkReply>): (m: nat)
    requires HasResponse(replies)
    ensures m < |replies| && replies[m].Finished?
    ensures forall l :: 0 <= l < m ==> !replies[l].Finished?
  {
    if replies[0].Finished? then 0
    else
      assert HasResponse(replies[1..]) by {
        var m :| 0 <= m < |replies| && replies[m].Finished?;
        assert replies[1..][m - 1] == replies[m];
      }
      1 + FirstResponse(replies[1..])
  }

  /** The `while response is None` loop, with `retries` failures already
      counted: each exception counts, and the one that takes the count past
      10 ends the upload, however many chunks succeeded in between. */
  function UploadLoop(replies: seq<ChunkReply>, retries: nat): (r: UploadEnd)
    requires retries <= MaxRetries
    ensures r == Aborted <==> retries + FailuresBeforeResponse(replies) > MaxRetries
    ensures r.Responded? <==> HasResponse(replies) && retries + FailuresBeforeResponse(replies) <= MaxRetries
    ensures r.Responded? ==> r.id == replies[FirstResponse(replies)].id
  {
    if replies == [] then Stalled
    else match replies[0]
      case Finished(id) => Responded(id)
      case InProgress =>
        UploadLoop(replies[1..], retries)
      case Raised =>
        if retries + 1 > MaxRetries then Aborted else UploadLoop(replies[1..], retries + 1)
  }

  /** `n` exceptions in a row. */
  function Failures(n: nat): (r: seq<ChunkReply>)
    ensures |r| == n && forall m :: 0 <= m < n ==> r[m] == Raised
  {
    if n == 0 then [] else [Raised] + Failures(n - 1)
  }

  /** `n` exceptions, each followed by a chunk that went through. */
  function Intermittent(n: nat): (r: seq<ChunkReply>)
    ensures |r| == 2 * n
    ensures forall m :: 0 <= m < |r| ==> r[m] == (if m % 2 == 0 then Raised else InProgress)
  {
    if n == 0 then [] else [Raised, InProgress] + Intermittent(n - 1)
  }

  lemma {:induction false} FailuresCount(n: nat, rest: seq<ChunkReply>)
    ensures FailuresBeforeResponse(Failures(n) + rest) == n + FailuresBeforeResponse(rest)
  {
    if n > 0 {
      assert (Failures(n) + rest)[1..] == Failures(n - 1) + rest;
      FailuresCount(n - 1, rest);
    } else {
      assert Failures(n) + rest == rest;
    }
  }

  lemma {:induction false} IntermittentCount(n: nat)
    ensures FailuresBeforeResponse(Intermittent(n)) == n
  {
    if n > 0 {
      var r := Intermittent(n);
      assert r[1..][1..] == Intermittent(n - 1);
      IntermittentCount(n - 1);
    }
  }

  /** Nine exceptions and then the final response: the upload completes. */
  lemma NineFailuresThenSuccess(id: Option<string>)
    ensures UploadLoop(Failures(9) + [Finished(id)], 0) == Responded(id)
  {
    var replies := Failures(9) + [Finished(id)];
    FailuresCount(9, [Finished(id)]);
    assert replies[9].Finished?;
    assert FirstResponse(replies) == 9;
  }

  /** Ten exceptions still leave room for the response. */
  lemma TenFailuresThenSuccess(id: Option<string>)
    ensures UploadLoop(Failures(10) + [Finished(id)], 0) == Responded(id)
  {
    var replies := Failures(10) + [Finished(id)];
    FailuresCount(10, [Finished(id)]);
    assert replies[10].Finished?;
    assert FirstResponse(replies) == 10;
  }

  /** The eleventh exception aborts, whatever would have come next. */
  lemma EleventhFailureAborts(rest: seq<ChunkReply>)
    ensures UploadLoop(Failures(11) + rest, 0) == Aborted
  {
    FailuresCount(11, rest);
  }

  /** The count is never reset by a successful chunk: eleven exceptions,
      no two of them in a row, still abort the upload. */
  lemma SpreadFailuresAbort(rest: seq<ChunkReply>)
    ensures UploadLoop(Intermittent(11) + rest, 0) == Aborted
  {
    IntermittentCount(11);
    IntermittentPrefix(11, rest);
  }

  lemma {:induction false} IntermittentPrefix(n: nat, rest: seq<ChunkReply>)
    ensures FailuresBeforeResponse(Intermittent(n) + rest) == n + FailuresBeforeResponse(rest)
  {
    if n > 0 {
      assert (Intermittent(n) + rest)[1..][1..] == Intermittent(n - 1) + rest;
      IntermittentPrefix(n - 1, rest);
    } else {
      assert Intermittent(n) + rest == rest;
    }
  }

  // ---------------------------------------------------------------------
  // upload_video
  // ---------------------------------------------------------------------

  /** What a run sent and how the transfer ended, when it got that far. */
  datatype UploadRun = UploadRun(store: Store, sent: Option<(Request, UploadEnd)>)

  /** `upload_video`. `present` is `os.path.exists`, `replies` the service's
      answers, `now` the local timestamp string. The most recently created
      packaged task is chosen; without a video path the existence check
      raises; a missing file ends the run quietly; a missing description
      raises; only a final response carrying an `id` is committed. */
  function UploadVideo(store: Store, present: string -> bool, replies: seq<ChunkReply>, now: string): (r: Result<UploadRun>)
    ensures FindLatest(store, CompletedPackaged).None? ==> r == Ok(UploadRun(store, None))
    ensures FindLatest(store, CompletedPackaged).Some? ==>
      var k := FindLatest(store, CompletedPackaged).value;
      var t := store[k];
      && (r.Err? <==> t.finalVideoPath.None? || (present(t.finalVideoPath.value) && t.aiDescription.None?))
      && (r.Ok? && r.value.sent.None? ==> r.value.store == store)
      && (r.Ok? && r.value.sent.Some? ==>
           var (request, end) := r.value.sent.value;
           && BuildRequest(t) == Ok(request)
           && end == UploadLoop(replies, 0)
           && (end.Responded? && end.id.Some? ==>
                 && Advances(store, r.value.store, k, CompletedPackaged, Uploaded)
                 && r.value.store[k] == t.(status := Uploaded, youtubeId := end.id, uploadedAt := Some(now))
                 && r.value.store[k].youtubeId == end.id
                 && r.value.store[k].uploadedAt == Some(now))
           && (!(end.Responded? && end.id.Some?) ==> r.value.store == store))
  {
    match FindLatest(store, CompletedPackaged)
    case None => Ok(UploadRun(store, None))
    case Some(k) =>
      var t := store[k];
      match t.finalVideoPath
      case None => Err("TypeError: stat: path should be string, not NoneType")
      case Some(path) =>
        if !present(path) then Ok(UploadRun(store, None))
        else match BuildRequest(t)
          case Err(e) => Err(e)
          case Ok(request) =>
            var end := UploadLoop(replies, 0);
            if end.Responded? && end.id.Some? then
              Ok(UploadRun(Put(store, k, t.(status := Uploaded, youtubeId := end.id, uploadedAt := Some(now))),
                           Some((request, end))))
            else Ok(UploadRun(store, Some((request, end))))
  }

  /** An aborted upload commits nothing, so the task is picked again by the
      next run. */
  lemma AbortLeavesTaskPackaged(store: Store, present: string -> bool, replies: seq<ChunkReply>, now: string)
    requires UploadVideo(store, present, replies, now).Ok?
    requires FailuresBeforeResponse(replies) > MaxRetries
    ensures UploadVideo(store, present, replies, now).value.store == store
  {
  }
}
