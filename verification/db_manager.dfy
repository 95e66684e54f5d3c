/** The task store's own logic (core/db_manager.py): file-name sanitising,
    artifact folder derivation, the niches used today, the 7-day duplicate
    check and guarded insertion. The clock is a parameter (`now`, seconds since
    the UTC epoch, and `localDate`, the `%d-%m-%Y` local date), and the title
    similarity ratio is an abstract function `sim`. */
module DbManager {
  import opened Common
  import opened Tasks

  const BaseDir: string := "data/generated_videos_folder"
  const DaySeconds: int := 86400
  /** The dedup look-back, `timedelta(days=7)`. */
  const DedupWindow: int := 7 * DaySeconds
  /** A title is a duplicate when its similarity ratio is strictly above this. */
  const TitleThreshold: real := 0.85
  const DefaultSourceUrl: string := "https://news.google.com/"
  /** The folder name keeps at most this many characters of the title. */
  const FolderTitleMax: nat := 50

  // ---------------------------------------------------------------------
  // File names
  // ---------------------------------------------------------------------

  /** Python's `\w` restricted to ASCII: letters, digits and `_`. */
  predicate IsWordChar(c: char) {
    'a' <= c <= 'z' || 'A' <= c <= 'Z' || '0' <= c <= '9' || c == '_'
  }

  /** Python's `\s` and `str.isspace()` restricted to ASCII. */
  predicate IsSpace(c: char) {
    c == ' ' || 9 <= c as int <= 13 || 28 <= c as int <= 31
  }

  /** The characters of the class `[-\s]`. */
  predicate IsSep(c: char) { c == '-' || IsSpace(c) }

  predicate IsAlnum(c: char) { IsWordChar(c) && c != '_' }

  predicate AllWord(s: string) { forall i :: 0 <= i < |s| ==> IsWordChar(s[i]) }

  predicate AllSep(s: string) { forall i :: 0 <= i < |s| ==> IsSep(s[i]) }

  /** `re.sub(r"[^\w\s-]", "", s)`. */
  function KeepAllowed(s: string): (r: string)
    ensures forall i :: 0 <= i < |r| ==> IsWordChar(r[i]) || IsSep(r[i])
    ensures |r| <= |s|
    ensures (forall i :: 0 <= i < |s| ==> IsWordChar(s[i]) || IsSep(s[i])) ==> r == s
  {
    if s == [] then []
    else (if IsWordChar(s[0]) || IsSep(s[0]) then [s[0]] else []) + KeepAllowed(s[1..])
  }

  /** `re.sub(r"[-\s]+", "_", s)`: every maximal run of separators becomes one
      underscore; `inRun` says the previous character was a separator. */
  function Collapse(s: string, inRun: bool): (r: string)
    ensures forall i :: 0 <= i < |r| ==> !IsSep(r[i])
    ensures (forall i :: 0 <= i < |s| ==> IsWordChar(s[i]) || IsSep(s[i])) ==> AllWord(r)
  {
    if s == [] then []
    else if IsSep(s[0]) then (if inRun then [] else "_") + Collapse(s[1..], true)
    else [s[0]] + Collapse(s[1..], false)
  }

  function CollapseSeps(s: string): string { Collapse(s, false) }

  function StripLeft(s: string): (r: string)
  {
    if s != [] && IsSpace(s[0]) then StripLeft(s[1..]) else s
  }

  function StripRight(s: string): (r: string)
  {
    if s != [] && IsSpace(s[|s| - 1]) then StripRight(s[..|s| - 1]) else s
  }

  /** `str.strip()`. */
  function Strip(s: string): string { StripRight(StripLeft(s)) }

  /** `sanitize_filename`: keep word characters, whitespace and `-`, turn
      each run of `-`/whitespace into one `_`, strip. The result consists of
      word characters only, so it holds no whitespace and no `-`. */
  function SanitizeFilename(name: string): (r: string)
    ensures AllWord(r)
    ensures forall i :: 0 <= i < |r| ==> !IsSpace(r[i]) && r[i] != '-'
  {
    var c := CollapseSeps(KeepAllowed(name));
    StripIdentity(c);
    Strip(c)
  }

  lemma StripIdentity(s: string)
    requires forall i :: 0 <= i < |s| ==> !IsSpace(s[i])
    ensures Strip(s) == s
  {
  }

  /** The letters and digits of `s`, in order. */
  function Alnums(s: string): string {
    if s == [] then [] else (if IsAlnum(s[0]) then [s[0]] else []) + Alnums(s[1..])
  }

  lemma {:induction false} AlnumsAppend(a: string, b: string)
    ensures Alnums(a + b) == Alnums(a) + Alnums(b)
  {
    if a == [] {
      assert a + b == b;
    } else {
      assert (a + b)[0] == a[0];
      assert (a + b)[1..] == a[1..] + b;
      AlnumsAppend(a[1..], b);
    }
  }

  lemma {:induction false} KeepAllowedAlnums(s: string)
    ensures Alnums(KeepAllowed(s)) == Alnums(s)
  {
    if s != [] {
      var h := if IsWordChar(s[0]) || IsSep(s[0]) then [s[0]] else [];
      AlnumsAppend(h, KeepAllowed(s[1..]));
      KeepAllowedAlnums(s[1..]);
    }
  }

  lemma {:induction false} CollapseAlnums(s: string, inRun: bool)
    ensures Alnums(Collapse(s, inRun)) == Alnums(s)
  {
    if s != [] {
      var h := if IsSep(s[0]) then (if inRun then [] else "_") else [s[0]];
      AlnumsAppend(h, Collapse(s[1..], IsSep(s[0])));
      CollapseAlnums(s[1..], IsSep(s[0]));
    }
  }

  /** Sanitising loses no letter or digit and invents none: only
      punctuation is dropped and only separator runs are rewritten. */
  lemma SanitizeKeepsAlnums(name: string)
    ensures Alnums(SanitizeFilename(name)) == Alnums(name)
  {
    KeepAllowedAlnums(name);
    CollapseAlnums(KeepAllowed(name), false);
  }

  lemma {:induction false} KeepAllowedWord(w: string)
    requires AllWord(w)
    ensures KeepAllowed(w) == w
  {
    if w != [] {
      KeepAllowedWord(w[1..]);
    }
  }

  lemma {:induction false} CollapseWord(w: string, inRun: bool)
    requires AllWord(w)
    ensures Collapse(w, inRun) == w
  {
    if w != [] {
      CollapseWord(w[1..], false);
    }
  }

  /** A name made of word characters is already sanitised. */
  lemma SanitizeWordIdentity(w: string)
    requires AllWord(w)
    ensures SanitizeFilename(w) == w
  {
    KeepAllowedWord(w);
    CollapseWord(w, false);
  }

  /** Sanitising twice is sanitising once. */
  lemma SanitizeIdempotent(name: string)
    ensures SanitizeFilename(SanitizeFilename(name)) == SanitizeFilename(name)
  {
    SanitizeWordIdentity(SanitizeFilename(name));
  }

  lemma {:induction false} KeepAllowedAppend(a: string, b: string)
    ensures KeepAllowed(a + b) == KeepAllowed(a) + KeepAllowed(b)
  {
    if a == [] {
      assert a + b == b;
    } else {
      assert (a + b)[0] == a[0];
      assert (a + b)[1..] == a[1..] + b;
      KeepAllowedAppend(a[1..], b);
    }
  }

  lemma {:induction false} KeepAllowedSeps(r: string)
    requires AllSep(r)
    ensures KeepAllowed(r) == r
  {
    if r != [] {
      KeepAllowedSeps(r[1..]);
    }
  }

  lemma {:induction false} CollapseSkipsRun(run: string, x: string)
    requires AllSep(run)
    ensures Collapse(run + x, true) == Collapse(x, true)
  {
    if run == [] {
      assert run + x == x;
    } else {
      assert (run + x)[0] == run[0];
      assert (run + x)[1..] == run[1..] + x;
      CollapseSkipsRun(run[1..], x);
    }
  }

  lemma {:induction false} CollapseWordPrefix(w: string, x: string)
    requires AllWord(w)
    ensures Collapse(w + x, false) == w + Collapse(x, false)
  {
    if w == [] {
      assert w + x == x;
    } else {
      assert (w + x)[0] == w[0];
      assert (w + x)[1..] == w[1..] + x;
      CollapseWordPrefix(w[1..], x);
    }
  }

  lemma KeepAllowedRun(w1: string, run: string, w2: string)
    requires AllWord(w1) && AllWord(w2) && AllSep(run)
    ensures KeepAllowed(w1 + run + w2) == w1 + (run + w2)
  {
    calc {
      KeepAllowed(w1 + run + w2);
      { KeepAllowedAppend(w1 + run, w2); }
      KeepAllowed(w1 + run) + KeepAllowed(w2);
      { KeepAllowedAppend(w1, run); }
      KeepAllowed(w1) + KeepAllowed(run) + KeepAllowed(w2);
      { KeepAllowedWord(w1); KeepAllowedWord(w2); KeepAllowedSeps(run); }
      w1 + run + w2;
    }
    assert w1 + run + w2 == w1 + (run + w2);
  }

  /** Removing the characters outside `[\w\s-]` works character by
      character: an allowed character stays in place, any other leaves
      nothing behind, and the text around it is treated independently. */
  lemma KeepAllowedSplit(a: string, c: char, b: string)
    ensures KeepAllowed(a + [c] + b)
         == KeepAllowed(a) + (if IsWordChar(c) || IsSep(c) then [c] else []) + KeepAllowed(b)
  {
    KeepAllowedAppend(a + [c], b);
    KeepAllowedAppend(a, [c]);
    assert [c][1..] == [];
  }

  /** A non-empty run of `-` and whitespace becomes exactly one `_`, or
      nothing when it continues a run already replaced; what follows is read
      as coming after a run. */
  lemma {:induction false} CollapseRunStep(run: string, x: string, inRun: bool)
    requires |run| > 0 && AllSep(run)
    ensures Collapse(run + x, inRun) == (if inRun then [] else "_") + Collapse(x, true)
  {
    assert (run + x)[0] == run[0];
    assert (run + x)[1..] == run[1..] + x;
    CollapseSkipsRun(run[1..], x);
  }

  /** Any other character is copied unchanged and ends the run. */
  lemma CollapseKeepStep(c: char, x: string, inRun: bool)
    requires !IsSep(c)
    ensures Collapse([c] + x, inRun) == [c] + Collapse(x, false)
  {
    assert ([c] + x)[0] == c;
    assert ([c] + x)[1..] == x;
  }

  /** A run of `-` and whitespace between two words becomes exactly one `_`. */
  lemma SanitizeCollapsesRun(w1: string, run: string, w2: string)
    requires AllWord(w1) && AllWord(w2)
    requires |run| > 0 && AllSep(run)
    ensures SanitizeFilename(w1 + run + w2) == w1 + "_" + w2
  {
    KeepAllowedRun(w1, run, w2);
    CollapseWordPrefix(w1, run + w2);
    CollapseRunStep(run, w2, false);
    CollapseWord(w2, true);
    var c := CollapseSeps(KeepAllowed(w1 + run + w2));
    assert c == w1 + ("_" + w2);
    assert AllWord(c);
    SanitizeWordIdentity(c);
  }

  // ---------------------------------------------------------------------
  // Artifact folder
  // ---------------------------------------------------------------------

  /** `get_video_folder`: base / local date / slot (`noon` when empty) /
      sanitised title cut to 50 characters. */
  function VideoFolder(slot: string, title: string, localDate: string): string {
    var s := if slot == "" then "noon" else slot;
    PathJoin(PathJoin(PathJoin(BaseDir, localDate), s), Take(SanitizeFilename(title), FolderTitleMax))
  }

  /** A path component that `os.path.join` appends behind one `/`. */
  predicate PlainSegment(s: string) {
    |s| > 0 && s[0] != '/' && s[|s| - 1] != '/'
  }

  /** With an ordinary date and slot the folder is
      `base/date/slot/safe`, where `safe` is a word-only prefix of the
      sanitised title of at most 50 characters; an empty slot reads as
      `noon`. */
  lemma VideoFolderLayout(slot: string, title: string, localDate: string)
    requires PlainSegment(localDate)
    requires slot == "" || PlainSegment(slot)
    ensures var s := if slot == "" then "noon" else slot;
            var safe := Take(SanitizeFilename(title), FolderTitleMax);
            && VideoFolder(slot, title, localDate) == BaseDir + "/" + localDate + "/" + s + "/" + safe
            && |safe| <= FolderTitleMax
            && AllWord(safe)
            && safe == SanitizeFilename(title)[..|safe|]
  {
    var s := if slot == "" then "noon" else slot;
    var safe := Take(SanitizeFilename(title), FolderTitleMax);
    var d := BaseDir + "/" + localDate;
    PathJoinPlain(BaseDir, localDate);
    assert d[|d| - 1] == localDate[|localDate| - 1];
    var e := d + "/" + s;
    PathJoinPlain(d, s);
    assert e[|e| - 1] == s[|s| - 1];
    assert safe == [] || IsWordChar(safe[0]);
    PathJoinPlain(e, safe);
  }

  // ---------------------------------------------------------------------
  // Niches used today
  // ---------------------------------------------------------------------

  /** UTC midnight of the day containing `now`. */
  function Midnight(now: int): (m: int)
    ensures m <= now < m + DaySeconds
    ensures m % DaySeconds == 0
  {
    now - now % DaySeconds
  }

  /** `get_used_niches_today`: the non-empty niches of the tasks created at
      or after today's UTC midnight. */
  function UsedNichesToday(store: Store, now: int): (r: set<string>)
    ensures forall n :: n in r <==>
      n != "" && exists k :: 0 <= k < |store| && store[k].createdAt >= Midnight(now) && store[k].niche == n
  {
    if store == [] then {}
    else
      var rest := UsedNichesToday(store[1..], now);
      assert forall k :: 1 <= k < |store| ==> store[k] == store[1..][k - 1];
      if store[0].createdAt >= Midnight(now) && store[0].niche != "" then {store[0].niche} + rest else rest
  }

  // ---------------------------------------------------------------------
  // Duplicate check
  // ---------------------------------------------------------------------

  predicate InWindow(t: Task, now: int) { t.createdAt >= now - DedupWindow }

  /** Some task of the last 7 days has this exact source URL. */
  ghost predicate RecentUrl(store: Store, url: string, now: int) {
    exists k :: 0 <= k < |store| && InWindow(store[k], now) && store[k].sourceUrl == url
  }

  /** Some task of the last 7 days has a title whose case-insensitive
      similarity to `title` is strictly above 0.85. */
  ghost predicate RecentSimilarTitle(store: Store, title: string, now: int, sim: (string, string) -> real) {
    exists k :: 0 <= k < |store| && InWindow(store[k], now) && sim(Lower(title), Lower(store[k].title)) > TitleThreshold
  }

  /** The URL query `find_one({"source_url": url, "created_at": {"$gte": cutoff}})`. */
  function UrlScan(store: Store, url: string, now: int): (r: bool)
    ensures r <==> RecentUrl(store, url, now)
  {
    if store == [] then false
    else
      assert forall k :: 1 <= k < |store| ==> store[k] == store[1..][k - 1];
      (InWindow(store[0], now) && store[0].sourceUrl == url) || UrlScan(store[1..], url, now)
  }

  /** The title loop over the tasks of the window, stopping at the first
      ratio above the threshold. */
  function TitleScan(store: Store, title: string, now: int, sim: (string, string) -> real): (r: bool)
    ensures r <==> RecentSimilarTitle(store, title, now, sim)
  {
    if store == [] then false
    else
      assert forall k :: 1 <= k < |store| ==> store[k] == store[1..][k - 1];
      (InWindow(store[0], now) && sim(Lower(title), Lower(store[0].title)) > TitleThreshold)
      || TitleScan(store[1..], title, now, sim)
  }

  /** `task_exists`: the URL check runs only for a truthy URL; the title
      check always runs. */
  function TaskExists(store: Store, title: string, url: Option<string>, now: int, sim: (string, string) -> real): (r: bool)
    ensures r <==> (Truthy(url) && RecentUrl(store, url.value, now)) || RecentSimilarTitle(store, title, now, sim)
  {
    (Truthy(url) && UrlScan(store, url.value, now)) || TitleScan(store, title, now, sim)
  }

  /** The tasks of the store that lie inside the window. */
  function Recent(store: Store, now: int): (r: Store)
    ensures forall t :: t in r <==> t in store && InWindow(t, now)
  {
    if store == [] then []
    else (if InWindow(store[0], now) then [store[0]] else []) + Recent(store[1..], now)
  }

  /** Tasks older than 7 days never decide a duplicate verdict: the verdict
      on the whole store equals the verdict on its recent tasks alone. */
  lemma OldTasksIgnored(store: Store, title: string, url: Option<string>, now: int, sim: (string, string) -> real)
    ensures TaskExists(store, title, url, now, sim) == TaskExists(Recent(store, now), title, url, now, sim)
  {
    if Truthy(url) {
      OldUrlsIgnored(store, url.value, now);
    }
    OldTitlesIgnored(store, title, now, sim);
  }

  lemma OldUrlsIgnored(store: Store, url: string, now: int)
    ensures RecentUrl(store, url, now) == RecentUrl(Recent(store, now), url, now)
  {
    var rs := Recent(store, now);
    if RecentUrl(store, url, now) {
      var k :| 0 <= k < |store| && InWindow(store[k], now) && store[k].sourceUrl == url;
      assert store[k] in rs;
      var j :| 0 <= j < |rs| && rs[j] == store[k];
      assert RecentUrl(rs, url, now);
    }
    if RecentUrl(rs, url, now) {
      var j :| 0 <= j < |rs| && InWindow(rs[j], now) && rs[j].sourceUrl == url;
      assert rs[j] in store;
      var k :| 0 <= k < |store| && store[k] == rs[j];
      assert RecentUrl(store, url, now);
    }
  }

  lemma OldTitlesIgnored(store: Store, title: string, now: int, sim: (string, string) -> real)
    ensures RecentSimilarTitle(store, title, now, sim) == RecentSimilarTitle(Recent(store, now), title, now, sim)
  {
    var rs := Recent(store, now);
    if RecentSimilarTitle(store, title, now, sim) {
      var k :| 0 <= k < |store| && InWindow(store[k], now) && sim(Lower(title), Lower(store[k].title)) > TitleThreshold;
      assert store[k] in rs;
      var j :| 0 <= j < |rs| && rs[j] == store[k];
      assert RecentSimilarTitle(rs, title, now, sim);
    }
    if RecentSimilarTitle(rs, title, now, sim) {
      var j :| 0 <= j < |rs| && InWindow(rs[j], now) && sim(Lower(title), Lower(rs[j].title)) > TitleThreshold;
      assert rs[j] in store;
      var k :| 0 <= k < |store| && store[k] == rs[j];
      assert RecentSimilarTitle(store, title, now, sim);
    }
  }

  // ---------------------------------------------------------------------
  // Insertion
  // ---------------------------------------------------------------------

  /** The `extra_data` dictionary of `add_task`; `None` is an absent key. */
  datatype Extra = Extra(sourceUrl: Option<string>, nicheSlot: Option<string>, niche: Option<string>)

  /** The record `add_task` inserts, with its defaults: slot `morning`, the
      Google News URL for a falsy source URL, niche `motivation`, creation
      time `now`, and nothing yet from later stages. */
  predicate InsertedWithDefaults(t: Task, id: nat, title: string, content: string, source: string,
                                 status: Status, extra: Extra, now: int, localDate: string)
  {
    var slot := extra.nicheSlot.GetOr("morning");
    && t.id == id && t.title == title && t.content == content && t.source == source && t.status == status
    && t.sourceUrl == (if Truthy(extra.sourceUrl) then extra.sourceUrl.value else DefaultSourceUrl)
    && t.niche == extra.niche.GetOr("motivation")
    && t.slot == slot
    && t.folderPath == VideoFolder(slot, title, localDate)
    && t.createdAt == now
    && t.scriptData.None? && t.aiDescription.None? && t.aiHashtags.None? && t.aiTags.None? && t.tags.None?
    && t.finalVideoPath.None? && t.qcReason.None? && t.youtubeId.None? && t.uploadedAt.None?
  }

  /** `add_task`: a duplicate leaves the store as it was; otherwise exactly
      one task is appended, under an id no stored task has, and every
      existing task is kept as it was. */
  function AddTask(store: Store, title: string, content: string, source: string, status: Status,
                   extra: Extra, now: int, localDate: string, sim: (string, string) -> real): (r: Store)
    ensures TaskExists(store, title, extra.sourceUrl, now, sim) ==> r == store
    ensures !TaskExists(store, title, extra.sourceUrl, now, sim) ==>
      && |r| == |store| + 1
      && r[..|store|] == store
      && (forall i :: 0 <= i < |store| ==> store[i].id != r[|store|].id)
      && InsertedWithDefaults(r[|store|], r[|store|].id, title, content, source, status, extra, now, localDate)
  {
    if TaskExists(store, title, extra.sourceUrl, now, sim) then store
    else
      var slot := extra.nicheSlot.GetOr("morning");
      var url := if Truthy(extra.sourceUrl) then extra.sourceUrl.value else DefaultSourceUrl;
      var t := Task(MaxId(store) + 1, title, content, source, status, url,
                    extra.niche.GetOr("motivation"), slot, VideoFolder(slot, title, localDate), now,
                    None, None, None, None, None, None, None, None, None);
      store + [t]
  }

  /** Insertion keeps ids unique. */
  lemma AddTaskKeepsIds(store: Store, title: string, content: string, source: string, status: Status,
                        extra: Extra, now: int, localDate: string, sim: (string, string) -> real)
    requires UniqueIds(store)
    ensures UniqueIds(AddTask(store, title, content, source, status, extra, now, localDate, sim))
  {
    var r := AddTask(store, title, content, source, status, extra, now, localDate, sim);
    if r != store {
      forall i, j | 0 <= i < |r| && 0 <= j < |r| && i != j
        ensures r[i].id != r[j].id
      {
        if i < |store| && j < |store| {
          assert r[i] == store[i] && r[j] == store[j];
        }
      }
    }
  }

  /** A title accepted at `now` is rejected when submitted again within 7
      days, as long as the similarity ratio of a title with itself is 1 (as
      `SequenceMatcher.ratio` gives): the second call inserts nothing. */
  lemma AddTwiceInsertsOnce(store: Store, title: string, content: string, source: string, status: Status,
                            extra: Extra, now: int, later: int, localDate: string, sim: (string, string) -> real)
    requires !TaskExists(store, title, extra.sourceUrl, now, sim)
    requires now <= later <= now + DedupWindow
    requires sim(Lower(title), Lower(title)) == 1.0
    ensures var once := AddTask(store, title, content, source, status, extra, now, localDate, sim);
            && |once| == |store| + 1
            && AddTask(once, title, content, source, status, extra, later, localDate, sim) == once
  {
    var once := AddTask(store, title, content, source, status, extra, now, localDate, sim);
    var n := |store|;
    assert once[n].title == title && once[n].createdAt == now;
    assert InWindow(once[n], later);
    assert RecentSimilarTitle(once, title, later, sim);
  }

  /** A task inserted with a truthy source URL makes any later submission of
      that URL within 7 days a duplicate, whatever its title. */
  lemma SameUrlRejected(store: Store, title: string, content: string, source: string, status: Status,
                        extra: Extra, now: int, later: int, localDate: string, sim: (string, string) -> real,
                        otherTitle: string)
    requires Truthy(extra.sourceUrl)
    requires now <= later <= now + DedupWindow
    requires !TaskExists(store, title, extra.sourceUrl, now, sim)
    ensures TaskExists(AddTask(store, title, content, source, status, extra, now, localDate, sim),
                       otherTitle, extra.sourceUrl, later, sim)
  {
    var r := AddTask(store, title, content, source, status, extra, now, localDate, sim);
    var n := |store|;
    assert InWindow(r[n], later) && r[n].sourceUrl == extra.sourceUrl.value;
  }
}
