/** The production run of main.py: the slot derivation, the manual intake
    loop, the fixed stage order, and the JSON log. Every outside answer a
    run depends on (clocks, the language model, the user's typing, the
    services behind each stage) is gathered in `Services`. */
module Pipeline {
  import opened Common
  import opened Tasks
  import opened DbManager
  import opened Scraper
  import opened Brain
  import opened Voice
  import opened Visuals
  import opened Uploader

  // ---------------------------------------------------------------------
  // Slot
  // ---------------------------------------------------------------------

  /** The slot of `__main__`: the command-line slot when given, otherwise
      derived from the local hour with its own copy of the thresholds. */
  function TargetSlot(arg: Option<string>, hour: int): string {
    if Truthy(arg) then arg.value
    else if 5 <= hour < 12 then "morning"
    else if 12 <= hour < 17 then "noon"
    else if 17 <= hour < 21 then "evening"
    else "night"
  }

  /** The entry point's thresholds agree with `get_time_slot`'s, and a given
      slot wins. */
  lemma TargetSlotAgrees(arg: Option<string>, hour: int)
    ensures TargetSlot(arg, hour) == (if Truthy(arg) then arg.value else TimeSlot(hour))
  {
  }

  // ---------------------------------------------------------------------
  // Manual intake
  // ---------------------------------------------------------------------

  const ManualAttempts: nat := 10
  const ManualSourceUrl := "Manual Input"
  const ManualNiche := "general"

  /** `refine_user_idea`: the model's text stripped, or the user's content
      unchanged when the call raised. */
  function Refine(content: string, reply: Option<string>): string {
    match reply
    case None => content
    case Some(text) => Strip(text)
  }

  predicate SaysYes(answer: string) { Lower(answer) == "y" }

  /** The feedback sent with attempt `a`: none on the first, otherwise what
      the user typed after attempt `a - 1`. */
  function FeedbackAt(feedbackAfter: nat -> string, a: nat): string {
    if a <= 1 then "" else feedbackAfter(a - 1)
  }

  /** How the loop ends: accepted at some attempt with the refined content,
      or out of attempts. */
  datatype ManualEnd = Accepted(attempt: nat, refined: string) | Exhausted

  /** The `for attempt in range(1, 11)` loop from `attempt` on. `ai(a, fb)` is
      the model's reply at attempt `a` given feedback `fb`; `answer(a)` is the
      user's y/n and `feedbackAfter(a)` the feedback typed after a refusal. */
  function ManualLoop(content: string, ai: (nat, string) -> Option<string>, answer: nat -> string,
                      feedbackAfter: nat -> string, attempt: nat): (r: ManualEnd)
    requires 1 <= attempt <= ManualAttempts + 1
    ensures r.Accepted? ==>
      && attempt <= r.attempt <= ManualAttempts
      && SaysYes(answer(r.attempt))
      && r.refined == Refine(content, ai(r.attempt, FeedbackAt(feedbackAfter, r.attempt)))
    ensures r.Accepted? ==> forall b :: attempt <= b < r.attempt ==> !SaysYes(answer(b))
    ensures r.Exhausted? <==> forall b :: attempt <= b <= ManualAttempts ==> !SaysYes(answer(b))
    decreases ManualAttempts + 1 - attempt
  {
    if attempt > ManualAttempts then Exhausted
    else if SaysYes(answer(attempt)) then
      Accepted(attempt, Refine(content, ai(attempt, FeedbackAt(feedbackAfter, attempt))))
    else ManualLoop(content, ai, answer, feedbackAfter, attempt + 1)
  }

  /** The extra fields of a manual task. */
  function ManualExtra(slot: string): Extra {
    Extra(Some(ManualSourceUrl), Some(slot), Some(ManualNiche))
  }

  /** The manual branch: the loop, then one `add_task` on acceptance. */
  function ManualIntake(store: Store, topic: string, content: string, slot: string,
                        ai: (nat, string) -> Option<string>, answer: nat -> string, feedbackAfter: nat -> string,
                        now: int, localDate: string, sim: (string, string) -> real): (r: (Store, ManualEnd))
    ensures r.1 == ManualLoop(content, ai, answer, feedbackAfter, 1)
    ensures r.1.Exhausted? ==> r.0 == store
    ensures r.1.Accepted? && !TaskExists(store, topic, Some(ManualSourceUrl), now, sim) ==>
      && |r.0| == |store| + 1 && r.0[..|store|] == store
      && r.0[|store|].title == topic && r.0[|store|].content == r.1.refined
      && r.0[|store|].source == "manual" && r.0[|store|].status == Pending
      && r.0[|store|].niche == ManualNiche && r.0[|store|].sourceUrl == ManualSourceUrl
      && r.0[|store|].slot == slot
    ensures r.1.Accepted? && TaskExists(store, topic, Some(ManualSourceUrl), now, sim) ==> r.0 == store
  {
    var end := ManualLoop(content, ai, answer, feedbackAfter, 1);
    match end
    case Exhausted => (store, end)
    case Accepted(_, refined) =>
      (AddTask(store, topic, refined, "manual", Pending, ManualExtra(slot), now, localDate, sim), end)
  }

  /** Every manual task carries the same source URL, so once one has been
      saved, any other manual topic within seven days is turned away as a
      duplicate, whatever its title. */
  lemma SecondManualRejected(store: Store, topic: string, content: string, slot: string,
                             ai: (nat, string) -> Option<string>, answer: nat -> string, feedbackAfter: nat -> string,
                             now: int, later: int, localDate: string, sim: (string, string) -> real, otherTopic: string)
    requires ManualLoop(content, ai, answer, feedbackAfter, 1).Accepted?
    requires !TaskExists(store, topic, Some(ManualSourceUrl), now, sim)
    requires now <= later <= now + DedupWindow
    ensures TaskExists(ManualIntake(store, topic, content, slot, ai, answer, feedbackAfter, now, localDate, sim).0,
                       otherTopic, Some(ManualSourceUrl), later, sim)
  {
    var refined := ManualLoop(content, ai, answer, feedbackAfter, 1).refined;
    SameUrlRejected(store, topic, refined, "manual", Pending, ManualExtra(slot), now, later, localDate, sim, otherTopic);
  }

  // ---------------------------------------------------------------------
  // Assembly (only its status transition)
  // ---------------------------------------------------------------------

  /** `assemble`, reduced to its effect on the store: `render` stands for the
      compositing and yields the output path or the exception it raised. */
  function Assemble(store: Store, render: Task -> Result<string>): (r: Result<Store>)
    ensures FindFirst(store, ReadyToAssemble).None? ==> r == Ok(store)
    ensures FindFirst(store, ReadyToAssemble).Some? ==>
      var k := FindFirst(store, ReadyToAssemble).value;
      && (r.Err? <==> render(store[k]).Err?)
      && (r.Ok? ==> Advances(store, r.value, k, ReadyToAssemble, ReadyToUpload)
                    && r.value[k] == store[k].(status := ReadyToUpload, finalVideoPath := Some(render(store[k]).value)))
  {
    match FindFirst(store, ReadyToAssemble)
    case None => Ok(store)
    case Some(k) =>
      match render(store[k])
      case Err(e) => Err(e)
      case Ok(path) => Ok(Put(store, k, store[k].(status := ReadyToUpload, finalVideoPath := Some(path))))
  }

  // ---------------------------------------------------------------------
  // The production log
  // ---------------------------------------------------------------------

  datatype LogEntry = LogEntry(videoName: string, youtubeId: Option<string>, timeSlot: string, generatedAt: string)

  /** `production_log.json` as the run finds it: absent, not JSON, a JSON
      list, or some other JSON value. */
  datatype LogFile = Absent | Unparsable | EntryList(entries: seq<LogEntry>) | OtherJson

  /** Python's `<=` on strings: lexicographic by code point. */
  predicate LexLe(a: string, b: string) {
    a == [] || (b != [] && (a[0] < b[0] || (a[0] == b[0] && LexLe(a[1..], b[1..]))))
  }

  lemma {:induction false} LexTotal(a: string, b: string)
    ensures LexLe(a, b) || LexLe(b, a)
  {
    if a != [] && b != [] && a[0] == b[0] {
      LexTotal(a[1..], b[1..]);
    }
  }

  lemma {:induction false} LexTrans(a: string, b: string, c: string)
    requires LexLe(a, b) && LexLe(b, c)
    ensures LexLe(a, c)
  {
    if a != [] && b != [] && c != [] && a[0] == b[0] && b[0] == c[0] {
      LexTrans(a[1..], b[1..], c[1..]);
    }
  }

  /** Mongo's descending sort on `uploaded_at`: a missing value sorts last. */
  predicate StampLe(a: Option<string>, b: Option<string>) {
    a.None? || (b.Some? && LexLe(a.value, b.value))
  }

  /** `find_one({"status": "uploaded"}, sort=[("uploaded_at", -1)])`; among
      equal stamps the first in store order. */
  function LatestUploaded(store: Store): (r: Option<nat>)
    ensures r.None? <==> forall i :: 0 <= i < |store| ==> store[i].status != Uploaded
    ensures r.Some? ==> r.value < |store| && store[r.value].status == Uploaded
  {
    if store == [] then None
    else match LatestUploaded(store[1..])
      case None => if store[0].status == Uploaded then Some(0) else None
      case Some(k) =>
        if store[0].status == Uploaded && StampLe(store[k + 1].uploadedAt, store[0].uploadedAt) then Some(0)
        else Some(k + 1)
  }

  /** The chosen task's stamp is the latest of all uploaded tasks. */
  lemma {:induction false} LatestUploadedIsLatest(store: Store)
    requires LatestUploaded(store).Some?
    ensures forall i :: 0 <= i < |store| && store[i].status == Uploaded ==>
      StampLe(store[i].uploadedAt, store[LatestUploaded(store).value].uploadedAt)
  {
    var r := LatestUploaded(store).value;
    var rest := store[1..];
    assert forall j :: 1 <= j < |store| ==> store[j] == rest[j - 1];
    match LatestUploaded(rest)
    case None =>
      StampRefl(store[0].uploadedAt);
    case Some(k) =>
      LatestUploadedIsLatest(rest);
      forall i | 0 <= i < |store| && store[i].status == Uploaded
        ensures StampLe(store[i].uploadedAt, store[r].uploadedAt)
      {
        if i > 0 {
          assert rest[i - 1] == store[i];
          assert StampLe(store[i].uploadedAt, store[k + 1].uploadedAt);
          if r == 0 {
            StampTrans(store[i].uploadedAt, store[k + 1].uploadedAt, store[0].uploadedAt);
          } else {
            StampRefl(store[k + 1].uploadedAt);
          }
        } else if r == 0 {
          StampRefl(store[0].uploadedAt);
        } else {
          StampTotal(store[k + 1].uploadedAt, store[0].uploadedAt);
        }
      }
  }

  lemma StampRefl(a: Option<string>)
    ensures StampLe(a, a)
  {
    if a.Some? {
      LexTotal(a.value, a.value);
    }
  }

  lemma StampTotal(a: Option<string>, b: Option<string>)
    ensures StampLe(a, b) || StampLe(b, a)
  {
    if a.Some? && b.Some? {
      LexTotal(a.value, b.value);
    }
  }

  lemma StampTrans(a: Option<string>, b: Option<string>, c: Option<string>)
    requires StampLe(a, b) && StampLe(b, c)
    ensures StampLe(a, c)
  {
    if a.Some? {
      LexTrans(a.value, b.value, c.value);
    }
  }

  /** The entry for the latest upload. */
  function EntryFor(t: Task, slot: string, stamp: string): LogEntry {
    LogEntry(t.title, t.youtubeId, slot, stamp)
  }

  /** The entries already logged; an absent or unreadable file counts as an
      empty list. A JSON value that is not a list has no `append`. */
  function PriorEntries(file: LogFile): Result<seq<LogEntry>> {
    match file
    case Absent => Ok([])
    case Unparsable => Ok([])
    case EntryList(es) => Ok(es)
    case OtherJson => Err("AttributeError: object has no attribute 'append'")
  }

  /** Step 8 of the run: the new log contents, or `None` when no upload is
      recorded and the file is left alone. */
  function WriteLog(store: Store, slot: string, stamp: string, file: LogFile): (r: Result<Option<seq<LogEntry>>>)
    ensures LatestUploaded(store).None? ==> r == Ok(None)
    ensures LatestUploaded(store).Some? ==>
      && (r.Err? <==> file.OtherJson?)
      && (r.Ok? ==> r.value.Some? && |r.value.value| == |PriorEntries(file).value| + 1
                    && r.value.value[..|PriorEntries(file).value|] == PriorEntries(file).value
                    && r.value.value[|PriorEntries(file).value|] == EntryFor(store[LatestUploaded(store).value], slot, stamp))
  {
    match LatestUploaded(store)
    case None => Ok(None)
    case Some(k) =>
      match PriorEntries(file)
      case Err(e) => Err(e)
      case Ok(es) => Ok(Some(es + [EntryFor(store[k], slot, stamp)]))
  }

  /** A log file that cannot be read is started afresh: the run writes the
      same single entry as when there was no file. */
  lemma UnreadableLogRestarts(store: Store, slot: string, stamp: string)
    requires LatestUploaded(store).Some?
    ensures WriteLog(store, slot, stamp, Unparsable) == WriteLog(store, slot, stamp, Absent)
    ensures WriteLog(store, slot, stamp, Absent) == Ok(Some([EntryFor(store[LatestUploaded(store).value], slot, stamp)]))
  {
  }

  // ---------------------------------------------------------------------
  // The run
  // ---------------------------------------------------------------------

  /** The stages of `run_creation_pipeline`; `Intake` is scraping or the
      manual loop. */
  datatype Stage = Intake | Script | Narrate | Illustrate | Render | Package | Publish | Log

  /** The fixed order the stages run in. */
  const StageOrder: seq<Stage> := [Intake, Script, Narrate, Illustrate, Render, Package, Publish, Log]

  /** Everything from outside a run depends on. `package` stands for the
      packaging stage, whose module is not part of this model. */
  datatype Services = Services(
    hour: int, now: int, localDate: string, stamp: string, nowText: string,
    sim: (string, string) -> real,
    nichePick: nat, fetch: (string, nat) -> seq<Entry>, reply: (nat, seq<Candidate>) -> Top3Reply, winnerPick: nat,
    scriptReply: Option<string>, parse: string -> Option<ScriptJson>, metaWritten: bool,
    synth: (string, string) -> Option<real>,
    web: (string, string) -> bool, stock: (string, string) -> bool,
    render: Task -> Result<string>,
    package: Store -> Result<Store>,
    present: string -> bool, replies: seq<ChunkReply>)

  /** The top-3 replies behave as `random.sample` can. */
  ghost predicate SaneReplies(svc: Services) {
    SaneTop3(svc.reply)
  }

  datatype Mode =
    | Automated
    | Manual(topic: string, content: string, ai: (nat, string) -> Option<string>,
             answer: nat -> string, feedbackAfter: nat -> string)

  /** How a run ends: the manual loop ran out, a stage raised, or every
      stage ran (with the new log contents, if an upload is recorded). */
  datatype RunOutcome = Halted | Crashed(stage: Stage, reason: string) | RanThrough(log: Option<seq<LogEntry>>)

  /** One stage between intake and logging, as `run_creation_pipeline`
      calls it; `Err` is an exception that escaped the stage. Intake and
      logging are run by the pipeline itself. */
  function RunStage(stage: Stage, s: Store, svc: Services): Result<Store> {
    match stage
    case Script => Ok(GenerateScript(s, svc.scriptReply, svc.parse, svc.metaWritten))
    case Narrate => GenerateAudio(s, svc.synth)
    case Illustrate =>
      (match DownloadVisuals(s, svc.web, svc.stock)
       case Err(e) => Err(e)
       case Ok(run) => Ok(run.store))
    case Render => Assemble(s, svc.render)
    case Package => svc.package(s)
    case Publish =>
      (match UploadVideo(s, svc.present, svc.replies, svc.stamp)
       case Err(e) => Err(e)
       case Ok(run) => Ok(run.store))
    case Intake => Ok(s)
    case Log => Ok(s)
  }

  /** Every stage but packaging, when it does not raise, leaves the store
      as it was or moves one task along one `Edge`, changing nothing else. */
  lemma StageIsLegal(stage: Stage, s: Store, svc: Services)
    requires stage != Package && RunStage(stage, s, svc).Ok?
    ensures LegalStep(s, RunStage(stage, s, svc).value)
  {
    var r := RunStage(stage, s, svc).value;
    match stage
    case Script =>
      if r != s {
        EdgeIsLegal(s, r, FindFirst(s, Pending).value, Pending, Scripted);
      }
    case Narrate =>
      if FindFirst(s, Scripted).Some? {
        EdgeIsLegal(s, r, FindFirst(s, Scripted).value, Scripted, Voiced);
      }
    case Illustrate =>
      if FindFirst(s, Voiced).Some? {
        EdgeIsLegal(s, r, FindFirst(s, Voiced).value, Voiced, ReadyToAssemble);
      }
    case Render =>
      if FindFirst(s, ReadyToAssemble).Some? {
        EdgeIsLegal(s, r, FindFirst(s, ReadyToAssemble).value, ReadyToAssemble, ReadyToUpload);
      }
    case Publish =>
      if FindLatest(s, CompletedPackaged).Some? && r != s {
        EdgeIsLegal(s, r, FindLatest(s, CompletedPackaged).value, CompletedPackaged, Uploaded);
      }
    case Intake =>
    case Log =>
  }

  /** What intake may leave in the store. Scraping files at most one gathered
      candidate of the chosen niche, and only one that is not a duplicate,
      under the run's slot; the manual branch is `ManualIntake`. */
  ghost predicate IntakeResult(store: Store, s: Store, slot: string, mode: Mode, svc: Services) {
    match mode
    case Automated =>
      var niche := SelectNiche(UsedNichesToday(store, svc.now), svc.nichePick);
      || s == store
      || exists c :: && c in Gather(niche, svc.fetch, 0)
                     && !TaskExists(store, c.title, Some(c.link), svc.now, svc.sim)
                     && s == FileWinner(store, c, niche, RunSlot(Some(slot), svc.hour), svc.now, svc.localDate, svc.sim)
    case Manual(topic, content, ai, answer, feedbackAfter) =>
      s == ManualIntake(store, topic, content, slot, ai, answer, feedbackAfter, svc.now, svc.localDate, svc.sim).0
  }

  /** Step 1 of the run: scraping, or the manual loop. `halted` is the early
      return when the user accepted no refinement. */
  method RunIntake(store: Store, slot: string, mode: Mode, svc: Services) returns (s: Store, halted: bool)
    requires SaneReplies(svc)
    ensures halted <==> mode.Manual? && ManualLoop(mode.content, mode.ai, mode.answer, mode.feedbackAfter, 1).Exhausted?
    ensures halted ==> s == store
    ensures IntakeResult(store, s, slot, mode, svc)
  {
    match mode {
      case Automated =>
        var outcome;
        s, outcome := ScrapeTargetedNiche(store, Some(slot), svc.hour, svc.now, svc.localDate, svc.nichePick,
                                          svc.fetch, svc.reply, svc.winnerPick, svc.sim);
        halted := false;
      case Manual(topic, content, ai, answer, feedbackAfter) =>
        var (s1, end) := ManualIntake(store, topic, content, slot, ai, answer, feedbackAfter, svc.now, svc.localDate, svc.sim);
        s, halted := s1, end.Exhausted?;
    }
  }

  /** The stages of `stages` run one after another from `s`; the first one
      that raises ends the chain with its exception. */
  function Chain(stages: seq<Stage>, s: Store, svc: Services): Result<Store>
    decreases |stages|
  {
    if stages == [] then Ok(s)
    else match RunStage(stages[0], s, svc)
      case Err(e) => Err(e)
      case Ok(s1) => Chain(stages[1..], s1, svc)
  }

  /** Running one more stage after a chain: it runs on the chain's store,
      unless the chain already raised. */
  lemma {:induction false} ChainSnoc(stages: seq<Stage>, stage: Stage, s: Store, svc: Services)
    ensures Chain(stages + [stage], s, svc) ==
      match Chain(stages, s, svc)
      case Err(e) => Err(e)
      case Ok(s1) => RunStage(stage, s1, svc)
    decreases |stages|
  {
    if stages == [] {
      assert [] + [stage] == [stage];
    } else {
      assert (stages + [stage])[1..] == stages[1..] + [stage];
      match RunStage(stages[0], s, svc)
      case Err(_) =>
      case Ok(s1) => ChainSnoc(stages[1..], stage, s1, svc);
    }
  }

  /** The stages between intake and logging. */
  const MiddleStages: seq<Stage> := StageOrder[1..|StageOrder| - 1]

  /** Steps 2 to 7 of the run, in their fixed order; the first stage that
      raises ends the run. `done` lists the stages that ran, and `s` is the
      store the last of them was given. */
  method RunStages(store: Store, svc: Services) returns (s: Store, done: seq<Stage>, crash: Option<string>)
    ensures |done| <= |MiddleStages| && done == MiddleStages[..|done|]
    ensures crash.None? ==> |done| == |MiddleStages| && Chain(MiddleStages, store, svc) == Ok(s)
    ensures crash.Some? ==>
      && |done| > 0
      && Chain(done[..|done| - 1], store, svc) == Ok(s)
      && RunStage(done[|done| - 1], s, svc) == Err(crash.value)
      && Chain(MiddleStages, store, svc) == Err(crash.value)
  {
    s, done, crash := store, [], None;
    var n := 0;
    while n < |MiddleStages|
      invariant 0 <= n <= |MiddleStages| && done == MiddleStages[..n]
      invariant Chain(done, store, svc) == Ok(s)
    {
      var stage := MiddleStages[n];
      ChainSnoc(done, stage, store, svc);
      assert MiddleStages[..n + 1] == done + [stage];
      done := done + [stage];
      var next := RunStage(stage, s, svc);
      if next.Err? {
        assert done[..|done| - 1] == MiddleStages[..n];
        ChainStops(MiddleStages, n + 1, store, svc);
        return s, done, Some(next.reason);
      }
      s := next.value;
      n := n + 1;
    }
    assert done == MiddleStages;
  }

  /** A chain that raised within its first `n` stages raises the same
      exception when more stages follow. */
  lemma {:induction false} ChainStops(stages: seq<Stage>, n: nat, s: Store, svc: Services)
    requires n <= |stages| && Chain(stages[..n], s, svc).Err?
    ensures Chain(stages, s, svc) == Chain(stages[..n], s, svc)
    decreases n
  {
    assert n > 0;
    assert stages[..n][0] == stages[0] && stages[..n][1..] == stages[1..][..n - 1];
    match RunStage(stages[0], s, svc)
    case Err(_) =>
    case Ok(s1) => ChainStops(stages[1..], n - 1, s1, svc);
  }

  /** Step 8 of the run: an upload is logged when one is recorded; a log
      file holding JSON other than a list crashes the step. */
  method RunLog(s: Store, slot: string, stamp: string, logFile: LogFile) returns (outcome: RunOutcome)
    ensures outcome.Crashed? <==> LatestUploaded(s).Some? && logFile.OtherJson?
    ensures outcome.Crashed? ==> outcome.stage == Log
    ensures !outcome.Crashed? ==> outcome.RanThrough?
    ensures outcome.RanThrough? ==>
      && (outcome.log.Some? <==> LatestUploaded(s).Some?)
      && (outcome.log.Some? ==>
            && PriorEntries(logFile).Ok?
            && outcome.log.value == PriorEntries(logFile).value + [EntryFor(s[LatestUploaded(s).value], slot, stamp)])
  {
    var logged := WriteLog(s, slot, stamp, logFile);
    if logged.Err? {
      return Crashed(Log, logged.reason);
    }
    assert logged.value.Some? ==> logged.value.value == PriorEntries(logFile).value + [EntryFor(s[LatestUploaded(s).value], slot, stamp)];
    return RanThrough(logged.value);
  }

  /** Intake followed by the stages after it, in order, is a prefix of the
      fixed order; with all six, logging completes it. */
  lemma StageTrace(done: seq<Stage>)
    requires |done| <= |MiddleStages| && done == MiddleStages[..|done|]
    ensures [Intake] + done == StageOrder[..1 + |done|]
    ensures |done| == |MiddleStages| ==> [Intake] + done + [Log] == StageOrder
  {
  }

  /** What steps 2 to 8 do from the store intake left: `trace` lists the
      stages that ran, intake first, in the fixed order, and `r` is the
      store the run ends with (on a crash, the store the raising stage was
      given). The stages run as `Chain` runs them; logging follows when none
      raised. */
  ghost predicate RanFrom(intake: Store, slot: string, svc: Services, logFile: LogFile,
                          r: Store, trace: seq<Stage>, outcome: RunOutcome) {
    && 2 <= |trace| <= |StageOrder| && trace == StageOrder[..|trace|]
    && !outcome.Halted?
    && (outcome.Crashed? ==> trace[|trace| - 1] == outcome.stage)
    && (outcome.Crashed? && outcome.stage != Log ==>
          && Chain(trace[1..|trace| - 1], intake, svc) == Ok(r)
          && RunStage(outcome.stage, r, svc) == Err(outcome.reason)
          && Chain(MiddleStages, intake, svc) == Err(outcome.reason))
    && (outcome.RanThrough? || (outcome.Crashed? && outcome.stage == Log) ==> Chain(MiddleStages, intake, svc) == Ok(r))
    && (outcome.RanThrough? ==> trace == StageOrder)
    && (outcome.RanThrough? ==>
          && (outcome.log.Some? <==> LatestUploaded(r).Some?)
          && (outcome.log.Some? ==>
                && PriorEntries(logFile).Ok?
                && outcome.log.value == PriorEntries(logFile).value + [EntryFor(r[LatestUploaded(r).value], slot, svc.nowText)]))
  }

  /** Steps 2 to 8 of the run, from the store intake left. */
  method RunFromIntake(intake: Store, slot: string, svc: Services, logFile: LogFile)
    returns (r: Store, trace: seq<Stage>, outcome: RunOutcome)
    ensures RanFrom(intake, slot, svc, logFile, r, trace, outcome)
  {
    var done, crash;
    r, done, crash := RunStages(intake, svc);
    StageTrace(done);
    trace := [Intake] + done;
    if crash.Some? {
      assert trace[1..|trace| - 1] == done[..|done| - 1];
      return r, trace, Crashed(done[|done| - 1], crash.value);
    }
    trace := trace + [Log];
    outcome := RunLog(r, slot, svc.nowText, logFile);
  }

  /** `run_creation_pipeline`. `intake` is the store intake left; a run that
      is not halted continues from it as `RanFrom` describes. */
  method RunPipeline(store: Store, slot: string, mode: Mode, svc: Services, logFile: LogFile)
    returns (r: Store, intake: Store, trace: seq<Stage>, outcome: RunOutcome)
    requires SaneReplies(svc)
    ensures outcome.Halted? <==> mode.Manual? && ManualLoop(mode.content, mode.ai, mode.answer, mode.feedbackAfter, 1).Exhausted?
    ensures outcome.Halted? ==> r == store && trace == []
    ensures !outcome.Halted? ==> IntakeResult(store, intake, slot, mode, svc)
    ensures !outcome.Halted? ==> RanFrom(intake, slot, svc, logFile, r, trace, outcome)
  {
    var halted;
    intake, halted := RunIntake(store, slot, mode, svc);
    if halted {
      return store, intake, [], Halted;
    }
    r, trace, outcome := RunFromIntake(intake, slot, svc, logFile);
  }
}
