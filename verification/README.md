# A Dafny model of the YouTube-shorts production pipeline

The system turns a news item, or an idea typed in by hand, into a narrated
vertical video and publishes it. Every stage of one production run reads
and writes one MongoDB collection of tasks. A task moves through a
status chain:

`pending → scripted → voiced → ready_to_assemble → ready_to_upload`

A separate packaging module sets `completed_packaged`, and the uploader
then sets `uploaded`. The quality-control verifier moves `completed` tasks
to `ready_to_upload` or `failed_qc`.

This project models that core as pure functions over an immutable store
(`seq<Task>`):

- the task store's own logic (`DbManager`);
- topic selection (`Scraper`);
- script generation (`Brain`);
- narration (`Voice`);
- image gathering (`Visuals`);
- quality control (`Verifier`);
- publishing (`Uploader`);
- the administrative purge (`ResetDb`);
- the run of `main.py`, with its manual-intake loop and JSON log (`Pipeline`).

`Tasks` holds the record, the status enum and the two store lookups.
`Common` holds small shared helpers: options, results, Python string
functions and `os.path.join`.

Every outside service becomes a parameter: the Groq language model, the
text-to-speech engine, the image searches, OpenCV, YouTube, the clocks
and `random`. A stage's uncaught Python exception is an `Err` result, and
the store is left as it was. This is faithful because every stage writes
the database only at its end.

Two lookups stand in for MongoDB:

- `find_one({"status": S})` is the first matching task in store order
  (`Tasks.FindFirst`);
- a `find_one` sorted by `created_at` descending is the task with the
  greatest creation time, the first among equals (`Tasks.FindLatest`).

Every modelled stage except packaging either changes nothing or moves
exactly one task along one edge of the chain (`Pipeline.StageIsLegal`,
`Verifier.QcIsLegal`). The task it moves keeps its id, creation time,
folder, source URL and niche, and no other task changes
(`Tasks.Advances`). Scraping and manual intake insert instead
(`DbManager.AddTask`).

Some consequences of the code are easy to miss:

- **Retries count cumulatively.** The upload's retry counter is never
  reset by a successful chunk, so eleven exceptions spread over an upload
  abort it. They need not be consecutive (`Uploader.SpreadFailuresAbort`).
- **Failed scenes are dropped.** Narration drops every scene whose
  synthesis failed, so the scene list can shrink, to zero scenes in the
  extreme (`Voice.AllFailStillVoiced`). A scene without a `text` key
  raises before the `try`, so it ends the stage.
- **Scripted tags are not sent.** The uploader reads the key `tags`, but
  scripting writes `ai_tags`. A task with no `tags` key is sent the tags
  `["", "Shorts", niche]` (`Uploader.UntaggedRequest`). No modelled stage
  writes `tags`; only the packaging step, which is a parameter here,
  could.
- **The verifier is never reached.** It consumes `completed`, a status no
  modelled stage writes, and `main.py` does not call it. A failed check
  renames the video file but leaves the stored `final_video_path`
  pointing at the old name.
- **All manual tasks share one source URL.** Each stores the URL
  `"Manual Input"`, so a second manual topic within seven days is always
  rejected as a duplicate, whatever its title (`Pipeline.SecondManualRejected`).
  The run still goes on to the next stage.
- **Most niches get the default category.** Of the twelve niches the
  scraper rotates through, only `history` appears in the uploader's
  category map. Every other niche is published under category 22
  (`Uploader.ScrapedNicheCategories`).

## Model

| member | source | states |
|---|---|---|
| Tasks.FindFirst | core/brain.py:28-31 | `find_one` by status: none exactly when no task has the status, otherwise a task with it and no earlier one |
| Tasks.FindLatest | core/uploader.py:54-59 | the chosen packaged task has the greatest creation time, and no earlier task in the status ties it |
| Tasks.LegalStepKeepsIds | core/brain.py:132-144 | an `update_one` of one task by `_id` keeps ids unique and the number of tasks unchanged |
| DbManager.KeepAllowed | core/db_manager.py:34 | removing every character outside `[\w\s-]` leaves only word, space and `-` characters |
| DbManager.KeepAllowedSplit | core/db_manager.py:34 | the removal works character by character: an allowed character stays where it was, any other leaves nothing, and the text on either side is cleaned independently |
| DbManager.Collapse | core/db_manager.py:35 | after collapsing `[-\s]+` to `_` no separator is left, and allowed-only input gives a word-only name |
| DbManager.CollapseRunStep | core/db_manager.py:35 | a maximal run of spaces and hyphens becomes exactly one `_` (none when it continues a run already replaced) |
| DbManager.CollapseKeepStep | core/db_manager.py:35 | a character that is not a space or hyphen is copied unchanged and ends the run |
| DbManager.SanitizeFilename | core/db_manager.py:33-35 | a sanitised name has only word characters, so no whitespace or `-` |
| DbManager.SanitizeKeepsAlnums | core/db_manager.py:33-35 | sanitising keeps every letter and digit of the name, in order |
| DbManager.SanitizeWordIdentity | core/db_manager.py:33-35 | a name made of word characters is left unchanged |
| DbManager.SanitizeIdempotent | core/db_manager.py:33-35 | sanitising twice is sanitising once |
| DbManager.SanitizeCollapsesRun | core/db_manager.py:33-35 | any run of spaces and hyphens between two words becomes exactly one underscore |
| DbManager.VideoFolderLayout | core/db_manager.py:37-45 | the folder is base/date/slot/title, an empty slot reads `noon`, and the title part is a word-only prefix of at most 50 characters |
| DbManager.Midnight | core/db_manager.py:49-53 | the start of the UTC day: at most `now`, less than a day before it, a whole number of days |
| DbManager.UsedNichesToday | core/db_manager.py:48-60 | a niche is used today exactly when it is non-empty and some task created since UTC midnight has it |
| DbManager.UrlScan | core/db_manager.py:65-71 | the URL query finds a task exactly when a task of the last 7 days has that source URL |
| DbManager.TitleScan | core/db_manager.py:73-90 | the title loop fires exactly when a task of the last 7 days has a case-insensitive similarity strictly above 0.85 |
| DbManager.TaskExists | core/db_manager.py:62-90 | a duplicate means a recent task with the same truthy URL, or a recent similar title |
| DbManager.Recent | core/db_manager.py:73-75 | the window query returns exactly the stored tasks created in the last 7 days |
| DbManager.OldTasksIgnored | core/db_manager.py:63-75 | the duplicate verdict on the whole store equals the verdict on the last 7 days alone |
| DbManager.OldUrlsIgnored | core/db_manager.py:65-68 | tasks older than 7 days never match the URL query |
| DbManager.OldTitlesIgnored | core/db_manager.py:73-75 | tasks older than 7 days never take part in the title comparison |
| DbManager.AddTask | core/db_manager.py:92-121 | a duplicate inserts nothing; otherwise one task is appended with a fresh id, its defaults, the folder and the current time, and the other tasks are kept |
| DbManager.AddTaskKeepsIds | core/db_manager.py:108-120 | an insertion keeps ids unique |
| DbManager.AddTwiceInsertsOnce | core/db_manager.py:92-102 | submitting the same title again within 7 days inserts nothing the second time |
| DbManager.SameUrlRejected | core/db_manager.py:98-105 | once a task with a truthy URL is stored, any title with that URL within 7 days is a duplicate |
| ResetDb.FixDatabase | reset_db.py:9-11 | after the purge only `completed_packaged` tasks remain, and the deleted count is the number of others |
| ResetDb.PurgeDistributes | reset_db.py:9 | the purge works task by task: purging a concatenation is concatenating the purges |
| ResetDb.PurgeMembers | reset_db.py:9 | a task survives exactly when it was stored and is `completed_packaged` |
| ResetDb.PurgeIdempotent | reset_db.py:9-11 | a second purge deletes nothing |
| Scraper.TimeSlot | core/scraper.py:92-101 | morning is hours 5-11, noon 12-16, evening 17-20, and night covers every other hour |
| Scraper.Unused | core/scraper.py:272-275 | a niche is available exactly when it is a master niche not used today |
| Scraper.SelectNiche | core/scraper.py:271-284 | the chosen niche is a master niche, and it is unused whenever any niche is unused |
| Scraper.FromEntries | core/scraper.py:295-304 | every entry with a title yields its candidate (the summary cut to 3000 characters, defaulting to the title; the link; the niche), and every candidate comes from such an entry |
| Scraper.FromEntriesAppend | core/scraper.py:295-304 | candidates come out in feed order: the entries of two feeds give the candidates of the first, then of the second |
| Scraper.Gather | core/scraper.py:292-304 | the candidates are exactly those of the titled entries among the first ten of each of the niche's four feeds: at most ten per feed, each of the niche |
| Scraper.GatherStep | core/scraper.py:292-304 | one more feed in front adds exactly that feed's titled entries to the gathered candidates |
| Scraper.FirstDigitRun | core/scraper.py:162 | the search for `\d+` finds nothing exactly when the reply has no digit, and otherwise a non-empty digit run |
| Scraper.PickViralTopic | core/scraper.py:128-177 | an in-range index in the reply selects that candidate; otherwise a random candidate; no candidates raises |
| Scraper.PickViralHonoursIndex | core/scraper.py:161-170 | a reply stating index n in decimal, whatever non-digit words precede it, selects candidate n |
| Scraper.Picks | core/scraper.py:226-229 | the valid indices pick candidates in reply order; all valid picks them all, none valid picks nothing |
| Scraper.PicksAppend | core/scraper.py:227-229 | picking from a concatenated reply picks from each part in turn |
| Scraper.PickTop3 | core/scraper.py:179-238 | at most three picks, all from the candidates; after an exception, `min(3, len)` sampled ones |
| Scraper.PickTop3IgnoresTail | core/scraper.py:227 | reply entries past the third never change the picks |
| Scraper.RemoveFirst | core/scraper.py:325-326 | `remove` takes out one copy of the candidate |
| Scraper.RemoveFirstCounts | core/scraper.py:325-326 | `remove` lowers the candidate's count by one when it is present and changes no other count |
| Scraper.RemoveAll | core/scraper.py:319-326 | the removal loop leaves only candidates that were in the pool |
| Scraper.RemoveAllCounts | core/scraper.py:319-326 | each pick leaves the pool once for each time it was picked, and nothing else leaves |
| Scraper.RemovedPickGone | core/scraper.py:319-326 | a picked candidate that occurred once in the pool is never offered again |
| Scraper.NonDuplicatesMembers | core/scraper.py:318-324 | the unique winners are exactly the picks that are not duplicates of recent tasks |
| Scraper.Draw | core/scraper.py:328-330 | `random.choice` draws one of the winners, and draws nothing exactly when there are none |
| Scraper.FileWinner | core/scraper.py:335-345 | the winner is filed as a pending task with the upper-cased niche as source, its slot and niche |
| Scraper.Attempt | core/scraper.py:316-330 | one batch removes its picks from the pool; it draws a winner among the non-duplicate picks, none exactly when every pick is a duplicate, and the winner is a pooled, picked non-duplicate |
| Scraper.PoolStep | core/scraper.py:319-326 | an attempt only takes candidates out of the pool |
| Scraper.ChainShrinks | core/scraper.py:314-352 | over any run of attempts that each only take candidates out, a later pool holds nothing an earlier one did not |
| Scraper.PoolShrinks | core/scraper.py:314-352 | a later attempt's pool holds only candidates of an earlier one, and so of the gathered ones |
| Scraper.AttemptStep | core/scraper.py:314-330 | attempt `k` works on the pool the earlier attempts left, leaves the next attempt's pool, and draws from the non-duplicates among its picks |
| Scraper.Top3PicksFromPool | core/scraper.py:316 | every attempt's parsed top-3 picks are candidates of the pool it was shown |
| Scraper.DrawnWinnerIsFresh | core/scraper.py:316-330 | when every attempt picks from its pool, a drawn winner is one of the gathered candidates and not a duplicate of a recent task |
| Scraper.PickedNeverOfferedAgain | core/scraper.py:319-326 | a pick that occurred once in its attempt's pool is never offered by a later attempt |
| Scraper.FirstWinner | core/scraper.py:311-352 | at most four attempts, each while three candidates remain; the loop stops at the first attempt that draws a winner, and otherwise runs out of attempts or candidates |
| Scraper.BatchLoop | core/scraper.py:311-352 | every attempt before the last failed with at least three candidates; a winner is the draw of the first attempt with a non-duplicate pick; giving up means four attempts or fewer than three candidates left |
| Scraper.ScrapeTargetedNiche | core/scraper.py:267-356 | no candidates means no task; otherwise every attempt before the last found only duplicates, and either the first winner drawn, a non-duplicate candidate of the niche, is filed as pending, or after four attempts or below three candidates the store is unchanged and the remaining pool is reported |
| Brain.OpenAt | core/brain.py:21 | the first `{`, with no `{` before it |
| Brain.CloseEnd | core/brain.py:22 | the end of the last `}`, with no `}` after it |
| Brain.Trim | core/brain.py:18-23 | the trimmed reply is empty or starts with `{` and ends with `}` |
| Brain.TrimSplits | core/brain.py:21-22 | the trim only drops a `{`-free prefix and a `}`-free suffix |
| Brain.TrimUnique | core/brain.py:21-22 | any such split with a braced or empty middle is the trimmer's |
| Brain.TrimIdempotent | core/brain.py:21-22 | trimming twice is trimming once |
| Brain.TrimKeepsObject | core/brain.py:21-23 | a reply that already is a braced object reaches the parser unchanged |
| Brain.GenerateScript | core/brain.py:27-150 | without a pending task, a reply, a parse with `scenes` or the metadata file, nothing changes; otherwise the first pending task alone becomes scripted, and only the scenes, the title (kept when the reply has none), description, hashtags and tags are written |
| Voice.Ceil | core/voice.py:43 | `math.ceil`: the least integer at or above the value |
| Voice.ImageCount | core/voice.py:43-44 | at least one image, at most 4 seconds per image, and no more images than that needs |
| Voice.VoicePathsDistinct | core/voice.py:24-25 | two scenes never share an audio file |
| Voice.VoiceScene | core/voice.py:24-51 | a scene is voiced exactly when synthesis succeeds, with its path, duration and image count |
| Voice.Kept | core/voice.py:23-54 | the kept indices increase, and an index is kept exactly when its synthesis succeeded |
| Voice.VoiceAllIsKept | core/voice.py:22-54 | the loop's output is the voiced form of exactly the kept scenes, in order |
| Voice.GenerateAudio | core/voice.py:12-60 | a scene without text raises; otherwise the first scripted task alone becomes voiced, keeps every other field, and holds exactly its successfully narrated scenes in order, each with its text, keywords, path and at least one image |
| Voice.NoneKept | core/voice.py:28-54 | when every synthesis fails no scene is kept |
| Voice.AllFailStillVoiced | core/voice.py:53-58 | a task whose every synthesis fails still becomes voiced, with no scenes |
| Visuals.ImagePaths | core/visuals.py:119-122 | one path per requested image, `scene_i_img_j.jpg` in the task folder |
| Visuals.ImagePathsDistinct | core/visuals.py:121-122 | two images of a task never share a file |
| Visuals.FirstStock | core/visuals.py:138-146 | the fallback finds the first other keyword whose stock search succeeds, and none exactly when all fail |
| Visuals.FetchImage | core/visuals.py:126-151 | web only for the hero image; the placeholder exactly when web, stock and every fallback failed |
| Visuals.SceneImages | core/visuals.py:113-156 | a scene raises exactly when it asks for images with no keywords; otherwise image `j` searches keyword `j mod len` through the fallback chain and every requested image gets its path |
| Visuals.SceneLoop | core/visuals.py:113-157 | the loop raises exactly when some scene raises, and otherwise processes every scene in order |
| Visuals.DownloadVisuals | core/visuals.py:102-163 | the first voiced task alone becomes ready to assemble, keeps every other field and every scene's other fields, and each scene gets its image paths, unless some scene raises |
| Visuals.StoreIgnoresSearches | core/visuals.py:148-162 | what the stage stores does not depend on which searches succeeded |
| Verifier.IsFrameBad | core/verifier.py:32-59 | a frame is bad exactly when it is near-black, or the card is readable and the frame is more than 80% similar to it; black screen takes precedence |
| Verifier.Trunc | core/verifier.py:82 | `int()` truncates toward zero |
| Verifier.Samples | core/verifier.py:84 | every sampled position lies inside the range |
| Verifier.SamplesAreRange | core/verifier.py:84 | the sampled positions are `0, step, 2*step, …`, stopping at the first one out of range |
| Verifier.ScanFrom | core/verifier.py:84-95 | a bad verdict names the first sampled frame judged bad, read and judged for that reason, with every earlier frame read and good |
| Verifier.FirstBadShifts | core/verifier.py:84-95 | a good frame in front of the samples leaves the first bad frame of the rest the first bad frame of all |
| Verifier.ScanAdvance | core/verifier.py:84-95 | one loop step: a failed read ends clean, a bad frame ends with its reason at its position, and a good frame moves on to the next sample |
| Verifier.CleanIffAllGood | core/verifier.py:84-95 | the scan is clean exactly when every frame it reaches before a failed read is good |
| Verifier.Scan | core/verifier.py:84-95 | the frame loop returns the verdict of the scan over the sampled positions |
| Verifier.FailedNameMarksExtension | core/verifier.py:111 | a path whose only `.mp4` is its extension is renamed to end in `_FAILED.mp4` |
| Verifier.Verify | core/verifier.py:61-112 | no completed task or missing file changes nothing; a zero step raises; clean makes the task ready to upload with nothing else changed; bad makes it failed_qc with the reason, keeps the stored path and asks for the rename |
| Verifier.QcIsLegal | core/verifier.py:99-109 | the verifier changes nothing or moves one task from completed to ready_to_upload or failed_qc |
| Verifier.SlowVideoCrashes | core/verifier.py:82-84 | a video below one frame per second makes `range` raise |
| Uploader.CategoryFor | core/uploader.py:69-70 | a mapped niche gets its category, any other niche category 22 |
| Uploader.CategoryIsKnown | core/uploader.py:23-30 | every category sent is one of the map's ids |
| Uploader.ScrapedNicheCategories | core/uploader.py:23-30 | of the scraper's niches only history gets its own category |
| Uploader.Split | core/uploader.py:83 | `split` yields at least one piece and no piece holds the separator |
| Uploader.JoinSplit | core/uploader.py:83 | joining the pieces of a split gives back the string |
| Uploader.SplitJoin | core/uploader.py:83 | splitting a join of separator-free pieces gives back the pieces |
| Uploader.SplitPlain | core/uploader.py:83 | a string without the separator splits into itself |
| Uploader.Description | core/uploader.py:75-76 | the description is the cut description, the Shorts line and the source, each with the angle brackets removed and everything else kept in order |
| Uploader.DropAngles | core/uploader.py:76 | the result has no angle brackets and every other character of the input |
| Uploader.DropAnglesAround | core/uploader.py:75-76 | a bracket-free middle survives the removal unchanged between the cleaned outer parts |
| Uploader.DescriptionPlain | core/uploader.py:75-76 | a short description and source without angle brackets pass unchanged |
| Uploader.BuildRequest | core/uploader.py:63-86 | a missing description raises; otherwise the category of the lower-cased niche, the title cut to 100, exactly the built description, and the split tags plus Shorts and the niche |
| Uploader.UntaggedRequest | core/uploader.py:83 | a task with no `tags` key sends the tags `["", "Shorts", niche]` |
| Uploader.FirstResponse | core/uploader.py:100-102 | the loop's first final response, with none before it |
| Uploader.UploadLoop | core/uploader.py:97-112 | the upload aborts exactly when more than 10 exceptions precede the final response, and otherwise ends with that response |
| Uploader.NineFailuresThenSuccess | core/uploader.py:105-112 | nine exceptions then a response completes the upload |
| Uploader.TenFailuresThenSuccess | core/uploader.py:105-112 | ten exceptions still leave room for the response |
| Uploader.EleventhFailureAborts | core/uploader.py:108-112 | the eleventh exception aborts |
| Uploader.SpreadFailuresAbort | core/uploader.py:98-112 | eleven exceptions with successful chunks between them still abort: the count is never reset |
| Uploader.UploadVideo | core/uploader.py:52-129 | the latest packaged task is published; a missing path or description raises, a missing file ends quietly, and only a response with an id marks it uploaded with the id and time, every other field kept |
| Uploader.AbortLeavesTaskPackaged | core/uploader.py:110-112 | an aborted upload commits nothing |
| Pipeline.TargetSlotAgrees | main.py:172-182 | the entry point's slot is the given one, or the same hour thresholds as the scraper's |
| Pipeline.ManualLoop | main.py:33-61 | at most ten attempts; the first attempt answered `y` is accepted with that attempt's refinement, and the loop runs out exactly when none is |
| Pipeline.ManualIntake | main.py:22-67 | an accepted idea is saved once as a pending manual task with the refined content, slot, niche `general` and URL `Manual Input`; otherwise nothing is saved |
| Pipeline.SecondManualRejected | main.py:44-55 | after one manual task, any other manual topic within 7 days is rejected as a duplicate URL |
| Pipeline.Assemble | core/assembler.py:21-151 | the first task ready to assemble alone becomes ready to upload with the rendered path and every other field kept, unless rendering raises |
| Pipeline.StageIsLegal | main.py:75-103 | every stage but packaging changes nothing or moves one task along one edge of the status chain |
| Pipeline.LatestUploaded | main.py:110-112 | none exactly when no task is uploaded; otherwise an uploaded task |
| Pipeline.LatestUploadedIsLatest | main.py:110-112 | the chosen upload has the latest `uploaded_at` of all uploads |
| Pipeline.WriteLog | main.py:114-134 | with an upload, the old entries are kept and one entry for it is appended; a JSON value that is not a list raises |
| Pipeline.UnreadableLogRestarts | main.py:123-132 | an unreadable log file is replaced by a list holding only the new entry, as when there was no file |
| Pipeline.RunLog | main.py:105-138 | the log step raises exactly when there is an upload and the log file holds a non-list; otherwise it logs exactly when an upload is recorded |
| Pipeline.RunIntake | main.py:22-73 | the run halts at intake exactly when the manual loop runs out; otherwise the store is the one manual intake leaves, or for scraping either the old store or the old store with one gathered non-duplicate candidate filed as pending |
| Pipeline.ChainSnoc | main.py:75-103 | running one more stage after a chain runs it on the chain's store, unless the chain raised |
| Pipeline.ChainStops | main.py:75-103 | once a stage raises, the later stages do not run and the run ends with that exception |
| Pipeline.RunStages | main.py:75-103 | the six stages run in their fixed order, each on the store the previous one left; the first that raises ends the run with its exception, and otherwise the store is the whole chain's |
| Pipeline.StageTrace | main.py:18-103 | intake followed by the stages that ran is a prefix of the fixed order |
| Pipeline.RunFromIntake | main.py:75-138 | from the intake store the stages run as one chain; a crash ends the trace with its stage and leaves the store the earlier stages made; a full run logs the latest upload after the earlier entries |
| Pipeline.RunPipeline | main.py:18-151 | a run halts only when manual intake runs out, with nothing changed; otherwise intake's store is the one intake produces, and the rest of the run is that of `RunFromIntake` from it |

## Left out

- Printing, sleeping, file and directory creation, and the metadata files'
  contents are left out. Only whether the metadata write succeeded is a
  parameter of `Brain.GenerateScript`.
- The final cleanup of `metadata_*.txt` files in `main.py` is left out. It
  only deletes files, and it swallows every error.
- Speech synthesis and the MP3 probe, the image searches, OpenCV, the SSIM
  score, the Groq calls, YouTube authentication and the clocks are
  parameters. They are deterministic within one run.
- Floating point: durations, frame rates and scores are exact reals, with
  no rounding.
- Python's `\w`, `\s`, `\d`, `lower` and `upper` are modelled on ASCII
  only. There is no Unicode case folding or normalisation.
- JSON `null` and a missing key are the same `None`. For example, a reply
  with `"title": null` would store a null title in the source, while the
  model keeps the old one.
- Every task has a title and a niche, since `add_task` always writes
  both. The `""`, `"general"` and `"tech"` defaults for a missing key are
  therefore never needed.
- Values of an unexpected JSON type are left out: a non-integer
  `image_count`, a non-string `tags`, scenes that are not objects.
- `difflib.SequenceMatcher.ratio` is an abstract function `sim`.
- The packaging stage is an opaque `Store -> Result<Store>` parameter.
  Its module is not part of this model.
- Assembly is reduced to its status change. The compositing, captions and
  encoding are one parameter, `render`.
- `os.rename` in the verifier is returned as a requested rename. Its own
  failure is not modelled.
- Uploader.UploadVideo: a stream of service replies that never contains a
  final response is reported as `Stalled`. The source would loop forever
  waiting for one.
- `check_keys.py` and `test_pollination.py` are one-off diagnostics. They
  are not part of this model.
- `scheduler.py`, `api.py` and `dashboard.py` are not part of this model.
  They start runs and show the store, but decide nothing the model covers.
- Concurrent runs against one database are not modelled. Each run sees
  the store as the previous stage left it.
- Pipeline.RunIntake: for scraping, it states only that the store is
  unchanged or holds one fresh gathered candidate as a new pending task.
  Which candidate, and after how many attempts, is stated by
  `Scraper.ScrapeTargetedNiche` and not repeated in the run's contract.
  `Pipeline.RunPipeline` inherits this through `IntakeResult`.
- DbManager.KeepAllowed: its own contract states only the alphabet of the
  result. The character-by-character behaviour is stated by
  `DbManager.KeepAllowedSplit`.
- DbManager.Collapse: its own contract states only that no separator is
  left. How each run and each other character is treated is stated by
  `DbManager.CollapseRunStep` and `DbManager.CollapseKeepStep`.
- Scraper.RemoveAll: its own contract states only that nothing is added.
  What leaves the pool is stated by `Scraper.RemoveAllCounts`.