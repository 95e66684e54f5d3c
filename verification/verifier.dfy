/** Quality control (core/verifier.py): the completed -> ready_to_upload /
    failed_qc transition. Image statistics are reduced to what the decision
    reads: a frame's mean intensity and its structural similarity to the
    reference error card. Opening the video is a parameter `Clip`. */
module Verifier {
  import opened Common
  import opened Tasks

  /** A sampled frame: `np.mean(frame)` and the SSIM score against the
      reference card (only consulted when the card is readable). */
  datatype Frame = Frame(mean: real, similarity: real)

  /** The opened video: frames per second, frame count, and `read(i)`, the
      frame at position `i` or `None` when `cap.read()` fails. */
  datatype Clip = Clip(fps: real, frameCount: int, read: int -> Option<Frame>)

  const BlackMean: real := 5.0
  const SimilarityLimit: real := 0.80
  const BlackScreen := "Black Screen"
  const PlaceholderDetected := "Error Placeholder Detected"

  /** `is_frame_bad`: a near-black frame is bad; otherwise, when the reference
      card can be read, a frame more than 80% similar to it is bad. */
  function IsFrameBad(f: Frame, refReadable: bool): (r: (bool, string))
    ensures r.0 <==> f.mean < BlackMean || (refReadable && f.similarity > SimilarityLimit)
    ensures r.0 ==> r.1 == (if f.mean < BlackMean then BlackScreen else PlaceholderDetected)
    ensures !r.0 ==> r.1 == ""
  {
    if f.mean < BlackMean then (true, BlackScreen)
    else if !refReadable then (false, "")
    else if f.similarity > SimilarityLimit then (true, PlaceholderDetected)
    else (false, "")
  }

  /** `int(x)`: truncation toward zero. */
  function Trunc(x: real): (n: int)
    ensures x >= 0.0 ==> n as real <= x < (n + 1) as real
    ensures x < 0.0 ==> (n - 1) as real < x <= n as real
  {
    if x >= 0.0 then x.Floor else -((-x).Floor)
  }

  /** `start` is still inside `range(..., stop, step)`. */
  predicate InRange(start: int, stop: int, step: int) {
    (step > 0 && start < stop) || (step < 0 && start > stop)
  }

  /** The positions `range(start, stop, step)` yields. */
  function Samples(start: int, stop: int, step: int): (r: seq<int>)
    requires step != 0
    ensures forall m :: 0 <= m < |r| ==> InRange(r[m], stop, step)
    decreases if step > 0 then stop - start else start - stop
  {
    if InRange(start, stop, step) then [start] + Samples(start + step, stop, step) else []
  }

  lemma MulStep(m: int, step: int)
    ensures (m - 1) * step + step == m * step
  {
  }

  /** `Samples` is Python's `range`: the `m`-th position is `start + m * step`,
      and the next one would be out of range. */
  lemma {:induction false} SamplesAreRange(start: int, stop: int, step: int)
    requires step != 0
    ensures var r := Samples(start, stop, step);
      && (forall m :: 0 <= m < |r| ==> r[m] == start + m * step)
      && !InRange(start + |r| * step, stop, step)
    decreases if step > 0 then stop - start else start - stop
  {
    var r := Samples(start, stop, step);
    if InRange(start, stop, step) {
      var rest := Samples(start + step, stop, step);
      SamplesAreRange(start + step, stop, step);
      assert r == [start] + rest;
      forall m | 0 < m < |r|
        ensures r[m] == start + m * step
      {
        assert r[m] == rest[m - 1] == start + step + (m - 1) * step;
        MulStep(m, step);
      }
      MulStep(|r|, step);
    }
  }

  /** How a scan ends. */
  datatype ScanOutcome = Clean | Bad(reason: string, at: int)

  /** The scan as a recursion over the sampled positions: it stops clean at
      the first unreadable frame and bad at the first bad one. */
  function ScanFrom(ps: seq<int>, read: int -> Option<Frame>, refReadable: bool): (r: ScanOutcome)
    ensures r.Bad? ==> r.at in ps && read(r.at).Some? && IsFrameBad(read(r.at).value, refReadable) == (true, r.reason)
    ensures r.Bad? ==> exists i :: 0 <= i < |ps| && ps[i] == r.at && FirstBadAt(ps, read, refReadable, i)
  {
    if ps == [] then Clean
    else match read(ps[0])
      case None => Clean
      case Some(f) =>
        var (bad, reason) := IsFrameBad(f, refReadable);
        if bad then
          assert FirstBadAt(ps, read, refReadable, 0);
          Bad(reason, ps[0])
        else
          var r := ScanFrom(ps[1..], read, refReadable);
          FirstBadShifts(ps, read, refReadable, r);
          r
  }

  /** The frame at position `i` of `ps` is bad, and every frame before it was
      read and is good. */
  predicate FirstBadAt(ps: seq<int>, read: int -> Option<Frame>, refReadable: bool, i: int)
    requires 0 <= i < |ps|
  {
    && read(ps[i]).Some? && IsFrameBad(read(ps[i]).value, refReadable).0
    && forall j :: 0 <= j < i ==> read(ps[j]).Some? && !IsFrameBad(read(ps[j]).value, refReadable).0
  }

  /** A first bad frame of the tail, behind a good head, is the first bad
      frame of the whole sequence. */
  lemma FirstBadShifts(ps: seq<int>, read: int -> Option<Frame>, refReadable: bool, r: ScanOutcome)
    requires ps != [] && read(ps[0]).Some? && !IsFrameBad(read(ps[0]).value, refReadable).0
    requires r.Bad? ==> exists i :: 0 <= i < |ps[1..]| && ps[1..][i] == r.at && FirstBadAt(ps[1..], read, refReadable, i)
    ensures r.Bad? ==> exists i :: 0 <= i < |ps| && ps[i] == r.at && FirstBadAt(ps, read, refReadable, i)
  {
    if r.Bad? {
      var i :| 0 <= i < |ps[1..]| && ps[1..][i] == r.at && FirstBadAt(ps[1..], read, refReadable, i);
      assert FirstBadAt(ps, read, refReadable, i + 1) by {
        forall j | 0 <= j < i + 1
          ensures read(ps[j]).Some? && !IsFrameBad(read(ps[j]).value, refReadable).0
        {
          if j > 0 { assert ps[j] == ps[1..][j - 1]; }
        }
      }
    }
  }

  /** The frames before position `m` of `ps` were all read successfully. */
  predicate ReadBefore(ps: seq<int>, read: int -> Option<Frame>, m: int)
    requires 0 <= m <= |ps|
  {
    forall l :: 0 <= l < m ==> read(ps[l]).Some?
  }

  /** A scan is clean exactly when every frame it gets to look at (each one
      reached without an earlier failed read) is good. */
  lemma {:induction false} CleanIffAllGood(ps: seq<int>, read: int -> Option<Frame>, refReadable: bool)
    ensures ScanFrom(ps, read, refReadable) == Clean <==>
      forall m :: 0 <= m < |ps| && ReadBefore(ps, read, m) && read(ps[m]).Some? ==>
        !IsFrameBad(read(ps[m]).value, refReadable).0
  {
    if ps != [] {
      CleanIffAllGood(ps[1..], read, refReadable);
      var f := read(ps[0]);
      if f.Some? && !IsFrameBad(f.value, refReadable).0 {
        forall m | 0 < m <= |ps|
          ensures ReadBefore(ps, read, m) <==> ReadBefore(ps[1..], read, m - 1)
        {
          assert forall l :: 0 < l < m ==> ps[l] == ps[1..][l - 1];
        }
        forall m | 0 < m < |ps|
          ensures read(ps[m]) == read(ps[1..][m - 1])
        {
        }
      } else if f.Some? {
        assert ReadBefore(ps, read, 0);
      } else {
        forall m | 0 < m < |ps|
          ensures !ReadBefore(ps, read, m)
        {
          assert !read(ps[0]).Some?;
        }
      }
    }
  }

  /** One turn of the frame loop: at an in-range position the scan reads
      that frame and either stops or goes on with the next position. */
  lemma ScanAdvance(i: int, stop: int, step: int, read: int -> Option<Frame>, refReadable: bool)
    requires step != 0 && InRange(i, stop, step)
    ensures read(i).None? ==> ScanFrom(Samples(i, stop, step), read, refReadable) == Clean
    ensures read(i).Some? && IsFrameBad(read(i).value, refReadable).0 ==>
      ScanFrom(Samples(i, stop, step), read, refReadable) == Bad(IsFrameBad(read(i).value, refReadable).1, i)
    ensures read(i).Some? && !IsFrameBad(read(i).value, refReadable).0 ==>
      ScanFrom(Samples(i, stop, step), read, refReadable) == ScanFrom(Samples(i + step, stop, step), read, refReadable)
  {
    var ps := Samples(i, stop, step);
    assert ps[0] == i && ps[1..] == Samples(i + step, stop, step);
  }

  /** The frame loop of `verify`, one frame per `step` positions. */
  method Scan(clip: Clip, step: int, refReadable: bool) returns (r: ScanOutcome)
    requires step != 0
    ensures r == ScanFrom(Samples(0, clip.frameCount, step), clip.read, refReadable)
  {
    var i := 0;
    while InRange(i, clip.frameCount, step)
      invariant ScanFrom(Samples(0, clip.frameCount, step), clip.read, refReadable)
             == ScanFrom(Samples(i, clip.frameCount, step), clip.read, refReadable)
      decreases if step > 0 then clip.frameCount - i else i - clip.frameCount
    {
      ScanAdvance(i, clip.frameCount, step, clip.read, refReadable);
      var frame := clip.read(i);
      if frame.None? {
        return Clean;
      }
      var verdict := IsFrameBad(frame.value, refReadable);
      if verdict.0 {
        return Bad(verdict.1, i);
      }
      i := i + step;
    }
    assert Samples(i, clip.frameCount, step) == [];
    return Clean;
  }

  /** What a run of `verify` did: the store, and the file rename it asked
      for when the video failed. */
  datatype QcRun = QcRun(store: Store, renamed: Option<(string, string)>)

  /** `video_path.replace(".mp4", "_FAILED.mp4")`. */
  function FailedName(path: string): string {
    ReplaceAll(path, ".mp4", "_FAILED.mp4")
  }

  /** A path whose only `.mp4` is its extension gets `_FAILED` before it. */
  lemma FailedNameMarksExtension(base: string)
    requires forall i: nat :: i < |base| ==> !OccursAt(base + ".mp4", ".mp4", i)
    ensures FailedName(base + ".mp4") == base + "_FAILED.mp4"
  {
    ReplaceSuffix(base, ".mp4", "_FAILED.mp4");
  }

  /** `verify`. `present(path)` is `os.path.exists`, `clip` the opened video,
      `refReadable` whether the reference card loads. With no completed task,
      or no video file, nothing happens; a zero step crashes `range`; a clean
      scan makes the task `ready_to_upload`, a bad one `failed_qc` with the
      reason and a rename of the file (the stored path is left as it was). */
  function Verify(store: Store, present: string -> bool, clip: Clip, refReadable: bool): (r: Result<QcRun>)
    ensures FindFirst(store, Completed).None? ==> r == Ok(QcRun(store, None))
    ensures FindFirst(store, Completed).Some? ==>
      var k := FindFirst(store, Completed).value;
      var path := store[k].finalVideoPath;
      if !Truthy(path) || !present(path.value) then r == Ok(QcRun(store, None))
      else
        var step := Trunc(clip.fps);
        && (r.Err? <==> step == 0)
        && (r.Ok? ==>
          var outcome := ScanFrom(Samples(0, clip.frameCount, step), clip.read, refReadable);
          && (outcome.Clean? <==> Advances(store, r.value.store, k, Completed, ReadyToUpload))
          && (outcome.Bad? <==> Advances(store, r.value.store, k, Completed, FailedQc))
          && (outcome.Bad? ==> r.value.store[k].qcReason == Some(outcome.reason)
                               && r.value.renamed == Some((path.value, FailedName(path.value))))
          && r.value.store[k].finalVideoPath == path
          && (outcome.Clean? ==> r.value.store[k] == store[k].(status := ReadyToUpload))
          && (outcome.Bad? ==> r.value.store[k] == store[k].(status := FailedQc, qcReason := Some(outcome.reason)))
          && (outcome.Clean? <==> r.value.renamed.None?))
  {
    match FindFirst(store, Completed)
    case None => Ok(QcRun(store, None))
    case Some(k) =>
      var t := store[k];
      if !Truthy(t.finalVideoPath) || !present(t.finalVideoPath.value) then Ok(QcRun(store, None))
      else
        var path := t.finalVideoPath.value;
        var step := Trunc(clip.fps);
        if step == 0 then Err("ValueError: range() arg 3 must not be zero")
        else match ScanFrom(Samples(0, clip.frameCount, step), clip.read, refReadable)
          case Clean => Ok(QcRun(Put(store, k, t.(status := ReadyToUpload)), None))
          case Bad(reason, _) =>
            Ok(QcRun(Put(store, k, t.(status := FailedQc, qcReason := Some(reason))), Some((path, FailedName(path)))))
  }

  /** A check that does not raise leaves the store as it was or moves the
      completed task along one `Edge`. */
  lemma QcIsLegal(store: Store, present: string -> bool, clip: Clip, refReadable: bool)
    requires Verify(store, present, clip, refReadable).Ok?
    ensures LegalStep(store, Verify(store, present, clip, refReadable).value.store)
  {
    var r := Verify(store, present, clip, refReadable).value.store;
    if r != store {
      var k := FindFirst(store, Completed).value;
      var outcome := ScanFrom(Samples(0, clip.frameCount, Trunc(clip.fps)), clip.read, refReadable);
      if outcome.Clean? {
        EdgeIsLegal(store, r, k, Completed, ReadyToUpload);
      } else {
        EdgeIsLegal(store, r, k, Completed, FailedQc);
      }
    }
  }

  /** A video below one frame per second cannot be checked: `int(fps)` is 0. */
  lemma SlowVideoCrashes(store: Store, present: string -> bool, clip: Clip, refReadable: bool)
    requires 0.0 <= clip.fps < 1.0
    requires FindFirst(store, Completed).Some?
    requires var t := store[FindFirst(store, Completed).value];
      Truthy(t.finalVideoPath) && present(t.finalVideoPath.value)
    ensures Verify(store, present, clip, refReadable).Err?
  {
  }
}
