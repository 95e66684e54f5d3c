/** Narration (core/voice.py): the scripted -> voiced transition. Speech
    synthesis and the MP3 duration probe are one parameter, `synth`, which
    yields the clip's duration in seconds or `None` when either step raised. */
module Voice {
  import opened Common
  import opened Tasks

  /** Longest time one image stays on screen, in seconds. */
  const SecondsPerImage: real := 4.0

  /** `math.ceil` on a real. */
  function Ceil(x: real): (n: int)
    ensures (n - 1) as real < x <= n as real
  {
    if x.Floor as real == x then x.Floor else x.Floor + 1
  }

  /** `max(1, int(math.ceil(duration / 4.0)))`: the fewest images that keep
      each one on screen for at most four seconds, and at least one. */
  function ImageCount(duration: real): (n: int)
    ensures n >= 1
    ensures duration <= SecondsPerImage * n as real
    ensures n == 1 || SecondsPerImage * (n - 1) as real < duration
  {
    Max(1, Ceil(duration / SecondsPerImage))
  }

  /** `os.path.join(folder, f"voice_{i}.mp3")`. */
  function VoicePath(folder: string, i: nat): string {
    PathJoin(folder, Numbered("voice_", i, ".mp3"))
  }

  /** Two scenes never share an audio file. */
  lemma VoicePathsDistinct(folder: string, i: nat, j: nat)
    requires i != j
    ensures VoicePath(folder, i) != VoicePath(folder, j)
  {
    if VoicePath(folder, i) == VoicePath(folder, j) {
      var a, b := Numbered("voice_", i, ".mp3"), Numbered("voice_", j, ".mp3");
      assert a[0] == 'v' && b[0] == 'v';
      PathJoinInjective(folder, a, b);
      NumberedInjective("voice_", i, j, ".mp3");
    }
  }

  /** Every scene carries a `text` key; `scene["text"]` sits outside the
      `try`, so a scene without one ends the whole stage. */
  predicate HasText(scenes: seq<Scene>) {
    forall i :: 0 <= i < |scenes| ==> scenes[i].text.Some?
  }

  /** One scene of the loop: on success the audio path, the duration and the
      image count are written into it; `None` is the caught exception. */
  function VoiceScene(scene: Scene, i: nat, folder: string, synth: (string, string) -> Option<real>): (r: Option<Scene>)
    requires scene.text.Some?
    ensures r.Some? <==> synth(VoicePath(folder, i), scene.text.value).Some?
    ensures r.Some? ==> var d := synth(VoicePath(folder, i), scene.text.value).value;
      && r.value.text == scene.text && r.value.keywords == scene.keywords
      && r.value.audioPath == Some(VoicePath(folder, i))
      && r.value.duration == Some(d)
      && r.value.imageCount == Some(ImageCount(d))
  {
    var path := VoicePath(folder, i);
    match synth(path, scene.text.value)
    case None => None
    case Some(d) => Some(scene.(audioPath := Some(path), duration := Some(d), imageCount := Some(ImageCount(d))))
  }

  /** The indices, from `from` on, of the scenes whose narration succeeded,
      in increasing order. */
  function Kept(scenes: seq<Scene>, folder: string, synth: (string, string) -> Option<real>, from: nat): (ks: seq<nat>)
    requires from <= |scenes| && HasText(scenes)
    ensures forall m :: 0 <= m < |ks| ==> from <= ks[m] < |scenes|
    ensures forall m, n :: 0 <= m < n < |ks| ==> ks[m] < ks[n]
    ensures forall i :: from <= i < |scenes| ==> (i in ks <==> VoiceScene(scenes[i], i, folder, synth).Some?)
    decreases |scenes| - from
  {
    if from == |scenes| then []
    else
      var rest := Kept(scenes, folder, synth, from + 1);
      if VoiceScene(scenes[from], from, folder, synth).Some? then [from] + rest else rest
  }

  /** The loop of `generate_audio`: the voiced scenes, in order; a scene whose
      synthesis failed is left out. */
  function VoiceAll(scenes: seq<Scene>, folder: string, synth: (string, string) -> Option<real>, from: nat): (r: seq<Scene>)
    requires from <= |scenes| && HasText(scenes)
    decreases |scenes| - from
  {
    if from == |scenes| then []
    else
      var rest := VoiceAll(scenes, folder, synth, from + 1);
      match VoiceScene(scenes[from], from, folder, synth)
      case None => rest
      case Some(s) => [s] + rest
  }

  /** `out` lists, in order, the voiced form of the scenes at indices `ks`. */
  predicate VoicedAt(scenes: seq<Scene>, folder: string, synth: (string, string) -> Option<real>,
                     out: seq<Scene>, ks: seq<nat>)
    requires HasText(scenes)
  {
    && |out| == |ks|
    && forall m :: 0 <= m < |out| ==>
         ks[m] < |scenes| && VoiceScene(scenes[ks[m]], ks[m], folder, synth) == Some(out[m])
  }

  lemma VoicedAtCons(scenes: seq<Scene>, folder: string, synth: (string, string) -> Option<real>,
                     out: seq<Scene>, ks: seq<nat>, s: Scene, i: nat)
    requires HasText(scenes) && VoicedAt(scenes, folder, synth, out, ks)
    requires i < |scenes| && VoiceScene(scenes[i], i, folder, synth) == Some(s)
    ensures VoicedAt(scenes, folder, synth, [s] + out, [i] + ks)
  {
    forall m | 0 < m < |out| + 1
      ensures ([i] + ks)[m] < |scenes|
      ensures VoiceScene(scenes[([i] + ks)[m]], ([i] + ks)[m], folder, synth) == Some(([s] + out)[m])
    {
      assert ([i] + ks)[m] == ks[m - 1] && ([s] + out)[m] == out[m - 1];
    }
  }

  /** The loop keeps exactly the successfully narrated scenes, each voiced
      under its original index. */
  lemma {:induction false} VoiceAllIsKept(scenes: seq<Scene>, folder: string, synth: (string, string) -> Option<real>, from: nat)
    requires from <= |scenes| && HasText(scenes)
    ensures VoicedAt(scenes, folder, synth, VoiceAll(scenes, folder, synth, from), Kept(scenes, folder, synth, from))
    decreases |scenes| - from
  {
    if from < |scenes| {
      VoiceAllIsKept(scenes, folder, synth, from + 1);
      var rest, krest := VoiceAll(scenes, folder, synth, from + 1), Kept(scenes, folder, synth, from + 1);
      var v := VoiceScene(scenes[from], from, folder, synth);
      if v.Some? {
        VoicedAtCons(scenes, folder, synth, rest, krest, v.value, from);
      }
    }
  }

  /** `generate_audio`. With no scripted task nothing happens; a scene without
      text crashes the stage before the store is written; otherwise the first
      scripted task becomes `voiced` holding its narrated scenes, even when
      every synthesis failed. */
  function GenerateAudio(store: Store, synth: (string, string) -> Option<real>): (r: Result<Store>)
    ensures FindFirst(store, Scripted).None? ==> r == Ok(store)
    ensures FindFirst(store, Scripted).Some? ==>
      var k := FindFirst(store, Scripted).value;
      var scenes := store[k].scriptData.GetOr([]);
      && (r.Err? <==> !HasText(scenes))
      && (r.Ok? ==>
        && Advances(store, r.value, k, Scripted, Voiced)
        && r.value[k] == store[k].(scriptData := r.value[k].scriptData, status := Voiced)
        && r.value[k].scriptData.Some?
        && var ks := Kept(scenes, store[k].folderPath, synth, 0);
           var out := r.value[k].scriptData.value;
        && VoicedAt(scenes, store[k].folderPath, synth, out, ks)
        && |out| == |ks|
        && forall m :: 0 <= m < |out| ==>
             && out[m].text == scenes[ks[m]].text
             && out[m].keywords == scenes[ks[m]].keywords
             && out[m].audioPath == Some(VoicePath(store[k].folderPath, ks[m]))
             && out[m].imageCount.Some? && out[m].imageCount.value >= 1)
  {
    match FindFirst(store, Scripted)
    case None => Ok(store)
    case Some(k) =>
      var t := store[k];
      var scenes := t.scriptData.GetOr([]);
      if !HasText(scenes) then Err("KeyError: 'text'")
      else
        VoiceAllIsKept(scenes, t.folderPath, synth, 0);
        Ok(Put(store, k, t.(scriptData := Some(VoiceAll(scenes, t.folderPath, synth, 0)), status := Voiced)))
  }

  /** When no synthesis succeeds, no index is kept. */
  lemma {:induction false} NoneKept(scenes: seq<Scene>, folder: string, synth: (string, string) -> Option<real>, from: nat)
    requires from <= |scenes| && HasText(scenes)
    requires forall p, x :: synth(p, x).None?
    ensures Kept(scenes, folder, synth, from) == []
    decreases |scenes| - from
  {
    if from < |scenes| {
      NoneKept(scenes, folder, synth, from + 1);
    }
  }

  /** A task whose every synthesis fails still moves on, with no scenes. */
  lemma AllFailStillVoiced(store: Store, synth: (string, string) -> Option<real>)
    requires FindFirst(store, Scripted).Some?
    requires forall p, x :: synth(p, x).None?
    ensures var k := FindFirst(store, Scripted).value;
      HasText(store[k].scriptData.GetOr([])) ==>
        GenerateAudio(store, synth).Ok? && GenerateAudio(store, synth).value[k].status == Voiced
        && GenerateAudio(store, synth).value[k].scriptData == Some([])
  {
    var k := FindFirst(store, Scripted).value;
    var scenes := store[k].scriptData.GetOr([]);
    if HasText(scenes) {
      var ks := Kept(scenes, store[k].folderPath, synth, 0);
      NoneKept(scenes, store[k].folderPath, synth, 0);
    }
  }
}
