/** Image gathering (core/visuals.py): the voiced -> ready_to_assemble
    transition. The web image search and the stock-photo search are
    parameters `web(query, path)` and `stock(query, path)`, each saying
    whether it stored a valid image at `path`. */
module Visuals {
  import opened Common
  import opened Tasks

  /** Where an image file came from. */
  datatype ImageSource =
    | FromWeb(query: string)
    | FromStock(query: string)
    | Placeholder

  /** `os.path.join(folder, f"scene_{i}_img_{j}.jpg")`. */
  function ImagePath(folder: string, i: nat, j: nat): string {
    PathJoin(folder, Numbered("scene_", i, Numbered("_img_", j, ".jpg")))
  }

  /** The paths of the first `n` images of scene `i`, in order. */
  function ImagePaths(folder: string, i: nat, n: nat): (r: seq<string>)
    ensures |r| == n && forall j :: 0 <= j < n ==> r[j] == ImagePath(folder, i, j)
  {
    seq(n, j requires 0 <= j < n => ImagePath(folder, i, j))
  }

  /** Two images of a task never share a file. */
  lemma ImagePathsDistinct(folder: string, i1: nat, j1: nat, i2: nat, j2: nat)
    requires (i1, j1) != (i2, j2)
    ensures ImagePath(folder, i1, j1) != ImagePath(folder, i2, j2)
  {
    if ImagePath(folder, i1, j1) == ImagePath(folder, i2, j2) {
      var r1, r2 := Numbered("_img_", j1, ".jpg"), Numbered("_img_", j2, ".jpg");
      var a, b := Numbered("scene_", i1, r1), Numbered("scene_", i2, r2);
      assert a[0] == 's' && b[0] == 's';
      PathJoinInjective(folder, a, b);
      assert r1[0] == '_' && r2[0] == '_';
      NumberedSplit("scene_", i1, r1, i2, r2);
      NumberedInjective("_img_", j1, j2, ".jpg");
    }
  }

  /** The fallback loop: the first keyword other than `kw`, in list order,
      whose stock search succeeds. */
  function FirstStock(keywords: seq<string>, kw: string, path: string, stock: (string, string) -> bool): (r: Option<nat>)
    ensures r.None? <==> forall m :: 0 <= m < |keywords| && keywords[m] != kw ==> !stock(keywords[m], path)
    ensures r.Some? ==> r.value < |keywords| && keywords[r.value] != kw && stock(keywords[r.value], path)
    ensures r.Some? ==> forall m :: 0 <= m < r.value && keywords[m] != kw ==> !stock(keywords[m], path)
  {
    if keywords == [] then None
    else if keywords[0] != kw && stock(keywords[0], path) then Some(0)
    else match FirstStock(keywords[1..], kw, path, stock)
      case None => None
      case Some(m) => Some(m + 1)
  }

  /** One image: the web search for the hero image (`hero`), then the stock
      search on `kw`, then the stock search on each other keyword, then a
      dark placeholder. */
  function FetchImage(hero: bool, kw: string, keywords: seq<string>, path: string,
                      web: (string, string) -> bool, stock: (string, string) -> bool): (r: ImageSource)
    ensures r.FromWeb? <==> hero && web(kw, path)
    ensures r.FromWeb? ==> r.query == kw
    ensures r.FromStock? ==> stock(r.query, path) && (r.query == kw || r.query in keywords)
    ensures r == Placeholder <==>
      && !(hero && web(kw, path))
      && !stock(kw, path)
      && forall m :: 0 <= m < |keywords| && keywords[m] != kw ==> !stock(keywords[m], path)
  {
    if hero && web(kw, path) then FromWeb(kw)
    else if stock(kw, path) then FromStock(kw)
    else match FirstStock(keywords, kw, path, stock)
      case Some(m) => FromStock(keywords[m])
      case None => Placeholder
  }

  /** `scene.get("keywords", ["nature"])`. */
  function KeywordsOf(scene: Scene): seq<string> {
    scene.keywords.GetOr(["nature"])
  }

  /** `scene.get("image_count", 1)`. */
  function CountOf(scene: Scene): int {
    scene.imageCount.GetOr(1)
  }

  /** `j % len(keywords)` raises when a scene asks for images but has an
      empty keyword list. */
  predicate Crashes(scene: Scene) {
    CountOf(scene) > 0 && KeywordsOf(scene) == []
  }

  /** The images of scene `i`: its updated record and where each image came
      from. Image `j` searches keyword `j mod len(keywords)`. */
  function SceneImages(scene: Scene, i: nat, folder: string,
                       web: (string, string) -> bool, stock: (string, string) -> bool): (r: Result<(Scene, seq<ImageSource>)>)
    ensures r.Err? <==> Crashes(scene)
    ensures r.Ok? ==>
      var (s, sources) := r.value;
      && s == scene.(imagePaths := s.imagePaths)
      && s.imagePaths.Some?
      && |s.imagePaths.value| == Max(0, CountOf(scene)) == |sources|
      && forall j :: 0 <= j < |sources| ==>
           && s.imagePaths.value[j] == ImagePath(folder, i, j)
           && sources[j] == FetchImage(i == 0 && j == 0, KeywordsOf(scene)[j % |KeywordsOf(scene)|],
                                       KeywordsOf(scene), ImagePath(folder, i, j), web, stock)
           && (sources[j].FromWeb? ==> i == 0 && j == 0)
           && (sources[j] == Placeholder ==> !stock(KeywordsOf(scene)[j % |KeywordsOf(scene)|], ImagePath(folder, i, j)))
  {
    var keywords := KeywordsOf(scene);
    var count := CountOf(scene);
    if Crashes(scene) then Err("ZeroDivisionError: integer modulo by zero")
    else
      var n := Max(0, count);
      var paths := ImagePaths(folder, i, n);
      var sources := seq(n, j requires 0 <= j < n =>
        FetchImage(i == 0 && j == 0, keywords[j % |keywords|], keywords, paths[j], web, stock));
      Ok((scene.(imagePaths := Some(paths)), sources))
  }

  /** The scene loop from scene `from` on; the first crashing scene ends it. */
  function SceneLoop(scenes: seq<Scene>, from: nat, folder: string,
                     web: (string, string) -> bool, stock: (string, string) -> bool): (r: Result<(seq<Scene>, seq<seq<ImageSource>>)>)
    requires from <= |scenes|
    ensures r.Err? <==> exists i :: from <= i < |scenes| && Crashes(scenes[i])
    ensures r.Ok? ==>
      && |r.value.0| == |r.value.1| == |scenes| - from
      && forall m :: 0 <= m < |r.value.0| ==>
           SceneImages(scenes[from + m], from + m, folder, web, stock) == Ok((r.value.0[m], r.value.1[m]))
    decreases |scenes| - from
  {
    if from == |scenes| then Ok(([], []))
    else match SceneImages(scenes[from], from, folder, web, stock)
      case Err(e) => Err(e)
      case Ok((s, sources)) =>
        match SceneLoop(scenes, from + 1, folder, web, stock)
        case Err(e) => Err(e)
        case Ok((rest, restSources)) =>
          assert forall m :: 0 < m < |rest| + 1 ==> ([s] + rest)[m] == rest[m - 1];
          assert forall m :: 0 < m < |rest| + 1 ==> ([sources] + restSources)[m] == restSources[m - 1];
          Ok(([s] + rest, [sources] + restSources))
  }

  /** A run's outcome: the store and, per scene, where each image came from. */
  datatype VisualsRun = VisualsRun(store: Store, sources: seq<seq<ImageSource>>)

  /** `download_visuals`. With no voiced task nothing happens; a scene that
      crashes ends the stage before the store is written; otherwise the first
      voiced task becomes `ready_to_assemble` and each scene records one path
      per requested image, whatever the searches returned. */
  function DownloadVisuals(store: Store, web: (string, string) -> bool, stock: (string, string) -> bool): (r: Result<VisualsRun>)
    ensures FindFirst(store, Voiced).None? ==> r == Ok(VisualsRun(store, []))
    ensures FindFirst(store, Voiced).Some? ==>
      var k := FindFirst(store, Voiced).value;
      var scenes := store[k].scriptData.GetOr([]);
      && (r.Err? <==> exists i :: 0 <= i < |scenes| && Crashes(scenes[i]))
      && (r.Ok? ==>
        && Advances(store, r.value.store, k, Voiced, ReadyToAssemble)
        && r.value.store[k] == store[k].(scriptData := r.value.store[k].scriptData, status := ReadyToAssemble)
        && r.value.store[k].scriptData.Some?
        && |r.value.store[k].scriptData.value| == |scenes| == |r.value.sources|
        && forall i :: 0 <= i < |scenes| ==>
             var s := r.value.store[k].scriptData.value[i];
             && s == scenes[i].(imagePaths := s.imagePaths)
             && s.imagePaths == Some(ImagePaths(store[k].folderPath, i, Max(0, CountOf(scenes[i])))))
  {
    match FindFirst(store, Voiced)
    case None => Ok(VisualsRun(store, []))
    case Some(k) =>
      var t := store[k];
      var scenes := t.scriptData.GetOr([]);
      match SceneLoop(scenes, 0, t.folderPath, web, stock)
      case Err(e) => Err(e)
      case Ok((out, sources)) =>
        Ok(VisualsRun(Put(store, k, t.(scriptData := Some(out), status := ReadyToAssemble)), sources))
  }

  /** What the stage writes to the store does not depend on which searches
      succeed: a placeholder path is recorded like any other. */
  lemma StoreIgnoresSearches(store: Store, web1: (string, string) -> bool, stock1: (string, string) -> bool,
                             web2: (string, string) -> bool, stock2: (string, string) -> bool)
    ensures DownloadVisuals(store, web1, stock1).Ok? == DownloadVisuals(store, web2, stock2).Ok?
    ensures DownloadVisuals(store, web1, stock1).Ok? ==>
      DownloadVisuals(store, web1, stock1).value.store == DownloadVisuals(store, web2, stock2).value.store
  {
    if FindFirst(store, Voiced).Some? {
      var k := FindFirst(store, Voiced).value;
      var r1, r2 := DownloadVisuals(store, web1, stock1), DownloadVisuals(store, web2, stock2);
      if r1.Ok? {
        var a, b := r1.value.store, r2.value.store;
        assert a[k].scriptData.value == b[k].scriptData.value;
        assert a[k] == b[k];
      }
    }
  }
}
