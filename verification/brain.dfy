/** Scripting (core/brain.py): the `repair_json` trimmer and the
    pending -> scripted transition. The language model's reply and the JSON
    parser are parameters. */
module Brain {
  import opened Common
  import opened Tasks

  // ---------------------------------------------------------------------
  // repair_json
  // ---------------------------------------------------------------------

  /** Where `re.sub(r"^[^{]*", "", s)` cuts: the length of the longest
      prefix of `s` holding no `{`. */
  function OpenAt(s: string): (i: nat)
    ensures i <= |s| && '{' !in s[..i]
    ensures i < |s| ==> s[i] == '{'
  {
    if s == [] || s[0] == '{' then 0
    else
      var i := OpenAt(s[1..]);
      assert s[..i + 1] == [s[0]] + s[1..][..i];
      i + 1
  }

  /** Where `re.sub(r"[^}]*$", "", s)` cuts: the length of `s` without its
      longest suffix holding no `}`. (Python's `$` also matches before a
      final newline, but the greedy run starting right after the last `}`
      already reaches the end, so the effect is the same.) */
  function CloseEnd(s: string): (j: nat)
    ensures j <= |s| && '}' !in s[j..]
    ensures j > 0 ==> s[j - 1] == '}'
  {
    if s == [] || s[|s| - 1] == '}' then |s|
    else
      var j := CloseEnd(s[..|s| - 1]);
      assert s[j..] == s[..|s| - 1][j..] + [s[|s| - 1]];
      j
  }

  /** The two substitutions of `repair_json`, in order. */
  function Trim(s: string): (r: string)
    ensures r == [] || (r[0] == '{' && r[|r| - 1] == '}')
  {
    var t := s[OpenAt(s)..];
    t[..CloseEnd(t)]
  }

  /** `s` splits as noise without `{`, the kept text, and noise without `}`. */
  predicate Splits(s: string, p: string, r: string, q: string) {
    s == p + r + q && '{' !in p && '}' !in q
  }

  /** The trimmer only cuts noise: its result is the middle of such a split. */
  lemma TrimSplits(s: string)
    ensures exists p, q :: Splits(s, p, Trim(s), q)
  {
    var i := OpenAt(s);
    var t := s[i..];
    var j := CloseEnd(t);
    var p, r, q := s[..i], t[..j], t[j..];
    Rejoin(s, i, t, j);
    assert Splits(s, p, Trim(s), q);
  }

  /** Cutting `s` at `i` and its tail `t` at `j` gives three pieces that
      concatenate back to `s`. */
  lemma Rejoin(s: string, i: nat, t: string, j: nat)
    requires i <= |s| && t == s[i..] && j <= |t|
    ensures s == s[..i] + t[..j] + t[j..]
  {
    assert t == t[..j] + t[j..];
    assert s == s[..i] + t;
    assert s[..i] + t[..j] + t[j..] == s[..i] + (t[..j] + t[j..]);
  }

  lemma {:induction false} OpenAtPast(p: string, x: string)
    requires '{' !in p
    ensures OpenAt(p + x) == |p| + OpenAt(x)
  {
    if p != [] {
      assert (p + x)[0] == p[0];
      assert (p + x)[1..] == p[1..] + x;
      OpenAtPast(p[1..], x);
    } else {
      assert p + x == x;
    }
  }

  lemma {:induction false} CloseEndPast(x: string, q: string)
    requires '}' !in q
    ensures CloseEnd(x + q) == CloseEnd(x)
  {
    if q != [] {
      var n := |x + q|;
      assert (x + q)[n - 1] == q[|q| - 1];
      assert (x + q)[..n - 1] == x + q[..|q| - 1];
      CloseEndPast(x, q[..|q| - 1]);
    } else {
      assert x + q == x;
    }
  }

  /** Any split with a brace-delimited (or empty) middle is the one the
      trimmer finds: the longest `{`-free prefix and the longest `}`-free
      suffix are what it drops. */
  lemma TrimUnique(s: string, p: string, r: string, q: string)
    requires Splits(s, p, r, q)
    requires r == [] || (r[0] == '{' && r[|r| - 1] == '}')
    ensures Trim(s) == r
  {
    assert s == p + (r + q);
    OpenAtPast(p, r + q);
    assert s[OpenAt(s)..] == (r + q)[OpenAt(r + q)..];
    if r == [] {
      assert r + q == q;
      NoCloseLeftToTrail(q);
    } else {
      TrimBraced(r, q);
    }
  }

  /** A braced text followed by `}`-free noise: the noise goes. */
  lemma TrimBraced(r: string, q: string)
    requires |r| > 0 && r[0] == '{' && r[|r| - 1] == '}' && '}' !in q
    ensures (r + q)[OpenAt(r + q)..][..CloseEnd((r + q)[OpenAt(r + q)..])] == r
  {
    assert OpenAt(r + q) == 0;
    assert (r + q)[0..] == r + q;
    CloseEndPast(r, q);
    assert CloseEnd(r) == |r|;
    assert (r + q)[..|r|] == r;
  }

  /** With no `}` after the first `{`, nothing survives the trim. */
  lemma NoCloseLeftToTrail(q: string)
    requires '}' !in q
    ensures Trim(q) == []
  {
  }

  /** Trimming twice is trimming once. */
  lemma TrimIdempotent(s: string)
    ensures Trim(Trim(s)) == Trim(s)
  {
    var r := Trim(s);
    assert r == [] + r + [];
    TrimUnique(r, [], r, []);
  }

  /** Text that already starts with `{` and ends with `}` is left alone. */
  lemma TrimKeepsObject(s: string)
    requires |s| > 0 && s[0] == '{' && s[|s| - 1] == '}'
    ensures Trim(s) == s
  {
    assert s == [] + s + [];
    TrimUnique(s, [], s, []);
  }

  // ---------------------------------------------------------------------
  // generate_script
  // ---------------------------------------------------------------------

  /** The JSON object of the reply; `None` is an absent key. */
  datatype ScriptJson = ScriptJson(
    title: Option<string>,
    description: Option<string>,
    hashtags: Option<string>,
    tags: Option<string>,
    scenes: Option<seq<Scene>>)

  /** `repair_json`: `parse` stands for `json.loads`, `None` for the
      exception it raises; the function itself never raises. */
  function RepairJson(reply: string, parse: string -> Option<ScriptJson>): Option<ScriptJson> {
    parse(Trim(reply))
  }

  /** The reply is usable: it parsed and holds a `scenes` key (an empty
      object is falsy and holds no keys). */
  predicate Usable(data: Option<ScriptJson>) {
    data.Some? && data.value.scenes.Some?
  }

  /** The task record after a successful script: the listed fields written,
      the title kept when the reply has none, everything else as it was. */
  function WithScript(t: Task, data: ScriptJson): Task
    requires data.scenes.Some?
  {
    t.(scriptData := Some(data.scenes.value),
       title := data.title.GetOr(t.title),
       aiDescription := data.description,
       aiHashtags := data.hashtags,
       aiTags := data.tags,
       status := Scripted)
  }

  /** `generate_script`. `reply` is the model's text (`None` when the call
      raised); `metaWritten` says the metadata file was written. With no
      pending task, an unusable reply or a failed write the store is
      unchanged; otherwise the first pending task alone becomes `scripted`. */
  function GenerateScript(store: Store, reply: Option<string>, parse: string -> Option<ScriptJson>,
                          metaWritten: bool): (r: Store)
    ensures FindFirst(store, Pending).None? ==> r == store
    ensures reply.None? || !Usable(RepairJson(reply.value, parse)) || !metaWritten ==> r == store
    ensures FindFirst(store, Pending).Some? && reply.Some? && Usable(RepairJson(reply.value, parse)) && metaWritten ==>
      Advances(store, r, FindFirst(store, Pending).value, Pending, Scripted)
    ensures r != store ==>
      var k := FindFirst(store, Pending).value;
      var data := RepairJson(reply.value, parse).value;
      && Advances(store, r, k, Pending, Scripted)
      && r[k] == store[k].(scriptData := data.scenes,
                           title := if data.title.Some? then data.title.value else store[k].title,
                           aiDescription := data.description, aiHashtags := data.hashtags, aiTags := data.tags,
                           status := Scripted)
  {
    match FindFirst(store, Pending)
    case None => store
    case Some(k) =>
      if reply.None? then store
      else
        var data := RepairJson(reply.value, parse);
        if !Usable(data) || !metaWritten then store
        else Put(store, k, WithScript(store[k], data.value))
  }
}
