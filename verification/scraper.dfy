/** Topic selection (core/scraper.py): the hour-to-slot map, the daily niche
    rotation, the parsing of the model's picks, and the bounded batch loop
    that turns feed entries into at most one new pending task. The feeds,
    the language model's replies and `random` are parameters. */
module Scraper {
  import opened Common
  import opened Tasks
  import opened DbManager

  /** The keys of `MASTER_NICHES`, in declaration order. */
  const MasterNiches: seq<string> := [
    "entertainment", "gaming", "sports", "animals", "movies", "science",
    "worldnews", "finance", "health", "travel", "truecrime", "history"]

  /** The batch loop makes at most this many attempts. */
  const MaxTries: nat := 4
  /** The loop runs only while the pool holds at least a batch. */
  const BatchSize: nat := 3
  /** `fetch_rss` keeps the first ten entries of a feed. */
  const EntriesPerFeed: nat := 10
  const SummaryMax: nat := 3000
  /** Every niche of `MASTER_NICHES` lists four feed URLs. */
  const FeedsPerNiche: nat := 4

  // ---------------------------------------------------------------------
  // Time slot
  // ---------------------------------------------------------------------

  /** `get_time_slot` for the current hour `h`. */
  function TimeSlot(h: int): (r: string)
    ensures r == "morning" <==> 5 <= h <= 11
    ensures r == "noon" <==> 12 <= h <= 16
    ensures r == "evening" <==> 17 <= h <= 20
    ensures r == "night" <==> h < 5 || h > 20
  {
    if 5 <= h < 12 then "morning"
    else if 12 <= h < 17 then "noon"
    else if 17 <= h < 21 then "evening"
    else "night"
  }

  // ---------------------------------------------------------------------
  // Niche rotation
  // ---------------------------------------------------------------------

  /** The niches not used today, in declaration order. */
  function Unused(niches: seq<string>, used: set<string>): (r: seq<string>)
    ensures forall n :: n in r <==> n in niches && n !in used
  {
    if niches == [] then []
    else (if niches[0] in used then [] else [niches[0]]) + Unused(niches[1..], used)
  }

  /** `list(all_niches - used_niches)`, falling back to every niche when all
      were used today. */
  function AvailableNiches(used: set<string>): seq<string> {
    var unused := Unused(MasterNiches, used);
    if unused == [] then MasterNiches else unused
  }

  /** `random.choice(available_niches)`, with `pick` standing for the random
      draw. An unused niche is chosen whenever one exists, and a niche is
      always chosen: rotation never blocks production. */
  function SelectNiche(used: set<string>, pick: nat): (r: string)
    ensures r in MasterNiches
    ensures (exists n :: n in MasterNiches && n !in used) ==> r !in used
    ensures r in used ==> forall n :: n in MasterNiches ==> n in used
  {
    var avail := AvailableNiches(used);
    avail[pick % |avail|]
  }

  // ---------------------------------------------------------------------
  // Feed entries and candidates
  // ---------------------------------------------------------------------

  /** A parsed feed entry; `None` is a missing attribute. */
  datatype Entry = Entry(title: Option<string>, summary: Option<string>, link: Option<string>)

  datatype Candidate = Candidate(title: string, summary: string, link: string, niche: string)

  /** The candidate a titled entry yields: the summary defaults to the
      title and is cut to 3000 characters, the link defaults to "". */
  function CandidateOf(e: Entry, niche: string): Candidate
    requires e.title.Some?
  {
    Candidate(e.title.value, Take(e.summary.GetOr(e.title.value), SummaryMax), e.link.GetOr(""), niche)
  }

  /** The candidates built from one feed's entries: every titled entry yields
      its candidate, entries without a title are skipped, and nothing else
      is added. */
  function FromEntries(entries: seq<Entry>, niche: string): (r: seq<Candidate>)
    ensures |r| <= |entries|
    ensures forall c :: c in r ==> c.niche == niche && |c.summary| <= SummaryMax
    ensures forall i :: 0 <= i < |entries| && entries[i].title.Some? ==> CandidateOf(entries[i], niche) in r
    ensures forall c :: c in r ==>
      exists i :: 0 <= i < |entries| && entries[i].title.Some? && c == CandidateOf(entries[i], niche)
  {
    if entries == [] then []
    else
      var e := entries[0];
      var here := if e.title.Some? then [CandidateOf(e, niche)] else [];
      var rest := FromEntries(entries[1..], niche);
      assert forall i :: 1 <= i < |entries| ==> entries[i] == entries[1..][i - 1];
      here + rest
  }

  /** Candidates keep the feed's order: the candidates of a concatenation
      are the concatenation of the candidates. */
  lemma {:induction false} FromEntriesAppend(a: seq<Entry>, b: seq<Entry>, niche: string)
    ensures FromEntries(a + b, niche) == FromEntries(a, niche) + FromEntries(b, niche)
  {
    if a == [] {
      assert a + b == b;
    } else {
      var h := if a[0].title.Some? then [CandidateOf(a[0], niche)] else [];
      assert (a + b)[0] == a[0];
      assert (a + b)[1..] == a[1..] + b;
      assert FromEntries(a + b, niche) == h + FromEntries(a[1..] + b, niche);
      FromEntriesAppend(a[1..], b, niche);
      ConcatAssoc(h, FromEntries(a[1..], niche), FromEntries(b, niche));
    }
  }

  /** Entry `j` of feed `i` is among the first ten and has a title. */
  predicate Fetched(niche: string, fetch: (string, nat) -> seq<Entry>, i: nat, j: nat) {
    j < |fetch(niche, i)| && j < EntriesPerFeed && fetch(niche, i)[j].title.Some?
  }

  /** `r` holds the candidate of every titled entry among the first ten of
      each of the niche's feeds `from .. FeedsPerNiche - 1`, and nothing else.
      The second half spells `Fetched` out, so that the entry it names for a
      candidate does not in turn call for that entry's candidate. */
  ghost predicate GathersExactly(niche: string, fetch: (string, nat) -> seq<Entry>, from: nat, r: seq<Candidate>) {
    && (forall i: nat, j: nat {:trigger Fetched(niche, fetch, i, j)} :: from <= i < FeedsPerNiche && Fetched(niche, fetch, i, j) ==>
          CandidateOf(fetch(niche, i)[j], niche) in r)
    && (forall c :: c in r ==>
          exists i: nat, j: nat :: && from <= i < FeedsPerNiche
                                   && j < |fetch(niche, i)| && j < EntriesPerFeed && fetch(niche, i)[j].title.Some?
                                   && c == CandidateOf(fetch(niche, i)[j], niche))
  }

  /** Prepending the candidates of feed `from` to those of the later feeds
      gathers exactly the entries of feeds `from ..`. */
  lemma GatherStep(niche: string, fetch: (string, nat) -> seq<Entry>, from: nat, rest: seq<Candidate>)
    requires from < FeedsPerNiche
    requires GathersExactly(niche, fetch, from + 1, rest)
    ensures GathersExactly(niche, fetch, from, FromEntries(Take(fetch(niche, from), EntriesPerFeed), niche) + rest)
  {
    var feed := Take(fetch(niche, from), EntriesPerFeed);
    assert forall j :: 0 <= j < |feed| ==> feed[j] == fetch(niche, from)[j];
    assert forall j: nat :: Fetched(niche, fetch, from, j) ==> j < |feed|;
  }

  /** Step 1 of `scrape_targeted_niche`: the first ten entries of each of the
      niche's feeds `from .. FeedsPerNiche - 1`, in feed order. `fetch(niche, i)`
      stands for `fetch_rss` on the `i`-th URL of `MASTER_NICHES[niche]`
      (an empty list when the request fails). */
  function Gather(niche: string, fetch: (string, nat) -> seq<Entry>, from: nat): (r: seq<Candidate>)
    requires from <= FeedsPerNiche
    ensures |r| <= EntriesPerFeed * (FeedsPerNiche - from)
    ensures forall c :: c in r ==> c.niche == niche && |c.summary| <= SummaryMax
    ensures GathersExactly(niche, fetch, from, r)
    decreases FeedsPerNiche - from
  {
    if from == FeedsPerNiche then []
    else
      var here := FromEntries(Take(fetch(niche, from), EntriesPerFeed), niche);
      var rest := Gather(niche, fetch, from + 1);
      GatherStep(niche, fetch, from, rest);
      here + rest
  }

  // ---------------------------------------------------------------------
  // Single pick
  // ---------------------------------------------------------------------

  /** The longest prefix of `s` made of digits. */
  function DigitPrefix(s: string): (r: string)
    ensures |r| <= |s| && r == s[..|r|]
    ensures forall i :: 0 <= i < |r| ==> IsDigit(r[i])
    ensures |r| == |s| || !IsDigit(s[|r|])
  {
    if s != [] && IsDigit(s[0]) then [s[0]] + DigitPrefix(s[1..]) else []
  }

  /** `re.search(r"\d+", s)`: the first maximal run of digits. */
  function FirstDigitRun(s: string): (r: Option<string>)
    ensures r.None? <==> forall i :: 0 <= i < |s| ==> !IsDigit(s[i])
    ensures r.Some? ==> |r.value| > 0 && forall i :: 0 <= i < |r.value| ==> IsDigit(r.value[i])
  {
    if s == [] then None
    else if IsDigit(s[0]) then Some(DigitPrefix(s))
    else
      var rest := FirstDigitRun(s[1..]);
      assert forall i :: 1 <= i < |s| ==> s[i] == s[1..][i - 1];
      rest
  }

  /** The index the reply names, if it holds any digit. */
  function ReplyIndex(reply: string): Option<nat> {
    match FirstDigitRun(reply)
    case None => None
    case Some(d) => Some(ParseDigits(d))
  }

  /** `pick_viral_topic`: `reply` is the model's answer (`None` when the call
      raised) and `fallback` stands for `random.choice`. An in-range index
      selects that candidate; anything else falls back to a random one; an
      empty candidate list makes `random.choice` raise. */
  function PickViralTopic(candidates: seq<Candidate>, reply: Option<string>, fallback: nat): (r: Result<Candidate>)
    ensures candidates == [] <==> r.Err?
    ensures r.Ok? ==> r.value in candidates
    ensures reply.Some? && ReplyIndex(reply.value).Some? && ReplyIndex(reply.value).value < |candidates| ==>
              r == Ok(candidates[ReplyIndex(reply.value).value])
    ensures candidates != [] && !(reply.Some? && ReplyIndex(reply.value).Some? && ReplyIndex(reply.value).value < |candidates|) ==>
              r == Ok(candidates[fallback % |candidates|])
  {
    if candidates == [] then Err("IndexError: Cannot choose from an empty sequence")
    else if reply.Some? && ReplyIndex(reply.value).Some? && ReplyIndex(reply.value).value < |candidates| then
      Ok(candidates[ReplyIndex(reply.value).value])
    else Ok(candidates[fallback % |candidates|])
  }

  lemma {:induction false} FirstDigitRunAfterNoise(p: string, d: string, q: string)
    requires forall i :: 0 <= i < |p| ==> !IsDigit(p[i])
    requires |d| > 0 && forall i :: 0 <= i < |d| ==> IsDigit(d[i])
    requires q == [] || !IsDigit(q[0])
    ensures FirstDigitRun(p + d + q) == Some(d)
  {
    if p == [] {
      assert p + d + q == d + q;
      DigitPrefixOf(d, q);
    } else {
      assert (p + d + q)[1..] == p[1..] + d + q;
      FirstDigitRunAfterNoise(p[1..], d, q);
    }
  }

  lemma {:induction false} DigitPrefixOf(d: string, q: string)
    requires forall i :: 0 <= i < |d| ==> IsDigit(d[i])
    requires q == [] || !IsDigit(q[0])
    ensures DigitPrefix(d + q) == d
  {
    if d == [] {
      assert d + q == q;
    } else {
      assert (d + q)[1..] == d[1..] + q;
      DigitPrefixOf(d[1..], q);
    }
  }

  /** A reply that states an in-range index in decimal, whatever words
      surround it, selects exactly that candidate. */
  lemma PickViralHonoursIndex(candidates: seq<Candidate>, n: nat, p: string, q: string, fallback: nat)
    requires n < |candidates|
    requires forall i :: 0 <= i < |p| ==> !IsDigit(p[i])
    requires q == [] || !IsDigit(q[0])
    ensures PickViralTopic(candidates, Some(p + NatToString(n) + q), fallback) == Ok(candidates[n])
  {
    FirstDigitRunAfterNoise(p, NatToString(n), q);
    ParseNatToString(n);
  }

  // ---------------------------------------------------------------------
  // Top-3 pick
  // ---------------------------------------------------------------------

  /** An element of the reply's `indices` array. Python's `bool` is an `int`,
      so `true` and `false` pass the `isinstance` test as 1 and 0. */
  datatype JsonIndex = JInt(n: int) | JBool(b: bool) | JOther

  /** The reply of the top-3 call: the parsed `indices` array (empty when the
      key is missing), or an exception, after which `random.sample` draws the
      listed distinct positions. */
  datatype Top3Reply = Parsed(indices: seq<JsonIndex>) | Raised(sample: seq<nat>)

  function IndexValue(j: JsonIndex): Option<int> {
    match j
    case JInt(n) => Some(n)
    case JBool(b) => Some(if b then 1 else 0)
    case JOther => None
  }

  predicate ValidIndex(j: JsonIndex, n: nat) {
    IndexValue(j).Some? && 0 <= IndexValue(j).value < n
  }

  /** What `random.sample(candidates, min(3, len))` can return: that many
      distinct in-range positions. */
  predicate ValidReply(reply: Top3Reply, n: nat) {
    reply.Raised? ==>
      && |reply.sample| == Min(BatchSize, n)
      && (forall i :: 0 <= i < |reply.sample| ==> reply.sample[i] < n)
      && (forall i, j :: 0 <= i < j < |reply.sample| ==> reply.sample[i] != reply.sample[j])
  }

  /** The candidates named by the valid entries of `ix`, in reply order. */
  function Picks(candidates: seq<Candidate>, ix: seq<JsonIndex>): (r: seq<Candidate>)
    ensures |r| <= |ix|
    ensures forall c :: c in r ==> c in candidates
    ensures (forall m :: 0 <= m < |ix| ==> ValidIndex(ix[m], |candidates|)) ==>
              |r| == |ix| && forall m :: 0 <= m < |ix| ==> r[m] == candidates[IndexValue(ix[m]).value]
    ensures (forall m :: 0 <= m < |ix| ==> !ValidIndex(ix[m], |candidates|)) ==> r == []
  {
    if ix == [] then []
    else
      var here := if ValidIndex(ix[0], |candidates|) then [candidates[IndexValue(ix[0]).value]] else [];
      var rest := Picks(candidates, ix[1..]);
      assert forall m :: 1 <= m < |ix| ==> ix[m] == ix[1..][m - 1];
      here + rest
  }

  /** Picks follow the reply's order: the picks of a concatenation are the
      concatenation of the picks. */
  lemma {:induction false} PicksAppend(candidates: seq<Candidate>, a: seq<JsonIndex>, b: seq<JsonIndex>)
    ensures Picks(candidates, a + b) == Picks(candidates, a) + Picks(candidates, b)
  {
    if a == [] {
      assert a + b == b;
    } else {
      var h := if ValidIndex(a[0], |candidates|) then [candidates[IndexValue(a[0]).value]] else [];
      assert (a + b)[0] == a[0];
      assert (a + b)[1..] == a[1..] + b;
      assert Picks(candidates, a + b) == h + Picks(candidates, a[1..] + b);
      PicksAppend(candidates, a[1..], b);
      ConcatAssoc(h, Picks(candidates, a[1..]), Picks(candidates, b));
    }
  }

  lemma ConcatAssoc<T>(x: seq<T>, y: seq<T>, z: seq<T>)
    ensures x + (y + z) == (x + y) + z
  {
  }

  function SampleOf(candidates: seq<Candidate>, sample: seq<nat>): (r: seq<Candidate>)
    requires forall i :: 0 <= i < |sample| ==> sample[i] < |candidates|
    ensures |r| == |sample|
    ensures forall i :: 0 <= i < |r| ==> r[i] == candidates[sample[i]]
  {
    seq(|sample|, i requires 0 <= i < |sample| => candidates[sample[i]])
  }

  /** `pick_top_3_viral_topics`: only the first three entries of the reply
      count, each kept when it is an in-range integer; after an exception,
      `min(3, len)` distinct candidates are sampled. */
  function PickTop3(candidates: seq<Candidate>, reply: Top3Reply): (r: seq<Candidate>)
    requires ValidReply(reply, |candidates|)
    ensures |r| <= BatchSize
    ensures forall c :: c in r ==> c in candidates
    ensures reply.Raised? ==> |r| == Min(BatchSize, |candidates|)
    ensures reply.Parsed? ==> r == Picks(candidates, Take(reply.indices, BatchSize))
  {
    match reply
    case Parsed(ix) => Picks(candidates, Take(ix, BatchSize))
    case Raised(sample) => SampleOf(candidates, sample)
  }

  /** Entries past the third never influence the picks. */
  lemma PickTop3IgnoresTail(candidates: seq<Candidate>, ix: seq<JsonIndex>, tail: seq<JsonIndex>)
    requires |ix| >= BatchSize
    ensures PickTop3(candidates, Parsed(ix + tail)) == PickTop3(candidates, Parsed(ix))
  {
    assert Take(ix + tail, BatchSize) == Take(ix, BatchSize);
  }

  // ---------------------------------------------------------------------
  // The batch loop
  // ---------------------------------------------------------------------

  /** `candidates.remove(c)` when `c in candidates`: drops the first copy. */
  function RemoveFirst(pool: seq<Candidate>, c: Candidate): (r: seq<Candidate>)
    ensures forall x :: x in r ==> x in pool
  {
    if pool == [] then []
    else if pool[0] == c then pool[1..]
    else [pool[0]] + RemoveFirst(pool[1..], c)
  }

  /** `remove` drops exactly one copy of `c`, when there is one. */
  lemma {:induction false} RemoveFirstCounts(pool: seq<Candidate>, c: Candidate)
    ensures multiset(RemoveFirst(pool, c)) == multiset(pool) - multiset{c}
  {
    if pool != [] {
      assert pool == [pool[0]] + pool[1..];
      if pool[0] != c {
        RemoveFirstCounts(pool[1..], c);
      }
    }
  }

  /** The removal loop of one attempt. */
  function RemoveAll(pool: seq<Candidate>, picks: seq<Candidate>): (r: seq<Candidate>)
    ensures forall x :: x in r ==> x in pool
    decreases |picks|
  {
    if picks == [] then pool
    else RemoveAll(RemoveFirst(pool, picks[0]), picks[1..])
  }

  /** Every pick leaves the pool, one copy per time it was picked. */
  lemma {:induction false} RemoveAllCounts(pool: seq<Candidate>, picks: seq<Candidate>)
    ensures multiset(RemoveAll(pool, picks)) == multiset(pool) - multiset(picks)
    decreases |picks|
  {
    if picks != [] {
      RemoveFirstCounts(pool, picks[0]);
      RemoveAllCounts(RemoveFirst(pool, picks[0]), picks[1..]);
      assert picks == [picks[0]] + picks[1..];
      DiffTwice(multiset(pool), multiset{picks[0]}, multiset(picks[1..]));
    }
  }

  lemma DiffTwice<T>(a: multiset<T>, b: multiset<T>, c: multiset<T>)
    ensures (a - b) - c == a - (b + c)
  {
    forall y ensures ((a - b) - c)[y] == (a - (b + c))[y] {
    }
  }

  /** A pick that occurred once in the pool is never offered again. */
  lemma RemovedPickGone(pool: seq<Candidate>, picks: seq<Candidate>, c: Candidate)
    requires c in picks && multiset(pool)[c] <= 1
    ensures c !in RemoveAll(pool, picks)
  {
    RemoveAllCounts(pool, picks);
    assert multiset(RemoveAll(pool, picks))[c] == 0;
  }

  /** The duplicate test the batch loop applies to a pick: `task_exists` on
      its title and link. */
  function IsDup(store: Store, now: int, sim: (string, string) -> real): Candidate -> bool {
    (c: Candidate) => TaskExists(store, c.title, Some(c.link), now, sim)
  }

  /** The picks of an attempt that are not duplicates of recent tasks. */
  function NonDuplicates(isDup: Candidate -> bool, picks: seq<Candidate>): (r: seq<Candidate>)
  {
    if picks == [] then []
    else (if isDup(picks[0]) then [] else [picks[0]]) + NonDuplicates(isDup, picks[1..])
  }

  /** The unique winners are exactly the picks that are not duplicates. */
  lemma {:induction false} NonDuplicatesMembers(isDup: Candidate -> bool, picks: seq<Candidate>)
    ensures forall c :: c in NonDuplicates(isDup, picks) <==> c in picks && !isDup(c)
  {
    if picks != [] {
      NonDuplicatesMembers(isDup, picks[1..]);
      assert forall c :: c in picks <==> c == picks[0] || c in picks[1..];
    }
  }

  /** The slot the run files its task under: the forced slot when truthy,
      otherwise the hour's slot. */
  function RunSlot(forcedSlot: Option<string>, hour: int): string {
    if Truthy(forcedSlot) then forcedSlot.value else TimeSlot(hour)
  }

  /** The `add_task` call that files `winner`: a pending task under the
      upper-cased niche as its source, appended unless it is a duplicate. */
  function FileWinner(store: Store, winner: Candidate, niche: string, slot: string,
                      now: int, localDate: string, sim: (string, string) -> real): (r: Store)
    ensures TaskExists(store, winner.title, Some(winner.link), now, sim) ==> r == store
    ensures !TaskExists(store, winner.title, Some(winner.link), now, sim) ==>
      && |r| == |store| + 1 && r[..|store|] == store
      && r[|store|].status == Pending && r[|store|].title == winner.title
      && r[|store|].content == winner.summary && r[|store|].source == Upper(niche)
      && r[|store|].niche == niche && r[|store|].slot == slot
  {
    AddTask(store, winner.title, winner.summary, Upper(niche), Pending,
            Extra(Some(winner.link), Some(slot), Some(niche)), now, localDate, sim)
  }

  /** `random.choice(winners)`, with `pick` standing for the draw; nothing
      when there are no winners. */
  function Draw(winners: seq<Candidate>, pick: nat): (r: Option<Candidate>)
    ensures r.None? <==> winners == []
    ensures r.Some? ==> r.value in winners
  {
    if winners == [] then None else Some(winners[pick % |winners|])
  }

  /** One attempt of the batch loop: the pool after the picks are removed,
      and the winner drawn among the picks that are not duplicates, if any. */
  function Attempt(isDup: Candidate -> bool, pool: seq<Candidate>, reply: Top3Reply, winnerPick: nat)
    : (r: (seq<Candidate>, Option<Candidate>))
    requires ValidReply(reply, |pool|)
    ensures r.0 == RemoveAll(pool, PickTop3(pool, reply))
    ensures r.1.Some? ==>
      && r.1.value in pool && r.1.value in PickTop3(pool, reply)
      && !isDup(r.1.value)
    ensures r.1.None? <==> forall c :: c in PickTop3(pool, reply) ==> isDup(c)
    ensures var w := NonDuplicates(isDup, PickTop3(pool, reply));
      && (r.1.None? <==> w == [])
      && (r.1.Some? ==> r.1.value == w[winnerPick % |w|])
  {
    var top3 := PickTop3(pool, reply);
    var winners := NonDuplicates(isDup, top3);
    NonDuplicatesMembers(isDup, top3);
    (RemoveAll(pool, top3), Draw(winners, winnerPick))
  }

  /** Every top-3 reply is one `random.sample` could give. */
  ghost predicate SaneTop3(reply: (nat, seq<Candidate>) -> Top3Reply) {
    forall k: nat, pool: seq<Candidate> :: ValidReply(reply(k, pool), |pool|)
  }

  /** The picks a reply names in `pool`; a reply `random.sample` could not
      give names none. */
  function PicksOf(pool: seq<Candidate>, reply: Top3Reply): (r: seq<Candidate>)
    ensures ValidReply(reply, |pool|) ==> r == PickTop3(pool, reply)
  {
    if ValidReply(reply, |pool|) then PickTop3(pool, reply) else []
  }

  /** The picks attempt `k` of the batch loop makes in `pool`: the top-3
      reply for that attempt, parsed. */
  function Top3Picks(reply: (nat, seq<Candidate>) -> Top3Reply): (nat, seq<Candidate>) -> seq<Candidate> {
    (k: nat, pool: seq<Candidate>) => PicksOf(pool, reply(k, pool))
  }

  /** Every attempt picks only candidates of the pool it is shown. */
  ghost predicate PicksFromPool(picks: (nat, seq<Candidate>) -> seq<Candidate>) {
    forall k: nat, pool: seq<Candidate>, c :: c in picks(k, pool) ==> c in pool
  }

  /** The parsed top-3 replies pick from the pool they are shown. */
  lemma Top3PicksFromPool(reply: (nat, seq<Candidate>) -> Top3Reply)
    ensures PicksFromPool(Top3Picks(reply))
  {
    forall k: nat, pool: seq<Candidate>, c | c in Top3Picks(reply)(k, pool)
      ensures c in pool
    {
      assert Top3Picks(reply)(k, pool) == PicksOf(pool, reply(k, pool));
    }
  }

  /** The pool the batch loop holds after `k` attempts that filed nothing,
      when attempt `i` picks `picks(i, pool)`: each attempt removes its
      picks. */
  function PoolAfter(candidates: seq<Candidate>, picks: (nat, seq<Candidate>) -> seq<Candidate>, k: nat): (r: seq<Candidate>)
  {
    if k == 0 then candidates
    else
      var p := PoolAfter(candidates, picks, k - 1);
      RemoveAll(p, picks(k - 1, p))
  }

  /** The picks of attempt `k`. */
  function PicksAt(candidates: seq<Candidate>, picks: (nat, seq<Candidate>) -> seq<Candidate>, k: nat): seq<Candidate>
  {
    picks(k, PoolAfter(candidates, picks, k))
  }

  /** Attempt `k` ran, since a full batch remained, and every one of its
      picks was a duplicate. */
  predicate FailedAttempt(isDup: Candidate -> bool, candidates: seq<Candidate>, picks: (nat, seq<Candidate>) -> seq<Candidate>,
                          k: nat)
  {
    |PoolAfter(candidates, picks, k)| >= BatchSize && NonDuplicates(isDup, PicksAt(candidates, picks, k)) == []
  }

  /** One attempt only removes candidates. */
  lemma PoolStep(candidates: seq<Candidate>, picks: (nat, seq<Candidate>) -> seq<Candidate>, k: nat, c: Candidate)
    requires c in PoolAfter(candidates, picks, k + 1)
    ensures c in PoolAfter(candidates, picks, k)
  {
    var p := PoolAfter(candidates, picks, k);
    assert PoolAfter(candidates, picks, k + 1) == RemoveAll(p, picks(k, p));
  }

  /** Step `k` of a chain of pools only removes candidates. */
  ghost predicate ShrinksAt(pools: nat -> seq<Candidate>, k: nat) {
    forall x :: x in pools(k + 1) ==> x in pools(k)
  }

  /** A chain whose every step only removes candidates holds, at a later
      step, nothing it did not hold at an earlier one. */
  lemma {:induction false} ChainShrinks(pools: nat -> seq<Candidate>, k1: nat, k2: nat, c: Candidate)
    requires forall k: nat :: ShrinksAt(pools, k)
    requires k1 <= k2 && c in pools(k2)
    ensures c in pools(k1)
    decreases k2 - k1
  {
    if k1 < k2 {
      ChainShrinks(pools, k1 + 1, k2, c);
      assert ShrinksAt(pools, k1);
    }
  }

  /** The pool only ever loses candidates: a later pool holds nothing an
      earlier one did not. */
  lemma {:induction false} PoolShrinks(candidates: seq<Candidate>, picks: (nat, seq<Candidate>) -> seq<Candidate>,
                    k1: nat, k2: nat, c: Candidate)
    requires k1 <= k2
    requires c in PoolAfter(candidates, picks, k2)
    ensures c in PoolAfter(candidates, picks, k1)
  {
    var pools := (k: nat) => PoolAfter(candidates, picks, k);
    forall k: nat ensures ShrinksAt(pools, k) {
      forall x | x in pools(k + 1) ensures x in pools(k) {
        PoolStep(candidates, picks, k, x);
      }
    }
    ChainShrinks(pools, k1, k2, c);
  }

  /** Attempt `k`, run on the pool the loop holds after `k` attempts, leaves
      `PoolAfter(k + 1)` and draws among the picks of `PicksAt(k)` that are
      not duplicates. */
  lemma AttemptStep(isDup: Candidate -> bool, candidates: seq<Candidate>, reply: (nat, seq<Candidate>) -> Top3Reply,
                    k: nat, winnerPick: nat)
    requires ValidReply(reply(k, PoolAfter(candidates, Top3Picks(reply), k)), |PoolAfter(candidates, Top3Picks(reply), k)|)
    ensures var p := PoolAfter(candidates, Top3Picks(reply), k);
            var step := Attempt(isDup, p, reply(k, p), winnerPick);
            && step.0 == PoolAfter(candidates, Top3Picks(reply), k + 1)
            && step.1 == Draw(NonDuplicates(isDup, PicksAt(candidates, Top3Picks(reply), k)), winnerPick)
            && (step.1.None? <==> NonDuplicates(isDup, PicksAt(candidates, Top3Picks(reply), k)) == [])
  {
    var p := PoolAfter(candidates, Top3Picks(reply), k);
    assert PicksAt(candidates, Top3Picks(reply), k) == PickTop3(p, reply(k, p));
    assert PoolAfter(candidates, Top3Picks(reply), k + 1) == RemoveAll(p, PickTop3(p, reply(k, p)));
  }

  /** The winner an attempt draws is one of the gathered candidates and not
      a duplicate of a recent task. */
  lemma DrawnWinnerIsFresh(isDup: Candidate -> bool, candidates: seq<Candidate>, picks: (nat, seq<Candidate>) -> seq<Candidate>,
                           k: nat, winnerPick: nat)
    requires PicksFromPool(picks)
    requires Draw(NonDuplicates(isDup, PicksAt(candidates, picks, k)), winnerPick).Some?
    ensures var c := Draw(NonDuplicates(isDup, PicksAt(candidates, picks, k)), winnerPick).value;
            && c in candidates
            && !isDup(c)
  {
    var p := PoolAfter(candidates, picks, k);
    var c := Draw(NonDuplicates(isDup, PicksAt(candidates, picks, k)), winnerPick).value;
    NonDuplicatesMembers(isDup, PicksAt(candidates, picks, k));
    PoolShrinks(candidates, picks, 0, k, c);
  }

  /** A pick that occurred once in its attempt's pool is never offered by a
      later attempt. */
  lemma PickedNeverOfferedAgain(candidates: seq<Candidate>, picks: (nat, seq<Candidate>) -> seq<Candidate>,
                                k: nat, later: nat, c: Candidate)
    requires k < later
    requires c in PicksAt(candidates, picks, k) && multiset(PoolAfter(candidates, picks, k))[c] <= 1
    ensures c !in PoolAfter(candidates, picks, later)
  {
    RemovedPickGone(PoolAfter(candidates, picks, k), PicksAt(candidates, picks, k), c);
    if c in PoolAfter(candidates, picks, later) {
      PoolShrinks(candidates, picks, k + 1, later, c);
    }
  }

  datatype ScrapeOutcome =
    | NoCandidates
    | Inserted(winner: Candidate, attempt: nat)
    | GaveUp(attempts: nat, remaining: seq<Candidate>)

  /** The control of the batch loop of `scrape_targeted_niche`, over the
      pools its attempts hold and the winners they draw: at most four
      attempts, each only while three candidates remain, stopping at the
      first attempt that draws a winner. */
  method FirstWinner(pools: nat -> seq<Candidate>, draws: nat -> Option<Candidate>)
    returns (winner: Option<Candidate>, attempts: nat)
    ensures attempts <= MaxTries
    ensures forall j :: 0 <= j < attempts ==> |pools(j)| >= BatchSize && draws(j).None?
    ensures winner.Some? ==> attempts < MaxTries && |pools(attempts)| >= BatchSize && winner == draws(attempts)
    ensures winner.None? ==> attempts == MaxTries || |pools(attempts)| < BatchSize
  {
    attempts := 0;
    while attempts < MaxTries && |pools(attempts)| >= BatchSize
      invariant attempts <= MaxTries
      invariant forall j :: 0 <= j < attempts ==> |pools(j)| >= BatchSize && draws(j).None?
    {
      if draws(attempts).Some? {
        return draws(attempts), attempts;
      }
      attempts := attempts + 1;
    }
    winner := None;
  }

  /** The batch loop on the gathered candidates: attempt `k` holds
      `PoolAfter(k)` and draws among the picks of `PicksAt(k)` that are not
      duplicates. */
  method BatchLoop(isDup: Candidate -> bool, candidates: seq<Candidate>, picks: (nat, seq<Candidate>) -> seq<Candidate>,
                   winnerPick: nat)
    returns (winner: Option<Candidate>, attempts: nat)
    ensures attempts <= MaxTries
    ensures forall k :: 0 <= k < attempts ==> FailedAttempt(isDup, candidates, picks, k)
    ensures winner.Some? ==>
              && attempts < MaxTries
              && |PoolAfter(candidates, picks, attempts)| >= BatchSize
              && winner == Draw(NonDuplicates(isDup, PicksAt(candidates, picks, attempts)), winnerPick)
    ensures winner.None? ==> attempts == MaxTries || |PoolAfter(candidates, picks, attempts)| < BatchSize
  {
    var pools := (k: nat) => PoolAfter(candidates, picks, k);
    var draws := (k: nat) => Draw(NonDuplicates(isDup, PicksAt(candidates, picks, k)), winnerPick);
    winner, attempts := FirstWinner(pools, draws);
    forall k | 0 <= k < attempts
      ensures FailedAttempt(isDup, candidates, picks, k)
    {
      assert pools(k) == PoolAfter(candidates, picks, k);
      assert draws(k) == Draw(NonDuplicates(isDup, PicksAt(candidates, picks, k)), winnerPick);
    }
  }

  /** `scrape_targeted_niche`. `nichePick` and `winnerPick` stand for the two
      `random.choice` draws, `fetch` for the feeds and `reply(k, pool)` for the
      top-3 reply of attempt `k` on pool `pool`. At most one task is filed,
      as `pending`, and only a pick that is not a duplicate. */
  method ScrapeTargetedNiche(store: Store, forcedSlot: Option<string>, hour: int, now: int, localDate: string,
                             nichePick: nat, fetch: (string, nat) -> seq<Entry>,
                             reply: (nat, seq<Candidate>) -> Top3Reply, winnerPick: nat,
                             sim: (string, string) -> real)
    returns (r: Store, outcome: ScrapeOutcome)
    requires SaneTop3(reply)
    ensures var niche := SelectNiche(UsedNichesToday(store, now), nichePick);
            var candidates := Gather(niche, fetch, 0);
            var isDup := IsDup(store, now, sim);
            var picks := Top3Picks(reply);
            && (candidates == [] <==> outcome == NoCandidates)
            && (outcome.Inserted? ==>
                  var a := outcome.attempt;
                  var w := NonDuplicates(isDup, PicksAt(candidates, picks, a));
                  && a < MaxTries
                  && (forall k :: 0 <= k < a ==> FailedAttempt(isDup, candidates, picks, k))
                  && |PoolAfter(candidates, picks, a)| >= BatchSize
                  && w != [] && outcome.winner == w[winnerPick % |w|]
                  && outcome.winner in candidates
                  && outcome.winner.niche == niche
                  && !TaskExists(store, outcome.winner.title, Some(outcome.winner.link), now, sim)
                  && r == FileWinner(store, outcome.winner, niche, RunSlot(forcedSlot, hour), now, localDate, sim))
            && (outcome.GaveUp? ==>
                  && outcome.attempts <= MaxTries
                  && (forall k :: 0 <= k < outcome.attempts ==> FailedAttempt(isDup, candidates, picks, k))
                  && outcome.remaining == PoolAfter(candidates, picks, outcome.attempts)
                  && (outcome.attempts == MaxTries || |outcome.remaining| < BatchSize))
            && (!outcome.Inserted? ==> r == store)
  {
    var slot := RunSlot(forcedSlot, hour);
    var niche := SelectNiche(UsedNichesToday(store, now), nichePick);
    var candidates := Gather(niche, fetch, 0);
    r := store;
    if candidates == [] {
      outcome := NoCandidates;
      return;
    }
    var isDup := IsDup(store, now, sim);
    var picks := Top3Picks(reply);
    var winner, attempts := BatchLoop(isDup, candidates, picks, winnerPick);
    if winner.Some? {
      Top3PicksFromPool(reply);
      DrawnWinnerIsFresh(isDup, candidates, picks, attempts, winnerPick);
      r := FileWinner(store, winner.value, niche, slot, now, localDate, sim);
      outcome := Inserted(winner.value, attempts);
    } else {
      outcome := GaveUp(attempts, PoolAfter(candidates, picks, attempts));
    }
  }

}
