/** Minter history (`refreshMinters`): the block window to scan, the 2000-block log chunks, the
    tally of mint events per recipient, and the ranking by count. */
module Minters {
  import opened Outcomes

  const DefaultLookbackBlocks: int := 50000
  const ChunkSize: nat := 2000

  /** `Number(...)` of a configuration string: an integer, or NaN / an infinity.
      Fractional values are not modelled. */
  datatype EnvNumber = Finite(n: int) | NotFinite

  /** `Number.isFinite(x) && x > 0`. */
  predicate IsPositive(x: EnvNumber)
  {
    x.Finite? && x.n > 0
  }

  /** The lookback actually used: the configured one when finite and positive, else 50000. */
  function Lookback(setting: EnvNumber): (r: int)
    ensures r > 0
  {
    if IsPositive(setting) then setting.n else DefaultLookbackBlocks
  }

  /** `Math.max(latestBlock - lookback, 0)`. */
  function MinBlock(latest: nat, lookback: int): nat
  {
    if latest - lookback > 0 then latest - lookback else 0
  }

  /** The first block scanned: the deploy block when configured (but never before `MinBlock`),
      else `MinBlock`. */
  function FromBlock(latest: nat, lookbackSetting: EnvNumber, deploy: EnvNumber): nat
  {
    var minBlock := MinBlock(latest, Lookback(lookbackSetting));
    if IsPositive(deploy) then (if deploy.n > minBlock then deploy.n else minBlock) else minBlock
  }

  /** The scan window starts no earlier than block 0, nor than `lookback` blocks back, nor than
      the deploy block when one is given; without a deploy block it reaches back exactly
      `min(latest, lookback)` blocks. */
  lemma ScanWindowSpec(latest: nat, lookbackSetting: EnvNumber, deploy: EnvNumber)
    ensures var lookback := Lookback(lookbackSetting);
            var minBlock := MinBlock(latest, lookback);
            var from := FromBlock(latest, lookbackSetting, deploy);
            lookback == (if IsPositive(lookbackSetting) then lookbackSetting.n else 50000) &&
            minBlock <= latest && minBlock >= latest - lookback &&
            (minBlock == 0 || minBlock == latest - lookback) &&
            from >= minBlock && from >= latest - lookback &&
            (IsPositive(deploy) ==> from >= deploy.n && (from == deploy.n || from == minBlock)) &&
            (!IsPositive(deploy) ==> from == minBlock && latest - from == (if latest < lookback then latest else lookback))
  {
  }

  /** One `queryFilter(filter, start, end)` window, both ends inclusive. */
  datatype BlockRange = BlockRange(start: nat, end: nat)

  predicate InRange(r: BlockRange, b: int)
  {
    r.start <= b <= r.end
  }

  /** The windows `[start, min(start + 1999, latest)]` for `start = from, from + 2000, ...`
      while `start <= latest`. */
  function Chunks(from: nat, latest: nat): seq<BlockRange>
    decreases if from <= latest then latest + 1 - from else 0
  {
    if from > latest then []
    else
      var end := if from + ChunkSize - 1 < latest then from + ChunkSize - 1 else latest;
      [BlockRange(from, end)] + Chunks(from + ChunkSize, latest)
  }

  /** Each window starts `2000 * k` blocks after `from`, lies inside `[from, latest]` and spans
      at most 2000 blocks; there are none when `from > latest`. */
  lemma {:induction false} ChunksShape(from: nat, latest: nat)
    ensures Chunks(from, latest) == [] <==> from > latest
    ensures forall k :: 0 <= k < |Chunks(from, latest)| ==>
              var c := Chunks(from, latest)[k];
              c.start == from + ChunkSize * k && from <= c.start <= c.end <= latest && c.end - c.start < ChunkSize
    decreases if from <= latest then latest + 1 - from else 0
  {
    if from <= latest {
      ChunksShape(from + ChunkSize, latest);
      var cs := Chunks(from, latest);
      var rest := Chunks(from + ChunkSize, latest);
      assert cs[1..] == rest;
      forall k | 1 <= k < |cs|
        ensures cs[k].start == from + ChunkSize * k && from <= cs[k].start <= cs[k].end <= latest
      {
        assert cs[k] == rest[k - 1];
      }
    }
  }

  /** Consecutive windows are adjacent, the first starts at `from` and the last ends at `latest`. */
  lemma {:induction false} ChunksContiguous(from: nat, latest: nat)
    requires from <= latest
    ensures Chunks(from, latest)[0].start == from
    ensures Last(Chunks(from, latest)).end == latest
    ensures forall k :: 0 <= k < |Chunks(from, latest)| - 1 ==>
              Chunks(from, latest)[k + 1].start == Chunks(from, latest)[k].end + 1
    decreases latest + 1 - from
  {
    var cs := Chunks(from, latest);
    var rest := Chunks(from + ChunkSize, latest);
    assert cs[1..] == rest;
    if from + ChunkSize <= latest {
      ChunksContiguous(from + ChunkSize, latest);
      forall k | 1 <= k < |cs| - 1
        ensures cs[k + 1].start == cs[k].end + 1
      {
        assert cs[k] == rest[k - 1] && cs[k + 1] == rest[k];
      }
    }
  }

  /** Every block of `[from, latest]` lies in some window. */
  lemma {:induction false} ChunksCover(from: nat, latest: nat, b: int)
    requires from <= b <= latest
    ensures exists k :: 0 <= k < |Chunks(from, latest)| && InRange(Chunks(from, latest)[k], b)
    decreases latest + 1 - from
  {
    var cs := Chunks(from, latest);
    if !InRange(cs[0], b) {
      ChunksCover(from + ChunkSize, latest, b);
      var rest := Chunks(from + ChunkSize, latest);
      var k :| 0 <= k < |rest| && InRange(rest[k], b);
      assert cs[k + 1] == rest[k];
    }
  }

  /** Windows never overlap: a block lies in at most one window. */
  lemma ChunksDisjoint(from: nat, latest: nat, k1: int, k2: int, b: int)
    requires 0 <= k1 < |Chunks(from, latest)| && 0 <= k2 < |Chunks(from, latest)|
    requires InRange(Chunks(from, latest)[k1], b) && InRange(Chunks(from, latest)[k2], b)
    ensures k1 == k2
  {
    ChunksShape(from, latest);
  }

  /** A mint event (a `Transfer` from the zero address), reduced to its recipient;
      a missing `args.to` is the empty string. */
  datatype TransferEvent = TransferEvent(to: string)

  /** Helper for the `ScanMintEvents` loop invariant: events already gathered, in front of the rest. */
  function Prepend(events: seq<TransferEvent>, r: Outcome<seq<TransferEvent>>): Outcome<seq<TransferEvent>>
  {
    match r
    case Ok(rest) => Ok(events + rest)
    case Throw(e) => Throw(e)
  }

  /** Helper for the `ScanMintEvents` loop invariant: prepending no events changes nothing. */
  lemma PrependNothing(r: Outcome<seq<TransferEvent>>)
    ensures Prepend([], r) == r
  {
    if r.Ok? {
      assert [] + r.value == r.value;
    }
  }

  /** The events of the windows `cs`, queried in order and concatenated; the first query that
      throws ends the scan with its error. */
  function CollectChunks(cs: seq<BlockRange>, query: BlockRange -> Outcome<seq<TransferEvent>>): Outcome<seq<TransferEvent>>
  {
    if cs == [] then Ok([])
    else match query(cs[0])
      case Throw(e) => Throw(e)
      case Ok(chunk) => Prepend(chunk, CollectChunks(cs[1..], query))
  }

  /** The chunk loop of `refreshMinters`: `for (start = fromBlock; start <= latestBlock; start += step)`,
      concatenating each window's events. */
  method ScanMintEvents(from: nat, latest: nat, query: BlockRange -> Outcome<seq<TransferEvent>>)
    returns (r: Outcome<seq<TransferEvent>>)
    ensures r == CollectChunks(Chunks(from, latest), query)
  {
    var events: seq<TransferEvent> := [];
    var start: nat := from;
    PrependNothing(CollectChunks(Chunks(from, latest), query));
    while start <= latest
      invariant CollectChunks(Chunks(from, latest), query) == Prepend(events, CollectChunks(Chunks(start, latest), query))
      decreases latest + 1 - start
    {
      var end := if start + ChunkSize - 1 < latest then start + ChunkSize - 1 else latest;
      var cs := Chunks(start, latest);
      assert cs[0] == BlockRange(start, end) && cs[1..] == Chunks(start + ChunkSize, latest);
      var chunk := query(BlockRange(start, end));
      if chunk.Throw? {
        return Throw(chunk.error);
      }
      var tail := CollectChunks(Chunks(start + ChunkSize, latest), query);
      if tail.Ok? {
        assert events + (chunk.value + tail.value) == (events + chunk.value) + tail.value;
      }
      events := events + chunk.value;
      start := start + ChunkSize;
    }
    assert events + [] == events;
    return Ok(events);
  }

  /** How many events go to `a`. */
  function Occurrences(events: seq<TransferEvent>, a: string): nat
  {
    if events == [] then 0
    else Occurrences(events[..|events| - 1], a) + (if Last(events).to == a then 1 else 0)
  }

  /** The distinct non-empty recipients in order of first appearance: the key order of the
      `counts` Map, which iterates in insertion order. */
  function Recipients(events: seq<TransferEvent>): seq<string>
  {
    if events == [] then []
    else
      var seen := Recipients(events[..|events| - 1]);
      var to := Last(events).to;
      if to == "" || to in seen then seen else seen + [to]
  }

  lemma {:induction false} OccurrencesSpec(events: seq<TransferEvent>, a: string)
    ensures Occurrences(events, a) > 0 <==> exists i :: 0 <= i < |events| && events[i].to == a
    ensures Occurrences(events, a) <= |events|
  {
    if events != [] {
      var init := events[..|events| - 1];
      OccurrencesSpec(init, a);
      assert forall i :: 0 <= i < |init| ==> init[i] == events[i];
    }
  }

  /** The recipients are exactly the non-empty `to` values, each listed once. */
  lemma {:induction false} RecipientsSpec(events: seq<TransferEvent>)
    ensures forall a :: a in Recipients(events) <==> a != "" && exists i :: 0 <= i < |events| && events[i].to == a
    ensures forall k, l :: 0 <= k < l < |Recipients(events)| ==> Recipients(events)[k] != Recipients(events)[l]
  {
    if events != [] {
      var init := events[..|events| - 1];
      RecipientsSpec(init);
      assert forall i :: 0 <= i < |init| ==> init[i] == events[i];
    }
  }

  /** Listing order is first-appearance order: an earlier recipient occurs in the events before
      the first occurrence of any later one. */
  lemma {:induction false} RecipientsFirstAppearance(events: seq<TransferEvent>, k: int, l: int)
    requires 0 <= k < l < |Recipients(events)|
    ensures exists i :: 0 <= i < |events| && events[i].to == Recipients(events)[k] &&
              forall j :: 0 <= j <= i ==> events[j].to != Recipients(events)[l]
  {
    var init := events[..|events| - 1];
    var seen := Recipients(init);
    assert forall i :: 0 <= i < |init| ==> init[i] == events[i];
    RecipientsSpec(init);
    if l < |seen| {
      RecipientsFirstAppearance(init, k, l);
    } else {
      assert Recipients(events)[k] in seen;
      var i :| 0 <= i < |init| && init[i].to == Recipients(events)[k];
      assert Recipients(events)[l] !in seen;
    }
  }

  /** The counting loop of `refreshMinters`: `counts.set(to, (counts.get(to) || 0) + 1)` for each
      event with a non-empty `to`. `order` is the Map's insertion order. */
  method CountMints(events: seq<TransferEvent>) returns (counts: map<string, nat>, order: seq<string>)
    ensures order == Recipients(events)
    ensures forall a :: a in counts <==> a in order
    ensures forall a :: a in counts ==> counts[a] == Occurrences(events, a)
  {
    counts := map[];
    order := [];
    var i := 0;
    while i < |events|
      invariant 0 <= i <= |events|
      invariant order == Recipients(events[..i])
      invariant forall a :: a in counts <==> a in order
      invariant forall a :: a in counts ==> counts[a] == Occurrences(events[..i], a)
    {
      ghost var next := events[..i + 1];
      assert next[..i] == events[..i] && Last(next) == events[i];
      var to := events[i].to;
      RecipientsSpec(events[..i]);
      if to != "" {
        if to !in counts {
          order := order + [to];
        }
        var before := if to in counts then counts[to] else 0;
        OccurrencesSpec(events[..i], to);
        counts := counts[to := before + 1];
      }
      assert forall a :: a in counts ==> counts[a] == Occurrences(next, a);
      i := i + 1;
    }
    assert events[..i] == events;
  }

  /** One row of the minter list. */
  datatype MinterEntry = MinterEntry(address: string, count: nat)

  /** `Array.from(counts.entries()).map(...)`, computed from the events directly. */
  function Tally(events: seq<TransferEvent>): seq<MinterEntry>
  {
    var rs := Recipients(events);
    seq(|rs|, k requires 0 <= k < |rs| => MinterEntry(rs[k], Occurrences(events, rs[k])))
  }

  /** Insert `x` after every entry whose count is at least `x.count`, scanning from the right. */
  function InsertByCount(s: seq<MinterEntry>, x: MinterEntry): seq<MinterEntry>
  {
    if s == [] then [x]
    else if Last(s).count >= x.count then s + [x]
    else InsertByCount(s[..|s| - 1], x) + [Last(s)]
  }

  /** `list.sort((a, b) => b.count - a.count)`: a stable sort, highest count first. Every stable
      sort gives this result; it is written as an insertion sort. */
  function SortByCount(s: seq<MinterEntry>): seq<MinterEntry>
  {
    if s == [] then [] else InsertByCount(SortByCount(s[..|s| - 1]), Last(s))
  }

  predicate NonIncreasing(s: seq<MinterEntry>)
  {
    forall i, j :: 0 <= i < j < |s| ==> s[i].count >= s[j].count
  }

  /** The entries of `s` whose count is `c`, in order. */
  function WithCount(s: seq<MinterEntry>, c: nat): seq<MinterEntry>
  {
    if s == [] then []
    else WithCount(s[..|s| - 1], c) + (if Last(s).count == c then [Last(s)] else [])
  }

  lemma {:induction false} WithCountAppend(s: seq<MinterEntry>, t: seq<MinterEntry>, c: nat)
    ensures WithCount(s + t, c) == WithCount(s, c) + WithCount(t, c)
    decreases |t|
  {
    if t == [] {
      assert s + t == s;
    } else {
      assert (s + t)[..|s + t| - 1] == s + t[..|t| - 1];
      WithCountAppend(s, t[..|t| - 1], c);
    }
  }

  lemma MultisetLast(s: seq<MinterEntry>)
    requires s != []
    ensures multiset(s) == multiset(s[..|s| - 1]) + multiset{Last(s)}
  {
    assert s == s[..|s| - 1] + [Last(s)];
  }

  lemma {:induction false} InsertByCountMultiset(s: seq<MinterEntry>, x: MinterEntry)
    ensures multiset(InsertByCount(s, x)) == multiset(s) + multiset{x}
  {
    if s != [] && Last(s).count < x.count {
      InsertByCountMultiset(s[..|s| - 1], x);
      MultisetLast(s);
    }
  }

  lemma {:induction false} InsertByCountSorted(s: seq<MinterEntry>, x: MinterEntry)
    requires NonIncreasing(s)
    ensures NonIncreasing(InsertByCount(s, x))
  {
    if s != [] && Last(s).count < x.count {
      var init, y := s[..|s| - 1], Last(s);
      assert NonIncreasing(init) by {
        forall i, j | 0 <= i < j < |init| ensures init[i].count >= init[j].count {
          assert init[i] == s[i] && init[j] == s[j];
        }
      }
      InsertByCountSorted(init, x);
      InsertByCountMultiset(init, x);
      var ins := InsertByCount(init, x);
      forall i | 0 <= i < |ins|
        ensures ins[i].count >= y.count
      {
        assert ins[i] in multiset(ins);
        if ins[i] != x {
          assert ins[i] in init;
          var m :| 0 <= m < |init| && init[m] == ins[i];
          assert s[m] == ins[i];
        }
      }
      assert InsertByCount(s, x) == ins + [y];
    }
  }

  lemma {:induction false} InsertByCountStable(s: seq<MinterEntry>, x: MinterEntry, c: nat)
    ensures WithCount(InsertByCount(s, x), c) == WithCount(s, c) + (if x.count == c then [x] else [])
  {
    if s == [] {
    } else if Last(s).count >= x.count {
      WithCountAppend(s, [x], c);
    } else {
      var init := s[..|s| - 1];
      InsertByCountStable(init, x, c);
      WithCountAppend(InsertByCount(init, x), [Last(s)], c);
    }
  }

  /** The ranking is non-increasing by count. */
  lemma {:induction false} SortByCountSorted(s: seq<MinterEntry>)
    ensures NonIncreasing(SortByCount(s))
  {
    if s != [] {
      SortByCountSorted(s[..|s| - 1]);
      InsertByCountSorted(SortByCount(s[..|s| - 1]), Last(s));
    }
  }

  /** The ranking is a permutation of its input. */
  lemma {:induction false} SortByCountPermutes(s: seq<MinterEntry>)
    ensures multiset(SortByCount(s)) == multiset(s)
  {
    if s != [] {
      var init := s[..|s| - 1];
      SortByCountPermutes(init);
      InsertByCountMultiset(SortByCount(init), Last(s));
      MultisetLast(s);
    }
  }

  /** The ranking is stable: entries with equal counts keep their input order. */
  lemma {:induction false} SortByCountStable(s: seq<MinterEntry>, c: nat)
    ensures WithCount(SortByCount(s), c) == WithCount(s, c)
  {
    if s != [] {
      SortByCountStable(s[..|s| - 1], c);
      InsertByCountStable(SortByCount(s[..|s| - 1]), Last(s), c);
    }
  }

  /** Where the inner loop of the in-place sort stops, inserting there is `InsertByCount`. */
  lemma {:induction false} InsertByCountAt(s: seq<MinterEntry>, x: MinterEntry, j: nat)
    requires j <= |s|
    requires j == 0 || s[j - 1].count >= x.count
    requires forall k :: j <= k < |s| ==> s[k].count < x.count
    ensures InsertByCount(s, x) == s[..j] + [x] + s[j..]
  {
    if j < |s| {
      var init := s[..|s| - 1];
      InsertByCountAt(init, x, j);
      assert init[..j] == s[..j];
      assert init[j..] + [Last(s)] == s[j..];
    } else if s != [] {
      assert s[..j] == s;
    }
  }

  /** One pass of the in-place sort: moves `a[i]` left past the entries of the sorted prefix
      `a[..i]` whose count is smaller. */
  method InsertAt(a: array<MinterEntry>, i: nat)
    requires i < a.Length
    modifies a
    ensures a[..i + 1] == InsertByCount(old(a[..i]), old(a[i]))
    ensures a[i + 1..] == old(a[i + 1..])
  {
    ghost var sorted := a[..i];
    var x := a[i];
    var j := i;
    while j > 0 && a[j - 1].count < x.count
      invariant 0 <= j <= i
      invariant forall k :: 0 <= k < j ==> a[k] == sorted[k]
      invariant forall k :: j < k <= i ==> a[k] == sorted[k - 1]
      invariant forall k :: i < k < a.Length ==> a[k] == old(a[k])
      invariant forall k :: j <= k < i ==> sorted[k].count < x.count
    {
      a[j] := a[j - 1];
      j := j - 1;
    }
    a[j] := x;
    InsertByCountAt(sorted, x, j);
    ghost var expected := sorted[..j] + [x] + sorted[j..];
    forall k | 0 <= k <= i
      ensures a[k] == expected[k]
    {
      if k > j {
        assert expected[k] == sorted[j..][k - j - 1] == sorted[k - 1];
      }
    }
    assert a[..i + 1] == expected;
  }

  /** In-place stable insertion sort of the minter list, highest count first. */
  method SortInPlace(a: array<MinterEntry>)
    modifies a
    ensures a[..] == SortByCount(old(a[..]))
  {
    ghost var input := a[..];
    var i := 0;
    while i < a.Length
      invariant 0 <= i <= a.Length
      invariant a[..i] == SortByCount(input[..i])
      invariant a[i..] == input[i..]
    {
      assert a[i] == input[i];
      InsertAt(a, i);
      assert input[..i + 1][..i] == input[..i];
      i := i + 1;
    }
    assert input[..i] == input && a[..i] == a[..];
  }

  /** The minter list `refreshMinters` shows for a scan that returned `events`. */
  function RankedMinters(events: seq<TransferEvent>): seq<MinterEntry>
  {
    SortByCount(Tally(events))
  }

  lemma {:induction false} TallyDistinct(events: seq<TransferEvent>)
    ensures forall k, l :: 0 <= k < l < |Tally(events)| ==> Tally(events)[k] != Tally(events)[l]
  {
    RecipientsSpec(events);
  }

  predicate Distinct(s: seq<MinterEntry>)
  {
    forall k, l :: 0 <= k < l < |s| ==> s[k] != s[l]
  }

  lemma {:induction false} InsertByCountDistinct(s: seq<MinterEntry>, x: MinterEntry)
    requires Distinct(s) && x !in s
    ensures Distinct(InsertByCount(s, x))
  {
    if s != [] && Last(s).count < x.count {
      var init := s[..|s| - 1];
      assert Last(s) !in init by {
        forall m | 0 <= m < |init| ensures init[m] != Last(s) {
          assert init[m] == s[m];
        }
      }
      assert x !in init by {
        forall m | 0 <= m < |init| ensures init[m] != x {
          assert init[m] == s[m];
        }
      }
      InsertByCountDistinct(init, x);
      InsertByCountMultiset(init, x);
      assert Last(s) !in multiset(InsertByCount(init, x));
    }
  }

  lemma {:induction false} SortByCountDistinct(s: seq<MinterEntry>)
    requires Distinct(s)
    ensures Distinct(SortByCount(s))
  {
    if s != [] {
      var init := s[..|s| - 1];
      assert Last(s) !in init by {
        forall m | 0 <= m < |init| ensures init[m] != Last(s) {
          assert init[m] == s[m];
        }
      }
      SortByCountDistinct(init);
      SortByCountPermutes(init);
      assert Last(s) !in multiset(SortByCount(init));
      InsertByCountDistinct(SortByCount(init), Last(s));
    }
  }

  /** The shown list: every recipient of a mint event is listed once with its number of mint
      events, no other address is listed, counts never increase down the list, and recipients
      with equal counts appear in first-appearance order. */
  lemma RankedMintersSpec(events: seq<TransferEvent>)
    ensures forall k :: 0 <= k < |RankedMinters(events)| ==>
              var e := RankedMinters(events)[k];
              e.address != "" && e.count == Occurrences(events, e.address) && e.count > 0
    ensures forall i :: 0 <= i < |events| && events[i].to != "" ==>
              exists k :: 0 <= k < |RankedMinters(events)| && RankedMinters(events)[k].address == events[i].to
    ensures forall k, l :: 0 <= k < l < |RankedMinters(events)| ==>
              RankedMinters(events)[k].address != RankedMinters(events)[l].address
    ensures NonIncreasing(RankedMinters(events))
    ensures forall c :: WithCount(RankedMinters(events), c) == WithCount(Tally(events), c)
  {
    var t := Tally(events);
    var r := RankedMinters(events);
    RecipientsSpec(events);
    SortByCountPermutes(t);
    SortByCountSorted(t);
    forall c { SortByCountStable(t, c); }
    TallyDistinct(events);
    SortByCountDistinct(t);
    forall k | 0 <= k < |r|
      ensures r[k].address != "" && r[k].count == Occurrences(events, r[k].address) && r[k].count > 0
    {
      assert r[k] in multiset(t);
      var m :| 0 <= m < |t| && t[m] == r[k];
      assert Recipients(events)[m] in Recipients(events);
      OccurrencesSpec(events, r[k].address);
    }
    forall i | 0 <= i < |events| && events[i].to != ""
      ensures exists k :: 0 <= k < |r| && r[k].address == events[i].to
    {
      var rs := Recipients(events);
      assert events[i].to in rs;
      var m :| 0 <= m < |rs| && rs[m] == events[i].to;
      assert t[m] in multiset(r);
      var k :| 0 <= k < |r| && r[k] == t[m];
    }
    forall k, l | 0 <= k < l < |r|
      ensures r[k].address != r[l].address
    {
      assert r[k] in multiset(t) && r[l] in multiset(t);
      var m1 :| 0 <= m1 < |t| && t[m1] == r[k];
      var m2 :| 0 <= m2 < |t| && t[m2] == r[l];
      assert r[k] != r[l];
    }
  }

  /** The example of three mints to A, B, A: A twice, then B once. */
  lemma AggregationExample()
    ensures RankedMinters([TransferEvent("A"), TransferEvent("B"), TransferEvent("A")]) ==
              [MinterEntry("A", 2), MinterEntry("B", 1)]
  {
    var ev := [TransferEvent("A"), TransferEvent("B"), TransferEvent("A")];
    assert ev[..2][..1] == [TransferEvent("A")];
    assert ev[..2] == [TransferEvent("A"), TransferEvent("B")];
    assert Recipients([TransferEvent("A")]) == ["A"];
    assert Recipients(ev[..2]) == ["A", "B"];
    assert Recipients(ev) == ["A", "B"];
    assert Occurrences(ev, "A") == 2;
    assert Occurrences(ev, "B") == 1;
    assert Tally(ev) == [MinterEntry("A", 2), MinterEntry("B", 1)];
    var t := Tally(ev);
    assert t[..1] == [MinterEntry("A", 2)];
    assert SortByCount([MinterEntry("A", 2)]) == [MinterEntry("A", 2)];
  }
}
