/** The events-per-second sampler: the parallel channel lists built at
    start-up and the interval-timer handler that reads each channel's newest
    record id, publishes the rate of change, and drops channels whose reads
    fail. */
module EpsSampler {
  import opened Wrappers
  import opened Seqs
  import opened Strings
  import opened InstanceName
  import opened Bookmark
  import opened ChannelList

  /** The smallest sampling interval the service accepts, in milliseconds. */
  const MinIntervalMs := 1000
  /** The interval the service starts with before the setting is read. */
  const DefaultIntervalMs := 1000

  /** What asking the event-log session about a channel gives: its record
      count (possibly unknown) or an exception, which nothing catches. */
  datatype LogInfo = LogInfo(recordCount: Option<int>) | LogInfoThrows

  /** What reading the newest event through a channel's query gives: an
      event with its bookmark, no event at all (whose bookmark access then
      throws), one of the event-log exceptions the handler catches, or any
      other exception. */
  datatype ReadResult = EventRead(bookmark: Option<string>) | NoEvent | ReadFails | ReaderThrows

  /** The effect of one loop iteration of the handler. */
  datatype ChannelOutcome = Sampled(current: nat) | Quarantined | Aborted

  /** One iteration: `GetLogInformation` throwing aborts the tick; a
      channel without records samples 0; otherwise the read event's bookmark
      gives the id (0 for a null bookmark), a caught event-log exception
      quarantines the channel, and a missing event or any other exception
      aborts the tick. */
  function Outcome(info: string -> LogInfo, read: string -> ReadResult, name: string, query: string): (o: ChannelOutcome)
    ensures o.Sampled? ==> o.current < ULongLimit
    ensures o.Quarantined? <==> info(name).LogInfo? && info(name).recordCount.GetOr(0) > 0 && read(query).ReadFails?
    ensures o.Aborted? <==>
      info(name).LogInfoThrows? || (info(name).recordCount.GetOr(0) > 0 && (read(query).NoEvent? || read(query).ReaderThrows?))
    ensures info(name).LogInfo? && info(name).recordCount.GetOr(0) <= 0 ==> o == Sampled(0)
    ensures info(name).LogInfo? && info(name).recordCount.GetOr(0) > 0 && read(query).EventRead? ==>
      o == Sampled(BookmarkRecordId(read(query).bookmark))
  {
    match info(name)
    case LogInfoThrows => Aborted
    case LogInfo(count) =>
      if count.GetOr(0) <= 0 then Sampled(0)
      else
        match read(query)
        case EventRead(bookmark) => Sampled(BookmarkRecordId(bookmark))
        case ReadFails => Quarantined
        case NoEvent => Aborted
        case ReaderThrows => Aborted
  }

  /** Events per second between two record ids: the unsigned 64-bit
      difference scaled by the interval. */
  function Eps(current: nat, previous: nat, intervalMs: int): int
    requires intervalMs > 0
  {
    ((current - previous) % ULongLimit) * 1000 / intervalMs
  }

  /** The sampler's state: the four lists the loader fills in lockstep,
      the values published to each counter slot, and the two flags. */
  datatype SamplerState = SamplerState(
    names: seq<string>,
    instances: seq<string>,
    recordIds: seq<nat>,
    queries: seq<string>,
    published: map<nat, int>,
    firstRun: bool,
    running: bool,
    intervalMs: int)

  /** The channel list may only be shorter than the lists indexed beside
      it: removal shortens it alone. */
  predicate Aligned(s: SamplerState) {
    |s.names| <= |s.recordIds| && |s.recordIds| == |s.queries| == |s.instances|
  }

  /** Aligned lists, distinct channel names, and unsigned 64-bit ids. */
  predicate Valid(s: SamplerState) {
    && Aligned(s)
    && NoDuplicates(s.names)
    && (forall i :: 0 <= i < |s.recordIds| ==> s.recordIds[i] < ULongLimit)
  }

  /** The outcome of every iteration of one run over the channel list,
      each channel read through the query at its index. */
  function Outcomes(s: SamplerState, info: string -> LogInfo, read: string -> ReadResult): (r: seq<ChannelOutcome>)
    requires |s.names| <= |s.queries|
    ensures |r| == |s.names|
  {
    MapPairs(s.names, s.queries, (name, query) => Outcome(info, read, name, query), |s.names|)
  }

  /** Iteration `i` reads channel `i` through query `i`. */
  lemma OutcomesAt(s: SamplerState, info: string -> LogInfo, read: string -> ReadResult, i: nat)
    requires i < |s.names| <= |s.queries|
    ensures Outcomes(s, info, read)[i] == Outcome(info, read, s.names[i], s.queries[i])
  {
    MapPairsAt(s.names, s.queries, (name, query) => Outcome(info, read, name, query), |s.names|, i);
  }

  /** Every sampled id is an unsigned 64-bit value. */
  lemma OutcomesBounded(s: SamplerState, info: string -> LogInfo, read: string -> ReadResult)
    requires |s.names| <= |s.queries|
    ensures forall i :: 0 <= i < |s.names| && Outcomes(s, info, read)[i].Sampled? ==> Outcomes(s, info, read)[i].current < ULongLimit
  {
    forall i | 0 <= i < |s.names| {
      OutcomesAt(s, info, read, i);
    }
  }

  /** Index of the first aborting iteration, or the number of channels. */
  function FirstAbort(outs: seq<ChannelOutcome>): (k: nat)
    ensures k <= |outs|
    ensures forall i :: 0 <= i < k ==> !outs[i].Aborted?
    ensures k < |outs| ==> outs[k].Aborted?
  {
    if |outs| == 0 || outs[0].Aborted? then 0 else 1 + FirstAbort(outs[1..])
  }

  /** None of the first `k` iterations aborts. */
  predicate RunsPast(outs: seq<ChannelOutcome>, k: nat)
    requires k <= |outs|
  {
    k == 0 || (RunsPast(outs, k - 1) && !outs[k - 1].Aborted?)
  }

  lemma {:induction false} RunsPastAll(outs: seq<ChannelOutcome>, k: nat)
    requires k <= |outs| && RunsPast(outs, k)
    ensures forall j :: 0 <= j < k ==> !outs[j].Aborted?
  {
    if k > 0 {
      RunsPastAll(outs, k - 1);
    }
  }

  /** The first abort is the first index that aborts, or the end. */
  lemma FirstAbortAt(outs: seq<ChannelOutcome>, k: nat)
    requires k <= |outs| && RunsPast(outs, k)
    requires k < |outs| ==> outs[k].Aborted?
    ensures FirstAbort(outs) == k
  {
    RunsPastAll(outs, k);
  }

  /** The id list after the first `k` iterations: each sampled iteration
      stores its id in its own slot. */
  function IdsAfter(ids: seq<nat>, outs: seq<ChannelOutcome>, k: nat): (r: seq<nat>)
    requires k <= |outs| <= |ids|
    ensures |r| == |ids|
  {
    if k == 0 then ids
    else
      var before := IdsAfter(ids, outs, k - 1);
      if outs[k - 1].Sampled? then before[k - 1 := outs[k - 1].current] else before
  }

  /** Slot `i` holds the id sampled by iteration `i` if it ran and sampled,
      and its old id otherwise. */
  lemma {:induction false} IdsAfterEntries(ids: seq<nat>, outs: seq<ChannelOutcome>, k: nat)
    requires k <= |outs| <= |ids|
    ensures forall i :: 0 <= i < |ids| ==>
      IdsAfter(ids, outs, k)[i] == if i < k && outs[i].Sampled? then outs[i].current else ids[i]
  {
    if k > 0 {
      IdsAfterEntries(ids, outs, k - 1);
    }
  }

  /** The slots of the iterations still to run are untouched. */
  lemma {:induction false} IdsAfterUntouched(ids: seq<nat>, outs: seq<ChannelOutcome>, k: nat, i: nat)
    requires k <= i < |ids| && k <= |outs| <= |ids|
    ensures IdsAfter(ids, outs, k)[i] == ids[i]
  {
    if k > 0 {
      IdsAfterUntouched(ids, outs, k - 1, i);
    }
  }

  /** The published values after the first `k` iterations of a run that
      publishes: each sampled iteration writes the rate against the id its
      slot held when the run began. */
  function PublishedAfter(published: map<nat, int>, ids: seq<nat>, outs: seq<ChannelOutcome>, k: nat, intervalMs: int): map<nat, int>
    requires k <= |outs| <= |ids| && intervalMs > 0
  {
    if k == 0 then published
    else
      var before := PublishedAfter(published, ids, outs, k - 1, intervalMs);
      if outs[k - 1].Sampled? then before[k - 1 := Eps(outs[k - 1].current, ids[k - 1], intervalMs)] else before
  }

  /** Slot `i` is published by iteration `i` if it ran and sampled, and
      keeps its old value otherwise. */
  lemma {:induction false} PublishedAfterEntries(published: map<nat, int>, ids: seq<nat>, outs: seq<ChannelOutcome>, k: nat, intervalMs: int)
    requires k <= |outs| <= |ids| && intervalMs > 0
    ensures var r := PublishedAfter(published, ids, outs, k, intervalMs);
      forall i: nat :: i in r <==> i in published || (i < k && outs[i].Sampled?)
    ensures var r := PublishedAfter(published, ids, outs, k, intervalMs);
      forall i: nat :: i in r ==>
        r[i] == if i < k && outs[i].Sampled? then Eps(outs[i].current, ids[i], intervalMs) else published[i]
  {
    if k > 0 {
      PublishedAfterEntries(published, ids, outs, k - 1, intervalMs);
    }
  }

  function PublishedBy(s: SamplerState, outs: seq<ChannelOutcome>, k: nat): map<nat, int>
    requires k <= |outs| <= |s.recordIds| && s.intervalMs > 0
  {
    if s.firstRun then s.published else PublishedAfter(s.published, s.recordIds, outs, k, s.intervalMs)
  }

  /** The names quarantined by the first `k` iterations, in list order. */
  function Quarantine(names: seq<string>, outs: seq<ChannelOutcome>, k: nat): seq<string>
    requires k <= |names| && k <= |outs|
  {
    if k == 0 then []
    else Quarantine(names, outs, k - 1) + if outs[k - 1].Quarantined? then [names[k - 1]] else []
  }

  /** One run of the interval-timer handler. */
  function AfterTick(s: SamplerState, info: string -> LogInfo, read: string -> ReadResult): (r: SamplerState)
    requires Aligned(s) && s.intervalMs > 0
    ensures Aligned(r)
    ensures r.instances == s.instances && r.queries == s.queries && r.intervalMs == s.intervalMs
  {
    if s.running then s
    else
      var outs := Outcomes(s, info, read);
      var k := FirstAbort(outs);
      var ids := IdsAfter(s.recordIds, outs, k);
      var published := PublishedBy(s, outs, k);
      if k < |outs| then
        s.(recordIds := ids, published := published, running := true)
      else
        s.(names := RemoveEach(s.names, Quarantine(s.names, outs, |outs|)), recordIds := ids, published := published,
           firstRun := false, running := false)
  }

  /** A run keeps the state valid: removal keeps the name list free of
      duplicates and no longer than the lists beside it, and every stored
      id is a 64-bit value. */
  lemma TickValid(s: SamplerState, info: string -> LogInfo, read: string -> ReadResult)
    requires Valid(s) && s.intervalMs > 0
    ensures Valid(AfterTick(s, info, read))
  {
    if !s.running {
      var outs := Outcomes(s, info, read);
      var k := FirstAbort(outs);
      IdsAfterEntries(s.recordIds, outs, k);
      OutcomesBounded(s, info, read);
      if k == |outs| {
        var bad := Quarantine(s.names, outs, |outs|);
        RemoveEachDistinct(s.names, bad);
        WithoutNoDuplicates(s.names, bad);
      }
    }
  }

  /** The state after the first `k` iterations of a run that has not
      aborted. */
  function Mid(s: SamplerState, outs: seq<ChannelOutcome>, k: nat): SamplerState
    requires k <= |outs| <= |s.recordIds| && s.intervalMs > 0
  {
    s.(recordIds := IdsAfter(s.recordIds, outs, k), published := PublishedBy(s, outs, k))
  }

  lemma AbortedTick(s: SamplerState, info: string -> LogInfo, read: string -> ReadResult, k: nat)
    requires Valid(s) && s.intervalMs > 0 && !s.running
    requires k == FirstAbort(Outcomes(s, info, read)) < |s.names|
    ensures var outs := Outcomes(s, info, read);
      AfterTick(s, info, read) ==
        s.(recordIds := IdsAfter(s.recordIds, outs, k), published := PublishedBy(s, outs, k), running := true)
  {
  }

  lemma CompletedTick(s: SamplerState, info: string -> LogInfo, read: string -> ReadResult)
    requires Valid(s) && s.intervalMs > 0 && !s.running
    requires FirstAbort(Outcomes(s, info, read)) == |s.names|
    ensures var outs := Outcomes(s, info, read);
      AfterTick(s, info, read) ==
        s.(names := RemoveEach(s.names, Quarantine(s.names, outs, |s.names|)),
           recordIds := IdsAfter(s.recordIds, outs, |s.names|), published := PublishedBy(s, outs, |s.names|),
           firstRun := false, running := false)
  {
  }

  /** Whether some iteration of the handler throws out of it. */
  predicate Aborts(s: SamplerState, info: string -> LogInfo, read: string -> ReadResult)
    requires |s.names| <= |s.queries|
  {
    exists i :: 0 <= i < |s.names| && Outcomes(s, info, read)[i].Aborted?
  }

  lemma AbortsFirst(s: SamplerState, info: string -> LogInfo, read: string -> ReadResult)
    requires |s.names| <= |s.queries|
    ensures Aborts(s, info, read) <==> FirstAbort(Outcomes(s, info, read)) < |s.names|
  {
  }

  /** A run that starts while another is in progress changes nothing.
      Otherwise the flag stays set exactly when an iteration threw, and then
      the channel list and the first-run flag are as before; a run that
      completes clears both flags; the first run publishes nothing. */
  lemma TickFlags(s: SamplerState, info: string -> LogInfo, read: string -> ReadResult)
    requires Valid(s) && s.intervalMs > 0
    ensures s.running ==> AfterTick(s, info, read) == s
    ensures !s.running ==>
      var r := AfterTick(s, info, read);
      && (r.running <==> Aborts(s, info, read))
      && (Aborts(s, info, read) ==> r.names == s.names && r.firstRun == s.firstRun)
      && (!Aborts(s, info, read) ==> !r.firstRun)
      && (s.firstRun ==> r.published == s.published)
  {
    if !s.running {
      AbortsFirst(s, info, read);
      var k := FirstAbort(Outcomes(s, info, read));
      if k < |s.names| {
        AbortedTick(s, info, read, k);
      } else {
        CompletedTick(s, info, read);
      }
    }
  }

  /** A channel sampled before any abort stores its new record id and,
      after the first run, publishes its rate in its own counter slot. */
  lemma SampledChannel(s: SamplerState, info: string -> LogInfo, read: string -> ReadResult, i: nat)
    requires Valid(s) && s.intervalMs > 0 && !s.running
    requires i < FirstAbort(Outcomes(s, info, read)) && Outcomes(s, info, read)[i].Sampled?
    ensures var r := AfterTick(s, info, read); var current := Outcomes(s, info, read)[i].current;
      && r.recordIds[i] == current
      && (!s.firstRun ==> i in r.published && r.published[i] == Eps(current, s.recordIds[i], s.intervalMs))
  {
    var outs := Outcomes(s, info, read);
    var k := FirstAbort(outs);
    IdsAfterEntries(s.recordIds, outs, k);
    PublishedAfterEntries(s.published, s.recordIds, outs, k, s.intervalMs);
    if k < |s.names| {
      AbortedTick(s, info, read, k);
    } else {
      CompletedTick(s, info, read);
    }
  }

  /** A channel that reports no records is sampled as 0 without being
      read. */
  lemma EmptyChannel(info: string -> LogInfo, read: string -> ReadResult, other: string -> ReadResult, name: string, query: string)
    requires info(name).LogInfo? && info(name).recordCount.GetOr(0) <= 0
    ensures Outcome(info, read, name, query) == Outcome(info, other, name, query) == Sampled(0)
  {
  }

  /** A channel with records whose newest event has a bookmark is sampled
      at the bookmark's record id. */
  lemma ReadChannelOutcome(info: string -> LogInfo, read: string -> ReadResult, name: string, query: string, bookmark: string)
    requires info(name).LogInfo? && info(name).recordCount.GetOr(0) > 0
    requires read(query) == EventRead(Some(bookmark))
    ensures Outcome(info, read, name, query) == Sampled(RecordIdOf(bookmark))
  {
  }

  /** Without wrap-around the rate is the id difference per second. */
  lemma EpsForward(current: nat, previous: nat, intervalMs: int)
    requires previous <= current < ULongLimit && intervalMs > 0
    ensures Eps(current, previous, intervalMs) == (current - previous) * 1000 / intervalMs
  {
  }

  /** A record id below the previous one (a cleared log) is not clamped:
      the unsigned difference wraps around. */
  lemma EpsBackward(current: nat, previous: nat, intervalMs: int)
    requires current < previous < ULongLimit && intervalMs > 0
    ensures Eps(current, previous, intervalMs) == (ULongLimit - (previous - current)) * 1000 / intervalMs
  {
    assert (current - previous) % ULongLimit == ULongLimit - (previous - current);
  }

  /** The quarantine list holds the names of exactly the quarantined
      iterations. */
  lemma {:induction false} QuarantineMembers(names: seq<string>, outs: seq<ChannelOutcome>, k: nat)
    requires k <= |names| && k <= |outs|
    ensures forall j :: 0 <= j < k && outs[j].Quarantined? ==> names[j] in Quarantine(names, outs, k)
    ensures forall x :: x in Quarantine(names, outs, k) ==> exists j :: 0 <= j < k && names[j] == x && outs[j].Quarantined?
  {
    if k > 0 {
      QuarantineMembers(names, outs, k - 1);
    }
  }

  /** After a completed run, exactly the channels whose read failed are
      gone from the list, the others keeping their order; the failed
      channel keeps its old record id and its counter is not written. */
  lemma QuarantinedChannels(s: SamplerState, info: string -> LogInfo, read: string -> ReadResult)
    requires Valid(s) && s.intervalMs > 0 && !s.running && !Aborts(s, info, read)
    ensures var r := AfterTick(s, info, read); var outs := Outcomes(s, info, read);
      && r.names == Without(s.names, Quarantine(s.names, outs, |s.names|))
      && (forall j :: 0 <= j < |s.names| ==> (s.names[j] in r.names <==> !outs[j].Quarantined?))
      && (forall j :: 0 <= j < |s.names| && outs[j].Quarantined? ==>
            r.recordIds[j] == s.recordIds[j] && (j in r.published <==> j in s.published)
            && (j in s.published ==> r.published[j] == s.published[j]))
  {
    var outs := Outcomes(s, info, read);
    var bad := Quarantine(s.names, outs, |s.names|);
    AbortsFirst(s, info, read);
    CompletedTick(s, info, read);
    RemoveEachDistinct(s.names, bad);
    QuarantineMembers(s.names, outs, |s.names|);
    IdsAfterEntries(s.recordIds, outs, |s.names|);
    PublishedAfterEntries(s.published, s.recordIds, outs, |s.names|, s.intervalMs);
  }

  /** Removal shortens only the name list: after channel 0 of two is
      dropped, the remaining channel sits at index 0 and is from then on
      read through channel 0's query, keeps its id in channel 0's slot and
      publishes to channel 0's counter instance. */
  lemma IndexDrift(s: SamplerState, info: string -> LogInfo, read: string -> ReadResult,
                   info2: string -> LogInfo, read2: string -> ReadResult)
    requires Valid(s) && s.intervalMs > 0 && !s.running && |s.names| == 2
    requires Outcomes(s, info, read)[0].Quarantined? && Outcomes(s, info, read)[1].Sampled?
    ensures var r := AfterTick(s, info, read);
      && r.names == [s.names[1]]
      && r.queries == s.queries && r.instances == s.instances
      && Outcomes(r, info2, read2)[0] == Outcome(info2, read2, s.names[1], s.queries[0])
  {
    var outs := Outcomes(s, info, read);
    assert FirstAbort(outs) == 2;
    CompletedTick(s, info, read);
    assert Quarantine(s.names, outs, 2) == [s.names[0]] by {
      assert Quarantine(s.names, outs, 1) == [s.names[0]];
    }
    assert s.names == [s.names[0]] + [s.names[1]];
    assert s.names[0] != s.names[1];
    OutcomesAt(AfterTick(s, info, read), info2, read2, 0);
  }

  lemma {:induction false} QuarantineNone(names: seq<string>, outs: seq<ChannelOutcome>, k: nat)
    requires k <= |names| && k <= |outs| && forall j :: 0 <= j < k ==> !outs[j].Quarantined?
    ensures Quarantine(names, outs, k) == []
  {
    if k > 0 {
      QuarantineNone(names, outs, k - 1);
    }
  }

  lemma TwoOutcomes(s: SamplerState, info: string -> LogInfo, read: string -> ReadResult, bookmark: string, id: nat)
    requires |s.names| == 2 && s.queries == s.names
    requires info(s.names[0]) == LogInfo(Some(1)) && info(s.names[1]) == LogInfo(Some(0))
    requires read(s.names[0]) == EventRead(Some(bookmark)) && RecordIdOf(bookmark) == id
    ensures Outcomes(s, info, read) == [Sampled(id), Sampled(0)]
  {
    OutcomesOfTwo(s, info, read);
    ReadChannelOutcome(info, read, s.names[0], s.queries[0], bookmark);
    EmptyChannel(info, read, read, s.names[1], s.queries[1]);
  }

  lemma OutcomesOfTwo(s: SamplerState, info: string -> LogInfo, read: string -> ReadResult)
    requires |s.names| == 2 <= |s.queries|
    ensures Outcomes(s, info, read) ==
      [Outcome(info, read, s.names[0], s.queries[0]), Outcome(info, read, s.names[1], s.queries[1])]
  {
    OutcomesAt(s, info, read, 0);
    OutcomesAt(s, info, read, 1);
  }

  lemma TwoSamples(published: map<nat, int>, ids: seq<nat>, a: nat, b: nat, intervalMs: int)
    requires |ids| == 2 && intervalMs > 0
    ensures IdsAfter(ids, [Sampled(a), Sampled(b)], 2) == [a, b]
    ensures PublishedAfter(published, ids, [Sampled(a), Sampled(b)], 2, intervalMs) ==
      published[0 := Eps(a, ids[0], intervalMs)][1 := Eps(b, ids[1], intervalMs)]
  {
    var outs := [Sampled(a), Sampled(b)];
    assert IdsAfter(ids, outs, 1) == [a, ids[1]];
    assert PublishedAfter(published, ids, outs, 1, intervalMs) == published[0 := Eps(a, ids[0], intervalMs)];
  }

  /** One run over two channels that are both sampled, the first at
      record `id` and the second at 0. */
  lemma TwoChannelTick(s: SamplerState, info: string -> LogInfo, read: string -> ReadResult, id: nat)
    requires Valid(s) && s.intervalMs == 1000 && !s.running && |s.names| == |s.recordIds| == 2
    requires Outcomes(s, info, read) == [Sampled(id), Sampled(0)]
    ensures AfterTick(s, info, read) ==
      s.(recordIds := [id, 0],
         published := if s.firstRun then s.published
                      else s.published[0 := Eps(id, s.recordIds[0], 1000)][1 := Eps(0, s.recordIds[1], 1000)],
         firstRun := false)
  {
    var outs := [Sampled(id), Sampled(0)];
    FirstAbortAt(outs, 2);
    CompletedTick(s, info, read);
    QuarantineNone(s.names, outs, 2);
    assert RemoveEach(s.names, []) == s.names;
    TwoSamples(s.published, s.recordIds, id, 0, 1000);
  }

  /** The first run of the scenario below stores record id 10 and
      publishes nothing. */
  lemma FirstTick(s0: SamplerState, info: string -> LogInfo, read: string -> ReadResult, b10: string)
    requires Valid(s0) && s0.names == s0.queries && |s0.names| == 2
    requires s0.recordIds == [0, 0] && s0.published == map[]
    requires s0.firstRun && !s0.running && s0.intervalMs == 1000
    requires info(s0.names[0]) == LogInfo(Some(1)) && info(s0.names[1]) == LogInfo(Some(0))
    requires read(s0.names[0]) == EventRead(Some(b10)) && RecordIdOf(b10) == 10
    ensures AfterTick(s0, info, read) == s0.(recordIds := [10, 0], firstRun := false)
  {
    TwoOutcomes(s0, info, read, b10, 10);
    TwoChannelTick(s0, info, read, 10);
  }

  /** The second run of the scenario below stores record id 15 and
      publishes 5 and 0. */
  lemma SecondTick(s1: SamplerState, info: string -> LogInfo, read: string -> ReadResult, b15: string)
    requires Valid(s1) && s1.names == s1.queries && |s1.names| == 2
    requires s1.recordIds == [10, 0] && s1.published == map[]
    requires !s1.firstRun && !s1.running && s1.intervalMs == 1000
    requires info(s1.names[0]) == LogInfo(Some(1)) && info(s1.names[1]) == LogInfo(Some(0))
    requires read(s1.names[0]) == EventRead(Some(b15)) && RecordIdOf(b15) == 15
    ensures AfterTick(s1, info, read) == s1.(recordIds := [15, 0], published := map[0 := 5, 1 := 0])
  {
    TwoOutcomes(s1, info, read, b15, 15);
    TwoChannelTick(s1, info, read, 15);
    assert Eps(15, 10, 1000) == 5 && Eps(0, 0, 1000) == 0;
  }

  /** Two channels, one with record ids 10 and then 15, the other empty,
      sampled once a second: the first run publishes nothing, the second
      publishes 5 and 0. */
  lemma TwoChannelScenario(s0: SamplerState, info: string -> LogInfo, read1: string -> ReadResult,
                           read2: string -> ReadResult, b10: string, b15: string)
    requires Valid(s0) && s0.names == s0.queries && |s0.names| == 2
    requires s0.recordIds == [0, 0] && s0.published == map[]
    requires s0.firstRun && !s0.running && s0.intervalMs == 1000
    requires info(s0.names[0]) == LogInfo(Some(1)) && info(s0.names[1]) == LogInfo(Some(0))
    requires read1(s0.names[0]) == EventRead(Some(b10)) && RecordIdOf(b10) == 10
    requires read2(s0.names[0]) == EventRead(Some(b15)) && RecordIdOf(b15) == 15
    ensures var s1 := AfterTick(s0, info, read1);
      && s1.recordIds == [10, 0] && s1.published == map[] && !s1.firstRun && !s1.running
      && var s2 := AfterTick(s1, info, read2);
      && s2.recordIds == [15, 0] && s2.published == map[0 := 5, 1 := 0] && s2.names == s0.names
  {
    FirstTick(s0, info, read1, b10);
    TickValid(s0, info, read1);
    SecondTick(AfterTick(s0, info, read1), info, read2, b15);
  }

  /** The counter instance names for added channels. */
  function InstancesFor(names: seq<string>): (r: seq<string>)
    ensures |r| == |names|
  {
    seq(|names|, i requires 0 <= i < |names| => Scrub(names[i]))
  }

  /** The initial record ids for added channels. */
  function Zeros(n: nat): (r: seq<nat>)
    ensures |r| == n && forall i :: 0 <= i < n ==> r[i] == 0 < ULongLimit
  {
    seq(n, i requires 0 <= i < n => 0)
  }

  /** The state after appending the channels `added`: each gets its name,
      its scrubbed counter instance, a zero record id and its query. */
  function Extend(s: SamplerState, added: seq<string>): SamplerState {
    s.(names := s.names + added, instances := s.instances + InstancesFor(added),
       recordIds := s.recordIds + Zeros(|added|), queries := s.queries + added)
  }

  lemma ExtendTwice(s: SamplerState, a: seq<string>, b: seq<string>)
    ensures Extend(Extend(s, a), b) == Extend(s, a + b)
  {
    assert InstancesFor(a + b) == InstancesFor(a) + InstancesFor(b);
    assert Zeros(|a| + |b|) == Zeros(|a|) + Zeros(|b|);
  }

  /** Appending distinct new channels keeps the state valid. */
  lemma ExtendValid(s: SamplerState, added: seq<string>)
    requires Valid(s) && NoDuplicates(s.names + added)
    ensures Valid(Extend(s, added))
  {
  }

  /** The sampler as the service holds it: the lists are separate fields,
      so removing a channel from the name list leaves the others alone. */
  class Sampler {
    var channelNames: seq<string>
    var instances: seq<string>
    var recordIds: seq<nat>
    var queries: seq<string>
    var published: map<nat, int>
    var firstRun: bool
    var running: bool
    var intervalMs: int

    function State(): SamplerState
      reads this
    {
      SamplerState(channelNames, instances, recordIds, queries, published, firstRun, running, intervalMs)
    }

    constructor ()
      ensures State() == SamplerState([], [], [], [], map[], true, false, DefaultIntervalMs)
      ensures Valid(State())
    {
      channelNames, instances, recordIds, queries := [], [], [], [];
      published := map[];
      firstRun, running := true, false;
      intervalMs := DefaultIntervalMs;
    }

    /** Considers one trimmed piece of the setting: an eligible name not
        yet listed is appended to the four lists in lockstep. */
    method ConsiderChannel(name: string, isChannel: string -> bool)
      modifies this
      ensures State() == Extend(old(State()), Added(old(channelNames), name, isChannel))
    {
      if |name| > 0 && isChannel(name) && name !in channelNames {
        channelNames := channelNames + [name];
        instances := instances + [Scrub(name)];
        recordIds := recordIds + [0];
        queries := queries + [name];
      }
    }

    /** Reads the channel setting: a missing setting fails start-up;
        otherwise every eligible new name is appended to the name list,
        with its scrubbed counter instance, a zero record id and its query
        appended to the lists beside it. */
    method LoadChannels(config: Option<string>, isChannel: string -> bool) returns (ok: bool)
      requires Valid(State())
      modifies this
      ensures ok == config.Some?
      ensures !ok ==> State() == old(State())
      ensures ok ==>
        State() == Extend(old(State()), KeepAll(old(channelNames), Candidates(config.value), isChannel)[|old(channelNames)|..])
      ensures Valid(State())
    {
      if config.None? {
        return false;
      }
      var pieces := Split(config.value, ';');
      ConsiderPieces(pieces, isChannel);
      ok := true;
    }

    /** The loop over the pieces of the setting. */
    method ConsiderPieces(pieces: seq<string>, isChannel: string -> bool)
      requires Valid(State())
      modifies this
      ensures State() == Extend(old(State()), KeepAll(old(channelNames), Trimmed(pieces), isChannel)[|old(channelNames)|..])
      ensures Valid(State())
    {
      ghost var s0 := State();
      ghost var added: seq<string> := [];
      ghost var cands: seq<string> := [];
      for i := 0 to |pieces|
        invariant cands == Trimmed(pieces[..i])
        invariant KeepAll(s0.names, cands, isChannel) == s0.names + added
        invariant State() == Extend(s0, added)
      {
        var name := Trim(pieces[i]);
        TrimmedStep(pieces, i);
        KeepAllStep(s0.names, cands, name, isChannel);
        ghost var step := Added(channelNames, name, isChannel);
        ConsiderChannel(name, isChannel);
        ExtendTwice(s0, added, step);
        added := added + step;
        cands := cands + [name];
      }
      assert pieces[..|pieces|] == pieces;
      assert (s0.names + added)[|s0.names|..] == added;
      KeepAllNoDuplicates(s0.names, cands, isChannel);
      ExtendValid(s0, added);
    }

    /** Reads the interval setting: an unparsable value becomes 0, and any
        value below the minimum fails start-up. */
    method SetInterval(setting: Option<int>) returns (ok: bool)
      modifies this
      ensures intervalMs == setting.GetOr(0)
      ensures ok <==> setting.Some? && setting.value >= MinIntervalMs
      ensures channelNames == old(channelNames) && instances == old(instances)
      ensures recordIds == old(recordIds) && queries == old(queries)
      ensures published == old(published) && firstRun == old(firstRun) && running == old(running)
    {
      intervalMs := setting.GetOr(0);
      ok := setting.Some? && intervalMs >= MinIntervalMs;
    }

    /** The reads of one loop iteration: the record count, and when it is
        positive the newest event through the channel's query and the
        record id in its bookmark. */
    static method ReadChannel(info: string -> LogInfo, read: string -> ReadResult, name: string, query: string)
      returns (outcome: ChannelOutcome)
      ensures outcome == Outcome(info, read, name, query)
    {
      var current := 0;
      var logInfo := info(name);
      if logInfo.LogInfoThrows? {
        return Aborted;
      }
      if logInfo.recordCount.GetOr(0) > 0 {
        var result := read(query);
        if result.ReadFails? {
          return Quarantined;
        } else if !result.EventRead? {
          return Aborted;
        }
        current := GetEventBookmarkId(result.bookmark);
      }
      return Sampled(current);
    }

    /** One iteration of the handler's loop: reads channel `i` and, unless
        the iteration quarantines the channel or aborts the handler, stores
        the new record id and (after the first run) publishes the rate. */
    method SampleChannel(i: nat, info: string -> LogInfo, read: string -> ReadResult) returns (outcome: ChannelOutcome)
      requires i < |channelNames| <= |recordIds| == |queries| && intervalMs > 0
      modifies this
      ensures channelNames == old(channelNames) && instances == old(instances) && queries == old(queries)
      ensures firstRun == old(firstRun) && running == old(running) && intervalMs == old(intervalMs)
      ensures outcome == Outcome(info, read, channelNames[i], queries[i])
      ensures recordIds == if outcome.Sampled? then old(recordIds)[i := outcome.current] else old(recordIds)
      ensures published ==
        if outcome.Sampled? && !firstRun then old(published)[i := Eps(outcome.current, old(recordIds)[i], intervalMs)]
        else old(published)
    {
      var previous := recordIds[i];
      outcome := ReadChannel(info, read, channelNames[i], queries[i]);
      if outcome.Sampled? {
        recordIds := recordIds[i := outcome.current];
        var eps := Eps(outcome.current, previous, intervalMs);
        if !firstRun {
          published := published[i := eps];
        }
      }
    }

    /** One iteration of the handler's loop, in terms of the outcomes of
        the whole run: after iteration `k` the stored ids, the published
        values and the quarantine list are those of the first `k + 1`
        outcomes. */
    method SampleNext(k: nat, info: string -> LogInfo, read: string -> ReadResult, badBefore: seq<string>,
                      ghost s0: SamplerState, ghost outs: seq<ChannelOutcome>)
      returns (outcome: ChannelOutcome, bad: seq<string>)
      requires k < |s0.names| <= |s0.recordIds| == |s0.queries| && s0.intervalMs > 0 && outs == Outcomes(s0, info, read)
      requires State() == Mid(s0, outs, k) && badBefore == Quarantine(s0.names, outs, k)
      modifies this
      ensures outcome == outs[k]
      ensures outcome.Aborted? ==> State() == old(State())
      ensures !outcome.Aborted? ==>
        State() == Mid(s0, outs, k + 1) && bad == Quarantine(s0.names, outs, k + 1)
    {
      IdsAfterUntouched(s0.recordIds, outs, k, k);
      OutcomesAt(s0, info, read, k);
      outcome := SampleChannel(k, info, read);
      bad := badBefore;
      if !outcome.Aborted? {
        if outcome.Quarantined? {
          bad := bad + [channelNames[k]];
        }
      }
    }

    /** The handler's loop over the channel list: returns the index of
        the iteration that aborted the handler (the number of channels if
        none did) and the names quarantined on the way. */
    method SampleAll(info: string -> LogInfo, read: string -> ReadResult) returns (k: nat, bad: seq<string>)
      requires |channelNames| <= |recordIds| == |queries| && intervalMs > 0
      modifies this
      ensures var outs := Outcomes(old(State()), info, read);
        && k == FirstAbort(outs)
        && State() == Mid(old(State()), outs, k)
        && (k == |outs| ==> bad == Quarantine(old(channelNames), outs, k))
    {
      ghost var s0 := State();
      ghost var outs := Outcomes(s0, info, read);
      bad := [];
      k := 0;
      while k < |channelNames|
        invariant k <= |s0.names| && State() == Mid(s0, outs, k)
        invariant RunsPast(outs, k) && bad == Quarantine(s0.names, outs, k)
      {
        var outcome;
        outcome, bad := SampleNext(k, info, read, bad, s0, outs);
        if outcome.Aborted? {
          // the exception leaves the handler here
          FirstAbortAt(outs, k);
          return;
        }
        k := k + 1;
      }
      FirstAbortAt(outs, k);
    }

    /** Removes each quarantined name from the channel list, first
        occurrence only, leaving the lists beside it untouched. */
    method RemoveChannels(bad: seq<string>)
      modifies this
      ensures channelNames == RemoveEach(old(channelNames), bad)
      ensures instances == old(instances) && recordIds == old(recordIds) && queries == old(queries)
      ensures published == old(published) && firstRun == old(firstRun) && running == old(running)
      ensures intervalMs == old(intervalMs)
    {
      for j := 0 to |bad|
        invariant channelNames == RemoveEach(old(channelNames), bad[..j])
        invariant instances == old(instances) && recordIds == old(recordIds) && queries == old(queries)
        invariant published == old(published) && firstRun == old(firstRun) && running == old(running)
        invariant intervalMs == old(intervalMs)
      {
        assert bad[..j + 1][..j] == bad[..j];
        channelNames := RemoveFirst(channelNames, bad[j]);
      }
      assert bad[..|bad|] == bad;
    }

    /** The interval-timer handler. */
    method Tick(info: string -> LogInfo, read: string -> ReadResult)
      requires Valid(State()) && intervalMs >= MinIntervalMs
      modifies this
      ensures State() == AfterTick(old(State()), info, read)
    {
      if running {
        return;
      }
      ghost var s0 := State();
      running := true;
      var k, bad := SampleAll(info, read);
      if k < |channelNames| {
        AbortedTick(s0, info, read, k);
        return;
      }
      firstRun := false;
      RemoveChannels(bad);
      running := false;
      CompletedTick(s0, info, read);
    }
  }
}
