/** The service's use of `WecSubscriptionInfo`: at start it registers a
    pair of counters (active and total sources) for every enabled
    subscription, and on each timer tick, unless the previous enumeration
    is still running, it opens a fresh session and writes every enabled
    subscription's counts into its counters. Counter objects are left
    out: `registered` is the key set of the counter dictionary and
    `values` the raw values last written, by subscription. */
module CollectorMonitor {
  import opened Wrappers
  import opened Registry
  import opened WecSubscription

  /** The values a failed count publishes. */
  const NoCounts := Counts(0, 0)

  /** What the counters of `name` are set to. */
  function Published(s: Session, name: string, now: int): (c: Counts) {
    SourceCount(s, name, now).GetOr(NoCounts)
  }

  /** A subscription never publishes more active than total sources, and
      publishes 0/0 when its counts cannot be determined. */
  lemma PublishedBounded(s: Session, name: string, now: int)
    ensures Published(s, name, now).active <= Published(s, name, now).total
    ensures SourceCount(s, name, now).None? ==> Published(s, name, now) == NoCounts
  {
  }

  /** The subscriptions registered at start: the enabled ones, or none
      when there is no `Subscriptions` key. */
  function EnabledAtStart(s: Session): seq<string> {
    EnabledSubscriptions(s.base).GetOr([])
  }

  /** `values` after the counts of the first `k` of `names` have been
      written in order. */
  function Populated(values: map<string, Counts>, s: Session, names: seq<string>, k: nat, now: int): map<string, Counts>
    requires k <= |names|
  {
    if k == 0 then values
    else Populated(values, s, names, k - 1, now)[names[k - 1] := Published(s, names[k - 1], now)]
  }

  /** Every written subscription holds its own counts; every other entry
      is untouched. */
  lemma {:induction false} PopulatedEntries(values: map<string, Counts>, s: Session, names: seq<string>, k: nat, now: int)
    requires k <= |names|
    ensures var r := Populated(values, s, names, k, now);
      forall n :: n in r <==> n in values || n in names[..k]
    ensures var r := Populated(values, s, names, k, now);
      forall n :: n in r ==> r[n] == if n in names[..k] then Published(s, n, now) else values[n]
  {
    if k > 0 {
      PopulatedEntries(values, s, names, k - 1, now);
      assert names[..k] == names[..k - 1] + [names[k - 1]];
      assert forall n :: n in names[..k] <==> n in names[..k - 1] || n == names[k - 1];
    }
  }

  /** How many enabled subscriptions are written before the first one that
      was not registered at start, whose dictionary lookup throws. */
  function FirstUnregistered(names: seq<string>, registered: set<string>): (k: nat)
    ensures k <= |names|
    ensures forall i :: 0 <= i < k ==> names[i] in registered
    ensures k < |names| ==> names[k] !in registered
  {
    if |names| == 0 || names[0] !in registered then 0
    else 1 + FirstUnregistered(names[1..], registered)
  }

  /** The counter values after an enumeration that was not skipped: an
      unusable session changes nothing; otherwise the enabled subscriptions
      up to the first unregistered one are written. */
  function AfterEnumeration(registered: set<string>, values: map<string, Counts>, hklm: Option<Key>, now: int): map<string, Counts> {
    match Open(hklm)
    case Failure(_) => values
    case Success(s) =>
      match EnabledSubscriptions(s.base)
      case None => values
      case Some(names) => Populated(values, s, names, FirstUnregistered(names, registered), now)
  }

  /** Counters are only written for registered subscriptions, and every
      value written has no more active than total sources. */
  lemma EnumerationKeepsCounters(registered: set<string>, values: map<string, Counts>, hklm: Option<Key>, now: int)
    requires values.Keys <= registered
    requires forall n :: n in values ==> values[n].active <= values[n].total
    ensures var r := AfterEnumeration(registered, values, hklm, now);
      r.Keys <= registered && forall n :: n in r ==> r[n].active <= r[n].total
  {
    if Open(hklm).Success? && EnabledSubscriptions(Open(hklm).value.base).Some? {
      var s := Open(hklm).value;
      var names := EnabledSubscriptions(s.base).value;
      var k := FirstUnregistered(names, registered);
      PopulatedEntries(values, s, names, k, now);
      forall n | n in names[..k] {
        PublishedBounded(s, n, now);
      }
    }
  }

  /** When every enabled subscription was registered, each of them holds
      its current counts after the enumeration. */
  lemma EnumerationWritesAll(registered: set<string>, values: map<string, Counts>, hklm: Option<Key>, now: int)
    requires Open(hklm).Success? && EnabledSubscriptions(Open(hklm).value.base).Some?
    requires forall n :: n in EnabledSubscriptions(Open(hklm).value.base).value ==> n in registered
    ensures var s := Open(hklm).value; var r := AfterEnumeration(registered, values, hklm, now);
      forall n :: n in EnabledSubscriptions(s.base).value ==> n in r && r[n] == Published(s, n, now)
  {
    var s := Open(hklm).value;
    var names := EnabledSubscriptions(s.base).value;
    var k := FirstUnregistered(names, registered);
    assert names[..k] == names;
    PopulatedEntries(values, s, names, k, now);
  }

  class Monitor {
    /** The subscriptions with counters. */
    var registered: set<string>
    /** The raw values last written to each subscription's counters. */
    var values: map<string, Counts>
    /** `subscriptionEnumRunning`. */
    var enumRunning: bool

    predicate Valid()
      reads this
    {
      values.Keys <= registered && forall n :: n in values ==> values[n].active <= values[n].total
    }

    constructor()
      ensures registered == {} && values == map[] && !enumRunning
      ensures Valid()
    {
      registered := {};
      values := map[];
      enumRunning := false;
    }

    /** The counter registration at start. A session that cannot be opened
        aborts the start (false); otherwise every enabled subscription is
        added, an existing entry replaced, and nothing else changes. */
    method RegisterSubscriptions(hklm: Option<Key>) returns (ok: bool)
      modifies this
      ensures ok == Open(hklm).Success?
      ensures registered == if ok then old(registered) + set n | n in EnabledAtStart(Open(hklm).value) else old(registered)
      ensures values == old(values) && enumRunning == old(enumRunning)
      ensures old(Valid()) ==> Valid()
    {
      var session := OpenSession(hklm);
      if session.Failure? {
        return false;
      }
      var found, names := TryGetEnabledSubscriptions(session.value);
      ghost var r0 := registered;
      for i := 0 to |names|
        invariant registered == r0 + set n | n in names[..i]
        invariant values == old(values) && enumRunning == old(enumRunning)
      {
        assert forall n :: n in names[..i + 1] <==> n in names[..i] || n == names[i];
        registered := registered + {names[i]};
      }
      assert names[..|names|] == names;
      ok := true;
    }

    /** `populateEventCollectorValues`: the counts of a registered
        subscription, or 0/0 when they cannot be determined. */
    method Populate(s: Session, name: string, now: int)
      requires name in registered
      modifies this
      ensures values == old(values)[name := Published(s, name, now)]
      ensures registered == old(registered) && enumRunning == old(enumRunning)
      ensures old(Valid()) ==> Valid()
    {
      PublishedBounded(s, name, now);
      var ok, total, active := TryGetSubscriptionSourceCount(s, name, now);
      if ok {
        values := values[name := Counts(total, active)];
      } else {
        values := values[name := Counts(0, 0)];
      }
    }

    /** `_epsTimer_Elapsed2`. A tick during a running enumeration does
        nothing; otherwise the flag is raised, the enumeration runs, and the
        `finally` lowers the flag whatever happened. */
    method Tick(hklm: Option<Key>, now: int)
      modifies this
      ensures old(enumRunning) ==> registered == old(registered) && values == old(values) && enumRunning
      ensures !old(enumRunning) ==>
        !enumRunning && registered == old(registered) && values == AfterEnumeration(old(registered), old(values), hklm, now)
      ensures old(Valid()) ==> Valid()
    {
      if enumRunning {
        return;
      }
      enumRunning := true;
      Enumerate(hklm, now);
      enumRunning := false;
    }

    /** The body of the `try`: the session's constructor may fail, and a
        lookup of an unregistered subscription throws out of the loop. */
    method Enumerate(hklm: Option<Key>, now: int)
      modifies this
      ensures registered == old(registered) && enumRunning == old(enumRunning)
      ensures values == AfterEnumeration(old(registered), old(values), hklm, now)
      ensures old(Valid()) ==> Valid()
    {
      var session := OpenSession(hklm);
      if session.Failure? {
        return;
      }
      var s := session.value;
      var found, names := TryGetEnabledSubscriptions(s);
      if !found {
        return;
      }
      PopulateEach(s, names, now);
    }

    /** The parallel loop over the enabled subscriptions, run in order: it
        stops at the first subscription without counters. */
    method PopulateEach(s: Session, names: seq<string>, now: int)
      modifies this
      ensures registered == old(registered) && enumRunning == old(enumRunning)
      ensures values == Populated(old(values), s, names, FirstUnregistered(names, old(registered)), now)
      ensures old(Valid()) ==> Valid()
    {
      var registeredAtStart := registered;
      ghost var k := FirstUnregistered(names, registeredAtStart);
      var i := 0;
      while i < |names| && names[i] in registeredAtStart
        invariant i <= k
        invariant values == Populated(old(values), s, names, i, now)
        invariant registered == registeredAtStart && enumRunning == old(enumRunning)
        invariant old(Valid()) ==> Valid()
      {
        Populate(s, names[i], now);
        i := i + 1;
      }
    }
  }
}
