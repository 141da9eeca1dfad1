/** `WecSubscriptionInfo`: reads the event collector's registry
    configuration and derives, per subscription, how many of its event
    sources are active. A session is the opened `EventCollector` key and
    the global configuration-mode heartbeat table built when it is opened;
    after construction the source never changes either, so a session is a
    value here. Times are `DateTime` ticks (100 ns) on the file-time scale,
    and `now` is a parameter. */
module WecSubscription {
  import opened Wrappers
  import opened Seqs
  import opened Registry

  /** `SOFTWARE\Microsoft\Windows\CurrentVersion\EventCollector`, by component. */
  const BasePath: seq<string> := ["SOFTWARE", "Microsoft", "Windows", "CurrentVersion", "EventCollector"]

  const SubscriptionsKey: string := "Subscriptions"
  const EventSourcesKey: string := "EventSources"
  const ConfigurationModesKey: string := "ConfigurationModes"
  const HeartbeatIntervalValue: string := "HeartbeatInterval"
  const ConfigurationModeValue: string := "ConfigurationMode"
  const EnabledValue: string := "Enabled"
  const LastErrorValue: string := "LastError"
  const LastHeartbeatTimeValue: string := "LastHeartbeatTime"

  /** `TimeSpan.FromMilliseconds` in ticks. */
  const TicksPerMillisecond := 10000

  datatype Session = Session(base: Key, modes: map<string, Int32>)

  /** Why the constructor does not return: no usable `EventCollector` key
      (its `InvalidOperationException`), or a configuration-mode subkey that
      vanished while the table was built (a null key passed to
      `regReadDWORDValue`). */
  datatype OpenError = NoCollectorKey | ModeKeyVanished

  /** The outcome of building the global mode table: its return value and
      the table, or the exception of a vanished mode subkey. */
  datatype ModeLoad = ModeLoad(ok: bool, table: map<string, Int32>) | ModeReadThrows

  datatype Counts = Counts(total: nat, active: nat)

  /** `tryGetBaseRegistryConnection`: the `EventCollector` key of the
      64-bit local-machine hive (`None` when the hive cannot be opened),
      refused when it is missing or has no subkeys. */
  function Connect(hklm: Option<Key>): (r: Option<Key>)
    ensures r.Some? ==> hklm.Some? && OpenPath(hklm.value, BasePath) == r && SubKeyCount(r.value) > 0
    ensures hklm.Some? && OpenPath(hklm.value, BasePath).Some? && SubKeyCount(OpenPath(hklm.value, BasePath).value) > 0 ==> r.Some?
  {
    if hklm.None? then None
    else
      match OpenPath(hklm.value, BasePath)
      case None => None
      case Some(base) => if SubKeyCount(base) == 0 then None else Some(base)
  }

  /** The loop of `tryGetGlobalConfigurationHeartbeatValues` from `table`
      onwards: each mode with a DWORD `HeartbeatInterval` is inserted, or
      overwritten when already present; a listed mode that cannot be opened
      throws. */
  function ModeTableFrom(configModes: Key, names: seq<string>, table: map<string, Int32>): Option<map<string, Int32>> {
    if |names| == 0 then Some(table)
    else
      match SubKey(configModes, names[0])
      case None => None
      case Some(mode) =>
        var read := ReadDWord(mode, HeartbeatIntervalValue);
        ModeTableFrom(configModes, names[1..], if read.0 then table[names[0] := read.1] else table)
  }

  /** The loop fails exactly when some listed mode cannot be opened. */
  lemma {:induction false} ModeTableFromFails(configModes: Key, names: seq<string>, table: map<string, Int32>)
    ensures ModeTableFrom(configModes, names, table).None? <==> exists i :: 0 <= i < |names| && names[i] !in configModes.subkeys
  {
    if |names| > 0 {
      var read := if names[0] in configModes.subkeys then ReadDWord(configModes.subkeys[names[0]], HeartbeatIntervalValue) else (false, 0);
      ModeTableFromFails(configModes, names[1..], if read.0 then table[names[0] := read.1] else table);
      if names[0] in configModes.subkeys {
        if exists i :: 0 <= i < |names| && names[i] !in configModes.subkeys {
          var i :| 0 <= i < |names| && names[i] !in configModes.subkeys;
          assert names[1..][i - 1] == names[i];
        }
        if exists i :: 0 <= i < |names[1..]| && names[1..][i] !in configModes.subkeys {
          var i :| 0 <= i < |names[1..]| && names[1..][i] !in configModes.subkeys;
          assert names[i + 1] == names[1..][i];
        }
      }
    }
  }

  /** A mode has a heartbeat when its subkey holds a DWORD `HeartbeatInterval`. */
  predicate HasHeartbeat(configModes: Key, name: string) {
    name in configModes.subkeys && ReadDWord(configModes.subkeys[name], HeartbeatIntervalValue).0
  }

  /** When the loop completes, the table holds the starting entries and
      every listed mode with a heartbeat, with that mode's value. */
  lemma {:induction false} ModeTableFromEntries(configModes: Key, names: seq<string>, table: map<string, Int32>)
    requires ModeTableFrom(configModes, names, table).Some?
    ensures var t := ModeTableFrom(configModes, names, table).value;
      forall m :: m in t <==> m in table || (m in names && HasHeartbeat(configModes, m))
    ensures var t := ModeTableFrom(configModes, names, table).value;
      forall m :: m in t ==>
        t[m] == if m in names && HasHeartbeat(configModes, m)
                then ReadDWord(configModes.subkeys[m], HeartbeatIntervalValue).1
                else table[m]
  {
    if |names| > 0 {
      var read := ReadDWord(configModes.subkeys[names[0]], HeartbeatIntervalValue);
      var next := if read.0 then table[names[0] := read.1] else table;
      ModeTableFromEntries(configModes, names[1..], next);
      assert forall m :: m in names <==> m == names[0] || m in names[1..];
    }
  }

  /** `tryGetGlobalConfigurationHeartbeatValues` as a value: false with an
      empty table when `ConfigurationModes` is missing or has no subkeys. */
  function GlobalModes(base: Key): (r: ModeLoad)
    ensures r.ModeLoad? && !r.ok ==> r.table == map[]
    ensures r.ModeLoad? ==> (r.ok <==> ConfigurationModesKey in base.subkeys && SubKeyCount(base.subkeys[ConfigurationModesKey]) > 0)
  {
    match SubKey(base, ConfigurationModesKey)
    case None => ModeLoad(false, map[])
    case Some(configModes) =>
      if SubKeyCount(configModes) == 0 then ModeLoad(false, map[])
      else
        match ModeTableFrom(configModes, configModes.subkeyNames, map[])
        case None => ModeReadThrows
        case Some(table) => ModeLoad(true, table)
  }

  /** The table holds exactly the listed modes whose subkey has a DWORD
      `HeartbeatInterval`, each with that value; building it throws exactly
      when a listed mode subkey cannot be opened. */
  lemma GlobalModeTable(base: Key)
    requires ConfigurationModesKey in base.subkeys
    ensures var cm := base.subkeys[ConfigurationModesKey];
      GlobalModes(base).ModeReadThrows? <==> exists i :: 0 <= i < |cm.subkeyNames| && cm.subkeyNames[i] !in cm.subkeys
    ensures var cm := base.subkeys[ConfigurationModesKey]; var r := GlobalModes(base);
      r.ModeLoad? ==> forall m :: m in r.table <==> m in cm.subkeyNames && HasHeartbeat(cm, m)
    ensures var cm := base.subkeys[ConfigurationModesKey]; var r := GlobalModes(base);
      r.ModeLoad? ==> forall m :: m in r.table ==> r.table[m] == ReadDWord(cm.subkeys[m], HeartbeatIntervalValue).1
  {
    var cm := base.subkeys[ConfigurationModesKey];
    ModeTableFromFails(cm, cm.subkeyNames, map[]);
    if ModeTableFrom(cm, cm.subkeyNames, map[]).Some? {
      ModeTableFromEntries(cm, cm.subkeyNames, map[]);
    }
  }

  /** The loop of `tryGetGlobalConfigurationHeartbeatValues`, upserting
      into the table. */
  method LoadGlobalModes(base: Key) returns (r: ModeLoad)
    ensures r == GlobalModes(base)
  {
    var configModes := SubKey(base, ConfigurationModesKey);
    if configModes.None? {
      return ModeLoad(false, map[]);
    }
    var names := configModes.value.subkeyNames;
    if |names| == 0 {
      return ModeLoad(false, map[]);
    }
    var table: map<string, Int32> := map[];
    for i := 0 to |names|
      invariant ModeTableFrom(configModes.value, names[i..], table) == ModeTableFrom(configModes.value, names, map[])
    {
      var mode := SubKey(configModes.value, names[i]);
      if mode.None? {
        return ModeReadThrows;
      }
      assert names[i..][1..] == names[i + 1..];
      var read := ReadDWord(mode.value, HeartbeatIntervalValue);
      if read.0 {
        table := table[names[i] := read.1];
      }
    }
    return ModeLoad(true, table);
  }

  /** The constructor: fails when the connection is refused or the mode
      table throws; the mode table's own return value is ignored, so a
      session may start with an empty table. */
  function Open(hklm: Option<Key>): (r: Result<Session, OpenError>)
    ensures r.Success? <==> Connect(hklm).Some? && !GlobalModes(Connect(hklm).value).ModeReadThrows?
    ensures r.Success? ==> r.value.base == Connect(hklm).value && r.value.modes == GlobalModes(r.value.base).table
  {
    match Connect(hklm)
    case None => Failure(NoCollectorKey)
    case Some(base) =>
      match GlobalModes(base)
      case ModeReadThrows => Failure(ModeKeyVanished)
      case ModeLoad(_, table) => Success(Session(base, table))
  }

  /** A collector key without `ConfigurationModes` still opens, with an
      empty mode table. */
  lemma OpenWithoutModes(hklm: Option<Key>)
    requires Connect(hklm).Some? && ConfigurationModesKey !in Connect(hklm).value.subkeys
    ensures Open(hklm) == Success(Session(Connect(hklm).value, map[]))
  {
  }

  method OpenSession(hklm: Option<Key>) returns (r: Result<Session, OpenError>)
    ensures r == Open(hklm)
  {
    var base := Connect(hklm);
    if base.None? {
      return Failure(NoCollectorKey);
    }
    var modes := LoadGlobalModes(base.value);
    if modes.ModeReadThrows? {
      return Failure(ModeKeyVanished);
    }
    return Success(Session(base.value, modes.table));
  }

  /** `tryGetSubscriptionIsEnabled`: succeeds, and reports enabled, exactly
      when `Enabled` is the DWORD 1. */
  function IsEnabled(subscription: Key): (r: (bool, bool))
    ensures r.0 == r.1
    ensures r.1 <==> EnabledValue in subscription.values && subscription.values[EnabledValue] == DWord(1)
  {
    var read := ReadDWord(subscription, EnabledValue);
    if read.0 && read.1 == 1 then (true, true) else (false, false)
  }

  /** A listed subscription counts as enabled when its subkey opens and is enabled. */
  function EnabledTest(subscriptions: Key): string -> bool {
    name => name in subscriptions.subkeys && IsEnabled(subscriptions.subkeys[name]).1
  }

  /** `TryGetEnabledSubscriptions` as a value: `None` (false, null) when
      there is no `Subscriptions` key; otherwise the enabled subscriptions
      in enumeration order. */
  function EnabledSubscriptions(base: Key): (r: Option<seq<string>>)
    ensures r.None? <==> SubscriptionsKey !in base.subkeys
    ensures r.Some? ==> forall name :: name in r.value <==>
      name in base.subkeys[SubscriptionsKey].subkeyNames && EnabledTest(base.subkeys[SubscriptionsKey])(name)
  {
    match SubKey(base, SubscriptionsKey)
    case None => None
    case Some(subscriptions) => Some(Filter(subscriptions.subkeyNames, EnabledTest(subscriptions)))
  }

  /** The subscriptions loop: a subkey that vanished is skipped, an enabled
      one appended. */
  method TryGetEnabledSubscriptions(s: Session) returns (ok: bool, names: seq<string>)
    ensures ok == EnabledSubscriptions(s.base).Some?
    ensures names == EnabledSubscriptions(s.base).GetOr([])
  {
    var subscriptions := SubKey(s.base, SubscriptionsKey);
    if subscriptions.None? {
      return false, [];
    }
    var all := subscriptions.value.subkeyNames;
    ghost var p := EnabledTest(subscriptions.value);
    names := [];
    for i := 0 to |all|
      invariant names == Filter(all[..i], p)
    {
      assert all[..i + 1] == all[..i] + [all[i]];
      FilterAppend(all[..i], [all[i]], p);
      var key := SubKey(subscriptions.value, all[i]);
      if key.Some? {
        var enabled := IsEnabled(key.value);
        if enabled.0 && enabled.1 {
          names := names + [all[i]];
        }
      }
    }
    assert all[..|all|] == all;
    ok := true;
  }

  /** `tryGetSubscriptionSources`: the subkey names of `EventSources`, or
      `None` when it is missing. */
  function SubscriptionSources(subscription: Key): (r: Option<seq<string>>)
    ensures r.Some? <==> EventSourcesKey in subscription.subkeys
    ensures r.Some? ==> r.value == subscription.subkeys[EventSourcesKey].subkeyNames
  {
    match SubKey(subscription, EventSourcesKey)
    case None => None
    case Some(sources) => Some(sources.subkeyNames)
  }

  /** `tryGetSubscriptionHeartbeatInterval`: a DWORD `HeartbeatInterval` on
      the subscription wins; otherwise its string `ConfigurationMode` is
      looked up in the mode table; failure, with 0, when neither resolves. */
  function HeartbeatInterval(modes: map<string, Int32>, subscription: Key): (r: Option<Int32>)
    ensures ReadDWord(subscription, HeartbeatIntervalValue).0 ==>
      r == Some(subscription.values[HeartbeatIntervalValue].dword)
    ensures !ReadDWord(subscription, HeartbeatIntervalValue).0 ==>
      (r.Some? <==> ConfigurationModeValue in subscription.values && subscription.values[ConfigurationModeValue].Str?
                    && subscription.values[ConfigurationModeValue].text in modes)
    ensures !ReadDWord(subscription, HeartbeatIntervalValue).0 && r.Some? ==>
      r.value == modes[subscription.values[ConfigurationModeValue].text]
  {
    var custom := ReadDWord(subscription, HeartbeatIntervalValue);
    if custom.0 then Some(custom.1)
    else
      var mode := ReadString(subscription, ConfigurationModeValue);
      if mode.0 && mode.1 in modes then Some(modes[mode.1]) else None
  }

  /** A custom interval makes the mode table irrelevant. */
  lemma CustomIntervalWins(modes1: map<string, Int32>, modes2: map<string, Int32>, subscription: Key)
    requires HeartbeatIntervalValue in subscription.values && subscription.values[HeartbeatIntervalValue].DWord?
    ensures HeartbeatInterval(modes1, subscription) == HeartbeatInterval(modes2, subscription)
  {
  }

  /** The registry key of one subscription, `Subscriptions\<name>`. */
  function SubscriptionKey(base: Key, name: string): Option<Key> {
    OpenPath(base, [SubscriptionsKey, name])
  }

  /** The registry key of one source, `EventSources\<source>`. */
  function SourceKey(subscription: Key, source: string): Option<Key> {
    OpenPath(subscription, [EventSourcesKey, source])
  }

  /** A source reports an error when it has a non-zero DWORD `LastError`. */
  predicate ErrorReported(source: Key) {
    LastErrorValue in source.values && source.values[LastErrorValue].DWord? && source.values[LastErrorValue].dword != 0
  }

  predicate HasLastHeartbeat(source: Key) {
    LastHeartbeatTimeValue in source.values && source.values[LastHeartbeatTimeValue].QWord?
  }

  /** `tryGetSubscriptionSourceIsActive`: `None` when the source key is
      missing; otherwise whether the source is active. */
  function SourceActive(subscription: Key, source: string, interval: int, now: int): (r: Option<bool>)
    ensures r.None? <==> SourceKey(subscription, source).None?
    ensures r.Some? ==> var key := SourceKey(subscription, source).value;
      ErrorReported(key) ==> r == Some(false)
    ensures r.Some? ==> var key := SourceKey(subscription, source).value;
      !ErrorReported(key) && !HasLastHeartbeat(key) ==> r == Some(true)
    ensures r.Some? ==> var key := SourceKey(subscription, source).value;
      !ErrorReported(key) && HasLastHeartbeat(key) ==>
        (r == Some(true) <==> key.values[LastHeartbeatTimeValue].qword > now - interval * TicksPerMillisecond)
  {
    match SourceKey(subscription, source)
    case None => None
    case Some(key) =>
      var lastError := ReadDWord(key, LastErrorValue);
      if lastError.0 && lastError.1 != 0 then Some(false)
      else
        var heartbeat := ReadQWord(key, LastHeartbeatTimeValue);
        if !heartbeat.0 then Some(true)
        else Some(heartbeat.1 > now - interval * TicksPerMillisecond)
  }

  /** A heartbeat exactly one interval old is stale. */
  lemma HeartbeatBoundary(subscription: Key, source: string, interval: int, now: int)
    requires SourceKey(subscription, source).Some?
    requires var key := SourceKey(subscription, source).value;
      !ErrorReported(key) && HasLastHeartbeat(key) && key.values[LastHeartbeatTimeValue].qword == now - interval * TicksPerMillisecond
    ensures SourceActive(subscription, source, interval, now) == Some(false)
  {
  }

  /** The sources counted as active. */
  function ActiveTest(subscription: Key, interval: int, now: int): string -> bool {
    source => SourceActive(subscription, source, interval, now) == Some(true)
  }

  /** The sources whose key cannot be opened. */
  function MissingTest(subscription: Key): string -> bool {
    source => SourceKey(subscription, source).None?
  }

  /** `TryGetSubscriptionSourceCount` as a value: `None` (false, 0/0) when
      the subscription key or its `EventSources` is missing or its
      heartbeat interval cannot be resolved; otherwise every source counts
      in the total and the active ones in the active count. */
  function SourceCount(s: Session, name: string, now: int): (r: Option<Counts>)
    ensures SubscriptionKey(s.base, name).None? ==> r.None?
    ensures SubscriptionKey(s.base, name).Some? ==>
      var key := SubscriptionKey(s.base, name).value;
      (r.Some? <==> SubscriptionSources(key).Some? && HeartbeatInterval(s.modes, key).Some?)
    ensures r.Some? ==> r.value.active <= r.value.total
    ensures r.Some? ==> r.value.total == |SubscriptionSources(SubscriptionKey(s.base, name).value).value|
  {
    match SubscriptionKey(s.base, name)
    case None => None
    case Some(key) =>
      match SubscriptionSources(key)
      case None => None
      case Some(sources) =>
        match HeartbeatInterval(s.modes, key)
        case None => None
        case Some(interval) => Some(Counts(|sources|, Count(sources, ActiveTest(key, interval, now))))
  }

  /** Whatever order the sources are evaluated in, the counts are the same. */
  lemma ActiveCountOrder(subscription: Key, a: seq<string>, b: seq<string>, interval: int, now: int)
    requires multiset(a) == multiset(b)
    ensures Count(a, ActiveTest(subscription, interval, now)) == Count(b, ActiveTest(subscription, interval, now))
  {
    CountPermutation(a, b, ActiveTest(subscription, interval, now));
  }

  /** Sources whose key is missing count in the total but never as active. */
  lemma MissingSourcesInactive(subscription: Key, sources: seq<string>, interval: int, now: int)
    ensures Count(sources, ActiveTest(subscription, interval, now)) + Count(sources, MissingTest(subscription)) <= |sources|
  {
    CountDisjoint(sources, ActiveTest(subscription, interval, now), MissingTest(subscription));
  }

  /** A source listed under `EventSources` opens to its own key. */
  lemma SourceKeyAt(subscription: Key, sources: Key, source: string)
    requires EventSourcesKey in subscription.subkeys && subscription.subkeys[EventSourcesKey] == sources
    requires source in sources.subkeys
    ensures SourceKey(subscription, source) == Some(sources.subkeys[source])
  {
    OpenPathTwo(subscription, EventSourcesKey, source);
  }

  /** The sources of the example below, one at a time. */
  lemma ExampleLiveness(now: int, subscription: Key, sources: Key, a: Key, b: Key, c: Key)
    requires 0 <= now < 0x4000_0000_0000_0000
    requires subscription.subkeys == map[EventSourcesKey := sources]
    requires sources.subkeys == map["A" := a, "B" := b, "C" := c]
    requires a.values == map[LastHeartbeatTimeValue := QWord(now - 30000 * TicksPerMillisecond)]
    requires b.values == map[LastHeartbeatTimeValue := QWord(now - 90000 * TicksPerMillisecond)]
    requires c.values == map[LastErrorValue := DWord(5)]
    ensures var p := ActiveTest(subscription, 60000, now); p("A") && !p("B") && !p("C")
  {
    SourceKeyAt(subscription, sources, "A");
    assert SourceActive(subscription, "A", 60000, now) == Some(true);
    SourceKeyAt(subscription, sources, "B");
    assert SourceActive(subscription, "B", 60000, now) == Some(false);
    SourceKeyAt(subscription, sources, "C");
    assert ErrorReported(c);
  }

  /** A subscription with a 60 s heartbeat interval and three sources,
      one heartbeating 30 s ago, one 90 s ago and one reporting error 5,
      has one active source out of three. */
  lemma ThreeSourceExample(s: Session, name: string, now: int, subscription: Key, sources: Key, a: Key, b: Key, c: Key)
    requires 0 <= now < 0x4000_0000_0000_0000
    requires SubscriptionKey(s.base, name) == Some(subscription)
    requires subscription.values == map[HeartbeatIntervalValue := DWord(60000)]
    requires subscription.subkeys == map[EventSourcesKey := sources]
    requires sources.subkeyNames == ["A", "B", "C"]
    requires sources.subkeys == map["A" := a, "B" := b, "C" := c]
    requires a.values == map[LastHeartbeatTimeValue := QWord(now - 30000 * TicksPerMillisecond)]
    requires b.values == map[LastHeartbeatTimeValue := QWord(now - 90000 * TicksPerMillisecond)]
    requires c.values == map[LastErrorValue := DWord(5)]
    ensures SourceCount(s, name, now) == Some(Counts(3, 1))
  {
    var p := ActiveTest(subscription, 60000, now);
    ExampleLiveness(now, subscription, sources, a, b, c);
    CountThree(sources.subkeyNames, p);
    assert HeartbeatInterval(s.modes, subscription) == Some(60000);
  }

  /** The loop shared by both counting variants. */
  method CountSources(subscription: Key, sources: seq<string>, interval: int, now: int) returns (total: nat, active: nat)
    ensures total == |sources| && active == Count(sources, ActiveTest(subscription, interval, now))
  {
    ghost var p := ActiveTest(subscription, interval, now);
    total, active := 0, 0;
    for i := 0 to |sources|
      invariant total == i && active == Count(sources[..i], p)
    {
      assert sources[..i + 1][..i] == sources[..i];
      var isActive := SourceActive(subscription, sources[i], interval, now);
      if isActive.Some? && isActive.value {
        active := active + 1;
      }
      total := total + 1;
    }
    assert sources[..|sources|] == sources;
  }

  method TryGetSubscriptionSourceCount(s: Session, name: string, now: int) returns (ok: bool, total: nat, active: nat)
    ensures ok == SourceCount(s, name, now).Some?
    ensures Counts(total, active) == SourceCount(s, name, now).GetOr(Counts(0, 0))
  {
    var key := SubscriptionKey(s.base, name);
    if key.None? {
      return false, 0, 0;
    }
    var sources := SubscriptionSources(key.value);
    if sources.None? {
      return false, 0, 0;
    }
    var interval := HeartbeatInterval(s.modes, key.value);
    if interval.None? {
      return false, 0, 0;
    }
    total, active := CountSources(key.value, sources.value, interval.value, now);
    ok := true;
  }

  /** `TryGetSubscriptionSourceCount2`, the parallel variant, as a value:
      an empty source list fails, and an unresolvable heartbeat interval
      succeeds with 0/0 because that branch has no `else`. */
  function SourceCount2(s: Session, name: string, now: int): (r: (bool, Counts))
    ensures !r.0 ==> r.1 == Counts(0, 0)
    ensures r.1.active <= r.1.total
  {
    match SubscriptionKey(s.base, name)
    case None => (false, Counts(0, 0))
    case Some(key) =>
      match SubscriptionSources(key)
      case None => (false, Counts(0, 0))
      case Some(sources) =>
        if |sources| == 0 then (false, Counts(0, 0))
        else
          match HeartbeatInterval(s.modes, key)
          case None => (true, Counts(0, 0))
          case Some(interval) => (true, Counts(|sources|, Count(sources, ActiveTest(key, interval, now))))
  }

  /** The two variants agree except in two cases: an empty source list
      with a resolvable heartbeat interval, where only the sequential one
      succeeds, and an unresolvable interval with sources present, where
      only the parallel one does. An empty list without an interval makes
      both fail. */
  lemma CountVariants(s: Session, name: string, now: int)
    requires SubscriptionKey(s.base, name).Some?
    requires SubscriptionSources(SubscriptionKey(s.base, name).value).Some?
    ensures var key := SubscriptionKey(s.base, name).value;
      var sources := SubscriptionSources(key).value;
      if |sources| == 0 then
        SourceCount2(s, name, now) == (false, Counts(0, 0)) &&
        (HeartbeatInterval(s.modes, key).Some? ==> SourceCount(s, name, now) == Some(Counts(0, 0))) &&
        (HeartbeatInterval(s.modes, key).None? ==> SourceCount(s, name, now).None?)
      else if HeartbeatInterval(s.modes, key).None? then
        SourceCount2(s, name, now) == (true, Counts(0, 0)) && SourceCount(s, name, now).None?
      else
        SourceCount2(s, name, now) == (true, SourceCount(s, name, now).value)
  {
  }

  /** The locked increments make the parallel loop's counts those of a
      sequential fold. */
  method TryGetSubscriptionSourceCount2(s: Session, name: string, now: int) returns (ok: bool, total: nat, active: nat)
    ensures (ok, Counts(total, active)) == SourceCount2(s, name, now)
  {
    var key := SubscriptionKey(s.base, name);
    if key.None? {
      return false, 0, 0;
    }
    var sources := SubscriptionSources(key.value);
    if sources.None? || |sources.value| == 0 {
      return false, 0, 0;
    }
    total, active := 0, 0;
    var interval := HeartbeatInterval(s.modes, key.value);
    if interval.Some? {
      total, active := CountSources(key.value, sources.value, interval.value, now);
    }
    ok := true;
  }
}
