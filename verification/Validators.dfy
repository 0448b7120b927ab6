/** Change detection for validators and their committee memberships. */
module Validators {
  import opened Encoding
  import opened Tables
  import opened ChangeDetection
  import opened Chain

  // ================================================================ comparing committee lists

  function Members<T(==)>(s: seq<T>): set<T> { set x | x in s }

  predicate CommitteesMatch(a: seq<U64>, b: seq<U64>) {
    |a| == |b| && forall c :: c in b ==> c in a
  }

  method EqualCommittees(a: seq<U64>, b: seq<U64>) returns (equal: bool)
    ensures equal == CommitteesMatch(a, b)
  {
    if |a| != |b| {
      return false;
    }
    var aMap: set<U64> := {};
    for i := 0 to |a|
      invariant aMap == Members(a[..i])
    {
      aMap := aMap + {a[i]};
    }
    assert a[..|a|] == a;
    for i := 0 to |b|
      invariant forall c :: c in b[..i] ==> c in a
    {
      if b[i] !in aMap {
        return false;
      }
    }
    return true;
  }

  lemma {:induction false} MembersCount<T>(s: seq<T>)
    ensures |Members(s)| <= |s|
    ensures Distinct(s) ==> |Members(s)| == |s|
  {
    if s != [] {
      var n := |s| - 1;
      MembersCount(s[..n]);
      assert Members(s) == Members(s[..n]) + {s[n]};
    }
  }

  /** Equal lengths and inclusion one way are enough, by counting, once the second list repeats nothing. */
  lemma MatchMeansSameSet(a: seq<U64>, b: seq<U64>)
    requires Distinct(b)
    ensures CommitteesMatch(a, b) ==> Members(a) == Members(b)
    ensures Distinct(a) ==> (CommitteesMatch(a, b) <==> Members(a) == Members(b))
  {
    MembersCount(a);
    MembersCount(b);
    if CommitteesMatch(a, b) {
      assert Members(b) <= Members(a);
      assert |Members(a) - Members(b)| == |Members(a)| - |Members(b)|;
      assert Members(a) == Members(b) + (Members(a) - Members(b));
    }
    assert forall c :: c in a <==> c in Members(a);
    assert forall c :: c in b <==> c in Members(b);
  }

  /** Replacing one of two equal ids of the second list by a new one gives a different committee set that passes as equal. */
  lemma RepetitionHidesChange(b: seq<U64>, i: nat, j: nat, x: U64)
    requires i < j < |b| && b[i] == b[j] && x !in b
    ensures CommitteesMatch(b[j := x], b) && Members(b[j := x]) != Members(b)
  {
    var a := b[j := x];
    forall c | c in b ensures c in a {
      var k :| 0 <= k < |b| && b[k] == c;
      assert a[if k == j then i else k] == c;
    }
    assert a[j] == x && x in Members(a) && x !in Members(b);
  }

  lemma {:induction false} CountBelow(s: set<U64>, n: nat)
    requires n <= TWO64 && forall x: U64 :: x < n ==> x in s
    ensures |s| >= n
  {
    if n > 0 {
      var last: U64 := n - 1;
      CountBelow(s - {last}, n - 1);
    }
  }

  /** No list of fewer than 2^64 ids holds them all. */
  lemma SomeIdIsNew(b: seq<U64>) returns (x: U64)
    requires |b| < TWO64
    ensures x !in b
  {
    MembersCount(b);
    if forall y: U64 :: y in b {
      CountBelow(Members(b), TWO64);
      assert false;
    }
    x :| x !in b;
  }

  /**
   The comparison tells every change of the committee set against a previous list exactly when that list
   repeats no id.
   */
  lemma ComparisonIsExact(b: seq<U64>)
    requires |b| < TWO64
    ensures (forall a: seq<U64> :: CommitteesMatch(a, b) ==> Members(a) == Members(b)) <==> Distinct(b)
  {
    if Distinct(b) {
      forall a: seq<U64> | CommitteesMatch(a, b) ensures Members(a) == Members(b) {
        MatchMeansSameSet(a, b);
      }
    } else {
      var i: nat, j: nat :| i < j < |b| && b[i] == b[j];
      var x := SomeIdIsNew(b);
      RepetitionHidesChange(b, i, j, x);
    }
  }

  // ================================================================ lifecycle events

  predicate IsLifecycle(e: Event) {
    e.eventType.AutoPause? || e.eventType.AutoBeginUnstaking? || e.eventType.Slash? || e.eventType.Reward?
  }

  /** The validators a block's lifecycle events speak of. */
  function LifecycleAddresses(events: seq<Event>): set<string> {
    set e | e in events && IsLifecycle(e) && |e.address| > 0 :: Hex(e.address)
  }

  /** The addresses with an event of one type. */
  function AddressesOf(events: seq<Event>, kind: EventType): set<string> {
    set e | e in events && e.eventType == kind && |e.address| > 0 :: Hex(e.address)
  }

  lemma AddressesStep(events: seq<Event>, i: nat, kind: EventType)
    requires i < |events|
    ensures AddressesOf(events[..i + 1], kind) ==
            AddressesOf(events[..i], kind) + if events[i].eventType == kind && |events[i].address| > 0 then {Hex(events[i].address)} else {}
  {
    assert events[..i + 1] == events[..i] + [events[i]];
  }

  lemma LifecycleIsFourKinds(events: seq<Event>)
    ensures LifecycleAddresses(events) == AddressesOf(events, AutoPause) + AddressesOf(events, AutoBeginUnstaking) +
                                          AddressesOf(events, Slash) + AddressesOf(events, Reward)
  {
  }

  method ParseValidatorLifecycleEvents(events: seq<Event>)
    returns (pause: set<string>, beginUnstaking: set<string>, slash: set<string>, reward: set<string>)
    ensures pause == AddressesOf(events, AutoPause) && beginUnstaking == AddressesOf(events, AutoBeginUnstaking)
    ensures slash == AddressesOf(events, Slash) && reward == AddressesOf(events, Reward)
  {
    pause, beginUnstaking, slash, reward := {}, {}, {}, {};
    for i := 0 to |events|
      invariant pause == AddressesOf(events[..i], AutoPause) && beginUnstaking == AddressesOf(events[..i], AutoBeginUnstaking)
      invariant slash == AddressesOf(events[..i], Slash) && reward == AddressesOf(events[..i], Reward)
    {
      var e := events[i];
      AddressesStep(events, i, AutoPause);
      AddressesStep(events, i, AutoBeginUnstaking);
      AddressesStep(events, i, Slash);
      AddressesStep(events, i, Reward);
      if !IsLifecycle(e) {
        continue;
      }
      if |e.address| == 0 {
        continue;
      }
      var address := Hex(e.address);
      match e.eventType
      case AutoPause => pause := pause + {address};
      case AutoBeginUnstaking => beginUnstaking := beginUnstaking + {address};
      case Slash => slash := slash + {address};
      case Reward => reward := reward + {address};
    }
    assert events[..|events|] == events;
  }

  // ================================================================ validators

  datatype Status = Active | Paused | Unstaking

  datatype ValidatorRow = ValidatorRow(publicKey: string, netAddress: string, stakedAmount: U64, maxPausedHeight: U64,
                                       unstakingHeight: U64, output: string, delegate: bool, compound: bool, status: Status)

  datatype MemberRow = MemberRow(stakedAmount: U64, status: Status, delegate: bool, compound: bool,
                                 subsidized: bool, retired: bool)

  /** What change detection follows for one validator: its row, and the committees its member rows are written for. */
  datatype Tracked = Tracked(row: ValidatorRow, committees: seq<U64>)

  function DeriveStatus(v: Validator): Status {
    if v.unstakingHeight > 0 then Unstaking else if v.maxPausedHeight > 0 then Paused else Active
  }

  function ToTracked(v: Validator): Tracked {
    Tracked(ValidatorRow(Hex(v.publicKey), v.netAddress, v.stakedAmount, v.maxPausedHeight, v.unstakingHeight,
                         Hex(v.output), v.delegate, v.compound, DeriveStatus(v)),
            v.committees)
  }

  function ValidatorEntry(v: Validator): (string, Tracked) { (Hex(v.address), ToTracked(v)) }

  predicate SameValidator(cur: Tracked, prev: Tracked) {
    && cur.row.stakedAmount == prev.row.stakedAmount
    && cur.row.publicKey == prev.row.publicKey
    && cur.row.netAddress == prev.row.netAddress
    && cur.row.maxPausedHeight == prev.row.maxPausedHeight
    && cur.row.unstakingHeight == prev.row.unstakingHeight
    && cur.row.output == prev.row.output
    && cur.row.delegate == prev.row.delegate
    && cur.row.compound == prev.row.compound
    && CommitteesMatch(cur.committees, prev.committees)
  }

  function ValidatorColumns(t: Tracked): ValidatorRow { t.row }

  function MemberEntry(address: string, t: Tracked, subsidized: set<U64>, retired: set<U64>): U64 -> ((nat, string), MemberRow) {
    (c: U64) => ((c, address), MemberRow(t.row.stakedAmount, t.row.status, t.row.delegate, t.row.compound,
                                         c in subsidized, c in retired))
  }

  /** The member rows written for a list of changed validators. */
  function MemberRows(changed: seq<(string, Tracked)>, subsidized: set<U64>, retired: set<U64>): seq<((nat, string), MemberRow)> {
    if changed == [] then []
    else
      var x := changed[|changed| - 1];
      MemberRows(changed[..|changed| - 1], subsidized, retired) +
      Map(MemberEntry(x.0, x.1, subsidized, retired), x.1.committees)
  }

  method UnequalFields(curr: Validator, prev: Validator) returns (differs: bool)
    ensures differs <==> !SameValidator(ToTracked(curr), ToTracked(prev))
  {
    var committeesEqual := EqualCommittees(curr.committees, prev.committees);
    differs := curr.stakedAmount != prev.stakedAmount ||
               Hex(curr.publicKey) != Hex(prev.publicKey) ||
               curr.netAddress != prev.netAddress ||
               curr.maxPausedHeight != prev.maxPausedHeight ||
               curr.unstakingHeight != prev.unstakingHeight ||
               Hex(curr.output) != Hex(prev.output) ||
               curr.delegate != prev.delegate ||
               curr.compound != prev.compound ||
               !committeesEqual;
  }

  method MemberBatch(address: string, curr: Validator, subsidized: set<U64>, retired: set<U64>)
    returns (members: seq<((nat, string), MemberRow)>)
    ensures members == Map(MemberEntry(address, ToTracked(curr), subsidized, retired), curr.committees)
  {
    var status := if curr.unstakingHeight > 0 then Unstaking else if curr.maxPausedHeight > 0 then Paused else Active;
    members := [];
    for i := 0 to |curr.committees|
      invariant members == Map(MemberEntry(address, ToTracked(curr), subsidized, retired), curr.committees[..i])
    {
      MapStep(MemberEntry(address, ToTracked(curr), subsidized, retired), curr.committees, i);
      var c := curr.committees[i];
      members := members + [((c as nat, address), MemberRow(curr.stakedAmount, status, curr.delegate, curr.compound,
                                                            c in subsidized, c in retired))];
    }
    assert curr.committees[..|curr.committees|] == curr.committees;
  }

  lemma ValidatorStep(current: seq<Validator>, i: nat, before: map<string, Tracked>, forced: set<string>,
                      subsidized: set<U64>, retired: set<U64>)
    requires i < |current|
    ensures var x := ValidatorEntry(current[i]);
            var done := Emit(Map(ValidatorEntry, current[..i]), before, forced, SameValidator);
            var next := Emit(Map(ValidatorEntry, current[..i + 1]), before, forced, SameValidator);
            if Changed(x, before, forced, SameValidator) then
              && next == done + [x]
              && Project(ValidatorColumns, next) == Project(ValidatorColumns, done) + [(x.0, x.1.row)]
              && MemberRows(next, subsidized, retired) ==
                 MemberRows(done, subsidized, retired) + Map(MemberEntry(x.0, x.1, subsidized, retired), x.1.committees)
            else next == done
  {
    var x := ValidatorEntry(current[i]);
    MapStep(ValidatorEntry, current, i);
    EmitSnoc(Map(ValidatorEntry, current[..i]), x, before, forced, SameValidator);
    var done := Emit(Map(ValidatorEntry, current[..i]), before, forced, SameValidator);
    assert (done + [x])[..|done|] == done;
  }

  /** The lookup map of the previous state. */
  method IndexPreviousValidators(previous: seq<Validator>) returns (prevMap: map<string, Validator>)
    ensures Mirrors(prevMap, Collect(Map(ValidatorEntry, previous)), ToTracked)
  {
    prevMap := map[];
    for i := 0 to |previous|
      invariant Mirrors(prevMap, Collect(Map(ValidatorEntry, previous[..i])), ToTracked)
    {
      IndexStep(prevMap, ValidatorEntry, ToTracked, previous, i);
      prevMap := prevMap[Hex(previous[i].address) := previous[i]];
    }
    assert previous[..|previous|] == previous;
  }

  method ConvertValidators(current: seq<Validator>, previous: seq<Validator>, events: seq<Event>,
                           subsidizedCommittees: seq<U64>, retiredCommittees: seq<U64>)
    returns (validators: seq<(string, ValidatorRow)>, members: seq<((nat, string), MemberRow)>)
    ensures var changed := Emit(Map(ValidatorEntry, current), Collect(Map(ValidatorEntry, previous)),
                                LifecycleAddresses(events), SameValidator);
            && validators == Project(ValidatorColumns, changed)
            && members == MemberRows(changed, Members(subsidizedCommittees), Members(retiredCommittees))
  {
    var prevMap := IndexPreviousValidators(previous);
    ghost var before := Collect(Map(ValidatorEntry, previous));

    var pause, beginUnstaking, slash, reward := ParseValidatorLifecycleEvents(events);
    LifecycleIsFourKinds(events);
    ghost var forced := LifecycleAddresses(events);
    var subsidizedMap, retiredMap := Members(subsidizedCommittees), Members(retiredCommittees);

    validators, members := [], [];
    ghost var emitted: seq<(string, Tracked)> := [];
    for i := 0 to |current|
      invariant emitted == Emit(Map(ValidatorEntry, current[..i]), before, forced, SameValidator)
      invariant validators == Project(ValidatorColumns, emitted)
      invariant members == MemberRows(emitted, subsidizedMap, retiredMap)
    {
      var curr := current[i];
      var address := Hex(curr.address);
      var hasEvent := address in pause || address in beginUnstaking || address in slash || address in reward;
      var changed := hasEvent;
      if address !in prevMap {
        changed := true;
      } else if !hasEvent {
        changed := UnequalFields(curr, prevMap[address]);
      }
      assert changed == Changed(ValidatorEntry(curr), before, forced, SameValidator);
      ValidatorStep(current, i, before, forced, subsidizedMap, retiredMap);
      if changed {
        var batch := MemberBatch(address, curr, subsidizedMap, retiredMap);
        validators := validators + [(address, ToTracked(curr).row)];
        members := members + batch;
      }
      emitted := Emit(Map(ValidatorEntry, current[..i + 1]), before, forced, SameValidator);
    }
    assert current[..|current|] == current;
  }

  // ================================================================ what a reader gets back

  function ValidatorHistory(chain: Chain): nat -> seq<(string, Tracked)> {
    (h: nat) => Map(ValidatorEntry, chain(h).validators)
  }

  /** A validator with a lifecycle event at a height is written there whatever its fields say. */
  function LifecycleForced(chain: Chain): nat -> set<string> {
    (h: nat) => LifecycleAddresses(chain(h).events)
  }

  ghost function TrackedFeed(chain: Chain): Feed<string, Tracked> {
    SnapshotFeed(ValidatorHistory(chain), LifecycleForced(chain), SameValidator)
  }

  ghost function ValidatorFeed(chain: Chain): Feed<string, ValidatorRow> {
    (d: Delivery) => Project(ValidatorColumns, TrackedFeed(chain)(d))
  }

  ghost function MemberFeed(chain: Chain): Feed<(nat, string), MemberRow> {
    (d: Delivery) => MemberRows(TrackedFeed(chain)(d), Members(chain(d.height).subsidizedCommittees),
                                Members(chain(d.height).retiredCommittees))
  }

  ghost predicate ValidatorsWellFormed(chain: Chain) {
    && (forall h: nat, i, j :: 0 <= i < j < |chain(h).validators| ==>
          chain(h).validators[i].address != chain(h).validators[j].address)
    && (forall h: nat, v :: v in chain(h).validators ==> Distinct(v.committees))
  }

  lemma ValidatorKeysDistinct(chain: Chain)
    requires ValidatorsWellFormed(chain)
    ensures DistinctHistory(ValidatorHistory(chain))
  {
    forall h: nat
      ensures DistinctKeys(ValidatorHistory(chain)(h))
    {
      forall i, j | 0 <= i < j < |chain(h).validators|
        ensures ValidatorEntry(chain(h).validators[i]).0 != ValidatorEntry(chain(h).validators[j]).0
      {
        HexInjective(chain(h).validators[i].address, chain(h).validators[j].address);
      }
      MapDistinct(ValidatorEntry, chain(h).validators);
    }
  }

  /** The row and the committee set of a validator: everything its comparison follows. */
  function ValidatorCompared(t: Tracked): (ValidatorRow, set<U64>) { (t.row, Members(t.committees)) }

  lemma SameMeansEqual(cur: Validator, prev: Validator)
    requires Distinct(prev.committees) && SameValidator(ToTracked(cur), ToTracked(prev))
    ensures ValidatorCompared(ToTracked(cur)) == ValidatorCompared(ToTracked(prev))
  {
    MatchMeansSameSet(cur.committees, prev.committees);
  }

  lemma ValidatorChangesNoticed(chain: Chain, k: string)
    requires ValidatorsWellFormed(chain)
    ensures Notices(ValidatorHistory(chain), SameValidator, ValidatorCompared, k)
  {
    var history := ValidatorHistory(chain);
    forall i: nat | i > 0 && k in Collect(history(i)) && k in Collect(history(i - 1)) &&
                    SameValidator(Collect(history(i))[k], Collect(history(i - 1))[k])
      ensures ValidatorCompared(Collect(history(i))[k]) == ValidatorCompared(Collect(history(i - 1))[k])
    {
      var cur := MapOrigin(ValidatorEntry, chain(i).validators, k);
      var prev := MapOrigin(ValidatorEntry, chain(i - 1).validators, k);
      SameMeansEqual(cur, prev);
    }
  }

  lemma TrackedAsOf(chain: Chain, log: seq<Delivery>, h: nat, v: Validator)
    requires ValidatorsWellFormed(chain) && IndexedThrough(log, h)
    requires v in chain(h).validators
    ensures var t := AsOf(Replay(TrackedFeed(chain), log), Hex(v.address), h);
            && (t.None? <==> Dormant(ValidatorHistory(chain), LifecycleForced(chain), SameValidator, log, Hex(v.address), h))
            && (t.Some? ==> ValidatorCompared(t.value) == (ToTracked(v).row, Members(v.committees)))
  {
    ValidatorKeysDistinct(chain);
    assert DistinctKeys(ValidatorHistory(chain)(h));
    MapMember(ValidatorEntry, chain(h).validators, v);
    ValidatorChangesNoticed(chain, Hex(v.address));
    SnapshotAsOf(ValidatorHistory(chain), LifecycleForced(chain), SameValidator, ValidatorCompared, log, Hex(v.address), h);
  }

  /** Unstaking comes before paused, paused before active. */
  predicate ShowsStatus(v: Validator, status: Status) {
    && (status == Unstaking <==> v.unstakingHeight > 0)
    && (status == Paused <==> v.unstakingHeight == 0 && v.maxPausedHeight > 0)
    && (status == Active <==> v.unstakingHeight == 0 && v.maxPausedHeight == 0)
  }

  /** The row holds the validator in every column. */
  predicate ShowsValidator(v: Validator, r: ValidatorRow) {
    && r.publicKey == Hex(v.publicKey) && r.netAddress == v.netAddress && r.stakedAmount == v.stakedAmount
    && r.maxPausedHeight == v.maxPausedHeight && r.unstakingHeight == v.unstakingHeight && r.output == Hex(v.output)
    && r.delegate == v.delegate && r.compound == v.compound && ShowsStatus(v, r.status)
  }

  lemma TrackedShows(v: Validator)
    ensures ShowsValidator(v, ToTracked(v).row)
  {
  }

  /** An event of one of the four kinds, with an address, names the validator. */
  ghost predicate NamedByEvent(events: seq<Event>, v: Validator) {
    exists e :: e in events && e.address != [] && e.address == v.address &&
                (e.eventType == AutoPause || e.eventType == AutoBeginUnstaking || e.eventType == Slash || e.eventType == Reward)
  }

  /** The validator was there before with the same fields, and with as many committees, all of them among those it has now. */
  ghost predicate ValidatorStays(was: seq<Validator>, v: Validator) {
    exists p :: p in was && p.address == v.address && p.stakedAmount == v.stakedAmount && p.publicKey == v.publicKey &&
                p.netAddress == v.netAddress && p.maxPausedHeight == v.maxPausedHeight && p.unstakingHeight == v.unstakingHeight &&
                p.output == v.output && p.delegate == v.delegate && p.compound == v.compound &&
                |p.committees| == |v.committees| && forall c :: c in p.committees ==> c in v.committees
  }

  lemma NamedMeans(events: seq<Event>, v: Validator)
    ensures Hex(v.address) in LifecycleAddresses(events) <==> NamedByEvent(events, v)
  {
    forall e: Event ensures Hex(e.address) == Hex(v.address) <==> e.address == v.address {
      HexInjective(e.address, v.address);
    }
  }

  lemma SameValidatorMeans(v: Validator, p: Validator)
    ensures SameValidator(ToTracked(v), ToTracked(p)) <==>
            p.stakedAmount == v.stakedAmount && p.publicKey == v.publicKey && p.netAddress == v.netAddress &&
            p.maxPausedHeight == v.maxPausedHeight && p.unstakingHeight == v.unstakingHeight && p.output == v.output &&
            p.delegate == v.delegate && p.compound == v.compound &&
            |p.committees| == |v.committees| && forall c :: c in p.committees ==> c in v.committees
  {
    HexInjective(v.publicKey, p.publicKey);
    HexInjective(v.output, p.output);
  }

  lemma ValidatorStaysMeans(was: seq<Validator>, v: Validator)
    ensures Stays(ValidatorEntry, was, SameValidator, v) <==> ValidatorStays(was, v)
  {
    forall p: Validator
      ensures ValidatorEntry(p).0 == ValidatorEntry(v).0 <==> p.address == v.address
      ensures SameValidator(ToTracked(v), ToTracked(p)) <==>
              p.stakedAmount == v.stakedAmount && p.publicKey == v.publicKey && p.netAddress == v.netAddress &&
              p.maxPausedHeight == v.maxPausedHeight && p.unstakingHeight == v.unstakingHeight && p.output == v.output &&
              p.delegate == v.delegate && p.compound == v.compound &&
              |p.committees| == |v.committees| && forall c :: c in p.committees ==> c in v.committees
    {
      HexInjective(p.address, v.address);
      SameValidatorMeans(v, p);
    }
  }

  lemma TrackedRowAt(chain: Chain, log: seq<Delivery>, m: nat, v: Validator)
    requires ValidatorsWellFormed(chain) && v in chain(m).validators
    ensures var t, k := Replay(TrackedFeed(chain), log), (Hex(v.address), m);
            && (k in t <==> WrittenAt(log, m, m == 0 || NamedByEvent(chain(m).events, v) || !ValidatorStays(chain(m - 1).validators, v)))
            && (k in t ==> t[k] == ToTracked(v))
  {
    var was := if m > 0 then chain(m - 1).validators else [];
    ValidatorKeysDistinct(chain);
    RowAt(ValidatorHistory(chain), ValidatorEntry, chain(m).validators, was, LifecycleForced(chain), SameValidator, log, m, v);
    ValidatorStaysMeans(was, v);
    NamedMeans(chain(m).events, v);
  }

  /** A block leaves a row for a validator that is new, changed, or named by one of its lifecycle events. */
  lemma ValidatorRowAt(chain: Chain, log: seq<Delivery>, m: nat, v: Validator)
    requires ValidatorsWellFormed(chain) && v in chain(m).validators
    ensures var t, k := Replay(ValidatorFeed(chain), log), (Hex(v.address), m);
            && (k in t <==> WrittenAt(log, m, m == 0 || NamedByEvent(chain(m).events, v) || !ValidatorStays(chain(m - 1).validators, v)))
            && (k in t ==> ShowsValidator(v, t[k]))
  {
    TrackedRowAt(chain, log, m, v);
    TrackedShows(v);
    ProjectReplay(TrackedFeed(chain), ValidatorFeed(chain), ValidatorColumns, log, Hex(v.address), m);
  }

  /** The validator's row as of h is its state at h in every column, the derived status included. */
  lemma ValidatorsAsOf(chain: Chain, log: seq<Delivery>, h: nat, v: Validator)
    requires ValidatorsWellFormed(chain) && IndexedThrough(log, h)
    requires v in chain(h).validators
    ensures var row := AsOf(Replay(ValidatorFeed(chain), log), Hex(v.address), h);
            && (row.None? <==> Dormant(ValidatorHistory(chain), LifecycleForced(chain), SameValidator, log, Hex(v.address), h))
            && (row.Some? ==> ShowsValidator(v, row.value))
  {
    TrackedAsOf(chain, log, h, v);
    TrackedShows(v);
    ProjectAsOf(TrackedFeed(chain), ValidatorFeed(chain), ValidatorColumns, log, Hex(v.address), h);
  }

  lemma {:induction false} MemberOrigin(changed: seq<(string, Tracked)>, subsidized: set<U64>, retired: set<U64>, c: nat, address: string)
    ensures (c, address) in Collect(MemberRows(changed, subsidized, retired)) <==>
            exists x :: x in changed && x.0 == address && c in x.1.committees
    ensures (c, address) in Collect(MemberRows(changed, subsidized, retired)) ==>
            exists x :: x in changed && x.0 == address && c in x.1.committees &&
              Collect(MemberRows(changed, subsidized, retired))[(c, address)] == MemberEntry(address, x.1, subsidized, retired)(c).1
  {
    var rows := MemberRows(changed, subsidized, retired);
    MemberRowsOrigin(changed, subsidized, retired);
    CollectKeys(rows, (c, address));
    if (c, address) in Collect(rows) {
      var i :| 0 <= i < |rows| && rows[i] == ((c, address), Collect(rows)[(c, address)]);
      assert rows[i] in rows;
    }
    if x :| x in changed && x.0 == address && c in x.1.committees {
      var i :| 0 <= i < |rows| && rows[i] == MemberEntry(x.0, x.1, subsidized, retired)(c);
      assert rows[i].0 == (c, address);
    }
  }

  lemma {:induction false} MemberRowsOrigin(changed: seq<(string, Tracked)>, subsidized: set<U64>, retired: set<U64>)
    ensures forall r :: r in MemberRows(changed, subsidized, retired) ==>
              exists x, c :: x in changed && c in x.1.committees && r == MemberEntry(x.0, x.1, subsidized, retired)(c)
    ensures forall x, c :: x in changed && c in x.1.committees ==>
              MemberEntry(x.0, x.1, subsidized, retired)(c) in MemberRows(changed, subsidized, retired)
  {
    if changed != [] {
      var n := |changed| - 1;
      var x, rest := changed[n], changed[..n];
      MemberRowsOrigin(rest, subsidized, retired);
      assert x in changed && forall y :: y in changed <==> y in rest || y == x;
      var entry := MemberEntry(x.0, x.1, subsidized, retired);
      var own := Map(entry, x.1.committees);
      forall r | r in own ensures exists c :: c in x.1.committees && r == entry(c) {
        var i :| 0 <= i < |own| && own[i] == r;
        assert x.1.committees[i] in x.1.committees;
      }
      forall c | c in x.1.committees ensures entry(c) in own {
        var i :| 0 <= i < |x.1.committees| && x.1.committees[i] == c;
        assert own[i] == entry(c);
      }
    }
  }

  /** A member row: the validator's stake, status and flags, and whether the committee is subsidised or retired at the row's height. */
  ghost predicate ShowsMember(v: Validator, at: Blob, c: nat, r: MemberRow) {
    && r.stakedAmount == v.stakedAmount && r.delegate == v.delegate && r.compound == v.compound && ShowsStatus(v, r.status)
    && (r.subsidized <==> c in at.subsidizedCommittees) && (r.retired <==> c in at.retiredCommittees)
  }

  /** What the member rows beside a written validator say. */
  ghost predicate MembersOf(address: string, t: Tracked, at: Blob, members: Table<(nat, string), MemberRow>, m: nat, c: nat) {
    && (((c, address), m) in members <==> c in t.committees)
    && (((c, address), m) in members ==>
         members[((c, address), m)] == MemberRow(t.row.stakedAmount, t.row.status, t.row.delegate, t.row.compound,
                                                 c in at.subsidizedCommittees, c in at.retiredCommittees))
  }

  /** At a height where a validator has a row, it has member rows for exactly the committees it had there. */
  lemma MembersBesideRow(chain: Chain, log: seq<Delivery>, address: string, m: nat, c: nat)
    requires ValidatorsWellFormed(chain)
    requires (address, m) in Replay(TrackedFeed(chain), log)
    ensures MembersOf(address, Replay(TrackedFeed(chain), log)[(address, m)], chain(m), Replay(MemberFeed(chain), log), m, c)
  {
    var history, tracked := ValidatorHistory(chain), TrackedFeed(chain);
    var t := Replay(tracked, log)[(address, m)];
    ValidatorKeysDistinct(chain);
    SnapshotFeedAgrees(history, LifecycleForced(chain), SameValidator, log);
    ReplayIsUnion(tracked, log, address, m);
    ReplayRow(MemberFeed(chain), log, (c, address), m);
    forall d | d in log && d.height == m
      ensures forall x :: x in tracked(d) && x.0 == address ==> x.1 == t
      ensures Writes(tracked, d, address, m) ==> exists x :: x in tracked(d) && x.0 == address
    {
      forall x | x in tracked(d) && x.0 == address ensures x.1 == t {
        EmitUnique(history(m), PreviousState(history, d), LifecycleForced(chain)(m), SameValidator, x);
        assert Writes(tracked, d, address, m);
      }
      if Writes(tracked, d, address, m) {
        CollectKeys(tracked(d), address);
        var i :| 0 <= i < |tracked(d)| && tracked(d)[i].0 == address;
        assert tracked(d)[i] in tracked(d);
      }
    }
    forall d | d in log && d.height == m
      ensures Writes(MemberFeed(chain), d, (c, address), m) <==>
              c in t.committees && Writes(tracked, d, address, m)
      ensures Writes(MemberFeed(chain), d, (c, address), m) ==>
              Collect(MemberFeed(chain)(d))[(c, address)] ==
              MemberEntry(address, t, Members(chain(m).subsidizedCommittees), Members(chain(m).retiredCommittees))(c).1
    {
      MemberOrigin(tracked(d), Members(chain(m).subsidizedCommittees), Members(chain(m).retiredCommittees), c, address);
      if x :| x in tracked(d) && x.0 == address {
        EmitUnique(history(m), PreviousState(history, d), LifecycleForced(chain)(m), SameValidator, x);
      }
    }
  }

  lemma MemberIsOf(changed: seq<(string, Tracked)>, subsidized: set<U64>, retired: set<U64>, c: nat, address: string)
    requires (c, address) in Collect(MemberRows(changed, subsidized, retired))
    ensures address in Collect(changed)
  {
    MemberOrigin(changed, subsidized, retired, c, address);
    var x :| x in changed && x.0 == address && c in x.1.committees;
    var i :| 0 <= i < |changed| && changed[i] == x;
    CollectKeys(changed, address);
  }

  lemma MemberWrites(chain: Chain, d: Delivery, address: string, m: nat, c: nat)
    requires Writes(MemberFeed(chain), d, (c, address), m)
    ensures Writes(TrackedFeed(chain), d, address, m)
  {
    MemberIsOf(TrackedFeed(chain)(d), Members(chain(m).subsidizedCommittees), Members(chain(m).retiredCommittees), c, address);
  }

  /** There are no member rows where the validator has none. */
  lemma MembersNeedRow(chain: Chain, log: seq<Delivery>, address: string, m: nat, c: nat)
    requires ((c, address), m) in Replay(MemberFeed(chain), log)
    ensures (address, m) in Replay(ValidatorFeed(chain), log)
  {
    ReplayRow(MemberFeed(chain), log, (c, address), m);
    var d :| d in log && Writes(MemberFeed(chain), d, (c, address), m);
    MemberWrites(chain, d, address, m, c);
    ReplayRow(TrackedFeed(chain), log, address, m);
    ProjectReplay(TrackedFeed(chain), ValidatorFeed(chain), ValidatorColumns, log, address, m);
  }

  lemma MembersShow(v: Validator, at: Blob, t: Tracked, members: Table<(nat, string), MemberRow>, m: nat, c: nat)
    requires ValidatorCompared(t) == (ToTracked(v).row, Members(v.committees))
    requires MembersOf(Hex(v.address), t, at, members, m, c)
    ensures ((c, Hex(v.address)), m) in members <==> c in v.committees
    ensures ((c, Hex(v.address)), m) in members ==> ShowsMember(v, at, c, members[((c, Hex(v.address)), m)])
  {
    TrackedShows(v);
    assert c in v.committees <==> c in Members(v.committees);
    assert c in t.committees <==> c in Members(t.committees);
  }

  /**
   Committee membership. The member rows found at the height of a validator's newest row are
   exactly its committees as of h, with its stake, status and flags as of h, and the committee's as of that row.
   */
  lemma CommitteeMembership(chain: Chain, log: seq<Delivery>, h: nat, v: Validator, m: nat, c: nat)
    requires ValidatorsWellFormed(chain) && IndexedThrough(log, h)
    requires v in chain(h).validators
    requires m <= h && (Hex(v.address), m) in Replay(ValidatorFeed(chain), log)
    requires forall n :: m < n <= h ==> (Hex(v.address), n) !in Replay(ValidatorFeed(chain), log)
    ensures var members := Replay(MemberFeed(chain), log);
            && (((c, Hex(v.address)), m) in members <==> c in v.committees)
            && (((c, Hex(v.address)), m) in members ==> ShowsMember(v, chain(m), c, members[((c, Hex(v.address)), m)]))
  {
    var address, t := Hex(v.address), Replay(TrackedFeed(chain), log);
    forall n: nat
      ensures (address, n) in t <==> (address, n) in Replay(ValidatorFeed(chain), log)
    {
      ProjectReplay(TrackedFeed(chain), ValidatorFeed(chain), ValidatorColumns, log, address, n);
    }
    AsOfNewest(t, address, m, h);
    TrackedAsOf(chain, log, h, v);
    MembersBesideRow(chain, log, address, m, c);
    MembersShow(v, chain(m), t[(address, m)], Replay(MemberFeed(chain), log), m, c);
  }

  // ================================================================ heights delivered in two ways

  lemma ValidatorFeedsAgree(chain: Chain, log: seq<Delivery>)
    requires ValidatorsWellFormed(chain)
    ensures Agree(TrackedFeed(chain), log) && Agree(ValidatorFeed(chain), log)
  {
    ValidatorKeysDistinct(chain);
    SnapshotFeedAgrees(ValidatorHistory(chain), LifecycleForced(chain), SameValidator, log);
    ProjectAgrees(TrackedFeed(chain), ValidatorFeed(chain), ValidatorColumns, log);
  }

  lemma MemberRowIs(chain: Chain, d: Delivery, c: nat, address: string)
    requires ValidatorsWellFormed(chain) && (c, address) in Collect(MemberFeed(chain)(d))
    ensures var now := Collect(ValidatorHistory(chain)(d.height));
            c < TWO64 && address in now && Collect(MemberFeed(chain)(d))[(c, address)] ==
            MemberEntry(address, now[address], Members(chain(d.height).subsidizedCommittees), Members(chain(d.height).retiredCommittees))(c).1
  {
    var history, changed := ValidatorHistory(chain), TrackedFeed(chain)(d);
    ValidatorKeysDistinct(chain);
    assert DistinctKeys(history(d.height));
    MemberOrigin(changed, Members(chain(d.height).subsidizedCommittees), Members(chain(d.height).retiredCommittees), c, address);
    var x :| x in changed && x.0 == address && c in x.1.committees &&
             Collect(MemberFeed(chain)(d))[(c, address)] ==
             MemberEntry(address, x.1, Members(chain(d.height).subsidizedCommittees), Members(chain(d.height).retiredCommittees))(c).1;
    EmitUnique(history(d.height), PreviousState(history, d), LifecycleForced(chain)(d.height), SameValidator, x);
    EmitCollects(history(d.height), PreviousState(history, d), LifecycleForced(chain)(d.height), SameValidator, address);
  }

  /** The member rows of a height are the same, with or without the state before it. */
  lemma MemberFeedAgrees(chain: Chain, log: seq<Delivery>)
    requires ValidatorsWellFormed(chain)
    ensures Agree(MemberFeed(chain), log)
  {
    var feed := MemberFeed(chain);
    forall d, e, k: (nat, string) | d in log && e in log && d.height == e.height && k in Collect(feed(d)) && k in Collect(feed(e))
      ensures Collect(feed(d))[k] == Collect(feed(e))[k]
    {
      MemberRowIs(chain, d, k.0, k.1);
      MemberRowIs(chain, e, k.0, k.1);
    }
  }
}
