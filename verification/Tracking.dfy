/** The tracking database: generations, compare-and-set, and reconciling a checkout exactly once. */
module Tracking {
  import opened Basics

  const TWO_TO_THE_64: int := U64_MAX + 1

  type U64 = x: nat | x <= U64_MAX

  datatype Key = Key(home: nat, remote: nat, namespace: nat)

  datatype Binding = Binding(remote: nat, namespace: nat)

  /** Columns are 64-bit signed integers. */
  datatype Record = Record(head: Option<nat>, remoteEpoch: int, generation: int)

  datatype Tables = Tables(records: map<Key, Record>, active: map<nat, Binding>)

  datatype TrackingError = Concurrent | MissingBinding | OutOfRange

  /** `value as i64` for an unsigned 64-bit value. */
  function AsI64(value: U64): int {
    if value <= I64_MAX then value else value - TWO_TO_THE_64
  }

  /** Adding one to a 64-bit signed integer without an overflow check. */
  function WrappingIncrement(value: int): int {
    if value == I64_MAX then value + 1 - TWO_TO_THE_64 else value + 1
  }

  function GenerationOf(t: Tables, key: Key): Option<int> {
    if key in t.records then Some(t.records[key].generation) else None
  }

  function EpochOf(t: Tables, key: Key): int {
    if key in t.records then t.records[key].remoteEpoch else 0
  }

  function Expected(expected: Option<U64>): Option<int> {
    if expected.Some? then Some(AsI64(expected.value)) else None
  }

  function CompareAndSet(t: Tables, key: Key, expected: Option<U64>, head: Option<nat>): Result<Tables, TrackingError> {
    var current := GenerationOf(t, key);
    if current != Expected(expected) then Err(Concurrent)
    else
      var generation := WrappingIncrement(if current.Some? then current.value else 0);
      Ok(t.(records := t.records[key := Record(head, EpochOf(t, key), generation)]))
  }

  /** What a reconciliation that expects `expected` leaves as the generation. */
  function NextGeneration(expected: Option<U64>): int {
    (if expected.Some? then expected.value else 0) + 1
  }

  predicate AlreadyApplied(t: Tables, key: Key, expected: Option<U64>, head: Option<nat>) {
    key in t.records && t.records[key].generation == NextGeneration(expected) && t.records[key].head == head
  }

  predicate IsActive(t: Tables, key: Key) {
    key.home in t.active && t.active[key.home] == Binding(key.remote, key.namespace)
  }

  function ReconcileCheckout(t: Tables, key: Key, expected: Option<U64>, head: Option<nat>, activate: bool)
    : Result<Tables, TrackingError>
  {
    if NextGeneration(expected) > I64_MAX then Err(OutOfRange)
    else if AlreadyApplied(t, key, expected, head) then
      if activate && !IsActive(t, key) then Err(MissingBinding) else Ok(t)
    else if GenerationOf(t, key) != (if expected.Some? then Some(expected.value) else None) then Err(Concurrent)
    else
      Ok(Tables(t.records[key := Record(head, EpochOf(t, key), NextGeneration(expected))],
                if activate then t.active[key.home := Binding(key.remote, key.namespace)] else t.active))
  }

  function UpdateRemoteEpoch(t: Tables, key: Key, expected: U64, epoch: U64): Result<Tables, TrackingError> {
    if GenerationOf(t, key) != Some(AsI64(expected)) then Err(Concurrent)
    else Ok(t.(records := t.records[key := t.records[key].(remoteEpoch := AsI64(epoch))]))
  }

  // ----- all writers -----

  datatype Write =
    | Set(key: Key, expected: Option<U64>, head: Option<nat>)
    | Reconcile(key: Key, expected: Option<U64>, head: Option<nat>, activate: bool)
    | SetEpoch(key: Key, generation: U64, epoch: U64)
    | Activate(home: nat, binding: Binding)

  function Attempt(t: Tables, w: Write): Result<Tables, TrackingError> {
    match w
    case Set(key, expected, head) => CompareAndSet(t, key, expected, head)
    case Reconcile(key, expected, head, activate) => ReconcileCheckout(t, key, expected, head, activate)
    case SetEpoch(key, generation, epoch) => UpdateRemoteEpoch(t, key, generation, epoch)
    case Activate(home, binding) => Ok(t.(active := t.active[home := binding]))
  }

  /** A failing write rolls back. */
  function Apply(t: Tables, w: Write): Tables {
    var r := Attempt(t, w);
    if r.Ok? then r.value else t
  }

  /** The tables after the first `n` of `writes`. */
  function After(t: Tables, writes: seq<Write>, n: nat): Tables
    requires n <= |writes|
  {
    if n == 0 then t else Apply(After(t, writes, n - 1), writes[n - 1])
  }

  // ----- one reconciliation -----

  /** A successful reconciliation leaves the record at the next generation with its head and its epoch and, if
      asked, its binding active; everything else stays.  A failing one writes nothing. */
  lemma ReconcileEffect(t: Tables, key: Key, expected: Option<U64>, head: Option<nat>, activate: bool)
    ensures var r := ReconcileCheckout(t, key, expected, head, activate);
            var t' := Apply(t, Reconcile(key, expected, head, activate));
            && (r.Ok? ==>
                  && GenerationOf(t', key) == Some(NextGeneration(expected)) && t'.records[key].head == head
                  && t'.records[key].remoteEpoch == (if key in t.records then t.records[key].remoteEpoch else 0)
                  && (activate ==> IsActive(t', key))
                  && (!activate ==> t'.active == t.active)
                  && (forall home :: home != key.home ==> (home in t'.active <==> home in t.active))
                  && (forall home :: home != key.home && home in t.active ==> t'.active[home] == t.active[home])
                  && t'.records.Keys == t.records.Keys + {key}
                  && (forall k :: k in t.records && k != key ==> t'.records[k] == t.records[k]))
            && (r.Err? ==> t' == t)
  {
  }

  /** A reconciliation goes through exactly if the generation after the expected one fits its column and the record
      is at the expected generation, or already at the next one with this head, and with its binding active if that
      was asked for. */
  lemma ReconcilesExactly(t: Tables, key: Key, expected: Option<U64>, head: Option<nat>, activate: bool)
    ensures ReconcileCheckout(t, key, expected, head, activate).Ok? <==>
      && (expected.Some? ==> expected.value < I64_MAX)
      && (|| (expected.None? && key !in t.records)
          || (expected.Some? && key in t.records && t.records[key].generation == expected.value)
          || (&& key in t.records && t.records[key].head == head
              && t.records[key].generation == (if expected.Some? then expected.value else 0) + 1
              && (activate ==> key.home in t.active && t.active[key.home] == Binding(key.remote, key.namespace))))
  {
  }

  /** A compare-and-set goes through exactly if the record is at the generation expected, or absent where none is; it
      then stores the new head one generation on, from the top of the range to its bottom, and leaves the epoch,
      every other record and the active bindings as they are.  Otherwise it writes nothing. */
  lemma CompareAndSetEffect(t: Tables, key: Key, expected: Option<U64>, head: Option<nat>)
    ensures var r := CompareAndSet(t, key, expected, head);
            var t' := Apply(t, Set(key, expected, head));
            var found := key in t.records;
            && (r.Ok? <==>
                  if expected.None? then !found
                  else found && I64_MIN <= t.records[key].generation <= I64_MAX
                       && (t.records[key].generation - expected.value) % 0x1_0000_0000_0000_0000 == 0)
            && (r.Err? ==> t' == t && r.error == Concurrent)
            && (r.Ok? ==>
                  && t'.active == t.active
                  && t'.records.Keys == t.records.Keys + {key}
                  && (forall k :: k in t.records && k != key ==> t'.records[k] == t.records[k])
                  && t'.records[key].head == head
                  && t'.records[key].remoteEpoch == (if found then t.records[key].remoteEpoch else 0)
                  && t'.records[key].generation ==
                     if !found then 1
                     else if t.records[key].generation == I64_MAX then I64_MIN
                     else t.records[key].generation + 1)
  {
  }

  /** Setting the epoch goes through exactly at the generation expected; it changes the epoch of one record and
      nothing else. */
  lemma SetEpochEffect(t: Tables, key: Key, expected: U64, epoch: U64)
    ensures var r := UpdateRemoteEpoch(t, key, expected, epoch);
            var t' := Apply(t, SetEpoch(key, expected, epoch));
            && (r.Ok? <==>
                  && key in t.records
                  && I64_MIN <= t.records[key].generation <= I64_MAX
                  && (t.records[key].generation - expected) % 0x1_0000_0000_0000_0000 == 0)
            && (r.Err? ==> t' == t)
            && (r.Ok? ==>
                  && t'.active == t.active
                  && t'.records.Keys == t.records.Keys
                  && (forall k :: k in t.records && k != key ==> t'.records[k] == t.records[k])
                  && t'.records[key].head == t.records[key].head
                  && t'.records[key].generation == t.records[key].generation
                  && I64_MIN <= t'.records[key].remoteEpoch <= I64_MAX
                  && (t'.records[key].remoteEpoch - epoch) % 0x1_0000_0000_0000_0000 == 0)
  {
  }

  /** Repeating a successful reconciliation succeeds again and writes nothing. */
  lemma ReconcileIsIdempotent(t: Tables, key: Key, expected: Option<U64>, head: Option<nat>, activate: bool)
    requires ReconcileCheckout(t, key, expected, head, activate).Ok?
    ensures var t' := ReconcileCheckout(t, key, expected, head, activate).value;
            ReconcileCheckout(t', key, expected, head, activate) == Ok(t')
  {
  }

  // ----- generations over runs -----

  /** The counter of `key` has not reached the top of its range. */
  predicate InRange(t: Tables, key: Key) {
    key in t.records ==> t.records[key].generation < I64_MAX
  }

  /** One write never lowers a generation, except that an unchecked increment wraps at the top. */
  lemma WriteLowersIffItWraps(t: Tables, w: Write, key: Key)
    requires key in t.records
    ensures key in Apply(t, w).records
    ensures Apply(t, w).records[key].generation < t.records[key].generation
            <==> t.records[key].generation == I64_MAX && w.Set? && w.key == key && w.expected == Some(I64_MAX)
  {
  }

  lemma {:induction false} GenerationsGrow(t: Tables, writes: seq<Write>, i: nat, j: nat, key: Key)
    requires i <= j <= |writes|
    requires forall n: nat :: n < j ==> InRange(After(t, writes, n), key)
    requires key in After(t, writes, i).records
    ensures key in After(t, writes, j).records
    ensures After(t, writes, i).records[key].generation <= After(t, writes, j).records[key].generation
    decreases j - i
  {
    if i < j {
      GenerationsGrow(t, writes, i, j - 1, key);
      assert InRange(After(t, writes, j - 1), key);
      WriteLowersIffItWraps(After(t, writes, j - 1), writes[j - 1], key);
    }
  }

  /** Write `i` is a reconciliation of `key` from generation `expected` that changes the tables. */
  ghost predicate Reconciles(t: Tables, writes: seq<Write>, i: nat, key: Key, expected: Option<U64>)
    requires i < |writes|
  {
    && writes[i].Reconcile? && writes[i].key == key && writes[i].expected == expected
    && Attempt(After(t, writes, i), writes[i]).Ok?
    && After(t, writes, i + 1) != After(t, writes, i)
  }

  /** However often it is retried and whatever else is written, a reconciliation is applied at most once. */
  lemma ReconciledOnce(t: Tables, writes: seq<Write>, i: nat, j: nat, key: Key, expected: Option<U64>)
    requires i < j < |writes|
    requires forall n: nat :: n <= j ==> InRange(After(t, writes, n), key)
    requires Reconciles(t, writes, i, key, expected)
    ensures !Reconciles(t, writes, j, key, expected)
  {
    GenerationsGrow(t, writes, i + 1, j, key);
  }

  // ----- the store -----

  class TrackingStore {
    var records: map<Key, Record>
    var active: map<nat, Binding>

    ghost function View(): Tables
      reads this
    {
      Tables(records, active)
    }

    constructor ()
      ensures View() == Tables(map[], map[])
    {
      records, active := map[], map[];
    }

    method CompareAndSet(key: Key, expected: Option<U64>, head: Option<nat>) 
      returns (reply: Result<Record, TrackingError>)
      modifies this
      ensures View() == Apply(old(View()), Set(key, expected, head))
      ensures reply.Ok? <==> Attempt(old(View()), Set(key, expected, head)).Ok?
      ensures reply.Ok? ==> key in records && reply.value == records[key]
    {
      var current: Option<int> := if key in records then Some(records[key].generation) else None;
      if current != (if expected.Some? then Some(AsI64(expected.value)) else None) {
        return Err(Concurrent);
      }
      var generation := WrappingIncrement(if current.Some? then current.value else 0);
      var epoch := if key in records then records[key].remoteEpoch else 0;
      records := records[key := Record(head, epoch, generation)];
      return Ok(records[key]);
    }

    method ReconcileCheckout(key: Key, expected: Option<U64>, head: Option<nat>, activate: bool)
      returns (reply: Result<Record, TrackingError>)
      modifies this
      ensures View() == Apply(old(View()), Reconcile(key, expected, head, activate))
      ensures reply.Ok? <==> Attempt(old(View()), Reconcile(key, expected, head, activate)).Ok?
      ensures reply.Ok? ==> key in records && reply.value == records[key]
    {
      if expected.Some? && expected.value > I64_MAX {
        return Err(OutOfRange);
      }
      var next := (if expected.Some? then expected.value else 0) + 1;
      if next > I64_MAX {
        return Err(OutOfRange);
      }
      if key in records && records[key].generation == next && records[key].head == head {
        if activate {
          if key.home !in active || active[key.home] != Binding(key.remote, key.namespace) {
            return Err(MissingBinding);
          }
        }
        return Ok(records[key]);
      }
      var current: Option<int> := if key in records then Some(records[key].generation) else None;
      if current != (if expected.Some? then Some(expected.value) else None) {
        return Err(Concurrent);
      }
      records := records[key := Record(head, if key in records then records[key].remoteEpoch else 0, next)];
      if activate {
        active := active[key.home := Binding(key.remote, key.namespace)];
      }
      return Ok(records[key]);
    }
  }
}
