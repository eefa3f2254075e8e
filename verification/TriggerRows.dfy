/** The stored bucket of a trigger row and the writes that have to keep it in step with the
    coordinates, so that every active row is polled by exactly one shard. */
module TriggerRows {
  import opened Domain
  import Arithmetic
  import Fnv
  import opened Location
  import opened Sharding

  datatype Row = Row(latitude: real, longitude: real, active: bool, bucket: nat)

  // The fields an update may carry.
  datatype Patch = Patch(latitude: Option<real>, longitude: Option<real>, active: Option<bool>)

  predicate InStep(row: Row) {
    row.bucket == LocationBucket(row.latitude, row.longitude)
  }

  function Or<T>(patch: Option<T>, current: T): T {
    if patch.Some? then patch.value else current
  }

  function Moved(row: Row, patch: Patch): Row {
    row.(latitude := Or(patch.latitude, row.latitude),
         longitude := Or(patch.longitude, row.longitude),
         active := Or(patch.active, row.active))
  }

  // `bucketPatch`: the bucket moves only when the patch carries both coordinates.
  function Updated(row: Row, patch: Patch): Row {
    if patch.latitude.Some? && patch.longitude.Some?
    then Moved(row, patch).(bucket := LocationBucket(patch.latitude.value, patch.longitude.value))
    else Moved(row, patch)
  }

  predicate MovesBothOrNeither(patch: Patch) {
    patch.latitude.Some? <==> patch.longitude.Some?
  }

  class TriggersRepository {
    var rows: map<nat, Row>

    constructor ()
      ensures rows == map[]
    {
      rows := map[];
    }

    ghost predicate Valid()
      reads this
    {
      forall id :: id in rows ==> InStep(rows[id])
    }

    method Create(id: nat, latitude: real, longitude: real, active: bool)
      requires id !in rows
      modifies this
      ensures id in rows && InStep(rows[id])
      ensures rows == old(rows)[id := Row(latitude, longitude, active, rows[id].bucket)]
      ensures old(Valid()) ==> Valid()
    {
      var bucket := StampedBucket(latitude, longitude);
      rows := rows[id := Row(latitude, longitude, active, bucket)];
    }

    /** A missing row is an error and changes nothing. */
    method Update(id: nat, patch: Patch) returns (found: bool)
      modifies this
      ensures found <==> id in old(rows)
      ensures rows == if found then old(rows)[id := Updated(old(rows)[id], patch)] else old(rows)
      ensures old(Valid()) && MovesBothOrNeither(patch) ==> Valid()
      // Field by field: what the patch carries, else what was there.
      ensures found ==>
                && id in rows && rows - {id} == old(rows) - {id}
                && var row := old(rows)[id];
                && rows[id].latitude == (if patch.latitude.Some? then patch.latitude.value else row.latitude)
                && rows[id].longitude == (if patch.longitude.Some? then patch.longitude.value else row.longitude)
                && rows[id].active == (if patch.active.Some? then patch.active.value else row.active)
                && (patch.latitude.Some? && patch.longitude.Some? ==> InStep(rows[id]))
                && (patch.latitude.None? || patch.longitude.None? ==> rows[id].bucket == row.bucket)
    {
      found := id in rows;
      if found {
        var row := Moved(rows[id], patch);
        if patch.latitude.Some? && patch.longitude.Some? {
          var bucket := StampedBucket(patch.latitude.value, patch.longitude.value);
          row := row.(bucket := bucket);
        }
        rows := rows[id := row];
      }
    }

    method Delete(id: nat)
      modifies this
      ensures rows == old(rows) - {id}
      ensures old(Valid()) ==> Valid()
    {
      rows := rows - {id};
    }

    /** The migration's UPDATE: whatever the buckets were, afterwards every row is in step and nothing
        else changed. */
    method Backfill()
      modifies this
      ensures Valid() && rows.Keys == old(rows).Keys
      ensures forall id :: id in rows ==> rows[id] == old(rows)[id].(bucket := rows[id].bucket)
    {
      var todo := rows.Keys;
      var done: map<nat, Row> := map[];
      while todo != {}
        invariant todo !! done.Keys && todo + done.Keys == rows.Keys && rows == old(rows)
        invariant forall id :: id in done ==> InStep(done[id]) && done[id] == rows[id].(bucket := done[id].bucket)
        decreases todo
      {
        var id :| id in todo;
        var bucket := BackfilledBucket(rows[id].latitude, rows[id].longitude);
        done := done[id := rows[id].(bucket := bucket.value)];
        todo := todo - {id};
      }
      assert done.Keys == rows.Keys;
      rows := done;
    }
  }

  // ---- Every write history ----

  datatype Write =
    | Create(id: nat, latitude: real, longitude: real, active: bool)
    | Update(id: nat, patch: Patch)
    | Delete(id: nat)

  function Written(rows: map<nat, Row>, w: Write): map<nat, Row> {
    match w
    case Create(id, lat, lon, active) =>
      if id in rows then rows else rows[id := Row(lat, lon, active, LocationBucket(lat, lon))]
    case Update(id, patch) => if id in rows then rows[id := Updated(rows[id], patch)] else rows
    case Delete(id) => rows - {id}
  }

  function AllWritten(rows: map<nat, Row>, writes: seq<Write>): map<nat, Row> {
    if writes == [] then rows
    else Written(AllWritten(rows, writes[..|writes| - 1]), writes[|writes| - 1])
  }

  lemma WriteKeepsStep(rows: map<nat, Row>, w: Write)
    requires forall id :: id in rows ==> InStep(rows[id])
    requires w.Update? ==> MovesBothOrNeither(w.patch)
    ensures forall id :: id in Written(rows, w) ==> InStep(Written(rows, w)[id])
  {}

  lemma {:induction false} WritesKeepStep(rows: map<nat, Row>, writes: seq<Write>)
    requires forall id :: id in rows ==> InStep(rows[id])
    requires forall i :: 0 <= i < |writes| && writes[i].Update? ==> MovesBothOrNeither(writes[i].patch)
    ensures forall id :: id in AllWritten(rows, writes) ==> InStep(AllWritten(rows, writes)[id])
  {
    if writes != [] {
      WritesKeepStep(rows, writes[..|writes| - 1]);
      WriteKeepsStep(AllWritten(rows, writes[..|writes| - 1]), writes[|writes| - 1]);
    }
  }

  predicate PolledBy(row: Row, index: nat, count: nat) {
    row.active && Selects(index, count, row.bucket)
  }

  // The coordinates a row was last stamped with: those of its creation or of its last patch that
  // carried both.
  function Stamp(writes: seq<Write>, id: nat): Option<(real, real)> {
    if writes == [] then None else
    var before, last := writes[..|writes| - 1], writes[|writes| - 1];
    var present := id in AllWritten(map[], before);
    match last
    case Create(i, lat, lon, _) => if i == id && !present then Some((lat, lon)) else Stamp(before, id)
    case Update(i, patch) =>
      if i == id && present && patch.latitude.Some? && patch.longitude.Some?
      then Some((patch.latitude.value, patch.longitude.value)) else Stamp(before, id)
    case Delete(i) => if i == id then None else Stamp(before, id)
  }

  lemma {:induction false} BucketIsOfTheStamp(writes: seq<Write>, id: nat)
    ensures id in AllWritten(map[], writes) <==> Stamp(writes, id).Some?
    ensures id in AllWritten(map[], writes) ==>
              var stamp := Stamp(writes, id).value;
              AllWritten(map[], writes)[id].bucket == LocationBucket(stamp.0, stamp.1)
  {
    if writes != [] { BucketIsOfTheStamp(writes[..|writes| - 1], id); }
  }

  /** Exactly when a row is in step after any history of writes, one-coordinate patches included: when
      the place it is at hashes to the bucket of the place it was last stamped for. */
  lemma InStepIffStampAgrees(writes: seq<Write>, id: nat)
    requires id in AllWritten(map[], writes)
    ensures Stamp(writes, id).Some?
    ensures var row, stamp := AllWritten(map[], writes)[id], Stamp(writes, id).value;
            InStep(row) <==> LocationBucket(row.latitude, row.longitude) == LocationBucket(stamp.0, stamp.1)
  {
    BucketIsOfTheStamp(writes, id);
  }

  /** Every active row has exactly one owner, after any history of writes whatever. */
  lemma EveryRowHasOneOwner(writes: seq<Write>, count: nat, id: nat)
    requires count >= 1 && id in AllWritten(map[], writes) && AllWritten(map[], writes)[id].active
    ensures var row := AllWritten(map[], writes)[id];
            exists owner :: 0 <= owner < count && PolledBy(row, owner, count)
                            && forall other :: 0 <= other < count && PolledBy(row, other, count) ==> other == owner
  {
    BucketIsOfTheStamp(writes, id);
    var row := AllWritten(map[], writes)[id];
    ExactlyOneShard(count, row.bucket);
    assert PolledBy(row, row.bucket % count, count);
  }

  // Polled by the same instance, however many there are.
  ghost predicate Together(row: Row, other: Row) {
    forall count: nat, shard: nat :: shard < count ==> (PolledBy(row, shard, count) <==> PolledBy(other, shard, count))
  }

  predicate SameKey(row: Row, other: Row) {
    LocationKey(row.latitude, row.longitude) == LocationKey(other.latitude, other.longitude)
  }

  // With as many shards as buckets, the owner is the bucket.
  lemma OwnerIsBucket(row: Row, shards: nat)
    requires row.active && row.bucket < shards == LOCATION_BUCKETS
    ensures PolledBy(row, row.bucket, shards)
    ensures forall shard :: 0 <= shard < shards && PolledBy(row, shard, shards) ==> shard == row.bucket
  {
    ExactlyOneShard(shards, row.bucket);
    Arithmetic.Remainder(row.bucket, shards, 0, row.bucket);
  }

  lemma TogetherIffSameBucket(row: Row, other: Row, shards: nat)
    requires row.active && other.active && row.bucket < shards && other.bucket < shards && shards == LOCATION_BUCKETS
    ensures Together(row, other) <==> row.bucket == other.bucket
  {
    if Together(row, other) {
      OwnerIsBucket(row, shards);
      OwnerIsBucket(other, shards);
      assert PolledBy(other, row.bucket, shards);
    }
  }

  /** A location is never split, exactly: after any history two active rows are polled together under
      every shard count if and only if the places they were last stamped for share a bucket. Rows at
      one location whose stamps agree with it always are. */
  lemma PolledTogetherIff(writes: seq<Write>, id: nat, twin: nat)
    requires id in AllWritten(map[], writes) && AllWritten(map[], writes)[id].active
    requires twin in AllWritten(map[], writes) && AllWritten(map[], writes)[twin].active
    ensures Stamp(writes, id).Some? && Stamp(writes, twin).Some?
    ensures var row, other := AllWritten(map[], writes)[id], AllWritten(map[], writes)[twin];
            var a, b := Stamp(writes, id).value, Stamp(writes, twin).value;
            && (Together(row, other) <==> LocationBucket(a.0, a.1) == LocationBucket(b.0, b.1))
            && ((SameKey(row, other) && InStep(row) && InStep(other)) ==> Together(row, other))
  {
    BucketIsOfTheStamp(writes, id);
    BucketIsOfTheStamp(writes, twin);
    TogetherIffSameBucket(AllWritten(map[], writes)[id], AllWritten(map[], writes)[twin], LOCATION_BUCKETS);
  }

  /** Shard partition of the rows: after any creates, deletes and updates that move both coordinates or
      neither, rows that snap to the same location are polled by the same shard, so a location is
      never split. */
  lemma ColocatedRowsShareOwner(writes: seq<Write>, id: nat, twin: nat)
    requires forall i :: 0 <= i < |writes| && writes[i].Update? ==> MovesBothOrNeither(writes[i].patch)
    requires id in AllWritten(map[], writes) && AllWritten(map[], writes)[id].active
    requires twin in AllWritten(map[], writes) && AllWritten(map[], writes)[twin].active
    ensures var row, other := AllWritten(map[], writes)[id], AllWritten(map[], writes)[twin];
            SameKey(row, other) ==> Together(row, other)
  {
    WritesKeepStep(map[], writes);
    PolledTogetherIff(writes, id, twin);
  }

  /** A patch that carries one coordinate leaves the bucket behind: a trigger at (0, 0) moved one
      hundredth of a degree north keeps the bucket of the place it left, and that is the wrong one. */
  lemma OneCoordinateLeavesBucketStale(row: Row, latitude: real)
    requires row.latitude == 0.0 && row.longitude == 0.0 && InStep(row) && latitude == 0.01
    ensures !InStep(Updated(row, Patch(Some(latitude), None, None)))
  {
    var here, there := Fnv.Codes(LocationKey(row.latitude, 0.0)), Fnv.Codes(LocationKey(latitude, 0.0));
    assert here[1..] == there[1..] && here == [48] + here[1..] && there == [49] + there[1..];
    Fnv.FirstCodeFlips(48, 49, here[1..]);
    Fnv.HashParity(here);
    Fnv.HashParity(there);
    LowBit(Fnv.Fnv1a(here));
    LowBit(Fnv.Fnv1a(there));
    assert Updated(row, Patch(Some(latitude), None, None)).bucket == row.bucket;
  }

  lemma LowBit(hash: nat)
    ensures hash % LOCATION_BUCKETS % 2 == hash % 2
  {}
}
