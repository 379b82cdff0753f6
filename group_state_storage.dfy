/** The in-memory group-state store of the Python bindings' storage test
    (mls-rs-uniffi/tests/custom_storage_sync.py): a dictionary from the
    lower-case hex form of a group id to that group's state and its list of
    epoch records. Writing appends the inserted records and then overwrites,
    for each update in turn, every record with the update's id. */
module GroupStateStorage {
  import opened Wrappers
  import opened Tls

  datatype EpochRecord = EpochRecord(id: uint64, data: Bytes)

  datatype GroupStateData = GroupStateData(state: Bytes, epoch_data: seq<EpochRecord>)

  /** Python exceptions the store can raise. */
  datatype StorageError = AttributeError(message: string)

  const ListHasNoLast: string := "'list' object has no attribute 'last'"

  // ---------------------------------------------------------------------------
  // `bytes.hex()`

  const HexDigits: string := "0123456789abcdef"

  function HexByte(b: uint8): string {
    [HexDigits[b as int / 16], HexDigits[b as int % 16]]
  }

  /** `bytes.hex()`: two lower-case digits per byte. */
  function Hex(bs: Bytes): (s: string)
    ensures |s| == 2 * |bs|
  {
    if bs == [] then "" else HexByte(bs[0]) + Hex(bs[1..])
  }

  lemma HexByteInjective(a: uint8, b: uint8)
    ensures HexByte(a) == HexByte(b) ==> a == b
  {
    if HexByte(a) == HexByte(b) {
      assert HexDigits[a as int / 16] == HexDigits[b as int / 16];
      assert HexDigits[a as int % 16] == HexDigits[b as int % 16];
      assert forall i, j :: 0 <= i < j < 16 ==> HexDigits[i] != HexDigits[j];
    }
  }

  /** Distinct group ids have distinct keys. */
  lemma {:induction false} HexInjective(a: Bytes, b: Bytes)
    ensures Hex(a) == Hex(b) ==> a == b
  {
    if Hex(a) == Hex(b) && a != [] {
      assert b != [];
      assert Hex(a)[..2] == HexByte(a[0]) && Hex(b)[..2] == HexByte(b[0]);
      assert Hex(a)[2..] == Hex(a[1..]) && Hex(b)[2..] == Hex(b[1..]);
      HexByteInjective(a[0], b[0]);
      HexInjective(a[1..], b[1..]);
      assert a == [a[0]] + a[1..] && b == [b[0]] + b[1..];
    }
  }

  // ---------------------------------------------------------------------------
  // What a write does to one group's records

  /** One pass of the inner loop: every record with the update's id becomes the update. */
  function ReplaceAll(records: seq<EpochRecord>, update: EpochRecord): (r: seq<EpochRecord>)
    ensures |r| == |records|
    ensures forall i :: 0 <= i < |r| ==> r[i] == if records[i].id == update.id then update else records[i]
  {
    seq(|records|, i requires 0 <= i < |records| => if records[i].id == update.id then update else records[i])
  }

  /** The outer loop: the updates applied one after another. */
  function ApplyUpdates(records: seq<EpochRecord>, updates: seq<EpochRecord>): seq<EpochRecord> {
    if updates == [] then records
    else ReplaceAll(ApplyUpdates(records, updates[..|updates| - 1]), updates[|updates| - 1])
  }

  /** The last update carrying the given id, if any. */
  function LastUpdateWithId(updates: seq<EpochRecord>, id: uint64): (r: Option<EpochRecord>)
    ensures r.Some? ==> r.value in updates && r.value.id == id
    ensures r.None? <==> forall k :: 0 <= k < |updates| ==> updates[k].id != id
  {
    if updates == [] then None
    else if updates[|updates| - 1].id == id then Some(updates[|updates| - 1])
    else
      var r := LastUpdateWithId(updates[..|updates| - 1], id);
      assert forall k :: 0 <= k < |updates| - 1 ==> updates[..|updates| - 1][k] == updates[k];
      r
  }

  /** Updates keep the number of records and their ids; each record ends up
      as the last update with its id, or unchanged when there is none. */
  lemma {:induction false} ApplyUpdatesLastWins(records: seq<EpochRecord>, updates: seq<EpochRecord>)
    ensures |ApplyUpdates(records, updates)| == |records|
    ensures forall i :: 0 <= i < |records| ==>
      ApplyUpdates(records, updates)[i].id == records[i].id
      && ApplyUpdates(records, updates)[i] ==
           match LastUpdateWithId(updates, records[i].id)
           case Some(u) => u
           case None => records[i]
  {
    if updates != [] {
      ApplyUpdatesLastWins(records, updates[..|updates| - 1]);
    }
  }

  /** The group's record list after a write. No state was stored before a
      group's first write, and afterwards the state argument is ignored. */
  function Written(old_group: Option<GroupStateData>, group_state: Bytes,
                   epoch_inserts: seq<EpochRecord>, epoch_updates: seq<EpochRecord>): GroupStateData
  {
    var base := match old_group
      case Some(g) => g
      case None => GroupStateData(group_state, []);
    GroupStateData(base.state, ApplyUpdates(base.epoch_data + epoch_inserts, epoch_updates))
  }

  /** The records after a write: the old ones, then the inserts in order, with
      ids and length kept and every record overwritten by the last update
      with its id, so an update also reaches a record inserted by the same write. */
  lemma WrittenRecords(old_group: Option<GroupStateData>, group_state: Bytes,
                       epoch_inserts: seq<EpochRecord>, epoch_updates: seq<EpochRecord>)
    ensures var before := (if old_group.Some? then old_group.value.epoch_data else []) + epoch_inserts;
      var after := Written(old_group, group_state, epoch_inserts, epoch_updates).epoch_data;
      && |after| == |before|
      && (forall i :: 0 <= i < |before| ==> after[i].id == before[i].id)
      && (forall i :: 0 <= i < |before| && LastUpdateWithId(epoch_updates, before[i].id).None? ==> after[i] == before[i])
      && (forall i :: 0 <= i < |before| && LastUpdateWithId(epoch_updates, before[i].id).Some? ==>
            after[i] == LastUpdateWithId(epoch_updates, before[i].id).value)
    ensures Written(old_group, group_state, epoch_inserts, epoch_updates).state ==
      if old_group.Some? then old_group.value.state else group_state
  {
    var before := (if old_group.Some? then old_group.value.epoch_data else []) + epoch_inserts;
    ApplyUpdatesLastWins(before, epoch_updates);
  }

  // ---------------------------------------------------------------------------
  // The store

  class PythonGroupStateStorage {
    var groups: map<string, GroupStateData>

    constructor ()
      ensures groups == map[]
    {
      groups := map[];
    }

    /** `state`: the stored state, or `None` for an unknown group. */
    function State(group_id: Bytes): (r: Option<Bytes>)
      reads this
      ensures r.Some? <==> Hex(group_id) in groups
      ensures r.Some? ==> r.value == groups[Hex(group_id)].state
    {
      if Hex(group_id) in groups then Some(groups[Hex(group_id)].state) else None
    }

    /** `epoch`: the first record with the id, or `None` when the group is
        unknown or has no such record. */
    method Epoch(group_id: Bytes, epoch_id: uint64) returns (r: Option<EpochRecord>)
      ensures Hex(group_id) !in groups ==> r.None?
      ensures Hex(group_id) in groups ==>
        var records := groups[Hex(group_id)].epoch_data;
        && (r.None? <==> forall k :: 0 <= k < |records| ==> records[k].id != epoch_id)
        && (r.Some? ==> exists i :: 0 <= i < |records| && records[i] == r.value && r.value.id == epoch_id
                                    && forall k :: 0 <= k < i ==> records[k].id != epoch_id)
    {
      if Hex(group_id) !in groups {
        return None;
      }
      var records := groups[Hex(group_id)].epoch_data;
      var i := 0;
      while i < |records|
        invariant 0 <= i <= |records|
        invariant forall k :: 0 <= k < i ==> records[k].id != epoch_id
      {
        if records[i].id == epoch_id {
          assert groups[Hex(group_id)].epoch_data[i].id == epoch_id;
          return Some(records[i]);
        }
        i := i + 1;
      }
      return None;
    }

    /** `write`: only the entry of this group changes, as `Written` says. */
    method Write(group_id: Bytes, group_state: Bytes, epoch_inserts: seq<EpochRecord>, epoch_updates: seq<EpochRecord>)
      modifies this
      ensures groups == old(groups)[Hex(group_id) :=
        Written(if Hex(group_id) in old(groups) then Some(old(groups)[Hex(group_id)]) else None,
                group_state, epoch_inserts, epoch_updates)]
    {
      var key := Hex(group_id);
      if key !in groups {
        groups := groups[key := GroupStateData(group_state, [])];
      }
      var group := groups[key];
      ghost var base := group.epoch_data;

      var records := group.epoch_data;
      for k := 0 to |epoch_inserts|
        invariant records == base + epoch_inserts[..k]
      {
        records := records + [epoch_inserts[k]];
      }
      assert epoch_inserts[..|epoch_inserts|] == epoch_inserts;
      ghost var inserted := records;

      for u := 0 to |epoch_updates|
        invariant records == ApplyUpdates(inserted, epoch_updates[..u])
      {
        var update := epoch_updates[u];
        ghost var start := records;
        for i := 0 to |records|
          invariant |records| == |start|
          invariant forall j :: 0 <= j < i ==> records[j] == ReplaceAll(start, update)[j]
          invariant forall j :: i <= j < |records| ==> records[j] == start[j]
        {
          if records[i].id == update.id {
            records := records[i := update];
          }
        }
        assert records == ReplaceAll(start, update);
        assert epoch_updates[..u + 1][..u] == epoch_updates[..u];
      }
      assert epoch_updates[..|epoch_updates|] == epoch_updates;
      groups := groups[key := GroupStateData(group.state, records)];
    }

    /** `max_epoch_id`: `None` for an unknown group; for a known one the call
        to `list.last()` raises, since Python lists have no such method. */
    method MaxEpochId(group_id: Bytes) returns (r: Result<Option<uint64>, StorageError>)
      ensures Hex(group_id) !in groups ==> r == Ok(None)
      ensures Hex(group_id) in groups ==> r == Err(AttributeError(ListHasNoLast))
    {
      if Hex(group_id) !in groups {
        return Ok(None);
      }
      return Err(AttributeError(ListHasNoLast));
    }
  }

  /** A write leaves every other group's entry as it was. */
  lemma WriteIsolated(groups: map<string, GroupStateData>, group_id: Bytes, other_id: Bytes, entry: GroupStateData)
    requires other_id != group_id && Hex(other_id) in groups
    ensures Hex(other_id) in groups[Hex(group_id) := entry]
    ensures groups[Hex(group_id) := entry][Hex(other_id)] == groups[Hex(other_id)]
  {
    HexInjective(group_id, other_id);
  }
}
