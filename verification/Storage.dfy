/** The flat key/value store of lib/devicegroups/storage.go with its four key families. JSON storage
    is the identity; the store neither expires nor fails. */
module Storage {
  import opened Values
  import opened Messages

  const METADATA_KEY_PREFIX := "meta."
  const RESULT_KEY_PREFIX := "result."
  const SUB_TASK_STATE_KEY_PREFIX := "ststate."
  const LAST_CALL_INFO := "lastcall."

  datatype Entry =
    | MetadataEntry(metadata: Metadata)
    | ResultEntry(result: SubResult)
    | StateEntry(state: SubTaskState)
    | CallEntry(call: CallInfo)

  type Db = map<string, Entry>

  /** What the store holds, family by family. */
  datatype Store = Store(
    meta: map<string, Metadata>,
    result: map<string, SubResult>,
    state: map<string, SubTaskState>,
    call: map<string, CallInfo>)

  function Get<T>(m: map<string, T>, id: string): Option<T> {
    if id in m then Some(m[id]) else None
  }

  function MetadataKey(id: string): string { METADATA_KEY_PREFIX + id }
  function ResultKey(id: string): string { RESULT_KEY_PREFIX + id }
  function StateKey(id: string): string { SUB_TASK_STATE_KEY_PREFIX + id }
  function CallKey(id: string): string { LAST_CALL_INFO + id }

  ghost predicate Represents(db: Db, view: Store) {
    && (forall id {:trigger MetadataKey(id)} ::
         Get(db, MetadataKey(id)) == if id in view.meta then Some(MetadataEntry(view.meta[id])) else None)
    && (forall id {:trigger ResultKey(id)} ::
         Get(db, ResultKey(id)) == if id in view.result then Some(ResultEntry(view.result[id])) else None)
    && (forall id {:trigger StateKey(id)} ::
         Get(db, StateKey(id)) == if id in view.state then Some(StateEntry(view.state[id])) else None)
    && (forall id {:trigger CallKey(id)} ::
         Get(db, CallKey(id)) == if id in view.call then Some(CallEntry(view.call[id])) else None)
  }

  /** The families never share a key, and within a family a key belongs to one id. */
  lemma KeysAreDistinct()
    ensures forall a, b {:trigger MetadataKey(a), ResultKey(b)} :: MetadataKey(a) != ResultKey(b)
    ensures forall a, b {:trigger MetadataKey(a), StateKey(b)} :: MetadataKey(a) != StateKey(b)
    ensures forall a, b {:trigger MetadataKey(a), CallKey(b)} :: MetadataKey(a) != CallKey(b)
    ensures forall a, b {:trigger ResultKey(a), StateKey(b)} :: ResultKey(a) != StateKey(b)
    ensures forall a, b {:trigger ResultKey(a), CallKey(b)} :: ResultKey(a) != CallKey(b)
    ensures forall a, b {:trigger StateKey(a), CallKey(b)} :: StateKey(a) != CallKey(b)
    ensures forall a, b {:trigger MetadataKey(a), MetadataKey(b)} :: MetadataKey(a) == MetadataKey(b) ==> a == b
    ensures forall a, b {:trigger ResultKey(a), ResultKey(b)} :: ResultKey(a) == ResultKey(b) ==> a == b
    ensures forall a, b {:trigger StateKey(a), StateKey(b)} :: StateKey(a) == StateKey(b) ==> a == b
    ensures forall a, b {:trigger CallKey(a), CallKey(b)} :: CallKey(a) == CallKey(b) ==> a == b
  {
    forall a ensures MetadataKey(a)[0] == 'm' && MetadataKey(a)[5..] == a {}
    forall a ensures ResultKey(a)[0] == 'r' && ResultKey(a)[7..] == a {}
    forall a ensures StateKey(a)[0] == 's' && StateKey(a)[8..] == a {}
    forall a ensures CallKey(a)[0] == 'l' && CallKey(a)[9..] == a {}
  }

  class KeyValueStore {
    var db: Db
    ghost var view: Store

    ghost predicate Valid()
      reads this
    {
      Represents(db, view)
    }

    constructor ()
      ensures Valid() && view == Store(map[], map[], map[], map[])
    {
      db, view := map[], Store(map[], map[], map[], map[]);
    }

    method GetGroupMetadata(id: string) returns (r: Option<Metadata>)
      requires Valid()
      ensures r == Get(view.meta, id)
    {
      var e := Get(db, MetadataKey(id));
      r := if e.None? then None else Some(e.value.metadata);
    }

    method SetGroupMetadata(id: string, metadata: Metadata)
      requires Valid()
      modifies this
      ensures Valid() && view == old(view).(meta := old(view).meta[id := metadata])
    {
      KeysAreDistinct();
      db := db[MetadataKey(id) := MetadataEntry(metadata)];
      view := view.(meta := view.meta[id := metadata]);
    }

    method GetSubResult(id: string) returns (r: Option<SubResult>)
      requires Valid()
      ensures r == Get(view.result, id)
    {
      var e := Get(db, ResultKey(id));
      r := if e.None? then None else Some(e.value.result);
    }

    method SetSubResult(id: string, result: SubResult)
      requires Valid()
      modifies this
      ensures Valid() && view == old(view).(result := old(view).result[id := result])
    {
      KeysAreDistinct();
      db := db[ResultKey(id) := ResultEntry(result)];
      view := view.(result := view.result[id := result]);
    }

    method GetSubTaskState(id: string) returns (r: Option<SubTaskState>)
      requires Valid()
      ensures r == Get(view.state, id)
    {
      var e := Get(db, StateKey(id));
      r := if e.None? then None else Some(e.value.state);
    }

    method SetSubTaskState(id: string, state: SubTaskState)
      requires Valid()
      modifies this
      ensures Valid() && view == old(view).(state := old(view).state[id := state])
    {
      KeysAreDistinct();
      db := db[StateKey(id) := StateEntry(state)];
      view := view.(state := view.state[id := state]);
    }

    method GetLastCall(id: string) returns (r: Option<CallInfo>)
      requires Valid()
      ensures r == Get(view.call, id)
    {
      var e := Get(db, CallKey(id));
      r := if e.None? then None else Some(e.value.call);
    }

    method SetLastCall(id: string, call: CallInfo)
      requires Valid()
      modifies this
      ensures Valid() && view == old(view).(call := old(view).call[id := call])
    {
      KeysAreDistinct();
      db := db[CallKey(id) := CallEntry(call)];
      view := view.(call := view.call[id := call]);
    }

    /** The three deletes of `clearTaskData` for one element; its try count stays. */
    method DeleteTaskData(id: string)
      requires Valid()
      modifies this
      ensures Valid()
      ensures view
         == old(view).(meta := old(view).meta - {id}, result := old(view).result - {id}, call := old(view).call - {id})
    {
      KeysAreDistinct();
      db := db - {MetadataKey(id)};
      db := db - {ResultKey(id)};
      db := db - {CallKey(id)};
      view := view.(meta := view.meta - {id}, result := view.result - {id}, call := view.call - {id});
    }
  }
}
