/** The in-memory job status store: job id to status record, each record a
    dictionary of named fields. Updating merges the given fields into an
    existing record and ignores unknown ids. */
module JobStore {
  import opened Results

  /** A status record: field name to value. */
  type Status<V> = map<string, V>

  /** The whole store: job id to status record. */
  type Store<V> = map<string, Status<V>>

  /** The value of field `key` of job `id`, if the job exists and has it. */
  function Lookup<V>(store: Store<V>, id: string, key: string): Option<V> {
    if id in store && key in store[id] then Some(store[id][key]) else None
  }

  /** `update_job_status`: a known job takes every given field's new value
      and keeps the fields not given; an unknown id changes nothing, so no
      job is ever inserted. */
  function UpdateJobStatus<V>(store: Store<V>, jobId: string, fields: Status<V>): (r: Store<V>)
    ensures r.Keys == store.Keys
    ensures jobId !in store ==> r == store
    ensures forall id :: id in store && id != jobId ==> r[id] == store[id]
    ensures jobId in store ==> r[jobId].Keys == store[jobId].Keys + fields.Keys
    ensures jobId in store ==> forall k :: k in fields ==> r[jobId][k] == fields[k]
    ensures jobId in store ==> forall k :: k in store[jobId] && k !in fields ==> r[jobId][k] == store[jobId][k]
  {
    if jobId in store then store[jobId := store[jobId] + fields] else store
  }

  /** Field by field: after an update, a lookup sees the given value exactly
      when the job existed and the field was given, and the old value
      otherwise. */
  lemma LookupAfterUpdate<V>(store: Store<V>, jobId: string, fields: Status<V>, id: string, key: string)
    ensures Lookup(UpdateJobStatus(store, jobId, fields), id, key) ==
            if id == jobId && id in store && key in fields then Some(fields[key]) else Lookup(store, id, key)
  {
  }

  /** Repeating an update changes nothing more. */
  lemma UpdateIdempotent<V>(store: Store<V>, jobId: string, fields: Status<V>)
    ensures UpdateJobStatus(UpdateJobStatus(store, jobId, fields), jobId, fields) == UpdateJobStatus(store, jobId, fields)
  {
    if jobId in store {
      var once := UpdateJobStatus(store, jobId, fields);
      assert once[jobId] + fields == once[jobId];
    }
  }

  /** Two updates of one job are one update with the merged fields, the
      later value winning on a shared key. */
  lemma UpdatesCompose<V>(store: Store<V>, jobId: string, first: Status<V>, second: Status<V>)
    ensures UpdateJobStatus(UpdateJobStatus(store, jobId, first), jobId, second) == UpdateJobStatus(store, jobId, first + second)
  {
    if jobId in store {
      assert (store[jobId] + first) + second == store[jobId] + (first + second);
    }
  }

  /** Updates of different jobs do not interfere. */
  lemma UpdatesCommute<V>(store: Store<V>, a: string, fa: Status<V>, b: string, fb: Status<V>)
    requires a != b
    ensures UpdateJobStatus(UpdateJobStatus(store, a, fa), b, fb) == UpdateJobStatus(UpdateJobStatus(store, b, fb), a, fa)
  {
  }

  /** An update with no fields leaves the store as it was. */
  lemma EmptyUpdateChangesNothing<V>(store: Store<V>, jobId: string)
    ensures UpdateJobStatus(store, jobId, map[]) == store
  {
    if jobId in store {
      assert store[jobId] + map[] == store[jobId];
    }
  }
}
