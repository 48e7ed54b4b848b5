/**
 The record store: one JSON list of records kept under the key
 `<namespace>.records` of an asynchronous string key-value store, read and
 rewritten whole by every mutation.

 The key-value store is a map from key to stored text, where stored text is
 either a valid JSON encoding of a `Value` or text that `JSON.parse` rejects.
 Whether the storage primitive's read or write fails in a given call is an
 input (`Primitive`).
 */
module Store {
  import opened Json
  import opened RecordList

  /** The text stored under a key. */
  datatype Blob = Corrupt | Encoded(value: Value)

  type Storage = map<string, Blob>

  /** How the storage primitive behaves during one call: whether
      `getItem` rejects and whether `setItem` rejects. A rejected `setItem`
      is taken to store nothing. */
  datatype Primitive = Primitive(readFails: bool, writeFails: bool)

  /** Why `records()` rejects. */
  datatype ReadError = ReadRejected | InvalidJson

  /** How a returned promise ends: resolved with a value, rejected with a
      reason, or left pending forever. */
  datatype Settlement<+T> = Resolved(value: T) | Rejected(reason: ReadError) | NeverSettles

  /** The outcome of a mutation together with the storage it leaves. */
  datatype Mutation = Mutation(outcome: Settlement<seq<Record>>, storage: Storage)

  /** The IPFS endpoint the app uses; a fixed placeholder in the program. */
  datatype Provider = Provider(protocol: string, address: string, port: string)

  const IpfsProvider := Provider("http", "localhost", "5001")

  /** The single key the record list lives under. */
  function RecordsKey(namespace: string): string {
    namespace + ".records"
  }

  /** `records()`: read and decode the stored list. A missing key decodes as
      `null`; any falsy decoded value is replaced by `[]`. */
  function Records(st: Storage, namespace: string, io: Primitive): (r: Settlement<Value>)
    ensures r.Resolved? <==>
      !io.readFails && (RecordsKey(namespace) in st ==> st[RecordsKey(namespace)].Encoded?)
    ensures !r.Resolved? ==> r.Rejected?
    ensures r.Resolved? ==> Truthy(r.value)
    ensures !io.readFails && RecordsKey(namespace) !in st ==> r == Resolved(Array([]))
    ensures !io.readFails && RecordsKey(namespace) in st && st[RecordsKey(namespace)].Encoded? ==>
      r.value == if Truthy(st[RecordsKey(namespace)].value) then st[RecordsKey(namespace)].value else Array([])
  {
    var key := RecordsKey(namespace);
    if io.readFails then Rejected(ReadRejected)
    else
      var decoded := if key in st then st[key] else Encoded(Null);
      match decoded
      case Corrupt => Rejected(InvalidJson)
      case Encoded(v) => Resolved(if Truthy(v) then v else Array([]))
  }

  /** Persist `list` (the `setItem` inside the `.then` callback). A failed
      write rejects the callback's promise, which nothing handles. */
  function Persist(st: Storage, namespace: string, io: Primitive, list: seq<Record>): Mutation {
    if io.writeFails then Mutation(NeverSettles, st)
    else Mutation(Resolved(list), st[RecordsKey(namespace) := Encoded(Array(list))])
  }

  /** The list a mutation starts from: the array `records()` resolved with. */
  predicate ReadsList(st: Storage, namespace: string, io: Primitive) {
    var read := Records(st, namespace, io);
    read.Resolved? && read.value.Array?
  }

  function CurrentList(st: Storage, namespace: string, io: Primitive): seq<Record>
    requires ReadsList(st, namespace, io)
  {
    Records(st, namespace, io).value.items
  }

  /** `addRecord(data)`: append `data` and write the list back. The
      `try/catch` only sees synchronous throws, so a rejected read, a
      truthy stored `true`, number or object (the spread throws) or a failed write leaves the
      returned promise pending; it is never rejected. */
  function AddRecord(st: Storage, namespace: string, io: Primitive, data: Record): (m: Mutation)
    ensures !m.outcome.Rejected?
    ensures m.outcome.Resolved? <==> ReadsList(st, namespace, io) && !io.writeFails
    ensures m.outcome.Resolved? ==>
      var prev := CurrentList(st, namespace, io);
      && |m.outcome.value| == |prev| + 1
      && m.outcome.value[..|prev|] == prev
      && m.outcome.value[|prev|] == data
      && m.storage == st[RecordsKey(namespace) := Encoded(Array(m.outcome.value))]
    ensures m.outcome.NeverSettles? ==> m.storage == st
  {
    match Records(st, namespace, io)
    case Resolved(Array(items)) => Persist(st, namespace, io, items + [data])
    case _ => Mutation(NeverSettles, st)
  }

  /** `removeRecord(r)`: drop every entry whose `id` equals `r.id` and write
      the list back; same settlement behaviour as `AddRecord`. */
  function RemoveRecord(st: Storage, namespace: string, io: Primitive, r: Record): (m: Mutation)
    ensures !m.outcome.Rejected?
    ensures m.outcome.Resolved? <==> ReadsList(st, namespace, io) && !io.writeFails
    ensures m.outcome.Resolved? ==>
      && IsRemoval(m.outcome.value, CurrentList(st, namespace, io), r.id)
      && m.storage == st[RecordsKey(namespace) := Encoded(Array(m.outcome.value))]
    ensures m.outcome.NeverSettles? ==> m.storage == st
  {
    match Records(st, namespace, io)
    case Resolved(Array(items)) =>
      RemoveIdIsRemoval(items, r.id);
      Persist(st, namespace, io, RemoveId(items, r.id))
    case _ => Mutation(NeverSettles, st)
  }

  /** A later `records()` read sees exactly the list a mutation resolved with. */
  lemma ReadAfterMutation(st: Storage, namespace: string, io: Primitive, later: Primitive, data: Record)
    requires !later.readFails
    ensures var m := AddRecord(st, namespace, io, data);
      m.outcome.Resolved? ==> Records(m.storage, namespace, later) == Resolved(Array(m.outcome.value))
    ensures var m := RemoveRecord(st, namespace, io, data);
      m.outcome.Resolved? ==> Records(m.storage, namespace, later) == Resolved(Array(m.outcome.value))
  {
  }

  /** `addRecord` does not check ids: adding a record whose `id` is already
      present leaves two or more entries with that `id`. */
  lemma AddRecordKeepsDuplicates(st: Storage, namespace: string, io: Primitive, data: Record)
    requires ReadsList(st, namespace, io) && !io.writeFails
    requires !IdFree(CurrentList(st, namespace, io), data.id)
    ensures CountId(AddRecord(st, namespace, io, data).outcome.value, data.id) >= 2
  {
    var prev := CurrentList(st, namespace, io);
    CountIdAppend(prev, data, data.id);
    CountIdPositive(prev, data.id);
  }

  /** Adding a record with a fresh `id` and then removing it resolves with
      the list read before the add, and stores that list. */
  lemma RemoveUndoesAdd(st: Storage, namespace: string, io: Primitive, data: Record)
    requires ReadsList(st, namespace, io) && !io.writeFails
    requires IdFree(CurrentList(st, namespace, io), data.id)
    ensures var added := AddRecord(st, namespace, io, data);
      var removed := RemoveRecord(added.storage, namespace, io, data);
      && removed.outcome == Resolved(CurrentList(st, namespace, io))
      && removed.storage == st[RecordsKey(namespace) := Encoded(Array(CurrentList(st, namespace, io)))]
  {
    var key := RecordsKey(namespace);
    var prev := CurrentList(st, namespace, io);
    var added := AddRecord(st, namespace, io, data);
    assert added.outcome.value == prev + [data];
    assert added.storage == st[key := Encoded(Array(prev + [data]))];
    assert Records(added.storage, namespace, io) == Resolved(Array(prev + [data]));
    RemoveIdAfterAppend(prev, data);
    var removed := RemoveRecord(added.storage, namespace, io, data);
    assert removed.outcome == Resolved(prev);
    assert added.storage[key := Encoded(Array(prev))] == st[key := Encoded(Array(prev))];
  }

  /** Removing an `id` the stored list does not hold resolves with that list
      unchanged. */
  lemma RemoveAbsentIsNoop(st: Storage, namespace: string, io: Primitive, r: Record)
    requires ReadsList(st, namespace, io) && !io.writeFails
    requires IdFree(CurrentList(st, namespace, io), r.id)
    ensures RemoveRecord(st, namespace, io, r).outcome == Resolved(CurrentList(st, namespace, io))
  {
    RemoveIdAbsent(CurrentList(st, namespace, io), r.id);
  }

  /** Calling `removeRecord` twice with the same record stores and settles
      as one call does, whether or not the first call resolves. */
  lemma RemoveRecordIdempotent(st: Storage, namespace: string, io: Primitive, r: Record)
    ensures var once := RemoveRecord(st, namespace, io, r);
      var twice := RemoveRecord(once.storage, namespace, io, r);
      twice == once
  {
    var key := RecordsKey(namespace);
    var once := RemoveRecord(st, namespace, io, r);
    if once.outcome.Resolved? {
      var prev := CurrentList(st, namespace, io);
      var kept := RemoveId(prev, r.id);
      assert once.outcome.value == kept;
      assert once.storage == st[key := Encoded(Array(kept))];
      assert Records(once.storage, namespace, io) == Resolved(Array(kept));
      RemoveIdIdempotent(prev, r.id);
      assert once.storage[key := Encoded(Array(kept))] == once.storage;
    } else {
      assert once.storage == st;
    }
  }

  /** Starting from an empty store: add `{id: 'r1', type: 'lab'}`, read it
      back, remove it, and read `[]`. */
  lemma EmptyStoreScenario(namespace: string)
    ensures var ok := Primitive(false, false);
      var r1 := Record("r1", map["type" := "lab"]);
      var added := AddRecord(map[], namespace, ok, r1);
      var removed := RemoveRecord(added.storage, namespace, ok, Record("r1", map[]));
      && added.outcome == Resolved([r1])
      && Records(added.storage, namespace, ok) == Resolved(Array([r1]))
      && removed.outcome == Resolved([])
      && Records(removed.storage, namespace, ok) == Resolved(Array([]))
  {
    var r1 := Record("r1", map["type" := "lab"]);
    assert RemoveId([r1], "r1") == [];
  }
}
