/** The apply loop of source/db/kv_server.cpp, with LevelDB as a map. */
module KvStore {
  import opened Bytes
  import opened Options
  import opened RaftTypes
  import opened Codec
  import opened Messages
  import opened ByteArrayModule
  import opened Serializer
  import opened MessageReader
  import opened RaftCluster
  import opened RaftSafety
  import opened RaftApply
  import opened RaftNode
  import opened RaftValues

  type Store = map<Str, Str>

  const BLOCK := 4096

  /**
   Empty entries and entries that do not decode are skipped; all others put their key.  Nothing is
   left when decoding goes through the null block pointer: the server crashes.
   */
  function ApplyEntry(db: Store, e: LogEntry): Option<Store> {
    if e.value == [] then Some(db)
    else match RecordOf(e.value, BLOCK)
      case OutOfRange => Some(db)
      case NullBlock => None
      case Value(r) => Some(db[r.key := r.value])
  }

  function ApplyEntries(db: Store, es: seq<LogEntry>): Option<Store> {
    if es == [] then Some(db)
    else
      var before :- ApplyEntries(db, es[..|es| - 1]);
      ApplyEntry(before, es[|es| - 1])
  }

  /** The loop of `start`, popping the channel until `chan` is used up or the server crashes. */
  method ApplyLoop(db: Store, chan: seq<LogEntry>) returns (r: Option<Store>)
    ensures r == ApplyEntries(db, chan)
    ensures r.Some? ==> forall key :: Holds(db, chan, r.value, key)
  {
    hide RecordOf, Holds;
    var store := db;
    var i := 0;
    while i < |chan|
      invariant i <= |chan| && Some(store) == ApplyEntries(db, chan[..i])
    {
      var entry := chan[i];
      assert chan[..i + 1][..i] == chan[..i];
      i := i + 1;
      if entry.value == [] {
        continue;
      }
      var l := DecodeRecord(entry.value, BLOCK);
      match l
      case OutOfRange =>
      case NullBlock =>
        CrashStays(db, chan, i);
        return None;
      case Value(x) => store := store[x.key := x.value];
    }
    assert chan[..i] == chan;
    r := Some(store);
    forall key ensures Holds(db, chan, store, key) {
      StoreHolds(db, chan, key);
    }
  }

  lemma {:induction false} CrashStays(db: Store, es: seq<LogEntry>, i: nat)
    requires i <= |es| && ApplyEntries(db, es[..i]) == None
    ensures ApplyEntries(db, es) == None
    decreases |es|
  {
    hide ApplyEntry;
    if i < |es| {
      var n := |es| - 1;
      assert es[..n][..i] == es[..i];
      CrashStays(db, es[..n], i);
    } else {
      assert es[..i] == es;
    }
  }

  /**
   What a client hands to `start` reaches the store unchanged, unless its value is empty and its
   encoding fills whole blocks: then every server that applies it crashes.
   */
  lemma PutReachesStoreIff(db: Store, r: Record, index: int, term: int)
    requires RecordOk(r)
    ensures
      var applied := ApplyEntry(db, LogEntry(index, term, EncRecord(r)));
      && (applied == Some(db[r.key := r.value]) <==> !(r.value == [] && WholeBlocks(EncRecord(r), BLOCK)))
      && (applied == None <==> r.value == [] && WholeBlocks(EncRecord(r), BLOCK))
  {
    hide RecordAt, WholeBlocks;
    assert EncRecord(r) + [] == EncRecord(r);
    RecordAtInverts(r, [], WholeBlocks(EncRecord(r), BLOCK));
  }

  /** Such a put exists: a small id, a key of 4092 bytes and an empty value. */
  lemma PutCrashes(db: Store, id: nat, key: Str, index: int, term: int)
    requires id < 0x80 && |key| == 4092
    ensures RecordOk(Record(id, key, [])) && ApplyEntry(db, LogEntry(index, term, EncRecord(Record(id, key, [])))) == None
  {
    var r := Record(id, key, []);
    assert EncVarint(4092) == [4092 % 0x80 + 0x80] + EncVarint(31);
    assert |EncVarint(id)| == 1 && |EncVarint(31)| == 1 && |EncVarint(0)| == 1;
    assert |EncRecord(r)| == 4096;
    PutReachesStoreIff(db, r, index, term);
  }

  /** The entry's value cannot be read without going through the null block pointer. */
  predicate Crashes(e: LogEntry) {
    e.value != [] && RecordOf(e.value, BLOCK) == NullBlock
  }

  /** The loop crashes if and only if some entry does. */
  lemma {:induction false} CrashIff(db: Store, es: seq<LogEntry>)
    ensures ApplyEntries(db, es) == None <==> exists i :: 0 <= i < |es| && Crashes(es[i])
  {
    hide RecordOf;
    if es != [] {
      var n := |es| - 1;
      CrashIff(db, es[..n]);
      assert forall i :: 0 <= i < n ==> es[..n][i] == es[i];
    }
  }

  // ----- What the store holds -----

  /** The record that an entry puts, if it puts one. */
  function Putting(e: LogEntry): Option<Record> {
    if e.value == [] then None
    else match RecordOf(e.value, BLOCK)
      case Value(r) => Some(r)
      case _ => None
  }

  predicate Puts(e: LogEntry, key: Str) {
    Putting(e).Some? && Putting(e).value.key == key
  }

  /** Entry i is the last one that puts the key. */
  ghost predicate LastPut(es: seq<LogEntry>, key: Str, i: nat) {
    i < |es| && Puts(es[i], key) && forall j :: i < j < |es| ==> !Puts(es[j], key)
  }

  ghost predicate NoPut(es: seq<LogEntry>, key: Str) {
    forall i :: 0 <= i < |es| ==> !Puts(es[i], key)
  }

  /** A key that some entry puts has the value of the last such entry, and every other key is as it was. */
  ghost predicate Holds(db: Store, es: seq<LogEntry>, store: Store, key: Str) {
    && (forall i: nat :: LastPut(es, key, i) ==> key in store && store[key] == Putting(es[i]).value.value)
    && (NoPut(es, key) ==> (key in store <==> key in db) && (key in db ==> store[key] == db[key]))
  }

  lemma ApplyEffect(db: Store, e: LogEntry, key: Str)
    requires ApplyEntry(db, e).Some?
    ensures
      var after := ApplyEntry(db, e).value;
      if Puts(e, key) then key in after && after[key] == Putting(e).value.value
      else (key in after <==> key in db) && (key in db ==> after[key] == db[key])
  {
    hide RecordOf;
  }

  /** What one more entry does to the last put. */
  lemma LastPutNext(es: seq<LogEntry>, e: LogEntry, key: Str, i: nat)
    requires LastPut(es + [e], key, i)
    ensures i <= |es| && (es + [e])[i] == (if i < |es| then es[i] else e) && Putting((es + [e])[i]).Some?
    ensures i < |es| ==> LastPut(es, key, i) && !Puts(e, key)
    ensures i == |es| ==> Puts(e, key)
  {
    hide Putting;
    var all := es + [e];
    assert all[|es|] == e;
    assert forall j :: 0 <= j < |es| ==> all[j] == es[j];
  }

  lemma NoPutNext(es: seq<LogEntry>, e: LogEntry, key: Str)
    requires NoPut(es + [e], key)
    ensures NoPut(es, key) && !Puts(e, key)
  {
    hide Puts;
    var all := es + [e];
    assert all[|es|] == e;
    assert forall j :: 0 <= j < |es| ==> all[j] == es[j];
  }

  lemma HoldsNext(db: Store, es: seq<LogEntry>, before: Store, e: LogEntry, key: Str)
    requires Holds(db, es, before, key) && ApplyEntry(before, e).Some?
    ensures Holds(db, es + [e], ApplyEntry(before, e).value, key)
  {
    hide ApplyEntry, Puts, Putting, LastPut, NoPut;
    var all, after := es + [e], ApplyEntry(before, e).value;
    ApplyEffect(before, e, key);
    forall i: nat | LastPut(all, key, i)
      ensures i < |all| && Putting(all[i]).Some? && key in after && after[key] == Putting(all[i]).value.value
    {
      LastPutNext(es, e, key, i);
    }
    if NoPut(all, key) {
      NoPutNext(es, e, key);
    }
  }

  /** What the fold of the apply loop computes. */
  lemma {:induction false} StoreHolds(db: Store, es: seq<LogEntry>, key: Str)
    requires ApplyEntries(db, es).Some?
    ensures Holds(db, es, ApplyEntries(db, es).value, key)
  {
    hide ApplyEntry, Puts;
    if es != [] {
      var init, e := es[..|es| - 1], es[|es| - 1];
      StoreHolds(db, init, key);
      HoldsNext(db, init, ApplyEntries(db, init).value, e, key);
      assert init + [e] == es;
    }
  }

  /** Two replicas that have applied equally many entries hold equal stores, or have both crashed, whenever they are looked at. */
  lemma ReplicasAgree(r: Run, a: nat, b: nat, i: nat, j: nat, db: Store)
    requires IsRun(r) && Guarded(r) && Calm(r) && Has(r, a, i) && Has(r, b, j)
    requires |At(r, a, i).applied| == |At(r, b, j).applied|
    ensures ApplyEntries(db, At(r, a, i).applied) == ApplyEntries(db, At(r, b, j).applied)
  {
    ReplicasApplyOneHistory(r, a, b, i, j);
    assert At(r, a, i).applied == At(r, b, j).applied;
  }

  /** A record that a leader took from a client at step b, in the server that applied its index with its term. */
  lemma PutIsApplied(r: Run, b: nat, a: nat, j: nat, rec: Record)
    requires IsRun(r) && Guarded(r) && Calm(r) && b < |r.steps| && b < a && Has(r, a, j)
    requires r.steps[b].ClientAppend? && r.steps[b].value == EncRecord(rec) && Has(r, b, r.steps[b].i)
    requires At(r, b, r.steps[b].i).role == Leader && At(r, b, r.steps[b].i).log != []
    requires
      var idx, done := Last(At(r, b, r.steps[b].i).log).index + 1, At(r, a, j).applied;
      0 < idx <= |done| && done[idx - 1].term == At(r, b, r.steps[b].i).currentTerm
    ensures At(r, a, j).applied[Last(At(r, b, r.steps[b].i).log).index].value == EncRecord(rec)
  {
    hide Guarded, Calm, EncRecord, AppliedOk;
    var i := r.steps[b].i;
    var idx := Last(At(r, b, i).log).index + 1;
    ClientValueStored(r, b);
    var e :| At(r, b + 1, i).log == At(r, b, i).log + [e] && AppendedAt(r, b, e);
    ReplicasApplyOneHistory(r, a, a, j, j);
    EntryAtItsIndex(r, b + 1, i, idx);
    LogMatching(r, b + 1, a, i, j, idx);
    assert At(r, b + 1, i).log[..idx + 1][idx] == At(r, a, j).log[..idx + 1][idx];
  }

  /** Entries of the logs of a cluster stand at their index. */
  lemma EntryAtItsIndex(r: Run, a: nat, i: nat, idx: int)
    requires IsRun(r) && Has(r, a, i) && At(r, a, i).log != [] && Last(At(r, a, i).log).index == idx
    ensures idx == |At(r, a, i).log| - 1
  {
    LogMatching(r, a, a, i, i, |At(r, a, i).log| - 1);
  }

  /**
   A client's put reaches every store: once a server has applied the entry, and until it applies another put
   of that key, its store has the value.
   */
  lemma ClientPutReachesStore(r: Run, b: nat, a: nat, j: nat, rec: Record, db: Store)
    requires IsRun(r) && Guarded(r) && Calm(r) && b < |r.steps| && b < a && Has(r, a, j)
    requires r.steps[b].ClientAppend? && r.steps[b].value == EncRecord(rec) && Has(r, b, r.steps[b].i)
    requires At(r, b, r.steps[b].i).role == Leader && At(r, b, r.steps[b].i).log != []
    requires RecordOk(rec) && !(rec.value == [] && WholeBlocks(EncRecord(rec), BLOCK))
    requires
      var idx, done := Last(At(r, b, r.steps[b].i).log).index + 1, At(r, a, j).applied;
      && 0 < idx <= |done| && done[idx - 1].term == At(r, b, r.steps[b].i).currentTerm
      && forall p :: idx <= p < |done| ==> !Puts(done[p], rec.key)
    requires ApplyEntries(db, At(r, a, j).applied).Some?
    ensures
      var store := ApplyEntries(db, At(r, a, j).applied).value;
      rec.key in store && store[rec.key] == rec.value
  {
    hide Guarded, Calm, EncRecord, RecordOf, WholeBlocks, ApplyEntries;
    var k, done := Last(At(r, b, r.steps[b].i).log).index, At(r, a, j).applied;
    PutIsApplied(r, b, a, j, rec);
    PutsItself(rec, done[k]);
    StoreHolds(db, done, rec.key);
    assert LastPut(done, rec.key, k);
  }

  lemma PutsItself(rec: Record, e: LogEntry)
    requires RecordOk(rec) && !(rec.value == [] && WholeBlocks(EncRecord(rec), BLOCK)) && e.value == EncRecord(rec)
    ensures Putting(e) == Some(rec)
  {
    hide RecordAt, WholeBlocks;
    assert EncRecord(rec) + [] == EncRecord(rec);
    RecordAtInverts(rec, [], WholeBlocks(EncRecord(rec), BLOCK));
  }
}
