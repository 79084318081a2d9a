/** The idempotent sink: a table keyed by frame identity and event time, where a
    row that is already there stays as it is, and the transactional offset row. */
module Sink {
  import opened Folds
  import opened Frames

  datatype RowKey = RowKey(id: Identity, tMs: nat)

  datatype Reading = Reading(pressure: Channel, rate: Channel, proppant: Channel, temp: Channel)

  type Table = map<RowKey, Reading>

  function KeyOf(f: Frame): RowKey {
    RowKey(IdentityOf(f), f.tMs)
  }

  function ReadingOf(f: Frame): Reading {
    Reading(f.pressure, f.rate, f.proppant, f.temp)
  }

  function Insert(t: Table, f: Frame): Table {
    if KeyOf(f) in t then t else t[KeyOf(f) := ReadingOf(f)]
  }

  /** One multi-row insert: conflicts, within the batch or with the table, do nothing. */
  function InsertAll(t: Table, fs: seq<Frame>): Table {
    if fs == [] then t else Insert(InsertAll(t, fs[..|fs| - 1]), fs[|fs| - 1])
  }

  function KeysOf(fs: seq<Frame>): set<RowKey> {
    set f | f in fs :: KeyOf(f)
  }

  // ---- What an insert means ----

  /** Old rows stay untouched, and exactly the batch's keys are added. */
  lemma {:induction false} InsertKeeps(t: Table, fs: seq<Frame>)
    ensures InsertAll(t, fs).Keys == t.Keys + KeysOf(fs)
    ensures forall k :: k in t ==> InsertAll(t, fs)[k] == t[k]
  {
    if fs != [] {
      var gs, f := fs[..|fs| - 1], fs[|fs| - 1];
      InsertKeeps(t, gs);
      assert fs == gs + [f];
      assert KeysOf(fs) == KeysOf(gs) + {KeyOf(f)};
    }
  }

  /** The affected-rows count is the number of keys that were new. */
  lemma InsertCounts(t: Table, fs: seq<Frame>)
    ensures |InsertAll(t, fs)| == |t| + |KeysOf(fs) - t.Keys|
    ensures |InsertAll(t, fs)| - |t| <= |fs|
  {
    InsertKeeps(t, fs);
    var u := InsertAll(t, fs);
    assert u.Keys == t.Keys + (KeysOf(fs) - t.Keys);
    assert |u.Keys| == |u| && |t.Keys| == |t|;
    InsertAtMost(t, fs);
  }

  lemma {:induction false} InsertAtMost(t: Table, fs: seq<Frame>)
    ensures |t| <= |InsertAll(t, fs)| <= |t| + |fs|
  {
    if fs != [] {
      InsertAtMost(t, fs[..|fs| - 1]);
    }
  }

  /** Splitting a delivery into two batches changes nothing. */
  lemma {:induction false} InsertSplit(t: Table, a: seq<Frame>, b: seq<Frame>)
    ensures InsertAll(t, a + b) == InsertAll(InsertAll(t, a), b)
  {
    if b == [] {
      assert a + b == a;
    } else {
      InsertSplit(t, a, b[..|b| - 1]);
      assert (a + b)[..|a + b| - 1] == a + b[..|b| - 1];
    }
  }

  function Flatten(batches: seq<seq<Frame>>): seq<Frame> {
    if batches == [] then [] else Flatten(batches[..|batches| - 1]) + batches[|batches| - 1]
  }

  function InsertBatches(t: Table, batches: seq<seq<Frame>>): Table {
    if batches == [] then t
    else InsertAll(InsertBatches(t, batches[..|batches| - 1]), batches[|batches| - 1])
  }

  /** The sum of the affected-rows counts over a series of batches. */
  function InsertedSum(t: Table, batches: seq<seq<Frame>>): int {
    if batches == [] then 0
    else
      var before := InsertBatches(t, batches[..|batches| - 1]);
      InsertedSum(t, batches[..|batches| - 1]) + |InsertAll(before, batches[|batches| - 1])| - |before|
  }

  lemma {:induction false} BatchingIsIrrelevant(t: Table, batches: seq<seq<Frame>>)
    ensures InsertBatches(t, batches) == InsertAll(t, Flatten(batches))
    ensures InsertedSum(t, batches) == |KeysOf(Flatten(batches)) - t.Keys|
  {
    InsertCounts(t, Flatten(batches));
    if batches != [] {
      var init := batches[..|batches| - 1];
      BatchingIsIrrelevant(t, init);
      InsertCounts(t, Flatten(init));
      InsertSplit(t, Flatten(init), batches[|batches| - 1]);
    }
  }

  function FramesOf(fs: seq<Frame>): set<Frame> {
    set f | f in fs
  }

  function IdentitiesOf(fs: seq<Frame>): set<Identity> {
    set f | f in fs :: IdentityOf(f)
  }

  /** With one body per identity, a row holds the reading of the frame it names. */
  lemma {:induction false} RowsHoldTheirFrames(fs: seq<Frame>, f: Frame)
    requires f in fs && OneBodyPerIdentity(FramesOf(fs))
    ensures KeyOf(f) in InsertAll(map[], fs) && InsertAll(map[], fs)[KeyOf(f)] == ReadingOf(f)
  {
    var gs, l := fs[..|fs| - 1], fs[|fs| - 1];
    assert fs == gs + [l];
    InsertKeeps(map[], gs);
    assert forall g :: g in fs ==> g in FramesOf(fs);
    if f in gs {
      RowsHoldTheirFrames(gs, f);
    }
  }

  /** The frame can be read back: the row under its own numbers and event time has its own
      four values. */
  ghost predicate ReadsBack(t: Table, f: Frame) {
    var k := RowKey(Identity(WellId(f.pad, f.well), f.epoch, f.seqNo), f.tMs);
    && k in t
    && t[k].pressure == f.pressure && t[k].rate == f.rate
    && t[k].proppant == f.proppant && t[k].temp == f.temp
  }

  /** The first frame of its pad, well, epoch, number and event time in a batch, and none
      in the table. */
  ghost predicate FirstNew(t: Table, fs: seq<Frame>, i: nat) {
    && i < |fs|
    && RowKey(Identity(WellId(fs[i].pad, fs[i].well), fs[i].epoch, fs[i].seqNo), fs[i].tMs) !in t
    && forall j :: 0 <= j < i ==>
         !(fs[j].pad == fs[i].pad && fs[j].well == fs[i].well && fs[j].epoch == fs[i].epoch
           && fs[j].seqNo == fs[i].seqNo && fs[j].tMs == fs[i].tMs)
  }

  /** Nothing is mixed up on the way into the table: the first of its kind is what is
      stored. */
  lemma {:induction false} FirstIsStored(t: Table, fs: seq<Frame>, i: nat)
    requires FirstNew(t, fs, i)
    ensures ReadsBack(InsertAll(t, fs), fs[i])
  {
    var gs := fs[..|fs| - 1];
    InsertKeeps(t, gs);
    InsertKeeps(t, fs);
    if i < |gs| {
      FirstIsStored(t, gs, i);
    } else {
      assert forall f :: f in gs ==> KeyOf(f) != KeyOf(fs[i]);
    }
  }

  lemma FirstsAreStored(t: Table, fs: seq<Frame>)
    ensures forall i: nat :: FirstNew(t, fs, i) ==> ReadsBack(InsertAll(t, fs), fs[i])
  {
    hide ReadsBack, InsertAll;
    forall i: nat | FirstNew(t, fs, i) ensures ReadsBack(InsertAll(t, fs), fs[i]) {
      FirstIsStored(t, fs, i);
    }
  }

  /** With one body per identity every frame can be read back. */
  lemma EveryFrameReadsBack(fs: seq<Frame>, f: Frame)
    requires f in fs && OneBodyPerIdentity(FramesOf(fs))
    ensures ReadsBack(InsertAll(map[], fs), f)
  {
    RowsHoldTheirFrames(fs, f);
  }

  lemma SameFramesSameTable(fs: seq<Frame>, gs: seq<Frame>)
    requires FramesOf(fs) == FramesOf(gs) && OneBodyPerIdentity(FramesOf(fs))
    ensures InsertAll(map[], fs) == InsertAll(map[], gs)
  {
    InsertKeeps(map[], fs);
    InsertKeeps(map[], gs);
    assert forall f :: f in FramesOf(fs) <==> f in fs;
    assert forall f :: f in FramesOf(gs) <==> f in gs;
    forall k | k in InsertAll(map[], fs) ensures InsertAll(map[], fs)[k] == InsertAll(map[], gs)[k] {
      var f :| f in fs && KeyOf(f) == k;
      RowsHoldTheirFrames(fs, f);
      RowsHoldTheirFrames(gs, f);
    }
  }

  lemma KeysOfLast(gs: seq<Frame>, l: Frame)
    ensures KeysOf(gs + [l]) == KeysOf(gs) + {KeyOf(l)}
    ensures IdentitiesOf(gs + [l]) == IdentitiesOf(gs) + {IdentityOf(l)}
    ensures FramesOf(gs + [l]) == FramesOf(gs) + {l}
  {
  }

  lemma {:induction false} IdentitiesMatchKeys(fs: seq<Frame>)
    requires OneBodyPerIdentity(FramesOf(fs))
    ensures |KeysOf(fs)| == |IdentitiesOf(fs)|
  {
    if fs != [] {
      var gs, l := fs[..|fs| - 1], fs[|fs| - 1];
      assert fs == gs + [l];
      KeysOfLast(gs, l);
      IdentitiesMatchKeys(gs);
      assert KeyOf(l) in KeysOf(gs) <==> IdentityOf(l) in IdentitiesOf(gs) by {
        if IdentityOf(l) in IdentitiesOf(gs) {
          var g :| g in gs && IdentityOf(g) == IdentityOf(l);
          assert g in FramesOf(fs) && l in FramesOf(fs);
        }
      }
    }
  }

  /** The sink does not depend on order, on batching or on duplicates: two delivery
      sequences of the same frames leave the same table, whose size is the number
      of distinct identities. */
  lemma SinkIsOrderFree(a: seq<seq<Frame>>, b: seq<seq<Frame>>)
    requires FramesOf(Flatten(a)) == FramesOf(Flatten(b))
    requires OneBodyPerIdentity(FramesOf(Flatten(a)))
    ensures InsertBatches(map[], a) == InsertBatches(map[], b)
    ensures InsertedSum(map[], a) == InsertedSum(map[], b) == |IdentitiesOf(Flatten(a))|
  {
    hide KeysOf, FramesOf, IdentitiesOf, OneBodyPerIdentity, InsertedSum, InsertBatches, InsertAll;
    var none: Table := map[];
    BatchingIsIrrelevant(none, a);
    BatchingIsIrrelevant(none, b);
    SameFramesSameTable(Flatten(a), Flatten(b));
    InsertKeeps(none, Flatten(a));
    InsertKeeps(none, Flatten(b));
    IdentitiesMatchKeys(Flatten(a));
    assert KeysOf(Flatten(a)) - none.Keys == KeysOf(Flatten(a));
    assert KeysOf(Flatten(b)) - none.Keys == KeysOf(Flatten(b));
  }

  // ---- Watermarks ----

  /** `m` gives, for each well with rows, its newest epoch and the highest sequence
      number stored under that epoch. */
  ghost predicate IsWatermarks(t: Table, m: map<WellId, (nat, nat)>) {
    && (forall r :: r in t ==> r.id.source in m && AtMost(r, m[r.id.source]))
    && (forall w :: w in m ==> exists r :: r in t && r.id.source == w && (r.id.epoch, r.id.seqNo) == m[w])
  }

  /** (epoch, seq) order: an older epoch is below every number of a newer one. */
  predicate AtMost(r: RowKey, m: (nat, nat)) {
    r.id.epoch < m.0 || (r.id.epoch == m.0 && r.id.seqNo <= m.1)
  }

  // ---- The offset row ----

  function StoredIn(offsets: map<string, nat>, consumer: string): Option<nat> {
    if consumer in offsets then Some(offsets[consumer]) else None
  }

  /** The offset rows that a series of upserts leaves. */
  function Upserts(commits: seq<(string, nat)>): map<string, nat> {
    if commits == [] then map[]
    else
      var (consumer, offset) := commits[|commits| - 1];
      Upserts(commits[..|commits| - 1])[consumer := offset]
  }

  /** The newest commit of a consumer. */
  function Newest(commits: seq<(string, nat)>, consumer: string): Option<nat> {
    if commits == [] then None
    else if commits[|commits| - 1].0 == consumer then Some(commits[|commits| - 1].1)
    else Newest(commits[..|commits| - 1], consumer)
  }

  lemma UpsertsLast(commits: seq<(string, nat)>, consumer: string, offset: nat)
    ensures Upserts(commits + [(consumer, offset)]) == Upserts(commits)[consumer := offset]
  {
    assert (commits + [(consumer, offset)])[..|commits|] == commits;
  }

  lemma {:induction false} StoredIsTheNewest(commits: seq<(string, nat)>, consumer: string)
    ensures StoredIn(Upserts(commits), consumer) == Newest(commits, consumer)
  {
    if commits != [] {
      StoredIsTheNewest(commits[..|commits| - 1], consumer);
    }
  }

  // ---- The sink as the object the ingest holds ----

  /** Parallel columns, as the statement's array parameters. */
  datatype Columns = Columns(
    times: seq<nat>, pads: seq<nat>, wells: seq<nat>, epochs: seq<nat>, seqs: seq<nat>,
    pressures: seq<Channel>, rates: seq<Channel>, proppants: seq<Channel>, temps: seq<Channel>)

  ghost predicate ColumnsOf(c: Columns, fs: seq<Frame>) {
    && |c.times| == |c.pads| == |c.wells| == |c.epochs| == |c.seqs| == |fs|
    && |c.pressures| == |c.rates| == |c.proppants| == |c.temps| == |fs|
    && forall i :: 0 <= i < |fs| ==>
         && c.times[i] == fs[i].tMs && c.pads[i] == fs[i].pad && c.wells[i] == fs[i].well
         && c.epochs[i] == fs[i].epoch && c.seqs[i] == fs[i].seqNo && c.pressures[i] == fs[i].pressure
         && c.rates[i] == fs[i].rate && c.proppants[i] == fs[i].proppant && c.temps[i] == fs[i].temp
  }

  /** How a transaction ends: committed; rolled back with an error; or reported as
      failed (a timeout, a lost reply) although the server committed it. */
  datatype TxOutcome = Committed | RolledBack | CommittedUnreported

  class Database {
    var rows: Table
    var offsets: map<string, nat>
    /** Every offset committed, in order. */
    ghost var commits: seq<(string, nat)>

    /** The offset rows are what the commits left. */
    ghost predicate Faithful()
      reads this
    {
      offsets == Upserts(commits)
    }

    constructor ()
      ensures Faithful() && rows == map[] && offsets == map[] && commits == []
    {
      rows, offsets, commits := map[], map[], [];
    }

    static method BuildColumns(frames: seq<Frame>) returns (c: Columns)
      ensures ColumnsOf(c, frames)
    {
      c := Columns([], [], [], [], [], [], [], [], []);
      for i := 0 to |frames|
        invariant ColumnsOf(c, frames[..i])
      {
        var f := frames[i];
        c := Columns(
          c.times + [f.tMs], c.pads + [f.pad], c.wells + [f.well], c.epochs + [f.epoch], c.seqs + [f.seqNo],
          c.pressures + [f.pressure], c.rates + [f.rate], c.proppants + [f.proppant], c.temps + [f.temp]);
      }
      assert frames[..|frames|] == frames;
    }

    /** The multi-row insert over the unnested columns; returns the affected rows. */
    method Execute(c: Columns, ghost frames: seq<Frame>) returns (inserted: nat)
      requires ColumnsOf(c, frames)
      modifies `rows
      ensures rows == InsertAll(old(rows), frames)
      ensures forall i: nat :: FirstNew(old(rows), frames, i) ==> ReadsBack(rows, frames[i])
      ensures inserted == |KeysOf(frames) - old(rows).Keys|
    {
      hide FirstNew, ReadsBack;
      inserted := 0;
      for i := 0 to |c.times|
        invariant rows == InsertAll(old(rows), frames[..i])
        invariant inserted + |old(rows)| == |rows|
      {
        assert frames[..i + 1][..i] == frames[..i];
        var key := RowKey(Identity(WellId(c.pads[i], c.wells[i]), c.epochs[i], c.seqs[i]), c.times[i]);
        if key !in rows {
          rows := rows[key := Reading(c.pressures[i], c.rates[i], c.proppants[i], c.temps[i])];
          inserted := inserted + 1;
        }
      }
      assert frames[..|frames|] == frames;
      InsertCounts(old(rows), frames);
      FirstsAreStored(old(rows), frames);
    }

    /** Insert a batch. An error may hide a commit. */
    method InsertBatch(frames: seq<Frame>, outcome: TxOutcome) returns (r: Option<nat>)
      modifies `rows
      ensures rows == if outcome == RolledBack then old(rows) else InsertAll(old(rows), frames)
      ensures r == if outcome == Committed then Some(|KeysOf(frames) - old(rows).Keys|) else None
    {
      r := None;
      var columns := BuildColumns(frames);
      if outcome != RolledBack {
        var inserted := Execute(columns, frames);
        if outcome == Committed {
          r := Some(inserted);
        }
      }
    }

    /** Stream mode: the batch and the offset it reaches, in one transaction. */
    method InsertBatchWithOffset(frames: seq<Frame>, consumer: string, offset: nat, outcome: TxOutcome)
      returns (r: Option<nat>)
      modifies `rows, `offsets, `commits
      ensures outcome == RolledBack ==> rows == old(rows) && offsets == old(offsets) && commits == old(commits)
      ensures outcome != RolledBack ==>
                && rows == InsertAll(old(rows), frames) && offsets == old(offsets)[consumer := offset]
                && commits == old(commits) + [(consumer, offset)]
      ensures old(Faithful()) ==> Faithful()
      ensures r == if outcome == Committed then Some(|KeysOf(frames) - old(rows).Keys|) else None
    {
      hide Upserts, InsertAll, KeysOf;
      r := None;
      var columns := BuildColumns(frames);
      if outcome != RolledBack {
        var inserted := Execute(columns, frames);
        offsets := offsets[consumer := offset];
        UpsertsLast(commits, consumer, offset);
        commits := commits + [(consumer, offset)];
        if outcome == Committed {
          r := Some(inserted);
        }
      }
    }

    /** The offset that the consumer committed last, if it ever did. */
    method StoredOffset(consumer: string) returns (r: Option<nat>)
      ensures r == StoredIn(offsets, consumer)
      ensures Faithful() ==> r == Newest(commits, consumer)
    {
      StoredIsTheNewest(commits, consumer);
      r := if consumer in offsets then Some(offsets[consumer]) else None;
    }

    /** Each well's newest epoch and its highest stored sequence number. */
    method Watermarks() returns (m: map<WellId, (nat, nat)>)
      ensures IsWatermarks(rows, m)
    {
      m := map[];
      var rest := rows.Keys;
      while rest != {}
        invariant rest <= rows.Keys
        invariant forall r :: r in rows.Keys - rest ==> r.id.source in m && AtMost(r, m[r.id.source])
        invariant forall w :: w in m ==>
                    exists r :: r in rows && r.id.source == w && (r.id.epoch, r.id.seqNo) == m[w]
        decreases rest
      {
        var r :| r in rest;
        rest := rest - {r};
        if r.id.source !in m || !AtMost(r, m[r.id.source]) {
          m := m[r.id.source := (r.id.epoch, r.id.seqNo)];
        }
      }
    }
  }
}
