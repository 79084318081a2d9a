/** Stream-mode ingest: rows and offset in one transaction. Sessions start where they
    are told to, crash anywhere, and a commit whose reply is lost may take effect
    later or never. */
module StreamIngest {
  import opened Folds
  import opened Frames
  import opened Sink

  datatype From = First | Next | Offset(n: nat)

  /** Where the current session is: it reads record `pos` next and has read the
      records from `lo` on since its last commit. */
  datatype Session = Session(lo: nat, pos: nat, batch: seq<Frame>, lastOffset: nat, due: bool)

  /** A transaction with its span of records, `lo` up to and including `offset`. */
  datatype Tx = Tx(lo: nat, frames: seq<Frame>, offset: nat)

  /** `spans` lists the spans of all commits; `reached` is the highest offset ever
      committed, plus one. `doubt` holds transactions that timed out. */
  datatype Ingest = Ingest(
    log: seq<Payload>, table: Table, stored: Option<nat>, session: Option<Session>,
    doubt: seq<Tx>, spans: seq<(nat, nat)>, reached: nat)

  function Empty(): Ingest {
    Ingest([], map[], None, None, [], [], 0)
  }

  datatype Outcome = Commits | RollsBack | TimesOut

  datatype Event =
    | Append(record: Payload)
    | Start(force: bool, from: From)
    | Deliver
    | Flush(outcome: Outcome)
    | Crash
    | Land(i: nat)
    | Vanish(i: nat)

  predicate Possible(s: Ingest, e: Event) {
    match e
    case Append(_) => true
    case Start(_, _) => s.session == None
    case Deliver => s.session.Some? && s.session.value.pos < |s.log|
    case Flush(_) => s.session.Some?
    case Crash => s.session.Some?
    case Land(i) => i < |s.doubt|
    case Vanish(i) => i < |s.doubt|
  }

  /** After a delivery that leaves the batch at its configured maximum the loop flushes
      before it reads on. */
  predicate MustFlush(v: Session, batchMax: nat) {
    v.due && |v.batch| >= batchMax
  }

  /** A tick flushes a batch that has frames. */
  predicate Flushes(v: Session, batchMax: nat) {
    v.batch != [] || MustFlush(v, batchMax)
  }

  predicate Enabled(s: Ingest, batchMax: nat, e: Event) {
    && Possible(s, e)
    && (e.Flush? ==> Flushes(s.session.value, batchMax))
    && (e.Deliver? ==> !MustFlush(s.session.value, batchMax))
  }

  /** A session resumes behind the stored offset if there is one and nothing is forced;
      otherwise the configuration decides. */
  function StartAt(s: Ingest, force: bool, from: From): nat {
    if !force && s.stored.Some? then s.stored.value + 1
    else match from
         case First => 0
         case Next => |s.log|
         case Offset(n) => n
  }

  /** Rows and offset take effect together; the offset upsert overwrites. */
  function Commit(s: Ingest, t: Tx): Ingest {
    s.(table := InsertAll(s.table, t.frames), stored := Some(t.offset), spans := s.spans + [(t.lo, t.offset + 1)],
       reached := if t.offset + 1 > s.reached then t.offset + 1 else s.reached)
  }

  /** One record: poison is skipped but moves the offset. */
  function Accept(v: Session, p: Payload): Session {
    v.(pos := v.pos + 1, lastOffset := v.pos, due := true,
       batch := if Usable(p) then v.batch + [p.frame] else v.batch)
  }

  function TxOf(v: Session): Tx {
    Tx(v.lo, v.batch, v.lastOffset)
  }

  function Step(s: Ingest, e: Event): Ingest
    requires Possible(s, e)
  {
    match e
    case Append(p) => s.(log := s.log + [p])
    case Start(force, from) =>
      var n := StartAt(s, force, from);
      s.(session := Some(Session(n, n, [], 0, false)))
    case Deliver => s.(session := Some(Accept(s.session.value, s.log[s.session.value.pos])))
    case Flush(outcome) =>
      var v := s.session.value;
      (match outcome
       case Commits => Commit(s, TxOf(v)).(session := Some(v.(lo := v.pos, batch := [], due := false)))
       case RollsBack => s.(session := None)
       case TimesOut => s.(session := None, doubt := s.doubt + [TxOf(v)]))
    case Crash => s.(session := None)
    case Land(i) => Commit(s, s.doubt[i]).(doubt := Without(s.doubt, i))
    case Vanish(i) => s.(doubt := Without(s.doubt, i))
  }

  // ---- What the table should hold ----

  /** The valid records of a stretch of the log. */
  function ValidOf(records: seq<Payload>): seq<Frame> {
    if records == [] then []
    else
      var p := records[|records| - 1];
      ValidOf(records[..|records| - 1]) + if Usable(p) then [p.frame] else []
  }

  lemma {:induction false} ValidJoin(a: seq<Payload>, b: seq<Payload>)
    ensures ValidOf(a + b) == ValidOf(a) + ValidOf(b)
  {
    if b == [] {
      assert a + b == a;
    } else {
      var n := |b| - 1;
      ValidJoin(a, b[..n]);
      assert (a + b)[..|a + b| - 1] == a + b[..n];
    }
  }

  lemma {:induction false} ValidHas(records: seq<Payload>, f: Frame)
    ensures f in ValidOf(records) <==> Json(f) in records && IsValid(f)
  {
    if records != [] {
      var n := |records| - 1;
      ValidHas(records[..n], f);
      assert records == records[..n] + [records[n]];
    }
  }

  /** Rows that are already there make an insert a no-op. */
  lemma {:induction false} InsertAgain(t: Table, fs: seq<Frame>)
    requires KeysOf(fs) <= t.Keys
    ensures InsertAll(t, fs) == t
  {
    if fs != [] {
      var n := |fs| - 1;
      assert fs == fs[..n] + [fs[n]];
      KeysOfLast(fs[..n], fs[n]);
      InsertAgain(t, fs[..n]);
    }
  }

  function Upto(log: seq<Payload>, n: nat): Table
    requires n <= |log|
  {
    InsertAll(map[], ValidOf(log[..n]))
  }

  lemma ValidPart(log: seq<Payload>, a: nat, b: nat, c: nat)
    requires a <= b <= c <= |log|
    ensures ValidOf(log[a..c]) == ValidOf(log[a..b]) + ValidOf(log[b..c])
  {
    ValidJoin(log[a..b], log[b..c]);
    assert log[a..b] + log[b..c] == log[a..c];
  }

  lemma UptoKeys(log: seq<Payload>, a: nat, b: nat)
    requires a <= b <= |log|
    ensures KeysOf(ValidOf(log[a..b])) <= Upto(log, b).Keys
  {
    InsertKeeps(map[], ValidOf(log[..b]));
    ValidPart(log, 0, a, b);
    assert log[0..a] == log[..a] && log[0..b] == log[..b];
  }

  /** Replaying a span that starts within what is covered adds exactly the rest. */
  lemma ReplayAdds(log: seq<Payload>, lo: nat, hi: nat, n: nat)
    requires lo <= n <= |log| && lo <= hi <= |log|
    ensures InsertAll(Upto(log, n), ValidOf(log[lo..hi])) == Upto(log, if hi > n then hi else n)
  {
    if hi <= n {
      UptoKeys(log, lo, n);
      ValidPart(log, lo, hi, n);
      assert KeysOf(ValidOf(log[lo..hi])) <= KeysOf(ValidOf(log[lo..n]));
      InsertAgain(Upto(log, n), ValidOf(log[lo..hi]));
    } else {
      UptoKeys(log, lo, n);
      InsertAgain(Upto(log, n), ValidOf(log[lo..n]));
      ValidPart(log, lo, n, hi);
      ValidPart(log, 0, n, hi);
      assert log[0..n] == log[..n] && log[0..hi] == log[..hi];
      InsertSplit(Upto(log, n), ValidOf(log[lo..n]), ValidOf(log[n..hi]));
      InsertSplit(map[], ValidOf(log[..n]), ValidOf(log[n..hi]));
    }
  }

  // ---- The invariant under any replay that starts within what is covered ----

  ghost predicate TxOk(s: Ingest, t: Tx) {
    t.lo <= s.reached && t.lo <= t.offset < |s.log| && t.frames == ValidOf(s.log[t.lo..t.offset + 1])
  }

  ghost predicate SessionOk(s: Ingest, v: Session) {
    && v.lo <= s.reached && v.lo <= v.pos
    && (v.lo < v.pos ==> v.pos <= |s.log| && v.lastOffset + 1 == v.pos && v.batch == ValidOf(s.log[v.lo..v.pos]))
    && (v.lo == v.pos ==> v.batch == [] && !v.due)
  }

  ghost predicate Sound(s: Ingest) {
    && s.reached <= |s.log|
    && s.table == Upto(s.log, s.reached)
    && (s.stored.Some? ==> s.stored.value < s.reached)
    && (s.session.Some? ==> SessionOk(s, s.session.value))
    && (forall i :: 0 <= i < |s.doubt| ==> TxOk(s, s.doubt[i]))
  }

  /** The condition on a start that a caller can check: it skips no uncommitted record. */
  predicate Covered(s: Ingest, e: Event) {
    e.Start? ==> StartAt(s, e.force, e.from) <= s.reached
  }

  lemma CommitSound(s: Ingest, t: Tx)
    requires Sound(s) && TxOk(s, t)
    ensures Sound(Commit(s, t).(session := None))
    ensures Commit(s, t).reached >= s.reached
  {
    hide ValidOf, InsertAll, Upto, SessionOk;
    ReplayAdds(s.log, t.lo, t.offset + 1, s.reached);
    var r := Commit(s, t);
    forall i | 0 <= i < |r.doubt| ensures TxOk(r, r.doubt[i]) {
      assert TxOk(s, s.doubt[i]);
    }
  }

  lemma SliceSame(log: seq<Payload>, p: Payload, a: nat, b: nat)
    requires a <= b <= |log|
    ensures (log + [p])[a..b] == log[a..b]
  {
  }

  lemma AppendSound(s: Ingest, p: Payload)
    requires Sound(s)
    ensures Sound(Step(s, Append(p)))
  {
    hide ValidOf, InsertAll;
    var r := Step(s, Append(p));
    assert r.log[..s.reached] == s.log[..s.reached];
    if s.session.Some? && s.session.value.lo < s.session.value.pos {
      SliceSame(s.log, p, s.session.value.lo, s.session.value.pos);
    }
    forall i | 0 <= i < |r.doubt| ensures TxOk(r, r.doubt[i]) {
      var t := s.doubt[i];
      assert TxOk(s, t);
      SliceSame(s.log, p, t.lo, t.offset + 1);
    }
  }

  lemma ValidLast(log: seq<Payload>, a: nat, b: nat)
    requires a <= b < |log|
    ensures ValidOf(log[a..b + 1]) == ValidOf(log[a..b]) + if Usable(log[b]) then [log[b].frame] else []
    ensures ValidOf(log[a..a]) == []
  {
    var part := log[a..b + 1];
    assert part[..|part| - 1] == log[a..b] && part[|part| - 1] == log[b];
  }

  lemma AcceptOk(s: Ingest, v: Session)
    requires SessionOk(s, v) && v.pos < |s.log|
    ensures SessionOk(s, Accept(v, s.log[v.pos]))
  {
    hide ValidOf;
    ValidLast(s.log, v.lo, v.pos);
  }

  lemma DeliverSound(s: Ingest)
    requires Sound(s) && s.session.Some? && s.session.value.pos < |s.log|
    ensures Sound(Step(s, Deliver))
  {
    AcceptOk(s, s.session.value);
    hide SessionOk, Upto, Accept, ValidOf;
    var r := Step(s, Deliver);
    SessionSame(s, r);
    forall i | 0 <= i < |r.doubt| ensures TxOk(r, r.doubt[i]) {
      assert TxOk(s, s.doubt[i]);
    }
  }

  lemma SessionSame(s: Ingest, r: Ingest)
    requires r.log == s.log && r.reached >= s.reached
    ensures forall v :: SessionOk(s, v) ==> SessionOk(r, v)
    ensures forall t :: TxOk(s, t) ==> TxOk(r, t)
  {
    hide ValidOf;
  }

  /** A flush always has a span of its own. */
  lemma FlushSpan(s: Ingest, batchMax: nat, outcome: Outcome)
    requires Sound(s) && Enabled(s, batchMax, Flush(outcome))
    ensures var v := s.session.value;
            TxOk(s, TxOf(v)) && v.lo < v.pos <= |s.log| && TxOf(v).offset + 1 == v.pos
  {
    hide ValidOf, Upto;
  }

  lemma FlushSound(s: Ingest, batchMax: nat, outcome: Outcome)
    requires Sound(s) && Enabled(s, batchMax, Flush(outcome))
    ensures Sound(Step(s, Flush(outcome)))
  {
    FlushSpan(s, batchMax, outcome);
    CommitSound(s, TxOf(s.session.value));
    hide ValidOf, Upto, InsertAll, Enabled;
  }

  lemma LandSound(s: Ingest, i: nat)
    requires Sound(s) && i < |s.doubt|
    ensures Sound(Step(s, Land(i))) && Sound(Step(s, Vanish(i)))
  {
    hide ValidOf, Upto, InsertAll, SessionOk, TxOk, Commit;
    assert TxOk(s, s.doubt[i]);
    CommitSound(s, s.doubt[i]);
    CommitShape(s, s.doubt[i]);
    var r, v := Step(s, Land(i)), Step(s, Vanish(i));
    SessionSame(s, r);
    SessionSame(s, v);
    forall j | 0 <= j < |Without(s.doubt, i)|
      ensures TxOk(r, Without(s.doubt, i)[j]) && TxOk(v, Without(s.doubt, i)[j])
    {
      var t := Without(s.doubt, i)[j];
      assert t == s.doubt[if j < i then j else j + 1];
      assert TxOk(s, t);
    }
  }

  lemma CommitShape(s: Ingest, t: Tx)
    ensures var r := Commit(s, t); r.log == s.log && r.session == s.session && r.doubt == s.doubt
  {
  }

  lemma StepSound(s: Ingest, batchMax: nat, e: Event)
    requires Sound(s) && Enabled(s, batchMax, e) && Covered(s, e)
    ensures Sound(Step(s, e))
  {
    match e
    case Append(p) => AppendSound(s, p);
    case Start(force, from) => StartSound(s, force, from);
    case Deliver => DeliverSound(s);
    case Flush(outcome) => FlushSound(s, batchMax, outcome);
    case Crash => CrashSound(s);
    case Land(i) => LandSound(s, i);
    case Vanish(i) => LandSound(s, i);
  }

  lemma StartSound(s: Ingest, force: bool, from: From)
    requires Sound(s) && s.session == None && StartAt(s, force, from) <= s.reached
    ensures Sound(Step(s, Start(force, from)))
  {
    hide ValidOf, Upto;
    SessionSame(s, Step(s, Start(force, from)));
  }

  lemma CrashSound(s: Ingest)
    requires Sound(s) && s.session.Some?
    ensures Sound(Step(s, Crash))
  {
    hide ValidOf, Upto;
    SessionSame(s, Step(s, Crash));
  }

  // ---- Replays ----

  ghost predicate Path(batchMax: nat, ss: seq<Ingest>, es: seq<Event>) {
    && |ss| == |es| + 1
    && forall i :: 0 <= i < |es| ==> Enabled(ss[i], batchMax, es[i]) && ss[i + 1] == Step(ss[i], es[i])
  }

  function Most(batchMax: nat): nat {
    if batchMax == 0 then 1 else batchMax
  }

  ghost predicate Limited(s: Ingest, batchMax: nat) {
    s.session.Some? ==>
      var v := s.session.value;
      |v.batch| <= Most(batchMax) && (!v.due ==> v.batch == [])
  }

  lemma StepLimited(s: Ingest, batchMax: nat, e: Event)
    requires Limited(s, batchMax) && Enabled(s, batchMax, e)
    ensures Limited(Step(s, e), batchMax)
  {
    hide InsertAll, StartAt, Usable;
  }

  /** A batch never grows past its maximum, or past one frame when the maximum is zero. */
  lemma {:induction false} BatchIsLimited(batchMax: nat, ss: seq<Ingest>, es: seq<Event>)
    requires Path(batchMax, ss, es) && ss[0] == Empty()
    ensures Limited(ss[|es|], batchMax)
    decreases |es|
  {
    if es != [] {
      hide Limited, Step, Flushes, MustFlush, Possible;
      var n := |es| - 1;
      assert Path(batchMax, ss[..n + 1], es[..n]) by {
        assert forall i :: 0 <= i < n ==> es[..n][i] == es[i];
      }
      BatchIsLimited(batchMax, ss[..n + 1], es[..n]);
      assert Enabled(ss[n], batchMax, es[n]) && ss[n + 1] == Step(ss[n], es[n]);
      StepLimited(ss[n], batchMax, es[n]);
    }
  }

  /** Every valid record up to the stored offset is in the table. */
  ghost predicate NothingSkipped(s: Ingest) {
    s.stored.Some? ==>
      && s.stored.value < |s.log|
      && (forall o :: 0 <= o <= s.stored.value && Usable(s.log[o]) ==> KeyOf(s.log[o].frame) in s.table)
  }

  lemma SoundSkipsNothing(s: Ingest)
    requires Sound(s)
    ensures NothingSkipped(s)
    ensures s.table.Keys == KeysOf(ValidOf(s.log[..s.reached]))
  {
    InsertKeeps(map[], ValidOf(s.log[..s.reached]));
    if s.stored.Some? {
      forall o | 0 <= o <= s.stored.value && Usable(s.log[o]) ensures KeyOf(s.log[o].frame) in s.table {
        assert s.log[..s.reached][o] == s.log[o];
        ValidHas(s.log[..s.reached], s.log[o].frame);
      }
    }
  }

  /** Any number of sessions, forced or not, that start within what was ever committed,
      with crashes and commits that land late: the table is the valid records up to the
      highest offset ever committed, each once, and none up to the stored offset is
      missing, even where the stored offset moved backwards. */
  lemma {:induction false} ReplayIsHarmless(batchMax: nat, ss: seq<Ingest>, es: seq<Event>)
    requires Path(batchMax, ss, es) && Sound(ss[0])
    requires forall i :: 0 <= i < |es| ==> Covered(ss[i], es[i])
    ensures Sound(ss[|es|]) && NothingSkipped(ss[|es|])
    ensures ss[0].reached <= ss[|es|].reached
    decreases |es|
  {
    if es == [] {
      SoundSkipsNothing(ss[0]);
    } else {
      var n := |es| - 1;
      assert Path(batchMax, ss[..n + 1], es[..n]) by {
        assert forall i :: 0 <= i < n ==> es[..n][i] == es[i];
      }
      ReplayIsHarmless(batchMax, ss[..n + 1], es[..n]);
      assert ss[n + 1] == Step(ss[n], es[n]);
      StepSound(ss[n], batchMax, es[n]);
      SoundSkipsNothing(ss[n + 1]);
      ReachedGrows(ss[n], batchMax, es[n]);
    }
  }

  lemma ReachedGrows(s: Ingest, batchMax: nat, e: Event)
    requires Enabled(s, batchMax, e)
    ensures Step(s, e).reached >= s.reached
  {
    hide InsertAll, Accept;
  }

  /** One session from offset `n` that reads up to `hi` and commits. */
  function SessionFrom(s: Ingest, n: nat, hi: nat): Ingest
    requires n < hi <= |s.log|
  {
    Commit(s, Tx(n, ValidOf(s.log[n..hi]), hi - 1))
  }

  ghost predicate SafeStart(reached: nat, n: nat) {
    forall s: Ingest, hi: nat ::
      Sound(s) && s.reached == reached && n < hi <= |s.log| ==> NothingSkipped(SessionFrom(s, n, hi))
  }

  function Sample(q: nat): Frame {
    Frame(FRAME_VERSION, 1, 1, 1, q, q, Finite(0.0), Finite(0.0), Finite(0.0), Finite(0.0))
  }

  function Samples(n: nat): seq<Payload> {
    if n == 0 then [] else Samples(n - 1) + [Json(Sample(n - 1))]
  }

  lemma {:induction false} SamplesAt(n: nat)
    ensures |Samples(n)| == n
    ensures forall i :: 0 <= i < n ==> Samples(n)[i] == Json(Sample(i))
  {
    if n > 0 { SamplesAt(n - 1); }
  }

  lemma SamplesMiss(log: seq<Payload>, a: nat, b: nat, q: nat)
    requires a <= b <= |log| && !(a <= q < b)
    requires forall i :: 0 <= i < |log| ==> log[i] == Json(Sample(i))
    ensures KeyOf(Sample(q)) !in KeysOf(ValidOf(log[a..b]))
  {
    forall f | f in ValidOf(log[a..b]) ensures KeyOf(f) != KeyOf(Sample(q)) {
      ValidHas(log[a..b], f);
      var i :| 0 <= i < b - a && log[a..b][i] == Json(f);
      assert f == Sample(a + i);
    }
  }

  /** A log of which only a prefix was committed. */
  function Partial(log: seq<Payload>, reached: nat): Ingest
    requires reached <= |log|
  {
    Empty().(log := log, table := Upto(log, reached), reached := reached)
  }

  lemma PartialSound(log: seq<Payload>, reached: nat)
    requires reached <= |log|
    ensures Sound(Partial(log, reached))
  {
    hide Upto;
  }

  lemma PartialMisses(log: seq<Payload>, reached: nat, n: nat)
    requires reached < n < |log| && forall i :: 0 <= i < |log| ==> log[i] == Json(Sample(i))
    ensures KeyOf(Sample(reached)) !in SessionFrom(Partial(log, reached), n, n + 1).table
  {
    hide ValidOf, KeysOf, InsertAll;
    SamplesMiss(log, 0, reached, reached);
    SamplesMiss(log, n, n + 1, reached);
    assert log[0..reached] == log[..reached];
    InsertKeeps(map[], ValidOf(log[..reached]));
    InsertKeeps(Upto(log, reached), ValidOf(log[n..n + 1]));
  }

  lemma SkippingStart(reached: nat, n: nat)
    requires n > reached
    ensures !SafeStart(reached, n)
  {
    hide Sound, Samples, Upto, InsertAll, KeyOf;
    var log := Samples(n + 1);
    SamplesAt(n + 1);
    PartialSound(log, reached);
    PartialMisses(log, reached, n);
    var r := SessionFrom(Partial(log, reached), n, n + 1);
    assert r.stored == Some(n) && r.log == log;
    assert Usable(log[reached]) && log[reached].frame == Sample(reached);
    assert !NothingSkipped(r);
  }

  /** A start position is safe for every log exactly when it is not beyond the first
      record never committed. */
  lemma SafeStartIff(reached: nat, n: nat)
    ensures SafeStart(reached, n) <==> n <= reached
  {
    hide ValidOf, Upto, InsertAll;
    if n > reached {
      SkippingStart(reached, n);
    } else {
      forall s: Ingest, hi: nat | Sound(s) && s.reached == reached && n < hi <= |s.log|
        ensures NothingSkipped(SessionFrom(s, n, hi))
      {
        CommitSound(s, Tx(n, ValidOf(s.log[n..hi]), hi - 1));
        SoundSkipsNothing(SessionFrom(s, n, hi).(session := None));
      }
    }
  }

  /** The next `k` records, one delivery each. */
  function Read(s: Ingest, k: nat): (r: Ingest)
    requires s.session.Some? && s.session.value.pos + k <= |s.log|
    ensures r.session.Some? && r.log == s.log && r.session.value.pos == s.session.value.pos + k
  {
    if k == 0 then s else Step(Read(s, k - 1), Deliver)
  }

  lemma NoRecords()
    ensures ValidOf([]) == []
  {
  }

  lemma {:induction false} ReadCollects(s: Ingest, n: nat, k: nat)
    requires s.session == Some(Session(n, n, [], 0, false)) && n + k <= |s.log|
    ensures var v := Read(s, k).session.value;
            v == Session(n, n + k, ValidOf(s.log[n..n + k]), if k == 0 then 0 else n + k - 1, k > 0)
    ensures Read(s, k).(session := None) == s.(session := None)
  {
    hide ValidOf;
    if k > 0 {
      ReadCollects(s, n, k - 1);
      ValidLast(s.log, n, n + k - 1);
    } else {
      assert s.log[n..n] == [];
      NoRecords();
    }
  }

  /** The loop reads so many records without a flush in between exactly when all but the
      last leave the batch below its maximum. */
  lemma {:induction false} ReadsIff(s: Ingest, n: nat, k: nat, batchMax: nat)
    requires s.session == Some(Session(n, n, [], 0, false)) && n + k <= |s.log|
    ensures (forall j :: 0 <= j < k ==> Enabled(Read(s, j), batchMax, Deliver)) <==>
            (k <= 1 || |ValidOf(s.log[n..n + k - 1])| < batchMax)
  {
    hide Read, ValidOf;
    if k > 0 {
      ReadsIff(s, n, k - 1, batchMax);
      ReadCollects(s, n, k - 1);
      if k > 1 { ValidLast(s.log, n, n + k - 2); }
    }
  }

  // ---- Where a session starts ----

  /** A forced session starts where the configuration says, whatever is stored: at the
      first record, behind the last, or at a given one. */
  lemma ForcedStart(s: Ingest, n: nat)
    ensures StartAt(s, true, First) == 0 && StartAt(s, true, Next) == |s.log| && StartAt(s, true, Offset(n)) == n
  {
  }

  /** Two states that differ only in what is stored start a forced session alike. */
  lemma ForceIgnoresTheStored(s: Ingest, stored: Option<nat>, from: From)
    ensures StartAt(s.(stored := stored), true, from) == StartAt(s, true, from)
  {
  }

  /** An unforced session resumes behind the stored offset, whatever is configured; with
      nothing stored it starts as a forced one does. */
  lemma UnforcedStart(s: Ingest, from: From)
    ensures s.stored.Some? ==> StartAt(s, false, from) == s.stored.value + 1
    ensures s.stored.None? ==> StartAt(s, false, from) == StartAt(s, true, from)
  {
  }

  /** Replaying everything: a session forced to the first record that reads the log to its
      end has every valid record of it in its batch, and its commit leaves every one of
      them in the table, whatever had been stored. */
  lemma ForcedReplayReadsAll(s: Ingest)
    requires s.session == None && s.log != []
    ensures var r := Read(Step(s, Start(true, First)), |s.log|);
            && r.session.Some? && r.session.value.batch == ValidOf(s.log)
            && var t := Step(r, Flush(Commits)).table;
               (forall f :: Json(f) in s.log && IsValid(f) ==> KeyOf(f) in t)
               && (forall k :: k in s.table ==> k in t && t[k] == s.table[k])
  {
    hide Read, ValidOf, InsertAll, KeyOf, IsValid;
    var r := Step(s, Start(true, First));
    ReadCollects(r, 0, |s.log|);
    assert s.log[0..0 + |s.log|] == s.log;
    InsertKeeps(s.table, ValidOf(s.log));
    forall f | Json(f) in s.log && IsValid(f) ensures KeyOf(f) in KeysOf(ValidOf(s.log)) {
      ValidHas(s.log, f);
    }
  }

  /** A session's steps, run without a flush in between, are that one commit. */
  lemma SessionIsItsSteps(s: Ingest, force: bool, from: From, hi: nat)
    requires s.session == None && StartAt(s, force, from) < hi <= |s.log|
    ensures var n := StartAt(s, force, from);
            Step(Read(Step(s, Start(force, from)), hi - n), Flush(Commits)).(session := None) == SessionFrom(s, n, hi)
  {
    hide Read, ValidOf, InsertAll, StartAt;
    var n := StartAt(s, force, from);
    var r := Step(s, Start(force, from));
    ReadCollects(r, n, hi - n);
    assert r.(session := None) == s;
  }

  lemma EmptySound()
    ensures Sound(Empty())
  {
  }
}
