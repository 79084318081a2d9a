/** A commit that times out and lands while the next session is under way: whether it
    can move the stored offset backwards depends on the batch maximum alone. */
module StreamLate {
  import opened Folds
  import opened Frames
  import opened Sink
  import opened StreamIngest
  import opened StreamExact

  /** COMMIT goes out after the offset upsert, so a transaction in doubt that can still
      land holds the lock on the offset row, and no other gets that far before it is
      decided. */
  predicate Waits(s: Ingest, e: Event) {
    e.Flush? && e.outcome != RollsBack ==> s.doubt == []
  }

  predicate Behind(s: Ingest, r: Ingest) {
    s.stored.Some? && r.stored.Some? && r.stored.value < s.stored.value
  }

  /** Step `i` of a run moves the stored offset backwards. */
  predicate MovesBack(ss: seq<Ingest>, i: nat) {
    i + 1 < |ss| && Behind(ss[i], ss[i + 1])
  }

  /** A run that forces nothing and respects the lock on the offset row. */
  ghost predicate Plain(batchMax: nat, ss: seq<Ingest>, es: seq<Event>) {
    && Path(batchMax, ss, es) && ss[0] == Empty()
    && forall i :: 0 <= i < |es| ==> Unforced(es[i]) && Waits(ss[i], es[i])
  }

  // ---- Batches of one frame: no step moves the offset back ----

  /** With a maximum of at most one, a record at which a batch must be flushed. */
  predicate FlushPoint(p: Payload, batchMax: nat) {
    batchMax == 0 || Usable(p)
  }

  ghost predicate Clear(log: seq<Payload>, a: nat, b: int, batchMax: nat) {
    forall o :: a <= o < b && o < |log| ==> !FlushPoint(log[o], batchMax)
  }

  /** A session stops at its first flush point, and none lies between its start and what
      is committed. */
  ghost predicate SessionSingle(s: Ingest, v: Session, batchMax: nat) {
    && Clear(s.log, v.lo, v.pos - 1, batchMax)
    && Clear(s.log, v.lo, s.reached - 1, batchMax)
    && (v.due <==> v.lo < v.pos)
    && (v.lo < v.pos <= |s.log| ==>
          if Usable(s.log[v.pos - 1]) then |v.batch| == 1 else v.batch == [])
  }

  ghost predicate TxSingle(s: Ingest, t: Tx, batchMax: nat) {
    t.lo <= t.offset && s.reached <= t.offset + 1 && Clear(s.log, t.lo, t.offset, batchMax)
  }

  ghost predicate Single(s: Ingest, batchMax: nat) {
    && s.stored == (if s.reached == 0 then None else Some(s.reached - 1))
    && |s.doubt| <= 1
    && (s.session.Some? ==> SessionSingle(s, s.session.value, batchMax))
    && (s.doubt != [] ==> TxSingle(s, s.doubt[0], batchMax))
    && (s.doubt != [] && s.session.Some? ==>
          Clear(s.log, s.session.value.lo, s.doubt[0].offset, batchMax))
  }

  lemma ClearMore(log: seq<Payload>, p: Payload, a: nat, b: int, batchMax: nat)
    requires Clear(log, a, b, batchMax) && (a < b ==> b <= |log|)
    ensures Clear(log + [p], a, b, batchMax)
  {
    hide FlushPoint;
  }

  lemma AppendSingle(s: Ingest, batchMax: nat, p: Payload)
    requires Sound(s) && Single(s, batchMax)
    ensures Single(Step(s, Append(p)), batchMax)
  {
    hide Clear, ValidOf, Upto;
    if s.session.Some? {
      var v := s.session.value;
      ClearMore(s.log, p, v.lo, v.pos - 1, batchMax);
      ClearMore(s.log, p, v.lo, s.reached - 1, batchMax);
      if s.doubt != [] { ClearMore(s.log, p, v.lo, s.doubt[0].offset, batchMax); }
    }
    if s.doubt != [] {
      assert TxOk(s, s.doubt[0]);
      ClearMore(s.log, p, s.doubt[0].lo, s.doubt[0].offset, batchMax);
    }
  }

  lemma StartSingle(s: Ingest, batchMax: nat)
    requires Sound(s) && Single(s, batchMax) && s.session == None
    ensures Single(Step(s, Start(false, First)), batchMax)
  {
    hide ValidOf, Upto, FlushPoint;
    if s.doubt != [] { assert TxOk(s, s.doubt[0]); }
  }

  lemma DeliverSingle(s: Ingest, batchMax: nat)
    requires batchMax <= 1 && Sound(s) && Single(s, batchMax) && Enabled(s, batchMax, Deliver)
    ensures Single(Step(s, Deliver), batchMax)
  {
    hide ValidOf, Upto;
  }

  /** A flush comes at a flush point, hence at or beyond what is committed. */
  lemma FlushComesAtAPoint(s: Ingest, batchMax: nat, outcome: Outcome)
    requires batchMax <= 1 && Sound(s) && Single(s, batchMax) && Enabled(s, batchMax, Flush(outcome))
    ensures TxSingle(s, TxOf(s.session.value), batchMax)
  {
    FlushSpan(s, batchMax, outcome);
    hide ValidOf, Upto;
    var v := s.session.value;
    assert FlushPoint(s.log[v.pos - 1], batchMax);
  }

  lemma FlushSingle(s: Ingest, batchMax: nat, outcome: Outcome)
    requires batchMax <= 1 && Sound(s) && Single(s, batchMax) && Enabled(s, batchMax, Flush(outcome))
    requires Waits(s, Flush(outcome))
    ensures Single(Step(s, Flush(outcome)), batchMax)
  {
    var t := TxOf(s.session.value);
    hide Sound, InsertAll, Enabled, Clear, Single;
    FlushSpan(s, batchMax, outcome);
    FlushComesAtAPoint(s, batchMax, outcome);
    SingleParts(s, batchMax);
    match outcome
    case Commits => CommitSingle(s, t, batchMax);
    case RollsBack => EndSingle(s, batchMax);
    case TimesOut => DoubtSingle(s, t, batchMax);
  }

  lemma SingleParts(s: Ingest, batchMax: nat)
    requires Single(s, batchMax)
    ensures s.doubt == [] || |s.doubt| == 1
  {
  }

  lemma CommitSingle(s: Ingest, t: Tx, batchMax: nat)
    requires Single(s, batchMax) && s.doubt == [] && TxSingle(s, t, batchMax)
    ensures Single(Commit(s, t).(session := Some(Session(t.offset + 1, t.offset + 1, [], t.offset, false))), batchMax)
  {
    hide InsertAll, FlushPoint;
  }

  lemma EndSingle(s: Ingest, batchMax: nat)
    requires Single(s, batchMax)
    ensures Single(s.(session := None), batchMax)
  {
    hide Clear;
  }

  lemma CrashSingle(s: Ingest, batchMax: nat)
    requires Single(s, batchMax) && s.session.Some?
    ensures Single(Step(s, Crash), batchMax)
  {
    EndSingle(s, batchMax);
  }

  lemma DoubtSingle(s: Ingest, t: Tx, batchMax: nat)
    requires Single(s, batchMax) && s.doubt == [] && TxSingle(s, t, batchMax)
    ensures Single(s.(session := None, doubt := s.doubt + [t]), batchMax)
  {
    hide Clear;
    assert s.doubt + [t] == [t];
  }

  lemma LandSingle(s: Ingest, batchMax: nat, i: nat)
    requires Sound(s) && Single(s, batchMax) && i < |s.doubt|
    ensures Single(Step(s, Land(i)), batchMax) && Single(Step(s, Vanish(i)), batchMax)
  {
    assert TxOk(s, s.doubt[i]);
    hide Sound, TxOk, InsertAll, Clear;
    assert Without(s.doubt, i) == [];
  }

  lemma StepSingle(s: Ingest, batchMax: nat, e: Event)
    requires batchMax <= 1 && Sound(s) && Single(s, batchMax) && Enabled(s, batchMax, e)
    requires Unforced(e) && Waits(s, e)
    ensures Single(Step(s, e), batchMax) && !Behind(s, Step(s, e))
  {
    hide Sound, Step, Flushes, MustFlush;
    ReachedGrows(s, batchMax, e);
    match e
    case Append(p) => AppendSingle(s, batchMax, p);
    case Start(_, _) => StartSingle(s, batchMax);
    case Deliver => DeliverSingle(s, batchMax);
    case Flush(outcome) => FlushSingle(s, batchMax, outcome);
    case Crash => CrashSingle(s, batchMax);
    case Land(i) => LandSingle(s, batchMax, i);
    case Vanish(i) => LandSingle(s, batchMax, i);
  }

  lemma {:induction false} OneFrameBatchesNeverMoveBack(batchMax: nat, ss: seq<Ingest>, es: seq<Event>)
    requires batchMax <= 1 && Plain(batchMax, ss, es)
    ensures forall i: nat :: !MovesBack(ss, i)
    ensures Sound(ss[|es|]) && Single(ss[|es|], batchMax)
    decreases |es|
  {
    hide Sound, Single, Step, Flushes, MustFlush, Possible, Waits, Unforced, Behind, Covered;
    if es == [] {
      EmptySound();
      EmptySingle(batchMax);
    } else {
      var n := |es| - 1;
      var ss', es' := ss[..n + 1], es[..n];
      assert forall i :: 0 <= i < n ==> ss'[i] == ss[i] && es'[i] == es[i];
      assert ss'[n] == ss[n];
      assert Path(batchMax, ss', es');
      OneFrameBatchesNeverMoveBack(batchMax, ss', es');
      assert Enabled(ss[n], batchMax, es[n]) && ss[n + 1] == Step(ss[n], es[n]);
      UnforcedIsCovered(ss[n], es[n]);
      StepSound(ss[n], batchMax, es[n]);
      StepSingle(ss[n], batchMax, es[n]);
      forall i: nat ensures !MovesBack(ss, i) {
        assert !MovesBack(ss', i);
      }
    }
  }

  lemma EmptySingle(batchMax: nat)
    ensures Single(Empty(), batchMax)
  {
  }

  // ---- Larger batches: a run that moves it back ----

  function LateEvents(): seq<Event> {
    [Append(Json(Sample(0))), Append(Json(Sample(1))), Start(false, First), Deliver, Deliver, Flush(TimesOut),
     Start(false, First), Deliver, Land(0), Flush(Commits)]
  }

  function Late(i: nat): Ingest
    requires i <= 10
  {
    var (f, g) := (Sample(0), Sample(1));
    var s := Empty().(log := [Json(f), Json(g)]);
    var both := Tx(0, [f, g], 1);
    var d := s.(doubt := [both]);
    if i == 0 then Empty()
    else if i == 1 then Empty().(log := [Json(f)])
    else if i == 2 then s
    else if i == 3 then s.(session := Some(Session(0, 0, [], 0, false)))
    else if i == 4 then s.(session := Some(Session(0, 1, [f], 0, true)))
    else if i == 5 then s.(session := Some(Session(0, 2, [f, g], 1, true)))
    else if i == 6 then d
    else if i == 7 then d.(session := Some(Session(0, 0, [], 0, false)))
    else if i == 8 then d.(session := Some(Session(0, 1, [f], 0, true)))
    else
      var r := Commit(s.(session := Some(Session(0, 1, [f], 0, true))), both);
      if i == 9 then r else Commit(r, Tx(0, [f], 0)).(session := Some(Session(1, 1, [], 0, false)))
  }

  ghost predicate LateStepOk(i: nat, batchMax: nat)
    requires i < 10
  {
    Enabled(Late(i), batchMax, LateEvents()[i]) && Late(i + 1) == Step(Late(i), LateEvents()[i])
  }

  lemma LateAppends(i: nat, batchMax: nat)
    requires i < 2
    ensures LateStepOk(i, batchMax)
  {
    hide Commit;
    var (f, g) := (Sample(0), Sample(1));
    assert [] + [Json(f)] == [Json(f)] && [Json(f)] + [Json(g)] == [Json(f), Json(g)];
  }

  lemma LateStarts(i: nat, batchMax: nat)
    requires i == 2 || i == 6
    ensures LateStepOk(i, batchMax)
  {
    hide Commit, Accept;
  }

  lemma LateReadsFirst(i: nat, batchMax: nat)
    requires i == 3 || i == 7
    ensures LateStepOk(i, batchMax)
  {
    hide Commit;
    assert [] + [Sample(0)] == [Sample(0)];
  }

  lemma LateReadsSecond(batchMax: nat)
    requires batchMax >= 2
    ensures LateStepOk(4, batchMax)
  {
    hide Commit;
    assert [Sample(0)] + [Sample(1)] == [Sample(0), Sample(1)];
  }

  lemma LateTimesOut(batchMax: nat)
    ensures LateStepOk(5, batchMax)
  {
    hide Commit;
    var both := Tx(0, [Sample(0), Sample(1)], 1);
    assert [] + [both] == [both];
  }

  lemma LateLands(batchMax: nat)
    ensures LateStepOk(8, batchMax)
  {
    hide InsertAll;
    assert Without([Tx(0, [Sample(0), Sample(1)], 1)], 0) == [];
  }

  lemma LateCommits(batchMax: nat)
    ensures LateStepOk(9, batchMax)
  {
    hide InsertAll;
  }

  lemma LatePath(batchMax: nat, ss: seq<Ingest>)
    requires batchMax >= 2 && |ss| == 11 && forall i :: 0 <= i < 11 ==> ss[i] == Late(i)
    ensures Path(batchMax, ss, LateEvents())
  {
    hide Late, Step, Possible, Flushes, MustFlush;
    forall i | 0 <= i < 10
      ensures Enabled(ss[i], batchMax, LateEvents()[i]) && ss[i + 1] == Step(ss[i], LateEvents()[i])
    {
      if i < 2 { LateAppends(i, batchMax); }
      else if i == 2 || i == 6 { LateStarts(i, batchMax); }
      else if i == 3 || i == 7 { LateReadsFirst(i, batchMax); }
      else if i == 4 { LateReadsSecond(batchMax); }
      else if i == 5 { LateTimesOut(batchMax); }
      else if i == 8 { LateLands(batchMax); }
      else { LateCommits(batchMax); }
      assert LateStepOk(i, batchMax);
    }
  }

  lemma LateEnds()
    ensures Late(0) == Empty() && Behind(Late(9), Late(10))
    ensures Late(5).doubt == [] && Late(9).doubt == []
  {
  }

  lemma LateEventsAre()
    ensures |LateEvents()| == 10
    ensures forall j :: 0 <= j < 10 ==> Unforced(LateEvents()[j]) && (LateEvents()[j].Flush? ==> j == 5 || j == 9)
  {
  }

  /** With a batch maximum of at least two there is a run whose last commit goes behind
      the one that landed late. */
  lemma LateLandingMovesBack(batchMax: nat)
    requires batchMax >= 2
    ensures exists ss: seq<Ingest>, es: seq<Event>, i: nat :: Plain(batchMax, ss, es) && MovesBack(ss, i)
  {
    hide Path, Late, LateEvents, Unforced, Behind;
    LateEnds();
    LateEventsAre();
    var ss := seq(11, i requires 0 <= i < 11 => Late(i));
    LatePath(batchMax, ss);
    assert Plain(batchMax, ss, LateEvents()) && MovesBack(ss, 9);
  }

  /** Some run that forces nothing and respects the lock moves the stored offset
      backwards if and only if a batch may hold two frames. */
  lemma MovesBackIff(batchMax: nat)
    ensures (exists ss: seq<Ingest>, es: seq<Event>, i: nat :: Plain(batchMax, ss, es) && MovesBack(ss, i)) <==>
            batchMax >= 2
  {
    hide Plain, MovesBack;
    if batchMax >= 2 {
      LateLandingMovesBack(batchMax);
    } else {
      forall ss: seq<Ingest>, es: seq<Event>, i: nat | Plain(batchMax, ss, es) ensures !MovesBack(ss, i) {
        OneFrameBatchesNeverMoveBack(batchMax, ss, es);
      }
    }
  }
}
