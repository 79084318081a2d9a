/** When stream ingest is exact: what commits make of the stored offset and the table
    over unforced runs, and exactly which commits spoil it. */
module StreamExact {
  import opened Folds
  import opened Frames
  import opened Sink
  import opened StreamIngest

  // ---- Exactness without forcing ----

  /** Spans follow one another without gap or overlap and end at `n`. */
  ghost predicate Tiles(spans: seq<(nat, nat)>, n: nat) {
    if spans == [] then n == 0
    else
      var (lo, hi) := spans[|spans| - 1];
      lo < hi == n && Tiles(spans[..|spans| - 1], lo)
  }

  predicate Within(span: (nat, nat), o: nat) {
    span.0 <= o < span.1
  }

  /** Each offset below the end lies in exactly one span. */
  lemma {:induction false} TilesOnce(spans: seq<(nat, nat)>, n: nat, o: nat)
    requires Tiles(spans, n)
    ensures o < n ==> exists i :: 0 <= i < |spans| && Within(spans[i], o)
    ensures forall i :: 0 <= i < |spans| && Within(spans[i], o) ==> o < n
    ensures forall i, j :: 0 <= i < j < |spans| ==> !(Within(spans[i], o) && Within(spans[j], o))
  {
    if spans != [] {
      var m := |spans| - 1;
      var (lo, hi) := spans[m];
      TilesOnce(spans[..m], lo, o);
      assert forall i :: 0 <= i < m ==> spans[..m][i] == spans[i];
      if o < lo {
        var i :| 0 <= i < m && Within(spans[..m][i], o);
        assert Within(spans[i], o);
      } else if o < n {
        assert Within(spans[m], o);
      }
    }
  }

  /** The code's default: no forcing, from the first record, and a new session reads
      the stored offset after every doubtful commit is decided. */
  predicate Default(s: Ingest, e: Event) {
    e.Start? ==> !e.force && e.from == First && s.doubt == []
  }

  ghost predicate Exact(s: Ingest) {
    && s.stored == (if s.reached == 0 then None else Some(s.reached - 1))
    && Tiles(s.spans, s.reached)
    && (s.session.Some? ==> s.session.value.lo == s.reached && s.doubt == [])
    && |s.doubt| <= 1
    && (forall i :: 0 <= i < |s.doubt| ==> s.doubt[i].lo == s.reached <= s.doubt[i].offset)
  }

  lemma CommitExact(s: Ingest, t: Tx)
    requires Exact(s) && t.lo == s.reached <= t.offset
    ensures var r := Commit(s, t);
            r.stored == Some(r.reached - 1) && r.reached == t.offset + 1 && Tiles(r.spans, r.reached)
  {
    hide InsertAll;
    assert (s.spans + [(t.lo, t.offset + 1)])[..|s.spans|] == s.spans;
  }

  lemma FlushExact(s: Ingest, batchMax: nat, outcome: Outcome)
    requires Sound(s) && Exact(s) && Enabled(s, batchMax, Flush(outcome))
    ensures Exact(Step(s, Flush(outcome)))
  {
    hide Sound, Tiles, InsertAll;
    FlushSpan(s, batchMax, outcome);
    CommitExact(s, TxOf(s.session.value));
  }

  lemma LandExact(s: Ingest, i: nat)
    requires i < |s.doubt| && Exact(s)
    ensures Exact(Step(s, Land(i)))
    ensures Exact(Step(s, Vanish(i)))
  {
    hide Tiles, InsertAll;
    CommitExact(s, s.doubt[i]);
    assert Without(s.doubt, i) == [];
  }

  lemma StepExact(s: Ingest, batchMax: nat, e: Event)
    requires Sound(s) && Exact(s) && Enabled(s, batchMax, e) && Default(s, e)
    ensures Covered(s, e) && Exact(Step(s, e))
  {
    hide Sound, Tiles, InsertAll, Commit, Without;
    match e
    case Flush(outcome) => FlushExact(s, batchMax, outcome);
    case Land(i) => LandExact(s, i);
    case Vanish(i) => LandExact(s, i);
    case Deliver => DeliverExact(s);
    case Append(_) =>
    case Start(_, _) =>
    case Crash =>
  }

  lemma DeliverExact(s: Ingest)
    requires Exact(s) && Possible(s, Deliver)
    ensures Exact(Step(s, Deliver))
  {
    hide Tiles;
  }

  lemma EmptyExact()
    ensures Sound(Empty()) && Exact(Empty())
  {
  }

  lemma ExactMeans(s: Ingest)
    requires Sound(s) && Exact(s)
    ensures s.table == Upto(s.log, if s.stored.Some? then s.stored.value + 1 else 0)
    ensures StartAt(s, false, First) == s.reached
  {
    hide Upto, Tiles;
  }

  /** Where each doubtful commit is decided before the next session reads the stored
      offset, every state is exact and every session resumes at the first record not
      committed. */
  lemma {:induction false} PromptSessionsAreExact(batchMax: nat, ss: seq<Ingest>, es: seq<Event>)
    requires Path(batchMax, ss, es) && ss[0] == Empty()
    requires forall i :: 0 <= i < |es| ==> Default(ss[i], es[i])
    ensures var s := ss[|es|];
            && Sound(s) && Exact(s)
            && s.reached <= |s.log|
            && s.table == Upto(s.log, if s.stored.Some? then s.stored.value + 1 else 0)
            && StartAt(s, false, First) == s.reached
    decreases |es|
  {
    hide Exact, Default, Step, Possible, Flushes, MustFlush, Covered, Upto, StartAt;
    EmptyExact();
    if es != [] {
      var n := |es| - 1;
      assert Path(batchMax, ss[..n + 1], es[..n]) by {
        assert forall i :: 0 <= i < n ==> es[..n][i] == es[i];
      }
      PromptSessionsAreExact(batchMax, ss[..n + 1], es[..n]);
      assert ss[n + 1] == Step(ss[n], es[n]);
      StepExact(ss[n], batchMax, es[n]);
      StepSound(ss[n], batchMax, es[n]);
    }
    ExactMeans(ss[|es|]);
  }

  // ---- When a resume is exact, whatever was forced and however commits land ----

  /** How far the stored offset says the table reaches. */
  function StoredEnd(s: Ingest): nat {
    if s.stored.Some? then s.stored.value + 1 else 0
  }

  ghost predicate Committed(s: Ingest, o: nat) {
    exists i :: 0 <= i < |s.spans| && Within(s.spans[i], o)
  }

  /** An unforced session would start at the first record that no commit ever covered. */
  ghost predicate ResumesExactly(s: Ingest) {
    var n := StartAt(s, false, First);
    !Committed(s, n) && forall o :: 0 <= o < n ==> Committed(s, o)
  }

  /** The commit that an event makes, if it makes one. */
  function CommitOf(s: Ingest, e: Event): Option<Tx>
    requires Possible(s, e)
  {
    if e == Flush(Commits) then Some(TxOf(s.session.value))
    else if e.Land? then Some(s.doubt[e.i])
    else None
  }

  /** The event commits a span that begins beyond the first record not covered by the
      stored offset. */
  predicate Skips(s: Ingest, e: Event)
    requires Possible(s, e)
  {
    CommitOf(s, e).Some? && CommitOf(s, e).value.lo > StoredEnd(s)
  }

  /** The event commits an offset below the stored one. */
  predicate Lags(s: Ingest, e: Event)
    requires Possible(s, e)
  {
    CommitOf(s, e).Some? && s.stored.Some? && CommitOf(s, e).value.offset < s.stored.value
  }

  /** Every span that is or may be committed has a record in it. */
  ghost predicate Shaped(s: Ingest) {
    && (s.session.Some? ==>
          var v := s.session.value;
          && v.lo <= v.pos
          && (if v.lo < v.pos then v.lastOffset + 1 == v.pos else v.batch == [] && !v.due))
    && (forall i :: 0 <= i < |s.doubt| ==> s.doubt[i].lo <= s.doubt[i].offset)
  }

  lemma StepShaped(s: Ingest, batchMax: nat, e: Event)
    requires Shaped(s) && Enabled(s, batchMax, e)
    ensures Shaped(Step(s, e))
    ensures CommitOf(s, e).Some? ==> CommitOf(s, e).value.lo <= CommitOf(s, e).value.offset
  {
    hide InsertAll, StartAt, Usable;
    var r := Step(s, e);
    if e.Land? || e.Vanish? {
      forall j | 0 <= j < |Without(s.doubt, e.i)|
        ensures Without(s.doubt, e.i)[j].lo <= Without(s.doubt, e.i)[j].offset
      {
        assert Without(s.doubt, e.i)[j] == s.doubt[if j < e.i then j else j + 1];
      }
    }
  }

  /** The covered offsets are exactly those up to the stored one. */
  ghost predicate Filled(s: Ingest) {
    forall o: nat :: Committed(s, o) <==> o < StoredEnd(s)
  }

  lemma CommitCovers(s: Ingest, t: Tx, o: nat)
    ensures Committed(Commit(s, t), o) <==> Committed(s, o) || t.lo <= o <= t.offset
  {
    hide InsertAll;
    var r := Commit(s, t);
    var n := |s.spans|;
    assert r.spans[n] == (t.lo, t.offset + 1);
    assert forall i :: 0 <= i < n ==> r.spans[i] == s.spans[i];
    if t.lo <= o <= t.offset {
      assert Within(r.spans[n], o);
    } else if Committed(s, o) {
      var i :| 0 <= i < n && Within(s.spans[i], o);
      assert Within(r.spans[i], o);
    }
  }

  lemma StepEnds(s: Ingest, e: Event)
    requires Possible(s, e)
    ensures var r := Step(s, e);
            match CommitOf(s, e)
            case None => r.spans == s.spans && r.stored == s.stored
            case Some(t) => r.spans == Commit(s, t).spans && r.stored == Some(t.offset)
  {
    hide InsertAll, Accept, StartAt;
  }

  lemma StepResumesIff(s: Ingest, batchMax: nat, e: Event)
    requires Shaped(s) && Enabled(s, batchMax, e) && Filled(s)
    ensures ResumesExactly(Step(s, e)) <==> !Skips(s, e) && !Lags(s, e)
    ensures ResumesExactly(Step(s, e)) ==> Filled(Step(s, e))
  {
    StepShaped(s, batchMax, e);
    StepEnds(s, e);
    hide Step, Shaped, Enabled, Commit, Within;
    var r := Step(s, e);
    match CommitOf(s, e)
    case None =>
      assert forall o: nat :: Committed(r, o) <==> Committed(s, o);
    case Some(t) =>
      forall o: nat ensures Committed(r, o) <==> o < StoredEnd(s) || t.lo <= o <= t.offset {
        CommitCovers(s, t, o);
        assert Committed(r, o) <==> Committed(Commit(s, t), o);
      }
      if Skips(s, e) { assert !Committed(r, StoredEnd(s)); }
  }

  lemma EmptyFilled()
    ensures Filled(Empty()) && Shaped(Empty()) && ResumesExactly(Empty())
  {
  }

  /** Over every run from an empty table, with any forced starts and with commits that
      time out and land at any time, every state would resume at the first record never
      committed if and only if no commit begins beyond the record after the stored offset
      and none ends below the stored offset. */
  lemma {:induction false} ResumesExactlyIff(batchMax: nat, ss: seq<Ingest>, es: seq<Event>)
    requires Path(batchMax, ss, es) && ss[0] == Empty()
    ensures (forall i :: 0 <= i < |ss| ==> ResumesExactly(ss[i])) <==>
            (forall i :: 0 <= i < |es| ==> !Skips(ss[i], es[i]) && !Lags(ss[i], es[i]))
    ensures Shaped(ss[|es|])
    ensures (forall i :: 0 <= i < |ss| ==> ResumesExactly(ss[i])) ==> Filled(ss[|es|])
    decreases |es|
  {
    hide ResumesExactly, Skips, Lags, Step, Flushes, MustFlush, Possible, Filled, Shaped;
    if es == [] {
      EmptyFilled();
      assert forall i :: 0 <= i < |ss| ==> ss[i] == Empty();
    } else {
      var n := |es| - 1;
      var ss', es' := ss[..n + 1], es[..n];
      assert Path(batchMax, ss', es') by {
        assert forall i :: 0 <= i < n ==> es'[i] == es[i];
      }
      ResumesExactlyIff(batchMax, ss', es');
      assert forall i :: 0 <= i < n ==> ss'[i] == ss[i] && es'[i] == es[i];
      assert ss'[n] == ss[n];
      assert Enabled(ss[n], batchMax, es[n]) && ss[n + 1] == Step(ss[n], es[n]);
      StepShaped(ss[n], batchMax, es[n]);
      if Filled(ss[n]) {
        StepResumesIff(ss[n], batchMax, es[n]);
      }
    }
  }

  /** Some commit covers the last offset that counts as reached. */
  ghost predicate Touched(s: Ingest) {
    s.reached > 0 ==> Committed(s, s.reached - 1)
  }

  lemma StepTouched(s: Ingest, batchMax: nat, e: Event)
    requires Shaped(s) && Touched(s) && Enabled(s, batchMax, e)
    ensures Touched(Step(s, e))
  {
    StepShaped(s, batchMax, e);
    StepEnds(s, e);
    StepReached(s, e);
    hide Step, Shaped, Enabled, Commit, Within;
    var r := Step(s, e);
    if CommitOf(s, e).Some? && r.reached > 0 {
      CommitCovers(s, CommitOf(s, e).value, r.reached - 1);
      assert Committed(r, r.reached - 1) <==> Committed(Commit(s, CommitOf(s, e).value), r.reached - 1);
    } else if r.reached > 0 {
      assert Committed(r, r.reached - 1) <==> Committed(s, r.reached - 1);
    }
  }

  lemma StepReached(s: Ingest, e: Event)
    requires Possible(s, e)
    ensures var t := CommitOf(s, e);
            Step(s, e).reached == if t.Some? && t.value.offset + 1 > s.reached then t.value.offset + 1 else s.reached
  {
    hide InsertAll, Accept, StartAt;
  }

  /** Where no start skips a record, no commit does while resumes are exact. */
  lemma CoveredSkipsNothing(s: Ingest, batchMax: nat, e: Event)
    requires Sound(s) && Filled(s) && Touched(s) && Enabled(s, batchMax, e)
    ensures !Skips(s, e)
  {
    if CommitOf(s, e).Some? {
      CommitIsOk(s, batchMax, e);
    }
    hide Upto, ValidOf, Committed, SessionOk;
  }

  /** Over every run whose starts, forced or not, skip no record: every state resumes at
      the first record never committed if and only if the stored offset never moves
      backwards. */
  lemma {:induction false} CoveredResumesIff(batchMax: nat, ss: seq<Ingest>, es: seq<Event>)
    requires Path(batchMax, ss, es) && ss[0] == Empty()
    requires forall i :: 0 <= i < |es| ==> Covered(ss[i], es[i])
    ensures (forall i :: 0 <= i < |ss| ==> ResumesExactly(ss[i])) <==>
            (forall i :: 0 <= i < |es| ==> !Lags(ss[i], es[i]))
    ensures Shaped(ss[|es|]) && Touched(ss[|es|]) && Sound(ss[|es|])
    decreases |es|
  {
    hide ResumesExactly, Skips, Lags, Step, Flushes, MustFlush, Possible, Filled, Shaped, Touched, Sound, Covered;
    ResumesExactlyIff(batchMax, ss, es);
    if es == [] {
      EmptyTouched();
      EmptySound();
    } else {
      var n := |es| - 1;
      var ss', es' := ss[..n + 1], es[..n];
      assert Path(batchMax, ss', es') by {
        assert forall i :: 0 <= i < n ==> es'[i] == es[i];
      }
      CoveredResumesIff(batchMax, ss', es');
      ResumesExactlyIff(batchMax, ss', es');
      assert forall i :: 0 <= i < n ==> ss'[i] == ss[i] && es'[i] == es[i];
      assert ss'[n] == ss[n];
      assert Enabled(ss[n], batchMax, es[n]) && ss[n + 1] == Step(ss[n], es[n]);
      StepTouched(ss[n], batchMax, es[n]);
      StepSound(ss[n], batchMax, es[n]);
      if Filled(ss[n]) {
        CoveredSkipsNothing(ss[n], batchMax, es[n]);
      }
    }
  }

  lemma EmptyTouched()
    ensures Touched(Empty())
  {
  }

  // ---- When the table is exact, however commits land ----

  /** The table holds exactly the valid records up to the stored offset, and the spans
      of the committed batches cover each of those records once. */
  ghost predicate ExactlyOnce(s: Ingest) {
    StoredEnd(s) <= |s.log| && s.table == Upto(s.log, StoredEnd(s)) && Tiles(s.spans, StoredEnd(s))
  }

  /** The event commits a span that begins among records already committed. */
  predicate Overlaps(s: Ingest, e: Event)
    requires Possible(s, e)
  {
    CommitOf(s, e).Some? && CommitOf(s, e).value.lo < s.reached
  }

  function ReachOf(spans: seq<(nat, nat)>): nat {
    if spans == [] then 0
    else
      var r, hi := ReachOf(spans[..|spans| - 1]), spans[|spans| - 1].1;
      if hi > r then hi else r
  }

  lemma {:induction false} TilesReach(spans: seq<(nat, nat)>, n: nat)
    requires Tiles(spans, n)
    ensures ReachOf(spans) == n
  {
    if spans != [] {
      TilesReach(spans[..|spans| - 1], spans[|spans| - 1].0);
    }
  }

  lemma StepSpans(s: Ingest, e: Event)
    requires Possible(s, e)
    ensures var t := CommitOf(s, e);
            Step(s, e).spans == s.spans + if t.Some? then [(t.value.lo, t.value.offset + 1)] else []
  {
    hide InsertAll, Accept, StartAt;
  }

  lemma StepReach(s: Ingest, e: Event)
    requires Possible(s, e) && s.reached == ReachOf(s.spans)
    ensures Step(s, e).reached == ReachOf(Step(s, e).spans)
  {
    StepReached(s, e);
    StepSpans(s, e);
    hide Step, CommitOf;
    if CommitOf(s, e).Some? {
      var span := (CommitOf(s, e).value.lo, CommitOf(s, e).value.offset + 1);
      assert (s.spans + [span])[..|s.spans|] == s.spans;
    }
  }

  lemma CommitIsOk(s: Ingest, batchMax: nat, e: Event)
    requires Sound(s) && Enabled(s, batchMax, e) && CommitOf(s, e).Some?
    ensures TxOk(s, CommitOf(s, e).value)
  {
    hide ValidOf, Upto, SessionOk;
    if e.Flush? { FlushSpan(s, batchMax, e.outcome); }
  }

  lemma CommitExactIff(s: Ingest, batchMax: nat, e: Event)
    requires Sound(s) && Enabled(s, batchMax, e) && CommitOf(s, e).Some?
    requires ExactlyOnce(s) && s.reached == StoredEnd(s) && Sound(Step(s, e))
    ensures ExactlyOnce(Step(s, e)) <==> !Overlaps(s, e)
  {
    hide ValidOf, Upto, InsertAll, SessionOk;
    CommitIsOk(s, batchMax, e);
    var t := CommitOf(s, e).value;
    assert (s.spans + [(t.lo, t.offset + 1)])[..|s.spans|] == s.spans;
    if ExactlyOnce(Step(s, e)) {
      TilesReach(s.spans, t.lo);
      TilesReach(s.spans, s.reached);
    }
  }

  lemma StepExactIff(s: Ingest, batchMax: nat, e: Event)
    requires Sound(s) && Enabled(s, batchMax, e) && Covered(s, e)
    requires s.reached == ReachOf(s.spans) && ExactlyOnce(s)
    ensures ExactlyOnce(Step(s, e)) <==> !Overlaps(s, e)
  {
    TilesReach(s.spans, StoredEnd(s));
    StepSound(s, batchMax, e);
    hide Sound, Tiles, ReachOf, Covered;
    if CommitOf(s, e).Some? {
      CommitExactIff(s, batchMax, e);
    } else {
      OtherExact(s, e);
    }
  }

  lemma OtherExact(s: Ingest, e: Event)
    requires Possible(s, e) && CommitOf(s, e).None? && ExactlyOnce(s)
    ensures ExactlyOnce(Step(s, e))
  {
    hide ValidOf, InsertAll, Tiles, Accept;
    assert Step(s, e).log[..StoredEnd(s)] == s.log[..StoredEnd(s)];
  }

  predicate Unforced(e: Event) {
    e.Start? ==> !e.force && e.from == First
  }

  lemma UnforcedIsCovered(s: Ingest, e: Event)
    requires Sound(s) && Unforced(e)
    ensures Covered(s, e)
  {
    hide Upto, SessionOk, TxOk;
  }

  /** From an empty table, unforced, from the first record, over every run with crashes
      and commits that time out and land whenever they like: at every state the table
      holds exactly the valid records up to the stored offset, each covered by one
      committed batch, if and only if no commit takes effect over a span that begins
      among records already committed. */
  lemma {:induction false} StreamIngestIsExact(batchMax: nat, ss: seq<Ingest>, es: seq<Event>)
    requires Path(batchMax, ss, es) && ss[0] == Empty()
    requires forall i :: 0 <= i < |es| ==> Unforced(es[i])
    ensures Sound(ss[|es|]) && ss[|es|].reached == ReachOf(ss[|es|].spans)
    ensures (forall i :: 0 <= i < |ss| ==> ExactlyOnce(ss[i])) <==>
            (forall i :: 0 <= i < |es| ==> !Overlaps(ss[i], es[i]))
    decreases |es|
  {
    hide ExactlyOnce, Overlaps, Step, Flushes, MustFlush, Possible, Sound, Unforced, Covered, ReachOf;
    if es == [] {
      EmptyExact();
      EmptyExactlyOnce();
      assert forall i :: 0 <= i < |ss| ==> ss[i] == Empty();
    } else {
      var n := |es| - 1;
      var ss', es' := ss[..n + 1], es[..n];
      assert Path(batchMax, ss', es') by {
        assert forall i :: 0 <= i < n ==> es'[i] == es[i];
      }
      StreamIngestIsExact(batchMax, ss', es');
      assert forall i :: 0 <= i < n ==> ss'[i] == ss[i] && es'[i] == es[i];
      assert ss'[n] == ss[n];
      assert Enabled(ss[n], batchMax, es[n]) && ss[n + 1] == Step(ss[n], es[n]);
      UnforcedIsCovered(ss[n], es[n]);
      StepSound(ss[n], batchMax, es[n]);
      StepReach(ss[n], es[n]);
      if ExactlyOnce(ss[n]) {
        StepExactIff(ss[n], batchMax, es[n]);
      }
    }
  }

  lemma EmptyExactlyOnce()
    ensures ExactlyOnce(Empty()) && Empty().reached == ReachOf(Empty().spans)
  {
  }
}
