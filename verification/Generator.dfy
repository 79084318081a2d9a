/** The generator as the loop keeps it: one simulator per well ever seen, never
    discarded, and the accumulator of owed samples. */
module Generator {
  import opened Frames
  import opened Numbering

  /** What the waveforms yield for one sample; always finite numbers. */
  datatype Wave = Wave(pressure: real, rate: real, proppant: real, temp: real)

  /** The frame carries the four values of the sample, each in its own channel. */
  predicate Shows(f: Frame, wave: Wave) {
    && f.pressure == Finite(wave.pressure) && f.rate == Finite(wave.rate)
    && f.proppant == Finite(wave.proppant) && f.temp == Finite(wave.temp)
  }

  class WellSim {
    const pad: nat
    const well: nat
    const epoch: nat
    var seqNo: nat

    constructor (pad: nat, well: nat, epoch: nat)
      ensures this.pad == pad && this.well == well && this.epoch == epoch && seqNo == 0
    {
      this.pad, this.well, this.epoch, seqNo := pad, well, epoch, 0;
    }

    /** Advance one sample interval and emit the next frame. */
    method Step(tMs: nat, wave: Wave) returns (frame: Frame)
      modifies this`seqNo
      ensures seqNo == old(seqNo) + 1
      ensures IsValid(frame) && IdentityOf(frame) == Identity(WellId(pad, well), epoch, seqNo) && frame.tMs == tMs
      ensures Shows(frame, wave)
    {
      seqNo := seqNo + 1;
      frame := Frame(FRAME_VERSION, pad, well, epoch, seqNo, tMs,
                     Finite(wave.pressure), Finite(wave.rate), Finite(wave.proppant), Finite(wave.temp));
    }
  }

  /** Wells numbered from 1 on pads numbered from 1. */
  predicate InField(k: WellId, pads: nat, wellsPerPad: nat) {
    1 <= k.pad <= pads && 1 <= k.well <= wellsPerPad
  }

  /** The wells that come before (p, w) in one sample's sweep over the field. */
  predicate Before(k: WellId, p: nat, w: nat, wellsPerPad: nat) {
    1 <= k.pad && 1 <= k.well <= wellsPerPad && (k.pad < p || (k.pad == p && k.well < w))
  }

  class Generator {
    const epoch: nat
    var wells: map<WellId, WellSim>
    var acc: real
    /** Frames handed to the uplink. */
    var sent: seq<Frame>
    ghost var ticks: seq<Tick>
    ghost var samplesMade: int

    /** Each simulator carries on where its well's frames ended; no two wells share one. */
    ghost predicate Valid()
      reads this, wells.Values
    {
      && Numbered(sent, epoch)
      && (forall k :: k in wells ==>
            wells[k].pad == k.pad && wells[k].well == k.well && wells[k].epoch == epoch
            && wells[k].seqNo == CountOf(sent, k))
      && (forall k :: k !in wells ==> CountOf(sent, k) == 0)
    }

    constructor (epoch: nat)
      ensures Valid() && this.epoch == epoch && sent == [] && ticks == [] && samplesMade == 0 && acc == 0.0
      ensures wells == map[]
    {
      this.epoch, wells, acc, sent, ticks, samplesMade := epoch, map[], 0.0, [], [], 0;
    }

    /** The well's simulator, created on first use. */
    method WellFor(p: nat, w: nat) returns (sim: WellSim)
      requires Valid()
      modifies this`wells
      ensures Valid() && fresh(wells.Values - old(wells.Values))
      ensures WellId(p, w) in wells && wells[WellId(p, w)] == sim
    {
      hide Numbered, CountOf;
      var k := WellId(p, w);
      if k in wells {
        sim := wells[k];
      } else {
        sim := new WellSim(p, w, epoch);
        wells := wells[k := sim];
        assert wells.Values <= old(wells.Values) + {sim};
      }
    }

    /** One frame of one well. The channel takes `limit` frames in all; when it refuses
        one, the uplink is gone. */
    method EmitOne(p: nat, w: nat, tMs: nat, wave: Wave, limit: nat) returns (alive: bool)
      requires Valid()
      modifies this`wells, this`sent, wells.Values
      ensures fresh(wells.Values - old(wells.Values))
      ensures alive == (|old(sent)| < limit)
      ensures if alive then Valid() && Emitted(old(sent), sent, WellId(p, w), tMs, wave) else sent == old(sent)
    {
      hide Numbered, CountOf, IsValid, Shows;
      var sim := WellFor(p, w);
      ghost var k := WellId(p, w);
      assert forall j :: j in wells && j != k ==> wells[j] != sim;
      ghost var before := sent;
      var frame := sim.Step(tMs, wave);
      alive := |sent| < limit;
      if alive {
        sent := sent + [frame];
        NumberedMore(before, frame, epoch);
        CountsMore(before, frame);
      }
    }

    /** One sample: one frame of every well of the field. */
    method EmitSample(pads: nat, wellsPerPad: nat, tMs: nat, waves: nat -> Wave, limit: nat) returns (alive: bool)
      requires Valid()
      modifies this`wells, this`sent, wells.Values
      ensures fresh(wells.Values - old(wells.Values)) && Numbered(sent, epoch)
      ensures alive ==> Valid() && Swept(old(sent), sent, pads + 1, 1, wellsPerPad)
      ensures alive ==> Sampled(old(sent), sent, tMs, waves, pads + 1, 1, wellsPerPad)
    {
      hide Numbered, CountOf, Swept, Emitted, Sampled;
      ghost var start := sent;
      SweptNone(start, wellsPerPad);
      SampledNone(start, tMs, waves, wellsPerPad);
      for p := 1 to pads + 1
        invariant Valid() && Swept(start, sent, p, 1, wellsPerPad)
        invariant Sampled(start, sent, tMs, waves, p, 1, wellsPerPad)
        invariant fresh(wells.Values - old(wells.Values))
      {
        for w := 1 to wellsPerPad + 1
          invariant Valid() && Swept(start, sent, p, w, wellsPerPad)
          invariant Sampled(start, sent, tMs, waves, p, w, wellsPerPad)
          invariant fresh(wells.Values - old(wells.Values))
        {
          ghost var before := sent;
          alive := EmitOne(p, w, tMs, waves(|sent|), limit);
          if !alive {
            return;
          }
          SampledMore(start, before, sent, p, w, wellsPerPad, tMs, waves);
          SweptMore(start, before, sent, p, w, wellsPerPad, tMs, waves(|before|));
        }
        SweptPad(start, sent, p, wellsPerPad);
        SampledPad(start, sent, tMs, waves, p, wellsPerPad);
      }
      alive := true;
    }

    /** The samples made and the fraction carried over are what the ticks add up to. */
    ghost predicate Clock()
      reads this
    {
      Accumulated(ticks) == (samplesMade, acc)
    }

    /** One tick of the loop: as many samples as the accumulator owes, over the field as
        it stands now. */
    method OnTick(hz: real, dt: real, pads: nat, wellsPerPad: nat, now: nat -> nat, waves: nat -> Wave, limit: nat)
      returns (alive: bool)
      requires Valid() && Clock() && hz > 0.0 && dt >= 0.0
      modifies this, wells.Values
      ensures fresh(wells.Values - old(wells.Values)) && Numbered(sent, epoch)
      ensures ticks == old(ticks) + [Tick(hz, dt)] && Clock() && samplesMade >= old(samplesMade)
      ensures samplesMade == Elapsed(ticks).Floor && 0.0 <= acc < 1.0
      ensures alive ==> Valid() && Made(old(sent), sent, pads, wellsPerPad, samplesMade - old(samplesMade))
      ensures alive ==> Timed(old(sent), sent, now, waves)
    {
      hide Numbered, CountOf, Made, Timed, Accumulated, Elapsed;
      var samples := Owe(hz, dt);
      alive := EmitSamples(samples, pads, wellsPerPad, now, waves, limit);
    }

    method EmitSamples(samples: nat, pads: nat, wellsPerPad: nat, now: nat -> nat, waves: nat -> Wave, limit: nat)
      returns (alive: bool)
      requires Valid()
      modifies this`wells, this`sent, wells.Values
      ensures fresh(wells.Values - old(wells.Values)) && Numbered(sent, epoch)
      ensures alive ==> Valid() && Made(old(sent), sent, pads, wellsPerPad, samples)
      ensures alive ==> Timed(old(sent), sent, now, waves)
    {
      hide Numbered, CountOf, Swept, Made, Sampled, Timed;
      ghost var start := sent;
      MadeNone(start, pads, wellsPerPad);
      TimedNone(start, now, waves);
      for i := 0 to samples
        invariant Valid() && Made(start, sent, pads, wellsPerPad, i) && Timed(start, sent, now, waves)
        invariant fresh(wells.Values - old(wells.Values))
      {
        ghost var before := sent;
        alive := EmitSample(pads, wellsPerPad, now(i), waves, limit);
        if !alive {
          return;
        }
        TimedMore(start, before, sent, pads, wellsPerPad, i, now, waves);
        SweptAll(start, before, sent, pads, wellsPerPad, i);
      }
      alive := true;
    }

    /** Add the tick to the accumulator and take out the whole samples. */
    method Owe(hz: real, dt: real) returns (samples: nat)
      requires Clock() && hz > 0.0 && dt >= 0.0
      modifies this`acc, this`ticks, this`samplesMade
      ensures Clock() && ticks == old(ticks) + [Tick(hz, dt)] && samplesMade == old(samplesMade) + samples
      ensures samplesMade == Elapsed(ticks).Floor && 0.0 <= acc < 1.0
    {
      hide Elapsed, Accumulated, Owed;
      SamplesAreTheFloor(ticks);
      ghost var tick := Tick(hz, dt);
      var owed := hz * dt;
      OwedIs(hz, dt);
      acc := acc + owed;
      samples := acc.Floor;
      acc := acc - samples as real;
      ticks, samplesMade := ticks + [Tick(hz, dt)], samplesMade + samples;
      AccumulatedMore(old(ticks), tick);
      SamplesAreTheFloor(ticks);
    }
  }

  lemma OwedIs(hz: real, dt: real)
    requires hz > 0.0 && dt >= 0.0
    ensures Owed(Tick(hz, dt)) == hz * dt >= 0.0
  {
  }

  /** The sweep of one sample has passed the wells before (p, w). */
  ghost predicate Swept(before: seq<Frame>, after: seq<Frame>, p: nat, w: nat, wellsPerPad: nat) {
    && before <= after
    && forall k :: CountOf(after, k) == CountOf(before, k) + if Before(k, p, w, wellsPerPad) then 1 else 0
  }

  lemma SweptNone(fs: seq<Frame>, wellsPerPad: nat)
    ensures Swept(fs, fs, 1, 1, wellsPerPad)
  {
  }

  lemma MadeNone(fs: seq<Frame>, pads: nat, wellsPerPad: nat)
    ensures Made(fs, fs, pads, wellsPerPad, 0)
  {
  }

  lemma SweptMore(start: seq<Frame>, before: seq<Frame>, after: seq<Frame>, p: nat, w: nat, wellsPerPad: nat,
                  tMs: nat, wave: Wave)
    requires Swept(start, before, p, w, wellsPerPad) && Emitted(before, after, WellId(p, w), tMs, wave)
    requires 1 <= p && 1 <= w <= wellsPerPad
    ensures Swept(start, after, p, w + 1, wellsPerPad)
  {
    hide CountOf;
  }

  lemma SweptPad(before: seq<Frame>, after: seq<Frame>, p: nat, wellsPerPad: nat)
    requires Swept(before, after, p, wellsPerPad + 1, wellsPerPad)
    ensures Swept(before, after, p + 1, 1, wellsPerPad)
  {
    hide CountOf;
    forall k ensures CountOf(after, k) == CountOf(before, k) + if Before(k, p + 1, 1, wellsPerPad) then 1 else 0 {
      assert Before(k, p + 1, 1, wellsPerPad) == Before(k, p, wellsPerPad + 1, wellsPerPad);
    }
  }

  /** Every well of the field, and no other, has made `times` more frames. */
  ghost predicate Made(before: seq<Frame>, after: seq<Frame>, pads: nat, wellsPerPad: nat, times: nat) {
    && before <= after
    && forall k :: CountOf(after, k) == CountOf(before, k) + if InField(k, pads, wellsPerPad) then times else 0
  }

  lemma SweptAll(start: seq<Frame>, before: seq<Frame>, after: seq<Frame>, pads: nat, wellsPerPad: nat, times: nat)
    requires Made(start, before, pads, wellsPerPad, times) && Swept(before, after, pads + 1, 1, wellsPerPad)
    ensures Made(start, after, pads, wellsPerPad, times + 1)
  {
    hide CountOf;
    forall k ensures CountOf(after, k) == CountOf(start, k) + if InField(k, pads, wellsPerPad) then times + 1 else 0 {
      assert InField(k, pads, wellsPerPad) == Before(k, pads + 1, 1, wellsPerPad);
    }
  }

  /** One more frame of a well went out, numbered behind its earlier ones. */
  ghost predicate Emitted(before: seq<Frame>, after: seq<Frame>, k: WellId, tMs: nat, wave: Wave) {
    && |after| == |before| + 1 && before <= after
    && WellOf(after[|before|]) == k && after[|before|].tMs == tMs && Shows(after[|before|], wave)
    && after[|before|].seqNo == CountOf(before, k) + 1
    && forall j :: CountOf(after, j) == CountOf(before, j) + if j == k then 1 else 0
  }

  lemma CountsMore(fs: seq<Frame>, f: Frame)
    ensures forall j :: CountOf(fs + [f], j) == CountOf(fs, j) + if j == WellOf(f) then 1 else 0
  {
    forall j ensures CountOf(fs + [f], j) == CountOf(fs, j) + if j == WellOf(f) then 1 else 0 {
      CountLast(fs, f, j);
    }
  }

  // ---- What the frames of a sample carry ----

  /** The new frames come pad by pad and well by well, each numbered next of its well, with
      the sample's time and its own values. */
  ghost predicate Sampled(before: seq<Frame>, after: seq<Frame>, tMs: nat, waves: nat -> Wave,
                          p: nat, w: nat, wellsPerPad: nat) {
    && before <= after
    && (forall j :: |before| <= j < |after| ==>
          && Before(WellOf(after[j]), p, w, wellsPerPad)
          && after[j].seqNo == CountOf(before, WellOf(after[j])) + 1
          && after[j].tMs == tMs && Shows(after[j], waves(j)))
    && (forall i, j :: |before| <= i < j < |after| ==>
          Before(WellOf(after[i]), after[j].pad, after[j].well, wellsPerPad))
  }

  lemma SampledNone(fs: seq<Frame>, tMs: nat, waves: nat -> Wave, wellsPerPad: nat)
    ensures Sampled(fs, fs, tMs, waves, 1, 1, wellsPerPad)
  {
  }

  lemma SampledMore(start: seq<Frame>, before: seq<Frame>, after: seq<Frame>, p: nat, w: nat, wellsPerPad: nat,
                    tMs: nat, waves: nat -> Wave)
    requires Swept(start, before, p, w, wellsPerPad) && Sampled(start, before, tMs, waves, p, w, wellsPerPad)
    requires Emitted(before, after, WellId(p, w), tMs, waves(|before|)) && 1 <= p && 1 <= w <= wellsPerPad
    ensures Sampled(start, after, tMs, waves, p, w + 1, wellsPerPad)
  {
    hide CountOf, Shows;
    assert forall j :: 0 <= j < |before| ==> after[j] == before[j];
    assert !Before(WellId(p, w), p, w, wellsPerPad);
    assert CountOf(before, WellId(p, w)) == CountOf(start, WellId(p, w));
  }

  lemma SampledPad(before: seq<Frame>, after: seq<Frame>, tMs: nat, waves: nat -> Wave, p: nat, wellsPerPad: nat)
    requires Sampled(before, after, tMs, waves, p, wellsPerPad + 1, wellsPerPad)
    ensures Sampled(before, after, tMs, waves, p + 1, 1, wellsPerPad)
  {
    hide CountOf, Shows, Before;
    forall j | |before| <= j < |after| ensures Before(WellOf(after[j]), p + 1, 1, wellsPerPad) {
      PadPassed(WellOf(after[j]), p, wellsPerPad);
    }
  }

  lemma PadPassed(k: WellId, p: nat, wellsPerPad: nat)
    ensures Before(k, p + 1, 1, wellsPerPad) == Before(k, p, wellsPerPad + 1, wellsPerPad)
  {
  }

  /** Of the new frames of a well, the first carries the time of the first sample, the
      second that of the second, and so on; each shows its own values. */
  ghost predicate Timed(start: seq<Frame>, after: seq<Frame>, now: nat -> nat, waves: nat -> Wave) {
    && start <= after
    && forall j :: |start| <= j < |after| ==>
         && after[j].seqNo > CountOf(start, WellOf(after[j]))
         && after[j].tMs == now(after[j].seqNo - 1 - CountOf(start, WellOf(after[j])))
         && Shows(after[j], waves(j))
  }

  lemma TimedNone(fs: seq<Frame>, now: nat -> nat, waves: nat -> Wave)
    ensures Timed(fs, fs, now, waves)
  {
  }

  lemma TimedMore(start: seq<Frame>, before: seq<Frame>, after: seq<Frame>, pads: nat, wellsPerPad: nat, i: nat,
                  now: nat -> nat, waves: nat -> Wave)
    requires Made(start, before, pads, wellsPerPad, i) && Timed(start, before, now, waves)
    requires Sampled(before, after, now(i), waves, pads + 1, 1, wellsPerPad)
    ensures Timed(start, after, now, waves)
  {
    hide CountOf, Shows;
    forall j | |start| <= j < |after|
      ensures after[j].seqNo > CountOf(start, WellOf(after[j]))
      ensures after[j].tMs == now(after[j].seqNo - 1 - CountOf(start, WellOf(after[j])))
      ensures Shows(after[j], waves(j))
    {
      if j < |before| {
        assert after[j] == before[j];
      } else {
        var k := WellOf(after[j]);
        assert InField(k, pads, wellsPerPad);
        assert CountOf(before, k) == CountOf(start, k) + i;
      }
    }
  }
}
