/** The edge's custody as the object both publishers share: deques and a vector
    updated in place. */
module UplinkState {
  import opened Folds
  import opened Frames
  import opened UplinkModel
  import UD = UplinkDrain

  class UplinkState {
    var padBuffers: map<nat, seq<Frame>>
    /** What came back from the wire and goes out before anything else. */
    var retry: seq<Frame>
    /** Copies to publish once more, for the duplicate fault. */
    var dupQueue: seq<Frame>
    /** Pulled frames that the reorder fault holds back. */
    var shuffle: seq<Frame>
    /** Pulled frames in the order in which they will go out. */
    var publishQueue: seq<Frame>
    const bufferCap: nat
    /** The drop counter of the shared counters. */
    var bufferDropped: nat

    function View(): Uplink
      reads this
    {
      Uplink(padBuffers, retry, dupQueue, shuffle, publishQueue, bufferCap)
    }

    constructor (pads: nat, cap: nat)
      ensures View() == Start(pads, cap) && bufferDropped == 0
    {
      var buffers: map<nat, seq<Frame>> := map[];
      for p := 1 to pads + 1
        invariant buffers == EmptyPads(p - 1)
      {
        buffers := buffers[p := []];
      }
      padBuffers, bufferCap := buffers, cap;
      retry, dupQueue, shuffle, publishQueue, bufferDropped := [], [], [], [], 0;
    }

    /** Put a frame at the back of its pad's buffer, which gives up its front when full. */
    method BufferFrame(frame: Frame)
      modifies this
      ensures View() == UplinkModel.BufferFrame(old(View()), frame)
      ensures bufferDropped == old(bufferDropped) + if CountsDrop(old(View()), frame) then 1 else 0
    {
      var buf := if frame.pad in padBuffers then padBuffers[frame.pad] else [];
      if |buf| >= bufferCap {
        if buf != [] { buf := buf[1..]; }
        bufferDropped := bufferDropped + 1;
      }
      padBuffers := padBuffers[frame.pad := buf + [frame]];
    }

    /** Frames in store-and-forward custody: everything held outside the wire
        except injected duplicates. */
    method Buffered() returns (total: nat)
      ensures total == |Held(View())|
    {
      total := 0;
      var rest := padBuffers;
      while rest != map[]
        invariant total + |Flat(rest)| == |Flat(padBuffers)|
        decreases |rest|
      {
        var k :| k in rest;
        FlatSplit(rest, k);
        total := total + |rest[k]|;
        rest := rest - {k};
      }
      total := total + |shuffle| + |publishQueue| + |retry|;
    }

    /** Pull from the pads whose link is up, one frame each a pass, and release the
        reorder window when it is off or full. */
    method FillPublishQueue(flt: Faults)
      modifies this
      ensures View() == Fill(old(View()), flt) && bufferDropped == old(bufferDropped)
    {
      hide FullPass, Shuffled;
      var pulled: nat, pass: nat := 0, 0;
      var more := true;
      ghost var goal := Pull(Stage(padBuffers, shuffle), 0, 0, flt.up);
      while more
        invariant retry == old(retry) && dupQueue == old(dupQueue) && publishQueue == old(publishQueue)
        invariant bufferDropped == old(bufferDropped)
        invariant more ==> pulled < PULL_LIMIT && Pull(Stage(padBuffers, shuffle), pulled, pass, flt.up) == goal
        invariant !more ==> Stage(padBuffers, shuffle) == goal
        decreases more, PULL_LIMIT - pulled
      {
        var got := PullPass(pass, flt.up);
        pulled, pass := pulled + got, pass + 1;
        more := got > 0 && pulled < PULL_LIMIT;
      }
      if flt.window <= 1 {
        publishQueue, shuffle := publishQueue + shuffle, [];
      } else if |shuffle| >= flt.window {
        ShuffleInPlace(flt.pick);
        publishQueue, shuffle := publishQueue + shuffle, [];
      }
    }

    /** One pass over the pads in ascending order; returns how many frames moved. */
    method PullPass(pass: nat, up: (nat, nat) -> bool) returns (got: nat)
      modifies `padBuffers, `shuffle
      ensures Stage(padBuffers, shuffle) == FullPass(old(Stage(padBuffers, shuffle)), pass, up)
      ensures got == |shuffle| - |old(shuffle)|
    {
      var keys := PadOrder(padBuffers);
      got := PullFrom(keys, Links(up, pass));
    }

    method PullFrom(keys: seq<nat>, up: nat -> bool) returns (got: nat)
      requires forall j :: 0 <= j < |keys| ==> keys[j] in padBuffers
      modifies `padBuffers, `shuffle
      ensures Stage(padBuffers, shuffle) == Pass(old(Stage(padBuffers, shuffle)), keys, 0, up)
      ensures got == |shuffle| - |old(shuffle)|
      ensures UD.NoneTwice(keys) ==>
                forall p :: UD.FrontTaken(old(Stage(padBuffers, shuffle)), Stage(padBuffers, shuffle), p,
                                          p in keys && up(p))
    {
      UD.PassTakesAllFronts(Stage(padBuffers, shuffle), keys, up);
      hide UD.NoneTwice, UD.FrontTaken;
      got := 0;
      for i := 0 to |keys|
        invariant padBuffers.Keys == old(padBuffers).Keys
        invariant Pass(Stage(padBuffers, shuffle), keys, i, up) == Pass(old(Stage(padBuffers, shuffle)), keys, 0, up)
        invariant got == |shuffle| - |old(shuffle)|
      {
        var pad := keys[i];
        if up(pad) && padBuffers[pad] != [] {
          shuffle := shuffle + [padBuffers[pad][0]];
          padBuffers := padBuffers[pad := padBuffers[pad][1..]];
          got := got + 1;
        }
      }
    }

    /** The backward swap loop over the shuffle vector. */
    method ShuffleInPlace(pick: nat -> nat)
      modifies `shuffle
      ensures shuffle == Shuffled(old(shuffle), Last(old(shuffle)), pick)
    {
      var i: nat := Last(shuffle);
      while i > 0
        invariant |shuffle| == |old(shuffle)| && (i == 0 || i < |shuffle|)
        invariant Shuffled(shuffle, i, pick) == Shuffled(old(shuffle), Last(old(shuffle)), pick)
      {
        var j := pick(i) % (i + 1);
        shuffle := shuffle[i := shuffle[j]][j := shuffle[i]];
        i := i - 1;
      }
    }

    /** Take one frame for the wire: from the returns, else from the copies, else from
        what was pulled, which is filled first when it is empty. */
    method NextPublishable(flt: Faults) returns (r: Option<(Frame, bool)>)
      modifies this
      ensures (View(), r) == Next(old(View()), flt) && bufferDropped == old(bufferDropped)
      ensures r.None? ==> UD.NothingToSend(old(View()), View(), flt)
    {
      hide Fill, UD.NothingToSend;
      if Next(View(), flt).1.None? { UD.NothingToSendWhen(View(), flt); }
      if retry != [] {
        r := Some((retry[0], false));
        retry := retry[1..];
        return;
      }
      if dupQueue != [] {
        r := Some((dupQueue[0], true));
        dupQueue := dupQueue[1..];
        return;
      }
      if publishQueue == [] {
        FillPublishQueue(flt);
      }
      if publishQueue == [] {
        r := None;
      } else {
        r := Some((publishQueue[0], false));
        publishQueue := publishQueue[1..];
      }
    }
  }
}
