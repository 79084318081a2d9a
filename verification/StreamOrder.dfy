/** The order in which retransmits go out, and what it would mean for a broker that
    remembers only the highest publishing id. */
module StreamOrder {
  import opened Frames
  import opened StreamModel

  function Reversed(ids: seq<nat>): seq<nat> {
    if ids == [] then [] else [ids[|ids| - 1]] + Reversed(ids[..|ids| - 1])
  }

  lemma {:induction false} ReversedAt(ids: seq<nat>)
    ensures |Reversed(ids)| == |ids|
    ensures forall j :: 0 <= j < |ids| ==> Reversed(ids)[j] == ids[|ids| - 1 - j]
  {
    if ids != [] {
      ReversedAt(ids[..|ids| - 1]);
    }
  }

  function IdsOf(retries: seq<(Frame, nat)>): seq<nat> {
    if retries == [] then [] else IdsOf(retries[..|retries| - 1]) + [retries[|retries| - 1].1]
  }

  lemma {:induction false} IdsOfAt(retries: seq<(Frame, nat)>)
    ensures |IdsOf(retries)| == |retries|
    ensures forall i :: 0 <= i < |retries| ==> IdsOf(retries)[i] == retries[i].1
  {
    if retries != [] {
      IdsOfAt(retries[..|retries| - 1]);
    }
  }

  /** The newest entries of the stack that fit. */
  function Top(ids: seq<nat>, room: nat): seq<nat> {
    if room >= |ids| then ids else ids[|ids| - room..]
  }

  /** Retransmits go out newest-returned first, as many as there is room for. */
  lemma {:induction false} RetriesAreAStack(e: Edge, room: nat, n: nat, now: nat -> nat)
    ensures TakeRetries(e, room, n, now).1 == Reversed(Top(IdsOf(e.retryIds), room))
    decreases room
  {
    hide Top, Reversed;
    IdsOfAt(e.retryIds);
    TopEnds(IdsOf(e.retryIds), room);
    if room > 0 && e.retryIds != [] {
      RetriesAreAStack(PopRetry(e, now(n)), room - 1, n + 1, now);
      TopLast(IdsOf(e.retryIds), room);
    }
  }

  lemma TopEnds(ids: seq<nat>, room: nat)
    ensures ids == [] || room == 0 ==> Reversed(Top(ids, room)) == []
  {
  }

  lemma TopLast(ids: seq<nat>, room: nat)
    requires ids != [] && room > 0
    ensures var n := |ids| - 1;
            Reversed(Top(ids, room)) == [ids[n]] + Reversed(Top(ids[..n], room - 1))
  {
    var n := |ids| - 1;
    var top := Top(ids, room);
    assert top[..|top| - 1] == Top(ids[..n], room - 1);
  }

  ghost predicate AllOrdinary(e: Edge, ids: seq<nat>) {
    && (forall i :: 0 <= i < |ids| ==> ids[i] in e.inflight && !e.inflight[ids[i]].dup)
    && (forall i, j :: 0 <= i < j < |ids| ==> ids[i] != ids[j])
  }

  lemma {:induction false} GiveBackAppends(e: Edge, ids: seq<nat>)
    requires AllOrdinary(e, ids)
    ensures IdsOf(GiveBack(e, ids).retryIds) == IdsOf(e.retryIds) + ids
    ensures forall id :: id in e.inflight && id !in ids ==>
              id in GiveBack(e, ids).inflight && GiveBack(e, ids).inflight[id] == e.inflight[id]
  {
    if ids != [] {
      var n := |ids| - 1;
      var init, id := ids[..n], ids[n];
      assert ids == init + [id];
      GiveBackAppends(e, init);
      assert id !in init;
      var g := GiveBack(e, init);
      assert GiveOne(g, id).retryIds == g.retryIds + [(g.inflight[id].frame, id)];
    }
  }

  /** Frames given back in some order go on top of the stack and are retransmitted in
      the reverse order, not in the order of their ids. */
  lemma RetransmitsReverse(e: Edge, ids: seq<nat>, room: nat, now: nat -> nat)
    requires AllOrdinary(e, ids)
    ensures TakeRetries(GiveBack(e, ids), room, 0, now).1 == Reversed(Top(IdsOf(e.retryIds) + ids, room))
  {
    GiveBackAppends(e, ids);
    RetriesAreAStack(GiveBack(e, ids), room, 0, now);
  }

  // ---- A broker that keeps only the highest id ----

  /** What such a broker appends of a series of arriving ids. */
  function HighestLog(arrivals: seq<nat>): seq<nat> {
    if arrivals == [] then []
    else
      var log, id := HighestLog(arrivals[..|arrivals| - 1]), arrivals[|arrivals| - 1];
      if log == [] || log[|log| - 1] < id then log + [id] else log
  }

  lemma {:induction false} HighestLogTop(arrivals: seq<nat>)
    ensures var log := HighestLog(arrivals);
            && (log == [] <==> arrivals == [])
            && (forall id :: id in arrivals ==> id <= log[|log| - 1])
            && (forall id :: id in log ==> id <= log[|log| - 1])
  {
    if arrivals != [] {
      HighestLogTop(arrivals[..|arrivals| - 1]);
      assert arrivals == arrivals[..|arrivals| - 1] + [arrivals[|arrivals| - 1]];
    }
  }

  lemma {:induction false} HighestLogShape(arrivals: seq<nat>)
    ensures var log := HighestLog(arrivals);
            && (log == [] <==> arrivals == [])
            && (forall id :: id in arrivals ==> id <= log[|log| - 1])
            && (forall id :: id in log ==> id in arrivals)
  {
    HighestLogTop(arrivals);
    if arrivals != [] {
      HighestLogShape(arrivals[..|arrivals| - 1]);
    }
  }

  /** Each id, when it first arrives, is above all that came before. */
  ghost predicate FirstsAscend(arrivals: seq<nat>) {
    forall i, j :: 0 <= i < j < |arrivals| && arrivals[j] !in arrivals[..j] ==> arrivals[i] < arrivals[j]
  }

  ghost predicate KeepsAll(arrivals: seq<nat>) {
    forall id :: id in arrivals ==> id in HighestLog(arrivals)
  }

  lemma FirstsAscendPrefix(arrivals: seq<nat>)
    requires arrivals != []
    ensures FirstsAscend(arrivals) ==> FirstsAscend(arrivals[..|arrivals| - 1])
  {
    var n := |arrivals| - 1;
    if FirstsAscend(arrivals) {
      forall i, j | 0 <= i < j < n && arrivals[..n][j] !in arrivals[..n][..j]
        ensures arrivals[..n][i] < arrivals[..n][j]
      {
        assert arrivals[..n][..j] == arrivals[..j];
        assert arrivals[i] < arrivals[j];
      }
    }
  }

  lemma FirstsAscendLast(arrivals: seq<nat>)
    requires arrivals != []
    requires var n := |arrivals| - 1;
             && FirstsAscend(arrivals[..n])
             && (arrivals[n] in arrivals[..n] || forall i :: 0 <= i < n ==> arrivals[i] < arrivals[n])
    ensures FirstsAscend(arrivals)
  {
    var n := |arrivals| - 1;
    forall i, j | 0 <= i < j < |arrivals| && arrivals[j] !in arrivals[..j] ensures arrivals[i] < arrivals[j] {
      if j < n {
        assert arrivals[..n][..j] == arrivals[..j];
        assert arrivals[..n][i] < arrivals[..n][j];
      }
    }
  }

  ghost predicate Above(id: nat, seen: seq<nat>) {
    forall j :: 0 <= j < |seen| ==> id > seen[j]
  }

  lemma FirstsAscendLastIff(seen: seq<nat>, id: nat)
    ensures FirstsAscend(seen + [id]) <==>
            FirstsAscend(seen) && (id in seen || Above(id, seen))
  {
    var all, n := seen + [id], |seen|;
    assert all[..n] == seen;
    FirstsAscendPrefix(all);
    if FirstsAscend(all) && id !in seen {
      forall j | 0 <= j < n ensures id > seen[j] {
        assert all[j] < all[n];
      }
    }
    if FirstsAscend(seen) && (id in seen || Above(id, seen)) {
      FirstsAscendLast(all);
    }
  }

  /** One more arrival is kept exactly when it has been seen or is above all before. */
  lemma {:induction false} KeepsAllLastIff(seen: seq<nat>, id: nat)
    ensures KeepsAll(seen + [id]) <==> KeepsAll(seen) && (id in seen || Above(id, seen))
  {
    var log, all := HighestLog(seen), seen + [id];
    HighestLogShape(seen);
    hide HighestLog, Above;
    HighestLogStep(seen, id);
    assert forall x :: x in all <==> x in seen || x == id;
    if log == [] || log[|log| - 1] < id {
      NewestIsAbove(seen, id, log);
      assert forall x :: x in log + [id] <==> x in log || x == id;
    } else if Above(id, seen) {
      SeenBounds(seen, id, log[|log| - 1]);
    }
  }

  lemma {:induction false} HighestLogStep(seen: seq<nat>, id: nat)
    ensures var log := HighestLog(seen);
            HighestLog(seen + [id]) == if log == [] || log[|log| - 1] < id then log + [id] else log
  {
    assert (seen + [id])[..|seen|] == seen;
  }

  lemma NewestIsAbove(seen: seq<nat>, id: nat, log: seq<nat>)
    requires log == [] <==> seen == []
    requires log != [] ==> log[|log| - 1] < id && forall x :: x in seen ==> x <= log[|log| - 1]
    ensures Above(id, seen) && id !in seen
  {
    forall j | 0 <= j < |seen| ensures id > seen[j] {
      assert seen[j] in seen;
    }
  }

  lemma SeenBounds(seen: seq<nat>, id: nat, top: nat)
    requires Above(id, seen) && top in seen
    ensures top < id
  {
  }

  /** A highest-id broker loses nothing exactly when first arrivals ascend. */
  lemma {:induction false} KeepsAllIff(arrivals: seq<nat>)
    ensures KeepsAll(arrivals) <==> FirstsAscend(arrivals)
  {
    if arrivals != [] {
      hide KeepsAll, FirstsAscend, Above;
      var init, id := arrivals[..|arrivals| - 1], arrivals[|arrivals| - 1];
      assert arrivals == init + [id];
      KeepsAllIff(init);
      KeepsAllLastIff(init, id);
      FirstsAscendLastIff(init, id);
    }
  }

  // ---- Together ----

  ghost predicate Descends(ids: seq<nat>) {
    forall i, j :: 0 <= i < j < |ids| ==> ids[i] > ids[j]
  }

  ghost predicate AllDifferent(ids: seq<nat>) {
    forall i, j :: 0 <= i < j < |ids| ==> ids[i] != ids[j]
  }

  /** The ids that the broker has not seen. */
  function Unseen(ids: seq<nat>, seen: seq<nat>): seq<nat> {
    if ids == [] then []
    else
      var id := ids[|ids| - 1];
      Unseen(ids[..|ids| - 1], seen) + if id in seen then [] else [id]
  }

  ghost predicate AllAbove(ids: seq<nat>, seen: seq<nat>) {
    forall i, j :: 0 <= i < |ids| && 0 <= j < |seen| ==> ids[i] > seen[j]
  }

  lemma {:induction false} UnseenHas(ids: seq<nat>, seen: seq<nat>, id: nat)
    ensures id in Unseen(ids, seen) <==> id in ids && id !in seen
  {
    if ids != [] {
      var n := |ids| - 1;
      UnseenHas(ids[..n], seen, id);
      assert ids == ids[..n] + [ids[n]];
    }
  }

  lemma {:induction false} UnseenMore(ids: seq<nat>, seen: seq<nat>, id: nat)
    requires id !in ids
    ensures Unseen(ids, seen + [id]) == Unseen(ids, seen)
  {
    if ids != [] {
      var n := |ids| - 1;
      assert ids == ids[..n] + [ids[n]];
      UnseenMore(ids[..n], seen, id);
    }
  }

  ghost predicate Under(id: nat, ids: seq<nat>) {
    forall i :: 0 <= i < |ids| ==> ids[i] > id
  }

  lemma DescendsLastIff(s: seq<nat>, id: nat)
    ensures Descends(s + [id]) <==> Descends(s) && Under(id, s)
  {
    var r := s + [id];
    if Descends(r) {
      forall i, j | 0 <= i < j < |s| ensures s[i] > s[j] {
        assert r[i] > r[j];
      }
      forall i | 0 <= i < |s| ensures s[i] > id {
        assert r[i] > r[|s|];
      }
    }
  }

  lemma AllAboveLastIff(ids: seq<nat>, seen: seq<nat>, id: nat)
    ensures AllAbove(ids, seen + [id]) <==> AllAbove(ids, seen) && Under(id, ids)
    ensures AllAbove(ids + [id], seen) <==> AllAbove(ids, seen) && Above(id, seen)
  {
    var more, longer := seen + [id], ids + [id];
    if AllAbove(ids, more) {
      forall i, j | 0 <= i < |ids| && 0 <= j < |seen| ensures ids[i] > seen[j] {
        assert ids[i] > more[j];
      }
      forall i | 0 <= i < |ids| ensures ids[i] > id {
        assert ids[i] > more[|seen|];
      }
    }
    if AllAbove(longer, seen) {
      forall i, j | 0 <= i < |ids| && 0 <= j < |seen| ensures ids[i] > seen[j] {
        assert longer[i] > seen[j];
      }
      forall j | 0 <= j < |seen| ensures id > seen[j] {
        assert longer[|ids|] > seen[j];
      }
    }
  }

  /** A history, then different ids in reverse: first arrivals ascend exactly when the
      history's do, the unseen ids are above it, and they descend. */
  lemma {:induction false} ReversedFirstsAscendIff(seen: seq<nat>, ids: seq<nat>)
    requires AllDifferent(ids)
    ensures FirstsAscend(seen + Reversed(ids)) <==>
            FirstsAscend(seen) && AllAbove(Unseen(ids, seen), seen) && Descends(Unseen(ids, seen))
    decreases ids
  {
    if ids == [] {
      assert seen + [] == seen;
    } else {
      var init, id := ids[..|ids| - 1], ids[|ids| - 1];
      assert id !in init;
      hide FirstsAscend, AllAbove, Descends, Above, Under, Unseen, Reversed;
      var news := Unseen(init, seen);
      LastOut(seen, ids);
      ReversedFirstsAscendIff(seen + [id], init);
      UnseenMore(init, seen, id);
      FirstsAscendLastIff(seen, id);
      AllAboveLastIff(news, seen, id);
      DescendsLastIff(news, id);
      if id in seen { AboveOne(news, seen, id); }
    }
  }

  lemma LastOut(seen: seq<nat>, ids: seq<nat>)
    requires ids != []
    ensures var (init, id) := (ids[..|ids| - 1], ids[|ids| - 1]);
            && seen + Reversed(ids) == (seen + [id]) + Reversed(init)
            && Unseen(ids, seen) == if id in seen then Unseen(init, seen) else Unseen(init, seen) + [id]
  {
  }

  lemma AboveOne(ids: seq<nat>, seen: seq<nat>, id: nat)
    requires id in seen
    ensures AllAbove(ids, seen) ==> Under(id, ids)
  {
    var j :| 0 <= j < |seen| && seen[j] == id;
  }

  /** A broker that keeps only the highest id, after whatever has arrived so far, keeps
      the next retransmits too if and only if it has kept everything so far, no
      retransmitted id it has not seen is below one it has, and those ids wait in
      descending order. A hash map promises no such order, and a single id given back
      after a higher one arrived is lost. */
  lemma HighestOnlyKeepsRetransmitsIff(e: Edge, ids: seq<nat>, room: nat, now: nat -> nat, seen: seq<nat>)
    requires AllOrdinary(e, ids) && AllDifferent(IdsOf(e.retryIds) + ids)
    ensures var waiting := Top(IdsOf(e.retryIds) + ids, room);
            var news := Unseen(waiting, seen);
            KeepsAll(seen + TakeRetries(GiveBack(e, ids), room, 0, now).1) <==>
            KeepsAll(seen) && AllAbove(news, seen) && Descends(news)
  {
    var waiting := Top(IdsOf(e.retryIds) + ids, room);
    assert AllDifferent(waiting);
    hide KeepsAll, FirstsAscend, TakeRetries, GiveBack, AllOrdinary, Reversed, Unseen;
    RetransmitsReverse(e, ids, room, now);
    KeepsAllIff(seen + Reversed(waiting));
    KeepsAllIff(seen);
    ReversedFirstsAscendIff(seen, waiting);
  }

  /** Even one frame, given back after a higher id has arrived and before its own did,
      is lost. */
  lemma OneLateRetransmitIsLost(e: Edge, id: nat, room: nat, now: nat -> nat, seen: seq<nat>, higher: nat)
    requires AllOrdinary(e, [id]) && e.retryIds == [] && room >= 1
    requires id !in seen && higher in seen && higher > id
    ensures !KeepsAll(seen + TakeRetries(GiveBack(e, [id]), room, 0, now).1)
  {
    assert IdsOf([]) + [id] == [id] && Top([id], room) == [id];
    HighestOnlyKeepsRetransmitsIff(e, [id], room, now, seen);
    assert Unseen([id], seen) == [id];
    AboveOne([id], seen, higher);
  }
}
