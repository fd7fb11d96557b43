/**
 Freshness: a message is accepted if its timestamp is within a window of the clock
 and its key is not marked. How long must marks live so that no message is accepted
 twice?
 */
module Freshness {
  import opened Replay
  import Time

  /** A message that reached the server: its key and timestamp if it is authentic, the
      clock when the window was checked and the clock when the mark was made. */
  datatype Delivery = Delivery(authentic: bool, key: string, stamp: int, checkedAt: int, markedAt: int)

  predicate Within(d: Delivery, window: int) {
    d.authentic && -window <= d.checkedAt - d.stamp <= window
  }

  function MarksAfterDeliveries(window: int, limit: int, ttl: int, ds: seq<Delivery>): (r: Marks) {
    if ds == [] then map[]
    else
      var d, before := ds[|ds| - 1], MarksAfterDeliveries(window, limit, ttl, ds[..|ds| - 1]);
      if Within(d, window) then Marked(before, limit, ttl, d.key, d.markedAt) else before
  }

  /** Message `i` of the run is accepted. */
  predicate AcceptedAt(window: int, limit: int, ttl: int, ds: seq<Delivery>, i: nat)
    requires i < |ds|
  {
    && Within(ds[i], window)
    && Decide(MarksAfterDeliveries(window, limit, ttl, ds[..i]), limit, ds[i].key, ds[i].markedAt) == Accepted
  }

  /** Marks are made in the order of the clock, each less than `delay` after its check. */
  ghost predicate Orderly(ds: seq<Delivery>, delay: int) {
    && (forall i, j :: 0 <= i < j < |ds| ==> ds[i].markedAt <= ds[j].markedAt)
    && (forall i :: 0 <= i < |ds| ==> 0 <= ds[i].markedAt - ds[i].checkedAt < delay)
  }

  lemma {:induction false} AcceptedIsMarked(window: int, limit: int, ttl: int, delay: int, ds: seq<Delivery>, i: nat)
    requires Orderly(ds, delay) && i < |ds| && AcceptedAt(window, limit, ttl, ds, i)
    ensures ds[i].key in MarksAfterDeliveries(window, limit, ttl, ds)
    ensures MarksAfterDeliveries(window, limit, ttl, ds)[ds[i].key] >= ds[i].markedAt + ttl
  {
    var n := |ds| - 1;
    if i < n {
      assert ds[..n][..i] == ds[..i];
      AcceptedIsMarked(window, limit, ttl, delay, ds[..n], i);
    }
  }

  /** A mark was left by an accepted message. */
  lemma {:induction false} MarkedWasAccepted(window: int, limit: int, ttl: int, ds: seq<Delivery>, key: string) returns (i: nat)
    requires key in MarksAfterDeliveries(window, limit, ttl, ds)
    ensures i < |ds| && ds[i].key == key && AcceptedAt(window, limit, ttl, ds, i)
    ensures MarksAfterDeliveries(window, limit, ttl, ds)[key] == ds[i].markedAt + ttl
  {
    hide Decide;
    var n := |ds| - 1;
    if ds[n].key == key && AcceptedAt(window, limit, ttl, ds, n) {
      i := n;
    } else {
      i := MarkedWasAccepted(window, limit, ttl, ds[..n], key);
      assert ds[..n][..i] == ds[..i];
    }
  }

  /** The keys of the messages accepted less than `ttl` before message `j` would be marked. */
  function RecentlyAccepted(window: int, limit: int, ttl: int, ds: seq<Delivery>, j: nat): (keys: set<string>)
    requires j < |ds|
  {
    set i | 0 <= i < j && AcceptedAt(window, limit, ttl, ds, i) && ds[j].markedAt < ds[i].markedAt + ttl :: ds[i].key
  }

  /** In every run the live marks are those of the recently accepted messages. */
  lemma LiveIffRecent(window: int, limit: int, ttl: int, delay: int, ds: seq<Delivery>, j: nat)
    requires Orderly(ds, delay) && j < |ds|
    ensures LiveMarks(MarksAfterDeliveries(window, limit, ttl, ds[..j]), ds[j].markedAt).Keys == RecentlyAccepted(window, limit, ttl, ds, j)
  {
    hide MarksAfterDeliveries, Decide, Within;
    var before, marks := ds[..j], MarksAfterDeliveries(window, limit, ttl, ds[..j]);
    forall key | key in LiveMarks(marks, ds[j].markedAt) ensures key in RecentlyAccepted(window, limit, ttl, ds, j) {
      var i := MarkedWasAccepted(window, limit, ttl, before, key);
      assert before[..i] == ds[..i];
    }
    forall i | 0 <= i < j && AcceptedAt(window, limit, ttl, ds, i) && ds[j].markedAt < ds[i].markedAt + ttl
      ensures ds[i].key in LiveMarks(marks, ds[j].markedAt)
    {
      assert before[..i] == ds[..i];
      AcceptedIsMarked(window, limit, ttl, delay, before, i);
    }
  }

  /** Every answer is exact, in every run: a message is accepted if and only if it is
      authentic, its timestamp is within the window of the clock, its key is not among those
      accepted less than `ttl` before, and these do not fill the cache. */
  lemma AcceptedIff(window: int, limit: int, ttl: int, delay: int, ds: seq<Delivery>, j: nat)
    requires Orderly(ds, delay) && j < |ds|
    ensures var recent := RecentlyAccepted(window, limit, ttl, ds, j);
            AcceptedAt(window, limit, ttl, ds, j) <==>
            && ds[j].authentic && ds[j].checkedAt - ds[j].stamp <= window && ds[j].stamp - ds[j].checkedAt <= window
            && ds[j].key !in recent && |recent| < limit
  {
    hide MarksAfterDeliveries, RecentlyAccepted, Orderly;
    LiveIffRecent(window, limit, ttl, delay, ds, j);
  }

  ghost predicate SameMessage(ds: seq<Delivery>, i: nat, j: nat)
    requires i < |ds| && j < |ds|
  {
    ds[i].key == ds[j].key && ds[i].stamp == ds[j].stamp
  }

  /** With marks that outlive both halves of the window and the delay, every message is
      accepted at most once in every run. */
  lemma AcceptedOnce(window: int, limit: int, ttl: int, delay: int, ds: seq<Delivery>, i: nat, j: nat)
    requires Orderly(ds, delay) && delay <= ttl - 2 * window
    requires i < j < |ds| && SameMessage(ds, i, j)
    ensures !(AcceptedAt(window, limit, ttl, ds, i) && AcceptedAt(window, limit, ttl, ds, j))
  {
    if AcceptedAt(window, limit, ttl, ds, i) {
      assert ds[..j][..i] == ds[..i];
      AcceptedIsMarked(window, limit, ttl, delay, ds[..j], i);
    }
  }

  /** The earliest and the latest moment at which a message is accepted, if its mark is gone
      by then. */
  function Twice(key: string, stamp: int, window: int, ttl: int): (ds: seq<Delivery>) {
    var late := if ttl - 2 * window < 0 then 0 else ttl - 2 * window;
    [Delivery(true, key, stamp, stamp - window, stamp - window), Delivery(true, key, stamp, stamp + window, stamp + window + late)]
  }

  /** With a shorter lifetime every message can be accepted twice. */
  lemma TwiceIsAcceptedTwice(key: string, stamp: int, window: int, limit: int, ttl: int, delay: int)
    requires window >= 0 && limit >= 1 && delay >= 1 && delay > ttl - 2 * window
    ensures var ds := Twice(key, stamp, window, ttl);
            Orderly(ds, delay) && SameMessage(ds, 0, 1) && AcceptedAt(window, limit, ttl, ds, 0) && AcceptedAt(window, limit, ttl, ds, 1)
  {
    var ds := Twice(key, stamp, window, ttl);
    var m0 := MarksAfterDeliveries(window, limit, ttl, ds[..0]);
    assert m0 == map[] && LiveMarks(m0, stamp - window) == map[];
    assert ds[..1][..0] == [] && ds[..1] == [ds[0]];
    var m1 := MarksAfterDeliveries(window, limit, ttl, ds[..1]);
    assert m1 == map[key := stamp + ttl - window];
    assert LiveMarks(m1, ds[1].markedAt) == map[];
  }

  /** The exact condition: no run with delays below `delay` accepts a message twice iff
      marks live at least `delay` longer than the whole window. */
  lemma FreshIff(window: int, limit: int, ttl: int, delay: int)
    requires window >= 0 && limit >= 1 && delay >= 1
    ensures delay <= ttl - 2 * window <==>
            forall ds, i: nat, j: nat ::
              Orderly(ds, delay) && i < j < |ds| && SameMessage(ds, i, j) ==>
              !(AcceptedAt(window, limit, ttl, ds, i) && AcceptedAt(window, limit, ttl, ds, j))
  {
    if delay <= ttl - 2 * window {
      forall ds, i: nat, j: nat | Orderly(ds, delay) && i < j < |ds| && SameMessage(ds, i, j)
        ensures !(AcceptedAt(window, limit, ttl, ds, i) && AcceptedAt(window, limit, ttl, ds, j))
      {
        AcceptedOnce(window, limit, ttl, delay, ds, i, j);
      }
    } else {
      TwiceIsAcceptedTwice("k", 0, window, limit, ttl, delay);
    }
  }

  // ------------------------------------------------- lifetime of knock marks

  const DEFAULT_KNOCK_REPLAY_TTL: int := 5 * Time.MINUTE

  function EffectiveWindow(window: int): (r: int)
    ensures r > 0
  {
    if window <= 0 then 30 * Time.SECOND else window
  }

  function KnockReplayTTL(window: int): (ttl: int)
    ensures ttl >= 2 * EffectiveWindow(window) + Time.SECOND && ttl >= DEFAULT_KNOCK_REPLAY_TTL
  {
    var w := if window <= 0 then 30 * Time.SECOND else window;
    var t := 2 * w + Time.SECOND;
    if t < DEFAULT_KNOCK_REPLAY_TTL then DEFAULT_KNOCK_REPLAY_TTL else t
  }
}
