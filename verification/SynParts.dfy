/**
 The parts of a SYN sequence: which header fields a client sends in which time
 slot, and how the listener recognises them.
 */
module SynParts {
  import opened Bytes
  import opened Wrappers
  import Time

  datatype SynFields = SynFields(sequence: uint32, window: uint16, timestamp: uint32)

  datatype SynSeqPart = SynSeqPart(port: int, fields: SynFields)

  datatype ClientSecret = ClientSecret(clientID: string, secret: seq<byte>)

  /** The fields cut out of the keyed hash of (client, protected port, slot, index). */
  type TagFunction = (ClientSecret, int, nat) -> SynFields

  /** What a listener is configured with. */
  datatype Listener = Listener(clients: seq<ClientSecret>, protectedPort: int, tag: TagFunction)

  // ---------------------------------------------------------------------- slots

  /** Seconds since the epoch, rounded down. */
  function Unix(now: int): (r: int) {
    now / Time.SECOND
  }

  /** Go's integer division, which rounds toward zero. */
  function TruncDiv(a: int, b: int): (r: int)
    requires b > 0
  {
    if a >= 0 then a / b else -(-a / b)
  }

  function EffectiveSlotSeconds(slotSeconds: int): (r: int)
    ensures r > 0
  {
    if slotSeconds <= 0 then 30 else slotSeconds
  }

  function SlotAt(now: int, slotSeconds: int): (r: int) {
    TruncDiv(Unix(now), EffectiveSlotSeconds(slotSeconds))
  }

  /** A part of `slot` is accepted in that slot and in its two neighbours. */
  predicate Accepts(slot: int, now: int, slotSeconds: int) {
    -1 <= slot - SlotAt(now, slotSeconds) <= 1
  }

  /** How long a slot is accepted. With one-second slots it is always less than three
      slots. With longer ones it is so exactly for the slots other than -1, 0 and 1:
      next to the epoch, rounding toward zero makes slot 0 twice as long. */
  lemma AcceptanceSpan(slot: int, slotSeconds: int)
    ensures slot < -1 || slot > 1 || slotSeconds == 1 <==>
            forall first, later ::
              first <= later && Accepts(slot, first, slotSeconds) && Accepts(slot, later, slotSeconds) ==>
              later < first + 3 * EffectiveSlotSeconds(slotSeconds) * Time.SECOND
  {
    if slot < -1 || slot > 1 || slotSeconds == 1 {
      forall first, later |
        first <= later && Accepts(slot, first, slotSeconds) && Accepts(slot, later, slotSeconds)
        ensures later < first + 3 * EffectiveSlotSeconds(slotSeconds) * Time.SECOND
      {
        SlotSeconds(slot, first, slotSeconds);
        SlotSeconds(slot, later, slotSeconds);
      }
    } else {
      LongSpanNearEpoch(slot, slotSeconds);
    }
  }

  /** Two instants at least three slots apart at which the same slot is accepted. */
  lemma LongSpanNearEpoch(slot: int, slotSeconds: int)
    requires -1 <= slot <= 1 && slotSeconds != 1
    ensures var s := EffectiveSlotSeconds(slotSeconds);
            var first, later := EarliestNear(slot, s), LatestNear(slot, s);
            && first <= later && Accepts(slot, first, slotSeconds) && Accepts(slot, later, slotSeconds)
            && later >= first + 3 * s * Time.SECOND
  {
    var s := EffectiveSlotSeconds(slotSeconds);
    UnixBounds(EarliestNear(slot, s));
    UnixBounds(LatestNear(slot, s));
    TruncDivIs(slot * s - (2 * s - 1), s, slot - 1);
    TruncDivIs(slot * s + (2 * s - 1), s, slot + 1);
  }

  /** The span fits three slots from 1970 on, which is when the clocks of running
      systems are. */
  lemma AcceptanceSpanSinceEpoch(slot: int, slotSeconds: int, first: int, later: int)
    requires 0 <= first <= later
    requires Accepts(slot, first, slotSeconds) && Accepts(slot, later, slotSeconds)
    ensures later < first + 3 * EffectiveSlotSeconds(slotSeconds) * Time.SECOND
  {
    SlotSeconds(slot, first, slotSeconds);
    SlotSeconds(slot, later, slotSeconds);
  }

  /** The seconds in which `slot` is accepted, before and after the epoch. */
  lemma SlotSeconds(slot: int, now: int, slotSeconds: int)
    requires Accepts(slot, now, slotSeconds)
    ensures var s, u := EffectiveSlotSeconds(slotSeconds), Unix(now);
            && u * Time.SECOND <= now < (u + 1) * Time.SECOND
            && (now >= 0 ==> slot * s - s <= u < slot * s + 2 * s)
            && (now < 0 ==> slot * s - 2 * s < u <= slot * s + s)
            && (slot > 1 ==> now >= 0)
            && (slot < -1 ==> now < 0)
            && (s == 1 ==> slot - 1 <= u <= slot + 1)
  {
    var s, k, u := EffectiveSlotSeconds(slotSeconds), SlotAt(now, slotSeconds), Unix(now);
    UnixBounds(now);
    TruncDivBounds(u, s);
    Product(slot, k, s);
  }

  lemma UnixBounds(now: int)
    ensures Unix(now) * Time.SECOND <= now < (Unix(now) + 1) * Time.SECOND
    ensures now >= 0 <==> Unix(now) >= 0
  {
  }

  lemma TruncDivBounds(a: int, b: int)
    requires b > 0
    ensures var q := TruncDiv(a, b);
            && (a >= 0 ==> q >= 0 && q * b <= a < q * b + b)
            && (a < 0 ==> q <= 0 && q * b - b < a <= q * b)
  {
    var m := if a >= 0 then a else -a;
    DivBounds(m, b);
    Negate(m / b, b);
  }

  lemma DivBounds(m: nat, b: int)
    requires b > 0
    ensures m / b >= 0 && (m / b) * b <= m < (m / b) * b + b
  {
  }

  lemma Negate(q: int, b: int)
    ensures (-q) * b == -(q * b)
  {
  }

  lemma TruncDivIs(a: int, b: int, q: int)
    requires b > 0
    requires if a >= 0 then q * b <= a < q * b + b && q >= 0 else q * b - b < a <= q * b && q <= 0
    ensures TruncDiv(a, b) == q
  {
    TruncDivBounds(a, b);
    var r := TruncDiv(a, b);
    if r > q {
      Scale(q + 1, r, b);
    } else if r < q {
      Scale(r + 1, q, b);
    }
  }

  lemma Scale(a: int, b: int, k: int)
    requires a <= b && k > 0
    ensures a * k <= b * k
  {
  }

  lemma Product(slot: int, k: int, s: int)
    requires -1 <= slot - k <= 1
    ensures k * s == slot * s + (k - slot) * s
    ensures (k - slot) * s == if k == slot then 0 else if k > slot then s else -s
  {
  }

  function EarliestNear(slot: int, s: int): (r: int) {
    (slot * s - (2 * s - 1)) * Time.SECOND
  }

  function LatestNear(slot: int, s: int): (r: int) {
    (slot * s + 2 * s) * Time.SECOND - 1
  }

  // ---------------------------------------------------------------------- parts

  /** Lengths outside 2..5 stand for 3. */
  function PartCount(total: int): (r: nat)
    ensures 2 <= r <= 5
  {
    if total < 2 || total > 5 then 3 else total
  }

  predicate IsPart(l: Listener, c: ClientSecret, slot: int, total: int, index: int, dstPort: int, fields: SynFields) {
    0 <= index < PartCount(total) && dstPort == l.protectedPort && fields == l.tag(c, slot, index)
  }

  method ComputeSynSeqParts(l: Listener, c: ClientSecret, slot: int, total: int) returns (parts: seq<SynSeqPart>)
    ensures |parts| == PartCount(total)
    ensures forall i :: 0 <= i < |parts| ==> parts[i] == SynSeqPart(l.protectedPort, l.tag(c, slot, i))
  {
    parts := [];
    for i := 0 to PartCount(total)
      invariant |parts| == i
      invariant forall j :: 0 <= j < i ==> parts[j] == SynSeqPart(l.protectedPort, l.tag(c, slot, j))
    {
      parts := parts + [SynSeqPart(l.protectedPort, l.tag(c, slot, i))];
    }
  }

  predicate SynSeqPartMatches(parts: seq<SynSeqPart>, index: int, dstPort: int, fields: SynFields) {
    0 <= index < |parts| && parts[index].port == dstPort && parts[index].fields == fields
  }

  datatype Match = Match(clientID: string, slot: int)

  /** `fields` is part number `index` of the sequence that client `m.clientID` sends in
      slot `m.slot`, and that slot is accepted at `now`. */
  ghost predicate Recognised(l: Listener, slotSeconds: int, total: int, index: int,
                             dstPort: int, fields: SynFields, now: int, m: Match) {
    && Accepts(m.slot, now, slotSeconds)
    && exists c :: c in l.clients && c.clientID == m.clientID && IsPart(l, c, m.slot, total, index, dstPort, fields)
  }

  /** Finds a client and a slot for the fields iff there are any. */
  method VerifySynSeqPart(l: Listener, slotSeconds: int, total: int, index: int,
                          dstPort: int, fields: SynFields, now: int) returns (r: Option<Match>)
    ensures r.Some? ==> Recognised(l, slotSeconds, total, index, dstPort, fields, now, r.value)
    ensures r.None? ==> forall m :: !Recognised(l, slotSeconds, total, index, dstPort, fields, now, m)
  {
    var current := TruncDiv(Unix(now), if slotSeconds <= 0 then 30 else slotSeconds);
    for i := 0 to |l.clients|
      invariant forall j, slot :: 0 <= j < i && Accepts(slot, now, slotSeconds) ==>
                  !IsPart(l, l.clients[j], slot, total, index, dstPort, fields)
    {
      var c := l.clients[i];
      var delta := -1;
      while delta <= 1
        invariant -1 <= delta <= 2
        invariant forall slot :: current - 1 <= slot < current + delta ==>
                    !IsPart(l, c, slot, total, index, dstPort, fields)
      {
        var parts := ComputeSynSeqParts(l, c, current + delta, total);
        if SynSeqPartMatches(parts, index, dstPort, fields) {
          return Some(Match(c.clientID, current + delta));
        }
        delta := delta + 1;
      }
    }
    return None;
  }

  // ------------------------------------------------------- collision-free tags

  /** Client ids are unique, and no two parts of different (client, slot, index) have
      the same fields, for the slots of a range. */
  ghost predicate CollisionFree(l: Listener, low: int, high: int) {
    && (forall c, d :: c in l.clients && d in l.clients && c.clientID == d.clientID ==> c == d)
    && (forall c, d, s: int, t: int, i: nat, j: nat ::
          (c in l.clients && d in l.clients && low <= s <= high && low <= t <= high && i < 5 && j < 5 &&
           l.tag(c, s, i) == l.tag(d, t, j)) ==> c == d && s == t && i == j)
  }

  /** Without collisions, fields belong to at most one (client, slot, index). */
  lemma RecognisedOnce(l: Listener, low: int, high: int, slotSeconds: int, total: int, i: int, j: int,
                       dstPort: int, fields: SynFields, now: int, m: Match, n: Match)
    requires CollisionFree(l, low, high) && low < SlotAt(now, slotSeconds) < high
    requires Recognised(l, slotSeconds, total, i, dstPort, fields, now, m)
    requires Recognised(l, slotSeconds, total, j, dstPort, fields, now, n)
    ensures m == n && i == j
  {
    var c :| c in l.clients && c.clientID == m.clientID && IsPart(l, c, m.slot, total, i, dstPort, fields);
    var d :| d in l.clients && d.clientID == n.clientID && IsPart(l, d, n.slot, total, j, dstPort, fields);
    assert l.tag(c, m.slot, i) == l.tag(d, n.slot, j);
  }
}
