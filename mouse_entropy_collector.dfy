/** The mouse-entropy collector: a pool of bytes filled from pointer positions,
    rate-limited in time, capped at a fixed size, handed to the page once. */
module MouseEntropyCollector {

  /** Number of bytes the pool must hold before it is handed on. */
  const RequiredPoints: nat := 100

  /** Minimum spacing, in milliseconds, between two accepted samples. */
  const MinInterval: int := 50

  /** A pointer position relative to the collecting box, after the 32-bit
      integer conversion that the `^` operator applies. */
  datatype Point = Point(x: bv32, y: bv32)

  /** The byte a sample contributes: `(x ^ y) & 0xff`. Only the low bytes of the
      two coordinates matter. */
  function EntropyByte(x: bv32, y: bv32): (b: int)
    ensures 0 <= b < 256
    ensures b == ((x & 0xff) ^ (y & 0xff)) as int
  {
    ((x ^ y) & 0xff) as int
  }

  class Collector {
    /** The pool, in arrival order. */
    var entropyPoints: seq<int>
    /** The position of each accepted sample, parallel to the pool. */
    var coordinates: seq<Point>
    /** Time of the last sample that passed the rate limit. */
    var lastMeasurementTime: int
    var hasNotifiedParent: bool
    /** The arguments of every call made to the parent's callback, in order. */
    var delivered: seq<seq<int>>

    ghost predicate Valid()
      reads this
    {
      && |entropyPoints| <= RequiredPoints
      && |coordinates| == |entropyPoints|
      && (forall i :: 0 <= i < |entropyPoints| ==>
            entropyPoints[i] == EntropyByte(coordinates[i].x, coordinates[i].y))
      && (hasNotifiedParent <==> delivered != [])
      && (hasNotifiedParent ==> |entropyPoints| == RequiredPoints && delivered == [entropyPoints])
    }

    /** The sample taken at time `now` passes the rate limit. */
    predicate PassesRateLimit(now: int)
      reads this
    {
      now - lastMeasurementTime >= MinInterval
    }

    /** The initial component state. */
    constructor ()
      ensures Valid()
      ensures entropyPoints == [] && coordinates == []
      ensures lastMeasurementTime == 0 && !hasNotifiedParent && delivered == []
    {
      entropyPoints := [];
      coordinates := [];
      lastMeasurementTime := 0;
      hasNotifiedParent := false;
      delivered := [];
    }

    /** A mouse move at time `now` at position (x, y). A sample inside the rate
        limit changes nothing; otherwise the timestamp moves to `now`, and the byte
        and the position are appended unless the pool is already full. */
    method HandleMouseMove(now: int, x: bv32, y: bv32)
      requires Valid()
      modifies this
      ensures Valid()
      ensures !old(PassesRateLimit(now)) ==> unchanged(this)
      ensures old(PassesRateLimit(now)) ==> lastMeasurementTime == now
      ensures entropyPoints ==
                if old(PassesRateLimit(now)) && old(|entropyPoints|) < RequiredPoints
                then old(entropyPoints) + [EntropyByte(x, y)]
                else old(entropyPoints)
      ensures coordinates ==
                if old(PassesRateLimit(now)) && old(|entropyPoints|) < RequiredPoints
                then old(coordinates) + [Point(x, y)]
                else old(coordinates)
      ensures hasNotifiedParent == old(hasNotifiedParent) && delivered == old(delivered)
    {
      if now - lastMeasurementTime < MinInterval {
        return;
      }
      lastMeasurementTime := now;
      if |entropyPoints| >= RequiredPoints {
        return;
      }
      var newPoint := EntropyByte(x, y);
      entropyPoints := entropyPoints + [newPoint];
      coordinates := coordinates + [Point(x, y)];
    }

    /** The effect that runs after a render: once the pool is full, hand it to
        the parent, and never again. */
    method NotifyEffect()
      requires Valid()
      modifies this`hasNotifiedParent, this`delivered
      ensures Valid()
      ensures hasNotifiedParent == (old(hasNotifiedParent) || |entropyPoints| >= RequiredPoints)
      ensures delivered ==
                if !old(hasNotifiedParent) && |entropyPoints| >= RequiredPoints
                then old(delivered) + [entropyPoints]
                else old(delivered)
    {
      if |entropyPoints| >= RequiredPoints && !hasNotifiedParent {
        hasNotifiedParent := true;
        delivered := delivered + [entropyPoints];
      }
    }
  }

  /** What the invariant promises about the pool and the notifications: at most
      one call to the parent, made with a full pool, every byte a masked XOR of
      its recorded position. */
  lemma ValidCollector(c: Collector)
    requires c.Valid()
    ensures |c.delivered| <= 1
    ensures forall d :: d in c.delivered ==> |d| == RequiredPoints && d == c.entropyPoints
    ensures forall i :: 0 <= i < |c.entropyPoints| ==> 0 <= c.entropyPoints[i] < 256
  {
  }

  /** Once the pool is full, a mouse move changes neither the pool nor the
      positions, yet one that passes the rate limit still moves the timestamp. */
  method FullPoolIsFrozen(c: Collector, now: int, x: bv32, y: bv32)
    requires c.Valid() && |c.entropyPoints| == RequiredPoints
    modifies c
    ensures c.Valid()
    ensures c.entropyPoints == old(c.entropyPoints) && c.coordinates == old(c.coordinates)
    ensures old(c.PassesRateLimit(now)) ==> c.lastMeasurementTime == now
  {
    c.HandleMouseMove(now, x, y);
  }
}
