/**
 The spring that moves the login display: four coordinates pulled towards a target, one frame at a
 time, until none is moving. Arithmetic is exact; the question is whether the frames ever stop.
 */
module Spring {
  // One coordinate: its distance to the target and its velocity.
  datatype Motion = Motion(distance: real, velocity: real)

  const STIFFNESS := 0.08
  const DAMPING := 0.82
  const TOLERANCE := 0.001

  function Abs(x: real): real {
    if x < 0.0 then -x else x
  }

  function Frame(m: Motion): Motion {
    var velocity := (m.velocity + m.distance * STIFFNESS) * DAMPING;
    Motion(m.distance - velocity, velocity)
  }

  // The stop test compares the distance before the frame with the velocity after it.
  predicate Unsettled(m: Motion) {
    Abs(m.distance) > TOLERANCE || Abs(Frame(m).velocity) > TOLERANCE
  }

  function Frames(m: Motion, n: nat): Motion
    decreases n
  {
    if n == 0 then m else Frames(Frame(m), n - 1)
  }

  // A quadratic form the recurrence only rescales.
  function Energy(m: Motion): real {
    0.0656 * m.distance * m.distance - 0.1144 * m.distance * m.velocity + 0.82 * m.velocity * m.velocity
  }

  function Pow2(n: nat): nat {
    if n == 0 then 1 else 2 * Pow2(n - 1)
  }

  // Energy below which a coordinate passes the stop test.
  const REST := 0.00000006

  // The position moves by exactly the new velocity.
  lemma PositionFollowsVelocity(m: Motion)
    ensures m.distance - Frame(m).distance == Frame(m).velocity
  {
  }

  // From rest a coordinate goes 0.0656 of the way towards its target, on either side of it; on its target
  // it coasts at 0.82 of its velocity.
  lemma PullAndCoast(x: real)
    ensures Frame(Motion(x, 0.0)) == Motion(0.9344 * x, 0.0656 * x)
    ensures Frame(Motion(0.0, x)) == Motion(-0.82 * x, 0.82 * x)
  {
  }

  // A coordinate counts as moving while it was more than 0.001 away or now moves by more than that.
  lemma UnsettledExactly(m: Motion)
    ensures Unsettled(m) <==>
      !(-0.001 <= m.distance <= 0.001) || !(-0.001 <= m.distance - Frame(m).distance <= 0.001)
  {
  }

  function Sum(a: Motion, b: Motion): Motion {
    Motion(a.distance + b.distance, a.velocity + b.velocity)
  }

  // Motions superpose: over any number of frames, a sum of two motions moves as the two do separately.
  lemma {:induction false} Superposition(a: Motion, b: Motion, n: nat)
    ensures Frames(Sum(a, b), n) == Sum(Frames(a, n), Frames(b, n))
    decreases n
  {
    if n > 0 {
      assert Frame(Sum(a, b)) == Sum(Frame(a), Frame(b));
      Superposition(Frame(a), Frame(b), n - 1);
    }
  }

  lemma EnergyShrinks(m: Motion)
    ensures Energy(Frame(m)) == DAMPING * Energy(m)
  {
  }

  // Completing the square either way bounds distance and velocity by the energy.
  lemma EnergyBounds(m: Motion)
    ensures Energy(m) >= 0.0616 * (m.distance * m.distance)
    ensures Energy(m) >= 0.77 * (m.velocity * m.velocity)
    ensures Energy(m) >= 0.0
  {
    var d, v := m.distance, m.velocity;
    var p := v - (0.0572 / 0.82) * d;
    assert p * p >= 0.0;
    assert Energy(m) == 0.82 * (p * p) + (0.0656 - 0.0572 * 0.0572 / 0.82) * (d * d);
    var q := d - (0.0572 / 0.0656) * v;
    assert q * q >= 0.0;
    assert Energy(m) == 0.0656 * (q * q) + (0.82 - 0.0572 * 0.0572 / 0.0656) * (v * v);
  }

  lemma SmallSquare(x: real, bound: real)
    requires x * x <= bound * bound && bound >= 0.0
    ensures Abs(x) <= bound
  {
    var y := Abs(x);
    assert y * y == x * x && y * y - bound * bound == (y - bound) * (y + bound);
    if y > bound {
      Product(y - bound, y + bound);
    }
  }

  function Times(a: real, b: real): real {
    a * b
  }

  lemma Product(a: real, b: real)
    requires a > 0.0 && b > 0.0
    ensures Times(a, b) > 0.0
  {
  }

  lemma RestSettles(m: Motion)
    requires Energy(m) <= REST
    ensures !Unsettled(m)
  {
    EnergyBounds(m);
    EnergyShrinks(m);
    EnergyBounds(Frame(m));
    SmallSquare(m.distance, TOLERANCE);
    SmallSquare(Frame(m).velocity, TOLERANCE);
  }

  lemma {:induction false} FramesAdd(m: Motion, i: nat, j: nat)
    ensures Frames(Frames(m, i), j) == Frames(m, i + j)
    decreases i
  {
    if i > 0 { FramesAdd(Frame(m), i - 1, j); }
  }

  function Decay(n: nat): real {
    if n == 0 then 1.0 else DAMPING * Decay(n - 1)
  }

  // The energy after any number of frames is known exactly.
  lemma {:induction false} EnergyAfter(m: Motion, n: nat)
    ensures Energy(Frames(m, n)) == Decay(n) * Energy(m)
    decreases n
  {
    if n > 0 {
      EnergyAfter(Frame(m), n - 1);
      EnergyShrinks(m);
      Regroup(Decay(n - 1), Energy(m));
    }
  }

  lemma Regroup(decay: real, energy: real)
    ensures decay * (DAMPING * energy) == (DAMPING * decay) * energy
  {
  }

  lemma SquareOfMinus(x: real)
    ensures Times(-x, -x) == Times(x, x)
  {
  }

  lemma PositiveSquare(x: real)
    requires x != 0.0
    ensures Times(x, x) > 0.0
  {
    if x > 0.0 {
      Product(x, x);
    } else {
      Product(-x, -x);
      SquareOfMinus(x);
    }
  }

  lemma NoSquares(m: Motion)
    requires Energy(m) == 0.0
    ensures Times(m.distance, m.distance) <= 0.0 && Times(m.velocity, m.velocity) <= 0.0
  {
    EnergyBounds(m);
  }

  // The form is positive definite.
  lemma EnergyVanishes(m: Motion)
    requires Energy(m) == 0.0
    ensures m == Motion(0.0, 0.0)
  {
    NoSquares(m);
    if m.distance != 0.0 { PositiveSquare(m.distance); }
    if m.velocity != 0.0 { PositiveSquare(m.velocity); }
  }

  // Four frames more than halve the energy.
  lemma FourFramesHalve(m: Motion)
    ensures Energy(Frames(m, 4)) <= Energy(m) / 2.0
  {
    EnergyAfter(m, 4);
    EnergyBounds(m);
    assert Decay(4) == 0.45212176 by {
      assert Decay(1) == 0.82 && Decay(2) == 0.6724 && Decay(3) == 0.551368;
    }
    Halve(Energy(m), Energy(Frames(m, 4)));
  }

  lemma Halve(before: real, after: real)
    requires before >= 0.0 && after == 0.45212176 * before
    ensures after <= before / 2.0
  {
  }

  // Doubling the starting energy costs at most four more frames.
  lemma {:induction false} RestsAfter(m: Motion, doublings: nat)
    requires Energy(m) <= REST * Pow2(doublings) as real
    ensures Energy(Frames(m, 4 * doublings)) <= REST && !Unsettled(Frames(m, 4 * doublings))
    decreases doublings
  {
    if doublings > 0 {
      FourFramesHalve(m);
      RestsAfter(Frames(m, 4), doublings - 1);
      FramesAdd(m, 4, 4 * (doublings - 1));
    }
    RestSettles(Frames(m, 4 * doublings));
  }

  lemma {:induction false} StaysAtRest(m: Motion, n: nat)
    requires Energy(m) <= REST
    ensures Energy(Frames(m, n)) <= REST
    decreases n
  {
    if n > 0 {
      EnergyShrinks(m);
      EnergyBounds(m);
      StaysAtRest(Frame(m), n - 1);
    }
  }

  lemma {:induction false} Pow2Grows(n: nat)
    ensures Pow2(n) > n
  {
    if n > 0 { Pow2Grows(n - 1); }
  }

  // Every energy is within some number of doublings of rest.
  lemma EnoughDoublings(energy: real) returns (doublings: nat)
    ensures energy <= REST * Pow2(doublings) as real
  {
    if energy <= 0.0 {
      doublings := 0;
    } else {
      doublings := (energy / REST).Floor + 1;
      Pow2Grows(doublings);
      assert energy / REST <= doublings as real <= Pow2(doublings) as real;
      assert energy == (energy / REST) * REST;
    }
  }

  // From any start at all, the animation of one coordinate stops.
  lemma AlwaysStops(m: Motion) returns (n: nat)
    ensures forall later: nat | later >= n :: !Unsettled(Frames(m, later))
  {
    var doublings := EnoughDoublings(Energy(m));
    n := 4 * doublings;
    forall later: nat | later >= n ensures !Unsettled(Frames(m, later)) {
      RestedBy(m, doublings, later);
    }
  }

  lemma RestedBy(m: Motion, doublings: nat, frames: nat)
    requires Energy(m) <= REST * Pow2(doublings) as real && frames >= 4 * doublings
    ensures !Unsettled(Frames(m, frames))
  {
    RestsAfter(m, doublings);
    StaysAtRest(Frames(m, 4 * doublings), frames - 4 * doublings);
    FramesAdd(m, 4 * doublings, frames - 4 * doublings);
    RestSettles(Frames(m, frames));
  }

  // ---------------------------------------------------------------------------------------------
  // The animation
  // ---------------------------------------------------------------------------------------------

  // x, y, lift and scale; targets, positions and velocities are updated in place.
  const KEYS: nat := 4

  function Swarm(motions: seq<Motion>, n: nat): (r: seq<Motion>)
    ensures |r| == |motions|
  {
    seq(|motions|, k requires 0 <= k < |motions| => Frames(motions[k], n))
  }

  ghost predicate Moving(motions: seq<Motion>) {
    exists k :: 0 <= k < |motions| && Unsettled(motions[k])
  }

  ghost predicate Within(motions: seq<Motion>, doublings: nat) {
    forall m <- motions :: Energy(m) <= REST * Pow2(doublings) as real
  }

  lemma SwarmStep(motions: seq<Motion>, n: nat)
    ensures Swarm(motions, 0) == motions
    ensures Swarm(Swarm(motions, n), 1) == Swarm(motions, n + 1)
  {
    forall k | 0 <= k < |motions| ensures Frames(Frames(motions[k], n), 1) == Frames(motions[k], n + 1) {
      FramesAdd(motions[k], n, 1);
    }
  }

  // A frame is requested only before the bound: past it, every coordinate is at rest.
  lemma StillMoving(start: seq<Motion>, doublings: nat, frames: nat)
    requires Within(start, doublings) && Moving(Swarm(start, frames))
    ensures frames < 4 * doublings
  {
    if frames >= 4 * doublings {
      forall k | 0 <= k < |start| ensures !Unsettled(Swarm(start, frames)[k]) {
        RestedBy(start[k], doublings, frames);
      }
    }
  }

  class Display {
    const target: array<real>
    const current: array<real>
    const velocity: array<real>
    var frameRequested: bool

    ghost predicate Valid()
      reads this
    {
      && target.Length == current.Length == velocity.Length == KEYS
      && target != current && current != velocity && target != velocity
    }

    ghost function Motions(): (r: seq<Motion>)
      requires Valid()
      reads this, target, current, velocity
      ensures |r| == KEYS
    {
      seq(KEYS, k requires 0 <= k < KEYS reads this, target, current, velocity =>
        if Valid() then Motion(target[k] - current[k], velocity[k]) else Motion(0.0, 0.0))
    }

    constructor (target: array<real>, current: array<real>, velocity: array<real>)
      requires target.Length == current.Length == velocity.Length == KEYS
      requires target != current && current != velocity && target != velocity
      ensures Valid() && !frameRequested
      ensures this.target == target && this.current == current && this.velocity == velocity
    {
      this.target, this.current, this.velocity, frameRequested := target, current, velocity, false;
    }

    // One frame: every coordinate moves, and another frame is asked for while any is unsettled.
    method Animate()
      requires Valid()
      modifies this`frameRequested, current, velocity
      ensures Valid() && target[..] == old(target[..])
      ensures Motions() == Swarm(old(Motions()), 1)
      ensures frameRequested <==> Moving(old(Motions()))
      ensures forall k | 0 <= k < KEYS :: current[k] == old(current[k]) + velocity[k]
    {
      ghost var was := Motions();
      frameRequested := false;
      var unsettled := false;
      for key := 0 to KEYS
        invariant Valid() && target[..] == old(target[..]) && !frameRequested
        invariant forall k | 0 <= k < key :: Motion(target[k] - current[k], velocity[k]) == Frame(was[k])
        invariant forall k | key <= k < KEYS :: Motion(target[k] - current[k], velocity[k]) == was[k]
        invariant forall k | 0 <= k < key :: current[k] == old(current[k]) + velocity[k]
        invariant forall k | key <= k < KEYS :: current[k] == old(current[k])
        invariant unsettled <==> exists k :: 0 <= k < key && Unsettled(was[k])
      {
        var delta := target[key] - current[key];
        velocity[key] := (velocity[key] + delta * STIFFNESS) * DAMPING;
        current[key] := current[key] + velocity[key];
        assert Motion(target[key] - current[key], velocity[key]) == Frame(was[key]);
        if Abs(delta) > TOLERANCE || Abs(velocity[key]) > TOLERANCE {
          unsettled := true;
        }
      }
      if unsettled {
        frameRequested := true;
      }
    }

    // The chain of requested frames, the target staying put. It ends within four frames for each
    // doubling of the starting energy above rest, with every coordinate next to its target.
    method RunToRest(ghost doublings: nat) returns (frames: nat)
      requires Valid() && Within(Motions(), doublings)
      modifies this`frameRequested, current, velocity
      ensures Valid() && 1 <= frames <= 4 * doublings + 1 && !frameRequested
      ensures Motions() == Swarm(old(Motions()), frames) && target[..] == old(target[..])
      ensures forall m <- Motions() :: Abs(m.distance) <= 2.0 * TOLERANCE && Abs(m.velocity) <= TOLERANCE
    {
      ghost var start := Motions();
      Animate();
      frames := 1;
      SwarmStep(start, 0);
      while frameRequested
        invariant Valid() && target[..] == old(target[..]) && 1 <= frames <= 4 * doublings + 1
        invariant Motions() == Swarm(start, frames)
        invariant frameRequested <==> Moving(Swarm(start, frames - 1))
        decreases 4 * doublings + 1 - frames
      {
        StillMoving(start, doublings, frames - 1);
        Animate();
        SwarmStep(start, frames);
        frames := frames + 1;
      }
      SwarmStep(start, frames - 1);
      Settled(Swarm(start, frames - 1));
    }
  }

  // After the last frame every coordinate is next to its target.
  lemma Settled(before: seq<Motion>)
    requires !Moving(before)
    ensures forall m <- Swarm(before, 1) :: Abs(m.distance) <= 2.0 * TOLERANCE && Abs(m.velocity) <= TOLERANCE
  {
  }
}
