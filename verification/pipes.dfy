/** The pipe group of app.js: a pool of pipe sprites, the per-frame advance of
    every live pipe (move, score, recycle) and the pool request used by the
    spawner.

    Positions and widths are in tenths of a pixel. A slot is None for the
    absent entry the frame loop guards against. */
module Pipes {
  import opened Wrappers

  /** The bird's x, 150 px; the bird never moves horizontally. */
  const BirdX: int := 1500
  /** A pipe whose x falls below -100 px is deactivated for reuse. */
  const RecycleX: int := -1000

  /** One pipe sprite: x is its horizontal centre (origin 0.5), y the edge
      facing the gap (its bottom edge for a top pipe, its top edge otherwise). */
  datatype Pipe = Pipe(x: int, y: int, width: nat, isTop: bool, scored: bool, active: bool)

  type Slot = Option<Pipe>

  predicate IsLive(slot: Slot) { slot.Some? && slot.value.active }
  predicate IsReusable(slot: Slot) { slot.Some? && !slot.value.active }
  predicate IsBottom(slot: Slot) { slot.Some? && !slot.value.isTop }
  predicate IsScoredBottom(slot: Slot) { IsBottom(slot) && slot.value.scored }

  function CountLive(ps: seq<Slot>): nat
  {
    if ps == [] then 0 else (if IsLive(ps[0]) then 1 else 0) + CountLive(ps[1..])
  }

  function CountBottoms(ps: seq<Slot>): nat
  {
    if ps == [] then 0 else (if IsBottom(ps[0]) then 1 else 0) + CountBottoms(ps[1..])
  }

  function CountScoredBottoms(ps: seq<Slot>): nat
  {
    if ps == [] then 0 else (if IsScoredBottom(ps[0]) then 1 else 0) + CountScoredBottoms(ps[1..])
  }

  /** The scoring test as written: the pipe's centre plus a full width lies
      left of the bird. */
  predicate HasPassed(p: Pipe) { p.x + p.width < BirdX }

  datatype SlotStep = SlotStep(slot: Slot, scoredNow: bool)

  /** The body of the frame loop for one pool entry. */
  function StepSlot(slot: Slot, speed: int): (r: SlotStep)
    ensures !IsLive(slot) ==> r == SlotStep(slot, false)
    ensures IsLive(slot) ==> r.slot.Some?
    ensures IsBottom(r.slot) == IsBottom(slot)
    ensures IsScoredBottom(r.slot) <==> IsScoredBottom(slot) || r.scoredNow
    ensures r.scoredNow ==> !IsScoredBottom(slot)
  {
    match slot
    case None => SlotStep(None, false)
    case Some(p) =>
      if !p.active then SlotStep(slot, false)
      else
        var moved := p.(x := p.x - speed);
        var scoreNow := !moved.isTop && !moved.scored && HasPassed(moved);
        var scored := if scoreNow then moved.(scored := true) else moved;
        var recycled := if scored.x < RecycleX then scored.(active := false) else scored;
        SlotStep(Some(recycled), scoreNow)
  }

  datatype Advanced = Advanced(pipes: seq<Slot>, newlyScored: nat)

  /** One pass of the frame loop over the whole pool. */
  function Advance(ps: seq<Slot>, speed: int): (r: Advanced)
    ensures |r.pipes| == |ps|
    // absent and inactive entries are skipped
    ensures forall i :: 0 <= i < |ps| && !IsLive(ps[i]) ==> r.pipes[i] == ps[i]
    // a live pipe moves left by exactly the speed and is otherwise the same pipe
    ensures forall i :: 0 <= i < |ps| && IsLive(ps[i]) ==>
      && r.pipes[i].Some?
      && r.pipes[i].value.x == ps[i].value.x - speed
      && r.pipes[i].value.y == ps[i].value.y
      && r.pipes[i].value.width == ps[i].value.width
      && r.pipes[i].value.isTop == ps[i].value.isTop
    // it stays live exactly while it has not gone past the left margin
    ensures forall i :: 0 <= i < |ps| && IsLive(ps[i]) ==>
      (r.pipes[i].value.active <==> r.pipes[i].value.x >= RecycleX)
    // a scored flag is never cleared; it is newly set exactly on an unscored
    // bottom pipe that has passed the bird after the move
    ensures forall i :: 0 <= i < |ps| && IsLive(ps[i]) ==>
      (r.pipes[i].value.scored <==>
        ps[i].value.scored || (!ps[i].value.isTop && HasPassed(r.pipes[i].value)))
    // each newly scored pipe is one new scored bottom pipe
    ensures CountScoredBottoms(r.pipes) == CountScoredBottoms(ps) + r.newlyScored
    ensures CountBottoms(r.pipes) == CountBottoms(ps)
  {
    if ps == [] then Advanced([], 0)
    else
      var head := StepSlot(ps[0], speed);
      var rest := Advance(ps[1..], speed);
      var r := Advanced([head.slot] + rest.pipes, (if head.scoredNow then 1 else 0) + rest.newlyScored);
      assert r.pipes[1..] == rest.pipes;
      assert forall i :: 1 <= i < |ps| ==> r.pipes[i] == rest.pipes[i - 1] && ps[i] == ps[1..][i - 1];
      r
  }

  /** A pool can never hold more scored bottom pipes than bottom pipes, so the
      score a run of frames adds is bounded by the unscored bottom pipes. */
  lemma {:induction false} ScoredBottomsBounded(ps: seq<Slot>)
    ensures CountScoredBottoms(ps) <= CountBottoms(ps)
  {
    if ps != [] {
      ScoredBottomsBounded(ps[1..]);
    }
  }

  /** The pool after a request has been served at index i. */
  function Place(ps: seq<Slot>, i: nat, p: Pipe): (r: seq<Slot>)
    requires i <= |ps|
    ensures |r| == if i == |ps| then |ps| + 1 else |ps|
    ensures r[i] == Some(p)
    ensures forall j :: 0 <= j < |ps| && j != i ==> r[j] == ps[j]
  {
    if i == |ps| then ps + [Some(p)] else ps[i := Some(p)]
  }

  /** Filling a slot that held no live pipe with a live pipe adds one live pipe. */
  lemma {:induction false} PlaceLive(ps: seq<Slot>, i: nat, p: Pipe)
    requires i <= |ps| && p.active
    requires i < |ps| ==> !IsLive(ps[i])
    ensures CountLive(Place(ps, i, p)) == CountLive(ps) + 1
  {
    if i == |ps| {
      AppendLive(ps, p);
    } else {
      UpdateLive(ps, i, p);
    }
  }

  lemma {:induction false} AppendLive(ps: seq<Slot>, p: Pipe)
    requires p.active
    ensures CountLive(ps + [Some(p)]) == CountLive(ps) + 1
  {
    if ps == [] {
      assert CountLive([Some(p)]) == 1 + CountLive([]);
    } else {
      assert (ps + [Some(p)])[1..] == ps[1..] + [Some(p)];
      AppendLive(ps[1..], p);
    }
  }

  lemma {:induction false} UpdateLive(ps: seq<Slot>, i: nat, p: Pipe)
    requires i < |ps| && p.active && !IsLive(ps[i])
    ensures CountLive(ps[i := Some(p)]) == CountLive(ps) + 1
  {
    if i == 0 {
      assert ps[i := Some(p)][1..] == ps[1..];
    } else {
      assert ps[i := Some(p)][1..] == ps[1..][i - 1 := Some(p)];
      UpdateLive(ps[1..], i - 1, p);
    }
  }

  /** Index of the first inactive pipe at or after `from`, if any. */
  function FirstReusable(ps: seq<Slot>, from: nat): (r: Option<nat>)
    requires from <= |ps|
    decreases |ps| - from
    ensures r.Some? ==> from <= r.value < |ps| && IsReusable(ps[r.value])
    ensures r.Some? ==> forall j :: from <= j < r.value ==> !IsReusable(ps[j])
    ensures r.None? ==> forall j :: from <= j < |ps| ==> !IsReusable(ps[j])
  {
    if from == |ps| then None
    else if IsReusable(ps[from]) then Some(from)
    else FirstReusable(ps, from + 1)
  }

  /** A pool request: the first inactive member is reused; otherwise a new
      member is appended unless the group already holds `capacity` members.
      None as capacity is the unlimited group app.js creates. */
  function Acquire(ps: seq<Slot>, capacity: Option<nat>): (r: Option<nat>)
    ensures r.Some? ==> r.value <= |ps| && (r.value < |ps| ==> IsReusable(ps[r.value]))
    ensures r.Some? ==> forall j :: 0 <= j < r.value && j < |ps| ==> !IsReusable(ps[j])
    ensures r.Some? && r.value == |ps| ==> capacity.None? || |ps| < capacity.value
    ensures r.None? <==>
      (forall j :: 0 <= j < |ps| ==> !IsReusable(ps[j])) && capacity.Some? && |ps| >= capacity.value
  {
    match FirstReusable(ps, 0)
    case Some(i) => Some(i)
    case None =>
      if capacity.None? || |ps| < capacity.value then Some(|ps|) else None
  }
}
