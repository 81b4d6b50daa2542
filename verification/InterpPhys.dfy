/** Guest physical frames of the interpreter: a bump pointer, a stack of reclaimed frames, and
    extra references only for frames that more than one mapping shares. */
module InterpPhys {
  import opened Outcomes

  /** 512 MiB of 4 KiB frames. */
  const FRAMES: nat := 0x20000

  datatype Pool = Pool(next: nat, free: seq<nat>, shared: map<nat, nat>)

  /** `alloc_frames(1)`: the frame reclaimed last, else a new one. */
  function Take(p: Pool): Halting<(Pool, nat)> {
    if p.free != [] then Ok((p.(free := p.free[..|p.free| - 1]), p.free[|p.free| - 1]))
    else if p.next + 1 > FRAMES then Panic
    else Ok((p.(next := p.next + 1), p.next))
  }

  /** `alloc_frames(count)` for other counts: always new frames. */
  function TakeRun(p: Pool, count: nat): Halting<(Pool, nat)> {
    if p.next + count > FRAMES then Panic else Ok((p.(next := p.next + count), p.next))
  }

  /** References on a frame in use; one unless recorded otherwise. */
  function Refs(p: Pool, f: nat): nat {
    if f in p.shared then p.shared[f] else 1
  }

  /** `inc_ref` */
  function Share(p: Pool, f: nat): Pool {
    p.(shared := p.shared[f := Refs(p, f) + 1])
  }

  /** The frame goes back to the allocator instead of losing one of several references. */
  predicate LastRef(p: Pool, f: nat) {
    f != 0 && f !in p.shared
  }

  /** `free_frames(f, 1)` */
  function Drop(p: Pool, f: nat): Pool {
    if f == 0 then p
    else if f in p.shared then
      if p.shared[f] <= 2 then p.(shared := p.shared - {f}) else p.(shared := p.shared[f := p.shared[f] - 1])
    else p.(free := p.free + [f])
  }

  function DropRun(p: Pool, start: nat, count: nat): Pool {
    if count == 0 then p else Drop(DropRun(p, start, count - 1), start + count - 1)
  }

  /** No frame is reclaimed twice, none was never handed out, and recorded counts are real. */
  ghost predicate PoolOk(p: Pool) {
    && 1 <= p.next <= FRAMES
    && (forall i, j :: 0 <= i < j < |p.free| ==> p.free[i] != p.free[j])
    && (forall i :: 0 <= i < |p.free| ==> 1 <= p.free[i] < p.next && p.free[i] !in p.shared)
    && (forall f :: f in p.shared ==> f < p.next && p.shared[f] >= 2)
  }

  /** A frame that is handed out and not reclaimed. */
  predicate InUse(p: Pool, f: nat) {
    f < p.next && f !in p.free
  }

  /** An allocation changes the state of exactly the frame it hands out. */
  lemma TakeExact(p: Pool)
    requires PoolOk(p) && Take(p).Ok?
    ensures var (p', f) := Take(p).value;
      && PoolOk(p') && 1 <= f < FRAMES && !InUse(p, f) && f !in p.shared && p'.shared == p.shared
      && forall g :: InUse(p', g) <==> g == f || InUse(p, g)
  {
    var (p', f) := Take(p).value;
    if p.free != [] {
      forall g ensures InUse(p', g) <==> g == f || InUse(p, g) {
        if g in p.free && g != f {
          var i :| 0 <= i < |p.free| && p.free[i] == g;
          assert p'.free[i] == g;
        }
      }
    }
  }

  /** Giving up a reference reclaims a frame in use exactly when it was the last one. */
  lemma DropExact(p: Pool, f: nat)
    requires PoolOk(p) && f != 0 && InUse(p, f)
    ensures var p' := Drop(p, f);
      && PoolOk(p') && (InUse(p', f) <==> !LastRef(p, f)) && (InUse(p', f) ==> Refs(p', f) == Refs(p, f) - 1)
      && forall g :: g != f ==>
           (InUse(p', g) <==> InUse(p, g)) && (g in p'.shared <==> g in p.shared) && Refs(p', g) == Refs(p, g)
  {
  }

  lemma ShareExact(p: Pool, f: nat)
    requires PoolOk(p) && InUse(p, f)
    ensures var p' := Share(p, f);
      && PoolOk(p') && Refs(p', f) == Refs(p, f) + 1 && f in p'.shared
      && (forall g :: InUse(p', g) <==> InUse(p, g))
      && (forall g :: g != f ==> Refs(p', g) == Refs(p, g) && (g in p'.shared <==> g in p.shared))
  {
  }

  /** `NEXT_FRAME`, `FREE_LIST` and the shared-count map. */
  class Allocator {
    var next: nat
    var free: seq<nat>
    var shared: map<nat, nat>

    ghost function State(): Pool reads this { Pool(next, free, shared) }

    constructor ()
      ensures State() == Pool(1, [], map[]) && PoolOk(State())
    {
      next := 1;
      free := [];
      shared := map[];
    }

    /** `alloc_frames`; `None` stands for the exhaustion panic. */
    method AllocFrames(count: nat) returns (start: Option<nat>)
      modifies this
      ensures var r := if count == 1 then Take(old(State())) else TakeRun(old(State()), count);
        if start.None? then r.Panic? else r == Ok((State(), start.value))
    {
      if count == 1 && free != [] {
        start := Some(free[|free| - 1]);
        free := free[..|free| - 1];
        return;
      }
      var first := next;
      if first + count > FRAMES { return None; }
      next := next + count;
      return Some(first);
    }

    /** `inc_ref`: one more reference on the frame, none on any other, and none is reclaimed. */
    method IncRef(frame: nat)
      modifies `shared
      ensures State() == Share(old(State()), frame)
      ensures old(PoolOk(State()) && InUse(State(), frame)) ==>
        && PoolOk(State()) && Refs(State(), frame) == old(Refs(State(), frame)) + 1
        && (forall f :: InUse(State(), f) <==> InUse(old(State()), f))
        && (forall f :: f != frame ==> Refs(State(), f) == Refs(old(State()), f))
    {
      if PoolOk(State()) && InUse(State(), frame) { ShareExact(State(), frame); }
      shared := shared[frame := (if frame in shared then shared[frame] else 1) + 1];
    }

    /** `is_shared`: more than one mapping references the frame. */
    method IsShared(frame: nat) returns (r: bool)
      ensures PoolOk(State()) ==> (r <==> Refs(State(), frame) > 1)
      ensures r ==> !LastRef(State(), frame)
    {
      return frame in shared;
    }

    /** `free_frames`; every frame that is reclaimed also has its storage punched out. */
    method FreeFrames(start: nat, count: nat)
      modifies `free, `shared
      ensures State() == DropRun(old(State()), start, count)
    {
      for i := 0 to count
        invariant State() == DropRun(old(State()), start, i)
      {
        var f := start + i;
        if f != 0 {
          if f in shared {
            var rc := (shared[f] as int) - 1;
            if rc <= 1 { shared := shared - {f}; } else { shared := shared[f := rc]; }
          } else {
            free := free + [f];
          }
        }
      }
    }
  }
}
