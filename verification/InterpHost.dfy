/** The interpreter with its cache of four-level twins: whatever happens between two entries into
    a 64-bit slice, the tree handed to the processor is never stale. */
module InterpHost {
  import opened Outcomes
  import opened InterpPhys
  import opened InterpMemory
  import opened InterpOps
  import opened InterpBooks
  import opened InterpFork
  import opened InterpRuns
  import opened InterpHistory
  import opened InterpSteady
  import opened InterpTwin
  import opened InterpSteps
  import opened InterpEdits

  datatype Host = Host(g: Guest, twins: map<nat, Twin>, active: nat)

  /** The old twin of a space is given back. */
  function DropTwin(h: Host, s: nat): (h': Host)
    requires Framed(h.g)
    ensures Framed(h'.g) && h'.g.dirs == h.g.dirs && h'.active == h.active
  {
    if s in h.twins then h.(g := FreeAll(h.g, h.twins[s].frames, |h.twins[s].frames|), twins := h.twins - {s}) else h
  }

  /** `active_pml4`: the cached tree if no entry was written since it was built, else a new one. */
  function ActivePml4(h: Host): (r: Halting<(Host, nat)>)
    requires Framed(h.g)
    ensures r.Ok? ==> Framed(r.value.0.g)
  {
    var s := h.active;
    if s in h.twins && h.twins[s].builtAt == h.g.gen then Ok((h, h.twins[s].pml4))
    else
      var h1 := DropTwin(h, s);
      var b :- BuildTwin(h1.g, s);
      Ok((h1.(g := b.0, twins := h1.twins[s := b.1]), b.1.pml4))
  }

  datatype Cmd =
    | Do(op: Op)
    | Switch(id: nat)
    | Enter64
    | Destroy(id: nat)

  predicate ValidCmd(h: Host, cmd: Cmd) {
    match cmd
    case Do(op) => ValidOp(h.g, op)
    case Switch(id) => id < |h.g.dirs|
    case Enter64 => true
    case Destroy(id) => id < |h.g.dirs|
  }

  function HostStep(h: Host, cmd: Cmd): (r: Halting<Host>)
    requires Framed(h.g) && ValidCmd(h, cmd)
    ensures r.Ok? ==> Framed(r.value.g)
  {
    match cmd
    case Do(op) =>
      var g :- Step(h.g, op);
      Ok(h.(g := g))
    case Switch(id) => Ok(h.(active := id))
    case Enter64 =>
      var r :- ActivePml4(h);
      Ok(r.0)
    case Destroy(id) =>
      if id == 0 then Ok(h)
      else
        var g :- ClearSpace(h.g, id);
        Ok(DropTwin(h.(g := g, active := if h.active == id then 0 else h.active), id))
  }

  /** A twin is no newer than the tables, owns its frames, and agrees if it is as new. */
  ghost predicate TwinOk(g: Guest, s: nat, t: Twin) {
    s < |g.dirs| && t.builtAt <= g.gen && TwinFrames(g, s, t.frames) && (t.builtAt == g.gen ==> Agrees(g, s, t.pml4))
  }

  ghost predicate HostOk(h: Host, held: map<nat, nat>) {
    && Sound(h.g, held) && h.active < |h.g.dirs|
    && forall s {:trigger h.twins[s]} :: s in h.twins ==> TwinOk(h.g, s, h.twins[s])
  }

  lemma CalmTwin(g: Guest, g': Guest, s: nat, t: Twin)
    requires Wooded(g) && Framed(g') && Calm(g, g') && TwinOk(g, s, t)
    ensures TwinOk(g', s, t)
  {
    forall i | 0 <= i < |t.frames|
      ensures g'.kind[t.frames[i]] == g.kind[t.frames[i]]
    {
      assert IsTwin(g.kind[t.frames[i]]);
    }
    if t.builtAt == g'.gen {
      forall v: nat | v < ALL_PAGES ensures g'.PteAt(s, v) == g.PteAt(s, v) { SteadyPtes(g, g', s, v); }
      AgreesKept(g, g', s, t.pml4);
    }
  }

  lemma DoOk(h: Host, held: map<nat, nat>, op: Op, g: Guest)
    requires HostOk(h, held) && ValidOp(h.g, op) && SaneOp(h.g, op) && Step(h.g, op) == Ok(g)
    ensures HostOk(h.(g := g), HeldAfter(h.g, held, op))
  {
    hide Trees, Pooled, Leaves, Counted, Windowed, Apart, Step, HeldAfter, SaneOp, TwinOk, ValidOp;
    StepSound(h.g, held, op, g);
    StepCalm(h.g, held, op, g);
    forall s | s in h.twins ensures TwinOk(g, s, h.twins[s]) { CalmTwin(h.g, g, s, h.twins[s]); }
  }

  /** Frames of another space's twin do not matter. */
  lemma ForeignTwin(g: Guest, g': Guest, s: nat, t: Twin)
    requires Framed(g) && Framed(g') && SameLeaves(g, g') && g'.gen == g.gen && TwinOk(g, s, t)
    requires forall f: nat {:trigger g'.tab[f]} {:trigger g'.kind[f]} ::
      f < FRAMES && IsTwin(g.kind[f]) && g.kind[f].s == s ==> g'.tab[f] == g.tab[f] && g'.kind[f] == g.kind[f]
    ensures TwinOk(g', s, t)
  {
    forall i | 0 <= i < |t.frames|
      ensures g'.kind[t.frames[i]] == g.kind[t.frames[i]]
    {
      assert IsTwin(g.kind[t.frames[i]]);
    }
    if t.builtAt == g.gen { AgreesKept(g, g', s, t.pml4); }
  }

  lemma SameSound(g: Guest, held: map<nat, nat>, g': Guest)
    requires Sound(g, held) && Books(g', held) && SameLeaves(g, g')
    ensures Sound(g', held)
  {
    hide Books, Windowed, Apart;
    WindowedSame(g, g');
    ApartSameLeaves(g, g');
  }

  lemma DropTwinOk(h: Host, held: map<nat, nat>, s: nat)
    requires HostOk(h, held)
    ensures HostOk(DropTwin(h, s), held) && SameLeaves(h.g, DropTwin(h, s).g) && DropTwin(h, s).g.gen == h.g.gen
    ensures s !in DropTwin(h, s).twins
  {
    hide Trees, Pooled, Leaves, Counted, Windowed, Apart, Agrees;
    if s in h.twins {
      var t := h.twins[s];
      FreeAllStep(h.g, held, s, t.frames, |t.frames|);
      var g' := FreeAll(h.g, t.frames, |t.frames|);
      SameSound(h.g, held, g');
      forall s' | s' in h.twins && s' != s ensures TwinOk(g', s', h.twins[s']) {
        forall f: nat | f < FRAMES && IsTwin(h.g.kind[f]) && h.g.kind[f].s == s' ensures g'.kind[f] == h.g.kind[f] {
          assert t.frames[..|t.frames|] == t.frames;
        }
        ForeignTwin(h.g, g', s', h.twins[s']);
      }
    }
  }

  lemma BuildOk(h: Host, held: map<nat, nat>, b: (Guest, Twin))
    requires HostOk(h, held) && h.active !in h.twins && BuildTwin(h.g, h.active) == Ok(b)
    ensures HostOk(h.(g := b.0, twins := h.twins[h.active := b.1]), held) && SameLeaves(h.g, b.0)
    ensures Agrees(b.0, h.active, b.1.pml4)
  {
    hide Trees, Pooled, Leaves, Counted, Windowed, Apart, BuildTwin, Agrees;
    var s := h.active;
    BuildTwinStep(h.g, held, s, b);
    AsideTrees(h.g, b.0, s);
    SameSound(h.g, held, b.0);
    assert TwinOk(b.0, s, b.1);
    forall s' | s' in h.twins ensures TwinOk(b.0, s', h.twins[s']) {
      assert s' != s;
      ForeignTwin(h.g, b.0, s', h.twins[s']);
    }
  }

  /** Entering a 64-bit slice: cached or rebuilt, the tree translates every page of the active
      space exactly as its two-level tree does, and no leaf of any space has changed. */
  lemma TwinIsExact(h: Host, held: map<nat, nat>, h': Host, top: nat)
    requires HostOk(h, held) && ActivePml4(h) == Ok((h', top))
    ensures HostOk(h', held) && SameLeaves(h.g, h'.g)
    ensures forall v: nat {:trigger Leaf64(h'.g, top, v)} {:trigger Translate64(h'.g, top, v)} :: v < ALL_PAGES ==>
      Translate64(h'.g, top, v) == Translate(h.g, h.active, v) && Leaf64(h'.g, top, v) == h.g.PteAt(h.active, v)
  {
    hide Books, Windowed, Apart, BuildTwin, Agrees, Leaf64;
    var s := h.active;
    assert Framed(h.g) by { BooksFramed(h.g, held); }
    if s in h.twins && h.twins[s].builtAt == h.g.gen {
      assert TwinOk(h.g, s, h.twins[s]);
    } else {
      DropTwinOk(h, held, s);
      var h1 := DropTwin(h, s);
      BuildOk(h1, held, BuildTwin(h1.g, s).value);
      SameLeavesChain(h.g, h1.g, h'.g);
    }
    forall v: nat | v < ALL_PAGES
      ensures Translate64(h'.g, top, v) == Translate(h.g, s, v) && Leaf64(h'.g, top, v) == h.g.PteAt(s, v)
    {
      AgreesTranslates(h'.g, s, top, v);
      assert h'.g.PteAt(s, v) == h.g.PteAt(s, v);
    }
  }

  lemma SameLeavesChain(g: Guest, g1: Guest, g': Guest)
    requires SameLeaves(g, g1) && SameLeaves(g1, g')
    ensures SameLeaves(g, g')
  {
    forall s: nat, v: nat | s < |g.dirs| && v < ALL_PAGES
      ensures g'.PteAt(s, v) == g.PteAt(s, v)
    {
      assert g1.PteAt(s, v) == g.PteAt(s, v);
    }
  }

  ghost predicate SaneCmd(h: Host, cmd: Cmd) {
    cmd.Do? ==> SaneOp(h.g, cmd.op)
  }

  function HeldCmd(h: Host, held: map<nat, nat>, cmd: Cmd): map<nat, nat> {
    if cmd.Do? then HeldAfter(h.g, held, cmd.op) else held
  }

  lemma HostStepOk(h: Host, held: map<nat, nat>, cmd: Cmd, h': Host)
    requires HostOk(h, held) && ValidCmd(h, cmd) && SaneCmd(h, cmd) && HostStep(h, cmd) == Ok(h')
    ensures HostOk(h', HeldCmd(h, held, cmd))
  {
    hide Books, Windowed, Apart, Step, ActivePml4, DropTwin, ClearPages, TwinOk, HeldAfter, SaneOp, ValidOp;
    assert Framed(h.g) by { BooksFramed(h.g, held); }
    match cmd
    case Do(op) => DoOk(h, held, op, Step(h.g, op).value);
    case Switch(_) =>
    case Enter64 => TwinIsExact(h, held, h', ActivePml4(h).value.1);
    case Destroy(id) =>
      if id != 0 {
        var g := ClearSpace(h.g, id).value;
        ClearHostOk(h, held, id, g);
        DropTwinOk(h.(g := g, active := if h.active == id then 0 else h.active), held, id);
      }
  }

  lemma ClearHostOk(h: Host, held: map<nat, nat>, id: nat, g: Guest)
    requires HostOk(h, held) && id < |h.g.dirs| && ClearSpace(h.g, id) == Ok(g)
    ensures HostOk(h.(g := g), held) && |g.dirs| == |h.g.dirs|
  {
    hide Books, Windowed, Apart, ClearPages, TwinOk;
    assert Framed(h.g) by { BooksFramed(h.g, held); }
    DoOk(h, held, ClearOp(id), g);
  }

  /** Tearing a space down unmaps its program pages, forgets its tree, and no other leaf changes. */
  lemma DestroyClears(h: Host, held: map<nat, nat>, id: nat, h': Host)
    requires HostOk(h, held) && 0 < id < |h.g.dirs| && Framed(h.g) && HostStep(h, Destroy(id)) == Ok(h')
    ensures id !in h'.twins && |h'.g.dirs| == |h.g.dirs|
    ensures forall s: nat, v: nat {:trigger h'.g.PteAt(s, v)} :: s < |h.g.dirs| && v < ALL_PAGES ==>
      h'.g.PteAt(s, v) == if s == id && v < USER_PAGES && h.g.PteAt(id, v).present then NONE else h.g.PteAt(s, v)
  {
    hide Trees, Pooled, Leaves, Counted, Windowed, Apart, DropTwin, ClearPages, TwinOk;
    var g := ClearSpace(h.g, id).value;
    ClearHostOk(h, held, id, g);
    ClearEdit(h.g, held, id, USER_PAGES, g);
    DropTwinOk(h.(g := g, active := if h.active == id then 0 else h.active), held, id);
    forall s: nat, v: nat | s < |h.g.dirs| && v < ALL_PAGES ensures h'.g.PteAt(s, v) == g.PteAt(s, v) {
    }
  }

  ghost predicate HostRuns(h: Host, cmds: seq<Cmd>, h': Host)
    requires Framed(h.g)
    decreases |cmds|
  {
    if cmds == [] then h' == h
    else
      && ValidCmd(h, cmds[0]) && SaneCmd(h, cmds[0]) && HostStep(h, cmds[0]).Ok?
      && HostRuns(HostStep(h, cmds[0]).value, cmds[1..], h')
  }

  // ---- The active space ----

  /** One past the last `Switch` among the commands; 0 if there is none. */
  function LastSwitch(cmds: seq<Cmd>): (k: nat)
    ensures k <= |cmds| && (k > 0 ==> cmds[k - 1].Switch?)
    ensures forall j :: k <= j < |cmds| ==> !cmds[j].Switch?
  {
    if cmds == [] then 0
    else if cmds[|cmds| - 1].Switch? then |cmds|
    else LastSwitch(cmds[..|cmds| - 1])
  }

  /** The space the commands leave active: the one switched to last, or the first one if that space
      was torn down since. */
  function ActiveAfter(start: nat, cmds: seq<Cmd>): nat {
    var k := LastSwitch(cmds);
    var id := if k == 0 then start else cmds[k - 1].id;
    if exists j :: k <= j < |cmds| && cmds[j] == Destroy(id) then 0 else id
  }

  lemma ActiveAfterFirst(start: nat, cmds: seq<Cmd>)
    requires cmds != []
    ensures ActiveAfter(start, cmds) ==
      ActiveAfter(if cmds[0].Switch? then cmds[0].id else if cmds[0] == Destroy(start) then 0 else start, cmds[1..])
  {
    hide LastSwitch;
    var rest := cmds[1..];
    var k := LastSwitch(rest);
    assert forall j :: 0 <= j < |rest| ==> rest[j] == cmds[j + 1];
    assert LastSwitch(cmds) == if k == 0 && !cmds[0].Switch? then 0 else k + 1 by {
      assert k > 0 ==> cmds[k].Switch?;
      assert forall j :: k < j < |cmds| ==> cmds[j] == rest[j - 1];
    }
    var id := if k > 0 then rest[k - 1].id else if cmds[0].Switch? then cmds[0].id else start;
    assert forall j :: k <= j < |rest| ==> (rest[j] == Destroy(id) <==> cmds[j + 1] == Destroy(id));
    assert (exists j :: k <= j < |rest| && rest[j] == Destroy(id)) <==>
      exists j :: k + 1 <= j < |cmds| && cmds[j] == Destroy(id) by {
      if exists j :: k + 1 <= j < |cmds| && cmds[j] == Destroy(id) {
        var j :| k + 1 <= j < |cmds| && cmds[j] == Destroy(id);
        assert rest[j - 1] == Destroy(id);
      }
    }
  }

  lemma StepActive(h: Host, cmd: Cmd)
    requires Framed(h.g) && ValidCmd(h, cmd) && HostStep(h, cmd).Ok?
    ensures HostStep(h, cmd).value.active ==
      if cmd.Switch? then cmd.id else if cmd == Destroy(h.active) then 0 else h.active
  {
    hide Step, BuildTwin, ClearPages;
  }

  /** Which space is active after a run is settled by the commands alone. */
  lemma {:induction false} RunActive(h: Host, cmds: seq<Cmd>, h': Host)
    requires Framed(h.g) && HostRuns(h, cmds, h')
    ensures h'.active == ActiveAfter(h.active, cmds)
    decreases |cmds|
  {
    hide HostStep, ActiveAfter;
    if cmds == [] {
      assert ActiveAfter(h.active, []) == h.active by { NoCommands(h.active); }
    } else {
      StepActive(h, cmds[0]);
      ActiveAfterFirst(h.active, cmds);
      RunActive(HostStep(h, cmds[0]).value, cmds[1..], h');
    }
  }

  lemma NoCommands(start: nat)
    ensures ActiveAfter(start, []) == start
  {
  }

  /** From any good host, whatever run follows, the next entry gets a tree that agrees. */
  lemma {:induction false} TwinStaysExact(h: Host, held: map<nat, nat>, cmds: seq<Cmd>, h': Host, h'': Host, top: nat,
                                          v: nat)
    requires HostOk(h, held) && HostRuns(h, cmds, h') && Framed(h'.g) && ActivePml4(h') == Ok((h'', top))
    requires v < ALL_PAGES
    ensures Translate64(h''.g, top, v) == Translate(h'.g, h'.active, v)
    decreases |cmds|
  {
    hide Trees, Pooled, Leaves, Counted, Windowed, Apart, HostStep, ActivePml4, ValidCmd, SaneCmd, HeldCmd, TwinOk;
    if cmds == [] {
      TwinIsExact(h, held, h'', top);
    } else {
      var h1 := HostStep(h, cmds[0]).value;
      HostStepOk(h, held, cmds[0], h1);
      TwinStaysExact(h1, HeldCmd(h, held, cmds[0]), cmds[1..], h', h'', top, v);
    }
  }

  /** The host when its first space exists and is active, before any 64-bit entry. */
  ghost predicate Started(g: Guest, h: Host)
    requires Framed(g)
  {
    Booted(g) && NewSpace(g) == Ok(h.g) && h.twins == map[] && h.active == 0
  }

  lemma StartedOk(g: Guest, h: Host)
    requires Framed(g) && Started(g, h)
    ensures Framed(h.g) && HostOk(h, map[])
  {
    hide Books, Windowed, Apart, NewSpace;
    BootSound(g);
    StepSound(g, map[], NewOp, h.g);
  }

  /** From boot, after any run of edits, switches, 64-bit entries and teardowns, the next entry gets
      a tree that agrees with the space the commands made active. */
  lemma TwinNeverStale(g: Guest, h: Host, cmds: seq<Cmd>, h': Host, h'': Host, top: nat, v: nat)
    requires Framed(g) && Started(g, h) && HostRuns(h, cmds, h') && Framed(h'.g) && ActivePml4(h') == Ok((h'', top))
    requires v < ALL_PAGES
    ensures Translate64(h''.g, top, v) == Translate(h'.g, ActiveAfter(0, cmds), v)
  {
    hide HostOk, HostRuns, ActivePml4, NewSpace, ActiveAfter;
    StartedOk(g, h);
    RunActive(h, cmds, h');
    TwinStaysExact(h, map[], cmds, h', h'', top, v);
  }
}
