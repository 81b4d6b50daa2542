/** Soundness: an accepted token sequence derives an expression, whose value is the result. */
module McSoundness {
  import opened Outcomes
  import opened McGrammar
  import opened McAutomaton
  import opened McParser

  predicate CarriesValue(x: Symbol) {
    Nonterminal(x) || x in {NUM, CELL, FUNC}
  }

  /** A stack entry stands for a derivation: of its state's symbol, with its payload as value. */
  ghost predicate Stands<V(!new)>(o: Arith<V>, r: Rec<V>, t: Tree<V>) {
    Derives(t) && Root(t) == Accessing(r.state) && (CarriesValue(Root(t)) ==> Sem(o, t) == Some(r.x))
  }

  /** The stack spells the tokens read so far, the lookahead aside. */
  ghost predicate Spells<V(!new)>(o: Arith<V>, toks: seq<Token<V>>, c: Config<V>, trees: seq<Tree<V>>) {
    && Safe(toks, c) && c.at <= |toks| && |trees| == |c.stack| - 1
    && (forall i {:trigger trees[i]} :: 0 <= i < |trees| ==> Stands(o, c.stack[i + 1], trees[i]))
    && Yields(trees) == toks[..c.at]
  }

  lemma {:induction false} YieldsConcat<V>(a: seq<Tree<V>>, b: seq<Tree<V>>)
    ensures Yields(a + b) == Yields(a) + Yields(b)
  {
    if b == [] {
      assert a + b == a;
    } else {
      YieldsConcat(a, b[..|b| - 1]);
      assert (a + b)[..|a + b| - 1] == a + b[..|b| - 1];
    }
  }

  lemma YieldsOne<V>(t: Tree<V>)
    ensures Yields([t]) == Yield(t)
  {
    assert [t][..0] == [];
  }

  lemma YieldsAppend<V>(ts: seq<Tree<V>>, t: Tree<V>)
    ensures Yields(ts + [t]) == Yields(ts) + Yield(t)
  {
    YieldsConcat(ts, [t]);
    YieldsOne(t);
  }

  /** Folding the last trees under a node leaves the spelling as it was. */
  lemma YieldsFold<V>(ts: seq<Tree<V>>, n: nat, p: nat)
    requires n <= |ts|
    ensures Yields(ts[..|ts| - n] + [Node(p, ts[|ts| - n..])]) == Yields(ts)
  {
    hide Yields;
    YieldsAppend(ts[..|ts| - n], Node(p, ts[|ts| - n..]));
    YieldsConcat(ts[..|ts| - n], ts[|ts| - n..]);
    assert ts[..|ts| - n] + ts[|ts| - n..] == ts;
  }

  /** The loop over a row, with the cells before column `from` already added. */
  lemma {:induction false} RowIsTotal<V>(o: Arith<V>, cells: seq<(int, int)>, row: int, c1: int, c2: int, from: int)
    requires c1 <= from <= c2 + 1 && |cells| == c2 - c1 + 1
    requires forall i :: 0 <= i < |cells| ==> cells[i] == (c1 + i, row)
    ensures SumRow(o, Total(o, cells[..from - c1]), row, from, c2) == Total(o, cells)
    decreases c2 - from
  {
    if from > c2 {
      assert cells[..from - c1] == cells;
    } else {
      assert cells[..from - c1 + 1][..from - c1] == cells[..from - c1];
      RowIsTotal(o, cells, row, c1, c2, from + 1);
    }
  }

  lemma {:induction false} ColIsTotal<V>(o: Arith<V>, cells: seq<(int, int)>, col: int, r1: int, r2: int, from: int)
    requires r1 <= from <= r2 + 1 && |cells| == r2 - r1 + 1
    requires forall i :: 0 <= i < |cells| ==> cells[i] == (col, r1 + i)
    ensures SumCol(o, Total(o, cells[..from - r1]), col, from, r2) == Total(o, cells)
    decreases r2 - from
  {
    if from > r2 {
      assert cells[..from - r1] == cells;
    } else {
      assert cells[..from - r1 + 1][..from - r1] == cells[..from - r1];
      ColIsTotal(o, cells, col, r1, r2, from + 1);
    }
  }

  /** A range is worth all its cells, corner to corner, each added once in that order. */
  lemma RangeIsTotal<V>(o: Arith<V>, r1: int, c1: int, r2: int, c2: int)
    requires RangeOk(r1, c1, r2, c2)
    ensures RangeSum(o, r1, c1, r2, c2) == Total(o, RangeCells(r1, c1, r2, c2))
  {
    var cells := RangeCells(r1, c1, r2, c2);
    assert cells[..0] == [];
    if r1 == r2 { RowIsTotal(o, cells, r2, c1, c2, c1); } else { ColIsTotal(o, cells, c2, r1, r2, r1); }
  }

  /** What the code computes for a production is what the grammar says it means. */
  lemma ReducedIsSem<V(!new)>(o: Arith<V>, p: nat, kids: seq<Tree<V>>, xs: seq<Payload<V>>)
    requires Production(p) && Roots(kids) == Rhs(p) && AllFit(Rhs(p), xs)
    requires forall i {:trigger xs[i]} {:trigger kids[i]} :: 0 <= i < |xs| && CarriesValue(Root(kids[i])) ==>
      Sem(o, kids[i]) == Some(xs[i])
    ensures Sem(o, Node(p, kids)) == if Reduced(o, p, xs).1 then None else Some(Reduced(o, p, xs).0)
  {
    assert |kids| == |Rhs(p)| == |xs|;
    assert Root(kids[0]) == Rhs(p)[0] && xs[0] == xs[0];
    if |xs| > 1 { assert Root(kids[1]) == Rhs(p)[1] && xs[1] == xs[1]; }
    if |xs| > 2 { assert Root(kids[2]) == Rhs(p)[2] && xs[2] == xs[2]; }
    if p == 11 && !Reduced(o, p, xs).1 { RangeIsTotal(o, xs[0].row, xs[0].col, xs[2].row, xs[2].col); }
  }

  lemma ShiftSound<V(!new)>(o: Arith<V>, toks: seq<Token<V>>, c: Config<V>, trees: seq<Tree<V>>)
    requires Spells(o, toks, c, trees) && c.status == Running && ActionFor(Top(c.stack), Look(toks, c.at)).Shift?
    requires Step(o, toks, c).status == Running
    ensures Spells(o, toks, Step(o, toks, c), trees + [Leaf(toks[c.at])])
  {
    hide ActionFor, Edge, Accessing, Expecting, Linked;
    StepSafe(o, toks, c);
    var k := Look(toks, c.at);
    ShiftLinked(toks, c, k);
    ShiftEdge(Top(c.stack), k);
    KindCarries(toks[c.at]);
    YieldsAppend(trees, Leaf(toks[c.at]));
    assert toks[..c.at + 1] == toks[..c.at] + [toks[c.at]];
  }

  /** The trees of the handle are the right side of the production. */
  lemma HandleTrees<V(!new)>(o: Arith<V>, c: Config<V>, trees: seq<Tree<V>>, k: Symbol)
    requires Linked(c.stack) && ActionFor(Top(c.stack), k).Reduce? && |trees| == |c.stack| - 1
    requires forall i {:trigger trees[i]} :: 0 <= i < |trees| ==> Stands(o, c.stack[i + 1], trees[i])
    ensures var p := ActionFor(Top(c.stack), k).prod; |Rhs(p)| <= |trees|
    ensures var p := ActionFor(Top(c.stack), k).prod;
      var kids := trees[|trees| - |Rhs(p)|..]; var xs := Payloads(c.stack, |Rhs(p)|);
      && Roots(kids) == Rhs(p)
      && (forall i {:trigger kids[i]} :: 0 <= i < |kids| ==> Derives(kids[i]))
      && (forall i {:trigger xs[i]} {:trigger kids[i]} :: 0 <= i < |xs| && CarriesValue(Root(kids[i])) ==>
           Sem(o, kids[i]) == Some(xs[i]))
  {
    hide ActionFor, Edge, Accessing, Goto, Rhs, Sem, Derives, Root, PayloadFits;
    HandleOnTop(c.stack, k);
    var p := ActionFor(Top(c.stack), k).prod;
    var n := |trees| - |Rhs(p)|;
    var kids := trees[n..];
    forall i {:trigger kids[i]} | 0 <= i < |kids|
      ensures Stands(o, c.stack[n + i + 1], kids[i]) && Roots(kids)[i] == Rhs(p)[i]
    {
      assert trees[n + i] == kids[i];
      assert TopSymbols(c.stack, |Rhs(p)|)[i] == Accessing(c.stack[n + i + 1].state);
    }
  }

  lemma ReduceSound<V(!new)>(o: Arith<V>, toks: seq<Token<V>>, c: Config<V>, trees: seq<Tree<V>>)
    requires Spells(o, toks, c, trees) && c.status == Running && ActionFor(Top(c.stack), Look(toks, c.at)).Reduce?
    requires Step(o, toks, c).status == Running
    ensures var p := ActionFor(Top(c.stack), Look(toks, c.at)).prod;
      |Rhs(p)| <= |trees| &&
      Spells(o, toks, Step(o, toks, c), trees[..|trees| - |Rhs(p)|] + [Node(p, trees[|trees| - |Rhs(p)|..])])
  {
    hide ActionFor, Edge, Accessing, Expecting, Goto, Rhs, Reduced, ReduceBy, Lhs, PayloadFits, Sem, Linked, Yields;
    hide Stands, Derives;
    var k := Look(toks, c.at);
    StepSafe(o, toks, c);
    ReduceLinked(o, toks, c, k);
    HandleOnTop(c.stack, k);
    HandleTrees(o, c, trees, k);
    var p := ActionFor(Top(c.stack), k).prod;
    var n := |trees| - |Rhs(p)|;
    ReducedIsSem(o, p, trees[n..], Payloads(c.stack, |Rhs(p)|));
    GotoEdge(p, c.stack[n].state);
    YieldsFold(trees, |Rhs(p)|, p);
    NodeStands(o, p, trees[n..], Step(o, toks, c).stack[n + 1]);
  }

  lemma NodeStands<V(!new)>(o: Arith<V>, p: nat, kids: seq<Tree<V>>, r: Rec<V>)
    requires Production(p) && Roots(kids) == Rhs(p)
    requires (forall i {:trigger kids[i]} :: 0 <= i < |kids| ==> Derives(kids[i]))
    requires Lhs(p) == Accessing(r.state) && Sem(o, Node(p, kids)) == Some(r.x)
    ensures Stands(o, r, Node(p, kids))
  {
  }

  lemma {:induction false} RunSound<V(!new)>(o: Arith<V>, toks: seq<Token<V>>, c: Config<V>,
                                      trees: seq<Tree<V>>) returns (t: Tree<V>)
    requires Spells(o, toks, c, trees) && c.status == Running && Run(o, toks, c).status == Accepted
    ensures Derives(t) && Root(t) == Expr && Yield(t) == toks && |Run(o, toks, c).stack| == 2
    ensures Sem(o, t) == Some(Run(o, toks, c).stack[1].x) && Run(o, toks, c).stack[1].x.Value?
    ensures Run(o, toks, c).formula <==> exists i :: 0 <= i < |toks| && toks[i].Cell?
    decreases |toks| - c.at, |c.stack|, Rank(Top(c.stack))
  {
    hide ActionFor, Edge, Accessing, Expecting, Linked, ReduceBy, Rhs;
    StepSafe(o, toks, c);
    var c' := Step(o, toks, c);
    var a := ActionFor(Top(c.stack), Look(toks, c.at));
    if c'.status == Running {
      StepDecreases(o, toks, c);
      if a.Shift? {
        ShiftSound(o, toks, c, trees);
        ShiftLinked(toks, c, Look(toks, c.at));
        t := RunSound(o, toks, c', trees + [Leaf(toks[c.at])]);
      } else {
        ReduceSound(o, toks, c, trees);
        t := RunSound(o, toks, c', trees[..|trees| - |Rhs(a.prod)|] + [Node(a.prod, trees[|trees| - |Rhs(a.prod)|..])]);
      }
    } else {
      ReduceNotAccept(o, toks, c);
      t := AcceptSound(o, toks, c, trees);
    }
  }

  lemma ReduceNotAccept<V(!new)>(o: Arith<V>, toks: seq<Token<V>>, c: Config<V>)
    requires Safe(toks, c) && c.status == Running && Step(o, toks, c).status == Accepted
    ensures ActionFor(Top(c.stack), Look(toks, c.at)).Accept?
  {
    hide ActionFor, Edge, Accessing, Reduced, Rhs;
  }

  /** At acceptance the stack is the start and one expression, and the input is used up. */
  lemma AcceptSound<V(!new)>(o: Arith<V>, toks: seq<Token<V>>, c: Config<V>, trees: seq<Tree<V>>) returns (t: Tree<V>)
    requires Spells(o, toks, c, trees) && c.status == Running && ActionFor(Top(c.stack), Look(toks, c.at)).Accept?
    ensures |c.stack| == 2 && Derives(t) && Root(t) == Expr && Yield(t) == toks && Sem(o, t) == Some(c.stack[1].x)
    ensures c.stack[1].x.Value?
    ensures c.at == |toks|
  {
    AcceptState(Top(c.stack), Look(toks, c.at));
    hide ActionFor, Edge;
    LinkedSources(c.stack, |c.stack| - 1);
    LinkedSources(c.stack, |c.stack| - 2);
    t := trees[0];
    assert Stands(o, c.stack[1], t);
    YieldsOne(t);
    assert trees == [t];
    if c.at < |toks| { KindCarries(toks[c.at]); }
    assert toks[..c.at] == toks;
  }

  lemma AcceptState(s: nat, k: Symbol)
    requires ActionFor(s, k).Accept?
    ensures s == 1 && k == EOLN
  {
  }
}
