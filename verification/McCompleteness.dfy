/** Completeness: every expression whose parse fits the stack is accepted, with its value. */
module McCompleteness {
  import opened Outcomes
  import opened McGrammar
  import opened McAutomaton
  import opened McParser
  import opened McSoundness

  /** The lookahead `k` ends a phrase of kind `x`. */
  predicate Ends(x: Symbol, k: Symbol) {
    && (Nonterminal(x) ==> k != COLON)
    && (x in {Factor, Term, Expr} ==> k != EXP)
    && (x == Expr ==> k !in {TIMES, DIVIDE})
  }

  /** The state `i` symbols into the right side of `p`, started in state `s`. */
  function PathState(s: nat, p: nat, i: nat): nat
    requires i <= |Rhs(p)|
  {
    if i == 0 then s else Trans(PathState(s, p, i - 1), Rhs(p)[i - 1])
  }

  /** The state two symbols into the right side of `p`. */
  function MidState(p: nat): nat {
    if p == 1 then 12 else if p == 2 then 13 else if p == 4 then 14 else if p == 5 then 15 else if p == 7 then 16
    else if p == 9 then 17 else if p == 11 then 18 else if p == 14 then 19 else 20
  }

  /** The state at the end of the right side of `p`. */
  function LastState(p: nat): nat {
    if p == 1 then 21 else if p == 2 then 22 else if p == 3 then 2 else if p == 4 then 23 else if p == 5 then 24
    else if p == 6 then 3 else if p == 7 then 25 else if p == 8 then 4 else if p == 9 then 17 else if p == 10 then 6
    else if p == 11 then 26 else if p == 12 then 8 else if p == 13 then 7 else if p == 14 then 27
    else if p == 15 then 10 else 29
  }

  lemma FirstEdge(s: nat, p: nat)
    requires Production(p) && Goto(p, s) != 30
    ensures Trans(s, Rhs(p)[0]) != 30
    ensures |Rhs(p)| == 1 ==> Trans(s, Rhs(p)[0]) == LastState(p)
  {
  }

  lemma SecondEdge(s: nat, p: nat)
    requires Production(p) && Goto(p, s) != 30 && |Rhs(p)| >= 2
    ensures Trans(Trans(s, Rhs(p)[0]), Rhs(p)[1]) == MidState(p)
    ensures |Rhs(p)| == 2 ==> MidState(p) == LastState(p)
  {
  }

  lemma ThirdEdge(p: nat)
    requires Production(p) && |Rhs(p)| >= 3
    ensures Trans(MidState(p), Rhs(p)[2]) == if p == 16 then 28 else LastState(p)
    ensures |Rhs(p)| == 4 ==> p == 16 && Trans(28, Rhs(p)[3]) == 29
    ensures |Rhs(p)| <= 4 && (p == 16 ==> |Rhs(p)| == 4)
  {
  }

  /** Wherever the automaton can take the left side of a production, it can take its right side. */
  lemma PathOpen(s: nat, p: nat, i: nat)
    requires Production(p) && Goto(p, s) != 30 && 1 <= i <= |Rhs(p)|
    ensures PathState(s, p, i) != 30
    ensures i == |Rhs(p)| ==> PathState(s, p, i) == LastState(p)
  {
    hide Trans, Goto, Rhs;
    FirstEdge(s, p);
    assert PathState(s, p, 1) == Trans(s, Rhs(p)[0]);
    if i >= 2 {
      SecondEdge(s, p);
      assert PathState(s, p, 2) == MidState(p);
    }
    if i >= 3 {
      ThirdEdge(p);
      assert PathState(s, p, 3) == Trans(MidState(p), Rhs(p)[2]);
      assert i == 4 ==> PathState(s, p, 4) == Trans(PathState(s, p, 3), Rhs(p)[3]);
    }
  }

  /** At the end of the right side the automaton reduces, if the lookahead ends the phrase. */
  lemma LastReduces(p: nat, k: Symbol)
    requires Production(p) && Ends(Lhs(p), k)
    ensures ActionFor(LastState(p), k) == Reduce(p)
  {
  }

  /** A symbol inside a right side is ended by the symbol after it, the last by what ends the whole. */
  lemma InnerEnds(p: nat, i: nat, k: Symbol)
    requires Production(p) && i < |Rhs(p)| && (i + 1 < |Rhs(p)| && Nonterminal(Rhs(p)[i]) ==> k == Rhs(p)[i + 1])
    requires i + 1 == |Rhs(p)| ==> Ends(Lhs(p), k)
    ensures Ends(Rhs(p)[i], k)
    ensures i + 1 < |Rhs(p)| && Nonterminal(Rhs(p)[i]) ==> !Nonterminal(Rhs(p)[i + 1])
  {
  }

  // ---- Driving the loop ----

  lemma RunStep<V>(o: Arith<V>, toks: seq<Token<V>>, c: Config<V>)
    requires Safe(toks, c) && c.status == Running
    ensures Safe(toks, Step(o, toks, c)) && Run(o, toks, c) == Run(o, toks, Step(o, toks, c))
  {
    hide Step, Linked;
    StepSafe(o, toks, c);
  }

  /** From `c` the loop comes to `c'`, having pushed entries that stand for `ts` and read their tokens. */
  ghost predicate Pushed<V(!new)>(o: Arith<V>, toks: seq<Token<V>>, c: Config<V>, ts: seq<Tree<V>>, c': Config<V>) {
    && Safe(toks, c) && Safe(toks, c') && c'.status == Running
    && Run(o, toks, c) == Run(o, toks, c')
    && |c'.stack| == |c.stack| + |ts| && c'.stack[..|c.stack|] == c.stack
    && c'.at == c.at + |Yields(ts)|
    && forall i {:trigger ts[i]} :: 0 <= i < |ts| ==> Stands(o, c'.stack[|c.stack| + i], ts[i])
  }

  /** The tokens from `at` on start with `ys`. */
  ghost predicate Ahead<V(!new)>(toks: seq<Token<V>>, at: nat, ys: seq<Token<V>>) {
    at + |ys| <= |toks| && toks[at..at + |ys|] == ys
  }

  /** What driving a derivation needs: an edge for it, its tokens ahead, an end after them, a value. */
  ghost predicate Drivable<V(!new)>(o: Arith<V>, toks: seq<Token<V>>, c: Config<V>, t: Tree<V>) {
    && Safe(toks, c) && c.status == Running
    && Derives(t) && Trans(Top(c.stack), Root(t)) != 30 && (CarriesValue(Root(t)) ==> Sem(o, t).Some?)
    && Ahead(toks, c.at, Yield(t)) && Ends(Root(t), Look(toks, c.at + |Yield(t)|))
  }

  lemma DriveLeaf<V(!new)>(o: Arith<V>, toks: seq<Token<V>>, c: Config<V>, tok: Token<V>) returns (c': Config<V>)
    requires Drivable(o, toks, c, Leaf(tok))
    ensures |c.stack| + 1 <= PARSER_STACK_SIZE ==>
      Pushed(o, toks, c, [Leaf(tok)], c') && Top(c'.stack) == Trans(Top(c.stack), Kind(tok))
    ensures |c.stack| + 1 > PARSER_STACK_SIZE ==> Run(o, toks, c).status == Failed
  {
    c' := Step(o, toks, c);
    assert toks[c.at] == tok by { assert toks[c.at..c.at + 1][0] == toks[c.at]; }
    hide ActionFor, Edge, Accessing, Linked, Expecting;
    KindCarries(tok);
    RunStep(o, toks, c);
    YieldsOne(Leaf(tok));
    ShiftLinked(toks, c, Kind(tok));
    ShiftEdge(Top(c.stack), Kind(tok));
  }

  lemma GotoByLhs(p: nat, s: nat)
    requires Production(p)
    ensures Trans(s, Lhs(p)) == Goto(p, s)
  {
  }

  /** A derivation with a value has values where its production reads them. */
  lemma SemKids<V(!new)>(o: Arith<V>, p: nat, kids: seq<Tree<V>>, i: nat)
    requires Derives(Node(p, kids)) && Sem(o, Node(p, kids)).Some? && i < |kids| && CarriesValue(Root(kids[i]))
    ensures Sem(o, kids[i]).Some?
  {
    assert Root(kids[i]) == Rhs(p)[i];
  }

  ghost predicate NodeReady<V(!new)>(o: Arith<V>, toks: seq<Token<V>>, c: Config<V>, p: nat, kids: seq<Tree<V>>) {
    && Safe(toks, c) && c.status == Running
    && Derives(Node(p, kids)) && Goto(p, Top(c.stack)) != 30 && Sem(o, Node(p, kids)).Some?
    && Ahead(toks, c.at, Yields(kids)) && Ends(Lhs(p), Look(toks, c.at + |Yields(kids)|))
  }

  /** The token after kid `j - 1` ends it. */
  lemma KidEnds<V(!new)>(toks: seq<Token<V>>, at: nat, p: nat, kids: seq<Tree<V>>, j: nat)
    requires Production(p) && Roots(kids) == Rhs(p)
    requires (forall i {:trigger kids[i]} :: 0 <= i < |kids| ==> Derives(kids[i]))
    requires Ahead(toks, at, Yields(kids)) && Ends(Lhs(p), Look(toks, at + |Yields(kids)|)) && 1 <= j <= |kids|
    ensures Ends(Root(kids[j - 1]), Look(toks, at + |Yields(kids[..j])|))
  {
    hide Rhs, Yields, Ends, Lhs, Root, Derives, Look, Ahead, Nonterminal;
    assert Root(kids[j - 1]) == Rhs(p)[j - 1];
    var k := Look(toks, at + |Yields(kids[..j])|);
    if j == |kids| {
      assert kids[..j] == kids;
    } else if Nonterminal(Rhs(p)[j - 1]) {
      assert Root(kids[j]) == Rhs(p)[j];
      InnerEnds(p, j - 1, Rhs(p)[j]);
      LeafAhead(toks, at, kids, j);
    }
    InnerEnds(p, j - 1, k);
  }

  /** A kid whose symbol is a terminal is one token, and that token is next. */
  lemma LeafAhead<V(!new)>(toks: seq<Token<V>>, at: nat, kids: seq<Tree<V>>, j: nat)
    requires Ahead(toks, at, Yields(kids)) && j < |kids| && Derives(kids[j]) && !Nonterminal(Root(kids[j]))
    ensures at + |Yields(kids[..j])| < |toks| && Look(toks, at + |Yields(kids[..j])|) == Root(kids[j])
  {
    hide Yields;
    YieldsConcat(kids[..j + 1], kids[j + 1..]);
    YieldsAppend(kids[..j], kids[j]);
    assert kids[..j] + [kids[j]] == kids[..j + 1] && kids[..j + 1] + kids[j + 1..] == kids;
    assert kids[j].Leaf?;
    var n := |Yields(kids[..j])|;
    assert Yields(kids)[n] == kids[j].tok;
    assert toks[at..at + |Yields(kids)|][n] == toks[at + n];
  }

  lemma SliceOfSlice<T>(s: seq<T>, at: nat, n: nat, i: nat, j: nat)
    requires at + n <= |s| && i <= j <= n
    ensures s[at..at + n][i..j] == s[at + i..at + j]
  {
    var t := s[at..at + n];
    assert |t[i..j]| == j - i == |s[at + i..at + j]|;
    forall k | 0 <= k < j - i ensures t[i..j][k] == s[at + i..at + j][k] {
      assert t[i..j][k] == t[i + k] == s[at + i + k];
    }
  }

  lemma KidAhead<V(!new)>(toks: seq<Token<V>>, at: nat, kids: seq<Tree<V>>, j: nat)
    requires Ahead(toks, at, Yields(kids)) && 1 <= j <= |kids|
    ensures Ahead(toks, at + |Yields(kids[..j - 1])|, Yield(kids[j - 1]))
    ensures |Yields(kids[..j])| == |Yields(kids[..j - 1])| + |Yield(kids[j - 1])|
  {
    hide Yields;
    var a := Yields(kids[..j - 1]);
    var b := Yield(kids[j - 1]);
    YieldsConcat(kids[..j], kids[j..]);
    YieldsAppend(kids[..j - 1], kids[j - 1]);
    assert kids[..j - 1] + [kids[j - 1]] == kids[..j] && kids[..j] + kids[j..] == kids;
    assert b == Yields(kids)[|a|..|a| + |b|];
    SliceOfSlice(toks, at, |Yields(kids)|, |a|, |a| + |b|);
  }

  lemma NeedPrefix<V>(kids: seq<Tree<V>>, j: nat)
    requires 1 <= j <= |kids|
    ensures NeedAll(kids[..j]) == if NeedAll(kids[..j - 1]) > j - 1 + Need(kids[j - 1]) then NeedAll(kids[..j - 1])
      else j - 1 + Need(kids[j - 1])
  {
    assert kids[..j][..j - 1] == kids[..j - 1];
  }

  lemma PushedTrans<V(!new)>(o: Arith<V>, toks: seq<Token<V>>, c: Config<V>, kids: seq<Tree<V>>, j: nat, c1: Config<V>,
                      c': Config<V>)
    requires 1 <= j <= |kids| && Pushed(o, toks, c, kids[..j - 1], c1) && Pushed(o, toks, c1, [kids[j - 1]], c')
    ensures Pushed(o, toks, c, kids[..j], c')
  {
    hide Yields, Stands, Linked, Loaded, Run;
    YieldsAppend(kids[..j - 1], kids[j - 1]);
    YieldsOne(kids[j - 1]);
    assert kids[..j - 1] + [kids[j - 1]] == kids[..j];
    assert c'.stack[..|c.stack|] == c1.stack[..|c.stack|];
    var ts := kids[..j];
    forall i {:trigger ts[i]} | 0 <= i < |ts| ensures Stands(o, c'.stack[|c.stack| + i], ts[i]) {
      if i < j - 1 {
        assert kids[..j - 1][i] == ts[i];
        assert c'.stack[|c.stack| + i] == c'.stack[..|c1.stack|][|c.stack| + i];
      } else {
        assert [kids[j - 1]][0] == ts[i];
      }
    }
  }

  /** The loop takes the first `j` symbols of a right side off the input, or runs out of stack. */
  lemma {:induction false} DriveKids<V(!new)>(o: Arith<V>, toks: seq<Token<V>>, c: Config<V>, p: nat,
                                       kids: seq<Tree<V>>, j: nat) returns (c': Config<V>)
    requires NodeReady(o, toks, c, p, kids) && j <= |kids|
    ensures |c.stack| + NeedAll(kids[..j]) <= PARSER_STACK_SIZE ==>
      Pushed(o, toks, c, kids[..j], c') && Top(c'.stack) == PathState(Top(c.stack), p, j)
    ensures |c.stack| + NeedAll(kids[..j]) > PARSER_STACK_SIZE ==> Run(o, toks, c).status == Failed
    decreases kids, j
  {
    c' := c;
    if j > 0 {
      hide Sem, Goto, Trans, Yields, Rhs, Run, NeedAll, Need, Ends, Look, Loaded;
      var c1 := DriveKids(o, toks, c, p, kids, j - 1);
      NeedPrefix(kids, j);
      if |c.stack| + NeedAll(kids[..j - 1]) <= PARSER_STACK_SIZE {
        KidDrivable(o, toks, c, p, kids, j, c1);
        c' := Drive(o, toks, c1, kids[j - 1]);
        if |c.stack| + NeedAll(kids[..j]) <= PARSER_STACK_SIZE {
          PushedTrans(o, toks, c, kids, j, c1, c');
        }
      }
    }
  }

  lemma KidDrivable<V(!new)>(o: Arith<V>, toks: seq<Token<V>>, c: Config<V>, p: nat, kids: seq<Tree<V>>, j: nat,
                      c1: Config<V>)
    requires NodeReady(o, toks, c, p, kids) && 1 <= j <= |kids|
    requires Pushed(o, toks, c, kids[..j - 1], c1) && Top(c1.stack) == PathState(Top(c.stack), p, j - 1)
    ensures Drivable(o, toks, c1, kids[j - 1])
    ensures Trans(Top(c1.stack), Root(kids[j - 1])) == PathState(Top(c.stack), p, j)
  {
    hide Sem, Goto, Trans, Yields, Rhs, Run, Ends, Look, Loaded, Edge, Accessing, PayloadFits, ActionFor, PathState;
    hide Stands;
    PathNext(Top(c.stack), p, j);
    assert Root(kids[j - 1]) == Rhs(p)[j - 1];
    PathOpen(Top(c.stack), p, j);
    if CarriesValue(Root(kids[j - 1])) { SemKids(o, p, kids, j - 1); }
    KidAhead(toks, c.at, kids, j);
    KidEnds(toks, c.at, p, kids, j);
  }

  lemma PathNext(s: nat, p: nat, j: nat)
    requires 1 <= j <= |Rhs(p)|
    ensures PathState(s, p, j) == Trans(PathState(s, p, j - 1), Rhs(p)[j - 1])
  {
  }

  /** The loop takes a whole derivation off the input and leaves one entry with its value,
      or runs out of stack: which of the two, the need of the derivation tells. */
  lemma {:induction false} Drive<V(!new)>(o: Arith<V>, toks: seq<Token<V>>, c: Config<V>,
                                   t: Tree<V>) returns (c': Config<V>)
    requires Drivable(o, toks, c, t)
    ensures |c.stack| + Need(t) <= PARSER_STACK_SIZE ==>
      Pushed(o, toks, c, [t], c') && Top(c'.stack) == Trans(Top(c.stack), Root(t))
    ensures |c.stack| + Need(t) > PARSER_STACK_SIZE ==> Run(o, toks, c).status == Failed
    decreases t, 0
  {
    hide Sem, Goto, Trans, Yields, Rhs, Run, NeedAll, Ends, Look, Loaded;
    match t
    case Leaf(tok) => c' := DriveLeaf(o, toks, c, tok);
    case Node(p, kids) =>
      GotoByLhs(p, Top(c.stack));
      LhsCarries(p);
      c' := DriveKids(o, toks, c, p, kids, |kids|);
      assert kids[..|kids|] == kids;
      if |c.stack| + Need(t) <= PARSER_STACK_SIZE {
        c' := DriveReduce(o, toks, c, p, kids, c');
      }
  }

  lemma LhsCarries(p: nat)
    ensures Nonterminal(Lhs(p)) && CarriesValue(Lhs(p))
  {
  }

  /** The reduction at the end of a right side. */
  lemma DriveReduce<V(!new)>(o: Arith<V>, toks: seq<Token<V>>, c: Config<V>, p: nat, kids: seq<Tree<V>>,
                      c1: Config<V>) returns (c': Config<V>)
    requires NodeReady(o, toks, c, p, kids)
    requires Pushed(o, toks, c, kids, c1) && Top(c1.stack) == PathState(Top(c.stack), p, |kids|)
    ensures Pushed(o, toks, c, [Node(p, kids)], c') && Top(c'.stack) == Goto(p, Top(c.stack))
  {
    hide Sem, Goto, Trans, Yields, Rhs, Run, Ends, Loaded, ActionFor, Edge, Accessing, Reduced, ReduceBy, PayloadFits;
    hide Expecting, PathState, LastState, Lhs, Stands;
    var k := Look(toks, c1.at);
    c' := Step(o, toks, c1);
    RunStep(o, toks, c1);
    LastIsPath(Top(c.stack), p);
    LastReduces(p, k);
    ReduceLinked(o, toks, c1, k);
    var xs := Payloads(c1.stack, |kids|);
    KidValues(o, c, kids, c1);
    ReducedIsSem(o, p, kids, xs);
    GotoEdge(p, Top(c.stack));
    var r := Rec(Goto(p, Top(c.stack)), Reduced(o, p, xs).0);
    assert c'.stack == c.stack + [r];
    NodeStands(o, p, kids, r);
    YieldsOne(Node(p, kids));
  }

  lemma LastIsPath(s: nat, p: nat)
    requires Production(p) && Goto(p, s) != 30
    ensures PathState(s, p, |Rhs(p)|) == LastState(p)
  {
    RhsSize(p);
    PathOpen(s, p, |Rhs(p)|);
  }

  lemma KidValues<V(!new)>(o: Arith<V>, c: Config<V>, kids: seq<Tree<V>>, c1: Config<V>)
    requires |c1.stack| == |c.stack| + |kids|
    requires forall i {:trigger kids[i]} :: 0 <= i < |kids| ==> Stands(o, c1.stack[|c.stack| + i], kids[i])
    ensures var xs := Payloads(c1.stack, |kids|);
      forall i {:trigger xs[i]} {:trigger kids[i]} :: 0 <= i < |xs| && CarriesValue(Root(kids[i])) ==>
        Sem(o, kids[i]) == Some(xs[i])
  {
  }

  // ---- The language of the parser ----

  /** `t` is an expression that spells `toks`, has a value, and fits the parser's stack. */
  ghost predicate Fits<V(!new)>(o: Arith<V>, toks: seq<Token<V>>, t: Tree<V>) {
    && Derives(t) && Root(t) == Expr && Yield(t) == toks
    && Sem(o, t).Some? && 1 + Need(t) <= PARSER_STACK_SIZE
  }

  lemma StartDrivable<V(!new)>(o: Arith<V>, toks: seq<Token<V>>, t: Tree<V>)
    requires Derives(t) && Root(t) == Expr && Yield(t) == toks && Sem(o, t).Some?
    ensures Drivable(o, toks, Start(o, toks), t) && Start(o, toks).at == 0 && |Start(o, toks).stack| == 1
  {
    hide Sem, Yield, Derives, Root;
    StartSafe(o, toks);
  }

  /** An expression that fits is accepted, and its value returned; one that does not fit is refused. */
  lemma ExpressionDecides<V(!new)>(o: Arith<V>, toks: seq<Token<V>>, t: Tree<V>)
    requires Derives(t) && Root(t) == Expr && Yield(t) == toks && Sem(o, t).Some?
    ensures Safe(toks, Start(o, toks))
    ensures var r := Run(o, toks, Start(o, toks));
      if 1 + Need(t) <= PARSER_STACK_SIZE
      then r.status == Accepted && |r.stack| == 2 && Sem(o, t) == Some(r.stack[1].x)
      else r.status == Failed
  {
    hide Sem, Yield, Derives, Need, Run, Drivable, Linked;
    StartSafe(o, toks);
    StartDrivable(o, toks, t);
    var c := Start(o, toks);
    var c' := Drive(o, toks, c, t);
    if 1 + Need(t) <= PARSER_STACK_SIZE {
      assert Stands(o, c'.stack[|c.stack| + 0], [t][0]);
      YieldsOne(t);
      assert ActionFor(Top(c'.stack), Look(toks, c'.at)) == Accept;
      AcceptRuns(o, toks, c');
    }
  }

  lemma AcceptRuns<V(!new)>(o: Arith<V>, toks: seq<Token<V>>, c: Config<V>)
    requires Safe(toks, c) && c.status == Running && ActionFor(Top(c.stack), Look(toks, c.at)) == Accept
    ensures Run(o, toks, c) == c.(status := Accepted)
  {
    hide ActionFor, Linked, Loaded;
  }

  /** The parser accepts exactly the token sequences some fitting expression spells, and the
      value it returns is the value of every expression that spells them. */
  lemma AcceptsIff<V(!new)>(o: Arith<V>, toks: seq<Token<V>>)
    ensures Safe(toks, Start(o, toks))
    ensures Run(o, toks, Start(o, toks)).status == Accepted <==> exists t :: Fits(o, toks, t)
    ensures Run(o, toks, Start(o, toks)).status == Accepted ==>
      (Run(o, toks, Start(o, toks)).formula <==> exists i :: 0 <= i < |toks| && toks[i].Cell?)
    ensures forall t :: Fits(o, toks, t) ==>
      |Run(o, toks, Start(o, toks)).stack| == 2 && Sem(o, t) == Some(Run(o, toks, Start(o, toks)).stack[1].x)
  {
    hide Run, Sem, Yield, Derives, Need, Start, Safe;
    StartSafe(o, toks);
    forall t | Fits(o, toks, t)
      ensures Run(o, toks, Start(o, toks)).status == Accepted && |Run(o, toks, Start(o, toks)).stack| == 2
      ensures Sem(o, t) == Some(Run(o, toks, Start(o, toks)).stack[1].x)
    {
      ExpressionDecides(o, toks, t);
    }
    if Run(o, toks, Start(o, toks)).status == Accepted {
      StartSpells(o, toks);
      var t := RunSound(o, toks, Start(o, toks), []);
      ExpressionDecides(o, toks, t);
      assert Fits(o, toks, t);
    }
  }

  lemma StartSpells<V(!new)>(o: Arith<V>, toks: seq<Token<V>>)
    ensures Spells(o, toks, Start(o, toks), []) && Start(o, toks).status == Running
  {
    StartSafe(o, toks);
    assert toks[..0] == [];
  }
}
