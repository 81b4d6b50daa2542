/** The loop of `parse`: it is memory-safe, it terminates, and whatever it accepts is an
    expression with the value it returns. */
module McParser {
  import opened McGrammar
  import opened McAutomaton

  /** States that may shift a token carrying a payload. */
  predicate Expecting(s: nat) {
    s in OPENERS || s == 5 || s == 18
  }

  /** `curtoken` holds the payload of the lookahead whenever it could still be shifted: a
      reduction may overwrite it, but then it is never shifted. */
  ghost predicate Loaded<V>(toks: seq<Token<V>>, c: Config<V>)
    requires |c.stack| >= 1
  {
    Expecting(Top(c.stack)) && c.at < |toks| && Carried(toks[c.at]).Some? ==> c.cur == Carried(toks[c.at]).value
  }

  /** A cell is among the tokens up to and including the one at `at`. */
  predicate CellRead<V>(toks: seq<Token<V>>, at: nat) {
    exists i :: 0 <= i <= at && i < |toks| && toks[i].Cell?
  }

  ghost predicate Safe<V>(toks: seq<Token<V>>, c: Config<V>) {
    && Linked(c.stack)
    && (c.status == Running ==> c.at <= |toks| && Loaded(toks, c))
    && (c.formula <==> CellRead(toks, c.at))
  }

  lemma ShiftEdge(s: nat, k: Symbol)
    requires ActionFor(s, k).Shift?
    ensures var t := ActionFor(s, k).state;
      && k !in {EOLN, BAD} && !Nonterminal(k) && Accessing(t) == k && Edge(s, t)
      && (k in {NUM, CELL, FUNC} ==> Expecting(s))
  {
  }

  lemma GotoEdge(p: nat, s: nat)
    requires Production(p) && Goto(p, s) != 30
    ensures Accessing(Goto(p, s)) == Lhs(p) && Edge(s, Goto(p, s)) && !Expecting(Goto(p, s))
  {
    hide ActionFor;
  }

  lemma ReducedFits<V>(o: Arith<V>, p: nat, xs: seq<Payload<V>>)
    requires Production(p) && AllFit(Rhs(p), xs)
    ensures PayloadFits(Lhs(p), Reduced(o, p, xs).0)
  {
  }

  /** Everything a turn of the loop may touch is in range and of the right union member. */
  lemma StepSafe<V>(o: Arith<V>, toks: seq<Token<V>>, c: Config<V>)
    requires Safe(toks, c) && c.status == Running
    ensures Safe(toks, Step(o, toks, c))
  {
    hide ActionFor, Edge, Accessing, Goto, Rhs, Reduced, ReduceBy, PayloadFits, Expecting;
    var k := Look(toks, c.at);
    match ActionFor(Top(c.stack), k)
    case Shift(t) => ShiftLinked(toks, c, k);
    case Reduce(p) => ReduceLinked(o, toks, c, k);
    case Accept =>
    case Error =>
  }

  lemma ShiftLinked<V>(toks: seq<Token<V>>, c: Config<V>, k: Symbol)
    requires Safe(toks, c) && c.status == Running && k == Look(toks, c.at) && ActionFor(Top(c.stack), k).Shift?
    ensures Safe(toks, ShiftTo(toks, c, ActionFor(Top(c.stack), k).state)) && c.at < |toks|
    ensures PayloadFits(k, c.cur)
  {
    hide ActionFor, Edge, Accessing, Expecting;
    CellReadNext(toks, c.at);
    ShiftEdge(Top(c.stack), k);
    KindCarries(toks[c.at]);
  }

  lemma CellReadNext<V>(toks: seq<Token<V>>, at: nat)
    ensures CellRead(toks, at + 1) <==> CellRead(toks, at) || (at + 1 < |toks| && toks[at + 1].Cell?)
  {
    if CellRead(toks, at + 1) {
      var i :| 0 <= i <= at + 1 && i < |toks| && toks[i].Cell?;
      assert i <= at || i == at + 1;
    }
  }

  lemma KindCarries<V>(t: Token<V>)
    ensures Kind(t) in {NUM, CELL, FUNC} <==> Carried(t).Some?
    ensures Carried(t).Some? ==> PayloadFits(Kind(t), Carried(t).value)
    ensures !Nonterminal(Kind(t)) && Kind(t) != EOLN
  {
  }

  lemma ReduceLinked<V>(o: Arith<V>, toks: seq<Token<V>>, c: Config<V>, k: Symbol)
    requires Linked(c.stack) && ActionFor(Top(c.stack), k).Reduce?
    ensures var p := ActionFor(Top(c.stack), k).prod; var c' := ReduceBy(o, c, k);
      && Production(p) && |Rhs(p)| < |c.stack| && AllFit(Rhs(p), Payloads(c.stack, |Rhs(p)|))
      && Linked(c'.stack) && !Expecting(Top(c'.stack)) && c'.at == c.at && c'.formula == c.formula
      && c'.stack == c.stack[..|c.stack| - |Rhs(p)|] +
         [Rec(Goto(p, c.stack[|c.stack| - 1 - |Rhs(p)|].state), Reduced(o, p, Payloads(c.stack, |Rhs(p)|)).0)]
      && c'.status == if Reduced(o, p, Payloads(c.stack, |Rhs(p)|)).1 then Failed else c.status
  {
    hide ActionFor, Edge, Accessing, Goto, Rhs, Reduced, PayloadFits, Expecting, Lhs;
    HandleOnTop(c.stack, k);
    HandleFits(c.stack, k);
    var p := ActionFor(Top(c.stack), k).prod;
    var n := |c.stack| - |Rhs(p)|;
    RhsSize(p);
    GotoEdge(p, c.stack[n - 1].state);
    ReducedFits(o, p, Payloads(c.stack, |Rhs(p)|));
    var c' := ReduceBy(o, c, k);
    forall i | 1 <= i < |c'.stack|
      ensures Edge(c'.stack[i - 1].state, c'.stack[i].state) && PayloadFits(Accessing(c'.stack[i].state), c'.stack[i].x)
    {
      if i < n { assert c'.stack[i] == c.stack[i] && c'.stack[i - 1] == c.stack[i - 1]; }
    }
  }

  lemma RhsSize(p: nat)
    requires Production(p)
    ensures 1 <= |Rhs(p)| <= 4
  {
  }

  lemma StartSafe<V>(o: Arith<V>, toks: seq<Token<V>>)
    ensures Safe(toks, Start(o, toks)) && Start(o, toks).status == Running
  {
  }

  // ---- Termination ----

  /** How many more one-symbol reductions can follow without a shift. */
  function Rank(s: nat): nat {
    if s in {7, 10} then 6 else if s == 8 then 5 else if s in {6, 17} then 4 else if s == 4 then 3
    else if s in {3, 23, 24, 25} then 2 else if s in {2, 21, 22} then 1 else 0
  }

  lemma UnitRank(s: nat, t: nat)
    requires t in {2, 3, 4, 6, 7, 8, 10} && s in Sources(t)
    ensures Rank(Goto(Completes(t), s)) < Rank(t)
  {
  }

  lemma UnitState(t: nat)
    requires Completes(t) != 0 && |Rhs(Completes(t))| == 1
    ensures t in {2, 3, 4, 6, 7, 8, 10}
  {
  }

  /** Each turn reads a token, or shortens the stack, or lowers the rank of its top. */
  lemma StepDecreases<V>(o: Arith<V>, toks: seq<Token<V>>, c: Config<V>)
    requires Safe(toks, c) && c.status == Running && Step(o, toks, c).status == Running
    ensures var c' := Step(o, toks, c);
      || c.at < c'.at <= |toks|
      || (c'.at == c.at && |c'.stack| < |c.stack|)
      || (c'.at == c.at && |c'.stack| == |c.stack| && Rank(Top(c'.stack)) < Rank(Top(c.stack)))
  {
    StepSafe(o, toks, c);
    var k := Look(toks, c.at);
    var s := Top(c.stack);
    if ActionFor(s, k).Reduce? {
      hide ActionFor, Edge, Accessing, Goto, Rhs, Reduced, Rank;
      ReduceLinked(o, toks, c, k);
      ReducesWhatItCompletes(s, k);
      RhsSize(Completes(s));
      if |Rhs(Completes(s))| == 1 {
        UnitState(s);
        LinkedSources(c.stack, |c.stack| - 1);
        UnitRank(c.stack[|c.stack| - 2].state, s);
      }
    }
  }

  /** The do-while loop of `parse`, run to its end: every token sequence ends in accept or error. */
  function Run<V>(o: Arith<V>, toks: seq<Token<V>>, c: Config<V>): (r: Config<V>)
    requires Safe(toks, c)
    ensures r.status != Running && Linked(r.stack)
    decreases c.status == Running, if c.at <= |toks| then |toks| - c.at else 0, |c.stack|, Rank(Top(c.stack))
  {
    if c.status != Running then c
    else
      StepSafe(o, toks, c);
      var c' := Step(o, toks, c);
      if c'.status != Running then c'
      else
        StepDecreases(o, toks, c);
        Run(o, toks, c')
  }
}
