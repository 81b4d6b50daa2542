/** The parser as MicroCalc writes it: a token stack in a fixed array, and globals that the
    loop of `parse` updates. */
module McCalc {
  import opened Outcomes
  import opened McGrammar
  import opened McAutomaton
  import opened McParser
  import opened McSoundness
  import opened McCompleteness

  datatype Attribute = TEXT | VALUE | FORMULA

  class Parser<V(!new)> {
    const o: Arith<V>
    const stack: array<Rec<V>>
    var stacktop: int
    var curtoken: Rec<V>
    var tokentype: Symbol
    var error: bool
    var isformula: bool
    var text: seq<Token<V>>
    var input: nat

    ghost predicate Valid() reads this, stack {
      stack.Length == PARSER_STACK_SIZE && -1 <= stacktop < PARSER_STACK_SIZE
    }

    /** The parser's state as a configuration of the automaton. */
    ghost function State(): Config<V>
      requires Valid() && input >= 1
      reads this, stack
    {
      Config(stack[..stacktop + 1], curtoken.x, input - 1, isformula, if error then Failed else Running)
    }

    constructor (o: Arith<V>)
      ensures Valid() && this.o == o && fresh(stack)
    {
      this.o := o;
      var blank := Rec(0, Value(o.zero));
      stack := new Rec<V>[PARSER_STACK_SIZE](_ => blank);
      stacktop := -1;
      curtoken := blank;
      tokentype, error, isformula, text, input := EOLN, false, false, [], 0;
    }

    /** `nexttoken`, over tokens already scanned. */
    method NextToken() returns (k: Symbol)
      requires Valid()
      modifies `curtoken, `isformula, `input
      ensures Valid() && input == old(input) + 1 && k == Look(text, old(input)) && curtoken.state == old(curtoken.state)
      ensures old(input) < |text| && Carried(text[old(input)]).Some? ==>
        curtoken.x == Carried(text[old(input)]).value && isformula == (old(isformula) || text[old(input)].Cell?)
      ensures !(old(input) < |text| && Carried(text[old(input)]).Some?) ==>
        curtoken.x == old(curtoken.x) && isformula == old(isformula)
    {
      input := input + 1;
      if input - 1 >= |text| { return EOLN; }
      match text[input - 1] {
        case Num(v) => curtoken := curtoken.(x := Value(v));
        case Cell(r, c) =>
          curtoken := curtoken.(x := CellAt(r, c));
          isformula := true;
        case Func(f) => curtoken := curtoken.(x := Name(f));
        case _ =>
      }
      return Kind(text[input - 1]);
    }

    /** `push` */
    method Push(token: Rec<V>)
      requires Valid()
      modifies `stacktop, `error, stack
      ensures Valid()
      ensures old(stacktop) == PARSER_STACK_SIZE - 1 ==>
        error && stacktop == old(stacktop) && stack[..] == old(stack[..])
      ensures old(stacktop) < PARSER_STACK_SIZE - 1 ==>
        error == old(error) && stacktop == old(stacktop) + 1 &&
          stack[..stacktop + 1] == old(stack[..stacktop + 1]) + [token]
    {
      if stacktop == PARSER_STACK_SIZE - 1 {
        error := true;
      } else {
        stacktop := stacktop + 1;
        stack[stacktop] := token;
      }
    }

    /** `pop`: the caller knows the stack is not empty. */
    method Pop() returns (token: Rec<V>)
      requires Valid() && stacktop >= 0
      modifies `stacktop
      ensures Valid() && stacktop == old(stacktop) - 1 && token == stack[old(stacktop)]
      ensures stack[..stacktop + 1] == old(stack[..stacktop])
    {
      token := stack[stacktop];
      stacktop := stacktop - 1;
    }

    /** `shift` */
    method Shift(state: nat)
      requires Valid() && input >= 1
      modifies `stacktop, `curtoken, `tokentype, `error, `isformula, `input, stack
      ensures Valid() && input >= 1 && State() == ShiftTo(text, old(State()), state)
      ensures tokentype == Look(text, input - 1)
    {
      curtoken := curtoken.(state := state);
      Push(curtoken);
      tokentype := NextToken();
    }

    /** Reduction 11 along a row. */
    method SumAlongRow(row: int, from: int, to: int) returns (sum: V)
      ensures sum == SumRow(o, o.zero, row, from, to)
    {
      sum := o.zero;
      var counter := from;
      while counter <= to
        invariant SumRow(o, sum, row, counter, to) == SumRow(o, o.zero, row, from, to)
      {
        sum := o.add(sum, o.cell(counter, row));
        counter := counter + 1;
      }
    }

    /** Reduction 11 down a column. */
    method SumDownColumn(col: int, from: int, to: int) returns (sum: V)
      ensures sum == SumCol(o, o.zero, col, from, to)
    {
      sum := o.zero;
      var counter := from;
      while counter <= to
        invariant SumCol(o, sum, col, counter, to) == SumCol(o, o.zero, col, from, to)
      {
        sum := o.add(sum, o.cell(col, counter));
        counter := counter + 1;
      }
    }

    /** The value of a range, and the error flag for one that is bent or backwards. */
    method SumRange(last: Rec<V>, first: Rec<V>) returns (sum: V, bad: bool)
      requires last.x.CellAt? && first.x.CellAt?
      ensures bad == !RangeOk(first.x.row, first.x.col, last.x.row, last.x.col)
      ensures sum == if bad then o.zero else RangeSum(o, first.x.row, first.x.col, last.x.row, last.x.col)
      ensures !bad ==> sum == Total(o, RangeCells(first.x.row, first.x.col, last.x.row, last.x.col))
    {
      if RangeOk(first.x.row, first.x.col, last.x.row, last.x.col) {
        RangeIsTotal(o, first.x.row, first.x.col, last.x.row, last.x.col);
      }
      sum, bad := o.zero, false;
      if last.x.row == first.x.row {
        if last.x.col < first.x.col { bad := true; }
        else { sum := SumAlongRow(last.x.row, first.x.col, last.x.col); }
      } else if last.x.col == first.x.col {
        if last.x.row < first.x.row { bad := true; }
        else { sum := SumDownColumn(last.x.col, first.x.row, last.x.row); }
      } else {
        bad := true;
      }
    }

    /** The reductions that pop a left operand, an operator and a right operand. */
    method ComputeBinary(p: nat)
      requires Valid() && p in {1, 2, 4, 5, 7, 11} && 3 <= stacktop
      requires AllFit(Rhs(p), [stack[stacktop - 2].x, stack[stacktop - 1].x, stack[stacktop].x])
      modifies `stacktop, `curtoken, `error
      ensures Valid() && stacktop == old(stacktop) - 3
      ensures var r := Reduced(o, p, old([stack[stacktop - 2].x, stack[stacktop - 1].x, stack[stacktop].x]));
        curtoken.x == r.0 && error == (old(error) || r.1)
    {
      ghost var xs := [stack[stacktop - 2].x, stack[stacktop - 1].x, stack[stacktop].x];
      var token1 := Pop();
      var _ := Pop();
      var token2 := Pop();
      assert token1.x == xs[2] && token2.x == xs[0];
      if p == 11 {
        var sum, bad := SumRange(token1, token2);
        if bad { error := true; }
        curtoken := curtoken.(x := Value(sum));
      } else {
        var a, b := token1.x.v, token2.x.v;
        var v := if p == 1 then o.add(a, b) else if p == 2 then o.sub(b, a) else if p == 4 then o.mul(a, b)
                 else if p == 5 then (if o.isZero(a) then o.huge else o.quot(b, a)) else o.pow(b, a);
        curtoken := curtoken.(x := Value(v));
      }
    }

    /** Reduction 16, a function call, and 14, a bracketed expression. */
    method ComputeBracket(p: nat)
      requires Valid() && (p == 14 || p == 16) && |Rhs(p)| <= stacktop && stack[stacktop - 1].x.Value?
      requires p == 16 ==> stack[stacktop - 3].x.Name?
      modifies `stacktop, `curtoken
      ensures Valid() && stacktop == old(stacktop) - |Rhs(p)|
      ensures curtoken.x == if p == 14 then old(stack[stacktop - 1].x)
        else Value(o.apply(old(stack[stacktop - 3].x.name), old(stack[stacktop - 1].x.v)))
    {
      var _ := Pop();
      curtoken := Pop();
      var _ := Pop();
      if p == 16 {
        var token1 := Pop();
        curtoken := curtoken.(x := Value(o.apply(token1.x.name, curtoken.x.v)));
      }
    }

    /** The remaining reductions: a minus sign, a cell, and the one-symbol ones. */
    method ComputeSimple(p: nat)
      requires Valid() && p in {3, 6, 8, 9, 10, 12, 13, 15} && |Rhs(p)| <= stacktop
      requires if p == 13 then stack[stacktop].x.CellAt? else stack[stacktop].x.Value?
      modifies `stacktop, `curtoken
      ensures Valid() && stacktop == old(stacktop) - |Rhs(p)|
      ensures curtoken.x == if p == 9 then Value(o.neg(old(stack[stacktop].x.v)))
        else if p == 13 then Value(o.cell(old(stack[stacktop].x.col), old(stack[stacktop].x.row)))
        else old(stack[stacktop].x)
    {
      if p == 9 {
        var token1 := Pop();
        var _ := Pop();
        curtoken := curtoken.(x := Value(o.neg(token1.x.v)));
      } else {
        curtoken := Pop();
        if p == 13 { curtoken := curtoken.(x := Value(o.cell(curtoken.x.col, curtoken.x.row))); }
      }
    }

    /** The pops and the arithmetic of `reduce`. */
    method Compute(p: nat)
      requires Valid() && Production(p) && |Rhs(p)| <= stacktop
      requires AllFit(Rhs(p), Payloads(stack[..stacktop + 1], |Rhs(p)|))
      modifies `stacktop, `curtoken, `error
      ensures Valid() && stacktop == old(stacktop) - |Rhs(p)|
      ensures curtoken.x == Reduced(o, p, old(Payloads(stack[..stacktop + 1], |Rhs(p)|))).0
      ensures error == (old(error) || Reduced(o, p, old(Payloads(stack[..stacktop + 1], |Rhs(p)|))).1)
    {
      ghost var xs := Payloads(stack[..stacktop + 1], |Rhs(p)|);
      assert xs[|Rhs(p)| - 1] == stack[stacktop].x;
      if p in {1, 2, 4, 5, 7, 11} {
        assert xs == [stack[stacktop - 2].x, stack[stacktop - 1].x, stack[stacktop].x];
        hide Reduced;
        ComputeBinary(p);
      } else if p == 14 || p == 16 {
        assert xs[|Rhs(p)| - 2] == stack[stacktop - 1].x && xs[0] == stack[stacktop + 1 - |Rhs(p)|].x;
        ComputeBracket(p);
      } else {
        ComputeSimple(p);
      }
    }

    /** `reduce` */
    method Reduce(p: nat)
      requires Valid() && input >= 1 && Linked(State().stack)
      requires ActionFor(Top(State().stack), tokentype) == McAutomaton.Reduce(p)
      modifies `stacktop, `curtoken, `error, stack
      ensures Valid() && State() == ReduceBy(o, old(State()), tokentype)
    {
      hide ActionFor, Goto, Rhs, Reduced, Edge, Accessing, PayloadFits;
      ghost var c := State();
      HandleFits(c.stack, tokentype);
      RhsSize(p);
      Compute(p);
      assert stack[..stacktop + 1] == c.stack[..|c.stack| - |Rhs(p)|];
      curtoken := curtoken.(state := Goto(p, stack[stacktop].state));
      Push(curtoken);
    }

    /** One turn of the loop: the switch on the top state. */
    method Turn() returns (accepted: bool)
      requires Valid() && input >= 1 && tokentype == Look(text, input - 1) && Linked(State().stack) && !error
      modifies `stacktop, `curtoken, `tokentype, `error, `isformula, `input, stack
      ensures Valid() && input >= 1 && tokentype == Look(text, input - 1)
      ensures Step(o, text, old(State())) == if accepted then State().(status := Accepted) else State()
      ensures accepted ==> !error
    {
      hide ActionFor, Goto, Rhs, Reduced, Edge, Accessing, PayloadFits, ReduceBy;
      accepted := false;
      assert Top(State().stack) == stack[stacktop].state;
      match ActionFor(stack[stacktop].state, tokentype) {
        case Shift(t) => Shift(t);
        case Reduce(p) => Reduce(p);
        case Accept => accepted := true;
        case Error => error := true;
      }
    }

    /** The assignments before the loop. */
    method Begin(s: seq<Token<V>>)
      requires Valid()
      modifies this, stack
      ensures Valid() && input >= 1 && text == s && tokentype == Look(s, input - 1) && !error
      ensures State() == Start(o, s)
    {
      hide ActionFor, Goto, Rhs, Reduced, Edge, Accessing, PayloadFits, Step, Run, Linked, Rank;
      error, isformula, text, input, stacktop := false, false, s, 0, -1;
      curtoken := Rec(0, Value(o.zero));
      Push(curtoken);
      tokentype := NextToken();
    }

    /** The do-while loop. */
    method Loop() returns (accepted: bool)
      requires Valid() && input >= 1 && tokentype == Look(text, input - 1) && !error && Safe(text, State())
      modifies `stacktop, `curtoken, `tokentype, `error, `isformula, `input, stack
      ensures Valid() && input >= 1 && accepted == !error
      ensures Run(o, text, old(State())) == State().(status := if accepted then Accepted else Failed)
    {
      hide ActionFor, Goto, Rhs, Reduced, Edge, Accessing, PayloadFits, Step, Run, Loaded, CellRead, Linked, Rank;
      accepted := false;
      ghost var start := State();
      while !accepted && !error
        invariant Valid() && input >= 1 && tokentype == Look(text, input - 1) && !(accepted && error)
        invariant Safe(text, After(accepted)) && Run(o, text, start) == Run(o, text, After(accepted))
        decreases !accepted && !error, if input - 1 <= |text| then |text| - (input - 1) else 0, stacktop, RankNow()
      {
        ghost var c := State();
        LinkedSize(c.stack);
        RunStep(o, text, c);
        if Step(o, text, c).status == Running { StepDecreases(o, text, c); }
        accepted := Turn();
        LinkedSize(State().stack);
      }
      RunEnds(o, text, After(accepted));
    }

    ghost function After(accepted: bool): Config<V>
      requires Valid() && input >= 1
      reads this, stack
    {
      if accepted then State().(status := Accepted) else State()
    }

    ghost function RankNow(): nat
      requires Valid()
      reads this, stack
    {
      if stacktop >= 0 then Rank(stack[stacktop].state) else 0
    }

    /** `parse`: text when the loop ends in an error, otherwise the value of the expression,
        a formula if it mentions a cell. */
    method Parse(s: seq<Token<V>>) returns (att: Attribute, value: V)
      requires Valid()
      modifies this, stack
      ensures Valid()
      ensures att == TEXT <==> !exists t :: Fits(o, s, t)
      ensures att == TEXT ==> value == o.zero
      ensures forall t :: Fits(o, s, t) ==> Sem(o, t) == Some(Value(value))
      ensures att == FORMULA <==> att != TEXT && exists i :: 0 <= i < |s| && s[i].Cell?
    {
      hide Fits, Run, Safe, Start, Sem;
      AcceptsIff(o, s);
      StartSafe(o, s);
      Begin(s);
      var accepted := Loop();
      if error { return TEXT, o.zero; }
      StartSpells(o, s);
      ghost var t := RunSound(o, s, Start(o, s), []);
      return if isformula then FORMULA else VALUE, stack[stacktop].x.v;
    }
  }

  lemma LinkedSize<V>(stack: seq<Rec<V>>)
    requires Linked(stack)
    ensures 1 <= |stack| <= PARSER_STACK_SIZE
  {
  }

  lemma RunEnds<V>(o: Arith<V>, toks: seq<Token<V>>, c: Config<V>)
    requires Safe(toks, c) && c.status != Running
    ensures Run(o, toks, c) == c
  {
    hide Safe;
  }
}
