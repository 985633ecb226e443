/** Plan extraction and plan execution of the DeltaBlue constraint solver, on graphs of equality, stay and edit
    constraints. */
module DeltaBlue {

  datatype Direction = NoDirection | Forward | Backward

  /** The kinds of constraint, with the variables they are on. */
  datatype Kind = StayOn(v: Variable) | EditOn(v: Variable) | Equality(v1: Variable, v2: Variable)

  class Variable {
    var value: int
    var constraints: seq<Constraint>
    var determinedBy: Constraint?
    var mark: int
    var stay: bool

    constructor (value: int)
      ensures this.value == value && constraints == [] && determinedBy == null && mark == 0 && stay
    {
      this.value, constraints, determinedBy, mark, stay := value, [], null, 0, true;
    }
  }

  class Constraint {
    const kind: Kind
    /** Whether a stay or edit constraint holds now. */
    var satisfied: bool
    /** Which way an equality is kept now. */
    var direction: Direction

    constructor (kind: Kind)
      ensures this.kind == kind && !satisfied && direction == NoDirection
    {
      this.kind, satisfied, direction := kind, false, NoDirection;
    }

    predicate IsInput() {
      kind.EditOn?
    }

    predicate IsSatisfied()
      reads this`satisfied, this`direction
    {
      if kind.Equality? then direction != NoDirection else satisfied
    }

    function Output(): Variable
      reads this`direction
    {
      if kind.Equality? then (if direction == Forward then kind.v2 else kind.v1) else kind.v
    }

    function Input(): Variable
      requires kind.Equality?
      reads this`direction
    {
      if direction == Forward then kind.v1 else kind.v2
    }

    predicate InputsKnown(mark: int)
      reads this`direction, if kind.Equality? then {Input()} else {}
    {
      kind.Equality? ==> Input().mark == mark || Input().stay || Input().determinedBy == null
    }

    /** An equality hands its input's value to its output; the other kinds do nothing. */
    method Execute()
      modifies Output()`value
      ensures kind.Equality? && direction == Forward ==> kind.v2.value == old(kind.v1.value)
      ensures kind.Equality? && direction != Forward ==> kind.v1.value == old(kind.v2.value)
      ensures !kind.Equality? ==> kind.v.value == old(kind.v.value)
    {
      if kind.Equality? {
        Output().value := Input().value;
      }
    }
  }

  lemma Reads(c: Constraint)
    ensures c.IsInput() <==> c.kind.EditOn?
    ensures c.kind.Equality? ==> (c.IsSatisfied() <==> c.direction != NoDirection)
    ensures c.kind.Equality? ==>
      c.Output() == (if c.direction == Forward then c.kind.v2 else c.kind.v1)
      && c.Input() == if c.direction == Forward then c.kind.v1 else c.kind.v2
    ensures !c.kind.Equality? ==> c.Output() == c.kind.v
  {}

  class OrderedCollection {
    var elms: seq<Constraint>

    constructor ()
      ensures elms == []
    {
      elms := [];
    }

    method Add(c: Constraint)
      modifies this`elms
      ensures elms == old(elms) + [c]
    {
      elms := elms + [c];
    }

    /** Takes the last element, whatever the name says. */
    method RemoveFirst() returns (c: Constraint)
      requires elms != []
      modifies this`elms
      ensures old(elms) == elms + [c]
    {
      c := elms[|elms| - 1];
      elms := elms[..|elms| - 1];
    }
  }

  /** Two elements: the one that came last is removed first. */
  method LastComesFirst(a: Constraint, b: Constraint) returns (first: Constraint, rest: seq<Constraint>)
    ensures first == b && rest == [a]
  {
    var c := new OrderedCollection();
    c.Add(a);
    c.Add(b);
    assert c.elms == [a, b];
    first := c.RemoveFirst();
    rest := c.elms;
    assert (rest + [first])[|rest|] == first && (rest + [first])[0] == a;
  }

  // ---- the constraint graph

  /** The graph as a value: the variables and constraints, which constraints are satisfied, what they lead from
      and to, which constraints are on a variable, who determines it, and whether it is constant.  Only
      satisfied equalities have an input. */
  datatype Graph = Graph(
    vars: set<Variable>, all: set<Constraint>, satisfied: set<Constraint>, output: map<Constraint, Variable>,
    input: map<Constraint, Variable>, constraints: map<Variable, seq<Constraint>>,
    determinedBy: map<Variable, Constraint?>, stay: set<Variable>)

  /** Every satisfied constraint determines its output, alone; an equality is listed at its input; and a
      satisfied constraint is listed at no variable but its output and its input. */
  ghost predicate WellFormed(g: Graph) {
    && g.satisfied <= g.all && g.output.Keys == g.satisfied && g.input.Keys <= g.satisfied
    && g.constraints.Keys == g.vars && g.determinedBy.Keys == g.vars
    && (forall c :: c in g.satisfied ==> g.output[c] in g.vars && g.determinedBy[g.output[c]] == c)
    && (forall c :: c in g.input ==> g.input[c] in g.vars && c in g.constraints[g.input[c]])
    && (forall v, c :: v in g.vars && c in g.constraints[v] ==> c in g.all)
    && (forall v, c :: v in g.vars && c in g.constraints[v] && c in g.satisfied ==>
          g.output[c] == v || (c in g.input && g.input[c] == v))
  }

  /** The objects are as the graph says. */
  ghost predicate Holds(g: Graph)
    reads g.vars`constraints, g.vars`determinedBy, g.vars`stay, g.all`satisfied, g.all`direction
  {
    && WellFormed(g)
    && (forall v :: v in g.vars ==>
          v.constraints == g.constraints[v] && v.determinedBy == g.determinedBy[v] && (v.stay <==> v in g.stay))
    && forall c :: c in g.all ==> Shown(g, c)
  }

  /** A satisfied equality leads from its first variable to its second, or back; a satisfied constraint of another kind
      only leads to its variable. */
  ghost predicate Shown(g: Graph, c: Constraint)
    reads c`satisfied, c`direction
  {
    match c.kind
    case Equality(v1, v2) =>
      match c.direction {
        case NoDirection => c !in g.satisfied && c !in g.input
        case Forward => c in g.satisfied && c in g.output && g.output[c] == v2 && c in g.input && g.input[c] == v1
        case Backward => c in g.satisfied && c in g.output && g.output[c] == v1 && c in g.input && g.input[c] == v2
      }
    case StayOn(v) => c !in g.input && if c.satisfied then c in g.satisfied && c in g.output && g.output[c] == v else c !in g.satisfied
    case EditOn(v) => c !in g.input && if c.satisfied then c in g.satisfied && c in g.output && g.output[c] == v else c !in g.satisfied
  }

  /** So the graph says what the constraints say of themselves. */
  lemma ShownIs(g: Graph)
    requires Holds(g)
    ensures forall c :: c in g.all ==> (c.IsSatisfied() <==> c in g.satisfied)
    ensures forall c :: c in g.satisfied ==> c.Output() == g.output[c] && (c.kind.Equality? <==> c in g.input)
    ensures forall c :: c in g.input ==> c.kind.Equality? && c.Input() == g.input[c]
  {
    assert forall c :: c in g.satisfied ==> c in g.all && Shown(g, c);
    assert forall c :: c in g.input ==> c in g.all && Shown(g, c);
  }

  // ---- what a plan is

  /** The variables that these constraints determine. */
  ghost function Outputs(g: Graph, p: seq<Constraint>): set<Variable> {
    set c | c in p && c in g.output :: g.output[c]
  }

  /** A variable that needs no constraint to be computed. */
  ghost predicate Constant(g: Graph, v: Variable) {
    v in g.stay || (v in g.determinedBy && g.determinedBy[v] == null)
  }

  ghost predicate AllSatisfied(g: Graph, p: seq<Constraint>) {
    forall c :: c in p ==> c in g.satisfied
  }

  /** No variable is determined twice. */
  ghost predicate Once(g: Graph, p: seq<Constraint>)
    requires WellFormed(g) && AllSatisfied(g, p)
  {
    forall i, j :: 0 <= i < j < |p| ==> g.output[p[i]] != g.output[p[j]]
  }

  /** What is planned at `j` is a source or fed by what is planned before; a source's input is fed so, or constant. */
  ghost predicate Fed(g: Graph, sources: seq<Constraint>, p: seq<Constraint>, j: nat)
    requires j < |p|
  {
    var c := p[j];
    if c in g.input then g.input[c] in Outputs(g, p[..j]) || (c in sources && Constant(g, g.input[c])) else c in sources
  }

  /** What is fed by the plan, and every source without input, is planned or still to be looked at. */
  ghost predicate Followed(g: Graph, sources: seq<Constraint>, p: seq<Constraint>, todo: seq<Constraint>) {
    && (forall c :: c in g.input && g.input[c] in Outputs(g, p) ==> c in p || c in todo)
    && (forall c :: c in sources && c !in g.input ==> c in p || c in todo)
  }

  ghost predicate Planning(g: Graph, sources: seq<Constraint>, p: seq<Constraint>, todo: seq<Constraint>)
    requires WellFormed(g)
  {
    && AllSatisfied(g, p) && Once(g, p) && (forall j :: 0 <= j < |p| ==> Fed(g, sources, p, j))
    && Followed(g, sources, p, todo)
    && (forall c :: c in todo ==> c in g.satisfied && (c in sources || (c in g.input && g.input[c] in Outputs(g, p))))
  }

  /** A plan for the sources: in order, no more than is needed, and no less. */
  ghost predicate PlanFor(g: Graph, sources: seq<Constraint>, p: seq<Constraint>)
    requires WellFormed(g)
  {
    Planning(g, sources, p, [])
  }

  /** Can `makePlan` take `c` now? */
  ghost predicate Eligible(g: Graph, p: seq<Constraint>, c: Constraint)
    requires WellFormed(g) && c in g.satisfied
  {
    && g.output[c] !in Outputs(g, p)
    && (c in g.input ==> g.input[c] in Outputs(g, p) || Constant(g, g.input[c]))
  }

  /** The satisfied constraints on a variable other than the one that determines it. */
  ghost function Consumers(g: Graph, v: Variable, cc: seq<Constraint>): seq<Constraint>
    requires v in g.determinedBy
  {
    if cc == [] then []
    else
      Consumers(g, v, cc[..|cc| - 1])
      + (if cc[|cc| - 1] != g.determinedBy[v] && cc[|cc| - 1] in g.satisfied then [cc[|cc| - 1]] else [])
  }

  lemma {:induction false} ConsumersAre(g: Graph, v: Variable, cc: seq<Constraint>)
    requires v in g.determinedBy
    ensures forall c :: c in Consumers(g, v, cc) ==> c in cc && c != g.determinedBy[v] && c in g.satisfied
    ensures forall c :: c in cc && c != g.determinedBy[v] && c in g.satisfied ==> c in Consumers(g, v, cc)
    decreases |cc|
  {
    if cc != [] {
      var front, z := cc[..|cc| - 1], cc[|cc| - 1];
      assert cc == front + [z];
      ConsumersAre(g, v, front);
    }
  }

  lemma OutputsMore(g: Graph, p: seq<Constraint>, c: Constraint)
    requires c in g.output
    ensures Outputs(g, p + [c]) == Outputs(g, p) + {g.output[c]}
  {
    assert forall d :: d in p + [c] <==> d in p || d == c;
    forall v | v in Outputs(g, p) + {g.output[c]}
      ensures v in Outputs(g, p + [c])
    {
      if v == g.output[c] {
        assert c in p + [c];
      } else {
        var d :| d in p && d in g.output && g.output[d] == v;
        assert d in p + [c];
      }
    }
  }

  /** A satisfied constraint whose output is determined by the plan is in the plan. */
  lemma Determined(g: Graph, p: seq<Constraint>, c: Constraint)
    requires WellFormed(g) && AllSatisfied(g, p) && c in g.satisfied && g.output[c] in Outputs(g, p)
    ensures c in p
  {
    var d :| d in p && d in g.output && g.output[d] == g.output[c];
  }

  /** A constraint that cannot be taken is dropped. */
  lemma Skip(g: Graph, sources: seq<Constraint>, p: seq<Constraint>, rest: seq<Constraint>, c: Constraint)
    requires WellFormed(g) && Planning(g, sources, p, rest + [c]) && c in g.satisfied && !Eligible(g, p, c)
    ensures Planning(g, sources, p, rest)
  {
    assert forall d :: d in rest + [c] <==> d in rest || d == c;
    if g.output[c] in Outputs(g, p) {
      Determined(g, p, c);
    }
    assert Followed(g, sources, p, rest);
  }

  lemma FedMore(g: Graph, sources: seq<Constraint>, p: seq<Constraint>, c: Constraint, j: nat)
    requires j <= |p|
    requires if j < |p| then Fed(g, sources, p, j)
      else if c in g.input then g.input[c] in Outputs(g, p) || (c in sources && Constant(g, g.input[c])) else c in sources
    ensures Fed(g, sources, p + [c], j)
  {
    assert (p + [c])[..j] == p[..j];
    assert p[..|p|] == p;
  }

  /** A constraint that can be taken is planned, and what it feeds is to be looked at. */
  lemma Take(g: Graph, sources: seq<Constraint>, p: seq<Constraint>, rest: seq<Constraint>, c: Constraint)
    requires WellFormed(g) && Planning(g, sources, p, rest + [c]) && c in g.satisfied && Eligible(g, p, c)
    ensures var v := g.output[c];
      v in g.constraints && Planning(g, sources, p + [c], rest + Consumers(g, v, g.constraints[v]))
    ensures Outputs(g, p + [c]) == Outputs(g, p) + {g.output[c]}
  {
    var v := g.output[c];
    var p', cc := p + [c], Consumers(g, v, g.constraints[v]);
    OutputsMore(g, p, c);
    ConsumersAre(g, v, g.constraints[v]);
    assert forall d :: d in p' <==> d in p || d == c;
    assert c in rest + [c];
    forall j | 0 <= j < |p'|
      ensures Fed(g, sources, p', j)
    {
      FedMore(g, sources, p, c, j);
    }
    forall j | 0 <= j < |p|
      ensures g.output[p[j]] != v
    {
      assert p[j] in p;
    }
    TakeFollowed(g, sources, p, rest, c);
    forall d | d in rest + cc
      ensures d in g.satisfied && (d in sources || (d in g.input && g.input[d] in Outputs(g, p')))
    {
      if d in rest {
        assert d in rest + [c];
      }
    }
  }

  lemma TakeFollowed(g: Graph, sources: seq<Constraint>, p: seq<Constraint>, rest: seq<Constraint>, c: Constraint)
    requires WellFormed(g) && Followed(g, sources, p, rest + [c]) && c in g.satisfied
    ensures var v := g.output[c];
      v in g.constraints && Followed(g, sources, p + [c], rest + Consumers(g, v, g.constraints[v]))
  {
    var v := g.output[c];
    var p', cc := p + [c], Consumers(g, v, g.constraints[v]);
    OutputsMore(g, p, c);
    ConsumersAre(g, v, g.constraints[v]);
    forall d | d in g.input && g.input[d] in Outputs(g, p')
      ensures d in p' || d in rest + cc
    {
      if g.input[d] == v {
        assert d == c ==> d in p';
      } else {
        assert d in p || d in rest + [c];
      }
    }
    forall d | d in sources && d !in g.input
      ensures d in p' || d in rest + cc
    {
      assert d in p || d in rest + [c];
    }
  }

  // ---- making a plan

  class Plan {
    const v: OrderedCollection

    constructor ()
      ensures fresh(v) && v.elms == []
    {
      v := new OrderedCollection();
    }

    method AddConstraint(c: Constraint)
      modifies v`elms
      ensures v.elms == old(v.elms) + [c]
    {
      v.Add(c);
    }

    /** Executes the planned constraints one after the other. */
    method Execute(ghost g: Graph, ghost values: map<Variable, int>)
      requires Holds(g) && AllSatisfied(g, v.elms) && Valued(g, values)
      modifies g.vars`value
      ensures Valued(g, ExecuteAll(g, v.elms, values))
    {
      hide *;
      ghost var p := v.elms;
      NothingRun(g, p, values);
      for i := 0 to |v.elms|
        invariant v.elms == p && Holds(g) && AllSatisfied(g, p[..i]) && WellFormed(g)
        invariant Valued(g, ExecuteAll(g, p[..i], values))
      {
        var c := v.elms[i];
        ghost var now := ExecuteAll(g, p[..i], values);
        RunMore(g, p, i, values);
        Runs(g, c, now);
        ValuedParts(g, now);
        Reads(c);
        c.Execute();
        ValuedIntro(g, ExecuteAll(g, p[..i + 1], values));
      }
      assert p[..|p|] == p;
    }
  }

  class Planner {
    var currentMark: int

    constructor ()
      ensures currentMark == 0
    {
      currentMark := 0;
    }

    method NewMark() returns (mark: int)
      modifies this`currentMark
      ensures mark == currentMark == old(currentMark) + 1
    {
      currentMark := currentMark + 1;
      mark := currentMark;
    }

    method AddConstraintsConsumingTo(v: Variable, coll: OrderedCollection, ghost g: Graph)
      requires Holds(g) && v in g.vars
      modifies coll`elms
      ensures v in g.constraints && coll.elms == old(coll.elms) + Consumers(g, v, g.constraints[v])
    {
      hide *;
      var determining := v.determinedBy;
      var cc := v.constraints;
      ghost var before := coll.elms;
      ConsumersNow(g, v);
      for i := 0 to |cc|
        invariant coll.elms == before + Consumers(g, v, cc[..i])
      {
        var c := cc[i];
        assert c in cc;
        ConsumersStep(g, v, cc, i);
        SatisfiedNow(g, c);
        if c != determining && c.IsSatisfied() {
          coll.Add(c);
        }
      }
      assert cc[..|cc|] == cc;
    }

    /** Plans a constraint that is not planned and whose inputs are known, and then looks at its consumers. */
    method Consider(c: Constraint, plan: Plan, todo: OrderedCollection, mark: int, ghost g: Graph, ghost s: seq<Constraint>)
      returns (taken: bool)
      requires Holds(g) && WellFormed(g) && plan.v != todo
      requires Planning(g, s, plan.v.elms, todo.elms + [c]) && Marked(g, plan.v.elms, mark)
      modifies plan.v`elms, todo`elms, g.vars`mark
      ensures Holds(g) && Planning(g, s, plan.v.elms, todo.elms) && Marked(g, plan.v.elms, mark)
      ensures if taken then
          c in g.satisfied && g.output[c] !in Outputs(g, old(plan.v.elms)) && plan.v.elms == old(plan.v.elms) + [c]
        else plan.v.elms == old(plan.v.elms) && todo.elms == old(todo.elms)
    {
      hide *;
      ghost var p, rest := plan.v.elms, todo.elms;
      CanTake(g, s, p, rest, c, mark);
      if c.Output().mark != mark && c.InputsKnown(mark) {
        Take(g, s, p, rest, c);
        ghost var was := map v | v in g.vars :: v.mark;
        MarkedAre(g, p, mark, was);
        plan.AddConstraint(c);
        c.Output().mark := mark;
        MarkedMore(g, p, c, mark, was);
        AddConstraintsConsumingTo(c.Output(), todo, g);
        taken := true;
      } else {
        Skip(g, s, p, rest, c);
        taken := false;
      }
    }

    method ConsiderAll(plan: Plan, todo: OrderedCollection, mark: int, ghost g: Graph, ghost s: seq<Constraint>)
      requires Holds(g) && WellFormed(g) && plan.v != todo
      requires Planning(g, s, plan.v.elms, todo.elms) && Marked(g, plan.v.elms, mark)
      modifies plan.v`elms, todo`elms, g.vars`mark
      ensures todo.elms == [] && PlanFor(g, s, plan.v.elms) && Marked(g, plan.v.elms, mark)
    {
      hide *;
      while |todo.elms| > 0
        invariant Holds(g) && Planning(g, s, plan.v.elms, todo.elms) && Marked(g, plan.v.elms, mark)
        decreases |g.vars - Outputs(g, plan.v.elms)|, |todo.elms|
      {
        ghost var p, before := plan.v.elms, todo.elms;
        var c := todo.RemoveFirst();
        assert before == todo.elms + [c];
        var taken := Consider(c, plan, todo, mark, g, s);
        if taken {
          FewerLeft(g, p, c);
        }
      }
      PlanDone(g, s, plan.v.elms, todo.elms);
    }

    /** Plans, from the sources on, every constraint whose input is known; `sources` is used up. */
    method MakePlan(sources: OrderedCollection, ghost g: Graph) returns (plan: Plan)
      requires Holds(g) && AllSatisfied(g, sources.elms)
      requires forall v :: v in g.vars ==> v.mark <= currentMark
      modifies this`currentMark, sources`elms, g.vars`mark
      ensures fresh(plan) && fresh(plan.v) && PlanFor(g, old(sources.elms), plan.v.elms) && sources.elms == []
      ensures forall v :: v in g.vars ==> v.mark <= currentMark
    {
      hide *;
      var mark := NewMark();
      plan := new Plan();
      var todo := sources;
      ghost var s := sources.elms;
      GraphWell(g);
      NothingPlanned(g, s);
      NoneMarked(g, mark);
      ConsiderAll(plan, todo, mark, g, s);
      MarkedParts(g, plan.v.elms, mark);
    }

    /** Plans from the edit constraints, among those given, that are satisfied. */
    method ExtractPlanFromConstraints(constraints: OrderedCollection, ghost g: Graph) returns (plan: Plan, ghost sources: seq<Constraint>)
      requires Holds(g) && forall c :: c in constraints.elms ==> c in g.all
      requires forall v :: v in g.vars ==> v.mark <= currentMark
      modifies this`currentMark, g.vars`mark
      ensures fresh(plan) && fresh(plan.v) && PlanFor(g, sources, plan.v.elms)
      ensures Sources(g, sources)
      ensures forall c :: c in sources <==> c in constraints.elms && c.kind.EditOn? && c in g.satisfied
      ensures forall v :: v in g.vars ==> v.mark <= currentMark
    {
      hide *;
      var coll := new OrderedCollection();
      for i := 0 to |constraints.elms|
        invariant fresh(coll) && constraints.elms == old(constraints.elms) && Holds(g)
        invariant forall v :: v in g.vars ==> v.mark <= currentMark
        invariant forall c :: c in coll.elms <==> c in constraints.elms[..i] && c.kind.EditOn? && c in g.satisfied
      {
        var c := constraints.elms[i];
        assert c in constraints.elms;
        SatisfiedNow(g, c);
        Reads(c);
        assert constraints.elms[..i + 1] == constraints.elms[..i] + [c];
        if c.IsInput() && c.IsSatisfied() {
          coll.Add(c);
        }
      }
      assert constraints.elms[..|constraints.elms|] == constraints.elms;
      sources := coll.elms;
      EditSources(g, sources);
      plan := MakePlan(coll, g);
    }
  }

  /** The marked variables are those that the plan determines. */
  ghost predicate Marked(g: Graph, p: seq<Constraint>, mark: int)
    reads g.vars`mark
  {
    forall v :: v in g.vars ==> v.mark <= mark && (v.mark == mark <==> v in Outputs(g, p))
  }

  lemma ConsumersNow(g: Graph, v: Variable)
    requires Holds(g) && v in g.vars
    ensures v in g.constraints && v in g.determinedBy && v.constraints == g.constraints[v] && v.determinedBy == g.determinedBy[v]
    ensures Consumers(g, v, v.constraints[..0]) == []
    ensures forall c :: c in v.constraints ==> c in g.all
  {}

  lemma ConsumersStep(g: Graph, v: Variable, cc: seq<Constraint>, i: nat)
    requires v in g.determinedBy && i < |cc|
    ensures Consumers(g, v, cc[..i + 1])
         == Consumers(g, v, cc[..i]) + if cc[i] != g.determinedBy[v] && cc[i] in g.satisfied then [cc[i]] else []
  {
    assert cc[..i + 1][..i] == cc[..i];
  }

  lemma SatisfiedNow(g: Graph, c: Constraint)
    requires Holds(g) && c in g.all
    ensures c.IsSatisfied() <==> c in g.satisfied
  {}

  lemma EditSources(g: Graph, sources: seq<Constraint>)
    requires Holds(g) && forall c :: c in sources ==> c.kind.EditOn? && c in g.satisfied
    ensures Sources(g, sources) && AllSatisfied(g, sources)
  {}

  lemma GraphWell(g: Graph)
    requires Holds(g)
    ensures WellFormed(g)
  {}

  lemma NoneMarked(g: Graph, mark: int)
    requires forall v :: v in g.vars ==> v.mark < mark
    ensures Marked(g, [], mark)
  {}

  lemma MarkedParts(g: Graph, p: seq<Constraint>, mark: int)
    requires Marked(g, p, mark)
    ensures forall v :: v in g.vars ==> v.mark <= mark
  {}

  lemma MarkedMore(g: Graph, p: seq<Constraint>, c: Constraint, mark: int, was: map<Variable, int>)
    requires WellFormed(g) && c in g.satisfied && was.Keys == g.vars && MarkedWere(g, p, mark, was)
    requires forall v :: v in g.vars ==> v.mark == if v == g.output[c] then mark else was[v]
    ensures Marked(g, p + [c], mark)
  {
    OutputsMore(g, p, c);
  }

  ghost predicate MarkedWere(g: Graph, p: seq<Constraint>, mark: int, was: map<Variable, int>) {
    was.Keys == g.vars && forall v :: v in g.vars ==> was[v] <= mark && (was[v] == mark <==> v in Outputs(g, p))
  }

  lemma MarkedAre(g: Graph, p: seq<Constraint>, mark: int, was: map<Variable, int>)
    requires Marked(g, p, mark) && was.Keys == g.vars && forall v :: v in g.vars ==> was[v] == v.mark
    ensures MarkedWere(g, p, mark, was)
  {}

  lemma PlanDone(g: Graph, s: seq<Constraint>, p: seq<Constraint>, todo: seq<Constraint>)
    requires WellFormed(g) && Planning(g, s, p, todo) && |todo| == 0
    ensures PlanFor(g, s, p) && todo == []
  {}

  lemma NothingPlanned(g: Graph, s: seq<Constraint>)
    requires WellFormed(g) && AllSatisfied(g, s)
    ensures Planning(g, s, [], s) && Outputs(g, []) == {}
  {}

  /** The test that `makePlan` makes. */
  lemma CanTake(g: Graph, s: seq<Constraint>, p: seq<Constraint>, rest: seq<Constraint>, c: Constraint, mark: int)
    requires Holds(g) && Planning(g, s, p, rest + [c]) && Marked(g, p, mark)
    ensures c in g.satisfied && c.Output() in g.vars && c.Output() == g.output[c]
    ensures c.Output().mark != mark && c.InputsKnown(mark) <==> Eligible(g, p, c)
    ensures Eligible(g, p, c) ==> g.output[c] !in Outputs(g, p)
  {
    assert c in rest + [c];
  }

  lemma FewerLeft(g: Graph, p: seq<Constraint>, c: Constraint)
    requires WellFormed(g) && c in g.satisfied && g.output[c] !in Outputs(g, p)
    ensures |g.vars - Outputs(g, p + [c])| < |g.vars - Outputs(g, p)|
  {
    OutputsMore(g, p, c);
    var v := g.output[c];
    assert g.vars - Outputs(g, p + [c]) == (g.vars - Outputs(g, p)) - {v};
  }

  // ---- executing a plan

  ghost predicate Valued(g: Graph, values: map<Variable, int>)
    reads g.vars`value
  {
    values.Keys == g.vars && forall v :: v in g.vars ==> v.value == values[v]
  }

  /** The values after one constraint. */
  ghost function ExecuteOne(g: Graph, c: Constraint, values: map<Variable, int>): map<Variable, int>
    requires WellFormed(g) && c in g.satisfied && values.Keys == g.vars
  {
    if c in g.input then values[g.output[c] := values[g.input[c]]] else values
  }

  /** The values after a run of constraints. */
  ghost function ExecuteAll(g: Graph, p: seq<Constraint>, values: map<Variable, int>): (r: map<Variable, int>)
    requires WellFormed(g) && AllSatisfied(g, p) && values.Keys == g.vars
    ensures r.Keys == g.vars
    decreases |p|
  {
    if p == [] then values
    else
      assert p[|p| - 1] in p;
      ExecuteOne(g, p[|p| - 1], ExecuteAll(g, p[..|p| - 1], values))
  }

  lemma NothingRun(g: Graph, p: seq<Constraint>, values: map<Variable, int>)
    requires Holds(g) && Valued(g, values)
    ensures WellFormed(g) && AllSatisfied(g, p[..0]) && values.Keys == g.vars && ExecuteAll(g, p[..0], values) == values
  {}

  lemma RunMore(g: Graph, p: seq<Constraint>, i: nat, values: map<Variable, int>)
    requires WellFormed(g) && AllSatisfied(g, p) && i < |p| && values.Keys == g.vars
    ensures AllSatisfied(g, p[..i]) && AllSatisfied(g, p[..i + 1]) && p[i] in g.satisfied
    ensures var now := ExecuteAll(g, p[..i], values);
      && now.Keys == g.vars && p[i] in g.output && g.output[p[i]] in g.vars
      && (p[i] in g.input ==>
            && g.input[p[i]] in g.vars
            && ExecuteAll(g, p[..i + 1], values) == now[g.output[p[i]] := now[g.input[p[i]]]])
      && (p[i] !in g.input ==> ExecuteAll(g, p[..i + 1], values) == now)
  {
    assert p[..i + 1][..i] == p[..i];
    assert p[i] in p;
  }

  lemma ValuedIntro(g: Graph, values: map<Variable, int>)
    requires values.Keys == g.vars && forall v :: v in g.vars ==> v.value == values[v]
    ensures Valued(g, values)
  {}

  lemma ValuedParts(g: Graph, values: map<Variable, int>)
    requires Valued(g, values)
    ensures values.Keys == g.vars && forall v :: v in g.vars ==> v.value == values[v]
  {}

  lemma Runs(g: Graph, c: Constraint, values: map<Variable, int>)
    requires Holds(g) && c in g.satisfied && Valued(g, values)
    ensures c.Output() in g.vars && c.Output() == g.output[c]
    ensures c.kind.Equality? <==> c in g.input
    ensures c.kind.Equality? ==> c.Input() == g.input[c] && c.Input() in g.vars
  {}

  // ---- what is planned

  /** `c` is a source, or is fed by the output of what is `n - 1` steps from a source. */
  ghost predicate Downstream(g: Graph, sources: seq<Constraint>, c: Constraint, n: nat) {
    if n == 0 then c in sources
    else c in g.input && exists d :: d in g.output && g.output[d] == g.input[c] && Downstream(g, sources, d, n - 1)
  }

  /** Sources as `extractPlanFromConstraints` takes them: satisfied, and without input. */
  ghost predicate Sources(g: Graph, sources: seq<Constraint>) {
    forall c :: c in sources ==> c in g.satisfied && c !in g.input
  }

  lemma {:induction false} PlannedIsDownstream(g: Graph, sources: seq<Constraint>, p: seq<Constraint>, j: nat)
    requires WellFormed(g) && PlanFor(g, sources, p) && Sources(g, sources) && j < |p|
    ensures exists n: nat :: Downstream(g, sources, p[j], n)
    decreases j
  {
    var c := p[j];
    assert Fed(g, sources, p, j);
    if c in g.input {
      var d :| d in p[..j] && d in g.output && g.output[d] == g.input[c];
      var i :| 0 <= i < j && p[i] == d;
      PlannedIsDownstream(g, sources, p, i);
      var n: nat :| Downstream(g, sources, d, n);
      assert Downstream(g, sources, c, n + 1);
    } else {
      assert Downstream(g, sources, c, 0);
    }
  }

  lemma {:induction false} DownstreamIsPlanned(g: Graph, sources: seq<Constraint>, p: seq<Constraint>, c: Constraint, n: nat)
    requires WellFormed(g) && PlanFor(g, sources, p) && Sources(g, sources) && Downstream(g, sources, c, n)
    ensures c in p
    decreases n
  {
    if n > 0 {
      var d :| d in g.output && g.output[d] == g.input[c] && Downstream(g, sources, d, n - 1);
      DownstreamIsPlanned(g, sources, p, d, n - 1);
      assert g.input[c] in Outputs(g, p);
    }
  }

  /** The plan is exactly the satisfied constraints that values flow to from the sources. */
  lemma PlanIsDownstream(g: Graph, sources: seq<Constraint>, p: seq<Constraint>, c: Constraint)
    requires WellFormed(g) && PlanFor(g, sources, p) && Sources(g, sources)
    ensures c in p <==> exists n: nat :: Downstream(g, sources, c, n)
  {
    if c in p {
      var j :| 0 <= j < |p| && p[j] == c;
      PlannedIsDownstream(g, sources, p, j);
    }
    if n: nat :| Downstream(g, sources, c, n) {
      DownstreamIsPlanned(g, sources, p, c, n);
    }
  }

  // ---- what a plan is good for

  /** Every satisfied equality is true. */
  ghost predicate Kept(g: Graph, values: map<Variable, int>)
    requires WellFormed(g) && values.Keys == g.vars
  {
    forall c :: c in g.input ==> values[g.output[c]] == values[g.input[c]]
  }

  lemma SatisfiedFront(g: Graph, p: seq<Constraint>)
    requires AllSatisfied(g, p) && p != []
    ensures AllSatisfied(g, p[..|p| - 1]) && p[|p| - 1] in g.satisfied
    ensures forall c :: c in p <==> c in p[..|p| - 1] || c == p[|p| - 1]
  {
    assert p == p[..|p| - 1] + [p[|p| - 1]];
  }

  /** Execution changes only outputs of planned equalities. */
  lemma {:induction false} ExecutionFrame(g: Graph, p: seq<Constraint>, values: map<Variable, int>, v: Variable)
    requires WellFormed(g) && AllSatisfied(g, p) && values.Keys == g.vars && v in g.vars
    requires forall c :: c in p && c in g.input ==> g.output[c] != v
    ensures ExecuteAll(g, p, values)[v] == values[v]
    decreases |p|
  {
    if p != [] {
      SatisfiedFront(g, p);
      ExecutionFrame(g, p[..|p| - 1], values, v);
    }
  }

  /** What is executed once, on an input computed before, stays true. */
  lemma {:induction false} ExecutedIsTrue(g: Graph, sources: seq<Constraint>, p: seq<Constraint>, values: map<Variable, int>, j: nat)
    requires WellFormed(g) && AllSatisfied(g, p) && Once(g, p) && Sources(g, sources) && values.Keys == g.vars
    requires (forall i :: 0 <= i < |p| ==> Fed(g, sources, p, i)) && j < |p| && p[j] in g.input
    ensures var r := ExecuteAll(g, p, values);
      p[j] in g.output && g.output[p[j]] in r && g.input[p[j]] in r && r[g.output[p[j]]] == r[g.input[p[j]]]
    decreases |p|
  {
    var front, z := p[..|p| - 1], p[|p| - 1];
    SatisfiedFront(g, p);
    var c := p[j];
    assert c in p;
    if j < |p| - 1 {
      forall i | 0 <= i < |front|
        ensures Fed(g, sources, front, i)
      {
        assert Fed(g, sources, p, i);
        assert front[..i] == p[..i];
      }
      ExecutedIsTrue(g, sources, front, values, j);
      assert Fed(g, sources, p, j);
      var d :| d in p[..j] && d in g.output && g.output[d] == g.input[c];
      var i :| 0 <= i < j && p[i] == d;
      assert g.output[z] != g.output[c] && g.output[z] != g.output[d];
    }
  }

  /** The plan restores every satisfied equality after the sources' variables were set to anything, leaves those
      as they were set, and leaves alone all that is not downstream. */
  lemma PlanRestores(g: Graph, sources: seq<Constraint>, p: seq<Constraint>, before: map<Variable, int>, changed: map<Variable, int>)
    requires WellFormed(g) && PlanFor(g, sources, p) && Sources(g, sources)
    requires before.Keys == g.vars && changed.Keys == g.vars && Kept(g, before)
    requires forall v :: v in g.vars && v !in Outputs(g, sources) ==> changed[v] == before[v]
    ensures Kept(g, ExecuteAll(g, p, changed))
    ensures forall v :: v in g.vars && v in Outputs(g, sources) ==> ExecuteAll(g, p, changed)[v] == changed[v]
    ensures forall v :: v in g.vars && v !in Outputs(g, p) ==> ExecuteAll(g, p, changed)[v] == before[v]
  {
    var r := ExecuteAll(g, p, changed);
    forall v | v in g.vars && v in Outputs(g, sources)
      ensures r[v] == changed[v]
    {
      SourceKept(g, sources, p, v);
      ExecutionFrame(g, p, changed, v);
    }
    forall v | v in g.vars && v !in Outputs(g, p)
      ensures r[v] == before[v]
    {
      NotPlanned(g, sources, p, v);
      ExecutionFrame(g, p, changed, v);
    }
    forall c | c in g.input
      ensures r[g.output[c]] == r[g.input[c]]
    {
      if c in p {
        var j :| 0 <= j < |p| && p[j] == c;
        ExecutedIsTrue(g, sources, p, changed, j);
      } else {
        assert g.input[c] !in Outputs(g, p);
        assert g.output[c] !in Outputs(g, p) by {
          if g.output[c] in Outputs(g, p) {
            Determined(g, p, c);
          }
        }
      }
    }
  }

  lemma SourceKept(g: Graph, sources: seq<Constraint>, p: seq<Constraint>, v: Variable)
    requires WellFormed(g) && AllSatisfied(g, p) && Sources(g, sources) && v in Outputs(g, sources)
    ensures forall c :: c in p && c in g.input ==> g.output[c] != v
  {}

  lemma SourcesPlanned(g: Graph, sources: seq<Constraint>, p: seq<Constraint>, v: Variable)
    requires WellFormed(g) && PlanFor(g, sources, p) && Sources(g, sources) && v in Outputs(g, sources)
    ensures v in Outputs(g, p)
  {
    var c :| c in sources && c in g.output && g.output[c] == v;
    assert c in p;
  }

  lemma NotPlanned(g: Graph, sources: seq<Constraint>, p: seq<Constraint>, v: Variable)
    requires WellFormed(g) && PlanFor(g, sources, p) && Sources(g, sources) && v !in Outputs(g, p)
    ensures v !in Outputs(g, sources) && forall c :: c in p && c in g.input ==> g.output[c] != v
  {
    if v in Outputs(g, sources) {
      SourcesPlanned(g, sources, p, v);
    }
  }

  // ---- changing a variable, on the objects

  /** Every satisfied equality is true of its variables. */
  ghost predicate AllTrue(g: Graph)
    requires WellFormed(g)
    reads g.vars`value
  {
    forall c :: c in g.input ==> g.output[c].value == g.input[c].value
  }

  ghost function ValuesOf(g: Graph): map<Variable, int>
    reads g.vars`value
  {
    map v | v in g.vars :: v.value
  }

  lemma TrueIsSettled(g: Graph, values: map<Variable, int>)
    requires WellFormed(g) && AllTrue(g) && values == ValuesOf(g)
    ensures Settled(g, values)
  {}

  /** The edited variable is the only one that the plan's sources determine. */
  ghost predicate PlanFrom(g: Graph, edit: Constraint, sources: seq<Constraint>, p: seq<Constraint>) {
    && WellFormed(g) && edit in g.output && g.output[edit] in g.vars
    && PlanFor(g, sources, p) && Sources(g, sources) && Outputs(g, sources) == {g.output[edit]}
  }

  /** The values are those of the variables, and every satisfied equality is true of them. */
  ghost predicate Settled(g: Graph, values: map<Variable, int>)
    reads g.vars`value
  {
    WellFormed(g) && Valued(g, values) && Kept(g, values)
  }

  /** What one turn of the loop of `change` computes. */
  lemma Changed(g: Graph, edit: Constraint, sources: seq<Constraint>, p: seq<Constraint>, before: map<Variable, int>, value: int)
    requires PlanFrom(g, edit, sources, p) && before.Keys == g.vars && Kept(g, before)
    ensures AllSatisfied(g, p)
    ensures var after := ExecuteAll(g, p, before[g.output[edit] := value]);
      Kept(g, after) && g.output[edit] in after && after[g.output[edit]] == value
  {
    PlanRestores(g, sources, p, before, before[g.output[edit] := value]);
  }

  lemma SettledParts(g: Graph, values: map<Variable, int>)
    requires Settled(g, values)
    ensures WellFormed(g) && Valued(g, values) && values.Keys == g.vars && Kept(g, values)
    ensures forall v :: v in g.vars ==> v.value == values[v]
    ensures AllTrue(g)
  {}

  lemma SettledIntro(g: Graph, values: map<Variable, int>)
    requires WellFormed(g) && Valued(g, values) && values.Keys == g.vars && Kept(g, values)
    ensures Settled(g, values)
    ensures forall v :: v in g.vars ==> v.value == values[v]
  {}

  /** One turn: the edited variable is set and the plan executed. */
  method ChangeOnce(plan: Plan, edit: Constraint, value: int, ghost g: Graph, ghost sources: seq<Constraint>,
                    ghost before: map<Variable, int>)
    returns (ghost after: map<Variable, int>)
    requires Holds(g) && edit in g.satisfied && edit.kind.EditOn?
    requires PlanFrom(g, edit, sources, plan.v.elms) && Settled(g, before)
    modifies g.vars`value
    ensures Settled(g, after) && edit.kind.v in g.vars && edit.kind.v.value == value
  {
    hide *;
    GraphWell(g);
    EditHere(g, edit);
    SettledParts(g, before);
    Changed(g, edit, sources, plan.v.elms, before, value);
    ghost var p := plan.v.elms;
    ghost var changed := before[edit.kind.v := value];
    edit.kind.v.value := value;
    ValuedIntro(g, changed);
    plan.Execute(g, changed);
    after := ExecuteAll(g, p, changed);
    SettledIntro(g, after);
  }

  /** The loop of `change`: with a satisfied edit constraint on a variable, plan, then set the variable and execute the
      plan, ten times.  Every satisfied equality is true again and the variable has the new value. */
  method Change(planner: Planner, edit: Constraint, value: int, ghost g: Graph)
    requires Holds(g) && edit in g.satisfied && edit.kind.EditOn? && AllTrue(g)
    requires forall v :: v in g.vars ==> v.mark <= planner.currentMark
    modifies planner`currentMark, g.vars`mark, g.vars`value
    ensures Holds(g) && AllTrue(g) && edit.kind.v in g.vars && edit.kind.v.value == value
  {
    hide *;
    GraphWell(g);
    EditHere(g, edit);
    var edits := new OrderedCollection();
    edits.Add(edit);
    ghost var before := ValuesOf(g);
    TrueIsSettled(g, before);
    ghost var sources;
    var plan;
    plan, sources := planner.ExtractPlanFromConstraints(edits, g);
    OnlyEdit(g, edit, sources, plan.v.elms);
    ghost var p := plan.v.elms;
    ghost var now := before;
    for i := 0 to 10
      invariant Holds(g) && Settled(g, now) && plan.v.elms == p
      invariant i > 0 ==> edit.kind.v.value == value
    {
      now := ChangeOnce(plan, edit, value, g, sources, now);
    }
    SettledParts(g, now);
  }

  lemma EditHere(g: Graph, edit: Constraint)
    requires Holds(g) && edit in g.satisfied && edit.kind.EditOn?
    ensures edit in g.all && edit.kind.v in g.vars && edit in g.output && g.output[edit] == edit.kind.v && edit.IsInput()
  {}

  lemma OnlyEdit(g: Graph, edit: Constraint, sources: seq<Constraint>, p: seq<Constraint>)
    requires WellFormed(g) && edit in g.output && edit in sources && forall c :: c in sources ==> c == edit
    requires PlanFor(g, sources, p) && Sources(g, sources)
    ensures PlanFrom(g, edit, sources, p)
  {}

  /** Along a chain of satisfied equalities the first and the last variable are equal. */
  lemma {:induction false} ChainEnds(g: Graph, values: map<Variable, int>, chain: seq<Constraint>)
    requires WellFormed(g) && values.Keys == g.vars && Kept(g, values) && chain != []
    requires (forall k :: 0 <= k < |chain| ==> chain[k] in g.input)
    requires forall k :: 0 < k < |chain| ==> g.input[chain[k]] == g.output[chain[k - 1]]
    ensures values[g.output[chain[|chain| - 1]]] == values[g.input[chain[0]]]
    decreases |chain|
  {
    if |chain| > 1 {
      ChainEnds(g, values, chain[..|chain| - 1]);
    }
  }

  // ---- the chain test

  /** The graph that the objects make. */
  ghost function GraphOf(vars: set<Variable>, all: set<Constraint>): Graph
    reads vars, all
  {
    Graph(
      vars, all, set c | c in all && c.IsSatisfied(), map c | c in all && c.IsSatisfied() :: c.Output(),
      map c | c in all && c.IsSatisfied() && c.kind.Equality? :: c.Input(),
      map v | v in vars :: v.constraints, map v | v in vars :: v.determinedBy, set v | v in vars && v.stay)
  }

  /** The constraints on variable `k` of a chain, in the order in which they are added. */
  ghost function Links(es: seq<Constraint>, k: nat): seq<Constraint>
    requires k <= |es|
  {
    (if k > 0 then [es[k - 1]] else []) + if k < |es| then [es[k]] else []
  }

  /** Equalities from each variable to the next, all kept forward. */
  ghost predicate Chain(vs: seq<Variable>, es: seq<Constraint>)
    reads es
  {
    && |vs| == |es| + 1 && (forall j, k :: 0 <= j < k < |vs| ==> vs[j] != vs[k])
    && forall k :: 0 <= k < |es| ==> es[k].kind == Equality(vs[k], vs[k + 1]) && es[k].direction == Forward
  }

  /** The variables of a chain that is being built. */
  ghost predicate Linked(vs: seq<Variable>, es: seq<Constraint>)
    requires |vs| == |es| + 1
    reads vs
  {
    && (forall k :: 0 <= k < |vs| ==> vs[k].constraints == Links(es, k) && !vs[k].stay && vs[k].value == vs[k].mark == 0)
    && forall k :: 0 < k < |vs| ==> vs[k].determinedBy == es[k - 1]
  }

  /** What is added for variable `k` of a chain with `n` equalities, when the chain is complete. */
  ghost function Extra(stay: Constraint, edit: Constraint, k: nat, n: nat): seq<Constraint> {
    (if k == n then [stay] else []) + if k == 0 then [edit] else []
  }

  /** The whole chain: the first variable is edited, and the stay on the last is too weak to be satisfied. */
  ghost predicate ChainReady(vs: seq<Variable>, es: seq<Constraint>, stay: Constraint, edit: Constraint)
    reads vs, es, stay, edit
  {
    && Chain(vs, es) && stay.kind == StayOn(vs[|es|]) && edit.kind == EditOn(vs[0]) && edit.satisfied && !stay.satisfied
    && (forall k :: 0 <= k < |vs| ==> vs[k].constraints == Links(es, k) + Extra(stay, edit, k, |es|))
    && (forall k :: 0 <= k < |vs| ==> vs[k].determinedBy == if k == 0 then edit else es[k - 1])
    && forall k :: 0 <= k < |vs| ==> !vs[k].stay && vs[k].value == vs[k].mark == 0
  }

  lemma ChainMore(vs: seq<Variable>, es: seq<Constraint>, v: Variable, e: Constraint)
    requires Chain(vs, es) && v !in vs && e.kind == Equality(vs[|es|], v) && e.direction == Forward
    ensures Chain(vs + [v], es + [e])
  {}

  lemma LinkedMore(vs: seq<Variable>, es: seq<Constraint>, v: Variable, e: Constraint)
    requires |vs| == |es| + 1
    requires forall k :: 0 <= k < |vs| ==> vs[k].constraints == Links(es, k) + if k == |es| then [e] else []
    requires forall k :: 0 <= k < |vs| ==> !vs[k].stay && vs[k].value == vs[k].mark == 0
    requires forall k :: 0 < k < |vs| ==> vs[k].determinedBy == es[k - 1]
    requires v.constraints == [e] && !v.stay && v.value == v.mark == 0 && v.determinedBy == e
    ensures Linked(vs + [v], es + [e])
  {
    var vs', es' := vs + [v], es + [e];
    forall k | 0 <= k < |vs'|
      ensures vs'[k].constraints == Links(es', k)
    {
      if k < |vs| {
        assert vs'[k] == vs[k];
      }
    }
  }

  lemma LinkedParts(vs: seq<Variable>, es: seq<Constraint>)
    requires Chain(vs, es) && Linked(vs, es)
    ensures |vs| == |es| + 1 && forall j, k :: 0 <= j < k < |vs| ==> vs[j] != vs[k]
    ensures forall k :: 0 <= k < |vs| ==> vs[k].constraints == Links(es, k)
    ensures forall k :: 0 <= k < |vs| ==> !vs[k].stay && vs[k].value == vs[k].mark == 0
    ensures forall k :: 0 < k < |vs| ==> vs[k].determinedBy == es[k - 1]
  {}

  /** One more variable, and an equality from the last one to it. */
  method AddLink(vs: seq<Variable>, es: seq<Constraint>) returns (v: Variable, e: Constraint)
    requires Chain(vs, es) && Linked(vs, es)
    modifies {vs[|es|]}`constraints
    ensures fresh(v) && fresh(e) && Chain(vs + [v], es + [e]) && Linked(vs + [v], es + [e])
  {
    hide *;
    LinkedParts(vs, es);
    v := new Variable(0);
    e := new Constraint(Equality(vs[|es|], v));
    e.direction := Forward;
    v.determinedBy, v.constraints, v.stay := e, [e], false;
    ChainMore(vs, es, v, e);
    vs[|es|].constraints := vs[|es|].constraints + [e];
    LinkedMore(vs, es, v, e);
  }

  lemma OneLinked(v: Variable)
    requires v.constraints == [] && !v.stay && v.value == v.mark == 0
    ensures Chain([v], []) && Linked([v], [])
  {}

  /** The stay on the last variable and the edit of the first. */
  method FinishChain(vs: seq<Variable>, es: seq<Constraint>, stay: Constraint, edit: Constraint)
    requires Chain(vs, es) && Linked(vs, es)
    requires stay.kind == StayOn(vs[|es|]) && edit.kind == EditOn(vs[0]) && edit.satisfied && !stay.satisfied
    modifies {vs[0], vs[|es|]}`constraints, {vs[0]}`determinedBy
    ensures ChainReady(vs, es, stay, edit)
  {
    hide *;
    LinkedParts(vs, es);
    vs[|es|].constraints := vs[|es|].constraints + [stay];
    assert forall k :: 0 <= k < |vs| ==> vs[k].constraints == Links(es, k) + if k == |es| then [stay] else [];
    vs[0].constraints := vs[0].constraints + [edit];
    vs[0].determinedBy := edit;
    ChainDone(vs, es, stay, edit);
  }

  lemma ChainDone(vs: seq<Variable>, es: seq<Constraint>, stay: Constraint, edit: Constraint)
    requires Chain(vs, es) && |vs| == |es| + 1
    requires stay.kind == StayOn(vs[|es|]) && edit.kind == EditOn(vs[0]) && edit.satisfied && !stay.satisfied
    requires forall k :: 0 <= k < |vs| ==>
      vs[k].constraints == Links(es, k) + (if k == |es| then [stay] else []) + if k == 0 then [edit] else []
    requires forall k :: 0 <= k < |vs| ==> !vs[k].stay && vs[k].value == vs[k].mark == 0
    requires forall k :: 0 < k < |vs| ==> vs[k].determinedBy == es[k - 1]
    requires vs[0].determinedBy == edit
    ensures ChainReady(vs, es, stay, edit)
  {
    hide Links;
    forall k | 0 <= k < |vs|
      ensures vs[k].constraints == Links(es, k) + Extra(stay, edit, k, |es|)
    {
      var l, m, r := Links(es, k), if k == |es| then [stay] else [], if k == 0 then [edit] else [];
      assert l + m + r == l + (m + r);
    }
  }

  /** The objects of `chainTest`, as adding the constraints leaves them. */
  method MakeChain(n: nat) returns (vs: seq<Variable>, es: seq<Constraint>, stay: Constraint, edit: Constraint)
    ensures |es| == n && |vs| == n + 1 && ChainReady(vs, es, stay, edit)
    ensures fresh(vs) && fresh(es) && fresh(stay) && fresh(edit)
  {
    hide *;
    var v := new Variable(0);
    v.stay := false;
    OneLinked(v);
    vs, es := [v], [];
    while |es| < n
      invariant |es| <= n && |vs| == |es| + 1 && Chain(vs, es) && Linked(vs, es) && fresh(vs) && fresh(es)
    {
      var e;
      v, e := AddLink(vs, es);
      vs, es := vs + [v], es + [e];
    }
    stay := new Constraint(StayOn(vs[n]));
    edit := new Constraint(EditOn(vs[0]));
    edit.satisfied := true;
    FinishChain(vs, es, stay, edit);
  }

  ghost function ChainGraph(vs: seq<Variable>, es: seq<Constraint>, stay: Constraint, edit: Constraint): Graph
    reads vs, es, stay, edit
  {
    GraphOf(set v | v in vs, (set c | c in es) + {stay, edit})
  }

  /** The equalities of a chain, in a graph. */
  ghost predicate InGraph(g: Graph, vs: seq<Variable>, es: seq<Constraint>) {
    && |vs| == |es| + 1 && g.vars == (set v | v in vs)
    && forall k :: 0 <= k < |es| ==>
         es[k] in g.input && es[k] in g.output && g.input[es[k]] == vs[k] && g.output[es[k]] == vs[k + 1]
  }

  lemma ChainSizes(vs: seq<Variable>, es: seq<Constraint>, stay: Constraint, edit: Constraint)
    requires ChainReady(vs, es, stay, edit)
    ensures |vs| == |es| + 1 && edit.kind == EditOn(vs[0])
    ensures var g := ChainGraph(vs, es, stay, edit);
      && g.vars == (set v | v in vs) && g.all == (set c | c in es) + {stay, edit}
      && g.constraints.Keys == g.vars && g.determinedBy.Keys == g.vars && g.stay <= g.vars && g.satisfied <= g.all
      && g.output.Keys == g.satisfied && g.input.Keys <= g.satisfied
  {}

  /** One variable of the chain, in the graph. */
  lemma ChainVariable(vs: seq<Variable>, es: seq<Constraint>, stay: Constraint, edit: Constraint, k: nat)
    requires ChainReady(vs, es, stay, edit) && k < |vs|
    ensures var g := ChainGraph(vs, es, stay, edit);
      && vs[k] in g.vars && g.constraints[vs[k]] == vs[k].constraints && vs[k] !in g.stay && !vs[k].stay
      && g.determinedBy[vs[k]] == vs[k].determinedBy == (if k == 0 then edit else es[k - 1])
      && vs[k].value == vs[k].mark == 0
  {
    assert vs[k] in vs;
  }

  /** One equality of the chain. */
  lemma ChainEquality(vs: seq<Variable>, es: seq<Constraint>, stay: Constraint, edit: Constraint, k: nat)
    requires ChainReady(vs, es, stay, edit) && k < |es|
    ensures var g := ChainGraph(vs, es, stay, edit);
      && |vs| == |es| + 1 && es[k] in g.satisfied && es[k].IsSatisfied() && es[k].kind.Equality?
      && es[k].Output() == vs[k + 1] && es[k] in g.output && g.output[es[k]] == vs[k + 1]
      && es[k].Input() == vs[k] && es[k] in g.input && g.input[es[k]] == vs[k]
  {
    assert es[k] in es;
    EqualityForward(vs, es, stay, edit, k);
    hide ChainReady;
    GraphHas(set v | v in vs, (set c | c in es) + {stay, edit}, es[k]);
    hide GraphOf;
  }

  lemma EqualityForward(vs: seq<Variable>, es: seq<Constraint>, stay: Constraint, edit: Constraint, k: nat)
    requires ChainReady(vs, es, stay, edit) && k < |es|
    ensures |vs| == |es| + 1 && es[k].kind == Equality(vs[k], vs[k + 1]) && es[k].direction == Forward
  {}

  lemma GraphHas(vars: set<Variable>, all: set<Constraint>, c: Constraint)
    requires c in all && c.IsSatisfied() && c.kind.Equality?
    ensures var g := GraphOf(vars, all);
      && c in g.satisfied && c in g.output && g.output[c] == c.Output() && c in g.input && g.input[c] == c.Input()
  {}

  lemma ChainEdit(vs: seq<Variable>, es: seq<Constraint>, stay: Constraint, edit: Constraint)
    requires ChainReady(vs, es, stay, edit)
    ensures var g := ChainGraph(vs, es, stay, edit);
      && |vs| > 0 && edit in g.satisfied && edit.IsSatisfied() && edit.Output() == vs[0] && !edit.kind.Equality?
      && edit in g.output && g.output[edit] == vs[0] && edit !in g.input
      && stay !in g.satisfied && !stay.IsSatisfied()
  {}

  lemma LinksOf(es: seq<Constraint>, k: nat, c: Constraint)
    requires k <= |es|
    ensures c in Links(es, k) <==> (k > 0 && es[k - 1] == c) || (k < |es| && es[k] == c)
  {}

  lemma ChainListed(vs: seq<Variable>, es: seq<Constraint>, stay: Constraint, edit: Constraint, k: nat, c: Constraint)
    requires ChainReady(vs, es, stay, edit) && k < |vs|
    ensures |vs| == |es| + 1
    ensures c in vs[k].constraints
       <==> (k > 0 && es[k - 1] == c) || (k < |es| && es[k] == c) || (k == |es| && c == stay) || (k == 0 && c == edit)
  {
    LinksOf(es, k, c);
    hide Links;
    assert vs[k].constraints == Links(es, k) + Extra(stay, edit, k, |es|);
  }

  /** What holds of a satisfied constraint of the chain. */
  lemma ChainConstraint(vs: seq<Variable>, es: seq<Constraint>, stay: Constraint, edit: Constraint, c: Constraint)
    requires ChainReady(vs, es, stay, edit) && c in ChainGraph(vs, es, stay, edit).satisfied
    ensures var g := ChainGraph(vs, es, stay, edit);
      && c in g.output && c.Output() == g.output[c] && g.output[c] in g.vars && g.output[c] in g.determinedBy
      && g.determinedBy[g.output[c]] == c && (c.kind.Equality? <==> c in g.input)
      && (c in g.input ==> c.Input() == g.input[c] && g.input[c] in g.constraints && c in g.constraints[g.input[c]])
  {
    hide *;
    ChainSizes(vs, es, stay, edit);
    ChainEdit(vs, es, stay, edit);
    if c == edit {
      ChainVariable(vs, es, stay, edit, 0);
    } else {
      var k :| 0 <= k < |es| && es[k] == c;
      ChainEquality(vs, es, stay, edit, k);
      ChainVariable(vs, es, stay, edit, k);
      ChainVariable(vs, es, stay, edit, k + 1);
      ChainListed(vs, es, stay, edit, k, c);
    }
  }

  /** What holds of a constraint on a variable of the chain. */
  lemma ChainOn(vs: seq<Variable>, es: seq<Constraint>, stay: Constraint, edit: Constraint, v: Variable, c: Constraint)
    requires ChainReady(vs, es, stay, edit)
    requires var g := ChainGraph(vs, es, stay, edit);
      v in g.constraints && c in g.constraints[v]
    ensures var g := ChainGraph(vs, es, stay, edit);
      c in g.all && (c in g.satisfied ==> c in g.output && (g.output[c] == v || (c in g.input && g.input[c] == v)))
  {
    hide *;
    ChainSizes(vs, es, stay, edit);
    ChainEdit(vs, es, stay, edit);
    var k :| 0 <= k < |vs| && vs[k] == v;
    ChainVariable(vs, es, stay, edit, k);
    ChainListed(vs, es, stay, edit, k, c);
    if k > 0 && es[k - 1] == c {
      ChainEquality(vs, es, stay, edit, k - 1);
    } else if k < |es| && es[k] == c {
      ChainEquality(vs, es, stay, edit, k);
    }
  }

  lemma GraphIntro(g: Graph)
    requires g.satisfied <= g.all && g.output.Keys == g.satisfied && g.input.Keys <= g.satisfied
    requires g.constraints.Keys == g.vars && g.determinedBy.Keys == g.vars && g.stay <= g.vars
    requires forall v :: v in g.vars ==>
      v.constraints == g.constraints[v] && v.determinedBy == g.determinedBy[v] && !v.stay && v !in g.stay && v.value == 0
    requires forall c :: c in g.all ==> (c.IsSatisfied() <==> c in g.satisfied)
    requires forall c :: c in g.satisfied ==>
      && c.Output() == g.output[c] && g.output[c] in g.vars && g.determinedBy[g.output[c]] == c
      && (c.kind.Equality? <==> c in g.input)
      && (c in g.input ==> c.Input() == g.input[c] && g.input[c] in g.constraints && c in g.constraints[g.input[c]])
    requires forall v, c :: v in g.vars && c in g.constraints[v] ==>
      c in g.all && (c in g.satisfied ==> c in g.output && (g.output[c] == v || (c in g.input && g.input[c] == v)))
    ensures Holds(g) && WellFormed(g) && AllTrue(g)
  {}

  lemma ChainHolds(vs: seq<Variable>, es: seq<Constraint>, stay: Constraint, edit: Constraint)
    requires ChainReady(vs, es, stay, edit)
    ensures var g := ChainGraph(vs, es, stay, edit);
      Holds(g) && WellFormed(g) && AllTrue(g) && edit in g.satisfied && forall v :: v in g.vars ==> v.mark == 0
  {
    hide *;
    var g := ChainGraph(vs, es, stay, edit);
    ChainSizes(vs, es, stay, edit);
    ChainEdit(vs, es, stay, edit);
    forall v | v in g.vars
      ensures v.constraints == g.constraints[v] && v.determinedBy == g.determinedBy[v] && !v.stay && v !in g.stay
      ensures v.value == v.mark == 0
    {
      assert v in vs;
      var k :| 0 <= k < |vs| && vs[k] == v;
      ChainVariable(vs, es, stay, edit, k);
    }
    forall c | c in g.all
      ensures c.IsSatisfied() <==> c in g.satisfied
    {
      assert c in es || c == stay || c == edit;
      if c in es {
        var k :| 0 <= k < |es| && es[k] == c;
        ChainEquality(vs, es, stay, edit, k);
      }
    }
    forall c | c in g.satisfied
      ensures c.Output() == g.output[c] && g.output[c] in g.vars && g.determinedBy[g.output[c]] == c
      ensures c.kind.Equality? <==> c in g.input
      ensures c in g.input ==> c.Input() == g.input[c] && g.input[c] in g.constraints && c in g.constraints[g.input[c]]
    {
      ChainConstraint(vs, es, stay, edit, c);
    }
    forall v, c | v in g.vars && c in g.constraints[v]
      ensures c in g.all && (c in g.satisfied ==> c in g.output && (g.output[c] == v || (c in g.input && g.input[c] == v)))
    {
      ChainOn(vs, es, stay, edit, v, c);
    }
    GraphIntro(g);
  }

  lemma InGraphIntro(g: Graph, vs: seq<Variable>, es: seq<Constraint>)
    requires |vs| == |es| + 1 && g.vars == set v | v in vs
    requires forall k :: 0 <= k < |es| ==>
      es[k] in g.input && es[k] in g.output && g.input[es[k]] == vs[k] && g.output[es[k]] == vs[k + 1]
    ensures InGraph(g, vs, es)
  {}

  lemma ChainInGraph(vs: seq<Variable>, es: seq<Constraint>, stay: Constraint, edit: Constraint)
    requires ChainReady(vs, es, stay, edit)
    ensures InGraph(ChainGraph(vs, es, stay, edit), vs, es)
  {
    hide *;
    var g := ChainGraph(vs, es, stay, edit);
    ChainSizes(vs, es, stay, edit);
    forall k | 0 <= k < |es|
      ensures es[k] in g.input && es[k] in g.output && g.input[es[k]] == vs[k] && g.output[es[k]] == vs[k + 1]
    {
      ChainEquality(vs, es, stay, edit, k);
    }
    InGraphIntro(g, vs, es);
  }

  lemma InGraphParts(g: Graph, vs: seq<Variable>, es: seq<Constraint>)
    requires InGraph(g, vs, es)
    ensures |vs| == |es| + 1 && g.vars == set v | v in vs
    ensures forall k :: 0 <= k < |es| ==>
      es[k] in g.input && es[k] in g.output && g.input[es[k]] == vs[k] && g.output[es[k]] == vs[k + 1]
  {}

  /** All of a chain agree wherever every satisfied equality is true. */
  lemma ChainAgrees(g: Graph, vs: seq<Variable>, es: seq<Constraint>, values: map<Variable, int>)
    requires InGraph(g, vs, es) && Settled(g, values)
    ensures forall k :: 0 <= k < |vs| ==> vs[k].value == vs[0].value
  {
    hide *;
    SettledParts(g, values);
    InGraphParts(g, vs, es);
    forall k | 0 <= k < |vs|
      ensures vs[k].value == vs[0].value
    {
      assert vs[0] in vs && vs[k] in vs;
      if k > 0 {
        UpTo(g, vs, es, values, k);
      }
    }
  }

  lemma UpTo(g: Graph, vs: seq<Variable>, es: seq<Constraint>, values: map<Variable, int>, k: nat)
    requires InGraph(g, vs, es) && WellFormed(g) && values.Keys == g.vars && Kept(g, values) && 0 < k <= |es|
    ensures vs[k] in values && vs[0] in values && values[vs[k]] == values[vs[0]]
  {
    InGraphParts(g, vs, es);
    hide *;
    var chain := es[..k];
    assert chain[0] == es[0] && chain[|chain| - 1] == es[k - 1];
    ChainEnds(g, values, chain);
    assert vs[k] in vs && vs[0] in vs;
  }

  /** The hundred turns of the test: set the first variable, execute the plan, look at the last. */
  method Turns(plan: Plan, edit: Constraint, vs: seq<Variable>, ghost es: seq<Constraint>, ghost g: Graph,
               ghost sources: seq<Constraint>, ghost before: map<Variable, int>)
    returns (failed: bool)
    requires Holds(g) && edit in g.satisfied && edit.kind.EditOn? && PlanFrom(g, edit, sources, plan.v.elms)
    requires Settled(g, before) && InGraph(g, vs, es) && |vs| == |es| + 1 && edit.kind.v == vs[0]
    modifies g.vars`value
    ensures !failed && forall k :: 0 <= k < |vs| ==> vs[k].value == 99
  {
    hide *;
    ghost var p, now := plan.v.elms, before;
    failed := false;
    for i := 0 to 100
      invariant Holds(g) && Settled(g, now) && plan.v.elms == p && !failed
      invariant i > 0 ==> forall k :: 0 <= k < |vs| ==> vs[k].value == i - 1
    {
      now := ChangeOnce(plan, edit, i, g, sources, now);
      ChainAgrees(g, vs, es, now);
      if vs[|vs| - 1].value != i {
        failed := true;
      }
    }
  }

  /** The test on its chain. */
  method TestChain(planner: Planner, edit: Constraint, vs: seq<Variable>, ghost es: seq<Constraint>, ghost g: Graph)
    returns (failed: bool)
    requires Holds(g) && edit in g.satisfied && edit.kind.EditOn? && AllTrue(g)
    requires InGraph(g, vs, es) && |vs| == |es| + 1 && edit.kind.v == vs[0]
    requires forall v :: v in g.vars ==> v.mark <= planner.currentMark
    modifies planner`currentMark, g.vars`mark, g.vars`value
    ensures !failed && forall k :: 0 <= k < |vs| ==> vs[k].value == 99
  {
    hide *;
    GraphWell(g);
    EditHere(g, edit);
    var edits := new OrderedCollection();
    edits.Add(edit);
    ghost var now := ValuesOf(g);
    TrueIsSettled(g, now);
    ghost var sources;
    var plan;
    plan, sources := planner.ExtractPlanFromConstraints(edits, g);
    OnlyEdit(g, edit, sources, plan.v.elms);
    failed := Turns(plan, edit, vs, es, g, sources, now);
  }

  /** `chainTest`, for a chain of any length: `n` equalities that lead from each of `n + 1` variables to the next.  Its
      alarm never goes off, and the last of the values put in is in every variable of the chain. */
  method ChainTest(n: nat) returns (failed: bool, first: Variable, last: Variable, ghost vs: seq<Variable>, ghost es: seq<Constraint>)
    ensures |es| == n && |vs| == n + 1 && first == vs[0] && last == vs[n] && forall i, j :: 0 <= i < j <= n ==> vs[i] != vs[j]
    ensures forall k :: 0 <= k < n ==> es[k].kind == Equality(vs[k], vs[k + 1]) && es[k].IsSatisfied()
    ensures !failed && forall k :: 0 <= k <= n ==> vs[k].value == 99
  {
    hide *;
    var planner := new Planner();
    var us, ds, stay, edit := MakeChain(n);
    vs, es := us, ds;
    ghost var g := ChainGraph(vs, es, stay, edit);
    ChainSizes(vs, es, stay, edit);
    ChainHolds(vs, es, stay, edit);
    ChainInGraph(vs, es, stay, edit);
    ChainLinks(vs, es, stay, edit);
    failed := TestChain(planner, edit, us, es, g);
    first, last := us[0], us[n];
  }

  lemma ChainLinks(vs: seq<Variable>, es: seq<Constraint>, stay: Constraint, edit: Constraint)
    requires ChainReady(vs, es, stay, edit)
    ensures |vs| == |es| + 1 && forall j, k :: 0 <= j < k < |vs| ==> vs[j] != vs[k]
    ensures forall k :: 0 <= k < |es| ==> es[k].kind == Equality(vs[k], vs[k + 1]) && es[k].IsSatisfied()
  {
    forall k | 0 <= k < |es|
      ensures es[k].kind == Equality(vs[k], vs[k + 1]) && es[k].IsSatisfied()
    {
      EqualityForward(vs, es, stay, edit, k);
    }
  }
}
