/** The dining philosophers of symposium.c: a monitor with one condition variable for each of
    them. Every section under the mutex `mx` is one step. */
module SymposiumModel {

  datatype Phil = NOTHERE | THINKING | HUNGRY | EATING

  /** Where a philosopher is; `j` counts the bites before this one. A waiting philosopher is
      asleep until its condition variable is signalled. */
  datatype Pc =
    | Arriving
    | Thinking(j: nat)
    | Waiting(j: nat, asleep: bool)
    | Eating(j: nat)
    | Leaving
    | Gone

  datatype Table = Table(state: seq<Phil>, pc: seq<Pc>, meals: seq<nat>, bites: nat)

  function LEFT(i: int, n: int): int
    requires n > 0
  {
    (i + 1) % n
  }

  function RIGHT(i: int, n: int): int
    requires n > 0
  {
    (i + n - 1) % n
  }

  lemma OnceAround(r: nat, n: nat)
    requires r < n
    ensures (r + n) % n == r && r % n == r
  {
    var q := (r + n) / n;
    assert r + n == q * n + (r + n) % n;
    assert q >= 2 ==> q * n >= 2 * n;
    assert q <= 0 ==> q * n <= 0;
    assert q == 1;
  }

  /** LEFT and RIGHT go one place round the table. */
  lemma Neighbours(i: nat, n: nat)
    requires i < n
    ensures LEFT(i, n) == if i + 1 < n then i + 1 else 0
    ensures RIGHT(i, n) == if i > 0 then i - 1 else n - 1
  {
    if i + 1 < n {
      OnceAround(i + 1, n);
    } else {
      OnceAround(0, n);
    }
    if i > 0 {
      OnceAround(i - 1, n);
    } else {
      OnceAround(n - 1, n);
    }
  }

  /** The two directions are opposite; with three philosophers or more they are different. */
  lemma Opposite(i: nat, n: nat)
    requires i < n
    ensures 0 <= LEFT(i, n) < n && 0 <= RIGHT(i, n) < n
    ensures RIGHT(LEFT(i, n), n) == i && LEFT(RIGHT(i, n), n) == i
    ensures n >= 2 ==> LEFT(i, n) != i && RIGHT(i, n) != i
    ensures n >= 3 ==> LEFT(i, n) != RIGHT(i, n)
  {
    hide LEFT, RIGHT;
    Neighbours(i, n);
    Neighbours(LEFT(i, n), n);
    Neighbours(RIGHT(i, n), n);
  }

  predicate Seated(s: Table, i: nat) {
    |s.state| == |s.pc| == |s.meals| && i < |s.state|
  }

  function SetState(s: Table, i: nat, x: Phil): Table
    requires i < |s.state|
  {
    s.(state := s.state[i := x])
  }

  function SetPc(s: Table, i: nat, x: Pc): Table
    requires i < |s.pc|
  {
    s.(pc := s.pc[i := x])
  }

  predicate CanEat(state: seq<Phil>, i: nat)
    requires i < |state|
  {
    Opposite(i, |state|);
    && state[i] == HUNGRY
    && state[LEFT(i, |state|)] != EATING
    && state[RIGHT(i, |state|)] != EATING
  }

  function TryToEat(s: Table, i: nat): Table
    requires Seated(s, i)
  {
    if CanEat(s.state, i) then
      var s1 := SetState(s, i, EATING);
      if s.pc[i].Waiting? then SetPc(s1, i, Waiting(s.pc[i].j, false)) else s1
    else s
  }

  function Next(s: Table, j: nat): Pc {
    if j < s.bites then Thinking(j) else Leaving
  }

  function Arrive(s: Table, i: nat): Table
    requires Seated(s, i)
  {
    SetPc(SetState(s, i, THINKING), i, Next(s, 0))
  }

  /** The test of the waiting loop, with the mutex held. */
  function Test(s: Table, i: nat, j: nat): Table
    requires Seated(s, i)
  {
    if s.state[i] == HUNGRY then SetPc(s, i, Waiting(j, true)) else SetPc(s, i, Eating(j))
  }

  function GetHungry(s: Table, i: nat): Table
    requires Seated(s, i) && s.pc[i].Thinking?
  {
    Test(TryToEat(SetState(s, i, HUNGRY), i), i, s.pc[i].j)
  }

  function GoOn(s: Table, i: nat): Table
    requires Seated(s, i) && s.pc[i].Waiting?
  {
    Test(s, i, s.pc[i].j)
  }

  function FinishMeal(s: Table, i: nat): Table
    requires Seated(s, i) && s.pc[i].Eating?
  {
    Opposite(i, |s.state|);
    var s1 := TryToEat(TryToEat(SetState(s, i, THINKING), LEFT(i, |s.state|)), RIGHT(i, |s.state|));
    SetPc(s1, i, Next(s, s.pc[i].j + 1)).(meals := s.meals[i := s.meals[i] + 1])
  }

  function Leave(s: Table, i: nat): Table
    requires Seated(s, i)
  {
    SetPc(SetState(s, i, NOTHERE), i, Gone)
  }

  /** Philosopher `i` is not blocked and not gone. */
  predicate Enabled(s: Table, i: nat) {
    Seated(s, i) && s.pc[i] != Gone && !(s.pc[i].Waiting? && s.pc[i].asleep)
  }

  /** The next section of philosopher `i`. */
  function Step(s: Table, i: nat): Table
    requires Enabled(s, i)
  {
    match s.pc[i]
    case Arriving => Arrive(s, i)
    case Thinking(_) => GetHungry(s, i)
    case Waiting(_, _) => GoOn(s, i)
    case Eating(_) => FinishMeal(s, i)
    case Leaving => Leave(s, i)
    case Gone => s
  }

  // ----- the invariant -----

  /** What a philosopher's place in the code says about its state and its meals. */
  predicate PhilOk(s: Table, i: nat)
    requires Seated(s, i)
  {
    match s.pc[i]
    case Arriving => s.state[i] == NOTHERE && s.meals[i] == 0
    case Thinking(j) => s.state[i] == THINKING && j < s.bites && s.meals[i] == j
    case Waiting(j, asleep) => s.state[i] == (if asleep then HUNGRY else EATING) && j < s.bites && s.meals[i] == j
    case Eating(j) => s.state[i] == EATING && j < s.bites && s.meals[i] == j
    case Leaving => s.state[i] == THINKING && s.meals[i] == s.bites
    case Gone => s.state[i] == NOTHERE && s.meals[i] == s.bites
  }

  /** Nobody eats beside an eating neighbour. */
  predicate Alone(state: seq<Phil>, i: nat)
    requires i < |state|
  {
    Opposite(i, |state|);
    state[i] == EATING && |state| >= 2 ==> state[LEFT(i, |state|)] != EATING && state[RIGHT(i, |state|)] != EATING
  }

  /** Whoever is hungry has an eating neighbour. */
  predicate Blocked(state: seq<Phil>, i: nat)
    requires i < |state|
  {
    Opposite(i, |state|);
    state[i] == HUNGRY ==> state[LEFT(i, |state|)] == EATING || state[RIGHT(i, |state|)] == EATING
  }

  ghost predicate TableInv(s: Table) {
    && |s.state| == |s.pc| == |s.meals|
    && (forall i :: 0 <= i < |s.state| ==> PhilOk(s, i))
    && (forall i :: 0 <= i < |s.state| ==> Alone(s.state, i))
    && (forall i :: 0 <= i < |s.state| ==> Blocked(s.state, i))
  }

  /** The invariant, but for the hungry of the set `w`, who have still to be looked at. */
  ghost predicate Almost(s: Table, w: set<nat>) {
    && |s.state| == |s.pc| == |s.meals|
    && (forall i :: 0 <= i < |s.state| ==> Alone(s.state, i))
    && (forall i :: 0 <= i < |s.state| && i !in w ==> Blocked(s.state, i))
  }

  lemma TryKeeps(s: Table, i: nat, w: set<nat>)
    requires Seated(s, i) && Almost(s, w)
    ensures Almost(TryToEat(s, i), w - {i})
  {
    var s' := TryToEat(s, i);
    var n := |s.state|;
    Opposite(i, n);
    forall k | 0 <= k < n ensures Alone(s'.state, k) && (k !in w - {i} ==> Blocked(s'.state, k)) {
      Opposite(k, n);
      assert Alone(s.state, k) && (k !in w ==> Blocked(s.state, k));
    }
  }

  /** Setting a philosopher thinking leaves only its neighbours to be looked at. */
  lemma ThinkKeeps(s: Table, i: nat)
    requires Seated(s, i) && TableInv(s)
    ensures Almost(SetState(s, i, THINKING), {LEFT(i, |s.state|), RIGHT(i, |s.state|)})
  {
    var s', n := SetState(s, i, THINKING), |s.state|;
    Opposite(i, n);
    forall k | 0 <= k < n
      ensures Alone(s'.state, k) && (k != LEFT(i, n) && k != RIGHT(i, n) ==> Blocked(s'.state, k))
    {
      Opposite(k, n);
      assert Alone(s.state, k) && Blocked(s.state, k);
    }
  }

  lemma StepsAside(s: Table, s': Table, i: nat)
    requires Seated(s, i) && TableInv(s) && s.state[i] != EATING
    requires |s'.state| == |s'.pc| == |s'.meals| == |s.state| && s'.state == s.state[i := s'.state[i]]
    requires s'.state[i] == NOTHERE || s'.state[i] == THINKING || (s'.state[i] == HUNGRY && s.state[i] != HUNGRY)
    ensures Almost(s', if s'.state[i] == HUNGRY then {i} else {})
  {
    forall k | 0 <= k < |s.state| ensures Alone(s'.state, k) && (k != i || s'.state[i] != HUNGRY ==> Blocked(s'.state, k)) {
      Opposite(k, |s.state|);
      assert Alone(s.state, k) && Blocked(s.state, k);
    }
  }

  lemma StepOkays(s: Table, i: nat)
    requires TableInv(s) && Enabled(s, i)
    ensures |Step(s, i).state| == |Step(s, i).pc| == |Step(s, i).meals| == |s.state|
    ensures forall k :: 0 <= k < |s.state| ==> PhilOk(Step(s, i), k)
  {
    hide LEFT, RIGHT, Alone, Blocked;
    if s.pc[i].Eating? {
      MealOkays(s, i);
    } else {
      var s', n := Step(s, i), |s.state|;
      Opposite(i, n);
      forall k | 0 <= k < n ensures PhilOk(s', k) {
        assert PhilOk(s, k) && PhilOk(s, i);
      }
    }
  }

  lemma MealOkays(s: Table, i: nat)
    requires TableInv(s) && Enabled(s, i) && s.pc[i].Eating?
    ensures |Step(s, i).state| == |Step(s, i).pc| == |Step(s, i).meals| == |s.state|
    ensures forall k :: 0 <= k < |s.state| ==> PhilOk(Step(s, i), k)
  {
    hide LEFT, RIGHT, Alone, Blocked;
    var s', n := Step(s, i), |s.state|;
    Opposite(i, n);
    forall k | 0 <= k < n ensures PhilOk(s', k) {
      assert PhilOk(s, k) && PhilOk(s, i);
    }
  }

  /** Every section keeps the invariant. */
  lemma StepKeeps(s: Table, i: nat)
    requires TableInv(s) && Enabled(s, i)
    ensures TableInv(Step(s, i)) && |Step(s, i).state| == |s.state| && Step(s, i).bites == s.bites
  {
    var s', n := Step(s, i), |s.state|;
    StepOkays(s, i);
    Opposite(i, n);
    assert PhilOk(s, i);
    match s.pc[i]
    case Thinking(_) =>
      var s1 := SetState(s, i, HUNGRY);
      StepsAside(s, s1, i);
      TryKeeps(s1, i, {i});
      SameStates(TryToEat(s1, i), s');
    case Eating(_) =>
      var s1 := SetState(s, i, THINKING);
      ThinkKeeps(s, i);
      TryKeeps(s1, LEFT(i, n), {LEFT(i, n), RIGHT(i, n)});
      var s2 := TryToEat(s1, LEFT(i, n));
      assert {LEFT(i, n), RIGHT(i, n)} - {LEFT(i, n)} - {RIGHT(i, n)} == {};
      TryKeeps(s2, RIGHT(i, n), {LEFT(i, n), RIGHT(i, n)} - {LEFT(i, n)});
      SameStates(TryToEat(s2, RIGHT(i, n)), s');
    case Waiting(_, _) => SameStates(s, s');
    case _ => StepsAside(s, s', i);
  }

  /** Who eats after a meal of philosopher `i`. Its left neighbour is looked at first, and eats if it is
      hungry and its own left neighbour is not eating. Then the right one, in the state that this
      leaves: so of the three at a table of three, when all want to eat, the left one does. */
  lemma MealTheorem(s: Table, i: nat)
    requires TableInv(s) && Enabled(s, i) && s.pc[i].Eating?
    ensures var n, s' := |s.state|, Step(s, i); var l, r := LEFT(i, n), RIGHT(i, n);
      && 0 <= l < n && 0 <= r < n && 0 <= LEFT(l, n) < n && 0 <= RIGHT(r, n) < n
      && |s'.state| == n && s'.state[i] == THINKING && s'.meals == s.meals[i := s.meals[i] + 1]
      && (l != i ==>
            s'.state[l] == if s.state[l] == HUNGRY && (LEFT(l, n) == i || s.state[LEFT(l, n)] != EATING)
                           then EATING else s.state[l])
      && (r != i && r != l ==>
            s'.state[r] == if s.state[r] == HUNGRY && s'.state[RIGHT(r, n)] != EATING then EATING else s.state[r])
      && (forall k :: 0 <= k < n && k != i && k != l && k != r ==> s'.state[k] == s.state[k])
      && (n == 3 && s.state[l] == s.state[r] == HUNGRY ==> s'.state[l] == EATING && s'.state[r] == HUNGRY)
  {
    hide LEFT, RIGHT, PhilOk, Blocked;
    var n := |s.state|;
    var l, r := LEFT(i, n), RIGHT(i, n);
    Opposite(i, n);
    Opposite(l, n);
    Opposite(r, n);
    EatingAlone(s, i);
    if n == 3 {
      AroundThree(i);
    }
  }

  lemma EatingAlone(s: Table, i: nat)
    requires TableInv(s) && Enabled(s, i) && s.pc[i].Eating?
    ensures s.state[i] == EATING && Alone(s.state, i)
  {
    assert PhilOk(s, i);
  }

  /** At a table of three the two neighbours sit beside each other. */
  lemma AroundThree(i: nat)
    requires i < 3
    ensures LEFT(LEFT(i, 3), 3) == RIGHT(i, 3) && RIGHT(RIGHT(i, 3), 3) == LEFT(i, 3)
  {
  }

  lemma SameStates(s: Table, s': Table)
    requires Almost(s, {}) && s'.state == s.state && |s'.pc| == |s'.meals| == |s.state|
    ensures Almost(s', {})
  {
  }

  // ----- runs -----

  ghost predicate TableBoot(s: Table) {
    && |s.state| == |s.pc| == |s.meals|
    && forall i :: 0 <= i < |s.state| ==> s.state[i] == NOTHERE && s.pc[i] == Arriving && s.meals[i] == 0
  }

  /** A run: `who[k]` is the philosopher whose section is the `k`-th step. */
  ghost predicate TableRun(tr: seq<Table>, who: seq<nat>) {
    && |tr| == |who| + 1
    && TableBoot(tr[0])
    && forall k :: 0 <= k < |who| ==> Enabled(tr[k], who[k]) && tr[k + 1] == Step(tr[k], who[k])
  }

  lemma {:induction false} TableRunInv(tr: seq<Table>, who: seq<nat>, k: nat)
    requires TableRun(tr, who) && k < |tr|
    ensures TableInv(tr[k]) && |tr[k].state| == |tr[0].state| && tr[k].bites == tr[0].bites
  {
    if k > 0 {
      TableRunInv(tr, who, k - 1);
      StepKeeps(tr[k - 1], who[k - 1]);
    }
  }

  /** In every run: neighbours never eat together, and whoever is hungry while the mutex is free
      has an eating neighbour. A philosopher past its wait is eating, so that the assertion
      after the loop holds. */
  lemma SymposiumSafety(tr: seq<Table>, who: seq<nat>, k: nat, i: nat)
    requires TableRun(tr, who) && k < |tr| && i < |tr[k].state|
    ensures 0 <= LEFT(i, |tr[k].state|) < |tr[k].state| && 0 <= RIGHT(i, |tr[k].state|) < |tr[k].state|
    ensures var state, left, right := tr[k].state, LEFT(i, |tr[k].state|), RIGHT(i, |tr[k].state|);
      && (left != i && state[i] == EATING ==> state[left] != EATING)
      && (state[i] == HUNGRY ==> state[left] == EATING || state[right] == EATING)
    ensures Seated(tr[k], i) && (tr[k].pc[i].Eating? ==> tr[k].state[i] == EATING)
  {
    TableRunInv(tr, who, k);
    Opposite(i, |tr[k].state|);
    assert Alone(tr[k].state, i) && Blocked(tr[k].state, i) && PhilOk(tr[k], i);
  }

  /** Nobody is ever stuck: as long as somebody has not gone, some philosopher can go on. */
  lemma SomebodyGoesOn(s: Table, i: nat)
    requires TableInv(s) && i < |s.state| && s.pc[i] != Gone
    ensures exists k :: Enabled(s, k)
  {
    var n := |s.state|;
    Opposite(i, n);
    assert PhilOk(s, i) && Blocked(s.state, i);
    assert PhilOk(s, LEFT(i, n)) && PhilOk(s, RIGHT(i, n));
    if s.state[i] != HUNGRY {
      assert Enabled(s, i);
    } else if s.state[LEFT(i, n)] == EATING {
      assert Enabled(s, LEFT(i, n));
    } else {
      assert Enabled(s, RIGHT(i, n));
    }
  }

  // ----- the end -----

  /** How far philosopher `i` is from being gone. */
  function ToGo(x: Pc, bites: nat): int {
    match x
    case Arriving => 4 * bites + 2
    case Thinking(j) => 4 * (bites - j) + 1
    case Waiting(j, asleep) => 4 * (bites - j) - if asleep then 0 else 1
    case Eating(j) => 4 * (bites - j) - 2
    case Leaving => 1
    case Gone => 0
  }

  function Distance(pc: seq<Pc>, bites: nat): int {
    if pc == [] then 0 else ToGo(pc[0], bites) + Distance(pc[1..], bites)
  }

  lemma {:induction false} DistanceDrops(pc: seq<Pc>, pc': seq<Pc>, bites: nat, i: nat)
    requires |pc'| == |pc| && i < |pc| && ToGo(pc'[i], bites) < ToGo(pc[i], bites)
    requires forall k :: 0 <= k < |pc| ==> ToGo(pc'[k], bites) <= ToGo(pc[k], bites)
    ensures Distance(pc', bites) < Distance(pc, bites)
  {
    if i > 0 {
      DistanceDrops(pc[1..], pc'[1..], bites, i - 1);
    } else {
      DistanceNoMore(pc[1..], pc'[1..], bites);
    }
  }

  lemma {:induction false} DistanceNoMore(pc: seq<Pc>, pc': seq<Pc>, bites: nat)
    requires |pc'| == |pc| && forall k :: 0 <= k < |pc| ==> ToGo(pc'[k], bites) <= ToGo(pc[k], bites)
    ensures Distance(pc', bites) <= Distance(pc, bites)
  {
    if pc != [] {
      DistanceNoMore(pc[1..], pc'[1..], bites);
    }
  }

  /** Every section brings the table nearer the end. */
  lemma StepDrops(s: Table, i: nat)
    requires TableInv(s) && Enabled(s, i)
    ensures Distance(Step(s, i).pc, s.bites) < Distance(s.pc, s.bites)
  {
    var s', n := Step(s, i), |s.state|;
    StepKeeps(s, i);
    Opposite(i, n);
    assert PhilOk(s, i);
    hide LEFT, RIGHT, Alone, Blocked;
    forall k | 0 <= k < n ensures ToGo(s'.pc[k], s.bites) <= ToGo(s.pc[k], s.bites) {
    }
    DistanceDrops(s.pc, s'.pc, s.bites, i);
  }

  lemma {:induction false} DistanceBounds(pc: seq<Pc>, bites: nat, most: nat)
    requires forall i :: 0 <= i < |pc| ==> 0 <= ToGo(pc[i], bites) <= most
    ensures 0 <= Distance(pc, bites) <= |pc| * most
  {
    if pc != [] {
      DistanceBounds(pc[1..], bites, most);
      assert |pc| * most == |pc[1..]| * most + most;
    }
  }

  lemma TableDistance(s: Table)
    requires TableInv(s)
    ensures 0 <= Distance(s.pc, s.bites) <= |s.state| * (4 * s.bites + 2)
  {
    forall i | 0 <= i < |s.pc| ensures 0 <= ToGo(s.pc[i], s.bites) <= 4 * s.bites + 2 {
      assert PhilOk(s, i);
    }
    DistanceBounds(s.pc, s.bites, 4 * s.bites + 2);
  }

  lemma {:induction false} RunLength(tr: seq<Table>, who: seq<nat>, k: nat)
    requires TableRun(tr, who) && k < |tr|
    ensures Distance(tr[k].pc, tr[0].bites) + k <= Distance(tr[0].pc, tr[0].bites)
  {
    if k > 0 {
      RunLength(tr, who, k - 1);
      TableRunInv(tr, who, k - 1);
      StepDrops(tr[k - 1], who[k - 1]);
    }
  }

  /** The symposium ends: no run is longer than `N * (4 * bites + 2)` sections, and a run that
      cannot go on has everybody NOTHERE, gone after exactly `bites` meals. */
  lemma SymposiumEnds(tr: seq<Table>, who: seq<nat>, i: nat)
    requires TableRun(tr, who)
    ensures |who| <= |tr[0].state| * (4 * tr[0].bites + 2)
    ensures var s := tr[|who|];
      (forall k :: !Enabled(s, k)) && i < |s.state| ==>
        Seated(s, i) && s.pc[i] == Gone && s.state[i] == NOTHERE && s.meals[i] == tr[0].bites
  {
    var s := tr[|who|];
    TableRunInv(tr, who, 0);
    TableRunInv(tr, who, |who|);
    RunLength(tr, who, |who|);
    TableDistance(tr[0]);
    TableDistance(s);
    if i < |s.state| && s.pc[i] != Gone {
      SomebodyGoesOn(s, i);
    }
    assert i < |s.state| ==> PhilOk(s, i);
  }
}

/** The monitor itself, over its array of states changed in place. */
module Symposia {
  import opened SymposiumModel

  class SymposiumTable {
    const N: nat
    const bites: nat
    const state: array<Phil>
    const pc: array<Pc>        // where each philosopher is, and whether it sleeps on its condition
    ghost var meals: seq<nat>

    ghost predicate Valid()
      reads this
    {
      N == state.Length == pc.Length == |meals|
    }

    ghost function View(): Table
      reads this, state, pc
    {
      Table(state[..], pc[..], meals, bites)
    }

    constructor (n: nat, bites: nat)
      ensures Valid() && N == n && this.bites == bites && fresh(state) && fresh(pc)
      ensures TableBoot(View())
    {
      N, this.bites := n, bites;
      state, pc := new Phil[n](i => NOTHERE), new Pc[n](i => Arriving);
      meals := seq(n, i => 0);
    }

    method TryToEat(i: nat)
      requires Valid() && i < N
      modifies state, pc
      ensures Valid() && View() == SymposiumModel.TryToEat(old(View()), i)
    {
      Opposite(i, N);
      if state[i] == HUNGRY && state[LEFT(i, N)] != EATING && state[RIGHT(i, N)] != EATING {
        state[i] := EATING;
        if pc[i].Waiting? {
          pc[i] := Waiting(pc[i].j, false);
        }
      }
    }

    method Arrive(i: nat)
      requires Valid() && TableInv(View()) && i < N && pc[i] == Arriving
      modifies state, pc
      ensures Valid() && TableInv(View()) && View() == Step(old(View()), i)
    {
      StepKeeps(View(), i);
      state[i] := THINKING;
      pc[i] := if 0 < bites then Thinking(0) else Leaving;
    }

    /** The philosopher becomes hungry; it eats at once, or waits. */
    method GetHungry(i: nat)
      requires Valid() && TableInv(View()) && i < N && pc[i].Thinking?
      modifies state, pc
      ensures Valid() && TableInv(View()) && View() == Step(old(View()), i)
    {
      hide TableInv, SymposiumModel.TryToEat;
      ghost var s := View();
      StepKeeps(s, i);
      var j := pc[i].j;
      state[i] := HUNGRY;
      assert View() == SetState(s, i, HUNGRY);
      TryToEat(i);
      pc[i] := if state[i] == HUNGRY then Waiting(j, true) else Eating(j);
    }

    /** The philosopher has been signalled, and tests its state again. */
    method GoOn(i: nat)
      requires Valid() && TableInv(View()) && i < N && pc[i].Waiting? && !pc[i].asleep
      modifies pc
      ensures Valid() && TableInv(View()) && View() == Step(old(View()), i)
      ensures state[i] == EATING
    {
      StepKeeps(View(), i);
      assert PhilOk(View(), i);
      var j := pc[i].j;
      pc[i] := if state[i] == HUNGRY then Waiting(j, true) else Eating(j);
    }

    /** The philosopher thinks again, and its neighbours may eat. */
    method FinishMeal(i: nat)
      requires Valid() && TableInv(View()) && i < N && pc[i].Eating?
      modifies this`meals, state, pc
      ensures Valid() && TableInv(View()) && View() == Step(old(View()), i)
    {
      hide TableInv, SymposiumModel.TryToEat, LEFT, RIGHT;
      ghost var s := View();
      StepKeeps(s, i);
      Opposite(i, N);
      var j := pc[i].j;
      state[i] := THINKING;
      assert View() == SetState(s, i, THINKING);
      TryToEat(LEFT(i, N));
      TryToEat(RIGHT(i, N));
      pc[i] := if j + 1 < bites then Thinking(j + 1) else Leaving;
      meals := meals[i := meals[i] + 1];
    }

    method Leave(i: nat)
      requires Valid() && TableInv(View()) && i < N && pc[i] == Leaving
      modifies state, pc
      ensures Valid() && TableInv(View()) && View() == Step(old(View()), i)
    {
      StepKeeps(View(), i);
      state[i] := NOTHERE;
      pc[i] := Gone;
    }
  }
}
