/** Progress of the hierarchical barrier: the last arriver of a barrier holds it until it releases it, so
    that once every thread has made its wait call of a round, some thread can always go on, and the
    round can be completed from every reachable state. */
module BarrierProgress {

  import opened Barrier

  /** The thread arrived last at barrier b, and b is on its stack: below the top it is in the finalizer
      of b, at the top it resets, runs the finalizer or releases. */
  ghost predicate Holds(tree: Tree, s: State, t: nat, b: Bar) {
    t in s.locals && exists i: nat :: HoldsAt(tree, s.locals[t], b, i)
  }

  ghost predicate HoldsAt(tree: Tree, l: Local, b: Bar, i: nat) {
    && i < |l.stack| && l.stack[i] in tree.at && tree.at[l.stack[i]] == b
    && (i == |l.stack| - 1 ==> l.stage.Reset? || l.stage.Finalize? || l.stage.Release?)
  }

  ghost predicate HeldOk(tree: Tree, s: State, b: Bar) {
    b in s.bars && s.bars[b].last.By? ==> Holds(tree, s, s.bars[b].last.t, b)
  }

  ghost predicate Held(tree: Tree, s: State) {
    forall b {:trigger HeldOk(tree, s, b)} :: HeldOk(tree, s, b)
  }

  /** Other threads hold what they held. */
  lemma OtherHolds(tree: Tree, s: State, s': State, t: nat, b: Bar)
    requires t in s.locals && t in s'.locals && s'.locals[t] == s.locals[t] && Holds(tree, s, t, b)
    ensures Holds(tree, s', t, b)
  {
    var i: nat :| HoldsAt(tree, s.locals[t], b, i);
    assert HoldsAt(tree, s'.locals[t], b, i);
  }

  /** The thread itself holds what is below its top, and more. */
  ghost predicate Keeps(tree: Tree, l: Local, l': Local) {
    forall b: Bar, i: nat {:trigger HoldsAt(tree, l, b, i)} :: HoldsAt(tree, l, b, i) ==> HoldsAt(tree, l', b, i)
  }

  lemma HeldFrame(tree: Tree, s: State, s': State, t: nat)
    requires Held(tree, s) && SameOthers(s, s', t) && Keeps(tree, s.locals[t], s'.locals[t])
    requires s'.bars.Keys == s.bars.Keys && forall b :: b in s.bars ==> s'.bars[b].last == s.bars[b].last
    ensures Held(tree, s')
  {
    hide HoldsAt;
    forall b {:trigger HeldOk(tree, s', b)}
      ensures HeldOk(tree, s', b)
    {
      assert HeldOk(tree, s, b);
      if b in s'.bars && s'.bars[b].last.By? {
        var u := s'.bars[b].last.t;
        if u != t {
          OtherHolds(tree, s, s', u, b);
        } else {
          var i: nat :| HoldsAt(tree, s.locals[t], b, i);
          assert HoldsAt(tree, s'.locals[t], b, i);
        }
      }
    }
  }

  lemma InitHeld(tree: Tree, s: State)
    requires Init(tree, s)
    ensures Held(tree, s)
  {}

  /** A step of the thread that neither arrives last nor releases. */
  lemma QuietStep(tree: Tree, s: State, s': State, t: nat)
    requires Inv(tree, s) && Held(tree, s)
    requires EnterStep(tree, s, s', t) || LoadStep(tree, s, s', t) || ResetStep(tree, s, s', t)
             || FinalizeStep(tree, s, s', t) || SpinStep(tree, s, s', t)
    ensures Held(tree, s')
  {
    hide Held, HoldsAt, BarsOk, LocalsOk, WinnerOk, TreeOk;
    QuietKeeps(tree, s, s', t);
    HeldFrame(tree, s, s', t);
  }

  lemma QuietKeeps(tree: Tree, s: State, s': State, t: nat)
    requires Inv(tree, s)
    requires EnterStep(tree, s, s', t) || LoadStep(tree, s, s', t) || ResetStep(tree, s, s', t)
             || FinalizeStep(tree, s, s', t) || SpinStep(tree, s, s', t)
    ensures SameOthers(s, s', t) && Keeps(tree, s.locals[t], s'.locals[t])
    ensures s'.bars.Keys == s.bars.Keys && forall b :: b in s.bars ==> s'.bars[b].last == s.bars[b].last
  {
    hide BarsOk, LocalsOk, WinnerOk, TreeOk, Keeps, Leave;
    if EnterStep(tree, s, s', t) {
      NothingKept(tree, s.locals[t], s'.locals[t]);
    } else if SpinStep(tree, s, s', t) && s' != s {
      LeaveShares(tree, s, s', t, false);
      LeaveKeeps(tree, s, s', t);
    } else if s' == s {
      SameKept(tree, s.locals[t]);
    } else {
      WaitsHere(tree, s, t);
      UpwardKeeps(tree, s.locals[t], s'.locals[t]);
    }
  }

  lemma NothingKept(tree: Tree, l: Local, l': Local)
    requires l.stack == []
    ensures Keeps(tree, l, l')
  {}

  lemma SameKept(tree: Tree, l: Local)
    ensures Keeps(tree, l, l)
  {}

  lemma LeaveKeeps(tree: Tree, s: State, s': State, t: nat)
    requires t in s.locals && s.locals[t].stack != [] && s.locals[t].stage.Spin? && s' == Leave(s, t, false)
    ensures Keeps(tree, s.locals[t], s'.locals[t])
  {}

  lemma UpwardKeeps(tree: Tree, l: Local, l': Local)
    requires l.stack != [] && l.stack <= l'.stack
    requires l.stage.LoadRound? || (l.stage.Reset? && l'.stage.Finalize? && l'.stack == l.stack)
             || (l.stage.Finalize? && (|l'.stack| > |l.stack| || l'.stage.Release?))
    ensures Keeps(tree, l, l')
  {}

  lemma SubtractHeld(tree: Tree, s: State, s': State, t: nat)
    requires Inv(tree, s) && Held(tree, s) && SubtractStep(tree, s, s', t)
    ensures Held(tree, s')
  {
    hide BarsOk, LocalsOk, WinnerOk, TreeOk, HoldsAt;
    WaitsHere(tree, s, t);
    var b0 := Here(tree, s, t);
    forall b {:trigger HeldOk(tree, s', b)}
      ensures HeldOk(tree, s', b)
    {
      assert HeldOk(tree, s, b);
      if b in s'.bars && s'.bars[b].last.By? {
        var u := s'.bars[b].last.t;
        if b == b0 && s.bars[b].cntr == 1 {
          TopHeld(tree, s', t, b);
        } else if u != t {
          OtherHolds(tree, s, s', u, b);
        } else {
          var i: nat :| HoldsAt(tree, s.locals[t], b, i);
          BelowHeld(tree, s.locals[t], s'.locals[t], b, i);
        }
      }
    }
  }

  lemma TopHeld(tree: Tree, s: State, t: nat, b: Bar)
    requires Waiting(tree, s, t) && Here(tree, s, t) == b && s.locals[t].stage.Reset?
    ensures Holds(tree, s, t, b)
  {
    assert HoldsAt(tree, s.locals[t], b, |s.locals[t].stack| - 1);
  }

  lemma BelowHeld(tree: Tree, l: Local, l': Local, b: Bar, i: nat)
    requires HoldsAt(tree, l, b, i) && l.stage.Subtract? && l'.stack == l.stack
    ensures HoldsAt(tree, l', b, i)
  {}

  lemma ReleaseHeld(tree: Tree, s: State, s': State, t: nat)
    requires Inv(tree, s) && Held(tree, s) && ReleaseStep(tree, s, s', t)
    ensures Held(tree, s')
  {
    hide BarsOk, LocalsOk, WinnerOk, TreeOk, HoldsAt;
    var b0 := Here(tree, s, t);
    forall b {:trigger HeldOk(tree, s', b)}
      ensures HeldOk(tree, s', b)
    {
      assert HeldOk(tree, s, b);
      if b in s'.bars && s'.bars[b].last.By? {
        var u := s'.bars[b].last.t;
        if u != t {
          OtherHolds(tree, s, s', u, b);
        } else {
          var i: nat :| HoldsAt(tree, s.locals[t], b, i);
          LowerHeld(tree, s, s', t, b, i);
        }
      }
    }
  }

  lemma LowerHeld(tree: Tree, s: State, s': State, t: nat, b: Bar, i: nat)
    requires Shape(tree, s) && ReleaseStep(tree, s, s', t) && HoldsAt(tree, s.locals[t], b, i) && b != Here(tree, s, t)
    ensures HoldsAt(tree, s'.locals[t], b, i)
  {
    hide TreeOk;
  }

  lemma StepKeepsHeld(tree: Tree, s: State, s': State, t: nat)
    requires Inv(tree, s) && Held(tree, s) && Step(tree, s, s', t)
    ensures Held(tree, s')
  {
    hide Held, BarsOk, LocalsOk, WinnerOk, TreeOk, EnterStep, LoadStep, SubtractStep, ResetStep, FinalizeStep,
        ReleaseStep, SpinStep;
    if SubtractStep(tree, s, s', t) {
      SubtractHeld(tree, s, s', t);
    } else if ReleaseStep(tree, s, s', t) {
      ReleaseHeld(tree, s, s', t);
    } else {
      QuietStep(tree, s, s', t);
    }
  }

  lemma {:induction false} RunKeepsHeld(tree: Tree, run: seq<State>, who: seq<nat>, n: nat)
    requires IsRun(tree, run, who) && n < |run|
    ensures Held(tree, run[n])
  {
    hide Init, Step, Inv, Shape, Held;
    if n == 0 {
      InitHeld(tree, run[0]);
    } else {
      RunKeepsHeld(tree, run, who, n - 1);
      RunKeepsInv(tree, run, who, n - 1);
      StepKeepsHeld(tree, run[n - 1], run[n], who[n - 1]);
    }
  }

  // ---- no deadlock

  /** Every thread has made its wait call number r, and all calls before are over. */
  ghost predicate AllIn(s: State, r: nat) {
    forall t {:trigger s.locals[t]} :: t in s.locals ==> s.locals[t].entered >= r + 1 && s.locals[t].Returned() >= r
  }

  /** The thread is still inside call number r. */
  ghost predicate Inside(s: State, t: nat, r: nat) {
    t in s.locals && s.locals[t].Returned() == r
  }

  /** The thread can only spin in vain. */
  ghost predicate Stuck(tree: Tree, s: State, t: nat) {
    && Waiting(tree, s, t) && s.locals[t].stage.Spin? && Here(tree, s, t) in s.bars
    && s.bars[Here(tree, s, t)].round == s.locals[t].stage.prevRound
  }

  /** Any other thread inside a call can take a step. */
  lemma CanStep(tree: Tree, s: State, t: nat) returns (s': State)
    requires Inv(tree, s) && t in s.locals && s.locals[t].stack != [] && !Stuck(tree, s, t)
    ensures Step(tree, s, s', t) && s' != s
  {
    hide BarsOk, LocalsOk, WinnerOk, TreeOk, ResultsOk, LowersOk, StackOk;
    WaitsHere(tree, s, t);
    var l, b := s.locals[t], Here(tree, s, t);
    match l.stage
    case LoadRound =>
      s' := Goto(s, t, Subtract(s.bars[b].round));
      assert LoadStep(tree, s, s', t);
    case Subtract(prev) =>
      var was := s.bars[b].cntr;
      var bar := s.bars[b].(cntr := if was > 0 then was - 1 else 0xFFFF_FFFF_FFFF_FFFF,
                            arrived := s.bars[b].arrived + {Top(l)});
      s' := if was == 1 then Goto(s.(bars := s.bars[b := bar.(last := By(t))]), t, Reset)
            else Goto(s.(bars := s.bars[b := bar]), t, Spin(prev));
      assert SubtractStep(tree, s, s', t);
    case Spin(prev) =>
      s' := Leave(s, t, false);
      assert SpinStep(tree, s, s', t);
    case Reset =>
      s' := Goto(s.(bars := s.bars[b := s.bars[b].(cntr := tree.count[b])]), t, Finalize);
      assert ResetStep(tree, s, s', t);
    case Finalize =>
      s' := if Child(b) in tree.at
          then s.(locals := s.locals[t := l.(stack := l.stack + [Child(b)], stage := LoadRound)])
            else Goto(s.(winner := s.winner + [t]), t, Release(true));
      assert FinalizeStep(tree, s, s', t);
    case Release(result) =>
      s' := Leave(Released(s, b), t, result);
      assert ReleaseStep(tree, s, s', t);
  }

  lemma WaitsHere(tree: Tree, s: State, t: nat)
    requires Inv(tree, s) && t in s.locals && s.locals[t].stack != []
    ensures Waiting(tree, s, t) && Here(tree, s, t) in tree.count && Here(tree, s, t) in s.bars
    ensures !s.locals[t].stage.Idle?
  {
    hide BarsOk, WinnerOk, Members;
    LocalIn(tree, s, t);
  }

  lemma StuckIs(tree: Tree, s: State, t: nat)
    requires Inv(tree, s) && Stuck(tree, s, t)
    ensures var b := Here(tree, s, t);
      && b in tree.count && s.bars[b].epoch == s.locals[t].Returned()
      && Top(s.locals[t]) in s.bars[b].arrived && s.bars[b].last != By(t)
  {
    hide BarsOk, LocalsOk, WinnerOk, Members, ResultsOk, LowersOk;
    LocalIn(tree, s, t);
    RoundIsEpoch(tree, s, Here(tree, s, t));
  }

  ghost predicate AllStuck(tree: Tree, s: State, r: nat) {
    forall t {:trigger Inside(s, t, r)} :: Inside(s, t, r) ==> Stuck(tree, s, t)
  }

  /** The last arriver of a barrier is in the barrier's round.  When it is stuck, then above, and it has
      arrived there. */
  lemma HolderIs(tree: Tree, s: State, b: Bar, u: nat, r: nat)
    requires Inv(tree, s) && Held(tree, s) && AllStuck(tree, s, r) && b in tree.count && s.bars[b].last == By(u)
    ensures u in s.locals && s.locals[u].Returned() == s.bars[b].epoch
    ensures s.bars[b].epoch == r ==> Child(b) in tree.at && tree.at[Child(b)] in tree.count
    ensures s.bars[b].epoch == r ==>
      var p := tree.at[Child(b)]; s.bars[p].epoch == r && Child(b) in s.bars[p].arrived
  {
    hide BarsOk, LocalsOk, WinnerOk, ResultsOk, Members, TreeOk;
    assert HeldOk(tree, s, b);
    var i: nat :| HoldsAt(tree, s.locals[u], b, i);
    LocalIn(tree, s, u);
    var l, inside := s.locals[u], Inside(s, u, r);
    if i < |l.stack| - 1 {
      assert LowerOk(tree, s, u, tree.at[l.stack[i]]);
      if s.bars[b].epoch == r { AboveIs(tree, s, u, i); }
    } else {
      WaitsHere(tree, s, u);
    }
  }

  lemma AboveIs(tree: Tree, s: State, u: nat, i: nat)
    requires Inv(tree, s) && Stuck(tree, s, u) && i + 1 < |s.locals[u].stack|
    requires s.locals[u].stack[i] in tree.at
    ensures var l := s.locals[u];
      && Child(tree.at[l.stack[i]]) in tree.at
      && var p := tree.at[Child(tree.at[l.stack[i]])];
         p in tree.count && s.bars[p].epoch == l.Returned() && Child(tree.at[l.stack[i]]) in s.bars[p].arrived
  {
    hide BarsOk, LocalsOk, WinnerOk, ResultsOk;
    LocalIn(tree, s, u);
    var l := s.locals[u];
    assert l.stack[i + 1] == Child(tree.at[l.stack[i]]);
    if i + 1 == |l.stack| - 1 {
      StuckIs(tree, s, u);
    } else {
      assert LowerOk(tree, s, u, tree.at[l.stack[i + 1]]);
      BarIn(tree, s, tree.at[l.stack[i + 1]]);
    }
  }

  /** A stuck thread's round is that of the root, where somebody is missing. */
  lemma {:induction false} RootIsOpen(tree: Tree, s: State, b: Bar, r: nat)
    requires Inv(tree, s) && Held(tree, s) && AllStuck(tree, s, r) && b in tree.count && s.bars[b].epoch == r
    ensures s.bars[tree.root].last == Nobody && s.bars[tree.root].epoch == r
    decreases tree.root.level - b.level
  {
    hide BarOk, LocalsOk, WinnerOk, Held, AllStuck, Members;
    if s.bars[b].last == Nobody {
      QuietUpToRoot(tree, s, b);
    } else {
      HolderIs(tree, s, b, s.bars[b].last.t, r);
      RootIsOpen(tree, s, tree.at[Child(b)], r);
    }
  }

  /** But then somebody is missing at a leaf, although everybody has arrived there. */
  lemma {:induction false} NobodyMissing(tree: Tree, s: State, b: Bar, r: nat)
    requires Inv(tree, s) && Held(tree, s) && AllStuck(tree, s, r) && AllIn(s, r)
    requires b in tree.count && s.bars[b].last == Nobody && s.bars[b].epoch == r
    ensures false
    decreases b.level
  {
    hide BarsOk, LocalsOk, WinnerOk, Held, AllStuck, ResultsOk;
    BarIn(tree, s, b);
    var p :| p in Members(tree, b) && p !in s.bars[b].arrived;
    match p
    case Child(c) =>
      BarIn(tree, s, c);
      if s.bars[c].last == Nobody {
        NobodyMissing(tree, s, c, r);
      } else {
        HolderIs(tree, s, c, s.bars[c].last.t, r);
      }
    case Thread(v) => ThreadArrived(tree, s, b, v, r);
  }

  lemma ThreadArrived(tree: Tree, s: State, b: Bar, v: nat, r: nat)
    requires Inv(tree, s) && AllStuck(tree, s, r) && AllIn(s, r)
    requires Thread(v) in tree.at && tree.at[Thread(v)] == b && b in tree.count
    requires s.bars[b].last == Nobody && s.bars[b].epoch == r
    ensures Thread(v) in s.bars[b].arrived
  {
    hide BarsOk, LocalsOk, WinnerOk, ResultsOk, Members;
    LocalIn(tree, s, v);
    var inside := Inside(s, v, r);
    if |s.locals[v].stack| > 1 { LeafIsHeld(tree, s, v); }
  }

  lemma LeafIsHeld(tree: Tree, s: State, v: nat)
    requires Shape(tree, s) && v in s.locals && LocalOk(tree, s, v) && |s.locals[v].stack| > 1
    ensures Thread(v) in tree.at && LowerOk(tree, s, v, tree.at[Thread(v)])
  {
    assert LowerOk(tree, s, v, tree.at[s.locals[v].stack[0]]);
  }

  /** While a call of round r is not over, some thread in that round can take a step. */
  lemma SomeThreadMoves(tree: Tree, s: State, r: nat, t0: nat) returns (t: nat, s': State)
    requires Inv(tree, s) && Held(tree, s) && AllIn(s, r) && Inside(s, t0, r)
    ensures Inside(s, t, r) && s.locals[t].stack != [] && Step(tree, s, s', t) && s' != s
  {
    hide BarsOk, LocalsOk, WinnerOk, Held, Stuck, Step, TreeOk;
    if t1: nat :| Inside(s, t1, r) && !Stuck(tree, s, t1) {
      t := t1;
      InsideWaits(tree, s, t, r);
      s' := CanStep(tree, s, t);
    } else {
      NotAllStuck(tree, s, r, t0);
    }
  }

  lemma NotAllStuck(tree: Tree, s: State, r: nat, t0: nat)
    requires Inv(tree, s) && Held(tree, s) && AllIn(s, r) && Inside(s, t0, r)
    ensures !AllStuck(tree, s, r)
  {
    hide BarsOk, LocalsOk, WinnerOk, Held, Members;
    if AllStuck(tree, s, r) {
      StuckIs(tree, s, t0);
      RootIsOpen(tree, s, Here(tree, s, t0), r);
      NobodyMissing(tree, s, tree.root, r);
    }
  }

  lemma InsideWaits(tree: Tree, s: State, t: nat, r: nat)
    requires Inv(tree, s) && AllIn(s, r) && Inside(s, t, r)
    ensures s.locals[t].stack != []
  {
    hide BarsOk, WinnerOk, ResultsOk, Members;
    LocalIn(tree, s, t);
  }

  // ---- the round can be completed

  /** Steps a thread still has to take, at most, in its call. */
  function Effort(tree: Tree, l: Local): nat {
    if l.stack == [] || Top(l) !in tree.at || tree.at[Top(l)].level > tree.root.level then 0
    else
      var above := tree.root.level - tree.at[Top(l)].level;
      match l.stage
      case Idle => 0
      case LoadRound => |l.stack| + 6 * above + 5
      case Subtract(_) => |l.stack| + 6 * above + 4
      case Reset => |l.stack| + 6 * above + 3
      case Finalize => |l.stack| + 6 * above + 2
      case Spin(_) => |l.stack|
      case Release(_) => |l.stack|
  }

  function EffortIn(tree: Tree, l: Local, r: nat): nat { if l.Returned() == r then Effort(tree, l) else 0 }

  lemma UpEffort(tree: Tree, l: Local, l': Local)
    requires l.stack != [] && Top(l) in tree.at && tree.at[Top(l)].level <= tree.root.level && l'.stack == l.stack
    requires match l.stage
             case LoadRound => l'.stage.Subtract?
             case Subtract(_) => l'.stage.Reset? || l'.stage.Spin?
             case Reset => l'.stage.Finalize?
             case Finalize => l'.stage.Release?
             case _ => false
    ensures Effort(tree, l') < Effort(tree, l)
  {}

  lemma AscendEffort(tree: Tree, l: Local, l': Local)
    requires l.stack != [] && Top(l) in tree.at && l.stage.Finalize? && l'.stage.LoadRound?
    requires var up := Child(tree.at[Top(l)]);
      && up in tree.at && tree.at[Top(l)].level < tree.at[up].level <= tree.root.level
      && l'.stack == l.stack + [up]
    ensures Effort(tree, l') < Effort(tree, l)
  {}

  lemma LeaveEffort(tree: Tree, s: State, t: nat, result: bool)
    requires t in s.locals && s.locals[t].stack != [] && (s.locals[t].stage.Spin? || s.locals[t].stage.Release?)
    requires Top(s.locals[t]) in tree.at && tree.at[Top(s.locals[t])].level <= tree.root.level
    ensures var l, l' := s.locals[t], Leave(s, t, result).locals[t];
      && l'.Returned() >= l.Returned() && l'.entered == l.entered
      && EffortIn(tree, l', l.Returned()) < EffortIn(tree, l, l.Returned())
  {}

  lemma TopFacts(tree: Tree, s: State, t: nat)
    requires Inv(tree, s) && t in s.locals && s.locals[t].stack != []
    ensures Waiting(tree, s, t) && Here(tree, s, t) in s.bars && Here(tree, s, t).level <= tree.root.level
    ensures Child(Here(tree, s, t)) in tree.at ==>
      Here(tree, s, t).level < tree.at[Child(Here(tree, s, t))].level <= tree.root.level
  {
    hide BarsOk, LocalsOk, WinnerOk, Members;
    WaitsHere(tree, s, t);
  }

  /** A step of a thread inside its call that changes anything brings it closer to the end. */
  lemma StepIsEffort(tree: Tree, s: State, s': State, t: nat, r: nat)
    requires Inv(tree, s) && Step(tree, s, s', t) && s' != s && s.locals[t].stack != [] && s.locals[t].Returned() == r
    ensures SameOthers(s, s', t) && s'.locals[t].Returned() >= r && s'.locals[t].entered == s.locals[t].entered
    ensures EffortIn(tree, s'.locals[t], r) < EffortIn(tree, s.locals[t], r)
  {
    hide BarsOk, LocalsOk, WinnerOk, TreeOk, Effort;
    TopFacts(tree, s, t);
    var b, l := Here(tree, s, t), s.locals[t];
    match l.stage
    case Spin(_) => LeaveEffort(tree, s, t, false);
    case Release(result) => LeaveEffort(tree, Released(s, b), t, result);
    case Finalize =>
      if Child(b) in tree.at { AscendEffort(tree, l, s'.locals[t]); } else { UpEffort(tree, l, s'.locals[t]); }
    case LoadRound => UpEffort(tree, l, s'.locals[t]);
    case Subtract(_) => UpEffort(tree, l, s'.locals[t]);
    case Reset => UpEffort(tree, l, s'.locals[t]);
  }

  ghost function Total(tree: Tree, ls: map<nat, Local>, ts: set<nat>, r: nat): nat
    requires ts <= ls.Keys
  {
    if ts == {} then 0
    else
      var t :| t in ts;
      EffortIn(tree, ls[t], r) + Total(tree, ls, ts - {t}, r)
  }

  lemma {:induction false} TotalSplit(tree: Tree, ls: map<nat, Local>, ts: set<nat>, r: nat, t: nat)
    requires t in ts && ts <= ls.Keys
    ensures Total(tree, ls, ts, r) == EffortIn(tree, ls[t], r) + Total(tree, ls, ts - {t}, r)
  {
    var u :| u in ts && Total(tree, ls, ts, r) == EffortIn(tree, ls[u], r) + Total(tree, ls, ts - {u}, r);
    if u != t {
      TotalSplit(tree, ls, ts - {u}, r, t);
      TotalSplit(tree, ls, ts - {t}, r, u);
      assert ts - {u} - {t} == ts - {t} - {u};
    }
  }

  lemma {:induction false} TotalSame(tree: Tree, ls: map<nat, Local>, ls': map<nat, Local>, ts: set<nat>, r: nat)
    requires ts <= ls.Keys && ts <= ls'.Keys && forall t :: t in ts ==> ls'[t] == ls[t]
    ensures Total(tree, ls', ts, r) == Total(tree, ls, ts, r)
  {
    if t :| t in ts {
      TotalSplit(tree, ls, ts, r, t);
      TotalSplit(tree, ls', ts, r, t);
      TotalSame(tree, ls, ls', ts - {t}, r);
    }
  }

  lemma TotalFalls(tree: Tree, s: State, s': State, t: nat, r: nat)
    requires SameOthers(s, s', t) && EffortIn(tree, s'.locals[t], r) < EffortIn(tree, s.locals[t], r)
    ensures Total(tree, s'.locals, s'.locals.Keys, r) < Total(tree, s.locals, s.locals.Keys, r)
  {
    TotalSplit(tree, s.locals, s.locals.Keys, r, t);
    TotalSplit(tree, s'.locals, s'.locals.Keys, r, t);
    TotalSame(tree, s.locals, s'.locals, s.locals.Keys - {t}, r);
  }

  lemma RunGrows(tree: Tree, run: seq<State>, who: seq<nat>, s: State, t: nat)
    requires IsRun(tree, run, who) && Shape(tree, run[|who|]) && Step(tree, run[|who|], s, t)
    ensures IsRun(tree, run + [s], who + [t])
  {
    hide Step, Init, Shape;
    var run', who' := run + [s], who + [t];
    forall i | 0 <= i < |who'|
      ensures Shape(tree, run'[i]) && Step(tree, run'[i], run'[i + 1], who'[i])
    {
      if i < |who| { assert Step(tree, run[i], run[i + 1], who[i]); }
    }
  }

  /** Nobody is inside call number r any more. */
  ghost predicate AllOut(s: State, r: nat) {
    forall t :: t in s.locals ==> s.locals[t].Returned() >= r + 1
  }

  /** Once every thread has made its wait call number r, the run can be continued, by steps of threads
      inside these calls alone, until all of them have returned. */
  lemma {:induction false} RoundCompletes(tree: Tree, run: seq<State>, who: seq<nat>, r: nat)
    returns (run': seq<State>, who': seq<nat>)
    requires IsRun(tree, run, who) && AllIn(run[|who|], r)
    ensures IsRun(tree, run', who') && run <= run' && AllOut(run'[|who'|], r)
    ensures forall t :: t in run[|who|].locals ==>
              t in run'[|who'|].locals && run'[|who'|].locals[t].entered == run[|who|].locals[t].entered
    decreases Total(tree, run[|who|].locals, run[|who|].locals.Keys, r)
  {
    hide IsRun, BarsOk, LocalsOk, WinnerOk, Held, Step, Total, EffortIn, TreeOk, Init;
    RunIs(tree, run, who);
    var s := run[|who|];
    RunKeepsInv(tree, run, who, |who|);
    RunKeepsHeld(tree, run, who, |who|);
    if t0: nat :| Inside(s, t0, r) {
      var t, s' := SomeThreadMoves(tree, s, r, t0);
      StepIsEffort(tree, s, s', t, r);
      TotalFalls(tree, s, s', t, r);
      RunGrows(tree, run, who, s', t);
      run', who' := RoundCompletes(tree, run + [s'], who + [t], r);
    } else {
      assert forall t :: t in s.locals ==> !Inside(s, t, r);
      run', who' := run, who;
    }
  }

  lemma RunIs(tree: Tree, run: seq<State>, who: seq<nat>)
    requires IsRun(tree, run, who)
    ensures |run| == |who| + 1
  {}
}
