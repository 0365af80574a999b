/** The hierarchical barrier as a transition system: every atomic access of every thread is a step.
    A thread that arrives last at a barrier waits at the parent barrier inside its finalizer. */
module Barrier {

  /** A barrier of the tree: its level above the leaves and its place in that level. */
  datatype Bar = Bar(level: nat, index: nat)

  /** Who arrives at a barrier: a thread at its leaf, a whole child barrier above. */
  datatype Part = Thread(t: nat) | Child(b: Bar)

  /** `at` says where each participant arrives; a barrier without an entry is the root. */
  datatype Tree = Tree(at: map<Part, Bar>, count: map<Bar, nat>, root: Bar)

  function Members(tree: Tree, b: Bar): set<Part> {
    set p | p in tree.at && tree.at[p] == b
  }

  ghost predicate TreeOk(tree: Tree) {
    && tree.root in tree.count
    && (forall b :: b in tree.count ==> |Members(tree, b)| == tree.count[b] > 0)
    && (forall p :: p in tree.at ==> tree.at[p] in tree.count && tree.at[p].level <= tree.root.level)
    && (forall b {:trigger Child(b)} :: b in tree.count ==> b == tree.root || Child(b) in tree.at)
    && Child(tree.root) !in tree.at
    && (forall b {:trigger Child(b)} :: Child(b) in tree.at ==> b in tree.count && tree.at[Child(b)].level > b.level)
  }

  /** Where a thread stands in the wait call for the participant on top of its stack. */
  datatype Stage =
    | Idle
    | LoadRound
    | Subtract(prevRound: nat)
    | Spin(prevRound: nat)
    | Reset
    | Finalize
    | Release(result: bool)

  /** `stack` holds the participants the thread waits for, from itself up to the current barrier;
      `entered` counts its calls and `results` records what they returned. */
  datatype Local = Local(stack: seq<Part>, stage: Stage, entered: nat, results: seq<bool>) {
    function Returned(): nat { |results| }
  }

  /** Counter and round of every barrier, and the threads' locals.  The other fields are history:
      completed rounds, who has arrived in the current round, which thread arrived last, and which
      thread ran the finalizer in each round. */
  datatype State = State(bars: map<Bar, Shared>, locals: map<nat, Local>, winner: seq<nat>)

  datatype Shared = Shared(cntr: nat, round: nat, epoch: nat, arrived: set<Part>, last: Last)

  datatype Last = Nobody | By(t: nat)

  ghost predicate Shape(tree: Tree, s: State) {
    && TreeOk(tree)
    && s.bars.Keys == tree.count.Keys
    && (forall t :: t in s.locals <==> Thread(t) in tree.at)
  }

  function Top(l: Local): Part
    requires l.stack != []
  {
    l.stack[|l.stack| - 1]
  }

  ghost predicate Waiting(tree: Tree, s: State, t: nat) {
    t in s.locals && s.locals[t].stack != [] && Top(s.locals[t]) in tree.at
  }

  ghost function Here(tree: Tree, s: State, t: nat): Bar
    requires Waiting(tree, s, t)
  {
    tree.at[Top(s.locals[t])]
  }

  ghost function Goto(s: State, t: nat, stage: Stage): State
    requires t in s.locals
  {
    s.(locals := s.locals[t := s.locals[t].(stage := stage)])
  }

  /** Leaving the wait call of the top participant with a result. */
  ghost function Leave(s: State, t: nat, result: bool): State
    requires t in s.locals && s.locals[t].stack != []
  {
    var l := s.locals[t];
    if |l.stack| == 1 then
      s.(locals := s.locals[t := Local([], Idle, l.entered, l.results + [result])])
    else
      s.(locals := s.locals[t := l.(stack := l.stack[..|l.stack| - 1], stage := Release(result))])
  }

  /** Release of a barrier: round++ starts the next round there. */
  ghost function Released(s: State, b: Bar): State
    requires b in s.bars
  {
    var bar := s.bars[b];
    s.(bars := s.bars[b := bar.(round := (bar.round + 1) % 256, epoch := bar.epoch + 1, arrived := {}, last := Nobody)])
  }

  // ---- steps

  ghost predicate EnterStep(tree: Tree, s: State, s': State, t: nat) {
    && t in s.locals && s.locals[t].stack == []
    && s' == s.(locals := s.locals[t := Local([Thread(t)], LoadRound, s.locals[t].entered + 1, s.locals[t].results)])
  }

  ghost predicate LoadStep(tree: Tree, s: State, s': State, t: nat)
    requires Shape(tree, s)
  {
    && Waiting(tree, s, t) && s.locals[t].stage.LoadRound?
    && s' == Goto(s, t, Subtract(s.bars[Here(tree, s, t)].round))
  }

  ghost predicate SubtractStep(tree: Tree, s: State, s': State, t: nat)
    requires Shape(tree, s)
  {
    && Waiting(tree, s, t) && s.locals[t].stage.Subtract?
    && var b := Here(tree, s, t);
       var prev := s.bars[b].cntr;
       var bar := s.bars[b].(cntr := if prev > 0 then prev - 1 else 0xFFFF_FFFF_FFFF_FFFF,
                             arrived := s.bars[b].arrived + {Top(s.locals[t])});
       s' == if prev == 1 then Goto(s.(bars := s.bars[b := bar.(last := By(t))]), t, Reset)
             else Goto(s.(bars := s.bars[b := bar]), t, Spin(s.locals[t].stage.prevRound))
  }

  ghost predicate ResetStep(tree: Tree, s: State, s': State, t: nat)
    requires Shape(tree, s)
  {
    && Waiting(tree, s, t) && s.locals[t].stage.Reset?
    && var b := Here(tree, s, t);
       s' == Goto(s.(bars := s.bars[b := s.bars[b].(cntr := tree.count[b])]), t, Finalize)
  }

  /** Below the root the finalizer waits at the parent; at the root it is the caller's finalizer. */
  ghost predicate FinalizeStep(tree: Tree, s: State, s': State, t: nat)
    requires Shape(tree, s)
  {
    && Waiting(tree, s, t) && s.locals[t].stage.Finalize?
    && var b := Here(tree, s, t);
       var l := s.locals[t];
       s' == if Child(b) in tree.at
             then s.(locals := s.locals[t := l.(stack := l.stack + [Child(b)], stage := LoadRound)])
             else Goto(s.(winner := s.winner + [t]), t, Release(true))
  }

  ghost predicate ReleaseStep(tree: Tree, s: State, s': State, t: nat)
    requires Shape(tree, s)
  {
    && Waiting(tree, s, t) && s.locals[t].stage.Release?
    && var b := Here(tree, s, t);
       s' == Leave(Released(s, b), t, s.locals[t].stage.result)
  }

  ghost predicate SpinStep(tree: Tree, s: State, s': State, t: nat)
    requires Shape(tree, s)
  {
    && Waiting(tree, s, t) && s.locals[t].stage.Spin?
    && s' == if s.bars[Here(tree, s, t)].round == s.locals[t].stage.prevRound then s else Leave(s, t, false)
  }

  ghost predicate Step(tree: Tree, s: State, s': State, t: nat)
    requires Shape(tree, s)
  {
    || EnterStep(tree, s, s', t) || LoadStep(tree, s, s', t) || SubtractStep(tree, s, s', t)
    || ResetStep(tree, s, s', t) || FinalizeStep(tree, s, s', t) || ReleaseStep(tree, s, s', t)
    || SpinStep(tree, s, s', t)
  }

  ghost predicate Init(tree: Tree, s: State) {
    && Shape(tree, s)
    && (forall b :: b in tree.count ==>
          s.bars[b] == Shared(tree.count[b], 0, 0, {}, Nobody))
    && (forall t :: t in s.locals ==> s.locals[t] == Local([], Idle, 0, []))
    && s.winner == []
  }

  // ---- invariant

  /** How far the round of barrier b has got, compared with its parent. */
  ghost predicate ParentOk(tree: Tree, s: State, b: Bar)
    requires Shape(tree, s) && b in tree.count
  {
    Child(b) in tree.at ==>
      var p := tree.at[Child(b)];
      && s.bars[b].epoch <= s.bars[p].epoch <= s.bars[b].epoch + 1
      && (s.bars[b].last == Nobody ==> s.bars[p].epoch == s.bars[b].epoch && Child(b) !in s.bars[p].arrived)
      && (Child(b) in s.bars[p].arrived ==> s.bars[p].epoch == s.bars[b].epoch)
  }

  ghost predicate BarOk(tree: Tree, s: State, b: Bar)
    requires Shape(tree, s) && b in tree.count
  {
    && s.bars[b].arrived <= Members(tree, b)
    && s.bars[b].round == s.bars[b].epoch % 256
    && (s.bars[b].last == Nobody ==>
          s.bars[b].arrived != Members(tree, b) && s.bars[b].cntr == tree.count[b] - |s.bars[b].arrived|)
    && (s.bars[b].last != Nobody ==> s.bars[b].arrived == Members(tree, b))
    && ParentOk(tree, s, b)
  }

  ghost predicate StackOk(tree: Tree, t: nat, stack: seq<Part>) {
    && (stack != [] ==> stack[0] == Thread(t))
    && (forall i :: 0 <= i < |stack| ==> stack[i] in tree.at)
    && (forall i :: 0 < i < |stack| ==> stack[i] == Child(tree.at[stack[i - 1]]))
  }

  /** Before thread t has arrived at the parent of b in the current round. */
  ghost predicate NotYetAbove(tree: Tree, s: State, b: Bar)
    requires Shape(tree, s) && b in tree.count
  {
    Child(b) in tree.at
    ==> Child(b) !in s.bars[tree.at[Child(b)]].arrived && s.bars[tree.at[Child(b)]].epoch == s.bars[b].epoch
  }

  /** After the parent of b has been released. */
  ghost predicate DoneAbove(tree: Tree, s: State, b: Bar)
    requires Shape(tree, s) && b in tree.count
  {
    Child(b) in tree.at
    ==> Child(b) !in s.bars[tree.at[Child(b)]].arrived && s.bars[tree.at[Child(b)]].epoch == s.bars[b].epoch + 1
  }

  ghost predicate WonBy(s: State, t: nat, r: nat) {
    r < |s.winner| && s.winner[r] == t
  }

  ghost predicate TopOk(tree: Tree, s: State, t: nat)
    requires Shape(tree, s) && Waiting(tree, s, t)
  {
    var l := s.locals[t];
    var p, b, r := Top(l), Here(tree, s, t), l.Returned();
    match l.stage
    case Idle => false
    case LoadRound => p !in s.bars[b].arrived && s.bars[b].epoch == r
    case Subtract(prev) => p !in s.bars[b].arrived && s.bars[b].epoch == r && prev == r % 256
    case Spin(prev) =>
      && prev == r % 256 && !WonBy(s, t, r)
      && ((s.bars[b].epoch == r && p in s.bars[b].arrived && s.bars[b].last != By(t))
          || (s.bars[b].epoch == r + 1 && p !in s.bars[b].arrived))
    case Reset => s.bars[b].last == By(t) && s.bars[b].epoch == r && NotYetAbove(tree, s, b)
    case Finalize => s.bars[b].last == By(t) && s.bars[b].epoch == r && NotYetAbove(tree, s, b)
        && s.bars[b].cntr == tree.count[b]
    case Release(result) =>
      && s.bars[b].last == By(t) && s.bars[b].epoch == r && DoneAbove(tree, s, b) && s.bars[b].cntr == tree.count[b]
      && r < |s.winner| && result == WonBy(s, t, r)
  }

  /** Exactly the calls of the thread that ran the finalizer returned true. */
  ghost predicate ResultsOk(winner: seq<nat>, t: nat, results: seq<bool>) {
    |results| <= |winner| && forall r :: 0 <= r < |results| ==> results[r] == (winner[r] == t)
  }

  ghost predicate LowersOk(tree: Tree, s: State, t: nat)
    requires Shape(tree, s) && t in s.locals && StackOk(tree, t, s.locals[t].stack)
  {
    forall i :: 0 <= i < |s.locals[t].stack| - 1 ==> LowerOk(tree, s, t, tree.at[s.locals[t].stack[i]])
  }

  ghost predicate OutsideOk(tree: Tree, s: State, t: nat)
    requires Shape(tree, s) && t in s.locals
  {
    var l, leaf := s.locals[t], tree.at[Thread(t)];
    l.stage.Idle? && l.entered == l.Returned() && s.bars[leaf].epoch == l.Returned()
        && Thread(t) !in s.bars[leaf].arrived
  }

  ghost predicate LocalOk(tree: Tree, s: State, t: nat)
    requires Shape(tree, s) && t in s.locals
  {
    && StackOk(tree, t, s.locals[t].stack)
    && ResultsOk(s.winner, t, s.locals[t].results)
    && if s.locals[t].stack == [] then OutsideOk(tree, s, t)
       else s.locals[t].entered == s.locals[t].Returned() + 1 && LowersOk(tree, s, t) && TopOk(tree, s, t)
  }

  /** A barrier at which the thread arrived last and in whose finalizer it is. */
  ghost predicate LowerOk(tree: Tree, s: State, t: nat, b: Bar)
    requires Shape(tree, s) && t in s.locals
  {
    b in tree.count && s.bars[b].last == By(t) && s.bars[b].epoch == s.locals[t].Returned()
        && s.bars[b].cntr == tree.count[b]
  }

  /** The thread has run the finalizer and is about to release the root. */
  ghost predicate ReleasesRoot(tree: Tree, s: State, t: nat) {
    Waiting(tree, s, t) && Here(tree, s, t) == tree.root && s.locals[t].stage.Release?
  }

  ghost predicate RootReleasing(tree: Tree, s: State) {
    exists t :: ReleasesRoot(tree, s, t)
  }

  ghost predicate WinnerOk(tree: Tree, s: State)
    requires Shape(tree, s)
  {
    && |s.winner| == s.bars[tree.root].epoch + (if RootReleasing(tree, s) then 1 else 0)
    && forall r :: 0 <= r < |s.winner| ==> s.winner[r] in s.locals
  }

  ghost predicate BarsOk(tree: Tree, s: State)
    requires Shape(tree, s)
  {
    forall b :: b in tree.count ==> BarOk(tree, s, b)
  }

  ghost predicate LocalsOk(tree: Tree, s: State)
    requires Shape(tree, s)
  {
    forall t :: t in s.locals ==> LocalOk(tree, s, t)
  }

  ghost predicate Inv(tree: Tree, s: State) {
    Shape(tree, s) && BarsOk(tree, s) && LocalsOk(tree, s) && WinnerOk(tree, s)
  }

  lemma BarIn(tree: Tree, s: State, b: Bar)
    requires Shape(tree, s) && BarsOk(tree, s) && b in tree.count
    ensures BarOk(tree, s, b)
  {}

  lemma LocalIn(tree: Tree, s: State, t: nat)
    requires Shape(tree, s) && LocalsOk(tree, s) && t in s.locals
    ensures LocalOk(tree, s, t)
  {}

  lemma InitInv(tree: Tree, s: State)
    requires Init(tree, s)
    ensures Inv(tree, s)
  {
    hide BarOk, LocalOk, WinnerOk, TreeOk;
    InitWinner(tree, s);
    forall b | b in tree.count { InitBar(tree, s, b); }
    forall t | t in s.locals { InitLocal(tree, s, t); }
  }

  lemma InitBar(tree: Tree, s: State, b: Bar)
    requires Init(tree, s) && b in tree.count
    ensures BarOk(tree, s, b)
  {
    assert |Members(tree, b)| > 0;
  }

  lemma InitWinner(tree: Tree, s: State)
    requires Init(tree, s)
    ensures WinnerOk(tree, s)
  {
    hide BarOk, LocalOk, Members;
  }

  lemma InitLocal(tree: Tree, s: State, t: nat)
    requires Init(tree, s) && t in s.locals
    ensures LocalOk(tree, s, t)
  {
    assert Thread(t) in tree.at;
  }

  // ---- facts about threads in the same state

  lemma TopIs(tree: Tree, s: State, t: nat)
    requires Shape(tree, s) && Waiting(tree, s, t) && LocalOk(tree, s, t)
    ensures |s.locals[t].stack| == 1 ==> Top(s.locals[t]) == Thread(t)
    ensures |s.locals[t].stack| > 1 ==>
      var c := tree.at[s.locals[t].stack[|s.locals[t].stack| - 2]];
      Top(s.locals[t]) == Child(c) && LowerOk(tree, s, t, c)
  {}

  /** No two threads wait for the same participant. */
  lemma DifferentTops(tree: Tree, s: State, t: nat, u: nat)
    requires Shape(tree, s) && t != u
    requires Waiting(tree, s, t) && LocalOk(tree, s, t)
    requires Waiting(tree, s, u) && LocalOk(tree, s, u)
    ensures Top(s.locals[t]) != Top(s.locals[u])
  {
    hide LocalOk;
    TopIs(tree, s, t);
    TopIs(tree, s, u);
  }

  /** A thread waits only for itself and for barriers at which it arrived last. */
  lemma TopIsOwn(tree: Tree, s: State, t: nat, u: nat, b: Bar)
    requires Shape(tree, s) && Waiting(tree, s, t) && LocalOk(tree, s, t)
    ensures u != t ==> Top(s.locals[t]) != Thread(u)
    ensures b in tree.count && s.bars[b].last != By(t) ==> Top(s.locals[t]) != Child(b)
  {
    hide LocalOk;
    TopIs(tree, s, t);
  }

  // ---- steps that change only the thread's own locals

  ghost predicate SameShared(s: State, s': State) {
    s'.bars == s.bars && s'.winner == s.winner
  }

  ghost predicate SameOthers(s: State, s': State, t: nat) {
    && t in s.locals && s'.locals.Keys == s.locals.Keys
    && forall u :: u in s.locals && u != t ==> s'.locals[u] == s.locals[u]
  }

  lemma BarFrame(tree: Tree, s: State, s': State, b: Bar)
    requires Shape(tree, s) && Shape(tree, s') && b in tree.count && BarOk(tree, s, b)
    requires SameShared(s, s')
    ensures BarOk(tree, s', b)
  {
    hide TreeOk;
  }

  lemma LocalFrame(tree: Tree, s: State, s': State, u: nat)
    requires Shape(tree, s) && Shape(tree, s') && u in s.locals && LocalOk(tree, s, u)
    requires SameShared(s, s')
    requires u in s'.locals && s'.locals[u] == s.locals[u]
    ensures LocalOk(tree, s', u)
  {
  }

  lemma SharedFrame(tree: Tree, s: State, s': State, t: nat)
    requires Inv(tree, s) && SameShared(s, s') && SameOthers(s, s', t)
    ensures Shape(tree, s')
    ensures forall b :: b in tree.count ==> BarOk(tree, s', b)
    ensures forall u :: u in s'.locals && u != t ==> LocalOk(tree, s', u)
  {
    hide WinnerOk, BarOk, LocalOk, TreeOk;
    forall b | b in tree.count { BarFrame(tree, s, s', b); }
    forall u | u in s'.locals && u != t { LocalFrame(tree, s, s', u); }
  }

  lemma WinnerFrame(tree: Tree, s: State, s': State, t: nat)
    requires Shape(tree, s) && Shape(tree, s') && WinnerOk(tree, s) && SameOthers(s, s', t)
    requires s'.winner == s.winner && s'.bars[tree.root].epoch == s.bars[tree.root].epoch
    requires ReleasesRoot(tree, s, t) <==> ReleasesRoot(tree, s', t)
    ensures WinnerOk(tree, s')
  {
    hide TreeOk;
    if u :| ReleasesRoot(tree, s, u) {
      assert ReleasesRoot(tree, s', u);
    }
    if u :| ReleasesRoot(tree, s', u) {
      assert ReleasesRoot(tree, s, u);
    }
  }

  // ---- how far the rounds of a barrier and of the root can be apart

  lemma {:induction false} EpochBelowRoot(tree: Tree, s: State, b: Bar)
    requires Shape(tree, s) && b in tree.count && BarsOk(tree, s)
    ensures s.bars[b].epoch <= s.bars[tree.root].epoch
    decreases tree.root.level - b.level
  {
    if b != tree.root {
      assert BarOk(tree, s, b);
      EpochBelowRoot(tree, s, tree.at[Child(b)]);
    }
  }

  /** Nobody arrived last here: then nobody did above, and the root is in the same round. */
  lemma {:induction false} QuietUpToRoot(tree: Tree, s: State, b: Bar)
    requires Shape(tree, s) && b in tree.count && BarsOk(tree, s)
    requires s.bars[b].last == Nobody
    ensures s.bars[tree.root].last == Nobody && s.bars[tree.root].epoch == s.bars[b].epoch
    decreases tree.root.level - b.level
  {
    if b != tree.root {
      var p := tree.at[Child(b)];
      assert BarOk(tree, s, b) && BarOk(tree, s, p);
      assert Child(b) in Members(tree, p);
      QuietUpToRoot(tree, s, p);
    }
  }

  lemma ReleasingIsLast(tree: Tree, s: State, t: nat)
    requires Inv(tree, s)
    ensures ReleasesRoot(tree, s, t) ==> s.bars[tree.root].last == By(t)
  {
    hide TreeOk, BarOk, LowersOk, StackOk, Members;
    assert t in s.locals ==> LocalOk(tree, s, t);
  }

  lemma NobodyReleasesRoot(tree: Tree, s: State)
    requires Inv(tree, s) && s.bars[tree.root].last == Nobody
    ensures |s.winner| == s.bars[tree.root].epoch
  {
    hide TreeOk, BarOk, LocalOk, ReleasesRoot;
    forall t { ReleasingIsLast(tree, s, t); }
  }

  lemma RoundIsEpoch(tree: Tree, s: State, b: Bar)
    requires Inv(tree, s) && b in tree.count
    ensures s.bars[b].round == s.bars[b].epoch % 256
  {
    assert BarOk(tree, s, b);
  }

  // ---- steps that change only the thread's own locals

  lemma OwnLocalsKeepInv(tree: Tree, s: State, s': State, t: nat)
    requires Inv(tree, s) && SameShared(s, s') && SameOthers(s, s', t)
    requires Shape(tree, s') && LocalOk(tree, s', t)
    requires ReleasesRoot(tree, s, t) <==> ReleasesRoot(tree, s', t)
    ensures Inv(tree, s')
  {
    hide TreeOk, BarOk, LocalOk, WinnerOk, ReleasesRoot;
    SharedFrame(tree, s, s', t);
    WinnerFrame(tree, s, s', t);
  }

  lemma LowersFrame(tree: Tree, s: State, s': State, t: nat)
    requires Shape(tree, s) && Shape(tree, s') && SameShared(s, s') && t in s.locals && t in s'.locals
    requires StackOk(tree, t, s.locals[t].stack) && LowersOk(tree, s, t)
    requires s'.locals[t].stack <= s.locals[t].stack && s'.locals[t].Returned() == s.locals[t].Returned()
    ensures StackOk(tree, t, s'.locals[t].stack) && LowersOk(tree, s', t)
  {
    hide TreeOk;
  }

  lemma EnterKeepsInv(tree: Tree, s: State, s': State, t: nat)
    requires Inv(tree, s) && EnterStep(tree, s, s', t)
    ensures Inv(tree, s')
  {
    hide BarOk, WinnerOk, Members;
    assert LocalOk(tree, s, t) && Thread(t) in tree.at;
    assert LocalOk(tree, s', t);
    OwnLocalsKeepInv(tree, s, s', t);
  }

  lemma LoadKeepsInv(tree: Tree, s: State, s': State, t: nat)
    requires Inv(tree, s) && LoadStep(tree, s, s', t)
    ensures Inv(tree, s')
  {
    hide BarOk, WinnerOk, Members, StackOk, ResultsOk, LowersOk;
    assert LocalOk(tree, s, t);
    RoundIsEpoch(tree, s, Here(tree, s, t));
    LowersFrame(tree, s, s', t);
    OwnLocalsKeepInv(tree, s, s', t);
  }

  /** A waiter notices the next round: its own barrier has been released exactly once since. */
  lemma SpinEnds(tree: Tree, s: State, t: nat)
    requires Inv(tree, s) && Waiting(tree, s, t) && s.locals[t].stage.Spin?
    requires s.bars[Here(tree, s, t)].round != s.locals[t].stage.prevRound
    ensures var r := s.locals[t].Returned();
      && s.bars[Here(tree, s, t)].epoch == r + 1 && Top(s.locals[t]) !in s.bars[Here(tree, s, t)].arrived
      && r < |s.winner| && s.winner[r] != t
  {
    hide BarOk, Members, StackOk, LowersOk, ResultsOk;
    assert LocalOk(tree, s, t);
    RoundIsEpoch(tree, s, Here(tree, s, t));
    EpochBelowRoot(tree, s, Here(tree, s, t));
  }

  /** The wait call of the top participant can return `result`: its barrier has been released. */
  ghost predicate CanLeave(tree: Tree, s: State, t: nat, result: bool)
    requires Shape(tree, s) && Waiting(tree, s, t)
  {
    var l, b := s.locals[t], Here(tree, s, t);
    && StackOk(tree, t, l.stack) && LowersOk(tree, s, t) && ResultsOk(s.winner, t, l.results)
    && l.entered == l.Returned() + 1
    && s.bars[b].epoch == l.Returned() + 1 && Top(l) !in s.bars[b].arrived
    && l.Returned() < |s.winner| && result == WonBy(s, t, l.Returned())
  }

  lemma LeaveLeaf(tree: Tree, s: State, s': State, t: nat, result: bool)
    requires Shape(tree, s) && Waiting(tree, s, t) && CanLeave(tree, s, t, result) && |s.locals[t].stack| == 1
    requires s' == Leave(s, t, result)
    ensures Shape(tree, s') && LocalOk(tree, s', t)
  {
    hide Members;
  }

  lemma LeaveInner(tree: Tree, s: State, s': State, t: nat, result: bool)
    requires Shape(tree, s) && Waiting(tree, s, t) && CanLeave(tree, s, t, result) && |s.locals[t].stack| > 1
    requires s' == Leave(s, t, result)
    ensures Shape(tree, s') && StackOk(tree, t, s'.locals[t].stack) && LowersOk(tree, s', t)
    ensures Waiting(tree, s', t) && TopOk(tree, s', t) && Here(tree, s', t) != tree.root
  {
    hide Members;
    var c := tree.at[s.locals[t].stack[|s.locals[t].stack| - 2]];
    assert Top(s.locals[t]) == Child(c);
    assert LowerOk(tree, s, t, c);
  }

  lemma LeaveKeepsLocal(tree: Tree, s: State, s': State, t: nat, result: bool)
    requires Shape(tree, s) && Waiting(tree, s, t) && CanLeave(tree, s, t, result)
    requires s' == Leave(s, t, result)
    ensures Shape(tree, s') && LocalOk(tree, s', t) && !ReleasesRoot(tree, s', t)
  {
    hide TreeOk, StackOk, LowersOk, TopOk, Here;
    if |s.locals[t].stack| == 1 {
      LeaveLeaf(tree, s, s', t, result);
    } else {
      LeaveInner(tree, s, s', t, result);
    }
  }

  lemma SpinKeepsInv(tree: Tree, s: State, s': State, t: nat)
    requires Inv(tree, s) && SpinStep(tree, s, s', t) && s' != s
    ensures Inv(tree, s')
  {
    hide BarOk, WinnerOk, Members, TreeOk, StackOk, LowersOk, ResultsOk;
    assert LocalOk(tree, s, t);
    SpinEnds(tree, s, t);
    LeaveKeepsLocal(tree, s, s', t, false);
    OwnLocalsKeepInv(tree, s, s', t);
  }

  /** Below the root, the last arriver waits at the parent barrier. */
  lemma AscendKeepsInv(tree: Tree, s: State, s': State, t: nat)
    requires Inv(tree, s) && FinalizeStep(tree, s, s', t) && Child(Here(tree, s, t)) in tree.at
    ensures Inv(tree, s')
  {
    hide BarOk, WinnerOk, Members, ResultsOk;
    assert LocalOk(tree, s, t);
    AscendLocal(tree, s, s', t);
    OwnLocalsKeepInv(tree, s, s', t);
  }

  lemma AscendLocal(tree: Tree, s: State, s': State, t: nat)
    requires Shape(tree, s) && t in s.locals && LocalOk(tree, s, t)
    requires FinalizeStep(tree, s, s', t) && Child(Here(tree, s, t)) in tree.at
    ensures Shape(tree, s') && LocalOk(tree, s', t) && !ReleasesRoot(tree, s', t)
  {
    hide Members, ResultsOk, BarOk;
    var b, l, l' := Here(tree, s, t), s.locals[t], s'.locals[t];
    assert Top(l') == Child(b);
    forall i | 0 <= i < |l'.stack| - 1
      ensures LowerOk(tree, s', t, tree.at[l'.stack[i]])
    {
      if i < |l.stack| - 1 { assert LowerOk(tree, s, t, tree.at[l.stack[i]]); }
    }
  }

  // ---- the finalizer

  lemma WinnerAppended(winner: seq<nat>, t: nat, u: nat, results: seq<bool>)
    requires ResultsOk(winner, u, results)
    ensures ResultsOk(winner + [t], u, results)
  {}

  lemma FinalizerOther(tree: Tree, s: State, s': State, t: nat, u: nat)
    requires Shape(tree, s) && Shape(tree, s') && u in s.locals && u != t && LocalOk(tree, s, u)
    requires u in s'.locals && s'.locals[u] == s.locals[u]
    requires s' == s.(winner := s.winner + [t], locals := s'.locals)
    ensures LocalOk(tree, s', u)
  {
    hide TreeOk;
    WinnerAppended(s.winner, t, u, s.locals[u].results);
  }

  /** At the root, the finalizer runs once per round, and its thread will return true. */
  lemma FinalizerRound(tree: Tree, s: State, t: nat)
    requires Inv(tree, s) && Waiting(tree, s, t) && s.locals[t].stage.Finalize? && Child(Here(tree, s, t)) !in tree.at
    ensures Here(tree, s, t) == tree.root && s.bars[tree.root].last == By(t)
    ensures |s.winner| == s.bars[tree.root].epoch == s.locals[t].Returned()
  {
    hide BarOk, LowersOk, ResultsOk, Members;
    assert LocalOk(tree, s, t);
    forall u { ReleasingIsLast(tree, s, u); }
  }

  lemma FinalizerLocal(tree: Tree, s: State, s': State, t: nat)
    requires Inv(tree, s) && FinalizeStep(tree, s, s', t) && Child(Here(tree, s, t)) !in tree.at
    ensures Shape(tree, s') && LocalOk(tree, s', t) && ReleasesRoot(tree, s', t)
  {
    hide BarOk, Members, WinnerOk;
    assert LocalOk(tree, s, t);
    FinalizerRound(tree, s, t);
    WinnerAppended(s.winner, t, t, s.locals[t].results);
  }

  lemma FinalizerKeepsInv(tree: Tree, s: State, s': State, t: nat)
    requires Inv(tree, s) && FinalizeStep(tree, s, s', t) && Child(Here(tree, s, t)) !in tree.at
    ensures Inv(tree, s')
  {
    hide BarOk, LocalOk, TreeOk, ReleasesRoot;
    FinalizerRound(tree, s, t);
    FinalizerLocal(tree, s, s', t);
    forall u | u in s.locals && u != t { FinalizerOther(tree, s, s', t, u); }
    forall b | b in tree.count { FinalizerBar(tree, s, s', t, b); }
  }

  lemma FinalizerBar(tree: Tree, s: State, s': State, t: nat, b: Bar)
    requires Shape(tree, s) && Shape(tree, s') && b in tree.count && BarOk(tree, s, b)
    requires s' == s.(winner := s'.winner, locals := s'.locals)
    ensures BarOk(tree, s', b)
  {
    hide TreeOk;
  }

  // ---- resetting the counter

  lemma ResetKeepsInv(tree: Tree, s: State, s': State, t: nat)
    requires Inv(tree, s) && ResetStep(tree, s, s', t)
    ensures Inv(tree, s')
  {
    hide BarOk, LocalOk, TreeOk, WinnerOk;
    ResetLocal(tree, s, s', t);
    forall u | u in s.locals && u != t { ResetOther(tree, s, s', t, u); }
    forall b | b in tree.count { ResetBar(tree, s, s', t, b); }
    WinnerFrame(tree, s, s', t);
  }

  lemma ResetLocal(tree: Tree, s: State, s': State, t: nat)
    requires Shape(tree, s) && t in s.locals && LocalOk(tree, s, t) && ResetStep(tree, s, s', t)
    ensures Shape(tree, s') && LocalOk(tree, s', t)
    ensures s.bars[Here(tree, s, t)].last == By(t)
  {
    hide ResultsOk, Members, StackOk;
    ResetLowers(tree, s, s', t, t);
  }

  lemma ResetLowers(tree: Tree, s: State, s': State, t: nat, u: nat)
    requires Shape(tree, s) && u in s.locals && ResetStep(tree, s, s', t)
    requires StackOk(tree, u, s.locals[u].stack) && (s.locals[u].stack != [] ==> LowersOk(tree, s, u))
    ensures Shape(tree, s') && StackOk(tree, u, s'.locals[u].stack) && LowersOk(tree, s', u)
  {
    hide ResultsOk, Members, TopOk, BarOk;
    forall i | 0 <= i < |s.locals[u].stack| - 1
      ensures LowerOk(tree, s', u, tree.at[s.locals[u].stack[i]])
    {
      assert LowerOk(tree, s, u, tree.at[s.locals[u].stack[i]]);
    }
  }

  lemma ResetOther(tree: Tree, s: State, s': State, t: nat, u: nat)
    requires Shape(tree, s) && Shape(tree, s') && u in s.locals && u != t && LocalOk(tree, s, u)
    requires ResetStep(tree, s, s', t)
    ensures LocalOk(tree, s', u)
  {
    hide TreeOk, ResultsOk;
  }

  lemma ResetBar(tree: Tree, s: State, s': State, t: nat, b: Bar)
    requires Inv(tree, s) && Shape(tree, s') && b in tree.count && ResetStep(tree, s, s', t)
    ensures BarOk(tree, s', b)
  {
    hide TreeOk, ResultsOk, LowersOk;
    assert BarOk(tree, s, b) && LocalOk(tree, s, t);
  }

  // ---- arriving

  /** Thread t is about to arrive at barrier b for participant p. */
  ghost predicate Arriving(tree: Tree, s: State, t: nat, p: Part, b: Bar) {
    Waiting(tree, s, t) && s.locals[t].stage.Subtract? && p == Top(s.locals[t]) && b == Here(tree, s, t)
        && b in tree.count
  }

  lemma MissingOne(a: set<Part>, m: set<Part>, p: Part)
    requires a <= m && p in m && p !in a
    ensures |a| < |m|
    ensures |a| + 1 == |m| <==> a + {p} == m
  {
    assert |a + {p}| == |a| + 1;
    assert |m| == |m - (a + {p})| + |a + {p}|;
  }

  /** Before the arrival, the barrier is in the thread's round and not everybody has arrived. */
  ghost predicate Open(tree: Tree, s: State, t: nat, p: Part, b: Bar)
    requires Shape(tree, s) && b in tree.count && t in s.locals
  {
    && p in Members(tree, b) && p !in s.bars[b].arrived && s.bars[b].arrived <= Members(tree, b)
    && s.bars[b].last == Nobody && s.bars[b].epoch == s.locals[t].Returned()
    && s.bars[b].cntr == tree.count[b] - |s.bars[b].arrived| > 0
    && (s.bars[b].cntr == 1 <==> s.bars[b].arrived + {p} == Members(tree, b))
  }

  lemma BeforeArrival(tree: Tree, s: State, t: nat, p: Part, b: Bar)
    requires Inv(tree, s) && Arriving(tree, s, t, p, b)
    ensures Open(tree, s, t, p, b)
  {
    hide BarsOk, LocalsOk, WinnerOk, LowersOk, ResultsOk, StackOk, ParentOk;
    LocalIn(tree, s, t);
    BarIn(tree, s, b);
    assert p in Members(tree, b);
    MissingOne(s.bars[b].arrived, Members(tree, b), p);
  }

  /** What the arrival changes. */
  ghost predicate Arrives(tree: Tree, s: State, s': State, t: nat, p: Part, b: Bar)
    requires Shape(tree, s) && b in tree.count
  {
    && Shape(tree, s') && SameOthers(s, s', t)
    && s'.winner == s.winner && s.bars[b].cntr > 0
    && s'.bars == s.bars[b := s.bars[b].(
         cntr := s.bars[b].cntr - 1, arrived := s.bars[b].arrived + {p},
         last := if s.bars[b].cntr == 1 then By(t) else s.bars[b].last)]
    && s'.locals[t].stack == s.locals[t].stack && s'.locals[t].results == s.locals[t].results
    && s'.locals[t].entered == s.locals[t].entered
  }

  lemma SubtractArrives(tree: Tree, s: State, s': State, t: nat, p: Part, b: Bar)
    requires Shape(tree, s) && SubtractStep(tree, s, s', t) && Arriving(tree, s, t, p, b) && s.bars[b].cntr > 0
    ensures Arrives(tree, s, s', t, p, b)
    ensures s'.locals[t].stage == if s.bars[b].cntr == 1 then Reset else Spin(s.locals[t].stage.prevRound)
  {
    hide TreeOk;
  }

  lemma ArrivalLowers(tree: Tree, s: State, s': State, t: nat, p: Part, b: Bar, u: nat)
    requires Shape(tree, s) && b in tree.count && Arrives(tree, s, s', t, p, b) && s.bars[b].last == Nobody
    requires u in s.locals && StackOk(tree, u, s.locals[u].stack) && LowersOk(tree, s, u)
    ensures StackOk(tree, u, s'.locals[u].stack) && LowersOk(tree, s', u)
  {
    hide TreeOk;
    forall i | 0 <= i < |s.locals[u].stack| - 1
      ensures LowerOk(tree, s', u, tree.at[s.locals[u].stack[i]])
    {
      assert LowerOk(tree, s, u, tree.at[s.locals[u].stack[i]]);
    }
  }

  /** Another thread's place is not touched: it waits for another participant. */
  lemma ArrivalTopBefore(tree: Tree, s: State, s': State, t: nat, p: Part, b: Bar, u: nat)
    requires Shape(tree, s) && b in tree.count && Arrives(tree, s, s', t, p, b) && s.bars[b].last == Nobody
    requires u != t && Waiting(tree, s, u) && TopOk(tree, s, u) && p != Top(s.locals[u])
    requires s.locals[u].stage.LoadRound? || s.locals[u].stage.Subtract? || s.locals[u].stage.Spin?
    ensures Waiting(tree, s', u) && TopOk(tree, s', u)
  {
    hide TreeOk;
  }

  lemma ArrivalTopLast(tree: Tree, s: State, s': State, t: nat, p: Part, b: Bar, u: nat)
    requires Shape(tree, s) && b in tree.count && Arrives(tree, s, s', t, p, b) && s.bars[b].last == Nobody
    requires u != t && Waiting(tree, s, u) && TopOk(tree, s, u)
    requires s.locals[u].stage.Reset? || s.locals[u].stage.Finalize? || s.locals[u].stage.Release?
    requires s.bars[Here(tree, s, u)].last == By(u) ==> p != Child(Here(tree, s, u))
    ensures Waiting(tree, s', u) && TopOk(tree, s', u)
  {
    hide TreeOk;
  }

  lemma ArrivalTop(tree: Tree, s: State, s': State, t: nat, p: Part, b: Bar, u: nat)
    requires Shape(tree, s) && b in tree.count && Arrives(tree, s, s', t, p, b) && s.bars[b].last == Nobody
    requires u != t && Waiting(tree, s, u) && TopOk(tree, s, u) && p != Top(s.locals[u])
    requires s.bars[Here(tree, s, u)].last == By(u) ==> p != Child(Here(tree, s, u))
    ensures Waiting(tree, s', u) && TopOk(tree, s', u)
  {
    hide TreeOk, TopOk, Arrives;
    IsAtAStage(tree, s, u);
    match s.locals[u].stage
    case LoadRound => ArrivalTopBefore(tree, s, s', t, p, b, u);
    case Subtract(_) => ArrivalTopBefore(tree, s, s', t, p, b, u);
    case Spin(_) => ArrivalTopBefore(tree, s, s', t, p, b, u);
    case _ => ArrivalTopLast(tree, s, s', t, p, b, u);
  }

  lemma IsAtAStage(tree: Tree, s: State, u: nat)
    requires Shape(tree, s) && Waiting(tree, s, u) && TopOk(tree, s, u)
    ensures !s.locals[u].stage.Idle?
  {}

  lemma ArrivalOther(tree: Tree, s: State, s': State, t: nat, p: Part, b: Bar, u: nat)
    requires Inv(tree, s) && Arriving(tree, s, t, p, b) && Arrives(tree, s, s', t, p, b) && s.bars[b].last == Nobody
    requires u in s.locals && u != t
    ensures LocalOk(tree, s', u)
  {
    hide BarsOk, LocalsOk, WinnerOk, TopOk, ResultsOk, LowersOk;
    LocalIn(tree, s, t);
    LocalIn(tree, s, u);
    if s.locals[u].stack == [] {
      TopIsOwn(tree, s, t, u, b);
    } else {
      TopIsOwn(tree, s, t, u, Here(tree, s, u));
      DifferentTops(tree, s, t, u);
      ArrivalLowers(tree, s, s', t, p, b, u);
      ArrivalTop(tree, s, s', t, p, b, u);
    }
  }

  lemma QuietHasNoneAbove(tree: Tree, s: State, b: Bar)
    requires Inv(tree, s) && b in tree.count && s.bars[b].last == Nobody
    ensures NotYetAbove(tree, s, b)
    ensures Child(b) in tree.at ==> tree.at[Child(b)] != b
  {
    BarIn(tree, s, b);
  }

  lemma ArrivalLocal(tree: Tree, s: State, s': State, t: nat, p: Part, b: Bar)
    requires Inv(tree, s) && Arriving(tree, s, t, p, b) && Arrives(tree, s, s', t, p, b) && Open(tree, s, t, p, b)
    requires s'.locals[t].stage == if s.bars[b].cntr == 1 then Reset else Spin(s.locals[t].stage.prevRound)
    ensures LocalOk(tree, s', t)
  {
    hide BarsOk, LocalsOk, WinnerOk, ResultsOk, LowersOk, Members, TreeOk;
    LocalIn(tree, s, t);
    QuietUpToRoot(tree, s, b);
    NobodyReleasesRoot(tree, s);
    QuietHasNoneAbove(tree, s, b);
    ArrivalLowers(tree, s, s', t, p, b, t);
  }

  /** If the thread arrives for barrier c, then c is in the same round as the barrier it arrives at. */
  lemma ArrivalParent(tree: Tree, s: State, t: nat, p: Part, b: Bar, c: Bar)
    requires Inv(tree, s) && Arriving(tree, s, t, p, b) && c in tree.count && p == Child(c)
    ensures s.bars[c].last == By(t) && s.bars[b].epoch == s.bars[c].epoch && b == tree.at[p]
  {
    hide BarsOk, LocalsOk, WinnerOk;
    LocalIn(tree, s, t);
    TopIs(tree, s, t);
  }

  lemma ArrivalBar(tree: Tree, s: State, s': State, t: nat, p: Part, b: Bar, c: Bar)
    requires Inv(tree, s) && Arriving(tree, s, t, p, b) && Arrives(tree, s, s', t, p, b) && Open(tree, s, t, p, b)
    requires c in tree.count
    ensures BarOk(tree, s', c)
  {
    hide BarsOk, LocalsOk, WinnerOk, Members;
    BarIn(tree, s, c);
    if p == Child(c) { ArrivalParent(tree, s, t, p, b, c); }
  }

  lemma ArrivalKeepsInv(tree: Tree, s: State, s': State, t: nat, p: Part, b: Bar)
    requires Inv(tree, s) && Arriving(tree, s, t, p, b) && Arrives(tree, s, s', t, p, b)
    requires s'.locals[t].stage == if s.bars[b].cntr == 1 then Reset else Spin(s.locals[t].stage.prevRound)
    ensures Inv(tree, s')
  {
    hide BarOk, LocalOk, WinnerOk, Open, ReleasesRoot, TreeOk;
    BeforeArrival(tree, s, t, p, b);
    OpenCounts(tree, s, t, p, b);
    ArrivalLocal(tree, s, s', t, p, b);
    forall u | u in s.locals && u != t { ArrivalOther(tree, s, s', t, p, b, u); }
    forall c | c in tree.count { ArrivalBar(tree, s, s', t, p, b, c); }
    ArrivalWinner(tree, s, s', t, p, b);
  }

  lemma OpenCounts(tree: Tree, s: State, t: nat, p: Part, b: Bar)
    requires Shape(tree, s) && b in tree.count && t in s.locals && Open(tree, s, t, p, b)
    ensures s.bars[b].cntr > 0 && s.bars[b].last == Nobody
  {}

  lemma ArrivalWinner(tree: Tree, s: State, s': State, t: nat, p: Part, b: Bar)
    requires Inv(tree, s) && Arriving(tree, s, t, p, b) && Arrives(tree, s, s', t, p, b)
    requires s'.locals[t].stage == if s.bars[b].cntr == 1 then Reset else Spin(s.locals[t].stage.prevRound)
    ensures WinnerOk(tree, s')
  {
    hide BarsOk, LocalsOk, WinnerOk;
    WinnerFrame(tree, s, s', t);
  }

  lemma SubtractKeepsInv(tree: Tree, s: State, s': State, t: nat)
    requires Inv(tree, s) && SubtractStep(tree, s, s', t)
    ensures Inv(tree, s')
  {
    hide BarsOk, LocalsOk, WinnerOk, Open, Arrives;
    var p, b := Top(s.locals[t]), Here(tree, s, t);
    BeforeArrival(tree, s, t, p, b);
    OpenCounts(tree, s, t, p, b);
    SubtractArrives(tree, s, s', t, p, b);
    ArrivalKeepsInv(tree, s, s', t, p, b);
  }

  // ---- releasing a barrier

  /** Thread t is about to release barrier b: everybody has arrived, and the parent is done. */
  ghost predicate Releasing(tree: Tree, s: State, t: nat, b: Bar)
    requires Shape(tree, s)
  {
    && Waiting(tree, s, t) && s.locals[t].stage.Release? && b == Here(tree, s, t) && b in tree.count
    && s.bars[b].last == By(t) && s.bars[b].arrived == Members(tree, b) && s.bars[b].epoch == s.locals[t].Returned()
    && s.bars[b].cntr == tree.count[b] && DoneAbove(tree, s, b) && Top(s.locals[t]) in s.bars[b].arrived
  }

  lemma BeforeRelease(tree: Tree, s: State, t: nat)
    requires Inv(tree, s) && Waiting(tree, s, t) && s.locals[t].stage.Release?
    ensures Releasing(tree, s, t, Here(tree, s, t))
  {
    hide BarsOk, LocalsOk, WinnerOk, LowersOk, ResultsOk, StackOk, ParentOk;
    LocalIn(tree, s, t);
    BarIn(tree, s, Here(tree, s, t));
    assert Top(s.locals[t]) in Members(tree, Here(tree, s, t));
  }

  /** Everybody at b is released: a waiter sees the next round, the others are elsewhere. */
  lemma ReleaseTop(tree: Tree, s: State, s': State, t: nat, b: Bar, u: nat)
    requires Shape(tree, s) && Releasing(tree, s, t, b) && s' == Released(s, b) && Shape(tree, s')
    requires u != t && Waiting(tree, s, u) && TopOk(tree, s, u) && Top(s.locals[u]) in tree.at
    ensures TopOk(tree, s', u)
  {
    hide TreeOk;
    var c := Here(tree, s, u);
    assert Top(s.locals[u]) in Members(tree, c);
    if Child(c) in tree.at { assert Child(c) in Members(tree, tree.at[Child(c)]); }
  }

  lemma ReleaseLowers(tree: Tree, s: State, s': State, t: nat, b: Bar, u: nat)
    requires Shape(tree, s) && Releasing(tree, s, t, b) && s' == Released(s, b) && Shape(tree, s')
    requires u != t && u in s.locals && StackOk(tree, u, s.locals[u].stack) && LowersOk(tree, s, u)
    ensures LowersOk(tree, s', u)
  {
    hide TreeOk;
    forall i | 0 <= i < |s.locals[u].stack| - 1
      ensures LowerOk(tree, s', u, tree.at[s.locals[u].stack[i]])
    {
      assert LowerOk(tree, s, u, tree.at[s.locals[u].stack[i]]);
    }
  }

  lemma ReleaseOther(tree: Tree, s: State, s': State, t: nat, b: Bar, u: nat)
    requires Inv(tree, s) && Releasing(tree, s, t, b) && s' == Released(s, b) && Shape(tree, s')
    requires u != t && u in s.locals
    ensures LocalOk(tree, s', u)
  {
    hide BarsOk, LocalsOk, WinnerOk, TopOk, ResultsOk, LowersOk;
    LocalIn(tree, s, u);
    if s.locals[u].stack == [] {
      assert Thread(u) in Members(tree, tree.at[Thread(u)]);
    } else {
      ReleaseTop(tree, s, s', t, b, u);
      ReleaseLowers(tree, s, s', t, b, u);
    }
  }

  lemma ReleasedBar(tree: Tree, s: State, s': State, t: nat, b: Bar)
    requires Inv(tree, s) && Releasing(tree, s, t, b) && s' == Released(s, b) && Shape(tree, s')
    ensures BarOk(tree, s', b)
  {
    hide LocalsOk, WinnerOk, BarsOk;
    BarIn(tree, s, b);
    assert |Members(tree, b)| > 0;
  }

  lemma ReleaseBar(tree: Tree, s: State, s': State, t: nat, b: Bar, c: Bar)
    requires Inv(tree, s) && Releasing(tree, s, t, b) && s' == Released(s, b) && Shape(tree, s')
    requires c in tree.count && c != b
    ensures BarOk(tree, s', c)
  {
    hide LocalsOk, WinnerOk, BarsOk, TreeOk;
    BarIn(tree, s, c);
    assert Child(c) in tree.at ==> Child(c) in Members(tree, tree.at[Child(c)]);
  }

  lemma {:induction false} LevelsIncrease(tree: Tree, t: nat, stack: seq<Part>, i: nat, j: nat)
    requires TreeOk(tree) && StackOk(tree, t, stack) && i < j < |stack|
    ensures tree.at[stack[i]].level < tree.at[stack[j]].level
  {
    assert stack[j] == Child(tree.at[stack[j - 1]]);
    if i < j - 1 {
      LevelsIncrease(tree, t, stack, i, j - 1);
    }
  }

  lemma ReleasingCanLeave(tree: Tree, s: State, s1: State, t: nat, b: Bar)
    requires Inv(tree, s) && Releasing(tree, s, t, b) && s1 == Released(s, b) && Shape(tree, s1)
    ensures Waiting(tree, s1, t) && CanLeave(tree, s1, t, s.locals[t].stage.result)
  {
    hide LocalsOk, BarsOk, WinnerOk, ResultsOk, Members;
    LocalIn(tree, s, t);
    var stack := s.locals[t].stack;
    forall i | 0 <= i < |stack| - 1
      ensures LowerOk(tree, s1, t, tree.at[stack[i]])
    {
      assert LowerOk(tree, s, t, tree.at[stack[i]]);
      LevelsIncrease(tree, t, stack, i, |stack| - 1);
    }
  }

  lemma ReleaseWinner(tree: Tree, s: State, s': State, t: nat, b: Bar)
    requires Inv(tree, s) && Releasing(tree, s, t, b) && Shape(tree, s') && SameOthers(s, s', t)
    requires s'.bars == Released(s, b).bars && s'.winner == s.winner && !ReleasesRoot(tree, s', t)
    ensures WinnerOk(tree, s')
  {
    hide LocalsOk, BarsOk, Members, TreeOk;
    if b != tree.root {
      WinnerFrame(tree, s, s', t);
    } else {
      assert ReleasesRoot(tree, s, t);
      forall u
        ensures !ReleasesRoot(tree, s', u)
      {
        ReleasingIsLast(tree, s, u);
        ReleasingIsLast(tree, s, t);
      }
    }
  }

  lemma LeaveShares(tree: Tree, s: State, s': State, t: nat, result: bool)
    requires Shape(tree, s) && Waiting(tree, s, t) && s' == Leave(s, t, result)
    ensures Shape(tree, s') && SameShared(s, s') && SameOthers(s, s', t)
  {}

  lemma ReleaseKeepsInv(tree: Tree, s: State, s': State, t: nat)
    requires Inv(tree, s) && ReleaseStep(tree, s, s', t)
    ensures Inv(tree, s')
  {
    hide BarOk, LocalOk, WinnerOk, Releasing, CanLeave, Leave, ReleasesRoot;
    var b, result := Here(tree, s, t), s.locals[t].stage.result;
    var s1 := Released(s, b);
    BeforeRelease(tree, s, t);
    assert Shape(tree, s1);
    ReleasingCanLeave(tree, s, s1, t, b);
    LeaveShares(tree, s1, s', t, result);
    LeaveKeepsLocal(tree, s1, s', t, result);
    forall u | u in s.locals && u != t
      ensures LocalOk(tree, s', u)
    {
      ReleaseOther(tree, s, s1, t, b, u);
      LocalFrame(tree, s1, s', u);
    }
    forall c | c in tree.count
      ensures BarOk(tree, s', c)
    {
      if c == b { ReleasedBar(tree, s, s1, t, b); } else { ReleaseBar(tree, s, s1, t, b, c); }
      BarFrame(tree, s1, s', c);
    }
    ReleaseWinner(tree, s, s', t, b);
  }

  lemma StepKeepsInv(tree: Tree, s: State, s': State, t: nat)
    requires Inv(tree, s) && Step(tree, s, s', t)
    ensures Inv(tree, s')
  {
    hide BarsOk, LocalsOk, WinnerOk, TreeOk, EnterStep, LoadStep, SubtractStep, ResetStep, ReleaseStep, SpinStep;
    if EnterStep(tree, s, s', t) {
      EnterKeepsInv(tree, s, s', t);
    } else if LoadStep(tree, s, s', t) {
      LoadKeepsInv(tree, s, s', t);
    } else if SubtractStep(tree, s, s', t) {
      SubtractKeepsInv(tree, s, s', t);
    } else if ResetStep(tree, s, s', t) {
      ResetKeepsInv(tree, s, s', t);
    } else if FinalizeStep(tree, s, s', t) {
      if Child(Here(tree, s, t)) in tree.at {
        AscendKeepsInv(tree, s, s', t);
      } else {
        FinalizerKeepsInv(tree, s, s', t);
      }
    } else if ReleaseStep(tree, s, s', t) {
      ReleaseKeepsInv(tree, s, s', t);
    } else if s' != s {
      SpinKeepsInv(tree, s, s', t);
    }
  }

  /** A run: any interleaving; `who[i]` takes step i. */
  ghost predicate IsRun(tree: Tree, run: seq<State>, who: seq<nat>) {
    && |run| == |who| + 1 && Init(tree, run[0])
    && forall i :: 0 <= i < |who| ==> Shape(tree, run[i]) && Step(tree, run[i], run[i + 1], who[i])
  }

  lemma {:induction false} RunKeepsInv(tree: Tree, run: seq<State>, who: seq<nat>, n: nat)
    requires IsRun(tree, run, who) && n < |run|
    ensures Inv(tree, run[n])
  {
    hide Init, Step, Inv, Shape;
    if n == 0 {
      InitInv(tree, run[0]);
    } else {
      RunKeepsInv(tree, run, who, n - 1);
      StepKeepsInv(tree, run[n - 1], run[n], who[n - 1]);
    }
  }

  // ---- what the barrier is for

  /** If everybody has arrived at b, then p has, in the same round. */
  lemma FullBelow(tree: Tree, s: State, b: Bar, p: Part)
    requires Inv(tree, s) && b in tree.count && s.bars[b].last != Nobody && p in tree.at && tree.at[p] == b
    ensures p.Child? ==> p.b in tree.count && s.bars[p.b].last != Nobody && s.bars[p.b].epoch == s.bars[b].epoch
    ensures p.Thread? ==> p.t in s.locals
    ensures p.Thread? ==> s.locals[p.t].Returned() == s.bars[b].epoch && s.locals[p.t].entered == s.bars[b].epoch + 1
  {
    hide BarsOk, LocalsOk, WinnerOk;
    BarIn(tree, s, b);
    assert p in Members(tree, b);
    match p
    case Child(c) => BarIn(tree, s, c);
    case Thread(t) => LocalIn(tree, s, t);
  }

  lemma {:induction false} FullBelowRoot(tree: Tree, s: State, b: Bar)
    requires Inv(tree, s) && b in tree.count && s.bars[tree.root].last != Nobody
    ensures s.bars[b].last != Nobody && s.bars[b].epoch == s.bars[tree.root].epoch
    decreases tree.root.level - b.level
  {
    hide BarsOk, LocalsOk, WinnerOk;
    if b != tree.root {
      FullBelowRoot(tree, s, tree.at[Child(b)]);
      FullBelow(tree, s, tree.at[Child(b)], Child(b));
    }
  }

  /** A step runs the caller's finalizer exactly when the winner list grows. */
  ghost predicate RunsFinalizer(s: State, s': State) {
    s'.winner != s.winner
  }

  lemma OnlyFinalizerStepsAppend(tree: Tree, s: State, s': State, t: nat)
    requires Shape(tree, s) && Step(tree, s, s', t) && RunsFinalizer(s, s')
    ensures Waiting(tree, s, t) && s.locals[t].stage.Finalize? && Child(Here(tree, s, t)) !in tree.at
    ensures s'.winner == s.winner + [t]
  {
    hide TreeOk;
  }

  /** The finalizer of round r runs once, after every thread has made its wait call number r and
      before any of these calls returns. */
  lemma FinalizerRunsBetween(tree: Tree, run: seq<State>, who: seq<nat>, n: nat)
    requires IsRun(tree, run, who) && n < |who| && RunsFinalizer(run[n], run[n + 1])
    ensures run[n + 1].winner == run[n].winner + [who[n]]
    ensures forall t :: t in run[n].locals ==>
      run[n].locals[t].entered == |run[n].winner| + 1 && run[n].locals[t].Returned() == |run[n].winner|
  {
    hide BarsOk, LocalsOk, WinnerOk, Step, Init, TreeOk;
    var s, t := run[n], who[n];
    RunKeepsInv(tree, run, who, n);
    assert Step(tree, s, run[n + 1], t);
    OnlyFinalizerStepsAppend(tree, s, run[n + 1], t);
    FinalizerRound(tree, s, t);
    forall u | u in s.locals
      ensures s.locals[u].entered == |s.winner| + 1 && s.locals[u].Returned() == |s.winner|
    {
      InRound(tree, s, u);
    }
  }

  lemma InRound(tree: Tree, s: State, u: nat)
    requires Inv(tree, s) && s.bars[tree.root].last != Nobody && u in s.locals
    ensures s.locals[u].entered == s.bars[tree.root].epoch + 1 && s.locals[u].Returned() == s.bars[tree.root].epoch
  {
    hide BarsOk, LocalsOk, WinnerOk;
    assert Thread(u) in tree.at;
    FullBelowRoot(tree, s, tree.at[Thread(u)]);
    FullBelow(tree, s, tree.at[Thread(u)], Thread(u));
  }

  /** A wait call of round r returns only after the finalizer of that round, and it returns true in
      exactly one thread, the one that ran it. */
  lemma OneCallerGetsTrue(tree: Tree, run: seq<State>, who: seq<nat>, n: nat, r: nat)
    requires IsRun(tree, run, who) && n < |run|
    ensures forall t :: t in run[n].locals && r < run[n].locals[t].Returned() ==>
      && r < |run[n].winner| && run[n].winner[r] in run[n].locals
      && run[n].locals[t].results[r] == (t == run[n].winner[r])
  {
    hide BarsOk, LocalsOk, Step, Init, TreeOk;
    RunKeepsInv(tree, run, who, n);
    forall t | t in run[n].locals
      ensures ResultsOk(run[n].winner, t, run[n].locals[t].results)
    {
      LocalIn(tree, run[n], t);
    }
  }

  /** The wrap of the eight-bit round never releases a waiter wrongly or keeps it: the round differs
      from the one it loaded exactly when its barrier has been released once since its arrival. */
  lemma WaiterIsReleasedByItsRound(tree: Tree, run: seq<State>, who: seq<nat>, n: nat, t: nat)
    requires IsRun(tree, run, who) && n < |run|
    requires Shape(tree, run[n]) && Waiting(tree, run[n], t) && run[n].locals[t].stage.Spin?
    ensures var s, b := run[n], Here(tree, run[n], t);
      && s.locals[t].Returned() <= s.bars[b].epoch <= s.locals[t].Returned() + 1
      && (s.bars[b].round != s.locals[t].stage.prevRound <==> s.bars[b].epoch == s.locals[t].Returned() + 1)
  {
    hide BarsOk, LocalsOk, Step, Init, ResultsOk, LowersOk, StackOk;
    RunKeepsInv(tree, run, who, n);
    LocalIn(tree, run[n], t);
    RoundIsEpoch(tree, run[n], Here(tree, run[n], t));
  }
}
