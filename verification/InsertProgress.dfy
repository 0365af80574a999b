/** Progress of the concurrent build: a thread that runs alone inserts its next entry, whatever its bucket
    holds, and from every reachable state the build can be finished. */
module InsertProgress {

  import opened BucketWords
  import opened ConcurrentInsert
  import opened Hashmap

  lemma HasEntry<T(!new)>(s: State<T>, all: iset<T>, t: nat)
    requires Inv(s, all) && t in s.threads && s.threads[t].todo != []
    ensures Runnable(s, t)
  {
    assert s.threads[t].todo[0] in s.threads[t].todo;
  }

  /** Load, link and exchange put the entry in front of its bucket, empty or not. */
  lemma InsertsAlone<T(!new)>(s: State<T>, all: iset<T>, t: nat) returns (s1: State<T>, s2: State<T>, s3: State<T>)
    requires Inv(s, all) && t in s.threads && s.threads[t].todo != [] && s.threads[t].pc.Fetch?
    ensures Step(s, s1, t) && Step(s1, s2, t) && Step(s2, s3, t)
    ensures Runnable(s, t)
    ensures var entry, f := s.threads[t].todo[0], s.table.format;
      && s3.log == s.log + [entry]
      && s3.threads == s.threads[t := Thread(s.threads[t].todo[1..], Fetch)]
      && s3.table.mem == s.table.mem[entry := s.table.mem[entry].(next := f.pointer(Word(s, t)))]
      && s3.table.words == s.table.words[BucketOf(s.table, entry)
                                         := f.update(Word(s, t), entry, s.table.mem[entry].hash)]
  {
    hide Inv;
    HasEntry(s, all, t);
    var entry, f, loc := s.threads[t].todo[0], s.table.format, Word(s, t);
    var header := s.table.mem[entry];
    s1 := Goto(s, t, Link(loc));
    s2 := Goto(s1, t, Swap(loc, f.update(loc, entry, header.hash)))
          .(table := s.table.(mem := s.table.mem[entry := header.(next := f.pointer(loc))]));
    assert LoadStep(s, s1, t) && LinkStep(s1, s2, t);
    s3 := State(s2.table.(words := s2.table.words[BucketOf(s2.table, entry) := f.update(loc, entry, header.hash)]),
                s2.threads[t := Thread(s2.threads[t].todo[1..], Fetch)], s2.log + [entry]);
    assert SwapStep(s2, s3, t);
    assert s3.threads == s.threads[t := Thread(s.threads[t].todo[1..], Fetch)];
  }

  /** How many steps an insertion still takes when its thread runs alone. */
  ghost function Rank<T(!new)>(s: State<T>, t: nat): nat
    requires Runnable(s, t)
  {
    match s.threads[t].pc
    case Fetch => 3
    case Link(loc) => if loc == Word(s, t) then 2 else 4
    case Swap(loc, _) => if loc == Word(s, t) then 1 else 3
  }

  /** Thread t inserts the first of its entries; the others stay where they are. */
  ghost predicate Inserted<T(!new)>(s: State<T>, s': State<T>, t: nat)
    requires t in s.threads && s.threads[t].todo != []
  {
    && s'.log == s.log + [s.threads[t].todo[0]]
    && s'.threads == s.threads[t := Thread(s.threads[t].todo[1..], Fetch)]
  }

  lemma Advance<T(!new)>(s: State<T>, all: iset<T>, t: nat) returns (s': State<T>)
    requires Inv(s, all) && t in s.threads && s.threads[t].todo != []
    ensures Step(s, s', t) && Runnable(s, t)
    ensures Inserted(s, s', t)
            || (s'.log == s.log && Runnable(s', t) && s'.threads == s.threads[t := s'.threads[t]]
                && s'.threads[t].todo == s.threads[t].todo && Rank(s', t) < Rank(s, t))
  {
    hide Inv;
    HasEntry(s, all, t);
    var entry, f := s.threads[t].todo[0], s.table.format;
    match s.threads[t].pc
    case Fetch =>
      s' := Goto(s, t, Link(Word(s, t)));
      assert LoadStep(s, s', t);
    case Link(loc) =>
      var header := s.table.mem[entry];
      s' := Goto(s, t, Swap(loc, f.update(loc, entry, header.hash)))
            .(table := s.table.(mem := s.table.mem[entry := header.(next := f.pointer(loc))]));
      assert LinkStep(s, s', t);
    case Swap(loc, newLoc) =>
      if loc == Word(s, t) {
        s' := State(s.table.(words := s.table.words[BucketOf(s.table, entry) := newLoc]),
                    s.threads[t := Thread(s.threads[t].todo[1..], Fetch)], s.log + [entry]);
        assert SwapStep(s, s', t);
      } else {
        s' := Goto(s, t, Link(Word(s, t)));
        assert RetryStep(s, s', t);
      }
  }

  lemma RunGrows<T(!new)>(run: seq<State<T>>, who: seq<nat>, all: iset<T>, s': State<T>, t: nat)
    requires IsRun(run, who, all) && Step(run[|who|], s', t)
    ensures IsRun(run + [s'], who + [t], all)
  {
    hide Step, Init;
    var run', who' := run + [s'], who + [t];
    forall i | 0 <= i < |who'|
      ensures Step(run'[i], run'[i + 1], who'[i])
    {
      if i < |who| { assert Step(run[i], run[i + 1], who[i]); }
    }
  }

  /** From every reachable state, wherever its thread and all others stand, an entry can be inserted by
      steps of its thread alone. */
  lemma {:induction false} InsertionCompletes<T(!new)>(run: seq<State<T>>, who: seq<nat>, all: iset<T>, t: nat)
    returns (run': seq<State<T>>, who': seq<nat>)
    requires IsRun(run, who, all) && t in run[|who|].threads && run[|who|].threads[t].todo != []
    ensures IsRun(run', who', all) && run <= run' && who <= who'
    ensures forall i :: |who| <= i < |who'| ==> who'[i] == t
    ensures Inserted(run[|who|], run'[|who'|], t)
    decreases var s := run[|who|]; if Runnable(s, t) then Rank(s, t) else 0
  {
    hide Inv, Step, Init, Rank, Word;
    var s := run[|who|];
    RunKeepsInv(run, who, all, |who|);
    HasEntry(s, all, t);
    var s' := Advance(s, all, t);
    run', who' := run + [s'], who + [t];
    RunGrows(run, who, all, s', t);
    if !Inserted(s, s', t) {
      var before := run';
      run', who' := InsertionCompletes(run', who', all, t);
      assert run <= before <= run';
      assert run'[|who'|].threads == s.threads[t := Thread(s.threads[t].todo[1..], Fetch)];
    }
  }

  /** All entries of one thread. */
  lemma {:induction false} ThreadFinishes<T(!new)>(run: seq<State<T>>, who: seq<nat>, all: iset<T>, t: nat)
    returns (run': seq<State<T>>, who': seq<nat>)
    requires IsRun(run, who, all) && t in run[|who|].threads
    ensures IsRun(run', who', all) && run <= run' && who <= who'
    ensures t in run'[|who'|].threads && run'[|who'|].threads[t].todo == []
    ensures run'[|who'|].threads == run[|who|].threads[t := run'[|who'|].threads[t]]
    ensures run[|who|].log <= run'[|who'|].log
    decreases |run[|who|].threads[t].todo|
  {
    hide Step, Init;
    run', who' := run, who;
    if run[|who|].threads[t].todo != [] {
      var run1, who1 := InsertionCompletes(run, who, all, t);
      run', who' := ThreadFinishes(run1, who1, all, t);
      assert run <= run1 <= run';
      assert run[|who|].log <= run1[|who1|].log <= run'[|who'|].log;
    }
  }

  lemma {:induction false} ThreadsFinish<T(!new)>(run: seq<State<T>>, who: seq<nat>, all: iset<T>, ts: set<nat>)
    returns (run': seq<State<T>>, who': seq<nat>)
    requires IsRun(run, who, all) && ts <= run[|who|].threads.Keys
    requires forall t :: t in run[|who|].threads && t !in ts ==> run[|who|].threads[t].todo == []
    ensures IsRun(run', who', all) && run <= run' && who <= who' && Finished(run'[|who'|])
    ensures run[|who|].log <= run'[|who'|].log
    decreases |ts|
  {
    hide Step, Init;
    run', who' := run, who;
    if ts != {} {
      var t :| t in ts;
      var run1, who1 := ThreadFinishes(run, who, all, t);
      run', who' := ThreadsFinish(run1, who1, all, ts - {t});
      assert run <= run1 <= run';
      assert run[|who|].log <= run1[|who1|].log <= run'[|who'|].log;
    }
  }

  /** From every reachable state the build can be finished: then the table holds every entry once. */
  lemma BuildCompletes<T(!new)>(run: seq<State<T>>, who: seq<nat>, all: iset<T>)
    returns (run': seq<State<T>>, who': seq<nat>)
    requires IsRun(run, who, all)
    ensures IsRun(run', who', all) && run <= run' && who <= who' && Finished(run'[|who'|])
    ensures run[|who|].log <= run'[|who'|].log && NoDuplicates(run'[|who'|].log)
    ensures forall a :: a in all <==> a in run'[|who'|].log
  {
    hide Step, Init;
    run', who' := ThreadsFinish(run, who, all, run[|who|].threads.Keys);
    FinishedTableHoldsAll(run', who', all);
  }
}
