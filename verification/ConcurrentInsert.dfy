/** Concurrent insertAll_tagged: any number of threads insert their own entries into one table, each
    by a loop of load, link and weak compare-and-swap over the word of the bucket. */
module ConcurrentInsert {
  import opened BucketWords
  import opened Hashmap

  /** Where a thread stands in the insertion of its first outstanding entry. */
  datatype Pc<T> =
    | Fetch                        // about to load the word
    | Link(loc: T)                 // about to set entry->next and compute the new word
    | Swap(loc: T, newLoc: T)      // about to compare-and-swap

  datatype Thread<T> = Thread(todo: seq<T>, pc: Pc<T>)

  /** `log` records the entries in the order of their successful swaps. */
  datatype State<!T> = State(table: Table<T>, threads: map<nat, Thread<T>>, log: seq<T>)

  ghost predicate Runnable<T(!new)>(s: State<T>, t: nat) {
    && t in s.threads
    && s.threads[t].todo != []
    && s.threads[t].todo[0] in s.table.mem
    && BucketOf(s.table, s.threads[t].todo[0]) in s.table.words
  }

  ghost function Word<T(!new)>(s: State<T>, t: nat): T
    requires Runnable(s, t)
  {
    s.table.words[BucketOf(s.table, s.threads[t].todo[0])]
  }

  ghost function Goto<T(!new)>(s: State<T>, t: nat, pc: Pc<T>): State<T>
    requires t in s.threads
  {
    s.(threads := s.threads[t := s.threads[t].(pc := pc)])
  }

  ghost predicate LoadStep<T(!new)>(s: State<T>, s': State<T>, t: nat) {
    && Runnable(s, t) && s.threads[t].pc.Fetch?
    && s' == Goto(s, t, Link(Word(s, t)))
  }

  ghost predicate LinkStep<T(!new)>(s: State<T>, s': State<T>, t: nat) {
    && Runnable(s, t) && s.threads[t].pc.Link?
    && var entry, loc := s.threads[t].todo[0], s.threads[t].pc.loc;
       var header := s.table.mem[entry];
       var f := s.table.format;
       s' == Goto(s, t, Swap(loc, f.update(loc, entry, header.hash)))
         .(table := s.table.(mem := s.table.mem[entry := header.(next := f.pointer(loc))]))
  }

  ghost predicate SwapStep<T(!new)>(s: State<T>, s': State<T>, t: nat) {
    && Runnable(s, t) && s.threads[t].pc.Swap?
    && Word(s, t) == s.threads[t].pc.loc
    && var entry := s.threads[t].todo[0];
       s' == State(
         s.table.(words := s.table.words[BucketOf(s.table, entry) := s.threads[t].pc.newLoc]),
         s.threads[t := Thread(s.threads[t].todo[1..], Fetch)],
         s.log + [entry])
  }

  /** A weak compare-and-swap may fail even when the word is the expected one. */
  ghost predicate RetryStep<T(!new)>(s: State<T>, s': State<T>, t: nat) {
    && Runnable(s, t) && s.threads[t].pc.Swap?
    && s' == Goto(s, t, Link(Word(s, t)))
  }

  ghost predicate Step<T(!new)>(s: State<T>, s': State<T>, t: nat) {
    LoadStep(s, s', t) || LinkStep(s, s', t) || SwapStep(s, s', t) || RetryStep(s, s', t)
  }

  ghost predicate NoDuplicates<T(!new)>(a: seq<T>) {
    forall i, j :: 0 <= i < j < |a| ==> a[i] != a[j]
  }

  /** The outstanding entries of different threads are different and none is in the table yet. */
  ghost predicate Owned<T(!new)>(threads: map<nat, Thread<T>>, log: seq<T>) {
    && (forall t :: t in threads ==> NoDuplicates(threads[t].todo))
    && (forall t, a :: t in threads && a in threads[t].todo ==> a !in log)
    && (forall t, u, a :: t in threads && u in threads && a in threads[t].todo && a in threads[u].todo ==> t == u)
  }

  ghost predicate Materialised<T(!new)>(s: State<T>) {
    forall t, a :: t in s.threads && a in s.threads[t].todo ==> a in s.table.mem && s.table.format.address(a)
  }

  ghost predicate PcOk<T(!new)>(table: Table<T>, th: Thread<T>) {
    && (th.todo == [] ==> th.pc.Fetch?)
    && (th.pc.Swap? ==>
          && th.todo[0] in table.mem
          && table.mem[th.todo[0]].next == table.format.pointer(th.pc.loc)
          && th.pc.newLoc == table.format.update(th.pc.loc, th.todo[0], table.mem[th.todo[0]].hash))
  }

  /** Every entry of the program is either inserted or outstanding. */
  ghost predicate Conserved<T(!new)>(s: State<T>, all: iset<T>) {
    forall a :: a in all <==> (a in s.log || exists t :: t in s.threads && a in s.threads[t].todo)
  }

  ghost predicate Inv<T(!new)>(s: State<T>, all: iset<T>) {
    && Represents(s.table, s.log)
    && Owned(s.threads, s.log)
    && Materialised(s)
    && (forall t :: t in s.threads ==> PcOk(s.table, s.threads[t]))
    && Conserved(s, all)
  }

  /** The build phase starts with an empty directory and every thread before its first entry. */
  ghost predicate Init<T(!new)>(s: State<T>, all: iset<T>) {
    && s.log == []
    && Lawful(s.table.format)
    && (forall h :: s.table.format.bucket(h) in s.table.words)
    && (forall b :: b in s.table.words ==> s.table.words[b] == s.table.format.end)
    && Owned(s.threads, [])
    && Materialised(s)
    && (forall t :: t in s.threads ==> s.threads[t].pc.Fetch?)
    && Conserved(s, all)
  }

  lemma InitInv<T(!new)>(s: State<T>, all: iset<T>)
    requires Init(s, all)
    ensures Inv(s, all)
  {
    EmptyRepresents(s.table);
  }

  /** Steps before the swap move no entry. */
  lemma SameTodo<T(!new)>(s: State<T>, s': State<T>, all: iset<T>)
    requires Owned(s.threads, s.log) && Conserved(s, all)
    requires s'.log == s.log && s'.threads.Keys == s.threads.Keys
    requires forall t :: t in s.threads ==> s'.threads[t].todo == s.threads[t].todo
    ensures Owned(s'.threads, s'.log) && Conserved(s', all)
  {}

  lemma GotoKeepsInv<T(!new)>(s: State<T>, all: iset<T>, t: nat, loc: T)
    requires Inv(s, all) && t in s.threads && s.threads[t].todo != []
    ensures Inv(Goto(s, t, Link(loc)), all)
  {
    hide Represents, Owned, Conserved;
    SameTodo(s, Goto(s, t, Link(loc)), all);
  }

  lemma LinkKeepsPc<T(!new)>(s: State<T>, s': State<T>, all: iset<T>, t: nat, u: nat)
    requires Inv(s, all) && LinkStep(s, s', t) && u in s.threads
    ensures PcOk(s'.table, s'.threads[u])
  {
    assert s.threads[t].todo[0] in s.threads[t].todo;
    if u != t && s.threads[u].pc.Swap? {
      assert s.threads[u].todo[0] in s.threads[u].todo;
    }
  }

  lemma LinkKeepsTable<T(!new)>(s: State<T>, s': State<T>, all: iset<T>, t: nat)
    requires Inv(s, all) && LinkStep(s, s', t)
    ensures Represents(s'.table, s'.log)
  {
    var entry := s.threads[t].todo[0];
    assert entry in s.threads[t].todo && entry !in s.log;
    RepresentsFrame(s.table, s'.table, s.log);
  }

  lemma LinkKeepsInv<T(!new)>(s: State<T>, s': State<T>, all: iset<T>, t: nat)
    requires Inv(s, all) && LinkStep(s, s', t)
    ensures Inv(s', all)
  {
    hide Represents, Owned, Conserved, PcOk;
    LinkKeepsTable(s, s', all, t);
    SameTodo(s, s', all);
    forall u | u in s.threads { LinkKeepsPc(s, s', all, t, u); }
  }

  lemma SwapConserves<T(!new)>(s: State<T>, s': State<T>, all: iset<T>, t: nat)
    requires Inv(s, all) && SwapStep(s, s', t)
    ensures Conserved(s', all)
  {
    hide Represents, Owned, PcOk, BucketOf;
    var todo := s.threads[t].todo;
    forall a
      ensures a in all <==> (a in s'.log || exists u :: u in s'.threads && a in s'.threads[u].todo)
    {
      if a in all && a !in s'.log {
        var u :| u in s.threads && a in s.threads[u].todo;
        assert todo == [todo[0]] + todo[1..];
        assert u in s'.threads && a in s'.threads[u].todo;
      }
      if u :| u in s'.threads && a in s'.threads[u].todo {
        assert a in s.threads[u].todo;
      }
    }
  }

  lemma SwapKeepsOwned<T(!new)>(s: State<T>, s': State<T>, all: iset<T>, t: nat)
    requires Inv(s, all) && SwapStep(s, s', t)
    ensures Owned(s'.threads, s'.log)
  {
    hide Represents, Conserved, PcOk, BucketOf;
    var todo := s.threads[t].todo;
    assert todo == [todo[0]] + todo[1..];
    forall u, a | u in s'.threads && a in s'.threads[u].todo
      ensures a in s.threads[u].todo && a !in s'.log
    {
      if u == t {
        var i :| 0 <= i < |todo[1..]| && todo[1..][i] == a;
        assert todo[i + 1] == a != todo[0];
      } else {
        assert todo[0] in todo;
      }
    }
  }

  lemma SwapKeepsTable<T(!new)>(s: State<T>, s': State<T>, all: iset<T>, t: nat)
    requires Inv(s, all) && SwapStep(s, s', t)
    ensures Represents(s'.table, s'.log)
  {
    var entry := s.threads[t].todo[0];
    assert entry in s.threads[t].todo;
    hide Represents, Conserved;
    assert s'.table == Publish(s.table, entry);
    PublishInserts(s.table, s.log, entry);
  }

  lemma SwapKeepsInv<T(!new)>(s: State<T>, s': State<T>, all: iset<T>, t: nat)
    requires Inv(s, all) && SwapStep(s, s', t)
    ensures Inv(s', all)
  {
    hide Represents, Owned, Conserved;
    SwapKeepsTable(s, s', all, t);
    SwapConserves(s, s', all, t);
    SwapKeepsOwned(s, s', all, t);
    forall u, a | u in s'.threads && a in s'.threads[u].todo
      ensures a in s.threads[u].todo
    {}
  }

  lemma StepKeepsInv<T(!new)>(s: State<T>, s': State<T>, all: iset<T>, t: nat)
    requires Inv(s, all) && Step(s, s', t)
    ensures Inv(s', all)
  {
    if LoadStep(s, s', t) || RetryStep(s, s', t) {
      GotoKeepsInv(s, all, t, Word(s, t));
    } else if LinkStep(s, s', t) {
      LinkKeepsInv(s, s', all, t);
    } else {
      SwapKeepsInv(s, s', all, t);
    }
  }

  /** A run: any interleaving of the threads' steps; `who[i]` takes step i. */
  ghost predicate IsRun<T(!new)>(run: seq<State<T>>, who: seq<nat>, all: iset<T>) {
    && |run| == |who| + 1
    && Init(run[0], all)
    && forall i :: 0 <= i < |who| ==> Step(run[i], run[i + 1], who[i])
  }

  lemma {:induction false} RunKeepsInv<T(!new)>(run: seq<State<T>>, who: seq<nat>, all: iset<T>, n: nat)
    requires IsRun(run, who, all) && n < |run|
    ensures Inv(run[n], all)
  {
    hide Init, Inv, Step;
    if n == 0 {
      InitInv(run[0], all);
    } else {
      RunKeepsInv(run, who, all, n - 1);
      StepKeepsInv(run[n - 1], run[n], all, who[n - 1]);
    }
  }

  /** Safety in every reachable state: each bucket is a finite acyclic chain of exactly the entries
      whose swap succeeded, and the filter rejects none of their hashes. */
  lemma ReachableTableIsSound<T(!new)>(run: seq<State<T>>, who: seq<nat>, all: iset<T>, n: nat, hash: T)
    returns (chain: seq<T>)
    requires IsRun(run, who, all) && n < |run|
    ensures var s := run[n];
      && Represents(s.table, s.log)
      && IsChain(s.table, s.table.format.pointer(s.table.words[s.table.format.bucket(hash)]), chain)
      && (forall a :: a in chain <==> a in s.log && BucketOf(s.table, a) == s.table.format.bucket(hash))
      && NoDuplicates(chain)
      && ((exists a :: a in s.log && s.table.mem[a].hash == hash) ==>
            FindChain(s.table, hash) == s.table.format.pointer(s.table.words[s.table.format.bucket(hash)])
            && FindChain(s.table, hash) != s.table.format.end)
  {
    RunKeepsInv(run, who, all, n);
    var s := run[n];
    chain := BucketIsChain(s.table, s.log, s.table.format.bucket(hash));
    FindChainIsComplete(s.table, s.log, hash);
  }

  ghost predicate Finished<T(!new)>(s: State<T>) {
    forall t :: t in s.threads ==> s.threads[t].todo == []
  }

  /** When every thread is done, the table holds each entry of the program exactly once. */
  lemma FinishedTableHoldsAll<T(!new)>(run: seq<State<T>>, who: seq<nat>, all: iset<T>)
    requires IsRun(run, who, all) && Finished(run[|who|])
    ensures Represents(run[|who|].table, run[|who|].log)
    ensures forall a :: a in all <==> a in run[|who|].log
    ensures NoDuplicates(run[|who|].log)
  {
    RunKeepsInv(run, who, all, |who|);
  }

  /** Insertion changes no hash and not the format of the table. */
  lemma {:induction false} HashesAreKept<T(!new)>(run: seq<State<T>>, who: seq<nat>, all: iset<T>, n: nat, a: T)
    requires IsRun(run, who, all) && n < |run| && a in run[0].table.mem
    ensures run[n].table.format == run[0].table.format
    ensures a in run[n].table.mem && run[n].table.mem[a].hash == run[0].table.mem[a].hash
  {
    hide Init;
    if n > 0 {
      HashesAreKept(run, who, all, n - 1, a);
      assert Step(run[n - 1], run[n], who[n - 1]);
    }
  }
}
