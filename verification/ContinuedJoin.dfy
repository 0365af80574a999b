/** The join functions that stop in the middle of a chain and go on there in the next call: joinAll, and
    joinSel for vectors with a selection.  A call that stops behind the last entry of a chain begins the
    row again, so the candidates of a vector are found exactly once if and only if no full batch ends so. */
module ContinuedJoin {
  import opened Chains
  import opened Hashmap
  import opened JoinSpec
  import HJ = HashJoin

  /** A candidate: probe row and build entry with the same hash. */
  type Candidate = (nat, nat)

  ghost predicate OkRow<T, K>(c: Join<T, K>, row: nat, i: int) {
    c.Ok() && row < |c.rows| && -1 <= i < |c.side.addrs|
  }

  /** The candidates of a row in its chain from entry i on. */
  ghost function HitsFrom<T, K>(c: Join<T, K>, row: nat, i: int): seq<Candidate>
    requires OkRow(c, row, i)
    decreases i
  {
    if i < 0 then []
    else
      var rest := HitsFrom(c, row, Next(c.side.buckets, i));
      if Hits(c.side, SameHash, i, ProbeOf(c, row)) then [(row, i)] + rest else rest
  }

  /** All candidates of the rows from `row` on, in order. */
  ghost function All<T, K>(c: Join<T, K>, row: nat): seq<Candidate>
    requires c.Ok() && row <= |c.rows|
    decreases |c.rows| - row
  {
    if row == |c.rows| then [] else HitsFrom(c, row, c.heads[row]) + All(c, row + 1)
  }

  // ---- what a call does

  /** Where a call starts: at entry `at` of the chain of a row, or, if that is -1, at the row's head. */
  datatype Cont = Cont(at: int, row: nat)

  ghost predicate ContOk<T, K>(c: Join<T, K>, s: Cont) {
    c.Ok() && s.row <= |c.rows| && -1 <= s.at < |c.side.addrs| && (s.at >= 0 ==> s.row < |c.rows|)
  }

  /** What calls from there on still find. */
  ghost function Left<T, K>(c: Join<T, K>, s: Cont): seq<Candidate>
    requires ContOk(c, s)
  {
    if s.at >= 0 then HitsFrom(c, s.row, s.at) + All(c, s.row + 1) else All(c, s.row)
  }

  lemma {:induction false} HitsAreOk<T, K>(c: Join<T, K>, row: nat, i: int)
    requires OkRow(c, row, i)
    ensures forall h :: h in HitsFrom(c, row, i) ==> h.0 == row && h.1 < |c.side.addrs|
    decreases i
  {
    if i >= 0 { HitsAreOk(c, row, Next(c.side.buckets, i)); }
  }

  lemma {:induction false} AllAreOk<T, K>(c: Join<T, K>, row: nat)
    requires c.Ok() && row <= |c.rows|
    ensures forall h :: h in All(c, row) ==> row <= h.0 < |c.rows| && h.1 < |c.side.addrs|
    decreases |c.rows| - row
  {
    if row < |c.rows| {
      HitsAreOk(c, row, c.heads[row]);
      AllAreOk(c, row + 1);
    }
  }

  lemma LeftIsOk<T, K>(c: Join<T, K>, s: Cont)
    requires ContOk(c, s)
    ensures forall h :: h in Left(c, s) ==> s.row <= h.0 < |c.rows| && h.1 < |c.side.addrs|
  {
    AllAreOk(c, s.row);
    if s.at >= 0 {
      HitsAreOk(c, s.row, s.at);
      AllAreOk(c, s.row + 1);
    }
  }

  /** The candidate that fills the batch. */
  ghost function Filler<T, K>(c: Join<T, K>, size: nat, s: Cont): (h: Candidate)
    requires ContOk(c, s) && 0 < size <= |Left(c, s)|
    ensures s.row <= h.0 < |c.rows| && h.1 < |c.side.addrs|
  {
    LeftIsOk(c, s);
    Left(c, s)[size - 1]
  }

  /** The call stops with a full batch: always in the chain it went on with, otherwise only if that chain
      or the vector goes on. */
  ghost predicate Suspends<T, K>(c: Join<T, K>, size: nat, s: Cont)
    requires ContOk(c, s) && size > 0
  {
    size <= |Left(c, s)|
    && var h := Filler(c, size, s);
       Next(c.side.buckets, h.1) >= 0 || h.0 + 1 < |c.rows| || (s.at >= 0 && h.0 == s.row)
  }

  /** What the call returns, and where the next one starts. */
  ghost function Returned<T, K>(c: Join<T, K>, size: nat, s: Cont): seq<Candidate>
    requires ContOk(c, s) && size > 0
  {
    if Suspends(c, size, s) then Left(c, s)[..size] else Left(c, s)
  }

  ghost function After<T, K>(c: Join<T, K>, size: nat, s: Cont): (s': Cont)
    requires ContOk(c, s) && size > 0
    ensures ContOk(c, s')
  {
    if Suspends(c, size, s) then
      var h := Filler(c, size, s); Cont(Next(c.side.buckets, h.1), h.0)
    else Cont(-1, |c.rows|)
  }

  // ---- taking a batch off what is left

  lemma {:induction false} SplitChain<T, K>(c: Join<T, K>, row: nat, i: int, j: nat)
    requires OkRow(c, row, i) && j < |HitsFrom(c, row, i)|
    ensures var h := HitsFrom(c, row, i)[j];
      h.0 == row && h.1 < |c.side.addrs|
      && HitsFrom(c, row, i)[j + 1..] == HitsFrom(c, row, Next(c.side.buckets, h.1))
    decreases i
  {
    HitsAreOk(c, row, i);
    var next := Next(c.side.buckets, i);
    if Hits(c.side, SameHash, i, ProbeOf(c, row)) {
      if j > 0 { SplitChain(c, row, next, j - 1); }
    } else {
      SplitChain(c, row, next, j);
    }
  }

  /** What is left behind a candidate: the rest of its chain and the later rows. */
  ghost function Behind<T, K>(c: Join<T, K>, h: Candidate): seq<Candidate>
    requires c.Ok() && h.0 < |c.rows| && h.1 < |c.side.addrs|
  {
    HitsFrom(c, h.0, Next(c.side.buckets, h.1)) + All(c, h.0 + 1)
  }

  lemma {:induction false} SplitAll<T, K>(c: Join<T, K>, row: nat, j: nat)
    requires c.Ok() && row <= |c.rows| && j < |All(c, row)|
    ensures var h := All(c, row)[j];
      h.0 < |c.rows| && h.1 < |c.side.addrs| && All(c, row)[j + 1..] == Behind(c, h)
      && HitsFrom(c, h.0, c.heads[h.0]) != []
    decreases |c.rows| - row
  {
    var here := HitsFrom(c, row, c.heads[row]);
    DropFront(here, All(c, row + 1), j);
    if j < |here| {
      SplitChain(c, row, c.heads[row], j);
    } else {
      SplitAll(c, row + 1, j - |here|);
    }
  }

  lemma DropFront<X>(a: seq<X>, b: seq<X>, j: nat)
    requires j < |a + b|
    ensures (a + b)[j] == if j < |a| then a[j] else b[j - |a|]
    ensures (a + b)[j + 1..] == if j < |a| then a[j + 1..] + b else b[j - |a| + 1..]
  {}

  lemma SplitLeft<T, K>(c: Join<T, K>, s: Cont, j: nat)
    requires ContOk(c, s) && j < |Left(c, s)|
    ensures var h := Left(c, s)[j];
      s.row <= h.0 < |c.rows| && h.1 < |c.side.addrs| && Left(c, s)[j + 1..] == Behind(c, h)
  {
    hide HitsFrom, All;
    LeftIsOk(c, s);
    if s.at < 0 {
      SplitAll(c, s.row, j);
    } else {
      var here := HitsFrom(c, s.row, s.at);
      DropFront(here, All(c, s.row + 1), j);
      if j < |here| {
        SplitChain(c, s.row, s.at, j);
      } else {
        SplitAll(c, s.row + 1, j - |here|);
      }
    }
  }

  /** A call that stops with the batch `out` stops where it should. */
  lemma Stopped<T, K>(c: Join<T, K>, size: nat, s: Cont, out: seq<Candidate>, rest: seq<Candidate>)
    requires ContOk(c, s) && 0 < size == |out| && out + rest == Left(c, s)
    requires out[size - 1].0 < |c.rows| && out[size - 1].1 < |c.side.addrs|
    requires Next(c.side.buckets, out[size - 1].1) >= 0 || out[size - 1].0 + 1 < |c.rows|
             || (s.at >= 0 && out[size - 1].0 == s.row)
    ensures Returned(c, size, s) == out
    ensures After(c, size, s) == Cont(Next(c.side.buckets, out[size - 1].1), out[size - 1].0)
  {
    assert Left(c, s)[..size] == out && Left(c, s)[size - 1] == out[size - 1];
  }

  /** A call that comes to the end of the vector returns everything. */
  lemma Ended<T, K>(c: Join<T, K>, size: nat, s: Cont, out: seq<Candidate>)
    requires ContOk(c, s) && 0 < size && |out| <= size && out == Left(c, s)
    requires |out| == size ==> out[size - 1].0 + 1 == |c.rows| && out[size - 1].1 < |c.side.addrs|
    requires |out| == size ==> Next(c.side.buckets, out[size - 1].1) < 0 && (s.at >= 0 ==> out[size - 1].0 != s.row)
    ensures Returned(c, size, s) == out && After(c, size, s) == Cont(-1, |c.rows|)
  {}

  lemma ChainStep<T, K>(c: Join<T, K>, row: nat, i: nat, out: seq<Candidate>)
    requires OkRow(c, row, i)
    ensures var rest := HitsFrom(c, row, Next(c.side.buckets, i));
      out + HitsFrom(c, row, i)
      == (if Hits(c.side, SameHash, i, ProbeOf(c, row)) then (out + [(row, i)]) + rest else out + rest)
  {}

  lemma ChainEnd<T, K>(c: Join<T, K>, row: nat, out: seq<Candidate>)
    requires OkRow(c, row, -1)
    ensures out + HitsFrom(c, row, -1) == out
  {}

  /** What a row adds in front of the later ones. */
  lemma RowStep<T, K>(c: Join<T, K>, row: nat, out: seq<Candidate>, out': seq<Candidate>, here: seq<Candidate>,
      rest: seq<Candidate>)
    requires c.Ok() && row < |c.rows| && out' + rest == out + here
    ensures out' + (rest + All(c, row + 1)) == out + (here + All(c, row + 1))
  {
    assert out' + (rest + All(c, row + 1)) == (out' + rest) + All(c, row + 1);
  }

  lemma RowUnfold<T, K>(c: Join<T, K>, row: nat)
    requires c.Ok() && row < |c.rows|
    ensures All(c, row) == HitsFrom(c, row, c.heads[row]) + All(c, row + 1)
  {}

  lemma LeftFacts<T, K>(c: Join<T, K>, s: Cont)
    requires ContOk(c, s)
    ensures s.at < 0 ==> [] + All(c, s.row) == Left(c, s)
    ensures s.at >= 0 ==> [] + (HitsFrom(c, s.row, s.at) + All(c, s.row + 1)) == Left(c, s)
                          && ([] + HitsFrom(c, s.row, s.at)) + All(c, s.row + 1) == Left(c, s)
  {}

  // ---- the operator

  ghost predicate Apart(a: object, b: object) { a != b }

  class AllJoin<T(0, ==, !new), K(==, !new)> {
    const table: Table<T>
    const keyOf: map<T, K>
    ghost const c: Join<T, K>

    // the probe vector; joinSel reports the positions selected, joinAll the row numbers
    const probeHashes: seq<T>
    const selecting: bool
    const probeSel: seq<nat>

    // continuation
    var buildMatch: T
    var probeHash: T
    var nextProbe: nat

    const batchSize: nat
    const buildMatches: array<T>
    const probeMatches: array<nat>

    /** Ready for a vector of probe rows. */
    constructor (table: Table<T>, keyOf: map<T, K>, hash: K -> T, ghost log: seq<T>, rows: seq<K>,
                 selecting: bool, probeSel: seq<nat>, batchSize: nat)
      requires HJ.Built(table, log, keyOf, hash) && 0 < batchSize && |probeSel| == |rows|
      ensures Shape() && c == HJ.JoinOf(table, log, keyOf, hash, rows) && StartsAt(Cont(-1, 0))
      ensures fresh(buildMatches) && fresh(probeMatches)
    {
      hide HJ.Linked, HJ.Built, HJ.JoinOf;
      this.table, this.keyOf, this.batchSize, this.selecting, this.probeSel :=
        table, keyOf, batchSize, selecting, probeSel;
      probeHashes := seq(|rows|, r requires 0 <= r < |rows| => hash(rows[r]));
      c := HJ.JoinOf(table, log, keyOf, hash, rows);
      buildMatch, probeHash, nextProbe := table.format.end, table.format.end, 0;
      buildMatches, probeMatches := new T[batchSize], new nat[batchSize];
      new;
      HJ.BuiltIsLinked(table, log, keyOf, hash, rows);
    }

    ghost predicate Shape() {
      && HJ.Linked(table, keyOf, c) && 0 < batchSize
      && buildMatches.Length == batchSize && probeMatches.Length == batchSize
      && Apart(buildMatches, probeMatches) && |probeHashes| == |probeSel| == |c.rows|
      && forall r :: 0 <= r < |c.rows| ==> probeHashes[r] == c.hash(c.rows[r])
    }

    /** The next call starts at s. */
    ghost predicate StartsAt(s: Cont)
      requires Shape()
      reads `buildMatch, `probeHash, `nextProbe
    {
      && ContOk(c, s) && nextProbe == s.row
      && buildMatch == At(table.format.end, c.side.addrs, s.at)
      && (s.at >= 0 ==> probeHash == probeHashes[s.row])
    }

    /** The first positions of the output vectors hold the candidates `out`. */
    ghost predicate Wrote(out: seq<Candidate>)
      requires Shape()
      reads buildMatches, probeMatches
    {
      && |out| <= batchSize
      && forall k :: 0 <= k < |out| ==>
           && out[k].0 < |c.rows| && out[k].1 < |c.side.addrs|
           && buildMatches[k] == c.side.addrs[out[k].1]
           && probeMatches[k] == if selecting then probeSel[out[k].0] else out[k].0
    }

    lemma EntryIs(row: nat, i: nat)
      requires Shape() && OkRow(c, row, i)
      ensures var entry := c.side.addrs[i];
        && entry in table.mem && entry != table.format.end
        && table.mem[entry].next == At(table.format.end, c.side.addrs, Next(c.side.buckets, i))
        && (table.mem[entry].next == table.format.end <==> Next(c.side.buckets, i) < 0)
        && (table.mem[entry].hash == probeHashes[row] <==> Hits(c.side, SameHash, i, ProbeOf(c, row)))
    {
      HJ.NextAddress(table, keyOf, c, i);
    }

    /** Write one candidate. */
    method Emit(found: nat, entry: T, row: nat, ghost i: nat, ghost out: seq<Candidate>)
      requires Shape() && Wrote(out) && found == |out| < batchSize
      requires row < |c.rows| && i < |c.side.addrs| && entry == c.side.addrs[i]
      modifies buildMatches, probeMatches
      ensures Wrote(out + [(row, i)])
    {
      hide HJ.Linked;
      buildMatches[found] := entry;
      probeMatches[found] := if selecting then probeSel[row] else row;
    }

    /** The last candidate is of this row, at entry i. */
    ghost predicate EndsAt(out: seq<Candidate>, row: nat, i: int) {
      out != [] && out[|out| - 1] == (row, i) && 0 <= i < |c.side.addrs|
    }

    /** Follow a chain of a row from an entry on, until the batch is full and the chain goes on or there is
        more to do behind it: then entry `last` was the last one looked at. */
    method Follow(first: T, row: nat, hash: T, more: bool, found0: nat, ghost i: int, ghost out0: seq<Candidate>)
      returns (found: nat, stopped: bool, next: T, ghost out: seq<Candidate>, ghost last: int)
      requires Shape() && OkRow(c, row, i) && first == At(table.format.end, c.side.addrs, i)
      requires hash == probeHashes[row] && found0 == |out0| < batchSize && Wrote(out0)
      modifies buildMatches, probeMatches
      ensures Wrote(out) && found == |out| <= batchSize
      ensures stopped ==>
                && found == batchSize && EndsAt(out, row, last)
                && (Next(c.side.buckets, last) >= 0 || more)
                && next == At(table.format.end, c.side.addrs, Next(c.side.buckets, last))
                && out + HitsFrom(c, row, Next(c.side.buckets, last)) == out0 + HitsFrom(c, row, i)
      ensures !stopped ==>
                && out == out0 + HitsFrom(c, row, i)
                && (found == batchSize ==> !more && EndsAt(out, row, last) && Next(c.side.buckets, last) < 0)
    {
      hide HJ.Linked, Shape, Wrote, HitsFrom, Hits;
      found, stopped, next, out, last := found0, false, first, out0, -1;
      var entry := first;
      ghost var j := i;
      EntryOrEnd(row, i);
      while entry != table.format.end
        invariant -1 <= j < |c.side.addrs| && entry == At(table.format.end, c.side.addrs, j)
        invariant entry == table.format.end <==> j < 0
        invariant Wrote(out) && found == |out| && out + HitsFrom(c, row, j) == out0 + HitsFrom(c, row, i)
        invariant found <= batchSize
        invariant found == batchSize ==>
                    j < 0 && !more && EndsAt(out, row, last) && Next(c.side.buckets, last) < 0
        decreases j
      {
        EntryIs(row, j);
        ChainStep(c, row, j, out);
        if table.mem[entry].hash == hash {
          Emit(found, entry, row, j, out);
          found, out, last := found + 1, out + [(row, j)], j;
          if found == batchSize && (table.mem[entry].next != table.format.end || more) {
            return found, true, table.mem[entry].next, out, last;
          }
        }
        entry, j := table.mem[entry].next, Next(c.side.buckets, j);
        EntryOrEnd(row, j);
      }
      ChainEnd(c, row, out);
    }

    lemma EntryOrEnd(row: nat, i: int)
      requires Shape() && OkRow(c, row, i)
      ensures At(table.format.end, c.side.addrs, i) == table.format.end <==> i < 0
    {
      if i >= 0 { EntryIs(row, i); }
    }

    /** The candidates written so far and those from row i on are all that was left. */
    ghost predicate Reached(s: Cont, i: nat, out: seq<Candidate>)
      requires Shape()
    {
      && ContOk(c, s) && i <= |c.rows| && |out| <= batchSize && out + All(c, i) == Left(c, s)
      && (|out| == batchSize ==> FullAtEnd(s, i, out))
    }

    /** A full batch has not stopped the call: it ends with the last entry of the last row's chain. */
    ghost predicate FullAtEnd(s: Cont, i: nat, out: seq<Candidate>)
      requires Shape()
    {
      && i == |c.rows| && out != []
      && var h := out[|out| - 1];
         h.0 + 1 == i && h.1 < |c.side.addrs| && Next(c.side.buckets, h.1) < 0 && (s.at >= 0 ==> h.0 != s.row)
    }

    /** The chain that the last call left. */
    method Continue(ghost s: Cont) returns (found: nat, stopped: bool, ghost out: seq<Candidate>)
      requires Shape() && StartsAt(s)
      modifies `buildMatch, `nextProbe, buildMatches, probeMatches
      ensures Wrote(out) && found == |out|
      ensures stopped ==> out == Returned(c, batchSize, s) && StartsAt(After(c, batchSize, s))
      ensures !stopped ==> found < batchSize && Reached(s, nextProbe, out) && (s.at >= 0 ==> s.row < nextProbe)
    {
      hide Shape, HJ.Linked, Wrote, Returned, After, Suspends, All, HitsFrom, Left, Hits;
      ShapeFacts();
      found, stopped, out := 0, false, [];
      WroteNothing();
      LeftFacts(c, s);
      if s.at >= 0 { EntryOrEnd(s.row, s.at); }
      if buildMatch != table.format.end {
        var next;
        ghost var last;
        found, stopped, next, out, last := Follow(buildMatch, nextProbe, probeHash, true, 0, s.at, []);
        if stopped {
          ghost var here, rest := HitsFrom(c, s.row, s.at), HitsFrom(c, s.row, Next(c.side.buckets, last));
          RowStep(c, s.row, [], out, here, rest);
          Stopped(c, batchSize, s, out, rest + All(c, s.row + 1));
          buildMatch := next;
          return;
        }
        nextProbe := nextProbe + 1;
      }
    }

    /** The chain of row i. */
    method ProbeRow(i: nat, found0: nat, ghost s: Cont, ghost out0: seq<Candidate>)
      returns (found: nat, stopped: bool, ghost out: seq<Candidate>)
      requires Shape() && i < |probeHashes| && Wrote(out0) && found0 == |out0| < batchSize && Reached(s, i, out0)
      requires s.at >= 0 ==> s.row < i
      modifies `buildMatch, `probeHash, `nextProbe, buildMatches, probeMatches
      ensures Wrote(out) && found == |out|
      ensures stopped ==> out == Returned(c, batchSize, s) && StartsAt(After(c, batchSize, s))
      ensures !stopped ==> Reached(s, i + 1, out) && nextProbe == old(nextProbe)
    {
      hide Shape, HJ.Linked, Wrote, Returned, After, Suspends, All, HitsFrom;
      ShapeFacts();
      HJ.HeadAddress(table, keyOf, c, i);
      RowUnfold(c, i);
      var hash, next := probeHashes[i], table.format.end;
      ghost var last;
      found, stopped, next, out, last :=
        Follow(FindChain(table, hash), i, hash, i + 1 < |probeHashes|, found0, c.heads[i], out0);
      ghost var here := HitsFrom(c, i, c.heads[i]);
      if stopped {
        ghost var rest := HitsFrom(c, i, Next(c.side.buckets, last));
        RowStep(c, i, out0, out, here, rest);
        Stopped(c, batchSize, s, out, rest + All(c, i + 1));
        buildMatch, probeHash, nextProbe := next, hash, i;
      } else {
        assert out + All(c, i + 1) == out0 + (here + All(c, i + 1));
      }
    }

    lemma ShapeFacts()
      requires Shape()
      ensures c.Ok() && HJ.Linked(table, keyOf, c) && 0 < batchSize && |probeHashes| == |c.rows|
      ensures forall r :: 0 <= r < |c.rows| ==> probeHashes[r] == c.hash(c.rows[r])
    {}

    lemma WroteNothing()
      requires Shape()
      ensures Wrote([])
    {}

    /** joinAll, and joinSel when `selecting`. */
    method JoinAll(ghost s: Cont) returns (found: nat, ghost out: seq<Candidate>)
      requires Shape() && StartsAt(s)
      modifies `buildMatch, `probeHash, `nextProbe, buildMatches, probeMatches
      ensures out == Returned(c, batchSize, s) && Wrote(out) && found == |out|
      ensures StartsAt(After(c, batchSize, s))
    {
      hide HJ.Linked, Returned, After, Suspends, All, HitsFrom;
      var stopped;
      found, stopped, out := Continue(s);
      if stopped { return; }
      var i := nextProbe;
      while i < |probeHashes|
        invariant nextProbe <= i <= |probeHashes| && (s.at >= 0 ==> s.row < i)
        invariant Wrote(out) && found == |out| && Reached(s, i, out)
      {
        found, stopped, out := ProbeRow(i, found, s, out);
        if stopped { return; }
        i := i + 1;
      }
      assert All(c, i) == [] by { NoRows(); }
      assert out + [] == out;
      Ended(c, batchSize, s, out);
      buildMatch := table.format.end;
      nextProbe := |probeHashes|;
    }

    lemma NoRows()
      requires Shape()
      ensures All(c, |c.rows|) == []
    {}
  }

  // ---- one call

  lemma NothingLeft<T, K>(c: Join<T, K>)
    requires c.Ok()
    ensures Left(c, Cont(-1, |c.rows|)) == []
  {}

  lemma CallEnds<T, K>(c: Join<T, K>, size: nat, s: Cont)
    requires ContOk(c, s) && size > 0 && !Suspends(c, size, s)
    ensures After(c, size, s) == Cont(-1, |c.rows|)
    ensures Returned(c, size, s) == Left(c, s) && |Left(c, s)| <= size
  {
    hide All, HitsFrom, Left;
    if size <= |Left(c, s)| {
      var h := Filler(c, size, s);
      SplitLeft(c, s, size - 1);
      EndOfRow(c, h);
    }
  }

  lemma EndOfRow<T, K>(c: Join<T, K>, h: Candidate)
    requires c.Ok() && h.0 < |c.rows| && h.1 < |c.side.addrs| && Next(c.side.buckets, h.1) < 0
    ensures Behind(c, h) == All(c, h.0 + 1)
    ensures h.0 + 1 == |c.rows| ==> Behind(c, h) == []
  {}

  /** A call that stops inside a chain neither loses nor repeats a candidate. */
  lemma CallGoesOn<T, K>(c: Join<T, K>, size: nat, s: Cont)
    requires ContOk(c, s) && size > 0 && Suspends(c, size, s)
    requires Next(c.side.buckets, Filler(c, size, s).1) >= 0
    ensures Returned(c, size, s) == Left(c, s)[..size]
    ensures Left(c, After(c, size, s)) == Left(c, s)[size..]
  {
    hide All, HitsFrom;
    SplitLeft(c, s, size - 1);
  }

  /** A call that stops behind the end of a chain makes the next one begin the row again. */
  lemma CallRepeats<T, K>(c: Join<T, K>, size: nat, s: Cont)
    requires ContOk(c, s) && size > 0 && Suspends(c, size, s)
    requires Next(c.side.buckets, Filler(c, size, s).1) < 0
    ensures Returned(c, size, s) == Left(c, s)[..size]
    ensures var row := Filler(c, size, s).0;
      Left(c, After(c, size, s)) == HitsFrom(c, row, c.heads[row]) + Left(c, s)[size..]
  {
    hide HitsFrom, Left;
    var h := Filler(c, size, s);
    SplitLeft(c, s, size - 1);
    EndOfRow(c, h);
    LeftAtHead(c, h.0);
  }

  lemma LeftAtHead<T, K>(c: Join<T, K>, row: nat)
    requires c.Ok() && row < |c.rows|
    ensures Left(c, Cont(-1, row)) == HitsFrom(c, row, c.heads[row]) + All(c, row + 1)
  {}

  /** No call loses a candidate. */
  lemma CallLosesNothing<T, K>(c: Join<T, K>, size: nat, s: Cont)
    requires ContOk(c, s) && size > 0
    ensures |Returned(c, size, s)| + |Left(c, After(c, size, s))| >= |Left(c, s)|
  {
    hide Left, All, HitsFrom, Returned, After;
    if !Suspends(c, size, s) {
      CallEnds(c, size, s);
    } else if Next(c.side.buckets, Filler(c, size, s).1) >= 0 {
      CallGoesOn(c, size, s);
    } else {
      CallRepeats(c, size, s);
    }
  }

  // ---- all calls for a vector

  /** Where call k starts. */
  ghost function StateAt<T, K>(c: Join<T, K>, size: nat, k: nat): (s: Cont)
    requires c.Ok() && size > 0
    ensures ContOk(c, s)
  {
    if k == 0 then Cont(-1, 0) else After(c, size, StateAt(c, size, k - 1))
  }

  /** What the first k calls returned. */
  ghost function Output<T, K>(c: Join<T, K>, size: nat, k: nat): seq<Candidate>
    requires c.Ok() && size > 0
  {
    if k == 0 then [] else Output(c, size, k - 1) + Returned(c, size, StateAt(c, size, k - 1))
  }

  ghost predicate Finished<T, K>(c: Join<T, K>, size: nat, k: nat)
    requires c.Ok() && size > 0
  {
    StateAt(c, size, k) == Cont(-1, |c.rows|)
  }

  /** Batch m of the candidates fills on the last entry of a chain, with rows to come or in a chain that an
      earlier batch began. */
  ghost predicate FillsAtEnd<T, K>(c: Join<T, K>, size: nat, m: nat)
    requires c.Ok() && size > 0
  {
    var all := All(c, 0);
    && 0 < m && m * size <= |all|
    && FillsAt(c, all, m * size - 1, if m == 1 then -1 else all[(m - 1) * size - 1].0)
  }

  ghost predicate FillsAt<T, K>(c: Join<T, K>, all: seq<Candidate>, last: nat, begun: int)
    requires c.Ok() && last < |all|
  {
    && all[last].1 < |c.side.addrs| && Next(c.side.buckets, all[last].1) < 0
    && (all[last].0 + 1 < |c.rows| || all[last].0 == begun)
  }

  /** After k calls: every candidate was returned or is left, once. */
  ghost predicate Exact<T, K>(c: Join<T, K>, size: nat, k: nat)
    requires c.Ok() && size > 0
  {
    var s, all, out := StateAt(c, size, k), All(c, 0), Output(c, size, k);
    && out + Left(c, s) == all
    && (if Finished(c, size, k) then k * size >= |all|
        else
          && |out| == k * size
          && (if k == 0 then s == Cont(-1, 0)
              else s.at >= 0 && |out| <= |all| && s.row == all[|out| - 1].0))
  }

  lemma Times(k: nat, size: nat)
    ensures (k + 1) * size == k * size + size && k * size >= 0
    ensures size > 0 ==> k * size >= k
  {}

  /** Batches before the first that fills at the end of a chain are exact. */
  lemma ExactStep<T, K>(c: Join<T, K>, size: nat, k: nat)
    requires c.Ok() && size > 0 && Exact(c, size, k) && !FillsAtEnd(c, size, k + 1)
    ensures Exact(c, size, k + 1)
  {
    hide Left, All, HitsFrom, Returned, After, Suspends, Behind;
    var s, all, out := StateAt(c, size, k), All(c, 0), Output(c, size, k);
    Times(k, size);
    NothingLeft(c);
    if Finished(c, size, k) {
      FinishedStays(c, size, k);
    } else if Suspends(c, size, s) {
      FillerIs(c, size, k);
      CallGoesOn(c, size, s);
      CallState(c, size, s);
      assert Left(c, s)[..size] + Left(c, s)[size..] == Left(c, s);
    } else {
      CallEnds(c, size, s);
    }
  }

  lemma CallState<T, K>(c: Join<T, K>, size: nat, s: Cont)
    requires ContOk(c, s) && size > 0 && Suspends(c, size, s)
    ensures size <= |Left(c, s)|
    ensures var h := Filler(c, size, s);
      After(c, size, s) == Cont(Next(c.side.buckets, h.1), h.0) && h == Left(c, s)[size - 1]
      && (Next(c.side.buckets, h.1) >= 0 || h.0 + 1 < |c.rows| || (s.at >= 0 && h.0 == s.row))
  {}

  lemma FinishedStays<T, K>(c: Join<T, K>, size: nat, k: nat)
    requires c.Ok() && size > 0 && Finished(c, size, k)
    ensures Finished(c, size, k + 1) && Output(c, size, k + 1) == Output(c, size, k)
  {
    hide Left, All, HitsFrom;
    NothingLeft(c);
  }

  /** The candidate that fills batch k + 1 is at the end of its chain exactly if that batch fills so. */
  lemma FillerIs<T, K>(c: Join<T, K>, size: nat, k: nat)
    requires c.Ok() && size > 0 && Exact(c, size, k) && !Finished(c, size, k) && Suspends(c, size, StateAt(c, size, k))
    ensures FillsAtEnd(c, size, k + 1) <==>
            Next(c.side.buckets, Filler(c, size, StateAt(c, size, k)).1) < 0
  {
    hide Left, All, HitsFrom, Returned, After, Suspends, Behind;
    var s, all, out := StateAt(c, size, k), All(c, 0), Output(c, size, k);
    Times(k, size);
    CallState(c, size, s);
    assert all[(k + 1) * size - 1] == Left(c, s)[size - 1];
  }

  lemma NothingReturned<T, K>(c: Join<T, K>, size: nat)
    requires c.Ok() && size > 0
    ensures Exact(c, size, 0)
  {
    NothingLeft(c);
    Times(0, size);
    assert [] + All(c, 0) == All(c, 0);
  }

  lemma {:induction false} ExactUpTo<T, K>(c: Join<T, K>, size: nat, k: nat)
    requires c.Ok() && size > 0
    requires forall m :: 1 <= m <= k ==> !FillsAtEnd(c, size, m)
    ensures Exact(c, size, k)
  {
    hide *;
    if k == 0 {
      NothingReturned(c, size);
    } else {
      ExactUpTo(c, size, k - 1);
      ExactStep(c, size, k - 1);
    }
  }

  /** Candidates returned or left, counted with repetitions, never become fewer. */
  lemma {:induction false} NothingIsLost<T, K>(c: Join<T, K>, size: nat, k: nat, k': nat)
    requires c.Ok() && size > 0 && k <= k'
    ensures |Output(c, size, k)| + |Left(c, StateAt(c, size, k))|
            <= |Output(c, size, k')| + |Left(c, StateAt(c, size, k'))|
  {
    hide Left, All, HitsFrom, Returned, After, Suspends;
    if k < k' {
      NothingIsLost(c, size, k, k' - 1);
      CallLosesNothing(c, size, StateAt(c, size, k' - 1));
    }
  }

  /** The first batch that fills at the end of a chain makes candidates be returned twice. */
  lemma FirstFillRepeats<T, K>(c: Join<T, K>, size: nat, k: nat)
    requires c.Ok() && size > 0 && Exact(c, size, k) && FillsAtEnd(c, size, k + 1)
    ensures |Output(c, size, k + 1)| + |Left(c, StateAt(c, size, k + 1))| > |All(c, 0)|
  {
    hide Left, All, HitsFrom, Returned, After, Behind;
    var s, all, out := StateAt(c, size, k), All(c, 0), Output(c, size, k);
    Times(k, size);
    SplitAll(c, 0, (k + 1) * size - 1);
    assert all[(k + 1) * size - 1] == Left(c, s)[size - 1];
    assert Suspends(c, size, s);
    CallRepeats(c, size, s);
  }

  lemma {:induction false} FinishedForGood<T, K>(c: Join<T, K>, size: nat, k: nat, k': nat)
    requires c.Ok() && size > 0 && Finished(c, size, k) && k <= k'
    ensures Finished(c, size, k') && Output(c, size, k') == Output(c, size, k)
  {
    hide *;
    if k < k' {
      FinishedForGood(c, size, k, k' - 1);
      FinishedStays(c, size, k' - 1);
    }
  }

  lemma {:induction false} FirstFill<T, K>(c: Join<T, K>, size: nat, m: nat) returns (k: nat)
    requires c.Ok() && size > 0 && FillsAtEnd(c, size, m)
    ensures Exact(c, size, k) && FillsAtEnd(c, size, k + 1)
  {
    hide FillsAt, Exact;
    if n :| 1 <= n < m && FillsAtEnd(c, size, n) {
      k := FirstFill(c, size, n);
    } else {
      ExactUpTo(c, size, m - 1);
      k := m - 1;
    }
  }

  /** The vector comes to its end with every candidate returned exactly once. */
  ghost predicate ReturnsEachOnce<T, K>(c: Join<T, K>, size: nat)
    requires c.Ok() && size > 0
  {
    exists k :: Finished(c, size, k) && multiset(Output(c, size, k)) == multiset(All(c, 0))
  }

  lemma NoFillReturnsOnce<T, K>(c: Join<T, K>, size: nat)
    requires c.Ok() && size > 0 && forall m :: !FillsAtEnd(c, size, m)
    ensures ReturnsEachOnce(c, size)
  {
    hide Left, All, HitsFrom;
    var k := |All(c, 0)| + 1;
    ExactUpTo(c, size, k);
    Times(k, size);
    NothingLeft(c);
    assert Finished(c, size, k);
    assert Output(c, size, k) + [] == Output(c, size, k);
  }

  lemma FillReturnsMore<T, K>(c: Join<T, K>, size: nat, m: nat, k: nat)
    requires c.Ok() && size > 0 && FillsAtEnd(c, size, m) && Finished(c, size, k)
    ensures |Output(c, size, k)| > |All(c, 0)|
  {
    hide *;
    var f := FirstFill(c, size, m);
    FirstFillRepeats(c, size, f);
    NothingLeft(c);
    if k <= f + 1 {
      FinishedForGood(c, size, k, f + 1);
      FinishedIs(c, size, f + 1);
    } else {
      NothingIsLost(c, size, f + 1, k);
      FinishedIs(c, size, k);
    }
  }

  lemma FinishedIs<T, K>(c: Join<T, K>, size: nat, k: nat)
    requires c.Ok() && size > 0 && Finished(c, size, k)
    ensures |Left(c, StateAt(c, size, k))| == 0
  {
    NothingLeft(c);
  }

  lemma SameLength<X>(a: seq<X>, b: seq<X>)
    requires multiset(a) == multiset(b)
    ensures |a| == |b|
  {
    assert |multiset(a)| == |a| && |multiset(b)| == |b|;
  }

  /** That is so if and only if no batch fills on the last entry of a chain with more to come. */
  lemma EachOnceIff<T, K>(c: Join<T, K>, size: nat)
    requires c.Ok() && size > 0
    ensures ReturnsEachOnce(c, size) <==> forall m :: !FillsAtEnd(c, size, m)
  {
    hide Left, All, HitsFrom, Output, StateAt, FillsAt, FillsAtEnd, Finished;
    if forall m :: !FillsAtEnd(c, size, m) {
      NoFillReturnsOnce(c, size);
    } else if ReturnsEachOnce(c, size) {
      var m :| FillsAtEnd(c, size, m);
      var k :| Finished(c, size, k) && multiset(Output(c, size, k)) == multiset(All(c, 0));
      SameLength(Output(c, size, k), All(c, 0));
      FillReturnsMore(c, size, m, k);
    }
  }

  // ---- the candidates are those of the parallel form

  ghost function Pairs<T, K>(c: Join<T, K>, hits: seq<Candidate>): seq<Pair<T>>
    requires forall h :: h in hits ==> h.1 < |c.side.addrs|
  {
    seq(|hits|, k requires 0 <= k < |hits| => (c.side.addrs[hits[k].1], hits[k].0))
  }

  ghost predicate Known<T, K>(c: Join<T, K>, hits: seq<Candidate>) {
    forall h :: h in hits ==> h.1 < |c.side.addrs|
  }

  lemma PairsConcat<T, K>(c: Join<T, K>, a: seq<Candidate>, b: seq<Candidate>)
    requires Known(c, a) && Known(c, b)
    ensures Known(c, a + b) && Pairs(c, a + b) == Pairs(c, a) + Pairs(c, b)
  {}

  lemma RestEnd<T, K>(c: Join<T, K>, row: nat)
    requires OkRow(c, row, -1)
    ensures HitsFrom(c, row, -1) == [] && Of(c, SameHash, (row, -1)) == multiset{}
  {}

  lemma RestStepOf<T, K>(c: Join<T, K>, row: nat, i: nat)
    requires OkRow(c, row, i)
    ensures var next := Next(c.side.buckets, i);
      if Hits(c.side, SameHash, i, ProbeOf(c, row)) then
        HitsFrom(c, row, i) == [(row, i)] + HitsFrom(c, row, next)
        && Of(c, SameHash, (row, i)) == multiset{(c.side.addrs[i], row)} + Of(c, SameHash, (row, next))
      else
        HitsFrom(c, row, i) == HitsFrom(c, row, next) && Of(c, SameHash, (row, i)) == Of(c, SameHash, (row, next))
  {}

  lemma {:induction false} ChainIsRest<T, K>(c: Join<T, K>, row: nat, i: int)
    requires OkRow(c, row, i)
    ensures Known(c, HitsFrom(c, row, i))
    ensures multiset(Pairs(c, HitsFrom(c, row, i))) == Of(c, SameHash, (row, i))
    decreases i
  {
    hide HitsFrom, Of, Hits;
    if i < 0 {
      RestEnd(c, row);
    } else {
      ChainIsRest(c, row, Next(c.side.buckets, i));
      RestStepOf(c, row, i);
      if Hits(c.side, SameHash, i, ProbeOf(c, row)) {
        PairsConcat(c, [(row, i)], HitsFrom(c, row, Next(c.side.buckets, i)));
      }
    }
  }

  lemma AllKnown<T, K>(c: Join<T, K>, row: nat)
    requires c.Ok() && row <= |c.rows|
    ensures Known(c, All(c, row))
  {
    AllAreOk(c, row);
  }

  /** The candidates of n rows and those of the later ones. */
  ghost function Total<T, K>(c: Join<T, K>, n: nat): multiset<Pair<T>>
    requires c.Ok() && n <= |c.rows|
  {
    AllKnown(c, n);
    Pending(c, SameHash, Heads(c, 0, n)) + multiset(Pairs(c, All(c, n)))
  }

  lemma TotalStep<T, K>(c: Join<T, K>, n: nat)
    requires c.Ok() && n < |c.rows|
    ensures Total(c, n + 1) == Total(c, n)
  {
    hide Pending, Heads, HitsFrom, Of, Pairs, Known;
    AllKnown(c, n + 1);
    HeadsGrow(c, SameHash, 0, n);
    ChainIsRest(c, n, c.heads[n]);
    PairsConcat(c, HitsFrom(c, n, c.heads[n]), All(c, n + 1));
    MultisetUnion(Pending(c, SameHash, Heads(c, 0, n)), Of(c, SameHash, Head(c, n)), multiset(Pairs(c, All(c, n + 1))));
  }

  lemma {:induction false} TotalStays<T, K>(c: Join<T, K>, n: nat)
    requires c.Ok() && n <= |c.rows|
    ensures Total(c, n) == Total(c, 0)
  {
    hide *;
    if n > 0 {
      TotalStays(c, n - 1);
      TotalStep(c, n - 1);
    }
  }

  /** Comparing keys leaves the nested-loop join of the candidates. */
  lemma CandidatesAreJoin<T, K>(c: Join<T, K>, keyOf: map<T, K>, x: Pair<T>)
    requires Complete(c) && KeysKnown(c, keyOf) && HashedByKey(c)
    ensures Known(c, All(c, 0))
    ensures NestedJoin(c, 0)[x] == if KeyHit(c, keyOf, x) then multiset(Pairs(c, All(c, 0)))[x] else 0
  {
    hide Pending, Heads, All, NestedJoin, Pairs, KeyHit, KeysKnown, HashedByKey, HeadComplete;
    AllKnown(c, 0);
    TotalStays(c, |c.rows|);
    TotalEnds(c);
    HeadsAreComplete(c, 0, |c.rows|);
    OwedAtFirst(c, 0);
    NoRowsJoin(c);
    KeyPartOfPending(c, keyOf, SameHash, Heads(c, 0, |c.rows|), x);
  }

  lemma TotalEnds<T, K>(c: Join<T, K>)
    requires c.Ok()
    ensures Known(c, All(c, 0)) && Total(c, 0) == multiset(Pairs(c, All(c, 0)))
    ensures Total(c, |c.rows|) == Pending(c, SameHash, Heads(c, 0, |c.rows|))
  {
    AllKnown(c, 0);
    EmptyUnion(multiset(Pairs(c, All(c, 0))));
    EmptyUnion(Pending(c, SameHash, Heads(c, 0, |c.rows|)));
  }

  lemma NoRowsJoin<T, K>(c: Join<T, K>)
    requires c.side.Ok()
    ensures NestedJoin(c, |c.rows|) == multiset{}
  {}

  // ---- a vector that never comes to its end

  /** One entry and two probe rows with its key. */
  ghost function TwoRows(): (c: Join<nat, nat>)
    ensures c.Ok()
  {
    Join(Side([1], [0], [7], [7]), (key: nat) => key, [7, 7], [0, 0])
  }

  lemma TwoRowsCall()
    ensures Returned(TwoRows(), 1, Cont(-1, 0)) == [(0, 0)]
    ensures After(TwoRows(), 1, Cont(-1, 0)) == Cont(-1, 0)
  {
    var c := TwoRows();
    assert HitsFrom(c, 0, -1) == [] && HitsFrom(c, 1, -1) == [];
    assert HitsFrom(c, 0, 0) == [(0, 0)] && HitsFrom(c, 1, 0) == [(1, 0)];
    assert All(c, 2) == [];
    assert All(c, 1) == [(1, 0)];
    assert All(c, 0) == [(0, 0), (1, 0)];
  }

  /** With one candidate to a batch every call returns the first row's again. */
  lemma {:induction false} RepeatsForever(k: nat)
    ensures StateAt(TwoRows(), 1, k) == Cont(-1, 0) && !Finished(TwoRows(), 1, k)
    ensures |Output(TwoRows(), 1, k)| == k
    ensures forall h :: h in Output(TwoRows(), 1, k) ==> h == (0, 0)
  {
    hide Returned, After;
    if k > 0 {
      RepeatsForever(k - 1);
      TwoRowsCall();
    }
  }
}
