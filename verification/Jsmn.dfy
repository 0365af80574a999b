/** The jsmn tokenizer in its non-strict form: a superset of JSON (sections 2, 4, 5 and 7 of RFC 8259)
    in which every unquoted value is a primitive.  It finds parents by scanning the token array
    backwards; the specification keeps a real stack of open brackets. */
module Jsmn {

  datatype Kind = Primitive | Object | Array | String

  /** end is -1 while an object or array is open. */
  datatype Token = Token(kind: Kind, start: int, end: int, size: nat) {
    predicate Open() { start != -1 && end == -1 }
  }

  datatype Code = NoMem | Inval | Part | Success

  // ---- lexical rules

  predicate IsBlank(c: char) { c == '\t' || c == '\r' || c == '\n' || c == ' ' || c == ':' || c == ',' }

  /** What ends a primitive. */
  predicate IsDelimiter(c: char) { IsBlank(c) || c == ']' || c == '}' }

  predicate IsPrintable(c: char) { 32 <= c as int < 127 }

  predicate IsEscape(c: char) {
    c == '\"' || c == '/' || c == '\\' || c == 'b' || c == 'f' || c == 'r' || c == 'n' || c == 't' || c == 'u'
  }

  datatype Scan = Ends(at: nat) | Bad | Unfinished

  /** Where the primitive that covers position p ends. */
  function PrimitiveEnd(js: string, p: nat): (r: Scan)
    ensures r.Ends? ==> r.at >= p && (p <= |js| ==> r.at <= |js|)
    ensures r.Ends? && p < |js| && !IsDelimiter(js[p]) ==> r.at > p
    ensures !r.Unfinished?
    decreases |js| - p
  {
    if p >= |js| || IsDelimiter(js[p]) then Ends(p)
    else if !IsPrintable(js[p]) then Bad
    else PrimitiveEnd(js, p + 1)
  }

  /** Where the closing quote of the string that covers position p is.  `past` is what is read when a
      backslash is the last character. */
  function StringEnd(js: string, past: char, p: nat): (r: Scan)
    ensures r.Ends? ==> p <= r.at < |js| && js[r.at] == '\"'
    decreases |js| - p
  {
    if p >= |js| then Unfinished
    else if js[p] == '\"' then Ends(p)
    else if js[p] == '\\' then
      if IsEscape(if p + 1 < |js| then js[p + 1] else past) then StringEnd(js, past, p + 2) else Bad
    else StringEnd(js, past, p + 1)
  }

  // ---- tokenizing with a stack of open brackets

  datatype State = State(pos: nat, toks: seq<Token>, stack: seq<nat>)

  /** The innermost open bracket, or -1. */
  function Top(stack: seq<nat>): int { if stack == [] then -1 else stack[|stack| - 1] }

  /** One more child for the innermost open bracket. */
  function Bump(toks: seq<Token>, stack: seq<nat>): (r: seq<Token>)
    ensures |r| == |toks|
  {
    var t := Top(stack);
    if 0 <= t < |toks| then toks[t := toks[t].(size := toks[t].size + 1)] else toks
  }

  function Leaf(s: State, kind: Kind, start: nat, end: nat, next: nat): State {
    State(next, Bump(s.toks, s.stack) + [Token(kind, start, end, 0)], s.stack)
  }

  function OpenBracket(s: State, kind: Kind): State {
    State(s.pos + 1, Bump(s.toks, s.stack) + [Token(kind, s.pos, -1, 0)], s.stack + [|s.toks|])
  }

  predicate Closes(s: State, kind: Kind) {
    s.stack != [] && Top(s.stack) < |s.toks| && s.toks[Top(s.stack)].kind == kind
  }

  function CloseBracket(s: State, kind: Kind): State
    requires Closes(s, kind)
  {
    var t := Top(s.stack);
    State(s.pos + 1, s.toks[t := s.toks[t].(end := s.pos + 1)], s.stack[..|s.stack| - 1])
  }

  datatype Outcome = Next(s: State) | Stop(code: Code)

  function BracketKind(c: char): Kind { if c == '{' || c == '}' then Object else Array }

  /** What happens at the current character, with room for max tokens. */
  function Step(js: string, past: char, max: nat, s: State): (o: Outcome)
    requires s.pos < |js|
    ensures o.Next? ==> s.pos < o.s.pos <= |js|
    ensures o.Stop? ==> o.code != Success
  {
    var c := js[s.pos];
    if c == '{' || c == '[' then
      if |s.toks| >= max then Stop(NoMem) else Next(OpenBracket(s, BracketKind(c)))
    else if c == '}' || c == ']' then
      if Closes(s, BracketKind(c)) then Next(CloseBracket(s, BracketKind(c))) else Stop(Inval)
    else if c == '\"' then
      match StringEnd(js, past, s.pos + 1)
      case Ends(q) => if |s.toks| >= max then Stop(NoMem) else Next(Leaf(s, String, s.pos + 1, q, q + 1))
      case Bad => Stop(Inval)
      case Unfinished => Stop(Part)
    else if IsBlank(c) then Next(s.(pos := s.pos + 1))
    else
      match PrimitiveEnd(js, s.pos)
      case Ends(q) => if |s.toks| >= max then Stop(NoMem) else Next(Leaf(s, Primitive, s.pos, q, q))
      case Bad => Stop(Inval)
  }

  /** Tokenize to the end or to the first error. */
  function Steps(js: string, past: char, max: nat, s: State): (Code, State)
    decreases |js| - s.pos
  {
    if s.pos >= |js| then (if s.stack == [] then Success else Part, s)
    else
      match Step(js, past, max, s)
      case Next(s') => Steps(js, past, max, s')
      case Stop(code) => (code, s)
  }

  // ---- what the token array says

  /** Token j starts inside token i, that is before its end if it has one. */
  predicate Inside(toks: seq<Token>, i: nat, j: nat)
    requires i < |toks| && j < |toks|
  {
    i < j && (toks[i].Open() || toks[j].start < toks[i].end)
  }

  /** The last token below i that token j lies inside of, or -1. */
  function LastAround(toks: seq<Token>, j: nat, i: nat): (r: int)
    requires j < |toks| && i <= |toks|
    ensures -1 <= r < i && (r >= 0 ==> Inside(toks, r, j))
    ensures forall k :: r < k < i ==> !Inside(toks, k, j)
  {
    if i == 0 then -1 else if Inside(toks, i - 1, j) then i - 1 else LastAround(toks, j, i - 1)
  }

  /** The innermost token around token j, or -1. */
  function Parent(toks: seq<Token>, j: nat): (r: int)
    requires j < |toks|
    ensures -1 <= r < |toks|
  {
    LastAround(toks, j, |toks|)
  }

  /** Direct children of token i among the first n tokens. */
  function Children(toks: seq<Token>, i: nat, n: nat): nat
    requires n <= |toks|
  {
    if n == 0 then 0 else Children(toks, i, n - 1) + if Parent(toks, n - 1) == i then 1 else 0
  }

  /** A token marks a value of the text: brackets at both ends, a quoted string, or a run without
      delimiters. */
  predicate MarksValue(js: string, t: Token, pos: nat)
    requires pos <= |js|
  {
    match t.kind
    case String => 0 < t.start <= t.end < pos && js[t.start - 1] == '\"' == js[t.end]
    case Primitive => 0 <= t.start < t.end <= pos && forall k ::
        t.start <= k < t.end ==> !IsDelimiter(js[k]) && IsPrintable(js[k])
    case _ =>
      && 0 <= t.start < pos && (js[t.start] == '{' || js[t.start] == '[') && BracketKind(js[t.start]) == t.kind
      && (t.end == -1
          || (t.start + 1 < t.end <= pos && (js[t.end - 1] == '}' || js[t.end - 1] == ']')
          && BracketKind(js[t.end - 1]) == t.kind))
  }

  /** Every pair of tokens is in start order and nested or disjoint. */
  predicate PairOk(toks: seq<Token>, i: nat, j: nat)
    requires i < j < |toks|
  {
    && toks[i].start < toks[j].start
    && (Inside(toks, i, j) && toks[i].end != -1 ==> toks[j].end != -1 && toks[j].end <= toks[i].end)
  }

  ghost predicate StackOk(s: State) {
    && (forall m, n :: 0 <= m < n < |s.stack| ==> s.stack[m] < s.stack[n])
    && (forall m :: 0 <= m < |s.stack| ==> s.stack[m] < |s.toks| && s.toks[s.stack[m]].end == -1)
    && (forall i :: 0 <= i < |s.toks| && s.toks[i].end == -1 ==> i in s.stack)
  }

  ghost predicate PairsOk(toks: seq<Token>) {
    forall i, j {:trigger PairOk(toks, i, j)} :: 0 <= i < j < |toks| ==> PairOk(toks, i, j)
  }

  ghost predicate SizesOk(toks: seq<Token>) {
    forall i {:trigger toks[i].size} :: 0 <= i < |toks| ==> toks[i].size == Children(toks, i, |toks|)
  }

  ghost predicate ValuesOk(js: string, s: State) {
    s.pos <= |js| && forall i :: 0 <= i < |s.toks| ==> MarksValue(js, s.toks[i], s.pos)
  }

  ghost predicate Good(js: string, s: State) {
    ValuesOk(js, s) && StackOk(s) && PairsOk(s.toks) && SizesOk(s.toks)
  }

  // ---- every step keeps the tree

  /** The same nesting among the first tokens. */
  ghost predicate SameNesting(toks: seq<Token>, toks': seq<Token>) {
    && |toks| <= |toks'|
    && forall i, j {:trigger Inside(toks', i, j)} ::
       0 <= i < |toks| && 0 <= j < |toks| ==> (Inside(toks', i, j) <==> Inside(toks, i, j))
  }

  lemma LastAroundIs(toks: seq<Token>, j: nat, i: nat, r: int)
    requires j < |toks| && i <= |toks| && -1 <= r < i && (r >= 0 ==> Inside(toks, r, j))
    requires forall k :: r < k < i ==> !Inside(toks, k, j)
    ensures LastAround(toks, j, i) == r
  {}

  lemma ParentSame(toks: seq<Token>, toks': seq<Token>, j: nat)
    requires SameNesting(toks, toks') && j < |toks|
    ensures Parent(toks', j) == Parent(toks, j)
  {
    var r := Parent(toks, j);
    if r >= 0 { assert Inside(toks', r, j); }
    forall k | r < k < |toks'|
      ensures !Inside(toks', k, j)
    {}
    LastAroundIs(toks', j, |toks'|, r);
  }

  lemma {:induction false} ChildrenSame(toks: seq<Token>, toks': seq<Token>, i: nat, n: nat)
    requires SameNesting(toks, toks') && n <= |toks|
    ensures Children(toks', i, n) == Children(toks, i, n)
  {
    hide SameNesting, Parent;
    if n > 0 {
      ChildrenSame(toks, toks', i, n - 1);
      ParentSame(toks, toks', n - 1);
    }
  }

  /** Children come after their parent. */
  lemma {:induction false} NoChildrenBefore(toks: seq<Token>, i: nat, n: nat)
    requires n <= |toks| && n <= i + 1
    ensures Children(toks, i, n) == 0
  {
    if n > 0 { NoChildrenBefore(toks, i, n - 1); }
  }

  /** Token t may follow the tokens of s. */
  ghost predicate Fresh(js: string, s: State, t: Token, next: nat) {
    s.pos <= t.start && t.size == 0 && s.pos < next <= |js| && MarksValue(js, t, next)
  }

  /** Only open brackets are around a new token, so the top of the stack is its parent. */
  lemma NewParent(js: string, s: State, t: Token, next: nat)
    requires ValuesOk(js, s) && StackOk(s) && Fresh(js, s, t, next)
    ensures var toks' := Bump(s.toks, s.stack) + [t];
      && Parent(toks', |s.toks|) == Top(s.stack) < |s.toks|
      && forall i :: 0 <= i < |s.toks| ==> (Inside(toks', i, |s.toks|) <==> s.toks[i].end == -1)
  {
    var n := |s.toks|;
    var toks' := Bump(s.toks, s.stack) + [t];
    forall i | 0 <= i < n
      ensures Inside(toks', i, n) <==> s.toks[i].end == -1
    {
      assert MarksValue(js, s.toks[i], s.pos);
    }
    LastAroundIs(toks', n, n + 1, Top(s.stack));
  }

  lemma AddNesting(js: string, s: State, t: Token)
    requires ValuesOk(js, s)
    ensures SameNesting(s.toks, Bump(s.toks, s.stack) + [t])
  {
    var toks' := Bump(s.toks, s.stack) + [t];
    assert forall i :: 0 <= i < |s.toks| ==> toks'[i].start == s.toks[i].start && toks'[i].end == s.toks[i].end;
  }

  lemma AddPairs(js: string, s: State, t: Token, next: nat)
    requires ValuesOk(js, s) && StackOk(s) && PairsOk(s.toks) && Fresh(js, s, t, next)
    ensures PairsOk(Bump(s.toks, s.stack) + [t])
  {
    hide MarksValue;
    var n := |s.toks|;
    var toks' := Bump(s.toks, s.stack) + [t];
    NewParent(js, s, t, next);
    forall i, j | 0 <= i < j < |toks'|
      ensures PairOk(toks', i, j)
    {
      if j < n {
        assert PairOk(s.toks, i, j);
      } else {
        StartsBefore(js, s, i);
      }
    }
  }

  lemma StartsBefore(js: string, s: State, i: nat)
    requires ValuesOk(js, s) && i < |s.toks|
    ensures 0 <= s.toks[i].start < s.pos
  {
    assert MarksValue(js, s.toks[i], s.pos);
  }

  lemma AddSizes(js: string, s: State, t: Token, next: nat)
    requires ValuesOk(js, s) && StackOk(s) && SizesOk(s.toks) && Fresh(js, s, t, next)
    ensures SizesOk(Bump(s.toks, s.stack) + [t])
  {
    hide MarksValue, Inside, Parent, StackOk;
    var n := |s.toks|;
    var toks' := Bump(s.toks, s.stack) + [t];
    NewParent(js, s, t, next);
    AddNesting(js, s, t);
    forall i | 0 <= i < |toks'|
      ensures toks'[i].size == Children(toks', i, |toks'|)
    {
      if i < n {
        ChildrenSame(s.toks, toks', i, n);
        assert s.toks[i].size == Children(s.toks, i, n);
      } else {
        NoChildrenBefore(toks', n, n + 1);
      }
    }
  }

  lemma AddValues(js: string, s: State, t: Token, next: nat, stack: seq<nat>)
    requires ValuesOk(js, s) && Fresh(js, s, t, next)
    ensures ValuesOk(js, State(next, Bump(s.toks, s.stack) + [t], stack))
  {
    var toks' := Bump(s.toks, s.stack) + [t];
    forall i | 0 <= i < |toks'|
      ensures MarksValue(js, toks'[i], next)
    {
      if i < |s.toks| { assert MarksValue(js, s.toks[i], s.pos); }
    }
  }

  lemma AddLeaf(js: string, s: State, t: Token, next: nat)
    requires Good(js, s) && Fresh(js, s, t, next) && t.end != -1
    ensures Good(js, State(next, Bump(s.toks, s.stack) + [t], s.stack))
  {
    hide MarksValue, ValuesOk, SizesOk, PairsOk, Fresh;
    AddValues(js, s, t, next, s.stack);
    AddPairs(js, s, t, next);
    AddSizes(js, s, t, next);
  }

  lemma AddBracket(js: string, s: State, t: Token, next: nat)
    requires Good(js, s) && Fresh(js, s, t, next) && t.end == -1
    ensures Good(js, State(next, Bump(s.toks, s.stack) + [t], s.stack + [|s.toks|]))
  {
    hide MarksValue, ValuesOk, SizesOk, PairsOk, Fresh;
    AddValues(js, s, t, next, s.stack + [|s.toks|]);
    AddPairs(js, s, t, next);
    AddSizes(js, s, t, next);
    var stack' := s.stack + [|s.toks|];
    assert stack'[|s.stack|] == |s.toks|;
    forall i | i in s.stack
      ensures i in stack'
    {}
  }

  /** Closing a bracket changes no nesting: all tokens behind it have ended. */
  lemma CloseNesting(js: string, s: State, kind: Kind)
    requires ValuesOk(js, s) && StackOk(s) && Closes(s, kind)
    ensures SameNesting(s.toks, CloseBracket(s, kind).toks)
    ensures forall j :: Top(s.stack) < j < |s.toks| ==> s.toks[j].end != -1 && s.toks[j].end <= s.pos
  {
    forall j | 0 <= j < |s.toks|
      ensures s.toks[j].start <= s.pos && s.toks[j].end <= s.pos && s.toks[j].start >= 0
    {
      assert MarksValue(js, s.toks[j], s.pos);
    }
    forall j | Top(s.stack) < j < |s.toks|
      ensures s.toks[j].end != -1
    {
      assert forall m :: 0 <= m < |s.stack| ==> s.stack[m] <= Top(s.stack);
      assert j !in s.stack;
    }
  }

  lemma CloseKeeps(js: string, s: State, kind: Kind)
    requires Good(js, s) && Closes(s, kind) && s.pos < |js| && (js[s.pos] == '}' || js[s.pos] == ']')
             && BracketKind(js[s.pos]) == kind && (kind == Object || kind == Array)
    ensures Good(js, CloseBracket(s, kind))
  {
    hide MarksValue, Inside, PairOk, Children, SizesOk, SameNesting;
    var s' := CloseBracket(s, kind);
    CloseNesting(js, s, kind);
    forall i | 0 <= i < |s.toks|
      ensures MarksValue(js, s'.toks[i], s'.pos)
    {
      CloseValue(js, s, kind, i);
    }
    forall i, j | 0 <= i < j < |s.toks|
      ensures PairOk(s'.toks, i, j)
    {
      assert PairOk(s.toks, i, j);
      ClosePair(js, s, kind, i, j);
    }
    CloseSizes(s.toks, s'.toks);
    CloseStack(s, kind);
  }

  lemma CloseStack(s: State, kind: Kind)
    requires StackOk(s) && Closes(s, kind) && s.pos >= 0
    ensures StackOk(CloseBracket(s, kind))
  {
    var s' := CloseBracket(s, kind);
    var n := |s.stack| - 1;
    forall i | 0 <= i < |s'.toks| && s'.toks[i].end == -1
      ensures i in s'.stack
    {
      assert i in s.stack && i != s.stack[n];
      var m :| 0 <= m < |s.stack| && s.stack[m] == i;
      assert s'.stack[m] == i;
    }
  }

  lemma CloseSizes(toks: seq<Token>, toks': seq<Token>)
    requires SameNesting(toks, toks') && |toks| == |toks'| && SizesOk(toks)
    requires forall i :: 0 <= i < |toks| ==> toks'[i].size == toks[i].size
    ensures SizesOk(toks')
  {
    hide SameNesting, Children;
    forall i | 0 <= i < |toks'|
      ensures toks'[i].size == Children(toks', i, |toks'|)
    {
      ChildrenSame(toks, toks', i, |toks|);
      assert toks[i].size == Children(toks, i, |toks|);
    }
  }

  lemma CloseValue(js: string, s: State, kind: Kind, i: nat)
    requires ValuesOk(js, s) && StackOk(s) && Closes(s, kind) && i < |s.toks|
    requires s.pos < |js| && (js[s.pos] == '}' || js[s.pos] == ']') && BracketKind(js[s.pos]) == kind
             && (kind == Object || kind == Array)
    ensures MarksValue(js, CloseBracket(s, kind).toks[i], s.pos + 1)
  {
    assert MarksValue(js, s.toks[i], s.pos);
  }

  lemma ClosePair(js: string, s: State, kind: Kind, i: nat, j: nat)
    requires ValuesOk(js, s) && StackOk(s) && Closes(s, kind) && i < j < |s.toks| && PairOk(s.toks, i, j)
    requires SameNesting(s.toks, CloseBracket(s, kind).toks)
    requires forall k :: Top(s.stack) < k < |s.toks| ==> s.toks[k].end != -1 && s.toks[k].end <= s.pos
    ensures PairOk(CloseBracket(s, kind).toks, i, j)
  {
    hide MarksValue;
    var toks' := CloseBracket(s, kind).toks;
    assert Inside(toks', i, j) <==> Inside(s.toks, i, j);
  }

  lemma StepKeepsGood(js: string, past: char, max: nat, s: State)
    requires Good(js, s) && s.pos < |js|
    ensures match Step(js, past, max, s) case Next(s') => Good(js, s') case Stop(_) => true
  {
    hide Good, PrimitiveEnd, StringEnd;
    var c := js[s.pos];
    if c == '{' || c == '[' {
      AddBracket(js, s, Token(BracketKind(c), s.pos, -1, 0), s.pos + 1);
    } else if c == '}' || c == ']' {
      if Closes(s, BracketKind(c)) { CloseKeeps(js, s, BracketKind(c)); }
    } else if c == '"' {
      var r := StringEnd(js, past, s.pos + 1);
      if r.Ends? { AddLeaf(js, s, Token(String, s.pos + 1, r.at, 0), r.at + 1); }
    } else if IsBlank(c) {
      BlankKeeps(js, s);
    } else {
      var r := PrimitiveEnd(js, s.pos);
      if r.Ends? {
        PrimitiveRun(js, s.pos);
        AddLeaf(js, s, Token(Primitive, s.pos, r.at, 0), r.at);
      }
    }
  }

  lemma BlankKeeps(js: string, s: State)
    requires Good(js, s) && s.pos < |js|
    ensures Good(js, s.(pos := s.pos + 1))
  {
    forall i | 0 <= i < |s.toks|
      ensures MarksValue(js, s.toks[i], s.pos + 1)
    {
      assert MarksValue(js, s.toks[i], s.pos);
    }
  }

  lemma {:induction false} PrimitiveRun(js: string, p: nat)
    requires PrimitiveEnd(js, p).Ends? && p <= |js|
    ensures forall k :: p <= k < PrimitiveEnd(js, p).at ==> !IsDelimiter(js[k]) && IsPrintable(js[k])
    decreases |js| - p
  {
    if p < |js| && !IsDelimiter(js[p]) { PrimitiveRun(js, p + 1); }
  }

  lemma {:induction false} StepsKeepGood(js: string, past: char, max: nat, s: State)
    requires Good(js, s)
    ensures Good(js, Steps(js, past, max, s).1)
    ensures Steps(js, past, max, s).0 == Success
            ==> Steps(js, past, max, s).1.stack == [] && Steps(js, past, max, s).1.pos == |js|
    decreases |js| - s.pos
  {
    hide Good, Step;
    PosInText(js, s);
    if s.pos < |js| {
      StepKeepsGood(js, past, max, s);
      var o := Step(js, past, max, s);
      if o.Next? { StepsKeepGood(js, past, max, o.s); }
    }
  }

  lemma PosInText(js: string, s: State)
    requires Good(js, s)
    ensures s.pos <= |js|
  {}

  const START := State(0, [], [])

  /** On success the tokens are the tree of the text: in start order, pairwise nested or disjoint, all
      ended, each marking a value, and every size the number of direct children.  On an error all this
      holds of the tokens so far. */
  lemma TokensAreTree(js: string, past: char, max: nat)
    ensures var (code, s) := Steps(js, past, max, START);
      && PairsOk(s.toks) && SizesOk(s.toks)
      && (forall i :: 0 <= i < |s.toks| ==> MarksValue(js, s.toks[i], |js|))
      && (code == Success ==> forall i :: 0 <= i < |s.toks| ==> s.toks[i].end != -1)
  {
    hide Steps, MarksValue;
    StepsKeepGood(js, past, max, START);
    var (code, s) := Steps(js, past, max, START);
    forall i | 0 <= i < |s.toks|
      ensures MarksValue(js, s.toks[i], |js|)
    {
      LaterValue(js, s.toks[i], s.pos, |js|);
    }
  }

  lemma LaterValue(js: string, t: Token, p: nat, q: nat)
    requires p <= q <= |js| && MarksValue(js, t, p)
    ensures MarksValue(js, t, q)
  {}

  // ---- no character is left out

  /** The token accounts for character i: a bracket, a part of a string or its quotes, or a part of a
      primitive. */
  predicate CoveredBy(t: Token, i: nat) {
    match t.kind
    case String => t.start - 1 <= i <= t.end
    case Primitive => t.start <= i < t.end
    case _ => i == t.start || i == t.end - 1
  }

  ghost predicate Covered(js: string, toks: seq<Token>, i: nat)
    requires i < |js|
  {
    IsBlank(js[i]) || exists k: nat {:trigger toks[k]} :: k < |toks| && CoveredBy(toks[k], i)
  }

  /** Leaves end where the lexical rules say. */
  predicate EndsRight(js: string, past: char, t: Token) {
    match t.kind
    case String => t.start >= 0 && var r := StringEnd(js, past, t.start); r.Ends? && r.at == t.end
    case Primitive => t.start >= 0 && var r := PrimitiveEnd(js, t.start); r.Ends? && r.at == t.end
    case _ => true
  }

  ghost predicate Read(js: string, past: char, s: State) {
    && s.pos <= |js|
    && (forall i: nat {:trigger Covered(js, s.toks, i)} :: i < s.pos ==> Covered(js, s.toks, i))
    && (forall k {:trigger s.toks[k]} :: 0 <= k < |s.toks| ==> EndsRight(js, past, s.toks[k]))
  }

  /** Tokens change in their size, and brackets by being closed. */
  ghost predicate Later(toks: seq<Token>, toks': seq<Token>) {
    && |toks| <= |toks'|
    && forall k {:trigger toks'[k]} :: 0 <= k < |toks| ==>
         && toks'[k].kind == toks[k].kind && toks'[k].start == toks[k].start
         && (toks'[k].end == toks[k].end || (toks[k].end == -1 && toks[k].kind in {Object, Array}))
  }

  lemma CoveredLater(js: string, toks: seq<Token>, toks': seq<Token>, i: nat)
    requires i < |js| && Later(toks, toks') && Covered(js, toks, i)
    ensures Covered(js, toks', i)
  {
    if !IsBlank(js[i]) {
      var k: nat :| k < |toks| && CoveredBy(toks[k], i);
      assert CoveredBy(toks'[k], i);
    }
  }

  lemma EndsLater(js: string, past: char, toks: seq<Token>, toks': seq<Token>, k: nat)
    requires Later(toks, toks') && k < |toks| && EndsRight(js, past, toks[k])
    ensures EndsRight(js, past, toks'[k])
  {}

  lemma StepIsLater(js: string, past: char, max: nat, s: State)
    requires Good(js, s) && s.pos < |js| && Step(js, past, max, s).Next?
    ensures Later(s.toks, Step(js, past, max, s).s.toks)
  {
    hide StringEnd, PrimitiveEnd, PairsOk, SizesOk, MarksValue;
    if s.stack != [] { TopIsBracket(js, s); }
  }

  lemma TopIsBracket(js: string, s: State)
    requires Good(js, s) && s.stack != []
    ensures var t := Top(s.stack);
      0 <= t < |s.toks| && s.toks[t].end == -1 && s.toks[t].kind in {Object, Array}
  {
    assert MarksValue(js, s.toks[Top(s.stack)], s.pos);
  }

  /** The characters of one step belong to its token. */
  lemma StepCovers(js: string, past: char, max: nat, s: State, i: nat)
    requires Good(js, s) && s.pos < |js| && Step(js, past, max, s).Next?
    requires s.pos <= i < Step(js, past, max, s).s.pos
    ensures Covered(js, Step(js, past, max, s).s.toks, i)
  {
    hide StringEnd, PrimitiveEnd, PairsOk, SizesOk, MarksValue;
    var c, toks := js[s.pos], Step(js, past, max, s).s.toks;
    if c == '}' || c == ']' {
      TopIsBracket(js, s);
      assert CoveredBy(toks[Top(s.stack)], i);
    } else if !IsBlank(c) {
      assert CoveredBy(toks[|toks| - 1], i);
    }
  }

  lemma StepEnds(js: string, past: char, max: nat, s: State, k: nat)
    requires Good(js, s) && s.pos < |js| && Step(js, past, max, s).Next?
    requires |s.toks| <= k < |Step(js, past, max, s).s.toks|
    ensures EndsRight(js, past, Step(js, past, max, s).s.toks[k])
  {
    hide StringEnd, PrimitiveEnd, PairsOk, SizesOk, MarksValue;
  }

  lemma StepReads(js: string, past: char, max: nat, s: State)
    requires Good(js, s) && Read(js, past, s) && s.pos < |js| && Step(js, past, max, s).Next?
    ensures Read(js, past, Step(js, past, max, s).s)
  {
    hide Good, Covered, EndsRight, Later, Step;
    var s' := Step(js, past, max, s).s;
    StepIsLater(js, past, max, s);
    forall i: nat {:trigger Covered(js, s'.toks, i)} | i < s'.pos
      ensures Covered(js, s'.toks, i)
    {
      if i < s.pos { CoveredLater(js, s.toks, s'.toks, i); } else { StepCovers(js, past, max, s, i); }
    }
    forall k {:trigger s'.toks[k]} | 0 <= k < |s'.toks|
      ensures EndsRight(js, past, s'.toks[k])
    {
      if k < |s.toks| { EndsLater(js, past, s.toks, s'.toks, k); } else { StepEnds(js, past, max, s, k); }
    }
  }

  lemma {:induction false} StepsRead(js: string, past: char, max: nat, s: State)
    requires Good(js, s) && Read(js, past, s)
    ensures Read(js, past, Steps(js, past, max, s).1)
    decreases |js| - s.pos
  {
    hide Good, Step, Read;
    PosInText(js, s);
    if s.pos < |js| {
      StepKeepsGood(js, past, max, s);
      var o := Step(js, past, max, s);
      if o.Next? {
        StepReads(js, past, max, s);
        StepsRead(js, past, max, o.s);
      }
    }
  }

  /** On success every character is accounted for: it is a blank, a colon or a comma, or a bracket of an
      object or array, or in a string with its quotes, or in a primitive; strings end at their first
      unescaped quote and primitives at their first delimiter. */
  lemma TokensCoverText(js: string, past: char, max: nat)
    ensures var (code, s) := Steps(js, past, max, START);
      && (code == Success ==> forall i: nat {:trigger Covered(js, s.toks, i)} :: i < |js| ==> Covered(js, s.toks, i))
      && (forall k {:trigger s.toks[k]} :: 0 <= k < |s.toks| ==> EndsRight(js, past, s.toks[k]))
  {
    hide Steps, Covered, EndsRight, Good;
    StartIsGood(js);
    StepsKeepGood(js, past, max, START);
    StepsRead(js, past, max, START);
  }

  lemma StartIsGood(js: string)
    ensures Good(js, START)
  {}

  // ---- a backslash as the last character

  lemma {:induction false} StringEndIgnoresPast(js: string, past: char, past': char, p: nat)
    requires StringEnd(js, past, p).Ends?
    ensures StringEnd(js, past', p) == StringEnd(js, past, p)
    decreases |js| - p
  {
    if p < |js| && js[p] != '\"' {
      StringEndIgnoresPast(js, past, past', if js[p] == '\\' then p + 2 else p + 1);
    }
  }

  /** What is read behind the text never decides about success. */
  lemma {:induction false} SuccessIgnoresPast(js: string, past: char, past': char, max: nat, s: State)
    requires Steps(js, past, max, s).0 == Success
    ensures Steps(js, past', max, s) == Steps(js, past, max, s)
    decreases |js| - s.pos
  {
    hide PrimitiveEnd;
    if s.pos < |js| {
      var o := Step(js, past, max, s);
      if js[s.pos] == '\"' && StringEnd(js, past, s.pos + 1).Ends? {
        StringEndIgnoresPast(js, past, past', s.pos + 1);
      }
      SuccessIgnoresPast(js, past, past', max, o.s);
    }
  }

  // ---- the parser

  class Parser {
    var pos: nat
    var toknext: nat
    var toksuper: int

    /** The parser and its tokens stand for state s. */
    ghost predicate At(tokens: array<Token>, s: State)
      reads this, tokens
    {
      pos == s.pos && toknext == |s.toks| <= tokens.Length && tokens[..toknext] == s.toks && toksuper == Top(s.stack)
    }

    constructor ()
      ensures pos == 0 && toknext == 0 && toksuper == -1
    {
      pos, toknext, toksuper := 0, 0, -1;
    }

    /** The next unused token, or -1. */
    method AllocToken(tokens: array<Token>) returns (t: int)
      modifies `toknext, tokens
      ensures old(toknext) >= tokens.Length ==> t == -1 && toknext == old(toknext) && tokens[..] == old(tokens[..])
      ensures old(toknext) < tokens.Length ==> t == old(toknext) && toknext == t + 1
      ensures old(toknext) < tokens.Length ==> exists k :: tokens[..] == old(tokens[..])[t := Token(k, -1, -1, 0)]
    {
      if toknext >= tokens.Length { return -1; }
      t := toknext;
      toknext := toknext + 1;
      ghost var kind := tokens[t].kind;
      tokens[t] := tokens[t].(start := -1, end := -1);
      tokens[t] := tokens[t].(size := 0);
      assert tokens[..] == old(tokens[..])[t := Token(kind, -1, -1, 0)];
    }

    method FillToken(tokens: array<Token>, t: nat, kind: Kind, start: nat, end: nat)
      requires t < tokens.Length
      modifies tokens
      ensures tokens[..] == old(tokens[..])[t := Token(kind, start, end, 0)]
    {
      tokens[t] := Token(kind, start, end, 0);
    }

    method ParsePrimitive(js: string, tokens: array<Token>) returns (code: Code)
      requires pos < |js| && !IsDelimiter(js[pos])
      modifies `pos, `toknext, tokens
      ensures var r := PrimitiveEnd(js, old(pos));
        if r.Ends? && old(toknext) < tokens.Length then
          && code == Success && pos == r.at - 1 && toknext == old(toknext) + 1
          && tokens[..] == old(tokens[..])[old(toknext) := Token(Primitive, old(pos), r.at, 0)]
        else
          code == (if r.Ends? then NoMem else Inval) && pos == old(pos) && toknext == old(toknext)
              && tokens[..] == old(tokens[..])
    {
      var start := pos;
      while pos < |js| && !IsDelimiter(js[pos])
        invariant start <= pos <= |js| && toknext == old(toknext) && tokens[..] == old(tokens[..])
        invariant PrimitiveEnd(js, pos) == PrimitiveEnd(js, start)
      {
        if !IsPrintable(js[pos]) {
          pos := start;
          return Inval;
        }
        pos := pos + 1;
      }
      var t := AllocToken(tokens);
      if t == -1 {
        pos := start;
        return NoMem;
      }
      FillToken(tokens, t, Primitive, start, pos);
      pos := pos - 1;
      return Success;
    }

    method ParseString(js: string, past: char, tokens: array<Token>) returns (code: Code)
      requires pos < |js|
      modifies `pos, `toknext, tokens
      ensures var r := StringEnd(js, past, old(pos) + 1);
        if r.Ends? && old(toknext) < tokens.Length then
          && code == Success && pos == r.at && toknext == old(toknext) + 1
          && tokens[..] == old(tokens[..])[old(toknext) := Token(String, old(pos) + 1, r.at, 0)]
        else
          && code == (match r case Ends(_) => NoMem case Bad => Inval case Unfinished => Part)
          && pos == old(pos) && toknext == old(toknext) && tokens[..] == old(tokens[..])
    {
      var start := pos;
      pos := pos + 1;
      while pos < |js|
        invariant start < pos && toknext == old(toknext) && tokens[..] == old(tokens[..])
        invariant StringEnd(js, past, pos) == StringEnd(js, past, start + 1)
      {
        var c := js[pos];
        if c == '\"' {
          var t := AllocToken(tokens);
          if t == -1 {
            pos := start;
            return NoMem;
          }
          FillToken(tokens, t, String, start + 1, pos);
          return Success;
        }
        if c == '\\' {
          pos := pos + 1;
          if !IsEscape(if pos < |js| then js[pos] else past) {
            pos := start;
            return Inval;
          }
        }
        pos := pos + 1;
      }
      pos := start;
      return Part;
    }

    /** Find the innermost open token at or below `from`, by scanning backwards. */
    method LastOpen(tokens: array<Token>, from: int) returns (i: int)
      requires -1 <= from < tokens.Length
      ensures -1 <= i <= from && (i >= 0 ==> tokens[i].Open())
      ensures forall k :: i < k <= from ==> !tokens[k].Open()
    {
      i := from;
      while i >= 0 && !tokens[i].Open()
        invariant -1 <= i <= from
        invariant forall k :: i < k <= from ==> !tokens[k].Open()
      {
        i := i - 1;
      }
    }

    /** Close the innermost open bracket, if it is of this kind. */
    method Close(js: string, tokens: array<Token>, kind: Kind, ghost s: State) returns (code: Code)
      requires At(tokens, s) && Good(js, s)
      modifies `toksuper, tokens
      ensures code == if Closes(s, kind) then Success else Inval
      ensures At(tokens, if Closes(s, kind) then CloseBracket(s, kind).(pos := s.pos) else s)
    {
      hide Good;
      var i := LastOpen(tokens, toknext - 1);
      assert forall k :: 0 <= k < toknext ==> tokens[k] == tokens[..toknext][k];
      TopIsLastOpen(js, s, i);
      if i == -1 { return Inval; }
      if tokens[i].kind != kind { return Inval; }
      toksuper := -1;
      tokens[i] := tokens[i].(end := pos + 1);
      i := LastOpen(tokens, i);
      BelowTop(js, s, kind, tokens[..toknext], i);
      toksuper := i;
      return Success;
    }

    /** Start a token for an opening bracket. */
    method OpenToken(tokens: array<Token>, kind: Kind, ghost s: State) returns (code: Code)
      requires At(tokens, s) && Top(s.stack) < |s.toks|
      modifies `toknext, `toksuper, tokens
      ensures code == if |s.toks| < tokens.Length then Success else NoMem
      ensures At(tokens, if |s.toks| < tokens.Length then OpenBracket(s, kind).(pos := s.pos) else s)
    {
      var t := AllocToken(tokens);
      if t == -1 { return NoMem; }
      if toksuper != -1 {
        tokens[toksuper] := tokens[toksuper].(size := tokens[toksuper].size + 1);
      }
      tokens[t] := tokens[t].(kind := kind);
      tokens[t] := tokens[t].(start := pos);
      toksuper := toknext - 1;
      assert tokens[..toknext] == Bump(s.toks, s.stack) + [Token(kind, s.pos, -1, 0)];
      return Success;
    }

    /** A string or primitive was found: it is a child of the innermost open bracket. */
    method LeafToken(tokens: array<Token>, ghost s: State, ghost t: Token)
      requires Top(s.stack) < |s.toks| < toknext <= tokens.Length && toknext == |s.toks| + 1 && toksuper == Top(s.stack)
      requires tokens[..toknext] == s.toks + [t]
      modifies tokens
      ensures tokens[..toknext] == Bump(s.toks, s.stack) + [t]
    {
      if toksuper != -1 {
        tokens[toksuper] := tokens[toksuper].(size := tokens[toksuper].size + 1);
      }
    }

    /** A string, counted at its parent. */
    method StringToken(js: string, past: char, tokens: array<Token>, ghost s: State) returns (code: Code)
      requires At(tokens, s) && Top(s.stack) < |s.toks| && pos < |js| && js[pos] == '\"'
      modifies `pos, `toknext, tokens
      ensures match Step(js, past, tokens.Length, s)
        case Next(s') => code == Success && At(tokens, s'.(pos := s'.pos - 1))
        case Stop(c) => code == c && At(tokens, s)
    {
      hide StringEnd;
      code := ParseString(js, past, tokens);
      if code == Success {
        ghost var t := tokens[toknext - 1];
        Grown(tokens[..], s.toks, t, toknext);
        LeafToken(tokens, s, t);
      }
    }

    /** A primitive, counted at its parent. */
    method PrimitiveToken(js: string, past: char, tokens: array<Token>, ghost s: State) returns (code: Code)
      requires At(tokens, s) && Top(s.stack) < |s.toks| && pos < |js|
      requires !IsDelimiter(js[pos]) && js[pos] !in "{[\""
      modifies `pos, `toknext, tokens
      ensures match Step(js, past, tokens.Length, s)
        case Next(s') => code == Success && At(tokens, s'.(pos := s'.pos - 1))
        case Stop(c) => code == c && At(tokens, s)
    {
      hide PrimitiveEnd;
      code := ParsePrimitive(js, tokens);
      if code == Success {
        ghost var t := tokens[toknext - 1];
        Grown(tokens[..], s.toks, t, toknext);
        LeafToken(tokens, s, t);
      }
    }

    /** One character of the text, or one string or primitive. */
    method Char(js: string, past: char, tokens: array<Token>, ghost s: State) returns (code: Code)
      requires At(tokens, s) && Good(js, s) && pos < |js|
      modifies this, tokens
      ensures match Step(js, past, tokens.Length, s)
        case Next(s') => code == Success && At(tokens, s')
        case Stop(c) => code == c && At(tokens, s)
    {
      hide Good, Inside, MarksValue, PrimitiveEnd, StringEnd;
      TopIsToken(js, s);
      code := Success;
      var c := js[pos];
      if c == '{' || c == '[' {
        code := OpenToken(tokens, BracketKind(c), s);
      } else if c == '}' || c == ']' {
        code := Close(js, tokens, BracketKind(c), s);
      } else if c == '\"' {
        code := StringToken(js, past, tokens, s);
      } else if !IsBlank(c) {
        code := PrimitiveToken(js, past, tokens, s);
      }
      if code == Success { pos := pos + 1; }
    }

    /** Tokenize the text from the current state; tokens found before an error stay. */
    method Parse(js: string, past: char, tokens: array<Token>, ghost from: State) returns (code: Code)
      requires At(tokens, from) && Good(js, from)
      modifies this, tokens
      ensures code == Steps(js, past, tokens.Length, from).0
      ensures At(tokens, Steps(js, past, tokens.Length, from).1)
    {
      hide Good, Step;
      ghost var s := from;
      while pos < |js|
        invariant At(tokens, s) && Good(js, s)
        invariant Steps(js, past, tokens.Length, s) == Steps(js, past, tokens.Length, from)
        decreases |js| - s.pos
      {
        StepKeepsGood(js, past, tokens.Length, s);
        code := Char(js, past, tokens, s);
        if code != Success { return code; }
        s := Step(js, past, tokens.Length, s).s;
      }
      var i := LastOpen(tokens, toknext - 1);
      assert forall k :: 0 <= k < toknext ==> tokens[k] == tokens[..toknext][k];
      TopIsLastOpen(js, s, i);
      if i >= 0 { return Part; }
      return Success;
    }
  }

  lemma TopIsToken(js: string, s: State)
    requires Good(js, s)
    ensures Top(s.stack) < |s.toks| && (s.stack != [] ==> Top(s.stack) >= 0)
  {}

  lemma Grown(after: seq<Token>, toks: seq<Token>, t: Token, n: nat)
    requires n == |toks| + 1 <= |after| && after[..n - 1] == toks && t == after[n - 1]
    ensures after[..n] == toks + [t]
  {}

  /** A backward scan finds the top of the stack. */
  lemma TopIsLastOpen(js: string, s: State, i: int)
    requires Good(js, s) && -1 <= i < |s.toks| && (i >= 0 ==> s.toks[i].Open())
    requires forall k :: i < k < |s.toks| ==> !s.toks[k].Open()
    ensures i == Top(s.stack)
  {
    forall k | 0 <= k < |s.toks|
      ensures s.toks[k].Open() <==> k in s.stack
    {
      assert MarksValue(js, s.toks[k], s.pos);
    }
    if s.stack != [] { assert Top(s.stack) in s.stack; }
  }

  /** After the top was closed, the scan goes on to the bracket below it. */
  lemma BelowTop(js: string, s: State, kind: Kind, toks: seq<Token>, i: int)
    requires Good(js, s) && Closes(s, kind) && toks == CloseBracket(s, kind).toks && -1 <= i <= Top(s.stack)
             && (i >= 0 ==> toks[i].Open())
    requires forall k :: i < k <= Top(s.stack) ==> !toks[k].Open()
    ensures i == Top(CloseBracket(s, kind).stack) && CloseBracket(s, kind).toks == toks
  {
    hide MarksValue;
    var t, below := Top(s.stack), s.stack[..|s.stack| - 1];
    forall k | 0 <= k < |s.toks| && k != t
      ensures toks[k].Open() <==> k in s.stack
    {
      StartsBefore(js, s, k);
    }
    assert !toks[t].Open();
    if below != [] {
      assert s.stack[|s.stack| - 2] in s.stack;
    }
    if i >= 0 {
      var m :| 0 <= m < |s.stack| && s.stack[m] == i;
    }
  }
}
