/** What the result codes of the tokenizer mean: the room for tokens decides about nothing but running out
    of room, a text is cut off exactly if it can be completed, and invalid if it cannot. */
module JsmnCodes {

  import opened Jsmn

  // ---- running out of tokens

  /** Tokenize with room for as many tokens as there are characters. */
  function Unlimited(js: string, past: char): (Code, State) { Steps(js, past, |js|, START) }

  /** With the same state, a step differs from the one with more room only by running out of it. */
  lemma StepRoom(js: string, past: char, max: nat, big: nat, s: State)
    requires s.pos < |js| && max <= big && |s.toks| <= max
    ensures var o := Step(js, past, big, s);
      if o.Stop? && o.code != NoMem then Step(js, past, max, s) == o
      else if o.Next? && |o.s.toks| <= max then Step(js, past, max, s) == o
      else Step(js, past, max, s) == Stop(NoMem)
    ensures Step(js, past, big, s).Next? ==> |s.toks| <= |Step(js, past, big, s).s.toks| <= |s.toks| + 1
    ensures Step(js, past, big, s) == Stop(NoMem) ==> |s.toks| >= big
  {
    hide StringEnd, PrimitiveEnd;
  }

  lemma {:induction false} StepsRoom(js: string, past: char, max: nat, big: nat, s: State)
    requires max <= big && |s.toks| <= max && |js| - s.pos <= big - |s.toks|
    ensures var (code, s') := Steps(js, past, big, s);
      && code != NoMem && |s.toks| <= |s'.toks|
      && if |s'.toks| <= max then Steps(js, past, max, s) == (code, s')
         else Steps(js, past, max, s).0 == NoMem && |Steps(js, past, max, s).1.toks| == max
    decreases |js| - s.pos
  {
    hide Step;
    if s.pos < |js| {
      StepRoom(js, past, max, big, s);
      var o := Step(js, past, big, s);
      if o.Next? {
        if |o.s.toks| <= max {
          StepsRoom(js, past, max, big, o.s);
        } else {
          StepsRoom(js, past, |o.s.toks|, big, o.s);
        }
      }
    }
  }

  /** The number of tokens offered decides about NoMem only: with fewer than are found without limit that
      is the result, otherwise the result is the same. */
  lemma RoomDecides(js: string, past: char, max: nat)
    ensures var (code, s) := Unlimited(js, past);
      && code != NoMem
      && (Steps(js, past, max, START).0 == NoMem <==> |s.toks| > max)
      && (|s.toks| <= max ==> Steps(js, past, max, START) == (code, s))
  {
    hide Steps;
    StepsRoom(js, past, |js|, |js|, START);
    if max <= |js| {
      StepsRoom(js, past, max, |js|, START);
    } else {
      StepsRoom(js, past, |js|, max, START);
      StepsRoom(js, past, max, max, START);
      FewerTokens(js, past, max, START);
    }
  }

  /** Every token takes a character. */
  lemma {:induction false} FewerTokens(js: string, past: char, max: nat, s: State)
    requires s.pos <= |js| && |s.toks| <= s.pos
    ensures |Steps(js, past, max, s).1.toks| <= |js|
    decreases |js| - s.pos
  {
    hide Step;
    if s.pos < |js| {
      if Step(js, past, max, s).Next? {
        OneToken(js, past, max, s);
        FewerTokens(js, past, max, Step(js, past, max, s).s);
      }
    }
  }

  lemma OneToken(js: string, past: char, max: nat, s: State)
    requires s.pos < |js| && Step(js, past, max, s).Next?
    ensures |Step(js, past, max, s).s.toks| <= |s.toks| + 1
  {
    hide StringEnd, PrimitiveEnd;
  }

  // ---- a longer text

  lemma {:induction false} PrimitiveExtends(js: string, tail: string, p: nat)
    requires p <= |js|
    ensures var r := PrimitiveEnd(js, p);
      (r.Bad? || r.at < |js| || tail == "" || IsDelimiter(tail[0])) ==> PrimitiveEnd(js + tail, p) == r
    decreases |js| - p
  {
    if p < |js| {
      if !IsDelimiter(js[p]) && IsPrintable(js[p]) { PrimitiveExtends(js, tail, p + 1); }
    }
  }

  /** The string that covers position p ends behind a backslash, in the middle of an escape. */
  predicate CutEscape(js: string, p: nat)
    decreases |js| - p
  {
    p < |js| && js[p] != '\"' &&
    if js[p] == '\\' then p + 1 == |js| || (IsEscape(js[p + 1]) && CutEscape(js, p + 2)) else CutEscape(js, p + 1)
  }

  lemma {:induction false} StringExtends(js: string, past: char, past': char, tail: string, p: nat)
    requires p <= |js|
    ensures StringEnd(js, past, p).Ends? ==> StringEnd(js + tail, past', p) == StringEnd(js, past, p)
    ensures StringEnd(js, past, p).Bad? && !CutEscape(js, p) ==> StringEnd(js + tail, past', p).Bad?
    ensures StringEnd(js, past, p).Unfinished? && !CutEscape(js, p) ==>
              StringEnd(js + tail, past', p) == StringEnd(js + tail, past', |js|)
    ensures CutEscape(js, p) ==>
              StringEnd(js, past, p) == if IsEscape(past) then Unfinished else Bad
    ensures CutEscape(js, p) && tail != "" && IsEscape(tail[0]) ==>
              StringEnd(js + tail, past', p) == StringEnd(js + tail, past', |js| + 1)
    decreases |js| - p
  {
    if p < |js| && js[p] != '\"' {
      if js[p] != '\\' {
        StringExtends(js, past, past', tail, p + 1);
      } else if p + 1 < |js| && IsEscape(js[p + 1]) {
        StringExtends(js, past, past', tail, p + 2);
      }
    }
  }

  /** The text ends in an escape of the string at s. */
  predicate EndsInEscape(js: string, s: State) {
    s.pos < |js| && js[s.pos] == '\"' && CutEscape(js, s.pos + 1)
  }

  /** The tail does not go on with a primitive that the text ends with. */
  predicate Splits(s: State, js: string, tail: string) {
    s.pos < |js| || tail == "" || IsDelimiter(tail[0])
  }

  lemma StepExtends(js: string, tail: string, past: char, past': char, max: nat, max': nat, s: State)
    requires s.pos < |js| && |s.toks| < max && |s.toks| < max'
    ensures var o := Step(js, past, max, s);
      && (o.Next? && Splits(o.s, js, tail) ==> Step(js + tail, past', max', s) == o)
      && (o == Stop(Inval) && !EndsInEscape(js, s) ==> Step(js + tail, past', max', s) == o)
      && (o == Stop(Part) ==> js[s.pos] == '\"' && StringEnd(js, past, s.pos + 1).Unfinished?)
      && (EndsInEscape(js, s) ==> o == Stop(if IsEscape(past) then Part else Inval))
      && o != Stop(NoMem)
  {
    hide StringEnd, PrimitiveEnd;
    assert (js + tail)[s.pos] == js[s.pos];
    if js[s.pos] == '\"' {
      StringExtends(js, past, past', tail, s.pos + 1);
    } else {
      PrimitiveExtends(js, tail, s.pos);
    }
  }

  lemma StepTokens(js: string, past: char, max: nat, s: State)
    requires s.pos < |js| && |s.toks| <= s.pos && Step(js, past, max, s).Next?
    ensures |Step(js, past, max, s).s.toks| <= Step(js, past, max, s).s.pos
  {
    OneToken(js, past, max, s);
  }

  /** The longer text is tokenized like the text up to where that stops. */
  lemma {:induction false} StepsExtend(js: string, tail: string, past: char, past': char, max: nat, max': nat, s: State)
    requires s.pos <= |js| <= max && |js + tail| <= max' && |s.toks| <= s.pos
    ensures var (code, f) := Steps(js, past, max, s);
      && s.pos <= f.pos <= |js| && |f.toks| <= f.pos
      && (Splits(f, js, tail) ==> Steps(js + tail, past', max', s) == Steps(js + tail, past', max', f))
      && (if f.pos == |js| then code == (if f.stack == [] then Success else Part)
          else Step(js, past, max, f) == Stop(code))
    decreases |js| - s.pos
  {
    hide Step;
    if s.pos < |js| {
      var o := Step(js, past, max, s);
      StepExtends(js, tail, past, past', max, max', s);
      if o.Next? {
        StepTokens(js, past, max, s);
        StepsExtend(js, tail, past, past', max, max', o.s);
      }
    }
  }

  /** Nothing behind an invalid text makes it valid, unless it ends in the middle of an escape. */
  lemma InvalStays(js: string, tail: string, past: char, past': char)
    requires Unlimited(js, past).0 == Inval && !EndsInEscape(js, Unlimited(js, past).1)
    ensures Unlimited(js + tail, past').0 == Inval
  {
    hide Step, EndsInEscape;
    StepsExtend(js, tail, past, past', |js|, |js + tail|, START);
    var f := Unlimited(js, past).1;
    StepExtends(js, tail, past, past', |js|, |js + tail|, f);
  }

  // ---- completing a text

  /** The closing brackets for all that is open, innermost first. */
  function Closers(toks: seq<Token>, stack: seq<nat>): string
    decreases |stack|
  {
    if stack == [] then ""
    else
      var t := Top(stack);
      [if 0 <= t < |toks| && toks[t].kind == Object then '}' else ']'] + Closers(toks, stack[..|stack| - 1])
  }

  lemma {:induction false} ClosersSame(toks: seq<Token>, toks': seq<Token>, stack: seq<nat>)
    requires |toks| <= |toks'| && forall m :: 0 <= m < |stack| ==> stack[m] < |toks|
    requires forall k :: 0 <= k < |toks| ==> toks'[k].kind == toks[k].kind
    ensures Closers(toks', stack) == Closers(toks, stack)
    decreases |stack|
  {
    if stack != [] { ClosersSame(toks, toks', stack[..|stack| - 1]); }
  }

  /** Closing all open brackets ends the text well. */
  lemma {:induction false} CloseAll(js: string, past: char, max: nat, s: State)
    requires Good(js, s) && js[s.pos..] == Closers(s.toks, s.stack)
    ensures Steps(js, past, max, s).0 == Success
    decreases |s.stack|
  {
    hide Good, StringEnd, PrimitiveEnd;
    PosInText(js, s);
    if s.stack != [] {
      TopIsBracket(js, s);
      StackInTokens(js, s);
      var t := Top(s.stack);
      var kind := s.toks[t].kind;
      assert js[s.pos] == js[s.pos..][0];
      assert js[s.pos + 1..] == js[s.pos..][1..];
      var s' := CloseBracket(s, kind);
      assert Step(js, past, max, s) == Next(s');
      StepKeepsGood(js, past, max, s);
      ClosersSame(s.toks, s'.toks, s'.stack);
      CloseAll(js, past, max, s');
    }
  }

  lemma StackInTokens(js: string, s: State)
    requires Good(js, s)
    ensures forall m :: 0 <= m < |s.stack| ==> s.stack[m] < |s.toks|
  {}

  lemma GoodExtends(js: string, tail: string, s: State)
    requires Good(js, s)
    ensures Good(js + tail, s)
  {
    hide PairsOk, SizesOk, StackOk;
    forall i | 0 <= i < |s.toks|
      ensures MarksValue(js + tail, s.toks[i], s.pos)
    {
      assert MarksValue(js, s.toks[i], s.pos);
    }
  }

  lemma ClosersSplit(toks: seq<Token>, stack: seq<nat>)
    ensures Closers(toks, stack) == "" || IsDelimiter(Closers(toks, stack)[0])
  {}

  /** A text with open brackets is completed by their closing ones. */
  lemma CompleteBrackets(js: string, past: char, past': char) returns (tail: string)
    requires Unlimited(js, past).0 == Part && Unlimited(js, past).1.pos == |js|
    ensures Unlimited(js + tail, past').0 == Success
  {
    hide Step, Good;
    var f := Unlimited(js, past).1;
    tail := Closers(f.toks, f.stack);
    ClosersSplit(f.toks, f.stack);
    StepsExtend(js, tail, past, past', |js|, |js + tail|, START);
    StartIsGood(js);
    StepsKeepGood(js, past, |js|, START);
    GoodExtends(js, tail, f);
    assert (js + tail)[|js|..] == tail;
    CloseAll(js + tail, past', |js + tail|, f);
  }

  /** A text that ends in a string is completed by the rest of its escape, the quote and the brackets. */
  lemma CompleteString(js: string, past: char, past': char) returns (tail: string)
    requires var (code, f) := Unlimited(js, past);
      f.pos < |js| && (code == Part || EndsInEscape(js, f))
    ensures Unlimited(js + tail, past').0 == Success
  {
    hide Step, Good, StringEnd;
    var f := Unlimited(js, past).1;
    var rest := "\"" + Closers(f.toks, f.stack);
    tail := if EndsInEscape(js, f) then "n" + rest else rest;
    var q := if EndsInEscape(js, f) then |js| + 1 else |js|;
    StepsExtend(js, tail, past, past', |js|, |js + tail|, START);
    StepExtends(js, tail, past, past', |js|, |js + tail|, f);
    StringExtends(js, past, past', tail, f.pos + 1);
    QuoteEnds(js + tail, past', q);
    StartIsGood(js);
    StepsKeepGood(js, past, |js|, START);
    GoodExtends(js, tail, f);
    var g := Leaf(f, String, f.pos + 1, q, q + 1);
    assert Step(js + tail, past', |js + tail|, f) == Next(g) by { StringStep(js + tail, past', |js + tail|, f, q); }
    StepKeepsGood(js + tail, past', |js + tail|, f);
    StackInTokens(js, f);
    ClosersSame(f.toks, g.toks, f.stack);
    assert (js + tail)[q + 1..] == Closers(f.toks, f.stack);
    CloseAll(js + tail, past', |js + tail|, g);
  }

  lemma QuoteEnds(js: string, past: char, q: nat)
    requires q < |js| && js[q] == '\"'
    ensures StringEnd(js, past, q) == Ends(q)
  {}

  lemma StringStep(js: string, past: char, max: nat, s: State, q: nat)
    requires s.pos < |js| && js[s.pos] == '\"' && StringEnd(js, past, s.pos + 1) == Ends(q) && |s.toks| < max
    ensures Step(js, past, max, s) == Next(Leaf(s, String, s.pos + 1, q, q + 1))
  {}

  ghost predicate Completable(js: string) {
    exists tail: string, past: char :: Unlimited(js + tail, past).0 == Success
  }

  /** What the codes mean: a text is invalid if and only if nothing behind it can complete it, a valid text
      that is not complete is cut off.  A text that ends in the middle of an escape, which can be
      completed, is taken for cut off or invalid depending on what lies behind it in memory. */
  lemma CodesMean(js: string, past: char)
    ensures var (code, f) := Unlimited(js, past);
      && code != NoMem
      && (code == Inval <==> !Completable(js) || (EndsInEscape(js, f) && !IsEscape(past)))
      && (EndsInEscape(js, f) ==> Completable(js) && code == if IsEscape(past) then Part else Inval)
  {
    hide Steps, Step, EndsInEscape, IsEscape;
    var (code, f) := Unlimited(js, past);
    RoomDecides(js, past, |js|);
    Stops(js, past);
    if code == Success {
      assert js + "" == js;
      assert Unlimited(js + "", past).0 == Success;
    } else if code == Part && f.pos == |js| {
      var tail := CompleteBrackets(js, past, past);
    } else if code == Part || EndsInEscape(js, f) {
      var tail := CompleteString(js, past, past);
    } else if Completable(js) {
      var tail: string, past' :| Unlimited(js + tail, past').0 == Success;
      InvalStays(js, tail, past, past');
    }
  }

  /** An opening quote and a backslash: cut off before an n, invalid before an x, and completed by n and a
      quote. */
  lemma BackslashIsUndecided()
    ensures Unlimited("\"\\", 'n').0 == Part && Unlimited("\"\\", 'x').0 == Inval
    ensures Unlimited("\"\\" + "n\"", 'x').0 == Success
  {
    hide Steps, Good;
    var js := "\"\\";
    assert CutEscape(js, 1);
    AtQuote(js, 'n');
    AtQuote(js, 'x');
    assert EndsInEscape(js, START);
    Stops(js, 'n');
    Stops(js, 'x');
    var whole := js + "n\"";
    assert whole == ['\"', '\\', 'n', '\"'];
    QuoteEnds(whole, 'x', 3);
    assert StringEnd(whole, 'x', 1) == Ends(3);
    StringStep(whole, 'x', 4, START, 3);
    OneStringIsAll(whole, 'x');
  }

  lemma AtQuote(js: string, past: char)
    requires js != "" && js[0] == '\"' && Step(js, past, |js|, START).Stop?
    ensures Unlimited(js, past).1 == START
  {}

  lemma OneStringIsAll(js: string, past: char)
    requires js != "" && Step(js, past, |js|, START) == Next(Leaf(START, String, 1, |js| - 1, |js|))
    ensures Unlimited(js, past).0 == Success
  {
    hide Step;
    var s := Leaf(START, String, 1, |js| - 1, |js|);
    assert s.pos == |js| && s.stack == [];
    assert Steps(js, past, |js|, s).0 == Success;
  }

  lemma Stops(js: string, past: char)
    ensures var (code, f) := Unlimited(js, past);
      && f.pos <= |js| && (f.pos == |js| ==> code != Inval) && (f.pos < |js| ==> code != Success)
      && (EndsInEscape(js, f) ==> f.pos < |js| && code == if IsEscape(past) then Part else Inval)
  {
    hide Step;
    StepsExtend(js, "", past, past, |js|, |js|, START);
    var f := Unlimited(js, past).1;
    assert js + "" == js;
    if f.pos < |js| { StepExtends(js, "", past, past, |js|, |js|, f); }
  }

  // ---- the lexical rules, spelled out

  /** The inside of a string: no quote, and every backslash begins one of nine escapes. */
  predicate Body(text: string) {
    text == "" ||
    if text[0] == '\\' then
      |text| >= 2 && text[1] in ['\"', '/', '\\', 'b', 'f', 'r', 'n', 't', 'u'] && Body(text[2..])
    else
      text[0] != '\"' && Body(text[1..])
  }

  lemma {:induction false} StringEndIff(js: string, past: char, p: nat, q: nat)
    requires p <= |js|
    ensures StringEnd(js, past, p) == Ends(q) <==> p <= q < |js| && js[q] == '\"' && Body(js[p..q])
    decreases |js| - p
  {
    if p < q < |js| {
      var text := js[p..q];
      assert text[0] == js[p];
      if js[p] != '\\' {
        StringEndIff(js, past, p + 1, q);
        assert text[1..] == js[p + 1..q];
      } else if p + 1 < |js| && IsEscape(js[p + 1]) {
        StringEndIff(js, past, p + 2, q);
        if p + 2 <= q { assert text[1] == js[p + 1] && text[2..] == js[p + 2..q]; }
      } else if p + 1 < q {
        assert text[1] == js[p + 1];
      }
    } else if p == q {
      assert js[p..p] == "";
    }
  }

  predicate StopsAt(js: string, q: nat) {
    q == |js| || (q < |js| && js[q] in ['\t', '\r', '\n', ' ', ':', ',', ']', '}'])
  }

  lemma {:induction false} PrimitiveEndIs(js: string, p: nat, q: nat)
    requires p <= |js| && PrimitiveEnd(js, p) == Ends(q)
    ensures p <= q <= |js| && StopsAt(js, q)
    ensures forall k :: p <= k < q ==> 33 <= js[k] as int < 127 && js[k] !in [':', ',', ']', '}']
    decreases |js| - p
  {
    if p < |js| && !IsDelimiter(js[p]) { PrimitiveEndIs(js, p + 1, q); }
  }

  predicate LeafOk(js: string, t: Token) {
    match t.kind
    case String => 0 < t.start <= t.end < |js| && js[t.start - 1] == '\"' == js[t.end] && Body(js[t.start..t.end])
    case Primitive =>
      && 0 <= t.start < t.end && StopsAt(js, t.end)
      && t.end <= |js| && forall k ::
         t.start <= k < t.end ==> 33 <= js[k] as int < 127 && js[k] !in [':', ',', ']', '}']
    case _ => true
  }

  lemma LeafIs(js: string, past: char, t: Token)
    requires MarksValue(js, t, |js|) && EndsRight(js, past, t)
    ensures LeafOk(js, t)
  {
    hide StringEnd, PrimitiveEnd;
    if t.kind.String? {
      StringEndIff(js, past, t.start, t.end);
    } else if t.kind.Primitive? {
      PrimitiveEndIs(js, t.start, t.end);
    }
  }

  /** Strings are well-formed, primitives are as long as possible, and on success all that lies outside of
      tokens is whitespace, colons and commas. */
  lemma LexicalRules(js: string, past: char, max: nat)
    ensures var (code, s) := Steps(js, past, max, START);
      && (forall k :: 0 <= k < |s.toks| ==> LeafOk(js, s.toks[k]))
      && (code == Success ==> forall i: nat ::
            i < |js| && js[i] !in ['\t', '\r', '\n', ' ', ':', ','] ==>
              exists k: nat {:trigger s.toks[k]} :: k < |s.toks| && CoveredBy(s.toks[k], i))
  {
    hide Steps, EndsRight, MarksValue, CoveredBy, LeafOk;
    var (code, s) := Steps(js, past, max, START);
    TokensAreTree(js, past, max);
    TokensCoverText(js, past, max);
    forall k | 0 <= k < |s.toks|
      ensures LeafOk(js, s.toks[k])
    {
      LeafIs(js, past, s.toks[k]);
    }
    if code == Success {
      forall i: nat | i < |js| && js[i] !in ['\t', '\r', '\n', ' ', ':', ',']
        ensures exists k: nat {:trigger s.toks[k]} :: k < |s.toks| && CoveredBy(s.toks[k], i)
      {
        assert Covered(js, s.toks, i);
      }
    }
  }
}
