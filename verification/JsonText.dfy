/** JSON texts of the grammar of RFC 8259 (sections 2 to 7), as values with a printer, and what the
    tokenizer makes of them: for a printed value, exactly the tokens of the value. */
module JsonText {

  import opened Jsmn
  import JsmnCodes

  // ---- the grammar

  /** Section 2: insignificant whitespace. */
  predicate Ws(s: string) { forall i :: 0 <= i < |s| ==> s[i] in [' ', '\t', '\n', '\r'] }

  predicate Digits(s: string) { s != "" && forall i :: 0 <= i < |s| ==> '0' <= s[i] <= '9' }

  predicate HexDigit(c: char) { '0' <= c <= '9' || 'a' <= c <= 'f' || 'A' <= c <= 'F' }

  /** Section 6. */
  datatype Exponent = NoExponent | Exponent(e: char, sign: string, digits: string) {
    predicate Ok() { Exponent? ==> e in ['e', 'E'] && sign in ["", "+", "-"] && Digits(digits) }

    function Print(): string { if NoExponent? then "" else [e] + sign + digits }
  }

  datatype Number = Number(minus: bool, whole: string, fraction: string, exponent: Exponent) {
    predicate Ok() {
      && Digits(whole) && (whole[0] == '0' ==> whole == "0")
      && (fraction == "" || Digits(fraction)) && exponent.Ok()
    }

    function Print(): string {
      (if minus then "-" else "") + whole + (if fraction == "" then "" else "." + fraction) + exponent.Print()
    }
  }

  /** Section 7: a character of a string. */
  datatype Unit = Plain(c: char) | Escape(c: char) | Unicode(h: string) {
    predicate Ok() {
      match this
      case Plain(c) => c as int >= 0x20 && c != '\"' && c != '\\'
      case Escape(c) => c in ['\"', '\\', '/', 'b', 'f', 'n', 'r', 't']
      case Unicode(h) => |h| == 4 && forall i :: 0 <= i < 4 ==> HexDigit(h[i])
    }

    function Print(): string {
      match this
      case Plain(c) => [c]
      case Escape(c) => ['\\', c]
      case Unicode(h) => ['\\', 'u'] + h
    }
  }

  predicate UnitsOk(us: seq<Unit>) { forall i :: 0 <= i < |us| ==> us[i].Ok() }

  function PrintUnits(us: seq<Unit>): string { if us == [] then "" else us[0].Print() + PrintUnits(us[1..]) }

  /** Sections 3 to 5; `blank` is the whitespace inside empty brackets. */
  datatype Value =
    | Null | True | False
    | Num(n: Number)
    | Text(us: seq<Unit>)
    | List(blank: string, items: Items)
    | Record(blank: string, members: Members)

  datatype Items = NoItems | Item(before: string, v: Value, after: string, rest: Items)

  datatype Members =
    | NoMembers
    | Member(before: string, name: seq<Unit>, colon: string, space: string, v: Value, after: string, rest: Members)

  predicate ValueOk(v: Value) {
    match v
    case Num(n) => n.Ok()
    case Text(us) => UnitsOk(us)
    case List(blank, items) => Ws(blank) && ItemsOk(items)
    case Record(blank, members) => Ws(blank) && MembersOk(members)
    case _ => true
  }

  predicate ItemsOk(items: Items) {
    items.Item? ==> Ws(items.before) && ValueOk(items.v) && Ws(items.after) && ItemsOk(items.rest)
  }

  predicate MembersOk(ms: Members) {
    ms.Member? ==>
      && Ws(ms.before) && UnitsOk(ms.name) && Ws(ms.colon) && Ws(ms.space) && ValueOk(ms.v) && Ws(ms.after)
      && MembersOk(ms.rest)
  }

  function Print(v: Value): string {
    match v
    case Null => "null"
    case True => "true"
    case False => "false"
    case Num(n) => n.Print()
    case Text(us) => Quoted(us)
    case List(blank, items) => "[" + (if items.NoItems? then blank else PrintItems(items)) + "]"
    case Record(blank, members) => "{" + (if members.NoMembers? then blank else PrintMembers(members)) + "}"
  }

  function Quoted(us: seq<Unit>): string { "\"" + PrintUnits(us) + "\"" }

  /** What stands behind a value: its whitespace, and a comma if another one follows. */
  function Gap(after: string, last: bool): string { if last then after else after + "," }

  function PrintItems(items: Items): string {
    if items.NoItems? then ""
    else items.before + (Print(items.v) + Gap(items.after, items.rest.NoItems?)) + PrintItems(items.rest)
  }

  function PrintMembers(ms: Members): string
    decreases ms, 1
  {
    if ms.NoMembers? then "" else ms.before + (Quoted(ms.name) + PrintField(ms))
  }

  function Colon(ms: Members): string
    requires ms.Member?
  {
    ms.colon + ":" + ms.space
  }

  /** A member behind its name, and the members behind it. */
  function PrintField(ms: Members): string
    requires ms.Member?
    decreases ms, 0
  {
    Colon(ms) + (Print(ms.v) + Gap(ms.after, ms.rest.NoMembers?)) + PrintMembers(ms.rest)
  }

  // ---- the tokens of a value

  function Count(items: Items): nat { if items.NoItems? then 0 else 1 + Count(items.rest) }

  function Fields(ms: Members): nat { if ms.NoMembers? then 0 else 1 + Fields(ms.rest) }

  /** The tokens of a value printed at a position: containers before their parts; the size of a list is the
      number of its items, that of a record the number of its names and values. */
  function Tokens(v: Value, at: nat): seq<Token> {
    match v
    case Text(us) => [Name(us, at)]
    case List(_, items) => [Token(Array, at, at + |Print(v)|, Count(items))] + ItemTokens(items, at + 1)
    case Record(_, members) => [Token(Object, at, at + |Print(v)|, 2 * Fields(members))] + MemberTokens(members, at + 1)
    case _ => [Token(Primitive, at, at + |Print(v)|, 0)]
  }

  function Name(us: seq<Unit>, at: nat): Token { Token(String, at + 1, at + 1 + |PrintUnits(us)|, 0) }

  function ItemTokens(items: Items, at: nat): seq<Token> {
    if items.NoItems? then []
    else
      var p := at + |items.before|;
      Tokens(items.v, p) + ItemTokens(items.rest, p + |Print(items.v)| + |Gap(items.after, items.rest.NoItems?)|)
  }

  function MemberTokens(ms: Members, at: nat): seq<Token>
    decreases ms, 1
  {
    if ms.NoMembers? then []
    else
      var p := at + |ms.before|;
      [Name(ms.name, p)] + FieldTokens(ms, p + |Quoted(ms.name)|)
  }

  function FieldTokens(ms: Members, at: nat): seq<Token>
    requires ms.Member?
    decreases ms, 0
  {
    var p := at + |Colon(ms)|;
    Tokens(ms.v, p) + MemberTokens(ms.rest, p + |Print(ms.v)| + |Gap(ms.after, ms.rest.NoMembers?)|)
  }

  /** The values and names in a value. */
  function Parts(v: Value): nat {
    match v
    case List(_, items) => 1 + ItemParts(items)
    case Record(_, members) => 1 + MemberParts(members)
    case _ => 1
  }

  function ItemParts(items: Items): nat { if items.NoItems? then 0 else Parts(items.v) + ItemParts(items.rest) }

  function MemberParts(ms: Members): nat { if ms.NoMembers? then 0 else 1 + Parts(ms.v) + MemberParts(ms.rest) }

  /** One token for each. */
  lemma {:induction false} TokenCount(v: Value, at: nat)
    ensures |Tokens(v, at)| == Parts(v)
  {
    hide Print;
    match v
    case List(_, items) => ItemTokenCount(items, at + 1);
    case Record(_, ms) => MemberTokenCount(ms, at + 1);
    case _ =>
  }

  lemma {:induction false} ItemTokenCount(items: Items, at: nat)
    ensures |ItemTokens(items, at)| == ItemParts(items)
  {
    hide Print;
    if items.Item? {
      var p := at + |items.before|;
      TokenCount(items.v, p);
      ItemTokenCount(items.rest, p + |Print(items.v)| + |Gap(items.after, items.rest.NoItems?)|);
    }
  }

  lemma {:induction false} MemberTokenCount(ms: Members, at: nat)
    ensures |MemberTokens(ms, at)| == MemberParts(ms)
  {
    hide Print, Quoted;
    if ms.Member? {
      var p := at + |ms.before| + |Quoted(ms.name)| + |Colon(ms)|;
      TokenCount(ms.v, p);
      MemberTokenCount(ms.rest, p + |Print(ms.v)| + |Gap(ms.after, ms.rest.NoMembers?)|);
    }
  }

  // ---- reading one piece of text

  /** The text stands at position p. */
  predicate Has(js: string, p: nat, text: string) { p + |text| <= |js| && js[p..p + |text|] == text }

  lemma HasParts(js: string, p: nat, a: string, b: string)
    requires Has(js, p, a + b)
    ensures Has(js, p, a) && Has(js, p + |a|, b)
  {
    var ab := js[p..p + |a + b|];
    assert ab[..|a|] == a && ab[|a|..] == b;
    assert js[p..p + |a|] == ab[..|a|];
    assert js[p + |a|..p + |a| + |b|] == ab[|a|..];
  }

  /** What may follow a value. */
  predicate Bounded(js: string, q: nat) { q >= |js| || IsDelimiter(js[q]) }

  /** Both states lead to the same result. */
  ghost predicate Leads(js: string, past: char, max: nat, s: State, s': State) {
    Steps(js, past, max, s) == Steps(js, past, max, s')
  }

  predicate Blanks(text: string) { forall i :: 0 <= i < |text| ==> IsBlank(text[i]) }

  lemma {:induction false} ReadBlanks(js: string, past: char, max: nat, s: State, text: string)
    requires Blanks(text) && Has(js, s.pos, text)
    ensures Leads(js, past, max, s, s.(pos := s.pos + |text|))
    decreases |text|
  {
    hide Has;
    if text != "" {
      assert text[..1] == [text[0]];
      assert text[..1] + text[1..] == text;
      HasParts(js, s.pos, text[..1], text[1..]);
      ReadBlank(js, past, max, s, text[0]);
      ReadBlanks(js, past, max, s.(pos := s.pos + 1), text[1..]);
    }
  }

  lemma ReadBlank(js: string, past: char, max: nat, s: State, c: char)
    requires IsBlank(c) && Has(js, s.pos, [c])
    ensures Leads(js, past, max, s, s.(pos := s.pos + 1))
  {
    hide StringEnd, PrimitiveEnd;
    assert js[s.pos] == js[s.pos..s.pos + 1][0];
  }

  /** n more children for the innermost open bracket, and new tokens behind the others. */
  function Plus(s: State, toks: seq<Token>, q: nat, n: nat): State {
    var t := Top(s.stack);
    var kept := if 0 <= t < |s.toks| then s.toks[t := s.toks[t].(size := s.toks[t].size + n)] else s.toks;
    State(q, kept + toks, s.stack)
  }

  lemma PlusPlus(s: State, a: seq<Token>, p: nat, m: nat, b: seq<Token>, q: nat, n: nat)
    requires Top(s.stack) < |s.toks|
    ensures Plus(Plus(s, a, p, m), b, q, n) == Plus(s, a + b, q, m + n)
    ensures Top(s.stack) < |Plus(s, a, p, m).toks| == |s.toks| + |a|
  {}

  lemma PlusNothing(s: State, q: nat)
    ensures Plus(s, [], q, 0) == s.(pos := q)
  {
    var t := Top(s.stack);
    if 0 <= t < |s.toks| { assert s.toks[t := s.toks[t].(size := s.toks[t].size + 0)] == s.toks; }
  }

  predicate WordChar(c: char) { IsPrintable(c) && !IsDelimiter(c) && c != '{' && c != '[' && c != '\"' }

  predicate Word(w: string) { w != "" && forall i :: 0 <= i < |w| ==> WordChar(w[i]) }

  lemma {:induction false} WordEnds(js: string, p: nat, q: nat)
    requires p <= q <= |js| && Bounded(js, q) && forall k :: p <= k < q ==> WordChar(js[k])
    ensures PrimitiveEnd(js, p) == Ends(q)
    decreases q - p
  {
    if p < q { WordEnds(js, p + 1, q); }
  }

  lemma ReadWord(js: string, past: char, max: nat, s: State, w: string)
    requires Word(w) && Has(js, s.pos, w) && Bounded(js, s.pos + |w|) && |s.toks| < max
    ensures var q := s.pos + |w|;
      Leads(js, past, max, s, Plus(s, [Token(Primitive, s.pos, q, 0)], q, 1))
  {
    var q := s.pos + |w|;
    forall k | s.pos <= k < q
      ensures WordChar(js[k])
    {
      assert js[k] == js[s.pos..q][k - s.pos] == w[k - s.pos];
    }
    WordEnds(js, s.pos, q);
    assert Step(js, past, max, s) == Next(Leaf(s, Primitive, s.pos, q, q));
  }

  lemma UnitsText(us: seq<Unit>)
    requires us != []
    ensures PrintUnits(us) + "\"" == us[0].Print() + (PrintUnits(us[1..]) + "\"")
    ensures |PrintUnits(us)| == |us[0].Print()| + |PrintUnits(us[1..])|
  {
    var u, rest := us[0].Print(), PrintUnits(us[1..]);
    assert (u + rest) + "\"" == u + (rest + "\"");
  }

  lemma NoUnits(js: string, past: char, p: nat)
    requires Has(js, p, PrintUnits([]) + "\"")
    ensures StringEnd(js, past, p) == Ends(p) && PrintUnits([]) == ""
  {
    assert js[p] == js[p..p + 1][0];
  }

  lemma {:induction false} UnitsEnd(js: string, past: char, p: nat, us: seq<Unit>)
    requires UnitsOk(us) && Has(js, p, PrintUnits(us) + "\"")
    ensures StringEnd(js, past, p) == Ends(p + |PrintUnits(us)|)
    decreases |us|
  {
    hide StringEnd, PrintUnits, Has;
    if us == [] {
      NoUnits(js, past, p);
    } else {
      UnitsText(us);
      HasParts(js, p, us[0].Print(), PrintUnits(us[1..]) + "\"");
      UnitsEnd(js, past, p + |us[0].Print()|, us[1..]);
      UnitPassed(js, past, p, us[0]);
    }
  }

  /** Reading on behind a unit. */
  lemma UnitPassed(js: string, past: char, p: nat, u: Unit)
    requires u.Ok() && Has(js, p, u.Print())
    ensures StringEnd(js, past, p) == StringEnd(js, past, p + |u.Print()|)
  {
    var text := js[p..p + |u.Print()|];
    assert js[p] == text[0];
    if !u.Plain? { assert js[p + 1] == text[1]; }
    if u.Unicode? {
      forall i | 0 <= i < 4
        ensures js[p + 2 + i] == u.h[i]
      {
        assert js[p + 2 + i] == text[2 + i];
      }
      assert StringEnd(js, past, p) == StringEnd(js, past, p + 2);
      PlainPassed(js, past, p + 2);
      PlainPassed(js, past, p + 3);
      PlainPassed(js, past, p + 4);
      PlainPassed(js, past, p + 5);
    }
  }

  lemma PlainPassed(js: string, past: char, p: nat)
    requires p < |js| && js[p] != '\"' && js[p] != '\\'
    ensures StringEnd(js, past, p) == StringEnd(js, past, p + 1)
  {}

  lemma ReadQuoted(js: string, past: char, max: nat, s: State, us: seq<Unit>)
    requires UnitsOk(us) && Has(js, s.pos, Quoted(us)) && |s.toks| < max
    ensures Reads(js, past, max, s, Quoted(us), [Name(us, s.pos)], 1)
  {
    hide StringEnd, PrimitiveEnd, PrintUnits, UnitsOk;
    var body := PrintUnits(us) + "\"";
    assert Quoted(us) == "\"" + body;
    HasParts(js, s.pos, "\"", body);
    assert js[s.pos] == js[s.pos..s.pos + 1][0];
    UnitsEnd(js, past, s.pos + 1, us);
    var q := s.pos + 1 + |PrintUnits(us)|;
    assert Step(js, past, max, s) == Next(Leaf(s, String, s.pos + 1, q, q + 1));
  }

  lemma LiteralIsWord(v: Value)
    requires ValueOk(v) && (v.Null? || v.True? || v.False? || v.Num?)
    ensures Word(Print(v))
  {
    if v.Num? { NumberIsWord(v.n); }
  }

  lemma NumberIsWord(n: Number)
    requires n.Ok()
    ensures Word(n.Print())
  {
    var sign, fraction := if n.minus then "-" else "", if n.fraction == "" then "" else "." + n.fraction;
    var e := n.exponent.Print();
    WordChars(sign, n.whole);
    WordChars(sign + n.whole, fraction);
    WordChars(sign + n.whole + fraction, e);
  }

  lemma WordChars(a: string, b: string)
    requires forall i :: 0 <= i < |a| ==> WordChar(a[i])
    requires forall i :: 0 <= i < |b| ==> WordChar(b[i])
    ensures forall i :: 0 <= i < |a + b| ==> WordChar((a + b)[i])
  {}

  // ---- reading a value

  ghost predicate Reads(js: string, past: char, max: nat, s: State, text: string, toks: seq<Token>, n: nat) {
    Leads(js, past, max, s, Plus(s, toks, s.pos + |text|, n))
  }

  lemma {:induction false} ReadValue(js: string, past: char, max: nat, s: State, v: Value)
    requires ValueOk(v) && Has(js, s.pos, Print(v)) && Bounded(js, s.pos + |Print(v)|)
    requires Top(s.stack) < |s.toks| && |s.toks| + |Tokens(v, s.pos)| <= max
    ensures Reads(js, past, max, s, Print(v), Tokens(v, s.pos), 1)
    decreases v, 1
  {
    hide Steps, Step, Word, UnitsOk, PrintUnits;
    match v
    case Text(us) => ReadQuoted(js, past, max, s, us);
    case List(blank, items) => ReadList(js, past, max, s, v);
    case Record(blank, members) => ReadRecord(js, past, max, s, v);
    case _ =>
      LiteralIsWord(v);
      ReadWord(js, past, max, s, Print(v));
  }

  lemma Open(js: string, past: char, max: nat, s: State, c: char)
    requires Has(js, s.pos, [c]) && (c == '{' || c == '[') && |s.toks| < max
    ensures Leads(js, past, max, s, OpenBracket(s, BracketKind(c)))
  {
    hide StringEnd, PrimitiveEnd;
    assert js[s.pos] == js[s.pos..s.pos + 1][0];
  }

  /** Inside the bracket opened at state s, with all its children. */
  function Filled(s: State, kind: Kind, toks: seq<Token>, q: nat, n: nat): State {
    Plus(OpenBracket(s, kind), toks, q, n)
  }

  lemma FilledIs(s: State, kind: Kind, toks: seq<Token>, q: nat, n: nat)
    requires Top(s.stack) < |s.toks|
    ensures Closes(Filled(s, kind, toks, q, n), kind)
    ensures CloseBracket(Filled(s, kind, toks, q, n), kind)
            == Plus(s, [Token(kind, s.pos, q + 1, n)] + toks, q + 1, 1)
  {
    var f, k := Filled(s, kind, toks, q, n), |s.toks|;
    var before := Bump(s.toks, s.stack);
    assert f.toks == before + [Token(kind, s.pos, -1, n)] + toks;
    assert f.toks[k := f.toks[k].(end := q + 1)] == before + [Token(kind, s.pos, q + 1, n)] + toks;
    assert f.stack[..|f.stack| - 1] == s.stack;
  }

  lemma Close(js: string, past: char, max: nat, s: State, kind: Kind, toks: seq<Token>, q: nat, n: nat, c: char)
    requires Has(js, q, [c]) && (c == '}' || c == ']') && BracketKind(c) == kind && Top(s.stack) < |s.toks|
    ensures Leads(js, past, max, Filled(s, kind, toks, q, n), Plus(s, [Token(kind, s.pos, q + 1, n)] + toks, q + 1, 1))
  {
    hide StringEnd, PrimitiveEnd, Filled;
    assert js[q] == js[q..q + 1][0];
    FilledIs(s, kind, toks, q, n);
    assert Filled(s, kind, toks, q, n).pos == q by { FilledPos(s, kind, toks, q, n); }
  }

  lemma FilledPos(s: State, kind: Kind, toks: seq<Token>, q: nat, n: nat)
    ensures Filled(s, kind, toks, q, n).pos == q
  {}

  lemma FilledAs(s: State, kind: Kind, toks: seq<Token>, q: nat, n: nat)
    ensures Filled(s, kind, toks, q, n) == Plus(OpenBracket(s, kind), toks, q, n)
    ensures Top(OpenBracket(s, kind).stack) < |OpenBracket(s, kind).toks| == |s.toks| + 1
    ensures OpenBracket(s, kind).pos == s.pos + 1
  {}

  lemma FollowedBy(js: string, q: nat, c: char)
    requires Has(js, q, [c]) && IsDelimiter(c)
    ensures Bounded(js, q)
  {
    assert js[q] == js[q..q + 1][0];
  }

  lemma ListUnfold(v: Value, at: nat)
    requires v.List? && ValueOk(v)
    ensures var inner := if v.items.NoItems? then v.blank else PrintItems(v.items);
      && Print(v) == "[" + (inner + "]") && |Print(v)| == |inner| + 2
      && Tokens(v, at) == [Token(Array, at, at + |inner| + 2, Count(v.items))] + ItemTokens(v.items, at + 1)
    ensures Blanks(v.blank) && ItemsOk(v.items)
    ensures v.items.NoItems? ==> ItemTokens(v.items, at + 1) == [] && Count(v.items) == 0
  {
    hide PrintItems, ItemTokens, Blanks, Ws, Print;
    ListText(v);
    WsIsBlank(v.blank);
    if v.items.NoItems? { ItemsEmpty(v.items, at + 1); }
  }

  lemma ListText(v: Value)
    requires v.List?
    ensures var inner := if v.items.NoItems? then v.blank else PrintItems(v.items);
      Print(v) == "[" + (inner + "]") && |Print(v)| == |inner| + 2
  {
    hide PrintItems;
    var inner := if v.items.NoItems? then v.blank else PrintItems(v.items);
    assert "[" + inner + "]" == "[" + (inner + "]");
  }

  lemma RecordUnfold(v: Value, at: nat)
    requires v.Record? && ValueOk(v)
    ensures var inner := if v.members.NoMembers? then v.blank else PrintMembers(v.members);
      && Print(v) == "{" + (inner + "}") && |Print(v)| == |inner| + 2
      && Tokens(v, at) == [Token(Object, at, at + |inner| + 2, 2 * Fields(v.members))] + MemberTokens(v.members, at + 1)
    ensures Blanks(v.blank) && MembersOk(v.members)
    ensures v.members.NoMembers? ==> MemberTokens(v.members, at + 1) == [] && Fields(v.members) == 0
  {
    hide PrintMembers, MemberTokens, Blanks, Ws, Print;
    RecordText(v);
    WsIsBlank(v.blank);
    if v.members.NoMembers? { MembersEmpty(v.members, at + 1); }
  }

  lemma RecordText(v: Value)
    requires v.Record?
    ensures var inner := if v.members.NoMembers? then v.blank else PrintMembers(v.members);
      Print(v) == "{" + (inner + "}") && |Print(v)| == |inner| + 2
  {
    hide PrintMembers;
    var inner := if v.members.NoMembers? then v.blank else PrintMembers(v.members);
    assert "{" + inner + "}" == "{" + (inner + "}");
  }

  lemma Brackets()
    ensures IsDelimiter(']') && IsDelimiter('}') && Blanks("")
    ensures BracketKind('[') == BracketKind(']') == Array && BracketKind('{') == BracketKind('}') == Object
  {}

  /** Open a bracket, read what is inside, and close it. */
  lemma ReadBracket(js: string, past: char, max: nat, s: State, kind: Kind, c: char, inner: string, c': char,
      toks: seq<Token>, n: nat)
    requires (c == '{' && c' == '}' && kind == Object) || (c == '[' && c' == ']' && kind == Array)
    requires Has(js, s.pos, [c] + (inner + [c'])) && Top(s.stack) < |s.toks| < max
    requires Reads(js, past, max, OpenBracket(s, kind), inner, toks, n)
    ensures Reads(js, past, max, s, [c] + (inner + [c']),
                  [Token(kind, s.pos, s.pos + |inner| + 2, n)] + toks, 1)
  {
    hide Steps, Step, Filled, Has, OpenBracket;
    var q := s.pos + 1 + |inner|;
    HasParts(js, s.pos, [c], inner + [c']);
    HasParts(js, s.pos + 1, inner, [c']);
    Open(js, past, max, s, c);
    FilledAs(s, kind, toks, q, n);
    Close(js, past, max, s, kind, toks, q, n, c');
  }

  lemma {:induction false} ReadList(js: string, past: char, max: nat, s: State, v: Value)
    requires v.List? && ValueOk(v) && Has(js, s.pos, Print(v))
    requires Top(s.stack) < |s.toks| && |s.toks| + |Tokens(v, s.pos)| <= max
    ensures Reads(js, past, max, s, Print(v), Tokens(v, s.pos), 1)
    decreases v, 0
  {
    hide *;
    ListUnfold(v, s.pos);
    Brackets();
    var inner := if v.items.NoItems? then v.blank else PrintItems(v.items);
    var s1, toks := OpenBracket(s, Array), ItemTokens(v.items, s.pos + 1);
    HasParts(js, s.pos, "[", inner + "]");
    HasParts(js, s.pos + 1, inner, "]");
    FilledAs(s, Array, toks, 0, 0);
    if v.items.NoItems? {
      ReadsBlanks(js, past, max, s1, inner);
    } else {
      FollowedBy(js, s.pos + 1 + |inner|, ']');
      ReadItems(js, past, max, s1, v.items);
    }
    ReadBracket(js, past, max, s, Array, '[', inner, ']', toks, Count(v.items));
  }

  lemma {:induction false} ReadRecord(js: string, past: char, max: nat, s: State, v: Value)
    requires v.Record? && ValueOk(v) && Has(js, s.pos, Print(v))
    requires Top(s.stack) < |s.toks| && |s.toks| + |Tokens(v, s.pos)| <= max
    ensures Reads(js, past, max, s, Print(v), Tokens(v, s.pos), 1)
    decreases v, 0
  {
    hide *;
    RecordUnfold(v, s.pos);
    Brackets();
    var inner := if v.members.NoMembers? then v.blank else PrintMembers(v.members);
    var s1, toks := OpenBracket(s, Object), MemberTokens(v.members, s.pos + 1);
    HasParts(js, s.pos, "{", inner + "}");
    HasParts(js, s.pos + 1, inner, "}");
    FilledAs(s, Object, toks, 0, 0);
    if v.members.NoMembers? {
      ReadsBlanks(js, past, max, s1, inner);
    } else {
      FollowedBy(js, s.pos + 1 + |inner|, '}');
      ReadMembers(js, past, max, s1, v.members);
    }
    ReadBracket(js, past, max, s, Object, '{', inner, '}', toks, 2 * Fields(v.members));
  }

  // ---- one piece behind the other

  lemma ReadsNothing(js: string, past: char, max: nat, s: State)
    ensures Reads(js, past, max, s, "", [], 0)
  {
    PlusNothing(s, s.pos);
  }

  lemma ReadsBlanks(js: string, past: char, max: nat, s: State, text: string)
    requires Blanks(text) && Has(js, s.pos, text)
    ensures Reads(js, past, max, s, text, [], 0)
    ensures Plus(s, [], s.pos + |text|, 0) == s.(pos := s.pos + |text|)
  {
    hide Steps, Has;
    ReadBlanks(js, past, max, s, text);
    PlusNothing(s, s.pos + |text|);
  }

  lemma ReadsJoin(js: string, past: char, max: nat, s: State, a: string, ta: seq<Token>, m: nat, b: string,
      tb: seq<Token>, n: nat)
    requires Top(s.stack) < |s.toks| && Reads(js, past, max, s, a, ta, m)
    requires Reads(js, past, max, Plus(s, ta, s.pos + |a|, m), b, tb, n)
    ensures Reads(js, past, max, s, a + b, ta + tb, m + n)
  {
    hide Steps;
    PlusPlus(s, ta, s.pos + |a|, m, tb, s.pos + |a| + |b|, n);
    assert Plus(s, ta, s.pos + |a|, m).pos == s.pos + |a|;
  }

  lemma PlusFacts(s: State, toks: seq<Token>, q: nat, n: nat)
    requires Top(s.stack) < |s.toks|
    ensures var s' := Plus(s, toks, q, n);
      Top(s'.stack) < |s'.toks| == |s.toks| + |toks| && s'.pos == q && s'.stack == s.stack
  {}

  lemma GapIsBlank(after: string, last: bool)
    requires Ws(after)
    ensures Blanks(Gap(after, last)) && (!last ==> Gap(after, last) != "")
  {}

  lemma WsIsBlank(text: string)
    requires Ws(text)
    ensures Blanks(text)
  {}

  lemma GapBounds(js: string, q: nat, gap: string, more: string, last: bool)
    requires Has(js, q, gap + more) && Blanks(gap)
    requires if last then more == "" && Bounded(js, q + |gap|) else gap != ""
    ensures Bounded(js, q)
  {
    if gap != "" {
      var text := gap + more;
      assert js[q] == js[q..q + |text|][0] == text[0];
    }
  }

  /** A value with blanks around it. */
  lemma {:induction false} ReadPiece(js: string, past: char, max: nat, s: State, before: string, v: Value, gap: string)
    requires Blanks(before) && ValueOk(v) && Blanks(gap) && Has(js, s.pos, before + (Print(v) + gap))
    requires Bounded(js, s.pos + |before| + |Print(v)|)
    requires Top(s.stack) < |s.toks| && |s.toks| + |Tokens(v, s.pos + |before|)| <= max
    ensures Reads(js, past, max, s, before + (Print(v) + gap), Tokens(v, s.pos + |before|), 1)
    decreases v, 2
  {
    hide *;
    HasParts(js, s.pos, before, Print(v) + gap);
    HasParts(js, s.pos + |before|, Print(v), gap);
    var p, toks := s.pos + |before|, Tokens(v, s.pos + |before|);
    var s1 := s.(pos := p);
    ReadsBlanks(js, past, max, s, before);
    ReadValue(js, past, max, s1, v);
    PlusFacts(s1, toks, p + |Print(v)|, 1);
    ReadsBlanks(js, past, max, Plus(s1, toks, p + |Print(v)|, 1), gap);
    ReadsJoin(js, past, max, s1, Print(v), toks, 1, gap, [], 0);
    ReadsJoin(js, past, max, s, before, [], 0, Print(v) + gap, toks + [], 1);
    assert [] + (toks + []) == toks;
  }

  lemma ItemsUnfold(items: Items, at: nat)
    requires items.Item? && ItemsOk(items)
    ensures ValueOk(items.v) && ItemsOk(items.rest) && Blanks(items.before)
    ensures var gap := Gap(items.after, items.rest.NoItems?);
      && Blanks(gap) && (items.rest.NoItems? ==> PrintItems(items.rest) == "") && (items.rest.Item? ==> gap != "")
      && PrintItems(items) == items.before + (Print(items.v) + gap) + PrintItems(items.rest)
      && var p := at + |items.before|;
         ItemTokens(items, at) == Tokens(items.v, p) + ItemTokens(items.rest, p + |Print(items.v)| + |gap|)
    ensures Count(items) == 1 + Count(items.rest)
  {
    hide Print, Tokens;
    GapIsBlank(items.after, items.rest.NoItems?);
    WsIsBlank(items.before);
    var gap := Gap(items.after, items.rest.NoItems?);
    assert PrintItems(items) == items.before + (Print(items.v) + gap) + PrintItems(items.rest);
  }

  lemma ItemsEmpty(items: Items, at: nat)
    requires items.NoItems?
    ensures PrintItems(items) == "" && ItemTokens(items, at) == [] && Count(items) == 0
  {}

  /** The end of the value in the middle of the text of an item or member. */
  lemma PieceEnds(js: string, p: nat, before: string, text: string, gap: string, more: string, last: bool)
    requires Has(js, p, before + (text + gap) + more) && Blanks(gap)
    requires if last then more == "" && Bounded(js, p + |before + (text + gap) + more|) else gap != ""
    ensures Has(js, p, before + (text + gap)) && Has(js, p + |before + (text + gap)|, more)
    ensures Bounded(js, p + |before| + |text|)
  {
    hide Bounded, Blanks;
    var q := p + |before| + |text|;
    HasParts(js, p, before + (text + gap), more);
    assert before + (text + gap) + more == (before + text) + (gap + more);
    HasParts(js, p, before + text, gap + more);
    GapBounds(js, q, gap, more, last);
  }

  lemma {:induction false} ReadItems(js: string, past: char, max: nat, s: State, items: Items)
    requires ItemsOk(items) && Has(js, s.pos, PrintItems(items)) && Bounded(js, s.pos + |PrintItems(items)|)
    requires Top(s.stack) < |s.toks| && |s.toks| + |ItemTokens(items, s.pos)| <= max
    ensures Reads(js, past, max, s, PrintItems(items), ItemTokens(items, s.pos), Count(items))
    decreases items, 0
  {
    hide *;
    if items.NoItems? {
      ItemsEmpty(items, s.pos);
      ReadsNothing(js, past, max, s);
    } else {
      ItemsUnfold(items, s.pos);
      var gap, more := Gap(items.after, items.rest.NoItems?), PrintItems(items.rest);
      var p := s.pos + |items.before|;
      var piece, toks := items.before + (Print(items.v) + gap), Tokens(items.v, p);
      var r := s.pos + |piece|;
      PieceEnds(js, s.pos, items.before, Print(items.v), gap, more, items.rest.NoItems?);
      ReadPiece(js, past, max, s, items.before, items.v, gap);
      PlusFacts(s, toks, r, 1);
      ReadItems(js, past, max, Plus(s, toks, r, 1), items.rest);
      ReadsJoin(js, past, max, s, piece, toks, 1, more, ItemTokens(items.rest, r), Count(items.rest));
    }
  }

  lemma MembersUnfold(ms: Members, at: nat)
    requires ms.Member? && MembersOk(ms)
    ensures ValueOk(ms.v) && MembersOk(ms.rest) && Blanks(ms.before) && UnitsOk(ms.name) && Blanks(Colon(ms))
    ensures var gap := Gap(ms.after, ms.rest.NoMembers?);
      Blanks(gap) && (ms.rest.NoMembers? ==> PrintMembers(ms.rest) == "") && (ms.rest.Member? ==> gap != "")
    ensures PrintMembers(ms) == ms.before + (Quoted(ms.name) + PrintField(ms))
    ensures var p := at + |ms.before|;
      MemberTokens(ms, at) == [Name(ms.name, p)] + FieldTokens(ms, p + |Quoted(ms.name)|)
    ensures Fields(ms) == 1 + Fields(ms.rest)
  {
    hide Print, Tokens, UnitsOk, Quoted, Name, PrintMembers, MemberTokens, PrintField, FieldTokens, ValueOk, Blanks, Ws;
    GapIsBlank(ms.after, ms.rest.NoMembers?);
    WsIsBlank(ms.before);
    ColonIsBlank(ms);
    MembersAre(ms, at);
    if ms.rest.NoMembers? { MembersEmpty(ms.rest, at); }
  }

  lemma MembersAre(ms: Members, at: nat)
    requires ms.Member?
    ensures PrintMembers(ms) == ms.before + (Quoted(ms.name) + PrintField(ms))
    ensures var p := at + |ms.before|;
      MemberTokens(ms, at) == [Name(ms.name, p)] + FieldTokens(ms, p + |Quoted(ms.name)|)
  {
    hide Print, Tokens, Quoted, Name, PrintField, FieldTokens;
  }

  lemma ColonIsBlank(ms: Members)
    requires ms.Member? && Ws(ms.colon) && Ws(ms.space)
    ensures Blanks(Colon(ms))
  {}

  lemma MembersEmpty(ms: Members, at: nat)
    requires ms.NoMembers?
    ensures PrintMembers(ms) == "" && MemberTokens(ms, at) == [] && Fields(ms) == 0
  {}

  lemma {:induction false} ReadMembers(js: string, past: char, max: nat, s: State, ms: Members)
    requires MembersOk(ms) && Has(js, s.pos, PrintMembers(ms)) && Bounded(js, s.pos + |PrintMembers(ms)|)
    requires Top(s.stack) < |s.toks| && |s.toks| + |MemberTokens(ms, s.pos)| <= max
    ensures Reads(js, past, max, s, PrintMembers(ms), MemberTokens(ms, s.pos), 2 * Fields(ms))
    decreases ms, 1
  {
    hide *;
    if ms.NoMembers? {
      MembersEmpty(ms, s.pos);
      ReadsNothing(js, past, max, s);
    } else {
      MembersUnfold(ms, s.pos);
      var p, field := s.pos + |ms.before|, PrintField(ms);
      var n := p + |Quoted(ms.name)|;
      HasParts(js, s.pos, ms.before, Quoted(ms.name) + field);
      HasParts(js, p, Quoted(ms.name), field);
      ReadsBlanks(js, past, max, s, ms.before);
      var s1 := s.(pos := p);
      ReadQuoted(js, past, max, s1, ms.name);
      PlusFacts(s1, [Name(ms.name, p)], n, 1);
      ReadField(js, past, max, Plus(s1, [Name(ms.name, p)], n, 1), ms);
      ReadsJoin(js, past, max, s1, Quoted(ms.name), [Name(ms.name, p)], 1, field, FieldTokens(ms, n),
                2 * Fields(ms) - 1);
      ReadsJoin(js, past, max, s, ms.before, [], 0, Quoted(ms.name) + field, MemberTokens(ms, s.pos), 2 * Fields(ms));
      assert [] + MemberTokens(ms, s.pos) == MemberTokens(ms, s.pos);
    }
  }

  lemma {:induction false} ReadField(js: string, past: char, max: nat, s: State, ms: Members)
    requires ms.Member? && MembersOk(ms) && Has(js, s.pos, PrintField(ms)) && Bounded(js, s.pos + |PrintField(ms)|)
    requires Top(s.stack) < |s.toks| && |s.toks| + |FieldTokens(ms, s.pos)| <= max
    ensures Reads(js, past, max, s, PrintField(ms), FieldTokens(ms, s.pos), 2 * Fields(ms) - 1)
    decreases ms, 0
  {
    hide *;
    MembersUnfold(ms, 0);
    FieldUnfold(ms, s.pos);
    var gap, more := Gap(ms.after, ms.rest.NoMembers?), PrintMembers(ms.rest);
    var p := s.pos + |Colon(ms)|;
    var piece, toks := Colon(ms) + (Print(ms.v) + gap), Tokens(ms.v, p);
    var r := s.pos + |piece|;
    PieceEnds(js, s.pos, Colon(ms), Print(ms.v), gap, more, ms.rest.NoMembers?);
    ReadPiece(js, past, max, s, Colon(ms), ms.v, gap);
    PlusFacts(s, toks, r, 1);
    ReadMembers(js, past, max, Plus(s, toks, r, 1), ms.rest);
    ReadsJoin(js, past, max, s, piece, toks, 1, more, MemberTokens(ms.rest, r), 2 * Fields(ms.rest));
  }

  lemma FieldUnfold(ms: Members, at: nat)
    requires ms.Member?
    ensures var gap := Gap(ms.after, ms.rest.NoMembers?);
      && PrintField(ms) == Colon(ms) + (Print(ms.v) + gap) + PrintMembers(ms.rest)
      && var p := at + |Colon(ms)|;
         FieldTokens(ms, at) == Tokens(ms.v, p) + MemberTokens(ms.rest, p + |Print(ms.v)| + |gap|)
  {}

  /** A JSON text: a value with whitespace around it. */
  function TextOf(lead: string, v: Value, trail: string): string { lead + Print(v) + trail }

  /** Every JSON text is tokenized, with exactly the tokens of its value, if there is room for them. */
  lemma JsonSucceeds(lead: string, v: Value, trail: string, past: char, max: nat)
    requires Ws(lead) && ValueOk(v) && Ws(trail) && |Tokens(v, |lead|)| <= max
    ensures var js := TextOf(lead, v, trail);
      Steps(js, past, max, START) == (Success, State(|js|, Tokens(v, |lead|), []))
  {
    hide *;
    var js := TextOf(lead, v, trail);
    TextIs(lead, v, trail);
    WsIsBlank(lead);
    WsIsBlank(trail);
    assert lead + (Print(v) + trail) == lead + (Print(v) + trail) + "";
    PieceEnds(js, 0, lead, Print(v), trail, "", true);
    StartIs();
    ReadPiece(js, past, max, START, lead, v, trail);
    AtEnd(js, past, max, lead + (Print(v) + trail), Tokens(v, |lead|));
  }

  lemma TextIs(lead: string, v: Value, trail: string)
    ensures var js := TextOf(lead, v, trail);
      js == lead + (Print(v) + trail) && Has(js, 0, js + "") && Bounded(js, |js|)
  {
    var js := TextOf(lead, v, trail);
    assert js[0..|js|] == js == js + "";
  }

  lemma StartIs()
    ensures START == State(0, [], []) && Top(START.stack) < |START.toks|
  {}

  lemma AtEnd(js: string, past: char, max: nat, text: string, toks: seq<Token>)
    requires |text| == |js| && Reads(js, past, max, START, text, toks, 1)
    ensures Steps(js, past, max, START) == (Success, State(|js|, toks, []))
  {
    assert Plus(START, toks, |js|, 1) == State(|js|, toks, []);
  }

  /** With fewer tokens than the value has parts the result is that they ran out, and only then. */
  lemma JsonSucceedsIff(lead: string, v: Value, trail: string, past: char, max: nat)
    requires Ws(lead) && ValueOk(v) && Ws(trail)
    ensures Steps(TextOf(lead, v, trail), past, max, START).0 == if Parts(v) <= max then Success else NoMem
  {
    hide *;
    var js := TextOf(lead, v, trail);
    var enough := max + Parts(v) + |js|;
    TokenCount(v, |lead|);
    JsonSucceeds(lead, v, trail, past, enough);
    if Parts(v) <= max {
      JsonSucceeds(lead, v, trail, past, max);
    } else {
      TextRoom(js, past, enough);
      JsmnCodes.RoomDecides(js, past, max);
    }
  }

  lemma TextRoom(js: string, past: char, max: nat)
    requires |js| <= max && Steps(js, past, max, START).0 == Success
    ensures JsmnCodes.Unlimited(js, past) == Steps(js, past, max, START)
  {
    hide Steps;
    JsmnCodes.RoomDecides(js, past, max);
    JsmnCodes.FewerTokens(js, past, |js|, START);
  }
}
