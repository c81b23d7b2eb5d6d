/** The Cedar statement printed for a role-gated policy, and a parser of such statements: its lexer
    skips white space, its grammar is the permit form with an action list in the scope and a
    disjunction of group tests as the condition. */
module CedarText {
  import opened MemberStatus

  /** A role-gated permit: the actions it lists, and the ids of the groups it tests for. */
  datatype Policy = Policy(actions: seq<string>, groupIds: seq<string>)

  // ---- The printer

  function Joined(parts: seq<string>, separator: string): string {
    if |parts| == 0 then ""
    else if |parts| == 1 then parts[0]
    else parts[0] + separator + Joined(parts[1..], separator)
  }

  /** The entity id of a group: its pool's id, then its name. */
  function GroupEntityId(userPoolId: string, group: string): string {
    userPoolId + "|" + group
  }

  function GroupChecks(userPoolId: string, groups: seq<string>): seq<string> {
    seq(|groups|, i requires 0 <= i < |groups| =>
      "principal in Boxalarm::UserGroup::\"" + GroupEntityId(userPoolId, groups[i]) + "\"")
  }

  function ActionRefs(actions: seq<string>): seq<string> {
    seq(|actions|, i requires 0 <= i < |actions| => "Boxalarm::Action::\"" + actions[i] + "\"")
  }

  function RoleGatedPolicy(userPoolId: string, groups: seq<string>, actions: seq<string>): string {
    var groupCheck := Joined(GroupChecks(userPoolId, groups), " || ");
    var actionList := Joined(ActionRefs(actions), ", ");
    "permit (\n  principal,\n  action in [" + actionList + "],\n  resource\n) when {\n  " + groupCheck + "\n};"
  }

  // ---- The lexer

  datatype Token = Word(text: string) | Quoted(text: string) | Mark(text: string)

  predicate IsSpace(c: char) {
    c == ' ' || c == '\n' || c == '\t' || c == '\r'
  }

  predicate IsWordChar(c: char) {
    'a' <= c <= 'z' || 'A' <= c <= 'Z' || '0' <= c <= '9' || c == '_'
  }

  predicate IsMark(c: char) {
    c in "()[]{},;"
  }

  function WordLength(s: string): (n: nat)
    ensures n <= |s|
  {
    if s == "" || !IsWordChar(s[0]) then 0 else WordLength(s[1..]) + 1
  }

  /** Where the string literal that has been opened ends; escapes are not read. */
  function QuotedLength(s: string): (n: Option<nat>)
    ensures n.Some? ==> n.value < |s| && s[n.value] == '"'
  {
    if s == "" || s[0] == '\\' then None
    else if s[0] == '"' then Some(0)
    else
      var rest := QuotedLength(s[1..]);
      if rest.None? then None else Some(rest.value + 1)
  }

  function Prepend(t: Token, rest: Option<seq<Token>>): Option<seq<Token>> {
    if rest.None? then None else Some([t] + rest.value)
  }

  function Lex(s: string): Option<seq<Token>>
    decreases |s|
  {
    if s == "" then Some([])
    else if IsSpace(s[0]) then Lex(s[1..])
    else if IsWordChar(s[0]) then
      var n := WordLength(s);
      Prepend(Word(s[..n]), Lex(s[n..]))
    else if s[0] == '"' then
      var n := QuotedLength(s[1..]);
      if n.None? then None else Prepend(Quoted(s[1..n.value + 1]), Lex(s[n.value + 2..]))
    else if |s| >= 2 && (s[..2] == "::" || s[..2] == "||") then Prepend(Mark(s[..2]), Lex(s[2..]))
    else if IsMark(s[0]) then Prepend(Mark(s[..1]), Lex(s[1..]))
    else None
  }

  // ---- The parser

  /** What is left after the expected tokens. */
  function Expect(ts: seq<Token>, expected: seq<Token>): Option<seq<Token>> {
    if expected <= ts then Some(ts[|expected|..]) else None
  }

  function EntityHead(kind: string): seq<Token> {
    [Word("Boxalarm"), Mark("::"), Word(kind), Mark("::")]
  }

  datatype Parsed<T> = Failed | Parsed(value: T, rest: seq<Token>)

  function ParseEntity(ts: seq<Token>, kind: string): Parsed<string> {
    var rest := Expect(ts, EntityHead(kind));
    if rest.None? || rest.value == [] || !rest.value[0].Quoted? then Failed
    else Parsed(rest.value[0].text, rest.value[1..])
  }

  /** Entities of one kind, each after the first behind the separator, all behind a lead-in. */
  function ParseEntities(ts: seq<Token>, lead: seq<Token>, kind: string, separator: Token): Parsed<seq<string>>
    decreases |ts|
  {
    var start := Expect(ts, lead);
    if start.None? then Failed
    else
      var first := ParseEntity(start.value, kind);
      if first.Failed? then Failed
      else if first.rest != [] && first.rest[0] == separator then
        var more := ParseEntities(first.rest[1..], lead, kind, separator);
        if more.Failed? then Failed else Parsed([first.value] + more.value, more.rest)
      else Parsed([first.value], first.rest)
  }

  const HEAD: seq<Token> :=
    [Word("permit"), Mark("("), Word("principal"), Mark(","), Word("action"), Word("in"), Mark("[")]
  const MIDDLE: seq<Token> :=
    [Mark("]"), Mark(","), Word("resource"), Mark(")"), Word("when"), Mark("{")]
  const TAIL: seq<Token> := [Mark("}"), Mark(";")]
  const GROUP_LEAD: seq<Token> := [Word("principal"), Word("in")]

  /** The action list may be empty; the condition names at least one group. */
  function ParseTokens(ts: seq<Token>): Option<Policy> {
    var scope := Expect(ts, HEAD);
    if scope.None? then None
    else
      var empty := Expect(scope.value, MIDDLE);
      var actions := if empty.Some? then Parsed([], scope.value) else ParseEntities(scope.value, [], "Action", Mark(","));
      if actions.Failed? then None
      else
        var condition := Expect(actions.rest, MIDDLE);
        if condition.None? then None
        else
          var groups := ParseEntities(condition.value, GROUP_LEAD, "UserGroup", Mark("||"));
          if groups.Failed? || groups.rest != TAIL then None
          else Some(Policy(actions.value, groups.value))
  }

  function Parse(text: string): Option<Policy> {
    var tokens := Lex(text);
    if tokens.None? then None else ParseTokens(tokens.value)
  }

  // ---- Lexing what was printed

  /** A piece of text that lexes to one token, or to none. */
  datatype Piece = Spaces(text: string) | Lexeme(token: Token)

  function PieceText(p: Piece): string {
    match p
    case Spaces(text) => text
    case Lexeme(Quoted(text)) => "\"" + text + "\""
    case Lexeme(token) => token.text
  }

  predicate Plain(s: string) {
    forall i :: 0 <= i < |s| ==> s[i] != '"' && s[i] != '\\'
  }

  type PlainString = s: string | Plain(s) witness ""

  predicate WellFormed(p: Piece) {
    match p
    case Spaces(text) => forall c :: c in text ==> IsSpace(c)
    case Lexeme(Word(text)) => text != "" && forall c :: c in text ==> IsWordChar(c)
    case Lexeme(Quoted(text)) => Plain(text)
    case Lexeme(Mark(text)) => text == "::" || text == "||" || (|text| == 1 && IsMark(text[0]))
  }

  function Text(ps: seq<Piece>): string {
    if ps == [] then "" else PieceText(ps[0]) + Text(ps[1..])
  }

  function Tokens(ps: seq<Piece>): seq<Token> {
    if ps == [] then []
    else if ps[0].Lexeme? then [ps[0].token] + Tokens(ps[1..])
    else Tokens(ps[1..])
  }

  /** The pieces can stand side by side: no word runs into the next piece. */
  predicate Apart(ps: seq<Piece>) {
    forall i :: 0 <= i < |ps| - 1 && ps[i].Lexeme? && ps[i].token.Word? ==>
      PieceText(ps[i + 1]) != "" && !IsWordChar(PieceText(ps[i + 1])[0])
  }

  lemma {:induction false} WordLexes(word: string, rest: string)
    requires (forall c :: c in word ==> IsWordChar(c)) && (rest != "" ==> !IsWordChar(rest[0]))
    ensures WordLength(word + rest) == |word|
  {
    if word == "" {
      assert word + rest == rest;
    } else {
      assert (word + rest)[1..] == word[1..] + rest;
      WordLexes(word[1..], rest);
    }
  }

  lemma {:induction false} QuotedLexes(text: string, rest: string)
    requires Plain(text)
    ensures QuotedLength(text + "\"" + rest) == Some(|text|)
  {
    var s := text + "\"" + rest;
    if text != "" {
      assert s[1..] == text[1..] + "\"" + rest;
      QuotedLexes(text[1..], rest);
    }
  }

  lemma {:induction false} SpacesLex(spaces: string, rest: string)
    requires forall c :: c in spaces ==> IsSpace(c)
    ensures Lex(spaces + rest) == Lex(rest)
  {
    if spaces == "" {
      assert spaces + rest == rest;
    } else {
      assert (spaces + rest)[1..] == spaces[1..] + rest;
      SpacesLex(spaces[1..], rest);
    }
  }

  lemma WordLexeme(word: string, rest: string)
    requires WellFormed(Lexeme(Word(word))) && (rest != "" ==> !IsWordChar(rest[0]))
    ensures Lex(word + rest) == Prepend(Word(word), Lex(rest))
  {
    var s := word + rest;
    WordLexes(word, rest);
    assert s[0] == word[0] && word[0] in word;
    assert s[..|word|] == word && s[|word|..] == rest;
  }

  lemma QuotedLexeme(text: string, rest: string)
    requires Plain(text)
    ensures Lex("\"" + text + "\"" + rest) == Prepend(Quoted(text), Lex(rest))
  {
    var s := "\"" + text + "\"" + rest;
    QuotedLexes(text, rest);
    assert s[0] == '"' && s[1..] == text + "\"" + rest;
    assert s[1..|text| + 1] == text && s[|text| + 2..] == rest;
  }

  lemma MarkLexeme(mark: string, rest: string)
    requires WellFormed(Lexeme(Mark(mark)))
    ensures Lex(mark + rest) == Prepend(Mark(mark), Lex(rest))
  {
    var s := mark + rest;
    if |mark| == 1 {
      assert s[0] == mark[0] && s[..1] == mark && s[1..] == rest;
      assert |s| >= 2 ==> s[..2][0] == mark[0];
    } else {
      assert s[0] == mark[0] && s[..2] == mark && s[2..] == rest;
    }
  }

  lemma LexemeLexes(t: Token, rest: string)
    requires WellFormed(Lexeme(t)) && (t.Word? && rest != "" ==> !IsWordChar(rest[0]))
    ensures Lex(PieceText(Lexeme(t)) + rest) == Prepend(t, Lex(rest))
  {
    match t
    case Word(word) => WordLexeme(word, rest);
    case Quoted(text) => QuotedLexeme(text, rest);
    case Mark(mark) => MarkLexeme(mark, rest);
  }

  lemma {:induction false} PiecesLex(ps: seq<Piece>)
    requires (forall p :: p in ps ==> WellFormed(p)) && Apart(ps)
    ensures Lex(Text(ps)) == Some(Tokens(ps))
  {
    if ps != [] {
      assert ps[0] in ps;
      forall p | p in ps[1..] ensures WellFormed(p) {}
      assert Apart(ps[1..]) by {
        forall i | 0 <= i < |ps| - 2 && ps[1..][i].Lexeme? && ps[1..][i].token.Word?
          ensures PieceText(ps[1..][i + 1]) != "" && !IsWordChar(PieceText(ps[1..][i + 1])[0])
        {
          assert ps[i + 1] == ps[1..][i];
        }
      }
      PiecesLex(ps[1..]);
      var rest := Text(ps[1..]);
      match ps[0]
      case Spaces(text) => SpacesLex(text, rest);
      case Lexeme(token) =>
        if |ps| > 1 && token.Word? {
          assert ps[1..][0] == ps[0 + 1];
          assert rest[0] == PieceText(ps[1])[0];
        }
        LexemeLexes(token, rest);
    }
  }

  // ---- The printed statement, piece by piece

  /** Pieces that lex on their own, whatever follows them. */
  predicate Closed(ps: seq<Piece>) {
    && (forall p :: p in ps ==> WellFormed(p))
    && Apart(ps)
    && (ps != [] ==> !(ps[|ps| - 1].Lexeme? && ps[|ps| - 1].token.Word?))
  }

  lemma ClosedPair(p: Piece, q: Piece)
    requires WellFormed(p) && WellFormed(q) && !(q.Lexeme? && q.token.Word?)
    requires p.Lexeme? && p.token.Word? ==> PieceText(q) != "" && !IsWordChar(PieceText(q)[0])
    ensures Closed([p, q])
  {
  }

  lemma ClosedSplit(a: seq<Piece>, b: seq<Piece>)
    requires Closed(a) && Closed(b)
    ensures Closed(a + b)
  {
    forall i | 0 <= i < |a + b| - 1 && (a + b)[i].Lexeme? && (a + b)[i].token.Word?
      ensures PieceText((a + b)[i + 1]) != "" && !IsWordChar(PieceText((a + b)[i + 1])[0])
    {
      if i < |a| - 1 {
        assert a[i + 1] == (a + b)[i + 1];
      } else if i >= |a| {
        assert b[i - |a| + 1] == (a + b)[i + 1];
      }
    }
  }

  lemma {:induction false} TextSplit(a: seq<Piece>, b: seq<Piece>)
    ensures Text(a + b) == Text(a) + Text(b)
  {
    if a == [] {
      assert a + b == b;
    } else {
      var head, rest := PieceText(a[0]), Text(a[1..]);
      assert (a + b)[0] == a[0] && (a + b)[1..] == a[1..] + b;
      TextSplit(a[1..], b);
      assert head + (rest + Text(b)) == head + rest + Text(b);
    }
  }

  lemma {:induction false} TokensSplit(a: seq<Piece>, b: seq<Piece>)
    ensures Tokens(a + b) == Tokens(a) + Tokens(b)
  {
    if a == [] {
      assert a + b == b;
    } else {
      assert (a + b)[0] == a[0] && (a + b)[1..] == a[1..] + b;
      TokensSplit(a[1..], b);
    }
  }

  lemma TextOne(p: Piece)
    ensures Text([p]) == PieceText(p) && Tokens([p]) == if p.Lexeme? then [p.token] else []
  {
    assert [p][1..] == [];
  }

  lemma TextNext(p: Piece, rest: seq<Piece>)
    ensures Text([p] + rest) == PieceText(p) + Text(rest)
    ensures Tokens([p] + rest) == (if p.Lexeme? then [p.token] else []) + Tokens(rest)
  {
    assert ([p] + rest)[1..] == rest;
  }

  function W(text: string): Piece { Lexeme(Word(text)) }
  function M(text: string): Piece { Lexeme(Mark(text)) }

  function EntityPieces(kind: string, id: string): seq<Piece> {
    [W("Boxalarm"), M("::"), W(kind), M("::"), Lexeme(Quoted(id))]
  }

  lemma EntityPiecesText(kind: string, id: string)
    ensures Text(EntityPieces(kind, id)) == "Boxalarm" + ("::" + (kind + ("::" + ("\"" + id + "\""))))
    ensures Tokens(EntityPieces(kind, id)) == EntityHead(kind) + [Quoted(id)]
  {
    var p5 := [Lexeme(Quoted(id))];
    var p4 := [M("::")] + p5;
    var p3 := [W(kind)] + p4;
    var p2 := [M("::")] + p3;
    TextOne(Lexeme(Quoted(id)));
    TextNext(M("::"), p5);
    TextNext(W(kind), p4);
    TextNext(M("::"), p3);
    TextNext(W("Boxalarm"), p2);
    assert EntityPieces(kind, id) == [W("Boxalarm")] + p2;
  }

  lemma EntityPiecesClosed(kind: string, id: string)
    requires (kind == "Action" || kind == "UserGroup") && Plain(id)
    ensures Closed(EntityPieces(kind, id))
  {
    var ps := EntityPieces(kind, id);
    assert WellFormed(ps[0]) && WellFormed(ps[1]) && WellFormed(ps[2]) && WellFormed(ps[3]) && WellFormed(ps[4]);
  }

  lemma EntityTextIs(kind: string, id: string)
    ensures "Boxalarm" + ("::" + (kind + ("::" + ("\"" + id + "\"")))) == "Boxalarm::" + kind + "::\"" + id + "\""
  {
    assert "Boxalarm" + "::" == "Boxalarm::";
    assert "::" + "\"" == "::\"";
    var tail := id + "\"";
    assert "::" + ("\"" + id + "\"") == "::\"" + tail;
  }

  lemma EntityText(kind: string, id: string)
    requires (kind == "Action" || kind == "UserGroup") && Plain(id)
    ensures Text(EntityPieces(kind, id)) == "Boxalarm::" + kind + "::\"" + id + "\""
    ensures Tokens(EntityPieces(kind, id)) == EntityHead(kind) + [Quoted(id)]
    ensures Closed(EntityPieces(kind, id))
  {
    EntityPiecesText(kind, id);
    EntityPiecesClosed(kind, id);
    EntityTextIs(kind, id);
  }

  const GROUP_LEAD_PIECES := [W("principal"), Spaces(" "), W("in"), Spaces(" ")]
  const COMMA_PIECES := [M(","), Spaces(" ")]
  const OR_PIECES := [Spaces(" "), M("||"), Spaces(" ")]

  lemma GroupLeadText()
    ensures Text(GROUP_LEAD_PIECES) == "principal" + (" " + ("in" + " ")) && Tokens(GROUP_LEAD_PIECES) == GROUP_LEAD
  {
    var p3 := [W("in")] + [Spaces(" ")];
    TextOne(Spaces(" "));
    TextNext(W("in"), [Spaces(" ")]);
    TextNext(Spaces(" "), p3);
    TextNext(W("principal"), [Spaces(" ")] + p3);
    assert GROUP_LEAD_PIECES == [W("principal")] + ([Spaces(" ")] + p3);
  }

  lemma GroupLeadClosed()
    ensures Closed(GROUP_LEAD_PIECES)
  {
    ClosedPair(W("principal"), Spaces(" "));
    ClosedPair(W("in"), Spaces(" "));
    ClosedSplit([W("principal"), Spaces(" ")], [W("in"), Spaces(" ")]);
    assert GROUP_LEAD_PIECES == [W("principal"), Spaces(" ")] + [W("in"), Spaces(" ")];
  }

  lemma CommaText()
    ensures Text(COMMA_PIECES) == "," + " " && Tokens(COMMA_PIECES) == [Mark(",")] && Closed(COMMA_PIECES)
  {
    TextOne(Spaces(" "));
    TextNext(M(","), [Spaces(" ")]);
    assert COMMA_PIECES == [M(",")] + [Spaces(" ")];
  }

  lemma OrText()
    ensures Text(OR_PIECES) == " " + ("||" + " ") && Tokens(OR_PIECES) == [Mark("||")] && Closed(OR_PIECES)
  {
    TextOne(Spaces(" "));
    TextNext(M("||"), [Spaces(" ")]);
    TextNext(Spaces(" "), [M("||")] + [Spaces(" ")]);
    assert OR_PIECES == [Spaces(" ")] + ([M("||")] + [Spaces(" ")]);
  }

  lemma SmallPieces()
    ensures Text(GROUP_LEAD_PIECES) == "principal in " && Tokens(GROUP_LEAD_PIECES) == GROUP_LEAD
    ensures Text(COMMA_PIECES) == ", " && Tokens(COMMA_PIECES) == [Mark(",")]
    ensures Text(OR_PIECES) == " || " && Tokens(OR_PIECES) == [Mark("||")]
    ensures Closed(GROUP_LEAD_PIECES) && Closed(COMMA_PIECES) && Closed(OR_PIECES)
  {
    GroupLeadText();
    GroupLeadClosed();
    CommaText();
    OrText();
    assert "principal" + (" " + ("in" + " ")) == "principal in ";
  }

  /** A list of entities, each behind the lead-in, with the separator between them. */
  function ListPieces(lead: seq<Piece>, kind: string, ids: seq<string>, separator: seq<Piece>): seq<Piece> {
    if |ids| == 0 then []
    else if |ids| == 1 then lead + EntityPieces(kind, ids[0])
    else lead + EntityPieces(kind, ids[0]) + separator + ListPieces(lead, kind, ids[1..], separator)
  }

  function ListTokens(lead: seq<Token>, kind: string, ids: seq<string>, separator: Token): seq<Token> {
    if |ids| == 0 then []
    else if |ids| == 1 then lead + EntityHead(kind) + [Quoted(ids[0])]
    else lead + EntityHead(kind) + [Quoted(ids[0])] + [separator] + ListTokens(lead, kind, ids[1..], separator)
  }

  function ListText(lead: string, kind: string, ids: seq<string>): seq<string> {
    seq(|ids|, i requires 0 <= i < |ids| => lead + "Boxalarm::" + kind + "::\"" + ids[i] + "\"")
  }

  predicate AllPlain(ids: seq<string>) {
    forall id :: id in ids ==> Plain(id)
  }

  /** The text, the tokens and the closedness of two pieces of text are those of their parts. */
  lemma Append(a: seq<Piece>, b: seq<Piece>)
    requires Closed(a) && Closed(b)
    ensures Closed(a + b) && Text(a + b) == Text(a) + Text(b) && Tokens(a + b) == Tokens(a) + Tokens(b)
  {
    TextSplit(a, b);
    TokensSplit(a, b);
    ClosedSplit(a, b);
  }

  lemma Reassociate<T>(l: seq<T>, a: seq<T>, b: seq<T>, c: seq<T>, d: seq<T>, e: seq<T>)
    ensures l + (a + b + c + d + e) == l + a + b + c + d + e
    ensures l + (a + b) == l + a + b
  {
  }

  lemma ItemPieces(lead: seq<Piece>, kind: string, id: string)
    requires (kind == "Action" || kind == "UserGroup") && Plain(id) && Closed(lead)
    ensures var item := lead + EntityPieces(kind, id);
      && Closed(item)
      && Text(item) == Text(lead) + "Boxalarm::" + kind + "::\"" + id + "\""
      && Tokens(item) == Tokens(lead) + EntityHead(kind) + [Quoted(id)]
  {
    EntityText(kind, id);
    Append(lead, EntityPieces(kind, id));
    Reassociate(Text(lead), "Boxalarm::", kind, "::\"", id, "\"");
    Reassociate(Tokens(lead), EntityHead(kind), [Quoted(id)], [], [], []);
  }

  lemma ListTextNext(lead: string, kind: string, ids: seq<string>, separator: string)
    requires |ids| > 1
    ensures Joined(ListText(lead, kind, ids), separator)
         == lead + "Boxalarm::" + kind + "::\"" + ids[0] + "\"" + separator
            + Joined(ListText(lead, kind, ids[1..]), separator)
  {
    assert ListText(lead, kind, ids)[1..] == ListText(lead, kind, ids[1..]);
  }

  lemma {:induction false} ListPiecesText(
    lead: seq<Piece>, kind: string, ids: seq<string>, separator: seq<Piece>, mark: Token)
    requires kind == "Action" || kind == "UserGroup"
    requires AllPlain(ids) && Closed(lead) && Closed(separator) && Tokens(separator) == [mark]
    ensures var ps := ListPieces(lead, kind, ids, separator);
      && Text(ps) == Joined(ListText(Text(lead), kind, ids), Text(separator))
      && Tokens(ps) == ListTokens(Tokens(lead), kind, ids, mark)
      && Closed(ps)
  {
    if ids != [] {
      assert ids[0] in ids;
      ItemPieces(lead, kind, ids[0]);
      if |ids| > 1 {
        var first, rest := lead + EntityPieces(kind, ids[0]), ListPieces(lead, kind, ids[1..], separator);
        forall id | id in ids[1..] ensures Plain(id) { assert id in ids; }
        ListPiecesText(lead, kind, ids[1..], separator, mark);
        Append(first, separator);
        Append(first + separator, rest);
        ListTextNext(Text(lead), kind, ids, Text(separator));
      }
    }
  }

  // ---- Parsing what was printed

  lemma ExpectSplit(expected: seq<Token>, rest: seq<Token>)
    ensures Expect(expected + rest, expected) == Some(rest)
  {
  }

  lemma EntityParses(kind: string, id: string, rest: seq<Token>)
    ensures ParseEntity(EntityHead(kind) + [Quoted(id)] + rest, kind) == Parsed(id, rest)
  {
    var ts := EntityHead(kind) + [Quoted(id)] + rest;
    assert ts == EntityHead(kind) + ([Quoted(id)] + rest);
    ExpectSplit(EntityHead(kind), [Quoted(id)] + rest);
    assert ([Quoted(id)] + rest)[1..] == rest;
  }

  lemma ItemParses(lead: seq<Token>, kind: string, id: string, rest: seq<Token>)
    ensures var start := Expect(lead + EntityHead(kind) + [Quoted(id)] + rest, lead);
      start.Some? && ParseEntity(start.value, kind) == Parsed(id, rest)
  {
    var entity := EntityHead(kind) + [Quoted(id)] + rest;
    assert lead + EntityHead(kind) + [Quoted(id)] + rest == lead + entity;
    ExpectSplit(lead, entity);
    EntityParses(kind, id, rest);
  }

  lemma ListTokensNext(lead: seq<Token>, kind: string, ids: seq<string>, separator: Token, rest: seq<Token>)
    requires |ids| > 1
    ensures ListTokens(lead, kind, ids, separator) + rest
         == lead + EntityHead(kind) + [Quoted(ids[0])] + ([separator] + (ListTokens(lead, kind, ids[1..], separator) + rest))
  {
    Regroup(lead + EntityHead(kind) + [Quoted(ids[0])], [separator], ListTokens(lead, kind, ids[1..], separator), rest);
  }

  lemma Regroup<T>(a: seq<T>, b: seq<T>, c: seq<T>, d: seq<T>)
    ensures a + b + c + d == a + (b + (c + d))
  {
  }

  lemma FirstOfMany(lead: seq<Token>, kind: string, id: string, separator: Token, more: seq<Token>)
    requires ParseEntities(more, lead, kind, separator).Parsed?
    ensures var later := ParseEntities(more, lead, kind, separator);
      ParseEntities(lead + EntityHead(kind) + [Quoted(id)] + ([separator] + more), lead, kind, separator)
        == Parsed([id] + later.value, later.rest)
  {
    ItemParses(lead, kind, id, [separator] + more);
    assert ([separator] + more)[1..] == more;
  }

  lemma {:induction false} ListParses(
    lead: seq<Token>, kind: string, ids: seq<string>, separator: Token, rest: seq<Token>)
    requires ids != [] && rest != [] && rest[0] != separator
    ensures ParseEntities(ListTokens(lead, kind, ids, separator) + rest, lead, kind, separator) == Parsed(ids, rest)
  {
    if |ids| == 1 {
      ItemParses(lead, kind, ids[0], rest);
      assert ids == [ids[0]];
    } else {
      ListTokensNext(lead, kind, ids, separator, rest);
      ListParses(lead, kind, ids[1..], separator, rest);
      FirstOfMany(lead, kind, ids[0], separator, ListTokens(lead, kind, ids[1..], separator) + rest);
      assert [ids[0]] + ids[1..] == ids;
    }
  }

  function PolicyTokens(groupIds: seq<string>, actions: seq<string>): seq<Token> {
    HEAD + (ListTokens([], "Action", actions, Mark(",")) +
      (MIDDLE + (ListTokens(GROUP_LEAD, "UserGroup", groupIds, Mark("||")) + TAIL)))
  }

  lemma ActionsParse(actions: seq<string>, condition: seq<Token>)
    ensures var scope := ListTokens([], "Action", actions, Mark(",")) + (MIDDLE + condition);
      if actions == [] then scope == MIDDLE + condition
      else Expect(scope, MIDDLE).None? && ParseEntities(scope, [], "Action", Mark(",")) == Parsed(actions, MIDDLE + condition)
  {
    var scope := ListTokens([], "Action", actions, Mark(",")) + (MIDDLE + condition);
    if actions == [] {
      assert scope == MIDDLE + condition;
    } else {
      assert scope[0] == Word("Boxalarm") && MIDDLE[0] == Mark("]");
      ListParses([], "Action", actions, Mark(","), MIDDLE + condition);
    }
  }

  lemma PolicyParses(groupIds: seq<string>, actions: seq<string>)
    ensures ParseTokens(PolicyTokens(groupIds, actions))
         == if groupIds == [] then None else Some(Policy(actions, groupIds))
  {
    var condition := ListTokens(GROUP_LEAD, "UserGroup", groupIds, Mark("||")) + TAIL;
    ExpectSplit(HEAD, ListTokens([], "Action", actions, Mark(",")) + (MIDDLE + condition));
    ExpectSplit(MIDDLE, condition);
    ActionsParse(actions, condition);
    if groupIds == [] {
      assert condition == TAIL;
    } else {
      ListParses(GROUP_LEAD, "UserGroup", groupIds, Mark("||"), TAIL);
    }
  }

  const OPEN_PIECES: seq<Piece> := [W("permit"), Spaces(" "), M("("), Spaces("\n  ")]
  const PRINCIPAL_PIECES: seq<Piece> := [W("principal"), M(","), Spaces("\n  ")]
  const ACTION_PIECES: seq<Piece> := [W("action"), Spaces(" "), W("in"), Spaces(" "), M("[")]
  const RESOURCE_PIECES: seq<Piece> := [M("]"), M(","), Spaces("\n  "), W("resource"), Spaces("\n")]
  const WHEN_PIECES: seq<Piece> := [M(")"), Spaces(" "), W("when"), Spaces(" "), M("{"), Spaces("\n  ")]
  const TAIL_PIECES: seq<Piece> := [Spaces("\n"), M("}"), M(";")]
  const HEAD_PIECES: seq<Piece> := OPEN_PIECES + (PRINCIPAL_PIECES + ACTION_PIECES)
  const MIDDLE_PIECES: seq<Piece> := RESOURCE_PIECES + WHEN_PIECES

  lemma OpenText()
    ensures Text(OPEN_PIECES) == "permit (\n  " && Closed(OPEN_PIECES)
    ensures Tokens(OPEN_PIECES) == [Word("permit"), Mark("(")]
  {
    var p3 := [M("(")] + [Spaces("\n  ")];
    TextOne(Spaces("\n  "));
    TextNext(M("("), [Spaces("\n  ")]);
    TextNext(Spaces(" "), p3);
    TextNext(W("permit"), [Spaces(" ")] + p3);
    assert OPEN_PIECES == [W("permit")] + ([Spaces(" ")] + p3);
  }

  lemma PrincipalText()
    ensures Text(PRINCIPAL_PIECES) == "principal,\n  " && Closed(PRINCIPAL_PIECES)
    ensures Tokens(PRINCIPAL_PIECES) == [Word("principal"), Mark(",")]
  {
    TextOne(Spaces("\n  "));
    TextNext(M(","), [Spaces("\n  ")]);
    TextNext(W("principal"), [M(",")] + [Spaces("\n  ")]);
    assert PRINCIPAL_PIECES == [W("principal")] + ([M(",")] + [Spaces("\n  ")]);
  }

  lemma ActionTokens()
    ensures Text(ACTION_PIECES) == "action" + (" " + ("in" + (" " + "[")))
    ensures Tokens(ACTION_PIECES) == [Word("action"), Word("in"), Mark("[")]
  {
    var p4 := [Spaces(" ")] + [M("[")];
    var p3 := [W("in")] + p4;
    TextOne(M("["));
    TextNext(Spaces(" "), [M("[")]);
    TextNext(W("in"), p4);
    TextNext(Spaces(" "), p3);
    TextNext(W("action"), [Spaces(" ")] + p3);
    assert ACTION_PIECES == [W("action")] + ([Spaces(" ")] + p3);
  }

  lemma ActionClosed()
    ensures Closed(ACTION_PIECES)
  {
    ClosedPair(W("action"), Spaces(" "));
    ClosedPair(W("in"), Spaces(" "));
    ClosedSplit([W("action"), Spaces(" ")], [W("in"), Spaces(" ")]);
    ClosedSplit([W("action"), Spaces(" ")] + [W("in"), Spaces(" ")], [M("[")]);
    assert ACTION_PIECES == [W("action"), Spaces(" ")] + [W("in"), Spaces(" ")] + [M("[")];
  }

  lemma ResourceTokens()
    ensures Text(RESOURCE_PIECES) == "]" + ("," + ("\n  " + ("resource" + "\n")))
    ensures Tokens(RESOURCE_PIECES) == [Mark("]"), Mark(","), Word("resource")]
  {
    var p4 := [W("resource")] + [Spaces("\n")];
    var p3 := [Spaces("\n  ")] + p4;
    TextOne(Spaces("\n"));
    TextNext(W("resource"), [Spaces("\n")]);
    TextNext(Spaces("\n  "), p4);
    TextNext(M(","), p3);
    TextNext(M("]"), [M(",")] + p3);
    assert RESOURCE_PIECES == [M("]")] + ([M(",")] + p3);
  }

  lemma WhenTokens()
    ensures Text(WHEN_PIECES) == ")" + (" " + ("when" + (" " + ("{" + "\n  "))))
    ensures Tokens(WHEN_PIECES) == [Mark(")"), Word("when"), Mark("{")]
  {
    var p5 := [M("{")] + [Spaces("\n  ")];
    var p4 := [Spaces(" ")] + p5;
    var p3 := [W("when")] + p4;
    TextOne(Spaces("\n  "));
    TextNext(M("{"), [Spaces("\n  ")]);
    TextNext(Spaces(" "), p5);
    TextNext(W("when"), p4);
    TextNext(Spaces(" "), p3);
    TextNext(M(")"), [Spaces(" ")] + p3);
    assert WHEN_PIECES == [M(")")] + ([Spaces(" ")] + p3);
  }

  lemma ResourceClosed()
    ensures Closed(RESOURCE_PIECES)
  {
    ClosedPair(M("]"), M(","));
    ClosedPair(W("resource"), Spaces("\n"));
    ClosedSplit([M("]"), M(",")], [Spaces("\n  ")]);
    ClosedSplit([M("]"), M(",")] + [Spaces("\n  ")], [W("resource"), Spaces("\n")]);
    assert RESOURCE_PIECES == [M("]"), M(",")] + [Spaces("\n  ")] + [W("resource"), Spaces("\n")];
  }

  lemma WhenClosed()
    ensures Closed(WHEN_PIECES)
  {
    ClosedPair(M(")"), Spaces(" "));
    ClosedPair(W("when"), Spaces(" "));
    ClosedPair(M("{"), Spaces("\n  "));
    ClosedSplit([W("when"), Spaces(" ")], [M("{"), Spaces("\n  ")]);
    ClosedSplit([M(")"), Spaces(" ")], [W("when"), Spaces(" ")] + [M("{"), Spaces("\n  ")]);
    assert WHEN_PIECES == [M(")"), Spaces(" ")] + ([W("when"), Spaces(" ")] + [M("{"), Spaces("\n  ")]);
  }

  lemma Literals()
    ensures "permit (\n  " + ("principal,\n  " + ("action" + (" " + ("in" + (" " + "[")))))
         == "permit (\n  principal,\n  action in ["
    ensures ("]" + ("," + ("\n  " + ("resource" + "\n")))) + (")" + (" " + ("when" + (" " + ("{" + "\n  ")))))
         == "],\n  resource\n) when {\n  "
  {
  }

  lemma HeadText()
    ensures Text(HEAD_PIECES) == "permit (\n  " + ("principal,\n  " + ("action" + (" " + ("in" + (" " + "[")))))
    ensures Tokens(HEAD_PIECES) == HEAD
    ensures Closed(HEAD_PIECES)
  {
    OpenText();
    PrincipalText();
    ActionTokens();
    ActionClosed();
    Append(PRINCIPAL_PIECES, ACTION_PIECES);
    Append(OPEN_PIECES, PRINCIPAL_PIECES + ACTION_PIECES);
  }

  lemma MiddleText()
    ensures Text(MIDDLE_PIECES)
         == ("]" + ("," + ("\n  " + ("resource" + "\n")))) + (")" + (" " + ("when" + (" " + ("{" + "\n  ")))))
    ensures Tokens(MIDDLE_PIECES) == MIDDLE && Closed(MIDDLE_PIECES)
  {
    ResourceTokens();
    WhenTokens();
    ResourceClosed();
    WhenClosed();
    Append(RESOURCE_PIECES, WHEN_PIECES);
  }

  lemma TailText()
    ensures Text(TAIL_PIECES) == "\n};" && Tokens(TAIL_PIECES) == TAIL && Closed(TAIL_PIECES)
  {
    TextOne(M(";"));
    TextNext(M("}"), [M(";")]);
    TextNext(Spaces("\n"), [M("}")] + [M(";")]);
    assert TAIL_PIECES == [Spaces("\n")] + ([M("}")] + [M(";")]);
  }

  function GroupIds(userPoolId: string, groups: seq<string>): seq<string> {
    seq(|groups|, i requires 0 <= i < |groups| => GroupEntityId(userPoolId, groups[i]))
  }

  lemma ActionRefText(actions: seq<string>)
    ensures ListText("", "Action", actions) == ActionRefs(actions)
  {
    assert "" + "Boxalarm::" + "Action" + "::\"" == "Boxalarm::Action::\"";
    var texts := ListText("", "Action", actions);
    forall i | 0 <= i < |actions| ensures texts[i] == ActionRefs(actions)[i] {
      assert texts[i] == "" + "Boxalarm::" + "Action" + "::\"" + actions[i] + "\"";
    }
  }

  lemma ActionListText(actions: seq<string>)
    requires AllPlain(actions)
    ensures var ps := ListPieces([], "Action", actions, COMMA_PIECES);
      && Text(ps) == Joined(ActionRefs(actions), ", ")
      && Tokens(ps) == ListTokens([], "Action", actions, Mark(","))
      && Closed(ps)
  {
    SmallPieces();
    ActionRefText(actions);
    ListPiecesText([], "Action", actions, COMMA_PIECES, Mark(","));
  }

  lemma GroupCheckText(userPoolId: string, groups: seq<string>)
    ensures ListText("principal in ", "UserGroup", GroupIds(userPoolId, groups)) == GroupChecks(userPoolId, groups)
  {
    var texts := ListText("principal in ", "UserGroup", GroupIds(userPoolId, groups));
    assert "principal in " + "Boxalarm::" + "UserGroup" + "::\"" == "principal in Boxalarm::UserGroup::\"";
    forall i | 0 <= i < |groups| ensures texts[i] == GroupChecks(userPoolId, groups)[i] {
      assert texts[i] == "principal in " + "Boxalarm::" + "UserGroup" + "::\"" + GroupEntityId(userPoolId, groups[i]) + "\"";
    }
  }

  lemma GroupIdsPlain(userPoolId: string, groups: seq<string>)
    requires Plain(userPoolId) && AllPlain(groups)
    ensures AllPlain(GroupIds(userPoolId, groups))
  {
    var ids := GroupIds(userPoolId, groups);
    forall id | id in ids ensures Plain(id) {
      var i :| 0 <= i < |ids| && ids[i] == id;
      assert groups[i] in groups;
    }
  }

  lemma GroupListText(userPoolId: string, groups: seq<string>)
    requires Plain(userPoolId) && AllPlain(groups)
    ensures var ids := GroupIds(userPoolId, groups); var ps := ListPieces(GROUP_LEAD_PIECES, "UserGroup", ids, OR_PIECES);
      && Text(ps) == Joined(GroupChecks(userPoolId, groups), " || ")
      && Tokens(ps) == ListTokens(GROUP_LEAD, "UserGroup", ids, Mark("||"))
      && Closed(ps)
  {
    SmallPieces();
    GroupIdsPlain(userPoolId, groups);
    GroupCheckText(userPoolId, groups);
    ListPiecesText(GROUP_LEAD_PIECES, "UserGroup", GroupIds(userPoolId, groups), OR_PIECES, Mark("||"));
  }

  /** The printed statement always lexes, to the tokens of a permit with its actions in the scope
      and its group tests in the condition. */
  lemma PrintedLexes(userPoolId: string, groups: seq<string>, actions: seq<string>)
    requires Plain(userPoolId) && AllPlain(groups) && AllPlain(actions)
    ensures Lex(RoleGatedPolicy(userPoolId, groups, actions))
         == Some(PolicyTokens(GroupIds(userPoolId, groups), actions))
  {
    var ids := GroupIds(userPoolId, groups);
    var actionPieces := ListPieces([], "Action", actions, COMMA_PIECES);
    var groupPieces := ListPieces(GROUP_LEAD_PIECES, "UserGroup", ids, OR_PIECES);
    HeadText();
    MiddleText();
    TailText();
    Literals();
    ActionListText(actions);
    GroupListText(userPoolId, groups);
    Append(groupPieces, TAIL_PIECES);
    Append(MIDDLE_PIECES, groupPieces + TAIL_PIECES);
    Append(actionPieces, MIDDLE_PIECES + (groupPieces + TAIL_PIECES));
    Append(HEAD_PIECES, actionPieces + (MIDDLE_PIECES + (groupPieces + TAIL_PIECES)));
    var ps := HEAD_PIECES + (actionPieces + (MIDDLE_PIECES + (groupPieces + TAIL_PIECES)));
    PiecesLex(ps);
    PrintedAs(Text(HEAD_PIECES), Text(actionPieces), Text(MIDDLE_PIECES), Text(groupPieces), Text(TAIL_PIECES));
  }

  lemma PrintedAs(a: string, b: string, c: string, d: string, e: string)
    ensures a + (b + (c + (d + e))) == a + b + c + d + e
  {
  }

  /** Printing a policy and parsing the text gives back its groups and its actions; that the text is
      a statement of the language at all takes one group. */
  lemma PrintedParses(userPoolId: string, groups: seq<string>, actions: seq<string>)
    requires Plain(userPoolId) && AllPlain(groups) && AllPlain(actions)
    ensures Parse(RoleGatedPolicy(userPoolId, groups, actions))
         == if groups == [] then None else Some(Policy(actions, GroupIds(userPoolId, groups)))
  {
    PrintedLexes(userPoolId, groups, actions);
    PolicyParses(GroupIds(userPoolId, groups), actions);
  }

  /** So two different policies never print the same. */
  lemma PrintedIsInjective(pool: string, g1: seq<string>, a1: seq<string>, g2: seq<string>, a2: seq<string>)
    requires Plain(pool) && AllPlain(g1) && AllPlain(g2) && AllPlain(a1) && AllPlain(a2)
    requires g1 != [] && g2 != []
    ensures RoleGatedPolicy(pool, g1, a1) == RoleGatedPolicy(pool, g2, a2) <==> g1 == g2 && a1 == a2
  {
    PrintedParses(pool, g1, a1);
    PrintedParses(pool, g2, a2);
    var i1, i2 := GroupIds(pool, g1), GroupIds(pool, g2);
    if i1 == i2 {
      forall i | 0 <= i < |g1| ensures g1[i] == g2[i] {
        assert i1[i][|pool| + 1..] == g1[i] && i2[i][|pool| + 1..] == g2[i];
      }
    }
  }
}
