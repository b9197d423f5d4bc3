/** The nine tokens of a webhook template, and what stands at one place of a template.
    Strings are sequences of characters. */
module WebhookTokens {
  import opened Wrappers

  datatype Kind = Message | Sender | Datetime

  datatype Encoding = Raw | Url | Json

  datatype Token = Token(text: string, kind: Kind, encoding: Encoding)

  datatype RenderError = UnknownVariable(name: string) | IncompleteVariable(name: string)

  datatype Segment = Literal(ch: char) | Variable(token: Token)

  const TOKENS: seq<Token> := [
    Token("{MESSAGE}", Message, Raw), Token("{MESSAGE_URL}", Message, Url), Token("{MESSAGE_JSON}", Message, Json),
    Token("{SENDER}", Sender, Raw), Token("{SENDER_URL}", Sender, Url), Token("{SENDER_JSON}", Sender, Json),
    Token("{DATETIME}", Datetime, Raw), Token("{DATETIME_URL}", Datetime, Url),
    Token("{DATETIME_JSON}", Datetime, Json)]

  predicate VariableChar(c: char) {
    'A' <= c <= 'Z' || '0' <= c <= '9' || c == '_'
  }

  /** A brace, a name, and the closing brace. */
  predicate Braced(text: string) {
    && |text| >= 3 && text[0] == '{' && text[|text| - 1] == '}'
    && forall i :: 0 < i < |text| - 1 ==> VariableChar(text[i])
  }

  predicate Apart(t: Token, u: Token) {
    |t.text| == |u.text| && |t.text| > 1 && t.text[1] == u.text[1] ==> t == u
  }

  /** Every token is braced, and their length and first letter tell them apart. */
  ghost predicate IsTable(ts: set<Token>) {
    && (forall t :: t in ts ==> Braced(t.text))
    && (forall t, u :: t in ts && u in ts ==> Apart(t, u))
  }

  type Table = ts: set<Token> | IsTable(ts) ghost witness {}

  ghost predicate Lists(tokens: seq<Token>, ts: Table) {
    forall t :: t in tokens <==> t in ts
  }

  // ---------- The table of the renderer ----------

  /** Length and first letter of the nine texts. */
  function Mark(i: nat): (int, char) {
    match i
    case 0 => (9, 'M') case 1 => (13, 'M') case 2 => (14, 'M')
    case 3 => (8, 'S') case 4 => (12, 'S') case 5 => (13, 'S')
    case 6 => (10, 'D') case 7 => (14, 'D') case _ => (15, 'D')
  }

  ghost predicate Shaped(text: string, mark: (int, char)) {
    Braced(text) && |text| == mark.0 && text[1] == mark.1
  }

  lemma MessageTokens()
    ensures Shaped("{MESSAGE}", Mark(0)) && Shaped("{MESSAGE_URL}", Mark(1)) && Shaped("{MESSAGE_JSON}", Mark(2))
  {
  }

  lemma SenderTokens()
    ensures Shaped("{SENDER}", Mark(3)) && Shaped("{SENDER_URL}", Mark(4)) && Shaped("{SENDER_JSON}", Mark(5))
  {
  }

  lemma DatetimeTokens()
    ensures Shaped("{DATETIME}", Mark(6)) && Shaped("{DATETIME_URL}", Mark(7)) && Shaped("{DATETIME_JSON}", Mark(8))
  {
  }

  lemma MarksAreDistinct(i: nat, j: nat)
    requires i < 9 && j < 9 && Mark(i) == Mark(j)
    ensures i == j
  {
  }

  lemma TokenShape(tokens: seq<Token>, i: nat)
    requires tokens == TOKENS && i < 9
    ensures |tokens| == 9 && Shaped(tokens[i].text, Mark(i))
  {
    MessageTokens();
    SenderTokens();
    DatetimeTokens();
  }

  lemma ShapedApart(tokens: seq<Token>)
    requires |tokens| == 9 && forall i :: 0 <= i < 9 ==> Shaped(tokens[i].text, Mark(i))
    ensures var ts := set t | t in tokens; IsTable(ts) && Lists(tokens, ts)
  {
    forall t, u | t in tokens && u in tokens ensures Apart(t, u) {
      var i :| 0 <= i < 9 && tokens[i] == t;
      var j :| 0 <= j < 9 && tokens[j] == u;
      if Mark(i) == Mark(j) { MarksAreDistinct(i, j); }
    }
  }

  /** All that the renderer's laws need to know about the nine tokens. */
  lemma TokensFormATable()
    ensures var ts := set t | t in TOKENS; IsTable(ts) && Lists(TOKENS, ts)
  {
    var tokens := TOKENS;
    forall i | 0 <= i < 9 ensures |tokens| == 9 && Shaped(tokens[i].text, Mark(i)) {
      TokenShape(tokens, i);
    }
    assert |tokens| == 9 by { TokenShape(tokens, 0); }
    ShapedApart(tokens);
  }

  // ---------- What fits at one place ----------

  predicate Fits(s: string, k: nat, text: string) {
    k + |text| <= |s| && s[k..k + |text|] == text
  }

  /** Where a token fits, the text reads as a brace, a name and a closing brace. */
  lemma FittingText(s: string, k: nat, text: string)
    requires Fits(s, k, text) && Braced(text)
    ensures s[k] == '{' && s[k + 1] == text[1] && s[k + |text| - 1] == '}'
    ensures forall i :: k < i < k + |text| - 1 ==> VariableChar(s[i])
  {
    var slice := s[k..k + |text|];
    assert slice[0] == s[k] && slice[1] == s[k + 1] && slice[|text| - 1] == s[k + |text| - 1];
    forall i | k < i < k + |text| - 1 ensures VariableChar(s[i]) {
      assert s[i] == slice[i - k];
    }
  }

  /** No token is a prefix of another: at most one of them fits, so that the order of the
      table does not matter. */
  lemma AtMostOneFits(ts: Table, s: string, k: nat, t: Token, u: Token)
    requires t in ts && u in ts && Fits(s, k, t.text) && Fits(s, k, u.text)
    ensures t == u
  {
    FittingText(s, k, t.text);
    FittingText(s, k, u.text);
    assert Apart(t, u);
  }

  ghost function FindToken(ts: Table, s: string, k: nat): (r: Option<Token>)
    ensures r.Some? ==> r.value in ts && Fits(s, k, r.value.text)
    ensures r.None? ==> forall t :: t in ts ==> !Fits(s, k, t.text)
  {
    if t :| t in ts && Fits(s, k, t.text) then Some(t) else None
  }

  /** In whatever order the tokens are listed. */
  method FindFirst(tokens: seq<Token>, ghost ts: Table, s: string, k: nat) returns (r: Option<Token>)
    requires Lists(tokens, ts)
    ensures r == FindToken(ts, s, k)
  {
    for i := 0 to |tokens|
      invariant forall j :: 0 <= j < i ==> !Fits(s, k, tokens[j].text)
    {
      if Fits(s, k, tokens[i].text) {
        assert tokens[i] in ts;
        AtMostOneFits(ts, s, k, tokens[i], FindToken(ts, s, k).value);
        return Some(tokens[i]);
      }
    }
    r := None;
  }

  function Find(s: string, k: nat, c: char): (i: nat)
    requires k <= |s|
    ensures k <= i <= |s| && (i < |s| ==> s[i] == c)
    ensures forall j :: k <= j < i ==> s[j] != c
    decreases |s| - k
  {
    if k == |s| || s[k] == c then k else Find(s, k + 1, c)
  }

  predicate IsName(s: string) {
    s != "" && forall i :: 0 <= i < |s| ==> VariableChar(s[i])
  }

  /** What is wrong with a brace that no token starts with. */
  function Complaint(s: string, k: nat): Option<RenderError>
    requires k < |s|
  {
    var close := Find(s, k, '}');
    if s[k] != '{' || !IsName(s[k + 1..close]) then None
    else if close < |s| then Some(UnknownVariable(s[k + 1..close]))
    else Some(IncompleteVariable(s[k + 1..close]))
  }

  /** What a scan that stands at `k` finds there. */
  ghost function At(ts: Table, s: string, k: nat): Result<Segment, RenderError>
    requires k < |s|
  {
    var found := FindToken(ts, s, k);
    if found.Some? then Ok(Variable(found.value))
    else if Complaint(s, k).Some? then Err(Complaint(s, k).value)
    else Ok(Literal(s[k]))
  }

  /** One turn of the renderer's loop asks in this order. */
  method NextSegment(tokens: seq<Token>, ghost ts: Table, s: string, k: nat) returns (r: Result<Segment, RenderError>)
    requires Lists(tokens, ts) && k < |s|
    ensures r == At(ts, s, k)
  {
    var found := FindFirst(tokens, ts, s, k);
    if found.Some? { return Ok(Variable(found.value)); }
    var complaint := Complaint(s, k);
    r := if complaint.Some? then Err(complaint.value) else Ok(Literal(s[k]));
  }

  function Spelling(segment: Segment): string {
    match segment case Literal(c) => [c] case Variable(t) => t.text
  }

  /** A segment spells what stands at its place. */
  lemma SegmentSpells(ts: Table, s: string, k: nat)
    requires k < |s| && At(ts, s, k).Ok?
    ensures Fits(s, k, Spelling(At(ts, s, k).value)) && Spelling(At(ts, s, k).value) != ""
  {
    var found := FindToken(ts, s, k);
    if found.Some? { assert Braced(found.value.text); }
  }

  lemma StartsAtBrace(ts: Table, s: string, k: nat)
    requires k < |s|
    ensures At(ts, s, k).Err? || At(ts, s, k).value.Variable? ==> s[k] == '{'
  {
    var found := FindToken(ts, s, k);
    if found.Some? { FittingText(s, k, found.value.text); }
  }

  /** Nothing starts inside a token. */
  lemma InsideAToken(ts: Table, s: string, k: nat, j: nat)
    requires k < |s| && At(ts, s, k).Ok? && k < j < k + |Spelling(At(ts, s, k).value)| && j < |s|
    ensures At(ts, s, j) == Ok(Literal(s[j]))
  {
    var found := FindToken(ts, s, k);
    FittingText(s, k, found.value.text);
    assert s[j] != '{';
    StartsAtBrace(ts, s, j);
    LiteralHere(ts, s, j);
  }

  lemma LiteralHere(ts: Table, s: string, j: nat)
    requires j < |s| && At(ts, s, j).Ok? && At(ts, s, j).value.Literal?
    ensures At(ts, s, j) == Ok(Literal(s[j]))
  {
  }
}
