/** What a webhook template means: equations that say, for every template, how its beginning
    is rendered and what follows. They name the nine variables by their text. */
module WebhookVariables {
  import opened Wrappers
  import opened WebhookTokens
  import opened WebhookTemplate

  ghost function Nine(): Table {
    TokensFormATable();
    set t | t in TOKENS
  }

  ghost function Rendered(template: string, values: Values, encoders: Encoders): Result<string, RenderError> {
    Render(Nine(), template, values, encoders)
  }

  // ---------- The rest of a template is rendered on its own ----------

  lemma FitsInRest(s: string, k: nat, rest: string, j: nat, text: string)
    requires k <= |s| && rest == s[k..]
    ensures Fits(s, k + j, text) <==> Fits(rest, j, text)
  {
    if k + j + |text| <= |s| { assert s[k + j..k + j + |text|] == rest[j..j + |text|]; }
  }

  lemma FindTokenInRest(ts: Table, s: string, k: nat, rest: string, j: nat)
    requires k <= |s| && rest == s[k..]
    ensures FindToken(ts, s, k + j) == FindToken(ts, rest, j)
  {
    var (a, b) := (FindToken(ts, s, k + j), FindToken(ts, rest, j));
    if a.Some? {
      FitsInRest(s, k, rest, j, a.value.text);
      AtMostOneFits(ts, rest, j, a.value, b.value);
    } else if b.Some? {
      FitsInRest(s, k, rest, j, b.value.text);
    }
  }

  lemma {:induction false} FindInRest(s: string, k: nat, rest: string, j: nat, c: char)
    requires k <= |s| && rest == s[k..] && j <= |rest|
    ensures Find(s, k + j, c) == k + Find(rest, j, c)
    decreases |rest| - j
  {
    if j < |rest| && rest[j] != c { FindInRest(s, k, rest, j + 1, c); }
  }

  lemma AtInRest(ts: Table, s: string, k: nat, rest: string, j: nat)
    requires k <= |s| && rest == s[k..] && j < |rest|
    ensures At(ts, s, k + j) == At(ts, rest, j)
  {
    FindTokenInRest(ts, s, k, rest, j);
    FindInRest(s, k, rest, j, '}');
    var close := Find(rest, j, '}');
    assert rest[j] == s[k + j];
    if rest[j] == '{' { assert close > j && s[k + j + 1..k + close] == rest[j + 1..close]; }
  }

  lemma {:induction false} SplitInRest(f: Scan, k: nat, g: Scan, j: nat)
    requires k + |g| == |f| && j <= |g| && forall i :: 0 <= i < |g| ==> g[i] == f[k + i]
    ensures Split(f, k + j) == Split(g, j)
    decreases |g| - j
  {
    if j < |g| && g[j].Ok? { SplitInRest(f, k, g, j + Length(g[j].value)); }
  }

  lemma RestIsRendered(ts: Table, s: string, k: nat, rest: string, values: Values, encoders: Encoders)
    requires k <= |s| && rest == s[k..]
    ensures RenderFrom(ScanOf(ts, s), k, values, encoders) == Render(ts, rest, values, encoders)
  {
    var (f, g) := (ScanOf(ts, s), ScanOf(ts, rest));
    forall i: nat | i < |g| ensures g[i] == f[k + i] {
      assert FoundAt(f, ts, s, k + i) && FoundAt(g, ts, rest, i);
      AtInRest(ts, s, k, rest, i);
    }
    SplitInRest(f, k, g, 0);
  }

  /** A template is rendered by what stands at its front, and then its rest. */
  lemma FrontFirst(ts: Table, front: string, rest: string, values: Values, encoders: Encoders)
    requires front != ""
    ensures var (s, r) := (front + rest, Render(ts, front + rest, values, encoders));
      match At(ts, s, 0)
      case Err(e) => r == Err(e)
      case Ok(first) => Spelling(first) == front ==>
        r == Prepend(Piece(first, values, encoders), Render(ts, rest, values, encoders))
  {
    var s := front + rest;
    var f := ScanOf(ts, s);
    assert FoundAt(f, ts, s, 0);
    if f[0].Ok? && Spelling(f[0].value) == front {
      RenderFirst(f, 0, f[0].value, values, encoders);
      RestIsRendered(ts, s, |front|, rest, values, encoders);
    }
  }

  // ---------- Variables ----------

  /** What the nine names stand for. */
  function Meaning(name: string, values: Values, encoders: Encoders): Option<string> {
    if name == "MESSAGE" then Some(values.message)
    else if name == "MESSAGE_URL" then Some(encoders.url(values.message))
    else if name == "MESSAGE_JSON" then Some(encoders.json(values.message))
    else if name == "SENDER" then Some(values.sender)
    else if name == "SENDER_URL" then Some(encoders.url(values.sender))
    else if name == "SENDER_JSON" then Some(encoders.json(values.sender))
    else if name == "DATETIME" then Some(values.datetime)
    else if name == "DATETIME_URL" then Some(encoders.url(values.datetime))
    else if name == "DATETIME_JSON" then Some(encoders.json(values.datetime))
    else None
  }

  lemma TokenFirst(ts: Table, t: Token, rest: string, values: Values, encoders: Encoders)
    requires t in ts
    ensures Render(ts, t.text + rest, values, encoders)
         == Prepend(Substitute(t, values, encoders), Render(ts, rest, values, encoders))
  {
    var s := t.text + rest;
    assert Fits(s, 0, t.text) && Braced(t.text);
    AtMostOneFits(ts, s, 0, t, FindToken(ts, s, 0).value);
    FrontFirst(ts, t.text, rest, values, encoders);
  }

  ghost predicate Listed(i: nat, name: string, kind: Kind, encoding: Encoding) {
    i < |TOKENS| && TOKENS[i] == Token("{" + name + "}", kind, encoding)
  }

  lemma MessageListed()
    ensures Listed(0, "MESSAGE", Message, Raw)
    ensures Listed(1, "MESSAGE_URL", Message, Url)
    ensures Listed(2, "MESSAGE_JSON", Message, Json)
  {
    assert TOKENS[0].text == "{" + "MESSAGE" + "}";
    assert TOKENS[1].text == "{" + "MESSAGE_URL" + "}";
    assert TOKENS[2].text == "{" + "MESSAGE_JSON" + "}";
  }

  lemma SenderListed()
    ensures Listed(3, "SENDER", Sender, Raw)
    ensures Listed(4, "SENDER_URL", Sender, Url)
    ensures Listed(5, "SENDER_JSON", Sender, Json)
  {
    assert TOKENS[3].text == "{" + "SENDER" + "}";
    assert TOKENS[4].text == "{" + "SENDER_URL" + "}";
    assert TOKENS[5].text == "{" + "SENDER_JSON" + "}";
  }

  lemma DatetimeListed()
    ensures Listed(6, "DATETIME", Datetime, Raw)
    ensures Listed(7, "DATETIME_URL", Datetime, Url)
  {
    assert TOKENS[6].text == "{" + "DATETIME" + "}";
    assert TOKENS[7].text == "{" + "DATETIME_URL" + "}";
  }

  lemma DatetimeJsonListed()
    ensures Listed(8, "DATETIME_JSON", Datetime, Json)
  {
    assert TOKENS[8].text == "{" + "DATETIME_JSON" + "}";
  }

  lemma MeaningIsListed(name: string, values: Values, encoders: Encoders) returns (t: Token)
    requires Meaning(name, values, encoders).Some?
    ensures t in TOKENS && t.text == "{" + name + "}"
    ensures Substitute(t, values, encoders) == Meaning(name, values, encoders).value
  {
    MessageListed();
    SenderListed();
    DatetimeListed();
    DatetimeJsonListed();
    var i :=
      if name == "MESSAGE" then 0 else if name == "MESSAGE_URL" then 1 else if name == "MESSAGE_JSON" then 2
      else if name == "SENDER" then 3 else if name == "SENDER_URL" then 4 else if name == "SENDER_JSON" then 5
      else if name == "DATETIME" then 6 else if name == "DATETIME_URL" then 7 else 8;
    t := TOKENS[i];
  }

  lemma ListedHasMeaning(t: Token, values: Values, encoders: Encoders) returns (name: string)
    requires t in TOKENS
    ensures t.text == "{" + name + "}" && Meaning(name, values, encoders).Some?
  {
    var i: nat :| i < |TOKENS| && TOKENS[i] == t;
    MessageListed();
    SenderListed();
    DatetimeListed();
    DatetimeJsonListed();
    name := match i
      case 0 => "MESSAGE" case 1 => "MESSAGE_URL" case 2 => "MESSAGE_JSON"
      case 3 => "SENDER" case 4 => "SENDER_URL" case 5 => "SENDER_JSON"
      case 6 => "DATETIME" case 7 => "DATETIME_URL" case _ => "DATETIME_JSON";
  }

  /** A variable is replaced by what its name means, and what was put in is not looked at. */
  lemma VariableFirst(name: string, rest: string, values: Values, encoders: Encoders)
    requires Meaning(name, values, encoders).Some?
    ensures Rendered("{" + name + "}" + rest, values, encoders)
         == Prepend(Meaning(name, values, encoders).value, Rendered(rest, values, encoders))
  {
    var t := MeaningIsListed(name, values, encoders);
    TokenFirst(Nine(), t, rest, values, encoders);
  }

  // ---------- Text and mistakes ----------

  /** What stands before the first closing brace is no name, or nothing does. */
  lemma EmptyTemplate(values: Values, encoders: Encoders)
    ensures Rendered("", values, encoders) == Ok("")
  {
  }

  /** A character that is no opening brace is copied. */
  lemma TextFirst(c: char, rest: string, values: Values, encoders: Encoders)
    requires c != '{'
    ensures Rendered([c] + rest, values, encoders) == Prepend([c], Rendered(rest, values, encoders))
  {
    var s := [c] + rest;
    StartsAtBrace(Nine(), s, 0);
    FrontFirst(Nine(), [c], rest, values, encoders);
  }

  /** A brace is a mistake if a name follows, up to a closing brace or the end. */
  predicate OpensAName(rest: string) {
    IsName(rest[..Find(rest, 0, '}')])
  }

  lemma TokenOpensAName(s: string, rest: string, t: Token)
    requires s != "" && rest == s[1..] && t in Nine() && Fits(s, 0, t.text)
    ensures OpensAName(rest)
  {
    var close := |t.text| - 2;
    FittingText(s, 0, t.text);
    forall i | 0 <= i <= close ensures rest[i] == s[i + 1] {}
    assert forall i :: 0 <= i < close ==> VariableChar(rest[i]);
    assert Find(rest, 0, '}') == close;
  }

  /** Any other brace is copied. */
  lemma BraceFirst(rest: string, values: Values, encoders: Encoders)
    requires !OpensAName(rest)
    ensures Rendered("{" + rest, values, encoders) == Prepend("{", Rendered(rest, values, encoders))
  {
    var s := "{" + rest;
    assert s[1..] == rest;
    FindInRest(s, 1, rest, 0, '}');
    var close := Find(rest, 0, '}');
    assert Find(s, 0, '}') == 1 + close && s[1..1 + close] == rest[..close];
    var found := FindToken(Nine(), s, 0);
    if found.Some? { TokenOpensAName(s, rest, found.value); }
    FrontFirst(Nine(), "{", rest, values, encoders);
  }

  /** A brace, a name, and then a closing brace or the end. */
  ghost predicate OpensWith(s: string, name: string) {
    && IsName(name) && 1 + |name| <= |s| && s[0] == '{' && s[1..1 + |name|] == name
    && (1 + |name| < |s| ==> s[1 + |name|] == '}')
  }

  lemma NameEnds(s: string, name: string)
    requires OpensWith(s, name)
    ensures Find(s, 0, '}') == 1 + |name|
  {
    forall j | 0 <= j < 1 + |name| ensures s[j] != '}' {
      assert j > 0 ==> s[j] == name[j - 1];
    }
  }

  lemma TokenIsTheName(s: string, name: string, t: Token)
    requires OpensWith(s, name) && t in Nine() && Fits(s, 0, t.text)
    ensures 1 + |name| < |s| && t.text == "{" + name + "}"
  {
    var n := |t.text|;
    NameEnds(s, name);
    FittingText(s, 0, t.text);
    forall j | 0 <= j < n - 1 ensures s[j] != '}' {}
    assert Find(s, 0, '}') == n - 1;
    ThreeParts(s, name);
  }

  lemma ThreeParts(s: string, name: string)
    requires OpensWith(s, name) && 1 + |name| < |s|
    ensures s[0..2 + |name|] == "{" + name + "}"
  {
    assert s[0..2 + |name|] == [s[0]] + s[1..1 + |name|] + [s[1 + |name|]];
  }

  lemma Refused(s: string, e: RenderError, values: Values, encoders: Encoders)
    requires s != "" && At(Nine(), s, 0) == Err(e)
    ensures Rendered(s, values, encoders) == Err(e)
  {
    assert FoundAt(ScanOf(Nine(), s), Nine(), s, 0);
  }

  lemma SameName(a: string, b: string)
    requires "{" + a + "}" == "{" + b + "}"
    ensures a == b
  {
    var (x, y) := ("{" + a + "}", "{" + b + "}");
    assert a == x[1..|x| - 1] && b == y[1..|y| - 1];
  }

  lemma NoVariableHere(s: string, name: string, values: Values, encoders: Encoders)
    requires OpensWith(s, name) && (1 + |name| < |s| ==> Meaning(name, values, encoders).None?)
    ensures FindToken(Nine(), s, 0).None?
  {
    var found := FindToken(Nine(), s, 0);
    if found.Some? {
      TokenIsTheName(s, name, found.value);
      var other := ListedHasMeaning(found.value, values, encoders);
      SameName(name, other);
    }
  }

  /** A name that is no variable, in braces, is refused, whatever follows. */
  lemma UnknownFirst(name: string, rest: string, values: Values, encoders: Encoders)
    requires IsName(name) && Meaning(name, values, encoders).None?
    ensures Rendered("{" + name + "}" + rest, values, encoders) == Err(UnknownVariable(name))
  {
    var s := "{" + name + "}" + rest;
    assert s[1..1 + |name|] == name;
    NameEnds(s, name);
    NoVariableHere(s, name, values, encoders);
    Refused(s, UnknownVariable(name), values, encoders);
  }

  /** A name that is not closed is refused, also if it is the beginning of a variable. */
  lemma UnclosedFirst(name: string, values: Values, encoders: Encoders)
    requires IsName(name)
    ensures Rendered("{" + name, values, encoders) == Err(IncompleteVariable(name))
  {
    var s := "{" + name;
    assert s[1..1 + |name|] == name;
    NameEnds(s, name);
    NoVariableHere(s, name, values, encoders);
    Refused(s, IncompleteVariable(name), values, encoders);
  }

  lemma OneMoreChar(c: char, text: string, rest: string, values: Values, encoders: Encoders)
    requires c != '{' && Copied(text, rest, values, encoders)
    ensures Copied([c] + text, rest, values, encoders)
  {
    Assoc([c], text, rest);
    CharThenCopied(c, text, text + rest, Rendered(rest, values, encoders), values, encoders);
  }

  lemma Assoc(a: string, b: string, c: string)
    ensures (a + b) + c == a + (b + c)
  {
  }

  lemma CharThenCopied(
      c: char, text: string, s: string, r: Result<string, RenderError>, values: Values, encoders: Encoders)
    requires c != '{' && Rendered(s, values, encoders) == Prepend(text, r)
    ensures Rendered([c] + s, values, encoders) == Prepend([c] + text, r)
  {
    TextFirst(c, s, values, encoders);
    PrependTwice([c], text, r);
  }

  ghost predicate Copied(text: string, rest: string, values: Values, encoders: Encoders) {
    Rendered(text + rest, values, encoders) == Prepend(text, Rendered(rest, values, encoders))
  }

  lemma {:induction false} TextIsCopied(text: string, rest: string, values: Values, encoders: Encoders)
    requires '{' !in text
    ensures Copied(text, rest, values, encoders)
    decreases |text|
  {
    if text == "" {
      NothingIsCopied(rest, values, encoders);
    } else {
      var c, tail := text[0], text[1..];
      assert text == [c] + tail && '{' !in tail;
      TextIsCopied(tail, rest, values, encoders);
      OneMoreChar(c, tail, rest, values, encoders);
    }
  }

  lemma NothingIsCopied(rest: string, values: Values, encoders: Encoders)
    ensures Copied("", rest, values, encoders)
  {
    PrependTwice("", "", Rendered(rest, values, encoders));
    assert "" + rest == rest;
  }

  lemma TextIsRendered(text: string, values: Values, encoders: Encoders)
    requires '{' !in text
    ensures Rendered(text, values, encoders) == Ok(text)
  {
    EmptyTemplate(values, encoders);
    TextIsCopied(text, "", values, encoders);
    assert text + "" == text;
  }

  lemma VariableThenText(name: string, after: string, s: string, values: Values, encoders: Encoders)
    requires '{' !in after && Meaning(name, values, encoders).Some? && s == "{" + name + "}" + after
    ensures Rendered(s, values, encoders) == Ok(Meaning(name, values, encoders).value + after)
  {
    TextIsRendered(after, values, encoders);
    VariableFirst(name, after, values, encoders);
  }

  /** A variable between two texts. */
  lemma VariableBetween(before: string, name: string, after: string, values: Values, encoders: Encoders)
    requires '{' !in before && '{' !in after && Meaning(name, values, encoders).Some?
    ensures Rendered(before + ("{" + name + "}" + after), values, encoders)
         == Ok(before + (Meaning(name, values, encoders).value + after))
  {
    var s := "{" + name + "}" + after;
    VariableThenText(name, after, s, values, encoders);
    TextIsCopied(before, s, values, encoders);
  }

  // ---------- A reader that knows names instead of tokens ----------

  function Read(s: string, values: Values, encoders: Encoders): Result<string, RenderError>
    decreases |s|
  {
    if s == "" then Ok("")
    else if s[0] != '{' || !OpensAName(s[1..]) then Prepend([s[0]], Read(s[1..], values, encoders))
    else
      var rest := s[1..];
      var close := Find(rest, 0, '}');
      var meaning := Meaning(rest[..close], values, encoders);
      if close == |rest| then Err(IncompleteVariable(rest[..close]))
      else if meaning.None? then Err(UnknownVariable(rest[..close]))
      else Prepend(meaning.value, Read(rest[close + 1..], values, encoders))
  }

  lemma NamedFirst(s: string, name: string, values: Values, encoders: Encoders)
    requires s != "" && s[0] == '{' && OpensAName(s[1..]) && name == s[1..][..Find(s[1..], 0, '}')]
    ensures 1 + |name| == |s| ==> Rendered(s, values, encoders) == Err(IncompleteVariable(name))
    ensures 1 + |name| < |s| && Meaning(name, values, encoders).None? ==>
      Rendered(s, values, encoders) == Err(UnknownVariable(name))
    ensures 1 + |name| < |s| && Meaning(name, values, encoders).Some? ==>
      Rendered(s, values, encoders)
        == Prepend(Meaning(name, values, encoders).value, Rendered(s[2 + |name|..], values, encoders))
  {
    if 1 + |name| == |s| {
      assert s == "{" + name;
      UnclosedFirst(name, values, encoders);
    } else {
      var rest := s[2 + |name|..];
      assert s == "{" + name + "}" + rest;
      if Meaning(name, values, encoders).Some? {
        VariableFirst(name, rest, values, encoders);
      } else {
        UnknownFirst(name, rest, values, encoders);
      }
    }
  }

  /** Rendering is reading: the list of tokens comes to a rule about names in braces. */
  lemma {:induction false} RenderingIsReading(s: string, values: Values, encoders: Encoders)
    ensures Rendered(s, values, encoders) == Read(s, values, encoders)
    decreases |s|
  {
    if s == "" {
      EmptyTemplate(values, encoders);
    } else if s[0] != '{' || !OpensAName(s[1..]) {
      RenderingIsReading(s[1..], values, encoders);
      assert s == [s[0]] + s[1..];
      if s[0] == '{' { BraceFirst(s[1..], values, encoders); } else { TextFirst(s[0], s[1..], values, encoders); }
    } else {
      var rest := s[1..];
      var close := Find(rest, 0, '}');
      NamedFirst(s, rest[..close], values, encoders);
      if close < |rest| {
        assert s[2 + close..] == rest[close + 1..];
        RenderingIsReading(rest[close + 1..], values, encoders);
      }
    }
  }

  /** With the nine tokens the renderer reads names. */
  method RenderWithTokens(template: string, values: Values, encoders: Encoders) returns (r: Result<string, RenderError>)
    ensures r == Read(template, values, encoders)
  {
    TokensFormATable();
    r := RenderTemplate(TOKENS, Nine(), template, values, encoders);
    RenderingIsReading(template, values, encoders);
  }
}
