/** When scheme and authority of a rendered URL are the template's own, whatever the message
    says. */
module WebhookOrigin {
  import opened Wrappers
  import opened WebhookTokens
  import opened WebhookTemplate
  import opened WebhookUrl

  /** The output has the authority of the template at the place where the template has it,
      and the same text before it. */
  ghost predicate SameOrigin(template: string, out: string) {
    && AuthorityStart(out) == AuthorityStart(template)
    && AuthorityEnd(out) == AuthorityEnd(template)
    && template[..AuthorityEnd(template)] <= out
  }

  ghost predicate OriginStays(ts: Table, template: string, values: Values, encoders: Encoders) {
    var r := Render(ts, template, values, encoders);
    r.Ok? && SameOrigin(template, r.value)
  }

  ghost predicate OriginIsFixed(ts: Table, template: string, encoders: Encoders) {
    forall values :: OriginStays(ts, template, values, encoders)
  }

  lemma SameOriginSameAuthority(template: string, out: string)
    requires SameOrigin(template, out)
    ensures Authority(out) == Authority(template)
  {
    var n := AuthorityEnd(template);
    assert out[..n] == template[..n];
    assert out[..n][AuthorityStart(template)..] == Authority(out);
    assert template[..n][AuthorityStart(template)..] == Authority(template);
  }

  // ---------- From a fixed prefix to a fixed origin ----------

  /** The prefix through the authority is kept, and so is the delimiter behind it. */
  ghost predicate Continues(template: string, out: string) {
    var n := AuthorityEnd(template);
    && template[..n] <= out
    && (if n < |template| then n < |out| && out[n] == template[n] else |out| == n)
  }

  lemma SameChars(a: string, b: string, n: nat, j: nat, word: string)
    requires n <= |a| && a[..n] <= b && j + |word| <= n
    ensures Fits(a, j, word) <==> Fits(b, j, word)
  {
    assert b[..n] == a[..n];
    assert a[j..j + |word|] == a[..n][j..j + |word|] && b[j..j + |word|] == b[..n][j..j + |word|];
  }

  lemma SchemeStays(template: string, out: string)
    requires Continues(template, out) && HasScheme(template)
    ensures AuthorityStart(out) == AuthorityStart(template)
  {
    var i, n := FindScheme(template, 0), AuthorityEnd(template);
    NoSchemeStartsAtFront(template);
    SameChars(template, out, n, i, "://");
    forall j | 0 <= j < i ensures !Fits(out, j, "://") {
      SameChars(template, out, n, j, "://");
    }
    SchemeIsFirst(out, i);
  }

  lemma EndStays(template: string, out: string)
    requires Continues(template, out) && AuthorityStart(out) == AuthorityStart(template)
    ensures SameOrigin(template, out)
  {
    var start, n := AuthorityStart(template), AuthorityEnd(template);
    assert out[..n] == template[..n];
    forall j | start <= j < n ensures !Delimiter(out[j]) {
      assert out[j] == out[..n][j] && template[j] == template[..n][j];
    }
    DelimiterIsFirst(out, start, n);
  }

  lemma OutputContinues(ts: Table, template: string, values: Values, encoders: Encoders)
    requires Tokenise(ts, template).Ok?
    requires forall k: nat :: k < AuthorityEnd(template) ==> !Occurs(ts, template, k)
    ensures Continues(template, Render(ts, template, values, encoders).value)
  {
    var f, n := ScanOf(ts, template), AuthorityEnd(template);
    OutputIsPrefixed(ts, template, n, values, encoders);
    if n < |template| {
      OccursAtVariables(ts, template, n);
      assert FoundAt(f, ts, template, n) && f[n].Ok?;
      LiteralStep(f, template, n, values, encoders);
    }
  }

  // ---------- Whether "://" comes up anywhere ----------

  /** How much of "://" the characters so far end with; 3 once all of it has come. */
  function Progress(a: nat, c: char): nat {
    if a == 3 then 3 else if c == ':' then 1 else if c == '/' && (a == 1 || a == 2) then a + 1 else 0
  }

  function Read(a: nat, s: string): nat {
    if s == "" then a else Progress(Read(a, s[..|s| - 1]), s[|s| - 1])
  }

  lemma {:induction false} ReadBoth(a: nat, x: string, y: string)
    ensures Read(a, x + y) == Read(Read(a, x), y)
    decreases |y|
  {
    if y == "" {
      assert x + y == x;
    } else {
      assert (x + y)[..|x + y| - 1] == x + y[..|y| - 1];
      ReadBoth(a, x, y[..|y| - 1]);
    }
  }

  predicate SchemeAt(s: string, k: nat) {
    k + 3 <= |s| && s[k] == ':' && s[k + 1] == '/' && s[k + 2] == '/'
  }

  lemma SchemeFits(s: string, k: nat)
    ensures SchemeAt(s, k) <==> Fits(s, k, "://")
  {
    if k + 3 <= |s| {
      var w := s[k..k + 3];
      assert w[0] == s[k] && w[1] == s[k + 1] && w[2] == s[k + 2];
      assert SchemeAt(s, k) ==> w == "://";
    }
  }

  /** What the reader's state says about the first `n` characters. */
  ghost predicate ReaderKnows(s: string, n: nat, a: nat) {
    && a <= 3 && n <= |s|
    && (a == 3 <==> exists k: nat :: k + 3 <= n && SchemeAt(s, k))
    && (a == 2 ==> n >= 2 && s[n - 2] == ':' && s[n - 1] == '/')
    && (a == 1 ==> n >= 1 && s[n - 1] == ':')
    && (n >= 2 && s[n - 2] == ':' && s[n - 1] == '/' ==> a >= 2)
    && (n >= 1 && s[n - 1] == ':' ==> a == 1 || a == 3)
  }

  lemma ReaderStep(s: string, n: nat, a: nat)
    requires n < |s| && ReaderKnows(s, n, a)
    ensures ReaderKnows(s, n + 1, Progress(a, s[n]))
  {
    if a == 2 && s[n] == '/' { assert SchemeAt(s, n - 2); }
    if k: nat :| k + 3 <= n + 1 && SchemeAt(s, k) {
      assert k + 3 <= n || k == n - 2;
    }
  }

  lemma {:induction false} ReaderReads(s: string, n: nat)
    requires n <= |s|
    ensures ReaderKnows(s, n, Read(0, s[..n]))
    decreases n
  {
    if n > 0 {
      ReaderReads(s, n - 1);
      assert s[..n][..n - 1] == s[..n - 1] && s[..n][n - 1] == s[n - 1];
      ReaderStep(s, n - 1, Read(0, s[..n - 1]));
    }
  }

  lemma ReaderFindsSchemes(s: string)
    ensures HasScheme(s) <==> Read(0, s) == 3
  {
    ReaderReads(s, |s|);
    assert s[..|s|] == s;
    forall k: nat ensures SchemeAt(s, k) <==> Fits(s, k, "://") { SchemeFits(s, k); }
  }

  lemma {:induction false} ReadWord(a: nat, w: string)
    requires IsWord(w)
    ensures Read(a, w) == (if w == "" || a == 3 then a else 0)
    decreases |w|
  {
    if w != "" { ReadWord(a, w[..|w| - 1]); }
  }

  lemma {:induction false} ReadOn(s: string)
    ensures Read(3, s) == 3
    decreases |s|
  {
    if s != "" { ReadOn(s[..|s| - 1]); }
  }

  lemma ReadStarts(a: nat, s: string)
    requires HasScheme(s) && a <= 3
    ensures Read(a, s) == 3
  {
    var k :| 0 <= k <= |s| && Fits(s, k, "://");
    var x, y := s[..k], s[k + 3..];
    assert s == (x + "://") + y;
    ReadBoth(a, x + "://", y);
    ReadBoth(a, x, "://");
    ReadScheme(Read(a, x));
    ReadOn(y);
  }

  lemma ReadScheme(a: nat)
    ensures Read(a, "://") == 3
  {
    var s := "://";
    assert s[..2][..1][..0] == "" && s[..2][..1][0] == ':' && s[..2][1] == '/' && s[2] == '/';
    assert Read(a, s[..2][..1]) == Progress(a, ':');
    assert Read(a, s[..2]) == Progress(Progress(a, ':'), '/');
  }

  // ---------- Templates without "://" ----------

  const EMPTY := Values("", "", "")
  const SCHEME := Values("://", "://", "://")

  /** At this place there is no variable, or one that is encoded for a URL. */
  ghost predicate Tame(f: Scan, k: nat) {
    VariableAt(f, k) ==> f[k].value.token.encoding == Url
  }

  /** One reader is at most as far as the other. */
  predicate NotAhead(a: nat, b: nat) {
    a == 0 || a == b || b == 3
  }

  lemma ReadTwoSteps(f: Scan, k: nat, a: nat, values: Values, encoders: Encoders) returns (a': nat)
    requires k < |f| && Split(f, k).Ok?
    ensures Split(f, k + Length(f[k].value)).Ok?
    ensures a' == Read(a, Piece(f[k].value, values, encoders))
    ensures Read(a, RenderFrom(f, k, values, encoders).value)
              == Read(a', RenderFrom(f, k + Length(f[k].value), values, encoders).value)
  {
    var first := f[k].value;
    a' := Read(a, Piece(first, values, encoders));
    RenderFirst(f, k, first, values, encoders);
    ReadBoth(a, Piece(first, values, encoders), RenderFrom(f, k + Length(first), values, encoders).value);
  }

  lemma PieceIsNotAhead(first: Segment, a: nat, b: nat, a': nat, b': nat, values: Values, encoders: Encoders)
    requires NotAhead(a, b) && Ordinary(encoders) && (first.Variable? ==> first.token.encoding == Url)
    requires a' == Read(a, Piece(first, values, encoders)) && b' == Read(b, Piece(first, EMPTY, encoders))
    ensures NotAhead(a', b')
  {
    match first
    case Literal(c) =>
      assert [c][..0] == "" && Read(a, [c]) == Progress(a, c) && Read(b, [c]) == Progress(b, c);
    case Variable(t) =>
      ReadWord(a, Piece(first, values, encoders));
      ReadWord(b, Piece(first, EMPTY, encoders));
  }

  /** What a reader that is at `a` comes to at the end of the output from place `k` on. */
  ghost predicate Arrives(f: Scan, k: nat, a: nat, end: nat, values: Values, encoders: Encoders) {
    k <= |f| && Split(f, k).Ok? && end == Read(a, RenderFrom(f, k, values, encoders).value)
  }

  lemma ArrivesAtEnd(f: Scan, a: nat, end: nat, values: Values, encoders: Encoders)
    requires Arrives(f, |f|, a, end, values, encoders)
    ensures end == a
  {
  }

  lemma ArrivesFrom(
      f: Scan, k: nat, first: Segment, n: nat, a: nat, a': nat, end: nat, values: Values, encoders: Encoders)
    requires k < |f| && f[k] == Ok(first) && n == k + Length(first) <= |f| && Split(f, n).Ok?
    requires Arrives(f, k, a, end, values, encoders) && a' == Read(a, Piece(first, values, encoders))
    ensures Arrives(f, n, a', end, values, encoders)
  {
    var piece, rest := Piece(first, values, encoders), RenderFrom(f, n, values, encoders).value;
    FirstAndRest(f, k, first, n, piece, rest, values, encoders);
    ReadBoth(a, piece, rest);
  }

  lemma FirstAndRest(
      f: Scan, k: nat, first: Segment, n: nat, piece: string, rest: string, values: Values, encoders: Encoders)
    requires k < |f| && f[k] == Ok(first) && n == k + Length(first) <= |f| && Split(f, n).Ok?
    requires piece == Piece(first, values, encoders) && RenderFrom(f, n, values, encoders) == Ok(rest)
    ensures RenderFrom(f, k, values, encoders) == Ok(piece + rest)
  {
    RenderFirst(f, k, first, values, encoders);
  }

  lemma BothGoOn(
      f: Scan, k: nat, first: Segment, n: nat, a: nat, b: nat, enda: nat, endb: nat, values: Values, encoders: Encoders)
    returns (a': nat, b': nat)
    requires k < |f| && f[k] == Ok(first) && n == k + Length(first) <= |f| && Split(f, n).Ok?
    requires Ordinary(encoders) && NotAhead(a, b) && (first.Variable? ==> first.token.encoding == Url)
    requires Arrives(f, k, a, enda, values, encoders) && Arrives(f, k, b, endb, EMPTY, encoders)
    ensures NotAhead(a', b')
    ensures Arrives(f, n, a', enda, values, encoders) && Arrives(f, n, b', endb, EMPTY, encoders)
  {
    a', b' := Read(a, Piece(first, values, encoders)), Read(b, Piece(first, EMPTY, encoders));
    ArrivesFrom(f, k, first, n, a, a', enda, values, encoders);
    ArrivesFrom(f, k, first, n, b, b', endb, EMPTY, encoders);
    PieceIsNotAhead(first, a, b, a', b', values, encoders);
  }

  /** Encoded values can only keep the characters of "://" apart, so that the output for empty
      values comes up with it if any output does. */
  lemma {:induction false} EmptyValuesLead(
      f: Scan, k: nat, a: nat, b: nat, enda: nat, endb: nat, values: Values, encoders: Encoders)
    requires Ordinary(encoders) && NotAhead(a, b) && forall j: nat :: Tame(f, j)
    requires Arrives(f, k, a, enda, values, encoders) && Arrives(f, k, b, endb, EMPTY, encoders)
    ensures NotAhead(enda, endb)
    decreases |f| - k
  {
    if k < |f| {
      var first, n := SplitFirst(f, k);
      assert Tame(f, k);
      var a', b' := BothGoOn(f, k, first, n, a, b, enda, endb, values, encoders);
      EmptyValuesLead(f, n, a', b', enda, endb, values, encoders);
    } else {
      ArrivesAtEnd(f, a, enda, values, encoders);
      ArrivesAtEnd(f, b, endb, EMPTY, encoders);
    }
  }

  lemma TameTemplatesNeedEmptyValues(ts: Table, template: string, values: Values, encoders: Encoders)
    requires Tokenise(ts, template).Ok? && Ordinary(encoders) && forall j: nat :: Tame(ScanOf(ts, template), j)
    requires HasScheme(Render(ts, template, values, encoders).value)
    ensures HasScheme(Render(ts, template, EMPTY, encoders).value)
  {
    EmptyValuesLead(ScanOf(ts, template), 0, 0, 0, Read(0, Render(ts, template, values, encoders).value),
                    Read(0, Render(ts, template, EMPTY, encoders).value), values, encoders);
    ReaderFindsSchemes(Render(ts, template, values, encoders).value);
    ReaderFindsSchemes(Render(ts, template, EMPTY, encoders).value);
  }

  /** A variable that is put in raw or as JSON can bring "://" along. */
  lemma WildVariablesShow(ts: Table, template: string, k: nat, encoders: Encoders)
    requires Tokenise(ts, template).Ok? && Ordinary(encoders)
    requires k <= |template| && Split(ScanOf(ts, template), k).Ok?
    requires VariableAt(ScanOf(ts, template), k) && !Tame(ScanOf(ts, template), k)
    ensures HasScheme(RenderFrom(ScanOf(ts, template), k, SCHEME, encoders).value)
  {
    var f := ScanOf(ts, template);
    var t := f[k].value.token;
    var a := ReadTwoSteps(f, k, 0, SCHEME, encoders);
    ReadScheme(0);
    assert Substitute(t, SCHEME, encoders) == "://" || Substitute(t, SCHEME, encoders) == encoders.json("://");
    ReaderFindsSchemes(Substitute(t, SCHEME, encoders));
    ReadOn(RenderFrom(f, k + Length(f[k].value), SCHEME, encoders).value);
    ReaderFindsSchemes(RenderFrom(f, k, SCHEME, encoders).value);
  }

  lemma {:induction false} LaterSchemesStay(f: Scan, s: string, k: nat, j: nat, values: Values, encoders: Encoders)
    requires Reads(f, s) && k <= j <= |f| && Split(f, k).Ok? && VariableAt(f, j)
    requires Split(f, j).Ok? ==> HasScheme(RenderFrom(f, j, values, encoders).value)
    ensures HasScheme(RenderFrom(f, k, values, encoders).value)
    decreases |f| - k
  {
    if k < j {
      assert QuietInside(f, s, k, j);
      LaterSchemesStay(f, s, k + Length(f[k].value), j, values, encoders);
      var a := ReadTwoSteps(f, k, 0, values, encoders);
      ReadAtMost3(0, Piece(f[k].value, values, encoders));
      ReadStarts(a, RenderFrom(f, k + Length(f[k].value), values, encoders).value);
      ReaderFindsSchemes(RenderFrom(f, k, values, encoders).value);
    }
  }

  lemma {:induction false} ReadAtMost3(a: nat, s: string)
    requires a <= 3
    ensures Read(a, s) <= 3
    decreases |s|
  {
    if s != "" { ReadAtMost3(a, s[..|s| - 1]); }
  }

  /** Nothing can bring "://" into the output exactly if all variables are encoded for a URL
      and empty values do not. */
  lemma NeverASchemeExactly(ts: Table, template: string, encoders: Encoders)
    requires Tokenise(ts, template).Ok? && Ordinary(encoders)
    ensures (forall values :: !HasScheme(Render(ts, template, values, encoders).value)) <==>
      (forall k: nat :: Tame(ScanOf(ts, template), k)) && !HasScheme(Render(ts, template, EMPTY, encoders).value)
  {
    var f := ScanOf(ts, template);
    if forall k: nat :: Tame(f, k) {
      forall values | HasScheme(Render(ts, template, values, encoders).value)
        ensures HasScheme(Render(ts, template, EMPTY, encoders).value)
      {
        TameTemplatesNeedEmptyValues(ts, template, values, encoders);
      }
    } else {
      var k: nat :| !Tame(f, k);
      WildTemplatesShow(ts, template, k, encoders);
    }
  }

  lemma WildTemplatesShow(ts: Table, template: string, k: nat, encoders: Encoders)
    requires Tokenise(ts, template).Ok? && Ordinary(encoders) && !Tame(ScanOf(ts, template), k)
    ensures HasScheme(Render(ts, template, SCHEME, encoders).value)
  {
    var f := ScanOf(ts, template);
    ScanReads(ts, template);
    if Split(f, k).Ok? { WildVariablesShow(ts, template, k, encoders); }
    LaterSchemesStay(f, template, 0, k, SCHEME, encoders);
  }

  // ---------- The exact condition ----------

  /** The template names an authority after "://", or no message can make the output do so. */
  ghost predicate SchemeIsSettled(ts: Table, template: string, encoders: Encoders)
    requires Tokenise(ts, template).Ok?
  {
    HasScheme(template)
    || ((forall k: nat :: Tame(ScanOf(ts, template), k)) && !HasScheme(Render(ts, template, EMPTY, encoders).value))
  }

  ghost predicate NothingBefore(ts: Table, template: string) {
    forall k: nat :: k < AuthorityStart(template) ==> !Occurs(ts, template, k)
  }

  lemma FixedIf(ts: Table, template: string, values: Values, encoders: Encoders)
    requires Tokenise(ts, template).Ok? && Ordinary(encoders)
    requires CleanAuthority(ts, template) && NothingBefore(ts, template) && SchemeIsSettled(ts, template, encoders)
    ensures OriginStays(ts, template, values, encoders)
  {
    var out := Render(ts, template, values, encoders).value;
    OutputContinues(ts, template, values, encoders);
    if HasScheme(template) {
      SchemeStays(template, out);
    } else {
      NeverASchemeExactly(ts, template, encoders);
      NoSchemeStartsAtFront(template);
      NoSchemeStartsAtFront(out);
    }
    EndStays(template, out);
  }

  /** Scheme and authority of the URL are the template's own for every message exactly if the
      template passes the validation, no variable starts before its authority, and "://" occurs
      in it or cannot be brought into it. */
  lemma OriginIsFixedExactly(ts: Table, template: string, encoders: Encoders)
    requires Tokenise(ts, template).Ok? && Ordinary(encoders)
    ensures OriginIsFixed(ts, template, encoders) <==>
      CleanAuthority(ts, template) && NothingBefore(ts, template) && SchemeIsSettled(ts, template, encoders)
  {
    var n := AuthorityEnd(template);
    if OriginIsFixed(ts, template, encoders) {
      forall values ensures PrefixStays(ts, template, n, values, encoders) {
        assert OriginStays(ts, template, values, encoders);
      }
      StaticExactly(ts, template, n, encoders);
      NoSchemeStartsAtFront(template);
      forall values | !HasScheme(template) ensures !HasScheme(Render(ts, template, values, encoders).value) {
        assert OriginStays(ts, template, values, encoders);
        NoSchemeStartsAtFront(Render(ts, template, values, encoders).value);
      }
      NeverASchemeExactly(ts, template, encoders);
    } else {
      if CleanAuthority(ts, template) && NothingBefore(ts, template) && SchemeIsSettled(ts, template, encoders) {
        forall values ensures OriginStays(ts, template, values, encoders) {
          FixedIf(ts, template, values, encoders);
        }
      }
    }
  }

  /** With "://" in the template, nothing more is needed for the authority than the validation
      and no variable before it. */
  lemma AuthorityIsTheTemplates(ts: Table, template: string, values: Values, encoders: Encoders)
    requires Tokenise(ts, template).Ok? && HasScheme(template)
    requires CleanAuthority(ts, template) && NothingBefore(ts, template)
    ensures Authority(Render(ts, template, values, encoders).value) == Authority(template)
  {
    var out := Render(ts, template, values, encoders).value;
    OutputContinues(ts, template, values, encoders);
    SchemeStays(template, out);
    EndStays(template, out);
    SameOriginSameAuthority(template, out);
  }

  // ---------- A template whose authority a message decides ----------

  const WITNESS := "https:/{MESSAGE}/x"

  /** The token stands at `k` and ends at `n`; elsewhere there is no brace. */
  ghost predicate OnlyVariable(ts: Table, s: string, k: nat, n: nat, t: Token) {
    && t in ts && n == k + |t.text| <= |s| && Fits(s, k, t.text)
    && forall j :: 0 <= j < |s| && j != k ==> s[j] != '{'
  }

  lemma OnlyVariableHere(ts: Table, s: string, k: nat, n: nat, t: Token, j: nat)
    requires OnlyVariable(ts, s, k, n, t) && j < |s|
    ensures At(ts, s, j) == (if j == k then Ok(Variable(t)) else Ok(Literal(s[j])))
    ensures Occurs(ts, s, j) ==> j == k
  {
    assert Braced(t.text);
    if j == k {
      AtMostOneFits(ts, s, k, t, FindToken(ts, s, k).value);
    } else {
      StartsAtBrace(ts, s, j);
    }
  }

  lemma OnlyVariableScan(ts: Table, s: string, k: nat, n: nat, t: Token) returns (f: Scan)
    requires OnlyVariable(ts, s, k, n, t)
    ensures f == ScanOf(ts, s) && |f| == |s| && f[k] == Ok(Variable(t)) && Split(f, 0).Ok?
    ensures forall j :: 0 <= j < |s| && j != k ==> LiteralAt(f, s, j)
  {
    f := ScanOf(ts, s);
    forall j: nat | j < |s| ensures f[j] == (if j == k then Ok(Variable(t)) else Ok(Literal(s[j]))) {
      assert FoundAt(f, ts, s, j);
      OnlyVariableHere(ts, s, k, n, t, j);
    }
    ScanReads(ts, s);
    SplitsExactly(f, s, 0);
  }

  lemma Three(a: string, b: string, c: string)
    ensures a + (b + (c + "")) == a + b + c
  {
    assert c + "" == c;
  }

  lemma RenderOneVariable(f: Scan, s: string, k: nat, n: nat, t: Token, values: Values, encoders: Encoders)
    requires k < n <= |f| == |s| && f[k] == Ok(Variable(t)) && n == k + |t.text| && Split(f, 0).Ok?
    requires forall j :: 0 <= j < |s| && j != k ==> LiteralAt(f, s, j)
    ensures RenderFrom(f, 0, values, encoders) == Ok(s[0..k] + Substitute(t, values, encoders) + s[n..|s|])
  {
    var v := Substitute(t, values, encoders);
    LiteralPrefix(f, s, 0, k, values, encoders);
    RenderFirst(f, k, Variable(t), values, encoders);
    TailIsLiteral(f, s, n, values, encoders);
    Three(s[0..k], v, s[n..|s|]);
    assert s[n..|s|] + "" == s[n..|s|];
  }

  lemma TailIsLiteral(f: Scan, s: string, n: nat, values: Values, encoders: Encoders)
    requires n <= |f| == |s| && Split(f, n).Ok? && forall j :: n <= j < |s| ==> LiteralAt(f, s, j)
    ensures RenderFrom(f, n, values, encoders) == Ok(s[n..|s|])
  {
    LiteralPrefix(f, s, n, |s|, values, encoders);
    assert s[n..|s|] + "" == s[n..|s|];
  }

  /** What the template renders to, around the message. */
  lemma WitnessRenders(ts: Table, message: string, encoders: Encoders)
    requires Token("{MESSAGE}", Message, Raw) in ts
    ensures Tokenise(ts, WITNESS).Ok?
    ensures Render(ts, WITNESS, Values(message, "", ""), encoders) == Ok("https:/" + message + "/x")
    ensures forall k: nat :: Occurs(ts, WITNESS, k) ==> k == 7
  {
    var s, t := WITNESS, Token("{MESSAGE}", Message, Raw);
    WitnessText(s);
    assert OnlyVariable(ts, s, 7, 16, t);
    var f := OnlyVariableScan(ts, s, 7, 16, t);
    RenderOneVariable(f, s, 7, 16, t, Values(message, "", ""), encoders);
    forall k: nat | Occurs(ts, s, k) ensures k == 7 { OnlyVariableHere(ts, s, 7, 16, t, k); }
  }

  lemma WitnessText(s: string)
    requires s == WITNESS
    ensures |s| == 18 && s[0..7] == "https:/" && Fits(s, 7, "{MESSAGE}") && s[16..18] == "/x" && |"{MESSAGE}"| == 9
    ensures forall j :: 0 <= j < |s| && j != 7 ==> s[j] != '{'
  {
    var (a, b, c) := ("https:/", "{MESSAGE}", "/x");
    assert |a| == 7 && |b| == 9 && |c| == 2 && s == a + b + c;
    assert s[0..7] == a && s[7..16] == b && s[16..18] == c;
    forall j | 0 <= j < |s| && j != 7 ensures s[j] != '{' {
      assert s[j] == (if j < 7 then a[j] else if j < 16 then b[j - 7] else c[j - 16]);
    }
  }

  lemma WitnessStarts(s: string)
    requires s == WITNESS
    ensures |s| == 18 && s[5] == ':' && s[6] == '/' && s[7] == '{'
    ensures forall j :: 0 <= j < 6 ==> !Delimiter(s[j])
  {
    assert s[0] == 'h' && s[1] == 't' && s[2] == 't' && s[3] == 'p' && s[4] == 's';
  }

  lemma WitnessEnds(s: string)
    requires s == WITNESS
    ensures forall j :: 8 <= j < |s| ==> s[j] != ':'
  {
  }

  lemma WitnessHasNoScheme()
    ensures !HasScheme(WITNESS) && AuthorityStart(WITNESS) == 0 && AuthorityEnd(WITNESS) == 6
  {
    var s := WITNESS;
    WitnessStarts(s);
    WitnessEnds(s);
    assert forall j :: 0 <= j < 5 ==> s[j] != ':';
    forall k: nat | k <= |s| ensures !Fits(s, k, "://") {
      SchemeFits(s, k);
    }
    NoSchemeStartsAtFront(s);
    DelimiterIsFirst(s, 0, 6);
  }

  lemma AuthorityOfHttps(s: string, c: char)
    requires |s| == 11 && s[..5] == "https" && SchemeAt(s, 5) && s[8] == c && !Delimiter(c) && s[9] == '/'
    ensures Authority(s) == [c]
  {
    SchemeFits(s, 5);
    forall j | 0 <= j < 5 ensures !Fits(s, j, "://") {
      SchemeFits(s, j);
      assert s[j] == s[..5][j];
    }
    SchemeIsFirst(s, 5);
    DelimiterIsFirst(s, 8, 9);
    assert AuthorityStart(s) == 8 && AuthorityEnd(s) == 9 && s[8..9] == [s[8]];
  }

  lemma MessageNamesTheHost(ts: Table, c: char, encoders: Encoders)
    requires Token("{MESSAGE}", Message, Raw) in ts && !Delimiter(c)
    ensures var r := Render(ts, WITNESS, Values(['/', c], "", ""), encoders); r.Ok? && Authority(r.value) == [c]
  {
    WitnessRenders(ts, ['/', c], encoders);
    AuthorityOfHttps("https:/" + ['/', c] + "/x", c);
  }

  /** The validation passes and no variable stands before the authority, yet every message of
      this form names the host, because the template has no "://". */
  lemma ValidatedButNotFixed(ts: Table, c: char, encoders: Encoders)
    requires Token("{MESSAGE}", Message, Raw) in ts && !Delimiter(c)
    ensures Tokenise(ts, WITNESS).Ok?
    ensures CleanAuthority(ts, WITNESS) && NothingBefore(ts, WITNESS) && !HasScheme(WITNESS)
    ensures var r := Render(ts, WITNESS, Values(['/', c], "", ""), encoders); r.Ok? && Authority(r.value) == [c]
  {
    WitnessRenders(ts, ['/', c], encoders);
    WitnessHasNoScheme();
    MessageNamesTheHost(ts, c, encoders);
  }
}
