/** The part of a rendered URL that no message can change. The authority of a string is what
    follows its first "://", or what it starts with, up to the next delimiter
    (section 3.2 of RFC 3986). */
module WebhookUrl {
  import opened Wrappers
  import opened WebhookTokens
  import opened WebhookTemplate

  // ---------- Static prefixes ----------

  /** The first `n` characters come out unchanged, whatever the message says. */
  ghost predicate Static(ts: Table, template: string, n: nat, encoders: Encoders)
    requires n <= |template|
  {
    forall values :: PrefixStays(ts, template, n, values, encoders)
  }

  ghost predicate PrefixStays(ts: Table, template: string, n: nat, values: Values, encoders: Encoders)
    requires n <= |template|
  {
    var r := Render(ts, template, values, encoders);
    r.Ok? && template[..n] <= r.value
  }

  ghost predicate LiteralAt(f: Scan, s: string, k: nat) {
    k < |f| == |s| && f[k] == Ok(Literal(s[k]))
  }

  lemma LiteralStep(f: Scan, s: string, k: nat, values: Values, encoders: Encoders)
    requires LiteralAt(f, s, k) && Split(f, k).Ok?
    ensures Split(f, k + 1).Ok?
    ensures RenderFrom(f, k, values, encoders).value == [s[k]] + RenderFrom(f, k + 1, values, encoders).value
  {
    RenderFirst(f, k, Literal(s[k]), values, encoders);
  }

  lemma PrefixGrows(s: string, k: nat, n: nat, rest: string)
    requires k < n <= |s|
    ensures [s[k]] + (s[k + 1..n] + rest) == s[k..n] + rest
  {
    assert s[k..n] == [s[k]] + s[k + 1..n];
  }

  /** Up to the first variable the output is the template. */
  lemma {:induction false} LiteralPrefix(f: Scan, s: string, k: nat, n: nat, values: Values, encoders: Encoders)
    requires k <= n <= |f| == |s| && Split(f, k).Ok? && forall j :: k <= j < n ==> LiteralAt(f, s, j)
    ensures Split(f, n).Ok?
    ensures RenderFrom(f, k, values, encoders).value == s[k..n] + RenderFrom(f, n, values, encoders).value
    decreases n - k
  {
    if k < n {
      assert LiteralAt(f, s, k);
      LiteralStep(f, s, k, values, encoders);
      LiteralPrefix(f, s, k + 1, n, values, encoders);
      PrefixGrows(s, k, n, RenderFrom(f, n, values, encoders).value);
    } else {
      assert s[k..n] == "" && "" + RenderFrom(f, n, values, encoders).value == RenderFrom(f, n, values, encoders).value;
    }
  }

  lemma {:induction false} SplitReaches(f: Scan, s: string, k: nat, n: nat)
    requires k <= n <= |f| == |s| && Split(f, k).Ok? && forall j :: k <= j < n ==> !VariableAt(f, j)
    requires Reads(f, s)
    ensures forall j :: k <= j < n ==> LiteralAt(f, s, j)
    decreases n - k
  {
    if k < n {
      assert Spells(f, s, k) && f[k].Ok? && !VariableAt(f, k);
      assert Spelling(f[k].value) == [f[k].value.ch] && s[k..k + 1] == [s[k]];
      SplitReaches(f, s, k + 1, n);
    }
  }

  /** No variable starts before `n`: the output is the prefix and what the rest gives. */
  lemma OutputIsPrefixed(ts: Table, template: string, n: nat, values: Values, encoders: Encoders)
    requires Tokenise(ts, template).Ok? && n <= |template| && forall k: nat :: k < n ==> !Occurs(ts, template, k)
    ensures Split(ScanOf(ts, template), n).Ok?
    ensures Render(ts, template, values, encoders).value
              == template[..n] + RenderFrom(ScanOf(ts, template), n, values, encoders).value
  {
    var f := ScanOf(ts, template);
    ScanReads(ts, template);
    forall j | 0 <= j < n ensures !VariableAt(f, j) { OccursAtVariables(ts, template, j); }
    SplitReaches(f, template, 0, n);
    LiteralPrefix(f, template, 0, n, values, encoders);
    assert template[0..n] == template[..n];
  }

  /** What is taken of the encoders: percent-encoding gives no colon and no slash, nothing for
      nothing and something for a letter; JSON text is quoted and keeps colons and slashes. */
  ghost predicate Ordinary(encoders: Encoders) {
    && encoders.url("") == "" && (forall v :: IsWord(encoders.url(v)))
    && NoBraceFirst(encoders.url("x")) && NoBraceFirst(encoders.json("x"))
    && HasScheme(encoders.json("://"))
  }

  predicate IsWord(s: string) {
    forall i :: 0 <= i < |s| ==> s[i] != ':' && s[i] != '/'
  }

  predicate NoBraceFirst(s: string) {
    s != "" && s[0] != '{'
  }

  const X := Values("x", "x", "x")

  /** A variable shows where it stands. */
  lemma VariableShows(f: Scan, k: nat, encoders: Encoders)
    requires VariableAt(f, k) && Split(f, k).Ok? && Ordinary(encoders)
    ensures NoBraceFirst(RenderFrom(f, k, X, encoders).value)
  {
    RenderFirst(f, k, f[k].value, X, encoders);
  }

  lemma {:induction false} FirstOccurrence(ts: Table, s: string, n: nat) returns (k: nat)
    requires exists j: nat :: j < n && Occurs(ts, s, j)
    ensures k < n && Occurs(ts, s, k) && forall j: nat :: j < k ==> !Occurs(ts, s, j)
    decreases n
  {
    if j: nat :| j < n - 1 && Occurs(ts, s, j) {
      k := FirstOccurrence(ts, s, n - 1);
    } else {
      k := n - 1;
    }
  }

  lemma PrefixChar(prefix: string, out: string, k: nat)
    ensures k < |prefix| && prefix <= out ==> k < |out| && out[k] == prefix[k]
  {
  }

  lemma CharAfter(prefix: string, rest: string)
    requires NoBraceFirst(rest)
    ensures |prefix| < |prefix + rest| && (prefix + rest)[|prefix|] != '{'
  {
  }

  /** A prefix is the same for every message exactly if no variable starts in it. */
  lemma StaticExactly(ts: Table, template: string, n: nat, encoders: Encoders)
    requires Tokenise(ts, template).Ok? && n <= |template| && Ordinary(encoders)
    ensures Static(ts, template, n, encoders) <==> forall k: nat :: k < n ==> !Occurs(ts, template, k)
  {
    if forall k: nat :: k < n ==> !Occurs(ts, template, k) {
      forall values ensures PrefixStays(ts, template, n, values, encoders) {
        OutputIsPrefixed(ts, template, n, values, encoders);
      }
    } else {
      var k := FirstOccurrence(ts, template, n);
      var f := ScanOf(ts, template);
      OutputIsPrefixed(ts, template, k, X, encoders);
      OccursAtVariables(ts, template, k);
      VariableShows(f, k, encoders);
      CharAfter(template[..k], RenderFrom(f, k, X, encoders).value);
      PrefixChar(template[..n], Render(ts, template, X, encoders).value, k);
      assert !PrefixStays(ts, template, n, X, encoders);
    }
  }

  // ---------- The authority ----------

  predicate Delimiter(c: char) {
    c == '/' || c == '?' || c == '#'
  }

  predicate HasScheme(s: string) {
    exists k :: 0 <= k <= |s| && Fits(s, k, "://")
  }

  function FindScheme(s: string, k: nat): (i: nat)
    requires k <= |s|
    ensures k <= i <= |s| && (i < |s| ==> Fits(s, i, "://"))
    ensures forall j :: k <= j < i ==> !Fits(s, j, "://")
    decreases |s| - k
  {
    if k == |s| || Fits(s, k, "://") then k else FindScheme(s, k + 1)
  }

  /** After the first "://", or at the front if there is none. */
  function AuthorityStart(s: string): (i: nat)
    ensures i <= |s|
  {
    var i := FindScheme(s, 0);
    if i == |s| then 0 else i + 3
  }

  function FindDelimiter(s: string, k: nat): (i: nat)
    requires k <= |s|
    ensures k <= i <= |s| && (i < |s| ==> Delimiter(s[i]))
    ensures forall j :: k <= j < i ==> !Delimiter(s[j])
    decreases |s| - k
  {
    if k == |s| || Delimiter(s[k]) then k else FindDelimiter(s, k + 1)
  }

  function AuthorityEnd(s: string): (i: nat)
    ensures AuthorityStart(s) <= i <= |s|
  {
    FindDelimiter(s, AuthorityStart(s))
  }

  function Authority(s: string): string {
    s[AuthorityStart(s)..AuthorityEnd(s)]
  }

  lemma SchemeStartsWithColon(s: string, j: nat)
    requires j < |s|
    ensures Fits(s, j, "://") ==> s[j] == ':'
  {
    var word := "://";
    assert Fits(s, j, word) ==> s[j] == s[j..j + |word|][0];
  }

  /** The authority of a URL in its usual parts. */
  lemma AuthorityOfParts(scheme: string, authority: string, rest: string)
    requires forall i :: 0 <= i < |scheme| ==> scheme[i] != ':'
    requires forall i :: 0 <= i < |authority| ==> authority[i] !in {'/', '?', '#'}
    requires rest == "" || rest[0] in {'/', '?', '#'}
    ensures Authority(scheme + "://" + authority + rest) == authority
  {
    var s, n := scheme + "://" + authority + rest, |scheme|;
    assert s[n..n + 3] == "://";
    forall j | 0 <= j < n ensures !Fits(s, j, "://") {
      assert s[j] == scheme[j];
      SchemeStartsWithColon(s, j);
    }
    SchemeIsFirst(s, n);
    var end := n + 3 + |authority|;
    forall j | n + 3 <= j < end ensures !Delimiter(s[j]) {
      assert s[j] == authority[j - n - 3];
    }
    assert end < |s| ==> s[end] == rest[0];
    DelimiterIsFirst(s, n + 3, end);
    assert s[n + 3..end] == authority;
  }

  lemma SchemeIsFirst(s: string, i: nat)
    requires Fits(s, i, "://") && forall j :: 0 <= j < i ==> !Fits(s, j, "://")
    ensures AuthorityStart(s) == i + 3
  {
  }

  lemma NoSchemeStartsAtFront(s: string)
    ensures !HasScheme(s) <==> AuthorityStart(s) == 0
  {
    if HasScheme(s) {
      var k :| 0 <= k <= |s| && Fits(s, k, "://");
      assert FindScheme(s, 0) <= k;
    }
  }

  lemma DelimiterIsFirst(s: string, start: nat, i: nat)
    requires start <= i <= |s| && (i < |s| ==> Delimiter(s[i])) && forall j :: start <= j < i ==> !Delimiter(s[j])
    ensures FindDelimiter(s, start) == i
  {
  }

  /** A token that starts in the authority ends in it. */
  lemma OccurrenceIsInside(s: string, start: nat, end: nat, k: nat, text: string)
    requires start <= k < end <= |s| && (end < |s| ==> Delimiter(s[end])) && Fits(s, k, text) && Braced(text)
    ensures Fits(s[start..end], k - start, text)
  {
    FittingText(s, k, text);
    SliceFits(s, start, end, k, text);
  }

  lemma SliceFits(s: string, start: nat, end: nat, k: nat, word: string)
    requires start <= k <= end <= |s|
    ensures Fits(s[start..end], k - start, word) <==> k + |word| <= end && Fits(s, k, word)
  {
    if k + |word| <= end {
      assert s[start..end][k - start..][..|word|] == s[k..][..|word|];
      assert s[start..end][k - start..k - start + |word|] == s[start..end][k - start..][..|word|];
      assert s[k..k + |word|] == s[k..][..|word|];
    }
  }

  predicate Contains(s: string, word: string) {
    exists i :: 0 <= i <= |s| && Fits(s, i, word)
  }

  /** No variable starts in the authority of the template. */
  ghost predicate CleanAuthority(ts: Table, template: string) {
    forall k: nat :: AuthorityStart(template) <= k < AuthorityEnd(template) ==> !Occurs(ts, template, k)
  }

  lemma TokenFound(tokens: seq<Token>, ts: Table, template: string, t: Token)
    requires Lists(tokens, ts) && t in tokens && Contains(Authority(template), t.text)
    ensures !CleanAuthority(ts, template)
  {
    var start, end := AuthorityStart(template), AuthorityEnd(template);
    var k: nat :| k <= end - start && Fits(Authority(template), k, t.text);
    assert Braced(t.text);
    SliceFits(template, start, end, start + k, t.text);
    assert Occurs(ts, template, start + k);
  }

  lemma NoTokenStarts(tokens: seq<Token>, ts: Table, template: string, k: nat)
    requires Lists(tokens, ts) && AuthorityStart(template) <= k < AuthorityEnd(template)
    requires forall t :: t in tokens ==> !Contains(Authority(template), t.text)
    ensures !Occurs(ts, template, k)
  {
    var start, end := AuthorityStart(template), AuthorityEnd(template);
    forall t | t in ts ensures !Fits(template, k, t.text) {
      assert t in tokens && !Contains(Authority(template), t.text);
      assert !Fits(template[start..end], k - start, t.text);
      if Fits(template, k, t.text) { OccurrenceIsInside(template, start, end, k, t.text); }
    }
  }

  /** The validation looks for tokens inside the authority; that finds all that start there. */
  method ValidateStaticUrlAuthority(tokens: seq<Token>, ghost ts: Table, template: string) returns (ok: bool)
    requires Lists(tokens, ts)
    ensures ok <==> CleanAuthority(ts, template)
  {
    var authority := Authority(template);
    for i := 0 to |tokens|
      invariant forall j :: 0 <= j < i ==> !Contains(authority, tokens[j].text)
    {
      if Contains(authority, tokens[i].text) {
        TokenFound(tokens, ts, template, tokens[i]);
        return false;
      }
    }
    forall k: nat | AuthorityStart(template) <= k < AuthorityEnd(template) ensures !Occurs(ts, template, k) {
      NoTokenStarts(tokens, ts, template, k);
    }
    ok := true;
  }
}
