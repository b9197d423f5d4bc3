/** The one-pass webhook renderer, against a form that first splits the template and then
    substitutes. How a value is encoded for a URL or as JSON is a parameter. */
module WebhookTemplate {
  import opened Wrappers
  import opened WebhookTokens

  datatype Values = Values(message: string, sender: string, datetime: string)

  datatype Encoders = Encoders(url: string -> string, json: string -> string)

  // ---------- What stands where ----------

  /** For every place of a template, what a scan that stands there finds. */
  type Finds = seq<Result<Segment, RenderError>>

  function Length(segment: Segment): nat {
    |Spelling(segment)|
  }

  /** No segment is empty or reaches beyond the end. */
  ghost predicate IsScan(f: Finds) {
    forall k :: 0 <= k < |f| && f[k].Ok? ==> 0 < Length(f[k].value) <= |f| - k
  }

  type Scan = f: Finds | IsScan(f) witness []

  ghost predicate FoundAt(f: Scan, ts: Table, s: string, k: nat) {
    k < |f| == |s| ==> f[k] == At(ts, s, k)
  }

  ghost function ScanOf(ts: Table, s: string): (f: Scan)
    ensures |f| == |s| && forall k: nat :: FoundAt(f, ts, s, k)
  {
    var f := seq(|s|, k requires 0 <= k < |s| => At(ts, s, k));
    assert IsScan(f) by {
      forall k | 0 <= k < |f| && f[k].Ok? ensures 0 < Length(f[k].value) <= |f| - k {
        SegmentSpells(ts, s, k);
      }
    }
    f
  }

  /** Segments spell what stands at their place, and nothing starts inside a token. */
  ghost predicate Spells(f: Scan, s: string, k: nat) {
    |f| == |s| && (k < |f| && f[k].Ok? ==> Fits(s, k, Spelling(f[k].value)))
  }

  ghost predicate QuietInside(f: Scan, s: string, k: nat, j: nat) {
    |f| == |s| && (k < j < |f| && f[k].Ok? && j < k + Length(f[k].value) ==> f[j] == Ok(Literal(s[j])))
  }

  ghost predicate Reads(f: Scan, s: string) {
    && |f| == |s|
    && (forall k: nat :: Spells(f, s, k))
    && (forall k: nat, j: nat :: QuietInside(f, s, k, j))
  }

  lemma ScanReads(ts: Table, s: string)
    ensures Reads(ScanOf(ts, s), s)
  {
    var f := ScanOf(ts, s);
    forall k: nat ensures Spells(f, s, k) {
      assert FoundAt(f, ts, s, k);
      if k < |f| && f[k].Ok? { SegmentSpells(ts, s, k); }
    }
    forall k: nat, j: nat ensures QuietInside(f, s, k, j) {
      assert FoundAt(f, ts, s, k) && FoundAt(f, ts, s, j);
      if k < j < |f| && f[k].Ok? && j < k + Length(f[k].value) { InsideAToken(ts, s, k, j); }
    }
  }

  // ---------- Splitting and substituting ----------

  /** The segments from place `k` on. */
  function Split(f: Scan, k: nat): Result<seq<Segment>, RenderError>
    requires k <= |f|
    decreases |f| - k
  {
    if k == |f| then Ok([])
    else
      match f[k]
      case Err(e) => Err(e)
      case Ok(first) =>
        match Split(f, k + Length(first))
        case Ok(rest) => Ok([first] + rest)
        case Err(e) => Err(e)
  }

  ghost function Tokenise(ts: Table, s: string): Result<seq<Segment>, RenderError> {
    Split(ScanOf(ts, s), 0)
  }

  function Substitute(t: Token, values: Values, encoders: Encoders): string {
    var value := match t.kind case Message => values.message case Sender => values.sender case Datetime => values.datetime;
    match t.encoding case Raw => value case Url => encoders.url(value) case Json => encoders.json(value)
  }

  function Piece(segment: Segment, values: Values, encoders: Encoders): string {
    match segment case Literal(c) => [c] case Variable(t) => Substitute(t, values, encoders)
  }

  function Expand(segments: seq<Segment>, values: Values, encoders: Encoders): string {
    if segments == [] then ""
    else Piece(segments[0], values, encoders) + Expand(segments[1..], values, encoders)
  }

  function RenderFrom(f: Scan, k: nat, values: Values, encoders: Encoders): Result<string, RenderError>
    requires k <= |f|
  {
    match Split(f, k)
    case Ok(segments) => Ok(Expand(segments, values, encoders))
    case Err(e) => Err(e)
  }

  ghost function Render(ts: Table, template: string, values: Values, encoders: Encoders): Result<string, RenderError> {
    RenderFrom(ScanOf(ts, template), 0, values, encoders)
  }

  function Prepend(output: string, r: Result<string, RenderError>): Result<string, RenderError> {
    match r case Ok(rest) => Ok(output + rest) case Err(e) => Err(e)
  }

  lemma PrependTwice(a: string, b: string, r: Result<string, RenderError>)
    ensures Prepend(a, Prepend(b, r)) == Prepend(a + b, r)
    ensures Prepend("", r) == r
  {
    if r.Ok? { assert a + (b + r.value) == (a + b) + r.value && "" + r.value == r.value; }
  }

  /** The first segment, then what follows it. */
  lemma RenderFirst(f: Scan, k: nat, first: Segment, values: Values, encoders: Encoders)
    requires k < |f| && f[k] == Ok(first)
    ensures RenderFrom(f, k, values, encoders)
              == Prepend(Piece(first, values, encoders), RenderFrom(f, k + Length(first), values, encoders))
  {
    var tail := Split(f, k + Length(first));
    if tail.Ok? { assert ([first] + tail.value)[1..] == tail.value; }
  }

  lemma RenderStep(f: Scan, k: nat, output: string, values: Values, encoders: Encoders)
    requires k < |f|
    ensures var r := Prepend(output, RenderFrom(f, k, values, encoders));
      match f[k]
      case Err(e) => r == Err(e)
      case Ok(first) =>
        r == Prepend(output + Piece(first, values, encoders), RenderFrom(f, k + Length(first), values, encoders))
  {
    if f[k].Ok? {
      var first := f[k].value;
      RenderFirst(f, k, first, values, encoders);
      PrependTwice(output, Piece(first, values, encoders), RenderFrom(f, k + Length(first), values, encoders));
    }
  }

  lemma RenderEnd(f: Scan, output: string, values: Values, encoders: Encoders)
    ensures Prepend(output, RenderFrom(f, |f|, values, encoders)) == Ok(output)
  {
    assert output + "" == output;
  }

  /** What has been put out and what is still to come make up the whole. */
  ghost predicate Halfway(f: Scan, output: string, k: nat, whole: Result<string, RenderError>,
                          values: Values, encoders: Encoders) {
    k <= |f| && whole == Prepend(output, RenderFrom(f, k, values, encoders))
  }

  lemma OneStepOn(f: Scan, output: string, k: nat, whole: Result<string, RenderError>, values: Values, encoders: Encoders)
    requires Halfway(f, output, k, whole, values, encoders) && k < |f|
    ensures f[k].Err? ==> whole == Err(f[k].error)
    ensures f[k].Ok? ==>
      Halfway(f, output + Piece(f[k].value, values, encoders), k + Length(f[k].value), whole, values, encoders)
  {
    RenderStep(f, k, output, values, encoders);
  }

  method RenderScanned(tokens: seq<Token>, ghost ts: Table, ghost f: Scan, template: string,
                       ghost whole: Result<string, RenderError>, values: Values, encoders: Encoders)
    returns (r: Result<string, RenderError>)
    requires Lists(tokens, ts) && |f| == |template| && forall k: nat :: FoundAt(f, ts, template, k)
    requires Halfway(f, "", 0, whole, values, encoders)
    ensures r == whole
  {
    var output := "";
    var offset := 0;
    while offset < |template|
      invariant Halfway(f, output, offset, whole, values, encoders)
      decreases |template| - offset
    {
      var first := NextSegment(tokens, ts, template, offset);
      assert FoundAt(f, ts, template, offset);
      OneStepOn(f, output, offset, whole, values, encoders);
      if first.Err? { return Err(first.error); }
      output := output + Piece(first.value, values, encoders);
      offset := offset + Length(first.value);
    }
    RenderEnd(f, output, values, encoders);
    r := Ok(output);
  }

  /** The renderer scans the template once and never looks at its own output. */
  method RenderTemplate(tokens: seq<Token>, ghost ts: Table, template: string, values: Values, encoders: Encoders)
    returns (r: Result<string, RenderError>)
    requires Lists(tokens, ts)
    ensures r == Render(ts, template, values, encoders)
  {
    PrependTwice("", "", Render(ts, template, values, encoders));
    r := RenderScanned(tokens, ts, ScanOf(ts, template), template, Render(ts, template, values, encoders), values, encoders);
  }

  /** Whether a template can be rendered does not depend on the message: one that has been
      validated with empty values is rendered for every message. */
  method ValidateTemplate(tokens: seq<Token>, ghost ts: Table, template: string, encoders: Encoders) returns (ok: bool)
    requires Lists(tokens, ts)
    ensures ok ==> forall values :: Render(ts, template, values, encoders).Ok?
    ensures !ok ==> forall values :: Render(ts, template, values, encoders).Err?
  {
    var r := RenderTemplate(tokens, ts, template, Values("", "", ""), encoders);
    ok := r.Ok?;
  }

  // ---------- What the segments are ----------

  function Source(segments: seq<Segment>): string {
    if segments == [] then "" else Spelling(segments[0]) + Source(segments[1..])
  }

  lemma SourceOfFirst(first: Segment, rest: seq<Segment>)
    ensures Source([first] + rest) == Spelling(first) + Source(rest)
  {
    assert ([first] + rest)[1..] == rest;
  }

  lemma RestOfText(s: string, k: nat, text: string, n: nat)
    requires Fits(s, k, text) && n == k + |text|
    ensures s[k..] == text + s[n..]
  {
  }

  lemma {:induction false} SegmentsSpell(f: Scan, s: string, k: nat)
    requires Reads(f, s) && k <= |f| && Split(f, k).Ok?
    ensures Source(Split(f, k).value) == s[k..]
    decreases |f| - k
  {
    if k < |f| {
      var first := f[k].value;
      var n := k + Length(first);
      SegmentsSpell(f, s, n);
      SourceOfFirst(first, Split(f, n).value);
      assert Spells(f, s, k);
      RestOfText(s, k, Spelling(first), n);
    }
  }

  /** Splitting loses nothing: the segments spell the template. */
  lemma SegmentsSpellTheTemplate(ts: Table, s: string)
    requires Tokenise(ts, s).Ok?
    ensures Source(Tokenise(ts, s).value) == s
  {
    ScanReads(ts, s);
    SegmentsSpell(ScanOf(ts, s), s, 0);
    assert s[0..] == s;
  }

  lemma {:induction false} SplitsExactly(f: Scan, s: string, k: nat)
    requires Reads(f, s) && k <= |f|
    ensures Split(f, k).Ok? <==> forall j :: k <= j < |f| ==> f[j].Ok?
    decreases |f| - k
  {
    if k < |f| && f[k].Ok? {
      var n := k + Length(f[k].value);
      SplitsExactly(f, s, n);
      forall j | k < j < n ensures f[j].Ok? {
        assert QuietInside(f, s, k, j);
      }
    }
  }

  /** A brace that starts a name, closed or not, which is no token. */
  ghost predicate Misspelt(ts: Table, s: string, k: nat) {
    k < |s| && FindToken(ts, s, k).None? && Complaint(s, k).Some?
  }

  /** A template is accepted exactly if nothing in it looks like a variable and is none. */
  lemma AcceptedExactly(ts: Table, s: string)
    ensures Tokenise(ts, s).Ok? <==> forall k: nat :: !Misspelt(ts, s, k)
  {
    var f := ScanOf(ts, s);
    ScanReads(ts, s);
    SplitsExactly(f, s, 0);
    forall k: nat | k < |s| ensures Misspelt(ts, s, k) <==> f[k].Err? {
      assert FoundAt(f, ts, s, k);
    }
  }

  /** A token starts at this place. */
  ghost predicate Occurs(ts: Table, s: string, k: nat) {
    k < |s| && FindToken(ts, s, k).Some?
  }

  ghost predicate VariableAt(f: Scan, k: nat) {
    k < |f| && f[k].Ok? && f[k].value.Variable?
  }

  lemma OccursAtVariables(ts: Table, s: string, k: nat)
    ensures Occurs(ts, s, k) <==> VariableAt(ScanOf(ts, s), k)
    ensures Occurs(ts, s, k) ==> ScanOf(ts, s)[k] == Ok(Variable(FindToken(ts, s, k).value)) && s[k] == '{'
  {
    assert FoundAt(ScanOf(ts, s), ts, s, k);
    if k < |s| { StartsAtBrace(ts, s, k); }
  }

  /** Segment `i` is the token, and the segments before it spell `offset` characters. */
  ghost predicate SegmentAt(segments: seq<Segment>, i: nat, offset: int, segment: Segment) {
    i < |segments| && segments[i] == segment && |Source(segments[..i])| == offset
  }

  lemma LaterSegment(first: Segment, rest: seq<Segment>, i: nat, offset: int, segment: Segment)
    requires SegmentAt(rest, i, offset, segment)
    ensures SegmentAt([first] + rest, i + 1, Length(first) + offset, segment)
  {
    assert ([first] + rest)[..i + 1] == [first] + rest[..i];
    SourceOfFirst(first, rest[..i]);
  }

  lemma SplitFirst(f: Scan, k: nat) returns (first: Segment, n: nat)
    requires k < |f| && Split(f, k).Ok?
    ensures f[k] == Ok(first) && n == k + Length(first) <= |f| && Split(f, n).Ok?
    ensures Split(f, k).value == [first] + Split(f, n).value
  {
    first := f[k].value;
    n := k + Length(first);
  }

  lemma {:induction false} VariablesAreSegments(f: Scan, s: string, k: nat, j: nat) returns (i: nat)
    requires Reads(f, s) && k <= j && k <= |f| && Split(f, k).Ok? && VariableAt(f, j)
    ensures SegmentAt(Split(f, k).value, i, j - k, f[j].value)
    decreases |f| - k
  {
    if j == k {
      i := 0;
    } else {
      var first, n := SplitFirst(f, k);
      assert QuietInside(f, s, k, j);
      i := VariablesAreSegments(f, s, n, j);
      LaterSegment(first, Split(f, n).value, i, j - n, f[j].value);
      i := i + 1;
    }
  }

  /** Every occurrence of a token in the template becomes a segment of its own. */
  lemma OccurrencesAreSegments(ts: Table, s: string, k: nat) returns (i: nat)
    requires Tokenise(ts, s).Ok? && Occurs(ts, s, k)
    ensures SegmentAt(Tokenise(ts, s).value, i, k, Variable(FindToken(ts, s, k).value))
  {
    ScanReads(ts, s);
    OccursAtVariables(ts, s, k);
    i := VariablesAreSegments(ScanOf(ts, s), s, 0, k);
  }
}
