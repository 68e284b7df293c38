/**
 * Parameter conversion of the query layer: named parameters are bound to
 * positional slots, and every positional parameter is normalised into the
 * literal handed to the database driver.
 */
module ParamConversion {
  import opened Wrappers
  import opened JsValues
  import opened Placeholders

  /** A value JavaScript treats as false: `undefined`, `null`, `false`, `0`, `NaN` or `''`. */
  type FalsyValue = v: JsValue | !Truthy(v) witness Undefined

  /** The `params` argument of a query: a falsy value, which skips conversion; an array; or a plain object. */
  datatype Params =
    | NoParams(given: FalsyValue)
    | Positional(values: seq<JsValue>)
    | Named(props: map<string, JsValue>)

  /** The values argument handed to the driver: falsy params exactly as given, or the positional literals. */
  datatype Sent = AsGiven(given: FalsyValue) | Values(values: seq<JsValue>)

  /** What is handed to the driver: the statement and the values argument. */
  datatype Call = Call(statement: string, params: Sent)

  /** The failed `assert` on a named placeholder whose value is falsy. */
  datatype BindError = NotFound(placeholder: string)

  /** A statement with its named placeholders bound to positional slots. */
  datatype Bound = Bound(statement: string, values: seq<JsValue>)

  function NotFoundMessage(e: BindError): string {
    "Parameter " + e.placeholder + " not found in object params"
  }

  // ---------------------------------------------------------------------------
  // Normalisation of one parameter
  // ---------------------------------------------------------------------------

  /** The entries that are sent as SQL `NULL`. */
  predicate NullCoerced(v: JsValue) {
    v.Undefined? || v.Null? || v.Arr? ||
    (v.Obj? && (Get(v.props, "value").Undefined? || Get(v.props, "value").Null?))
  }

  /**
   * The literal a parameter is sent as. A non-date object is a typed
   * parameter `{value, type, ...}` and is sent as its `value` when that is
   * defined, else as `null`; `undefined` is sent as `null`; every other value,
   * falsy ones included, is sent unchanged.
   */
  function Normalize(v: JsValue): (r: JsValue)
    ensures r != Undefined
    ensures r == Null <==> NullCoerced(v)
    ensures (!IsObjectType(v) || v.Date?) && v != Undefined ==> r == v
    ensures v.Obj? && Get(v.props, "value") != Undefined ==> r == Get(v.props, "value")
  {
    if IsObjectType(v) && !v.Date? then
      if Truthy(v) && Property(v, "value") != Undefined then Property(v, "value") else Null
    else
      if v != Undefined then v else Null
  }

  /** `params.map(normalize)`: one literal per entry, in the same order, none of them `undefined`. */
  function NormalizeAll(ps: seq<JsValue>): (r: seq<JsValue>)
    ensures |r| == |ps|
    ensures forall i :: 0 <= i < |ps| ==> r[i] == Normalize(ps[i])
    ensures forall i :: 0 <= i < |r| ==> r[i] != Undefined
  {
    seq(|ps|, i requires 0 <= i < |ps| => Normalize(ps[i]))
  }

  // ---------------------------------------------------------------------------
  // Binding named placeholders
  // ---------------------------------------------------------------------------

  /** `param.substr(1)`: the placeholder without its `@`. */
  function Key(token: string): string {
    if |token| == 0 then "" else token[1..]
  }

  /** The `assert(params[key])` passes: the placeholder's value is truthy. */
  predicate Supplied(props: map<string, JsValue>, token: string) {
    Truthy(Get(props, Key(token)))
  }

  /** The index of the first placeholder whose value is falsy, if any. */
  function FirstMissing(props: map<string, JsValue>, tokens: seq<string>): (r: Option<nat>)
    ensures r.Some? ==> r.value < |tokens| && !Supplied(props, tokens[r.value])
    ensures r.Some? ==> forall q :: 0 <= q < r.value ==> Supplied(props, tokens[q])
    ensures r.None? <==> forall q :: 0 <= q < |tokens| ==> Supplied(props, tokens[q])
  {
    if |tokens| == 0 then None
    else if !Supplied(props, tokens[0]) then Some(0)
    else
      match FirstMissing(props, tokens[1..])
      case None => None
      case Some(i) => Some(i + 1)
  }

  /**
   * Binding a named-parameter object: the i-th placeholder becomes `$i` and
   * contributes the value of its key; the first placeholder whose value is
   * falsy fails the whole binding.
   */
  function BindNamed(statement: string, props: map<string, JsValue>): Result<Bound, BindError> {
    var tokens := Tokens(statement, 0);
    match FirstMissing(props, tokens)
    case Some(i) => Err(NotFound(tokens[i]))
    case None =>
      Ok(Bound(Rewrite(statement), Lookups(props, tokens)))
  }

  /** The value of each placeholder's key, in order. */
  function Lookups(props: map<string, JsValue>, tokens: seq<string>): (r: seq<JsValue>)
    ensures |r| == |tokens|
  {
    seq(|tokens|, i requires 0 <= i < |tokens| => Get(props, Key(tokens[i])))
  }

  /** The whole conversion: what the driver receives, or the binding error. */
  function Prepare(statement: string, params: Params): Result<Call, BindError> {
    match params
    case NoParams(given) => Ok(Call(statement, AsGiven(given)))
    case Positional(values) => Ok(Call(statement, Values(NormalizeAll(values))))
    case Named(props) =>
      match BindNamed(statement, props)
      case Err(e) => Err(e)
      case Ok(b) => Ok(Call(b.statement, Values(NormalizeAll(b.values))))
  }

  // ---------------------------------------------------------------------------
  // The conversion as the source runs it
  // ---------------------------------------------------------------------------

  /**
   * The conversion step of a query: a named-parameter object is first bound
   * to positional slots, then every positional value is normalised.
   */
  method ConvertParams(statement: string, params: Params) returns (r: Result<Call, BindError>)
    ensures r == Prepare(statement, params)
  {
    match params
    case NoParams(given) =>
      r := Ok(Call(statement, AsGiven(given)));
    case Positional(values) =>
      r := Ok(Call(statement, Values(NormalizeAll(values))));
    case Named(props) =>
      var bound := BindPlaceholders(statement, props);
      match bound
      case Err(e) =>
        r := Err(e);
      case Ok(b) =>
        r := Ok(Call(b.statement, Values(NormalizeAll(b.values))));
  }

  /**
   * The `match.map` over the placeholders of a named-parameter object: walks
   * the matched placeholders in order, replaces the first occurrence of each
   * placeholder's text in the current statement by the next `$i`, and collects
   * the looked-up values, stopping at the first falsy one.
   */
  method BindPlaceholders(statement: string, props: map<string, JsValue>) returns (r: Result<Bound, BindError>)
    ensures r == BindNamed(statement, props)
  {
    var matched := Tokens(statement, 0);
    var current := statement;
    var values: seq<JsValue> := [];
    var i := 1;
    ghost var from: nat := 0;
    ghost var done := "";
    ProgressStart(statement, props);
    while i <= |matched|
      invariant TextProgress(statement, matched, i, from, done, current)
      invariant ValueProgress(props, matched, i, values)
      decreases |matched| + 1 - i
    {
      var param := matched[i - 1];
      ghost var start := FindToken(statement, from);
      TextAdvance(statement, matched, i, from, done, current);
      current := ReplaceFirst(current, param, "$" + DecimalString(i));
      done, from := done + statement[from..start] + Placeholder(i), TokenEnd(statement, start);
      var key := Key(param);
      if !Truthy(Get(props, key)) {
        MissingAt(props, matched, i - 1);
        r := Err(NotFound(param));
        return;
      }
      ValueAdvance(props, matched, i, values);
      values := values + [Get(props, key)];
      i := i + 1;
    }
    ProgressFinish(statement, props, matched, i, from, done, current, values);
    r := Ok(Bound(current, values));
  }

  /**
   * The statement side of the walk before the i-th placeholder: the text
   * before it is rewritten (`done`) and the rest of the statement is untouched.
   */
  ghost predicate TextProgress(s: string, matched: seq<string>, i: nat, from: nat, done: string, current: string) {
    && matched == Tokens(s, 0)
    && 1 <= i <= |matched| + 1
    && from <= |s|
    && matched[i - 1..] == Tokens(s, from)
    && current == done + s[from..]
    && done + Weave(Gaps(s, from), PlaceholderRun(i, |matched| - (i - 1))) == Rewrite(s)
    && NoPlaceholder(done) && (|done| > 0 ==> done[|done| - 1] != '@')
  }

  /** The values side of the walk: those of the placeholders already passed, collected and truthy. */
  ghost predicate ValueProgress(props: map<string, JsValue>, matched: seq<string>, i: nat, values: seq<JsValue>) {
    && 1 <= i <= |matched| + 1
    && values == Lookups(props, matched[..i - 1])
    && (forall q :: 0 <= q < i - 1 ==> Supplied(props, matched[q]))
  }

  lemma ProgressStart(s: string, props: map<string, JsValue>)
    ensures TextProgress(s, Tokens(s, 0), 1, 0, "", s)
    ensures ValueProgress(props, Tokens(s, 0), 1, [])
  {
    var matched := Tokens(s, 0);
    assert matched[0..] == matched;
    assert s[0..] == s;
    assert "" + Rewrite(s) == Rewrite(s);
    assert Lookups(props, matched[..0]) == [];
  }

  /** Replacing the next placeholder moves the rewritten prefix past it. */
  lemma TextAdvance(s: string, matched: seq<string>, i: nat, from: nat, done: string, current: string)
    requires TextProgress(s, matched, i, from, done, current)
    requires i <= |matched|
    ensures FindToken(s, from) < |s|
    ensures var start := FindToken(s, from);
      var current' := ReplaceFirst(current, matched[i - 1], "$" + DecimalString(i));
      var done' := done + s[from..start] + Placeholder(i);
      TextProgress(s, matched, i + 1, TokenEnd(s, start), done', current')
  {
    var start := FindToken(s, from);
    var end := TokenEnd(s, start);
    var param := matched[i - 1];
    ReplaceStep(s, from, done, i, |matched| - i);
    assert param == matched[i - 1..][0] == s[start..end];
    assert matched[i..] == matched[i - 1..][1..] == Tokens(s, end);
  }

  /** A truthy value extends the collected values by its lookup. */
  lemma ValueAdvance(props: map<string, JsValue>, matched: seq<string>, i: nat, values: seq<JsValue>)
    requires ValueProgress(props, matched, i, values)
    requires i <= |matched| && Supplied(props, matched[i - 1])
    ensures ValueProgress(props, matched, i + 1, values + [Get(props, Key(matched[i - 1]))])
  {
    SuppliedThrough(props, matched, i - 1);
    LookupsSnoc(props, matched, i - 1);
  }

  /** When every placeholder is passed, the walk has produced exactly the binding. */
  lemma ProgressFinish(s: string, props: map<string, JsValue>, matched: seq<string>, i: nat,
                       from: nat, done: string, current: string, values: seq<JsValue>)
    requires TextProgress(s, matched, i, from, done, current)
    requires ValueProgress(props, matched, i, values)
    requires i == |matched| + 1
    ensures BindNamed(s, props) == Ok(Bound(current, values))
  {
    ScanDone(s, from);
    assert matched[..i - 1] == matched;
    assert FirstMissing(props, matched) == None;
  }

  /** The first falsy placeholder, once all before it passed, is the one `FirstMissing` reports. */
  lemma MissingAt(props: map<string, JsValue>, tokens: seq<string>, n: nat)
    requires n < |tokens| && !Supplied(props, tokens[n])
    requires forall q :: 0 <= q < n ==> Supplied(props, tokens[q])
    ensures FirstMissing(props, tokens) == Some(n)
  {
  }

  lemma SuppliedThrough(props: map<string, JsValue>, tokens: seq<string>, n: nat)
    requires n < |tokens| && Supplied(props, tokens[n])
    requires forall q :: 0 <= q < n ==> Supplied(props, tokens[q])
    ensures forall q :: 0 <= q < n + 1 ==> Supplied(props, tokens[q])
  {
  }

  lemma LookupsSnoc(props: map<string, JsValue>, tokens: seq<string>, n: nat)
    requires n < |tokens|
    ensures Lookups(props, tokens[..n + 1]) == Lookups(props, tokens[..n]) + [Get(props, Key(tokens[n]))]
  {
  }

  /**
   * One loop step: replacing the first occurrence of the next placeholder's
   * text replaces that very placeholder, and the rewritten prefix stays free
   * of named placeholders and on course for `Rewrite`.
   */
  lemma ReplaceStep(s: string, from: nat, done: string, i: nat, left: nat)
    requires from <= |s| && |Tokens(s, from)| == left + 1
    requires NoPlaceholder(done) && (|done| > 0 ==> done[|done| - 1] != '@')
    ensures FindToken(s, from) < |s|
    ensures var start := FindToken(s, from);
      var end := TokenEnd(s, start);
      var done' := done + s[from..start] + Placeholder(i);
      && Tokens(s, from) == [s[start..end]] + Tokens(s, end)
      && ReplaceFirst(done + s[from..], s[start..end], "$" + DecimalString(i)) == done' + s[end..]
      && NoPlaceholder(done')
      && done'[|done'| - 1] != '@'
      && done + Weave(Gaps(s, from), PlaceholderRun(i, left + 1))
         == done' + Weave(Gaps(s, end), PlaceholderRun(i + 1, left))
  {
    var start := FindToken(s, from);
    var end := TokenEnd(s, start);
    ScanStep(s, from);
    var gap := s[from..start];
    var tok := s[start..end];
    PrefixStep(done, gap, i);
    ReplaceFirstToken(done + gap, tok, s[end..], Placeholder(i));
    ConcatAssoc(done, gap, tok, s[end..]);
    WeaveStep(gap, Gaps(s, end), i, left);
    ConcatAssoc(done, gap, Placeholder(i), Weave(Gaps(s, end), PlaceholderRun(i + 1, left)));
  }

  lemma ConcatAssoc(a: string, b: string, c: string, d: string)
    ensures a + (b + c + d) == (a + b) + c + d
  {
  }

  /** Appending a placeholder-free gap and `$i` keeps the prefix free of named placeholders. */
  lemma PrefixStep(done: string, gap: string, i: nat)
    requires NoPlaceholder(done) && (|done| > 0 ==> done[|done| - 1] != '@')
    requires NoPlaceholder(gap)
    ensures NoPlaceholder(done + gap)
    ensures var done' := done + gap + Placeholder(i);
      NoPlaceholder(done') && done'[|done'| - 1] != '@'
  {
    ConcatNoPlaceholder(done, gap);
    PlaceholderShape(i);
    ConcatNoPlaceholder(done + gap, Placeholder(i));
  }

  /** Taking the first gap and the first placeholder off the weave. */
  lemma WeaveStep(gap: string, gaps: seq<string>, i: nat, left: nat)
    requires |gaps| == left + 1
    ensures Weave([gap] + gaps, PlaceholderRun(i, left + 1))
         == gap + Placeholder(i) + Weave(gaps, PlaceholderRun(i + 1, left))
  {
    RunCons(i, left);
    WeaveCons(gap, gaps, Placeholder(i), PlaceholderRun(i + 1, left));
  }

  /** A run of placeholders is its first one followed by the rest. */
  lemma RunCons(i: nat, left: nat)
    ensures PlaceholderRun(i, left + 1) == [Placeholder(i)] + PlaceholderRun(i + 1, left)
  {
    var r := PlaceholderRun(i, left + 1);
    var t := [Placeholder(i)] + PlaceholderRun(i + 1, left);
    assert forall k :: 0 <= k < left + 1 ==> r[k] == t[k];
  }

  // ---------------------------------------------------------------------------
  // Properties of the conversion
  // ---------------------------------------------------------------------------

  /**
   * A successful binding has one slot per `@word` occurrence, in order of
   * appearance, repeated names repeated: the i-th value is the i-th
   * placeholder's value. The statement is the original with the i-th
   * placeholder replaced by `$i` and every other character kept, and no
   * named placeholder is left in it.
   */
  lemma BindNamedSlots(s: string, props: map<string, JsValue>)
    requires BindNamed(s, props).Ok?
    ensures var b := BindNamed(s, props).value;
      var tokens := Tokens(s, 0);
      && |b.values| == |tokens| == |TokenStarts(s, 0)|
      && (forall i :: 0 <= i < |tokens| ==> b.values[i] == Get(props, Key(tokens[i])) && Truthy(b.values[i]))
      && s == Weave(Gaps(s, 0), tokens)
      && b.statement == Weave(Gaps(s, 0), PlaceholderRun(1, |tokens|))
      && NoPlaceholder(b.statement)
  {
    TokenCount(s, 0);
    SplitRoundTrip(s, 0);
    assert s[0..] == s;
    RewriteHasNoPlaceholder(s);
  }

  /**
   * Binding fails exactly when some placeholder's value is falsy (absent,
   * `null`, `0`, `''`, `false`), and the error names the first such placeholder.
   */
  lemma BindNamedFails(s: string, props: map<string, JsValue>)
    ensures var tokens := Tokens(s, 0);
      BindNamed(s, props).Err? <==> exists i :: 0 <= i < |tokens| && !Supplied(props, tokens[i])
    ensures var tokens := Tokens(s, 0);
      BindNamed(s, props).Err? ==>
        exists i :: 0 <= i < |tokens| && BindNamed(s, props).error == NotFound(tokens[i])
          && !Supplied(props, tokens[i])
          && forall q :: 0 <= q < i ==> Supplied(props, tokens[q])
  {
  }

  /** A statement without named placeholders binds to no values and stays as it is, whatever the object holds. */
  lemma BindNamedNoPlaceholders(s: string, props: map<string, JsValue>)
    requires NoPlaceholder(s)
    ensures BindNamed(s, props) == Ok(Bound(s, []))
  {
    NoTokensIff(s);
  }

  /** Two objects that agree on the first `n` placeholders' keys agree on where the first falsy one is, among those. */
  lemma {:induction false} FirstMissingAgree(p1: map<string, JsValue>, p2: map<string, JsValue>, tokens: seq<string>)
    requires forall i :: 0 <= i < |tokens| ==> Get(p1, Key(tokens[i])) == Get(p2, Key(tokens[i]))
    ensures FirstMissing(p1, tokens) == FirstMissing(p2, tokens)
  {
    if |tokens| > 0 {
      FirstMissingAgree(p1, p2, tokens[1..]);
    }
  }

  /** Keys the statement never references do not matter. */
  lemma BindNamedIgnoresUnreferenced(s: string, p1: map<string, JsValue>, p2: map<string, JsValue>)
    requires forall t :: t in Tokens(s, 0) ==> Get(p1, Key(t)) == Get(p2, Key(t))
    ensures BindNamed(s, p1) == BindNamed(s, p2)
  {
    var tokens := Tokens(s, 0);
    FirstMissingAgree(p1, p2, tokens);
    assert Lookups(p1, tokens) == Lookups(p2, tokens);
  }

  /**
   * What reaches the driver: falsy params leave the statement and params
   * untouched; an array keeps the statement and is normalised entry by entry;
   * a successfully bound object yields one normalised value per placeholder.
   * No value sent is `undefined`.
   */
  lemma PrepareSends(s: string, params: Params)
    requires Prepare(s, params).Ok?
    ensures var call := Prepare(s, params).value;
      && (params.NoParams? ==> call == Call(s, AsGiven(params.given)))
      && (params.Positional? ==>
            && call.statement == s && call.params.Values?
            && |call.params.values| == |params.values|
            && forall i :: 0 <= i < |params.values| ==> call.params.values[i] == Normalize(params.values[i]))
      && (params.Named? ==>
            && call.statement == Rewrite(s) && NoPlaceholder(call.statement)
            && call.params.Values? && |call.params.values| == |Tokens(s, 0)| == |TokenStarts(s, 0)|
            && forall i :: 0 <= i < |Tokens(s, 0)| ==>
                 call.params.values[i] == Normalize(Get(params.props, Key(Tokens(s, 0)[i]))))
      && (call.params.Values? ==> forall i :: 0 <= i < |call.params.values| ==> call.params.values[i] != Undefined)
  {
    if params.Named? {
      BindNamedSlots(s, params.props);
    }
  }

  /** Only a named-parameter object can fail, and only on a falsy placeholder value. */
  lemma PrepareFails(s: string, params: Params)
    ensures Prepare(s, params).Err? <==>
      params.Named? && exists i :: 0 <= i < |Tokens(s, 0)| && !Supplied(params.props, Tokens(s, 0)[i])
  {
    if params.Named? {
      BindNamedFails(s, params.props);
    }
  }
}
