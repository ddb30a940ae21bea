/**
 * The internationalization coverage test: which source files it scans, which
 * pieces of text it reports as hard-coded, which calls it treats as uses of a
 * translation key, how it looks a dotted key up in the English locale, and the
 * report it builds for keys the locale lacks.
 *
 * The TypeScript syntax tree is reduced to the node shapes the test inspects;
 * the traversal that visits every node is not modelled, only what the test
 * does at each node.
 */
module I18nCoverage {
  import opened Wrappers
  import opened Strings
  import opened Json

  // ---------------------------------------------------------------- syntax

  /** A zero-based position, as `getLineAndCharacterOfPosition` returns it. */
  datatype Position = Position(line: nat, character: nat)

  /** The expressions the test looks at. `StringLiteral` stands for every
      string-literal-like node (also a template without substitutions). */
  datatype Expr =
    | Identifier(name: string)
    | PropertyAccess(target: Expr, member: string)
    | StringLiteral(text: string, start: Position)
    | Template(head: string, headStart: Position, spans: seq<(string, Position)>)
    | Call(callee: Expr, arguments: seq<Expr>)
    | OtherExpression

  /** The initializer of a JSX attribute that has one. */
  datatype Initializer =
    | StringInitializer(text: string, start: Position)
    | JsxExpression(expression: Option<Expr>)
    | ElementInitializer

  /** The name of an object-literal property assignment. */
  datatype PropertyName =
    | IdentifierName(text: string)
    | StringName(text: string)
    | ComputedName

  /** A hard-coded text the test reports: one-based line and column. */
  datatype Finding = Finding(file: string, line: nat, column: nat, text: string, context: string)

  // ------------------------------------------------------- recorded texts

  predicate IsAsciiLetter(c: char) {
    ('A' <= c <= 'Z') || ('a' <= c <= 'z')
  }

  /** `/[A-Za-z]/.test(s)`. */
  predicate HasAsciiLetter(s: string) {
    exists i :: 0 <= i < |s| && IsAsciiLetter(s[i])
  }

  /** `recordTextValue`: the trimmed text is pushed, with its one-based position,
      when it is non-empty and holds an ASCII letter. */
  function RecordTextValue(text: string, start: Position, context: string, findings: seq<Finding>,
                           file: string): (r: seq<Finding>)
    ensures |r| == |findings| || |r| == |findings| + 1
    ensures r[..|findings|] == findings
    ensures |r| == |findings| + 1 ==>
      r[|findings|] == Finding(file, start.line + 1, start.character + 1, Trim(text), context)
  {
    var trimmed := Trim(text);
    if trimmed == "" then findings
    else if !HasAsciiLetter(trimmed) then findings
    else findings + [Finding(file, start.line + 1, start.character + 1, trimmed, context)]
  }

  lemma WhitespaceIsNoLetter(c: char)
    requires IsWhitespace(c)
    ensures !IsAsciiLetter(c)
  {
  }

  /** Trimming removes whitespace only, so no letter. */
  lemma LetterSurvivesTrim(text: string)
    ensures HasAsciiLetter(Trim(text)) <==> HasAsciiLetter(text)
  {
    LetterSurvivesTrimStart(text);
    LetterSurvivesTrimEnd(TrimStart(text));
  }

  lemma LetterSurvivesTrimStart(s: string)
    ensures HasAsciiLetter(TrimStart(s)) <==> HasAsciiLetter(s)
  {
    var t := TrimStart(s);
    var d := |s| - |t|;
    assert t == s[d..];
    if HasAsciiLetter(s) {
      var k :| 0 <= k < |s| && IsAsciiLetter(s[k]);
      if k < d {
        TrimStartDropsWhitespace(s);
        WhitespaceIsNoLetter(s[k]);
      }
      assert t[k - d] == s[k];
    }
    if HasAsciiLetter(t) {
      var k :| 0 <= k < |t| && IsAsciiLetter(t[k]);
      assert s[d + k] == t[k];
    }
  }

  lemma LetterSurvivesTrimEnd(s: string)
    ensures HasAsciiLetter(TrimEnd(s)) <==> HasAsciiLetter(s)
  {
    var t := TrimEnd(s);
    TrimEndDropsWhitespace(s);
    if HasAsciiLetter(s) {
      var k :| 0 <= k < |s| && IsAsciiLetter(s[k]);
      if k >= |t| {
        WhitespaceIsNoLetter(s[k]);
      }
      assert t[k] == s[k];
    }
    if HasAsciiLetter(t) {
      var k :| 0 <= k < |t| && IsAsciiLetter(t[k]);
      assert s[k] == t[k];
    }
  }

  /** A text is recorded exactly when the text as written holds an ASCII letter;
      what is recorded is left alone by a second trim. */
  lemma RecordIff(text: string, start: Position, context: string, findings: seq<Finding>, file: string)
    ensures |RecordTextValue(text, start, context, findings, file)| == |findings| + 1 <==> HasAsciiLetter(text)
    ensures |RecordTextValue(text, start, context, findings, file)| == |findings| + 1 ==>
      Trim(RecordTextValue(text, start, context, findings, file)[|findings|].text)
        == RecordTextValue(text, start, context, findings, file)[|findings|].text
  {
    LetterSurvivesTrim(text);
    TrimIdempotent(text);
  }

  /** A text made of whitespace alone, the indentation between JSX tags for
      instance, is never recorded. */
  lemma BlankNotRecorded(text: string, start: Position, context: string, findings: seq<Finding>, file: string)
    requires forall k :: 0 <= k < |text| ==> IsWhitespace(text[k])
    ensures RecordTextValue(text, start, context, findings, file) == findings
  {
    RecordIff(text, start, context, findings, file);
    forall k | 0 <= k < |text|
      ensures !IsAsciiLetter(text[k])
    {
      WhitespaceIsNoLetter(text[k]);
    }
  }

  /** The findings left after recording each of `pieces` in turn. */
  function RecordAll(pieces: seq<(string, Position)>, context: string, findings: seq<Finding>,
                     file: string): seq<Finding>
  {
    if |pieces| == 0 then findings
    else
      var last := pieces[|pieces| - 1];
      RecordTextValue(last.0, last.1, context, RecordAll(pieces[..|pieces| - 1], context, findings, file), file)
  }

  /** Recording pieces only ever appends findings, at most one per piece. */
  lemma {:induction false} RecordAllAppends(pieces: seq<(string, Position)>, context: string,
                                            findings: seq<Finding>, file: string)
    ensures |findings| <= |RecordAll(pieces, context, findings, file)| <= |findings| + |pieces|
    ensures RecordAll(pieces, context, findings, file)[..|findings|] == findings
  {
    if |pieces| > 0 {
      var before := RecordAll(pieces[..|pieces| - 1], context, findings, file);
      RecordAllAppends(pieces[..|pieces| - 1], context, findings, file);
      assert RecordAll(pieces, context, findings, file)[..|before|] == before;
      assert before[..|findings|] == findings;
    }
  }

  /** `handleTemplateExpression`: the head text, then the literal text of each span. */
  method HandleTemplateExpression(head: string, headStart: Position, spans: seq<(string, Position)>,
                                  context: string, findings: seq<Finding>, file: string)
    returns (result: seq<Finding>)
    ensures result == RecordAll([(head, headStart)] + spans, context, findings, file)
  {
    var pieces := [(head, headStart)] + spans;
    result := RecordTextValue(head, headStart, context, findings, file);
    assert pieces[..1] == [(head, headStart)];
    for s := 0 to |spans|
      invariant result == RecordAll(pieces[..s + 1], context, findings, file)
    {
      assert pieces[..s + 2][..s + 1] == pieces[..s + 1];
      result := RecordTextValue(spans[s].0, spans[s].1, context, result, file);
    }
    assert pieces[..|spans| + 1] == pieces;
  }

  // --------------------------------------------------- attribute filters

  /** `SKIPPED_JSX_ATTRIBUTES`. */
  const SkippedJsxAttributes: set<string> := {
    "className", "class", "style", "id", "key", "role", "tabIndex",
    "data-testid", "data-test", "data-qa", "data-cy",
    "to", "path", "href", "src", "target", "rel", "type", "name", "value",
    "checked", "disabled", "autoComplete", "placeholderKey",
    "aria-hidden", "aria-live", "aria-atomic", "aria-relevant", "aria-role",
    "aria-pressed", "aria-expanded", "aria-controls", "aria-describedby",
    "aria-selected", "aria-current", "aria-checked", "aria-valuemax",
    "aria-valuemin", "aria-valuenow", "aria-autocomplete", "aria-orientation"
  }

  /** `USER_FACING_PROPERTY_NAMES`. */
  const UserFacingPropertyNames: set<string> := {
    "text", "label", "title", "ariaLabel", "description", "placeholder", "buttonLabel", "helperText"
  }

  /** An attribute whose value is not user-facing text. */
  predicate IsSkippedAttribute(name: string) {
    StartsWith(name, "data-") || name in SkippedJsxAttributes
  }

  /** Every `data-` attribute is skipped; the accessible names and descriptions an
      assistive technology reads out (`aria-label`, `title`, `alt`, `placeholder`)
      are not. */
  lemma SkippedAttributes(suffix: string)
    ensures IsSkippedAttribute("data-" + suffix)
    ensures !IsSkippedAttribute("aria-label") && !IsSkippedAttribute("title")
    ensures !IsSkippedAttribute("alt") && !IsSkippedAttribute("placeholder")
    ensures IsSkippedAttribute("className") && IsSkippedAttribute("aria-hidden")
  {
    assert ("data-" + suffix)[..5] == "data-";
    NoDataPrefix("aria-label");
    NoDataPrefix("title");
    NoDataPrefix("placeholder");
  }

  lemma NoDataPrefix(name: string)
    requires |name| > 0 && name[0] != 'd'
    ensures !StartsWith(name, "data-")
  {
    if |name| >= 5 {
      assert name[..5][0] == name[0];
    }
  }

  /** The context line a finding in attribute `name` carries. */
  function AttributeContext(name: string): string {
    "JSX attribute \"" + name + "\""
  }

  /** The findings the visit of one JSX attribute adds. */
  function AttributeFindings(name: string, initializer: Option<Initializer>, findings: seq<Finding>,
                             file: string): (r: seq<Finding>)
    ensures IsSkippedAttribute(name) || initializer.None? ==> r == findings
    ensures |findings| <= |r| && r[..|findings|] == findings
  {
    if IsSkippedAttribute(name) then findings
    else match initializer
      case None => findings
      case Some(StringInitializer(text, start)) =>
        RecordTextValue(text, start, AttributeContext(name), findings, file)
      case Some(JsxExpression(Some(StringLiteral(text, start)))) =>
        RecordTextValue(text, start, AttributeContext(name), findings, file)
      case Some(JsxExpression(Some(Template(head, headStart, spans)))) =>
        RecordAllAppends([(head, headStart)] + spans, AttributeContext(name), findings, file);
        RecordAll([(head, headStart)] + spans, AttributeContext(name), findings, file)
      case Some(_) => findings
  }

  /** An attribute that is not skipped reports its literal value like any text. */
  lemma AttributeLiteral(name: string, text: string, start: Position, findings: seq<Finding>, file: string)
    requires !IsSkippedAttribute(name)
    ensures AttributeFindings(name, Some(StringInitializer(text, start)), findings, file)
      == RecordTextValue(text, start, AttributeContext(name), findings, file)
  {
  }

  /** A literal holding a letter in an attribute that is not skipped is reported,
      trimmed, with the attribute named in the context. */
  lemma LiteralReported(name: string, text: string, start: Position, findings: seq<Finding>, file: string)
    requires !IsSkippedAttribute(name) && HasAsciiLetter(text)
    ensures AttributeFindings(name, Some(StringInitializer(text, start)), findings, file)
      == findings + [Finding(file, start.line + 1, start.character + 1, Trim(text), AttributeContext(name))]
  {
    AttributeLiteral(name, text, start, findings, file);
    RecordedWhenLetter(text, start, AttributeContext(name), findings, file);
  }

  lemma RecordedWhenLetter(text: string, start: Position, context: string, findings: seq<Finding>, file: string)
    requires HasAsciiLetter(text)
    ensures RecordTextValue(text, start, context, findings, file)
      == findings + [Finding(file, start.line + 1, start.character + 1, Trim(text), context)]
  {
    LetterSurvivesTrim(text);
  }

  /** So a literal `aria-label` is reported. */
  lemma AriaLabelReported(text: string, start: Position, findings: seq<Finding>, file: string)
    requires HasAsciiLetter(text)
    ensures AttributeFindings("aria-label", Some(StringInitializer(text, start)), findings, file)
      == findings + [Finding(file, start.line + 1, start.character + 1, Trim(text), AttributeContext("aria-label"))]
  {
    AriaLabelNotSkipped();
    LiteralReported("aria-label", text, start, findings, file);
  }

  lemma AriaLabelNotSkipped()
    ensures !IsSkippedAttribute("aria-label")
  {
    NoDataPrefix("aria-label");
  }

  /** A property name the test can read: an identifier or a string literal. */
  function PropertyNameText(name: PropertyName): Option<string> {
    match name
    case IdentifierName(text) => Some(text)
    case StringName(text) => Some(text)
    case ComputedName => None
  }

  predicate IsUserFacingProperty(name: PropertyName) {
    PropertyNameText(name).Some? && PropertyNameText(name).value in UserFacingPropertyNames
  }

  /** The findings the visit of one property assignment adds: only a user-facing
      property with a literal or template value is looked at. */
  function PropertyFindings(name: PropertyName, initializer: Expr, findings: seq<Finding>,
                            file: string): (r: seq<Finding>)
    ensures !IsUserFacingProperty(name) ==> r == findings
    ensures |findings| <= |r| && r[..|findings|] == findings
  {
    if !IsUserFacingProperty(name) then findings
    else
      var context := "Object property \"" + PropertyNameText(name).value + "\"";
      match initializer
      case StringLiteral(text, start) => RecordTextValue(text, start, context, findings, file)
      case Template(head, headStart, spans) =>
        RecordAllAppends([(head, headStart)] + spans, context, findings, file);
        RecordAll([(head, headStart)] + spans, context, findings, file)
      case _ => findings
  }

  /** The names under which a literal is reported, and some under which it is not. */
  lemma UserFacingProperties(text: string)
    ensures IsUserFacingProperty(IdentifierName("label")) && IsUserFacingProperty(StringName("title"))
    ensures !IsUserFacingProperty(IdentifierName("className")) && !IsUserFacingProperty(ComputedName)
    ensures !IsUserFacingProperty(IdentifierName(text)) ==> text !in UserFacingPropertyNames
  {
  }

  // ------------------------------------------------------ key usages

  /** `isTranslationCall`: the callee is the identifier `t` or a property access
      whose name is `t` (`i18n.t`, `this.t`). */
  predicate IsTranslationCall(callee: Expr)
    ensures IsTranslationCall(callee) ==> callee.Identifier? || callee.PropertyAccess?
    ensures callee.Identifier? ==> (IsTranslationCall(callee) <==> callee.name == "t")
    ensures callee.PropertyAccess? ==> (IsTranslationCall(callee) <==> callee.member == "t")
  {
    match callee
    case Identifier(name) => name == "t"
    case PropertyAccess(_, member) => member == "t"
    case _ => false
  }

  /** The key a call expression uses, with the position of its literal: a call
      uses a key exactly when it is a translation call whose first argument is a
      string literal, and the key is that literal's text. */
  function UsedKey(e: Expr): (r: Option<(string, Position)>)
    ensures r.Some? <==> e.Call? && IsTranslationCall(e.callee) && |e.arguments| > 0 && e.arguments[0].StringLiteral?
    ensures r.Some? ==> r.value == (e.arguments[0].text, e.arguments[0].start)
  {
    if e.Call? && IsTranslationCall(e.callee) && |e.arguments| > 0 && e.arguments[0].StringLiteral? then
      Some((e.arguments[0].text, e.arguments[0].start))
    else None
  }

  /** `t('a.b')` and `i18n.t('a.b')` use the key; `translate('a.b')` and
      `t(key)` do not. */
  lemma UsedKeys(key: string, p: Position)
    ensures UsedKey(Call(Identifier("t"), [StringLiteral(key, p)])) == Some((key, p))
    ensures UsedKey(Call(PropertyAccess(Identifier("i18n"), "t"), [StringLiteral(key, p)])) == Some((key, p))
    ensures UsedKey(Call(Identifier("translate"), [StringLiteral(key, p)])).None?
    ensures UsedKey(Call(Identifier("t"), [Identifier("key")])).None?
  {
  }

  datatype Location = Location(file: string, line: nat, column: nat)

  /** The `usage` map: keys in first-use order, each with its locations. */
  type Usage = seq<(string, seq<Location>)>

  function KeysOfUsage(usage: Usage): (ks: seq<string>)
    ensures |ks| == |usage| && forall i :: 0 <= i < |usage| ==> ks[i] == usage[i].0
  {
    if |usage| == 0 then [] else [usage[0].0] + KeysOfUsage(usage[1..])
  }

  /** `usage.get(key)`, with the empty list for a key not yet seen. */
  function LocationsOf(usage: Usage, key: string): seq<Location> {
    if |usage| == 0 then []
    else if usage[0].0 == key then usage[0].1
    else LocationsOf(usage[1..], key)
  }

  /** `locations.push(location); usage.set(key, locations)`: an existing key keeps
      its place, a new key goes last. */
  function AddUsage(usage: Usage, key: string, location: Location): (r: Usage)
    ensures KeysOfUsage(r) == if key in KeysOfUsage(usage) then KeysOfUsage(usage) else KeysOfUsage(usage) + [key]
  {
    if |usage| == 0 then [(key, [location])]
    else if usage[0].0 == key then [(key, usage[0].1 + [location])] + usage[1..]
    else [usage[0]] + AddUsage(usage[1..], key, location)
  }

  /** Recording a use adds the location to that key's list, after the earlier
      ones, and leaves every other key's list alone; the key is listed. */
  lemma {:induction false} AddUsageLocations(usage: Usage, key: string, location: Location, other: string)
    ensures LocationsOf(AddUsage(usage, key, location), key) == LocationsOf(usage, key) + [location]
    ensures other != key ==> LocationsOf(AddUsage(usage, key, location), other) == LocationsOf(usage, other)
    ensures key in KeysOfUsage(AddUsage(usage, key, location))
  {
    if |usage| > 0 && usage[0].0 != key {
      AddUsageLocations(usage[1..], key, location, other);
      assert AddUsage(usage, key, location)[1..] == AddUsage(usage[1..], key, location);
      assert KeysOfUsage(AddUsage(usage, key, location))[1..] == KeysOfUsage(AddUsage(usage[1..], key, location));
    }
  }

  // ------------------------------------------------------- key lookup

  /** Following `segments` from `current`: each must be an own property of an
      object or array reached so far. */
  function Resolve(current: Json, segments: seq<string>): (r: Option<Json>)
    ensures |segments| == 0 ==> r == Some(current)
    ensures |segments| > 0 && !IsObject(current) ==> r.None?
    ensures |segments| == 1 ==> r == Get(current, segments[0])
    decreases |segments|
  {
    if |segments| == 0 then Some(current)
    else if IsObject(current) && Get(current, segments[0]).Some? then
      Resolve(Get(current, segments[0]).value, segments[1..])
    else None
  }

  /** Following a path in two parts is following the first part, then the
      second from where it ends. */
  lemma {:induction false} ResolveConcat(current: Json, a: seq<string>, b: seq<string>)
    ensures Resolve(current, a + b) == match Resolve(current, a) case None => None case Some(x) => Resolve(x, b)
    decreases |a|
  {
    if |a| > 0 {
      assert (a + b)[0] == a[0] && (a + b)[1..] == a[1..] + b;
      if IsObject(current) && Get(current, a[0]).Some? {
        ResolveConcat(Get(current, a[0]).value, a[1..], b);
      }
    } else {
      assert a + b == b;
    }
  }

  /** `hasTranslationKey(translations, keyPath)`. The final `!== undefined` always
      holds of a parsed JSON value, so the key is found exactly when the path
      resolves. */
  method HasTranslationKey(translations: Json, keyPath: string) returns (found: bool)
    ensures found <==> Resolve(translations, Split(keyPath, ".")).Some?
  {
    var segments := Split(keyPath, ".");
    var current := translations;
    for i := 0 to |segments|
      invariant Resolve(translations, segments) == Resolve(current, segments[i..])
    {
      var segment := segments[i];
      assert segments[i..][1..] == segments[i + 1..];
      if IsObject(current) && Get(current, segment).Some? {
        current := Get(current, segment).value;
      } else {
        return false;
      }
    }
    found := true;
  }

  predicate HasKey(translations: Json, keyPath: string) {
    Resolve(translations, Split(keyPath, ".")).Some?
  }

  lemma DotFree(s: string)
    requires '.' !in s
    ensures !Contains(s, ".")
  {
    forall p: nat | p + 1 <= |s|
      ensures !OccursAt(s, ".", p)
    {
      assert s[p..p + 1][0] == s[p];
    }
  }

  /** Splitting dot-free segments joined with dots gives the segments back. */
  lemma {:induction false} SplitJoined(segments: seq<string>)
    requires |segments| >= 1
    requires forall k :: 0 <= k < |segments| ==> '.' !in segments[k]
    ensures Split(Join(segments, "."), ".") == segments
  {
    var a := segments[0];
    DotFree(a);
    if |segments| > 1 {
      var rest := segments[1..];
      var s := Join(segments, ".");
      assert s == a + "." + Join(rest, ".");
      assert s[|a|..|a| + 1] == ".";
      forall j: nat | j < |a|
        ensures !OccursAt(s, ".", j)
      {
        assert s[j] == a[j];
        assert s[j..j + 1][0] == s[j];
      }
      FirstOccurrence(s, ".", |a|);
      SplitAtFirst(s, ".", |a|);
      assert s[..|a|] == a && s[|a| + 1..] == Join(rest, ".");
      SplitJoined(rest);
      assert segments == [a] + rest;
    }
  }

  /** A dotted key names the value reached by following its segments. */
  lemma DottedKeyResolves(translations: Json, segments: seq<string>)
    requires |segments| >= 1
    requires forall k :: 0 <= k < |segments| ==> '.' !in segments[k]
    ensures HasKey(translations, Join(segments, ".")) <==> Resolve(translations, segments).Some?
  {
    SplitJoined(segments);
  }

  /** A key without a dot is found in an object exactly when it is one of its keys. */
  lemma TopLevelKey(es: seq<(string, Json)>, a: string)
    requires '.' !in a
    ensures HasKey(Obj(es), a) <==> a in KeysOf(es)
  {
    SplitJoined([a]);
    assert Join([a], ".") == a;
    assert Split(a, ".") == [a];
    LookupKeys(es, a);
    assert [a][1..] == [];
    assert Resolve(Obj(es), [a]).Some? <==> Lookup(es, a).Some?;
  }

  /** An object's child `b` under key `a` makes the key `a.b` found. */
  lemma NestedKey(es: seq<(string, Json)>, a: string, b: string)
    requires '.' !in a && '.' !in b
    requires Lookup(es, a).Some? && IsObject(Lookup(es, a).value) && Get(Lookup(es, a).value, b).Some?
    ensures HasKey(Obj(es), a + "." + b)
  {
    SplitJoined([a, b]);
    assert Join([a, b], ".") == a + "." + b;
    var child := Lookup(es, a).value;
    assert Split(a + "." + b, ".") == [a, b];
    assert [a, b][1..] == [b] && [b][1..] == [];
    assert Resolve(Obj(es), [a, b]) == Resolve(child, [b]);
    assert Resolve(child, [b]) == Some(Get(child, b).value);
  }

  // ------------------------------------------------------ missing keys

  /** One line of the missing-key report. */
  function MissingLine(location: Location, key: string): string {
    location.file + ":" + NatToString(location.line) + ":" + NatToString(location.column)
      + " — Missing key \"" + key + "\""
  }

  function LinesFor(key: string, locations: seq<Location>): (r: seq<string>)
    ensures |r| == |locations| && forall k :: 0 <= k < |locations| ==> r[k] == MissingLine(locations[k], key)
  {
    seq(|locations|, k requires 0 <= k < |locations| => MissingLine(locations[k], key))
  }

  /** The report after the first `n` keys of the usage map. */
  function MissingUpTo(usage: Usage, translations: Json, n: nat): seq<string>
    requires n <= |usage|
  {
    if n == 0 then []
    else if HasKey(translations, usage[n - 1].0) then MissingUpTo(usage, translations, n - 1)
    else MissingUpTo(usage, translations, n - 1) + LinesFor(usage[n - 1].0, usage[n - 1].1)
  }

  /** The inner loop of the report: one line per location, in order. */
  method ReportLocations(key: string, locations: seq<Location>) returns (lines: seq<string>)
    ensures lines == LinesFor(key, locations)
  {
    lines := [];
    for k := 0 to |locations|
      invariant lines == LinesFor(key, locations[..k])
    {
      assert LinesFor(key, locations[..k + 1]) == LinesFor(key, locations[..k]) + [MissingLine(locations[k], key)];
      lines := lines + [MissingLine(locations[k], key)];
    }
    assert locations[..|locations|] == locations;
  }

  /** The test's second case: one line per location of every used key the English
      tree does not have. */
  method MissingKeys(usage: Usage, translations: Json) returns (missing: seq<string>)
    ensures missing == MissingUpTo(usage, translations, |usage|)
  {
    missing := [];
    for i := 0 to |usage|
      invariant missing == MissingUpTo(usage, translations, i)
    {
      var key := usage[i].0;
      var locations := usage[i].1;
      var present := HasTranslationKey(translations, key);
      if !present {
        var lines := ReportLocations(key, locations);
        missing := missing + lines;
      }
    }
  }

  /** Location `k` of the `i`-th used key, a key the tree lacks. */
  predicate MissingAt(usage: Usage, translations: Json, i: int, k: int) {
    0 <= i < |usage| && 0 <= k < |usage[i].1| && !HasKey(translations, usage[i].0)
  }

  /** Every line of the report is a location of a key the tree lacks, and every
      location of such a key has its line. */
  lemma {:induction false} MissingExactly(usage: Usage, translations: Json, n: nat)
    requires n <= |usage|
    ensures forall line :: line in MissingUpTo(usage, translations, n) ==>
      exists i, k :: i < n && MissingAt(usage, translations, i, k) && line == MissingLine(usage[i].1[k], usage[i].0)
    ensures forall i, k :: i < n && MissingAt(usage, translations, i, k) ==>
      MissingLine(usage[i].1[k], usage[i].0) in MissingUpTo(usage, translations, n)
  {
    if n > 0 {
      MissingExactly(usage, translations, n - 1);
      var before := MissingUpTo(usage, translations, n - 1);
      var lines := LinesFor(usage[n - 1].0, usage[n - 1].1);
      forall line | line in MissingUpTo(usage, translations, n)
        ensures exists i, k :: i < n && MissingAt(usage, translations, i, k) && line == MissingLine(usage[i].1[k], usage[i].0)
      {
        if line !in before {
          assert line in lines;
          var k :| 0 <= k < |lines| && lines[k] == line;
          assert line == MissingLine(usage[n - 1].1[k], usage[n - 1].0) && MissingAt(usage, translations, n - 1, k);
        }
      }
      forall i, k | i < n && MissingAt(usage, translations, i, k)
        ensures MissingLine(usage[i].1[k], usage[i].0) in MissingUpTo(usage, translations, n)
      {
        if i == n - 1 {
          assert lines[k] == MissingLine(usage[i].1[k], usage[i].0);
        }
      }
    }
  }

  /** The report is empty exactly when every key used somewhere is defined. */
  lemma NoMissingIff(usage: Usage, translations: Json)
    ensures MissingUpTo(usage, translations, |usage|) == [] <==>
      forall i :: 0 <= i < |usage| && |usage[i].1| > 0 ==> HasKey(translations, usage[i].0)
  {
    MissingExactly(usage, translations, |usage|);
    var report := MissingUpTo(usage, translations, |usage|);
    if report != [] {
      assert report[0] in report;
    }
    if exists i :: 0 <= i < |usage| && |usage[i].1| > 0 && !HasKey(translations, usage[i].0) {
      var i :| 0 <= i < |usage| && |usage[i].1| > 0 && !HasKey(translations, usage[i].0);
      assert MissingAt(usage, translations, i, 0);
      assert MissingLine(usage[i].1[0], usage[i].0) in report;
    }
  }

  // ------------------------------------------------------ source files

  /** What `readdirSync(dir, { withFileTypes: true })` lists. */
  datatype DirEntry =
    | FileEntry(name: string)
    | DirectoryEntry(name: string, entries: seq<DirEntry>)
    | OtherEntry(name: string)

  /** `path.join(dir, name)` for a plain entry name. */
  function JoinPath(dir: string, name: string): string {
    dir + "/" + name
  }

  predicate IsSkippedDirectory(name: string) {
    name == "locales" || name == "assets"
  }

  /** A file the test parses: `.ts` or `.tsx`, but not a `.d.ts` declaration file. */
  predicate IsSourceFile(fullPath: string) {
    !EndsWith(fullPath, ".d.ts") && (EndsWith(fullPath, ".ts") || EndsWith(fullPath, ".tsx"))
  }

  /** The source files under the entries of `dir`. */
  function SourcesIn(dir: string, entries: seq<DirEntry>): seq<string>
    decreases entries
  {
    if |entries| == 0 then [] else SourcesOf(dir, entries[0]) + SourcesIn(dir, entries[1..])
  }

  function SourcesOf(dir: string, entry: DirEntry): seq<string>
    decreases entry
  {
    match entry
    case FileEntry(name) => if IsSourceFile(JoinPath(dir, name)) then [JoinPath(dir, name)] else []
    case DirectoryEntry(name, children) =>
      if IsSkippedDirectory(name) then [] else SourcesIn(JoinPath(dir, name), children)
    case OtherEntry(_) => []
  }

  /** Every listed path is a source file: none ends in `.d.ts`, each ends in `.ts`
      or `.tsx`. */
  lemma {:induction false} SourcesAreSourceFiles(dir: string, entries: seq<DirEntry>)
    ensures forall p :: p in SourcesIn(dir, entries) ==> IsSourceFile(p)
    decreases entries
  {
    if |entries| > 0 {
      SourcesOfAreSourceFiles(dir, entries[0]);
      SourcesAreSourceFiles(dir, entries[1..]);
    }
  }

  lemma {:induction false} SourcesOfAreSourceFiles(dir: string, entry: DirEntry)
    ensures forall p :: p in SourcesOf(dir, entry) ==> IsSourceFile(p)
    decreases entry
  {
    if entry.DirectoryEntry? && !IsSkippedDirectory(entry.name) {
      SourcesAreSourceFiles(JoinPath(dir, entry.name), entry.entries);
    }
  }

  /** Nothing under a `locales` or `assets` directory is listed. */
  lemma SkippedDirectoriesUnlisted(dir: string, name: string, children: seq<DirEntry>)
    requires IsSkippedDirectory(name)
    ensures SourcesOf(dir, DirectoryEntry(name, children)) == []
  {
  }

  function EntrySize(entry: DirEntry): nat
    decreases entry
  {
    match entry
    case DirectoryEntry(_, children) => 1 + EntriesSize(children)
    case _ => 1
  }

  function EntriesSize(entries: seq<DirEntry>): nat
    decreases entries
  {
    if |entries| == 0 then 0 else EntrySize(entries[0]) + EntriesSize(entries[1..])
  }

  /** The directories still on the stack, each with the entries it lists. */
  type Stack = seq<(string, seq<DirEntry>)>

  function StackSize(stack: Stack): nat {
    if |stack| == 0 then 0 else StackSize(stack[..|stack| - 1]) + 1 + EntriesSize(stack[|stack| - 1].1)
  }

  /** The source files still to be found under what is on the stack. */
  function Pending(stack: Stack): multiset<string> {
    if |stack| == 0 then multiset{}
    else Pending(stack[..|stack| - 1]) + multiset(SourcesIn(stack[|stack| - 1].0, stack[|stack| - 1].1))
  }

  lemma PushPending(stack: Stack, item: (string, seq<DirEntry>))
    ensures Pending(stack + [item]) == Pending(stack) + multiset(SourcesIn(item.0, item.1))
    ensures StackSize(stack + [item]) == StackSize(stack) + 1 + EntriesSize(item.1)
  {
    assert (stack + [item])[..|stack|] == stack;
  }

  /** What entry `j` contributes, case by case, and its share of the size. */
  lemma EntryStep(dir: string, entries: seq<DirEntry>, j: nat)
    requires j < |entries|
    ensures var entry := entries[j]; var tail := multiset(SourcesIn(dir, entries[j + 1..]));
      && (entry.DirectoryEntry? && !IsSkippedDirectory(entry.name) ==>
            multiset(SourcesIn(dir, entries[j..])) == multiset(SourcesIn(JoinPath(dir, entry.name), entry.entries)) + tail)
      && (entry.DirectoryEntry? && IsSkippedDirectory(entry.name) ==> multiset(SourcesIn(dir, entries[j..])) == tail)
      && (entry.FileEntry? && IsSourceFile(JoinPath(dir, entry.name)) ==>
            multiset(SourcesIn(dir, entries[j..])) == multiset{JoinPath(dir, entry.name)} + tail)
      && (entry.FileEntry? && !IsSourceFile(JoinPath(dir, entry.name)) ==> multiset(SourcesIn(dir, entries[j..])) == tail)
      && (entry.OtherEntry? ==> multiset(SourcesIn(dir, entries[j..])) == tail)
    ensures EntriesSize(entries[j..]) == EntrySize(entries[j]) + EntriesSize(entries[j + 1..])
    ensures entries[j].DirectoryEntry? ==> EntrySize(entries[j]) == 1 + EntriesSize(entries[j].entries)
  {
    assert entries[j..][1..] == entries[j + 1..];
  }

  /** One pass of the inner loop of `getSourceFiles`: the entries of `dir` are
      looked at in order; the source files among them are listed, and every
      directory but `locales` and `assets` is pushed for later. */
  method ScanDirectory(dir: string, entries: seq<DirEntry>, files: seq<string>, stack: Stack)
    returns (files': seq<string>, stack': Stack)
    ensures multiset(files') + Pending(stack') == multiset(files) + Pending(stack) + multiset(SourcesIn(dir, entries))
    ensures StackSize(stack') <= StackSize(stack) + EntriesSize(entries)
  {
    files', stack' := files, stack;
    assert entries[0..] == entries;
    for j := 0 to |entries|
      invariant multiset(files') + Pending(stack') + multiset(SourcesIn(dir, entries[j..]))
        == multiset(files) + Pending(stack) + multiset(SourcesIn(dir, entries))
      invariant StackSize(stack') + EntriesSize(entries[j..]) <= StackSize(stack) + EntriesSize(entries)
    {
      var entry := entries[j];
      EntryStep(dir, entries, j);
      var fullPath := JoinPath(dir, entry.name);
      if entry.DirectoryEntry? {
        if !IsSkippedDirectory(entry.name) {
          PushPending(stack', (fullPath, entry.entries));
          stack' := stack' + [(fullPath, entry.entries)];
        }
      } else if entry.FileEntry? {
        if !EndsWith(fullPath, ".d.ts") && (EndsWith(fullPath, ".ts") || EndsWith(fullPath, ".tsx")) {
          files' := files' + [fullPath];
        }
      }
    }
  }

  /** `getSourceFiles`: a depth-first walk with an explicit stack, starting at the
      source directory, that lists every source file under it once. */
  method GetSourceFiles(srcDir: string, root: seq<DirEntry>) returns (files: seq<string>)
    ensures multiset(files) == multiset(SourcesIn(srcDir, root))
  {
    files := [];
    var stack: Stack := [(srcDir, root)];
    assert stack == [] + [(srcDir, root)];
    PushPending([], (srcDir, root));
    while |stack| > 0
      invariant multiset(files) + Pending(stack) == multiset(SourcesIn(srcDir, root))
      decreases StackSize(stack)
    {
      var current := stack[|stack| - 1];
      stack := stack[..|stack| - 1];
      files, stack := ScanDirectory(current.0, current.1, files, stack);
    }
  }
}
