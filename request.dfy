/** The request-side helpers of http/request.go: the header and field maps of
    a `Request` and the rule-based `Validate`.

    Request bodies are decoded JSON, so a value is one of the types
    `encoding/json` produces when decoding into `any`. */
module Requests {
  import opened Types
  import opened Strings
  import Matching

  datatype Value =
    | Null
    | Str(s: string)
    | Num(x: real)
    | Bool(b: bool)
    | List(items: seq<Value>)
    | Object(fields: map<string, Value>)

  /** The dynamic type Go names in a failed type assertion. */
  function TypeName(v: Value): string {
    match v
    case Null => "nil"
    case Str(_) => "string"
    case Num(_) => "float64"
    case Bool(_) => "bool"
    case List(_) => "[]interface {}"
    case Object(_) => "map[string]interface {}"
  }

  /** The panic of a failed `x.(T)` on an `interface {}` holding `v`. */
  function ConversionPanic(v: Value, target: string): string {
    "interface conversion: interface {} is " + TypeName(v) + ", not " + target
  }

  // ---------------------------------------------------------------------
  // The shapes the validation expressions accept

  predicate IsDigit(c: char) {
    '0' <= c <= '9'
  }

  predicate IsAsciiLetter(c: char) {
    ('a' <= c <= 'z') || ('A' <= c <= 'Z')
  }

  /** A character of `[a-zA-Z0-9._%+-]`. */
  predicate IsLocalChar(c: char) {
    IsAsciiLetter(c) || IsDigit(c) || c == '.' || c == '_' || c == '%' || c == '+' || c == '-'
  }

  /** A character of `[a-zA-Z0-9.-]`. */
  predicate IsDomainChar(c: char) {
    IsAsciiLetter(c) || IsDigit(c) || c == '.' || c == '-'
  }

  predicate DigitsAt(s: string, i: nat, n: nat)
    requires i + n <= |s|
  {
    forall k :: i <= k < i + n ==> IsDigit(s[k])
  }

  /** `^\d{4}-\d{2}-\d{2}$`. */
  predicate DateShape(s: string) {
    |s| == 10 && DigitsAt(s, 0, 4) && s[4] == '-' && DigitsAt(s, 5, 2) && s[7] == '-' && DigitsAt(s, 8, 2)
  }

  /** `^\d{2}:\d{2}:\d{2}$`. */
  predicate TimeShape(s: string) {
    |s| == 8 && DigitsAt(s, 0, 2) && s[2] == ':' && DigitsAt(s, 3, 2) && s[5] == ':' && DigitsAt(s, 6, 2)
  }

  /** `^\d{4}-\d{2}-\d{2}T\d{2}:\d{2}:\d{2}$`. */
  predicate DatetimeShape(s: string) {
    |s| == 19 && DateShape(s[..10]) && s[10] == 'T' && TimeShape(s[11..])
  }

  /** `^[a-zA-Z0-9._%+-]+@[a-zA-Z0-9.-]+\.[a-zA-Z]{2,}$`: a non-empty local
      part, an `@`, a non-empty domain, a dot and at least two letters. */
  predicate EmailShape(s: string) {
    exists at, dot :: 0 < at && at + 1 < dot && dot + 2 < |s| && s[at] == '@' && s[dot] == '.'
      && (forall k :: 0 <= k < at ==> IsLocalChar(s[k]))
      && (forall k :: at < k < dot ==> IsDomainChar(s[k]))
      && (forall k :: dot < k < |s| ==> IsAsciiLetter(s[k]))
  }

  /** What follows the scheme in `^(http|https)://[^\s/$.?#].[^\s]*$`: a first
      character that is no space and none of `/$.?#`, a second that is no
      newline, then no space at all. */
  predicate UrlRest(t: string) {
    |t| >= 2
    && !Matching.IsRegexSpace(t[0]) && t[0] !in "/$.?#"
    && t[1] != '\n'
    && forall k :: 2 <= k < |t| ==> !Matching.IsRegexSpace(t[k])
  }

  predicate UrlShape(s: string) {
    (|s| >= 7 && s[..7] == "http://" && UrlRest(s[7..]))
    || (|s| >= 8 && s[..8] == "https://" && UrlRest(s[8..]))
  }

  // ---------------------------------------------------------------------
  // One rule applied to one value

  /** The test every rule starts with: the key is missing, the value is
      `null`, or it is the empty string. A missing key is read as `Null`. */
  predicate Blank(v: Value) {
    v == Null || v == Str("")
  }

  /** Two writes to `errors[key]` in a row: the later one wins. */
  function Then(first: Option<string>, second: Option<string>): Option<string> {
    if second.Some? then second else first
  }

  function FailIf(c: bool, message: string): Option<string> {
    if c then Some(message) else None
  }

  /** The check of a textual rule: the blank test, then the type test, then
      the shape test, each overwriting the message of the one before. */
  function ShapeRule(v: Value, shape: bool, typeMessage: string, shapeMessage: string): Option<string> {
    Then(FailIf(Blank(v), typeMessage),
         if !v.Str? then Some(typeMessage) else FailIf(!shape, shapeMessage))
  }

  const KnownRules: set<string> :=
    {"required", "string", "integer", "number", "int", "boolean", "array",
     "date", "email", "datetime", "time", "url", "max", "min"}

  /** The message one rule of the `switch` writes for `key`, if any. Only the
      final write of a case is visible, so each case reduces to the single
      test stated below; the blank test ahead of a type test is subsumed by
      it everywhere except for `string`. */
  function RuleMessage(key: string, rule: string, v: Value): (m: Option<string>)
    ensures rule == "required" ==> m == FailIf(Blank(v), "The" + key + " is required")
    ensures rule == "string" ==> m == FailIf(!(v.Str? && v.s != ""), "The " + key + " must be a string")
    ensures rule == "integer" || rule == "number" ==> m == None
    ensures rule == "int" ==> m == FailIf(!v.Num?, "The " + key + " must be a number")
    ensures rule == "boolean" ==> m == FailIf(!v.Bool?, "The " + key + " must be a boolean")
    ensures rule == "array" ==> m == FailIf(!v.List?, "The " + key + " must be an array")
    ensures rule == "date" ==> (m.None? <==> v.Str? && DateShape(v.s))
    ensures rule == "time" ==> (m.None? <==> v.Str? && TimeShape(v.s))
    ensures rule == "datetime" ==> (m.None? <==> v.Str? && DatetimeShape(v.s))
    ensures rule == "email" ==> (m.None? <==> v.Str? && EmailShape(v.s))
    ensures rule == "url" ==> (m.None? <==> v.Str? && UrlShape(v.s))
    ensures rule == "date" && !v.Str? ==> m == Some("The " + key + " must be a date")
    ensures rule == "date" && v.Str? && !DateShape(v.s) ==>
      m == Some("The " + key + " must be a valid date in YYYY-MM-DD format")
    ensures rule == "max" ==> m == FailIf(Blank(v), "The " + key + " must be a max")
    ensures rule == "min" ==> m == FailIf(Blank(v), "The " + key + " must be a min")
    ensures rule !in KnownRules ==> m.Some?
    ensures rule !in KnownRules && Blank(v) ==> m == Some("The " + key + " is not a valid rule")
    ensures rule !in KnownRules && !Blank(v) ==> m == Some("The " + key + " has an unknown validation rule: " + rule)
  {
    if rule == "required" then FailIf(Blank(v), "The" + key + " is required")
    else if rule == "string" then
      if Blank(v) then Some("The " + key + " must be a string")
      else FailIf(!v.Str?, "The " + key + " must be a string")
    else if rule == "integer" || rule == "number" then None
    else if rule == "int" then
      if Blank(v) then Some("The " + key + " must be a number")
      else FailIf(!v.Num?, "The " + key + " must be a number")
    else if rule == "boolean" then
      if Blank(v) then Some("The " + key + " must be a boolean")
      else FailIf(!v.Bool?, "The " + key + " must be a boolean")
    else if rule == "array" then
      Then(FailIf(Blank(v), "The " + key + " must be an array"), FailIf(!v.List?, "The " + key + " must be an array"))
    else if rule == "date" then
      ShapeRule(v, v.Str? && DateShape(v.s), "The " + key + " must be a date",
                "The " + key + " must be a valid date in YYYY-MM-DD format")
    else if rule == "email" then
      ShapeRule(v, v.Str? && EmailShape(v.s), "The " + key + " must be an email",
                "The " + key + " must be a valid email address")
    else if rule == "datetime" then
      ShapeRule(v, v.Str? && DatetimeShape(v.s), "The " + key + " must be a datetime",
                "The " + key + " must be a valid datetime in YYYY-MM-DDTHH:MM:SS format")
    else if rule == "time" then
      ShapeRule(v, v.Str? && TimeShape(v.s), "The " + key + " must be a time",
                "The " + key + " must be a valid time in HH:MM:SS format")
    else if rule == "url" then
      ShapeRule(v, v.Str? && UrlShape(v.s), "The " + key + " must be a url",
                "The " + key + " must be a valid url")
    else if rule == "max" then FailIf(Blank(v), "The " + key + " must be a max")
    else if rule == "min" then FailIf(Blank(v), "The " + key + " must be a min")
    else if Blank(v) then Some("The " + key + " is not a valid rule")
    else Some("The " + key + " has an unknown validation rule: " + rule)
  }

  // ---------------------------------------------------------------------
  // All rules of one key, all keys of the data

  /** The message left behind by a sequence of writes to one entry, where a
      `None` leaves the entry alone: the last `Some`. */
  function LastWrite(ms: seq<Option<string>>): Option<string>
    decreases |ms|
  {
    if |ms| == 0 then None else Then(LastWrite(ms[..|ms| - 1]), ms[|ms| - 1])
  }

  /** One more write on top of a prefix. */
  lemma LastWriteStep(ms: seq<Option<string>>, i: nat)
    requires i < |ms|
    ensures LastWrite(ms[..i + 1]) == Then(LastWrite(ms[..i]), ms[i])
  {
    assert ms[..i + 1][..i] == ms[..i];
  }

  /** An entry is written exactly when some write is a `Some`, and what is
      left is the last of them. */
  lemma {:induction false} LastWriteWins(ms: seq<Option<string>>)
    decreases |ms|
    ensures LastWrite(ms).Some? <==> exists j :: 0 <= j < |ms| && ms[j].Some?
    ensures LastWrite(ms).Some? ==>
      exists j :: 0 <= j < |ms| && LastWrite(ms) == ms[j] && forall k :: j < k < |ms| ==> ms[k].None?
  {
    if |ms| > 0 {
      var n := |ms| - 1;
      var init := ms[..n];
      LastWriteWins(init);
      assert LastWrite(ms) == Then(LastWrite(init), ms[n]);
      if ms[n].Some? {
        assert LastWrite(ms) == ms[n];
      } else {
        assert LastWrite(ms) == LastWrite(init);
        if LastWrite(init).Some? {
          var j :| 0 <= j < n && LastWrite(init) == init[j] && forall k :: j < k < n ==> init[k].None?;
          assert init[j] == ms[j];
          assert forall k :: j < k < |ms| ==> ms[k].None? by {
            assert forall k :: j < k < n ==> init[k] == ms[k];
          }
        } else {
          assert forall j :: 0 <= j < n ==> init[j] == ms[j];
        }
      }
    }
  }

  /** What each rule of a key writes, in order. */
  function Messages(key: string, rules: seq<string>, v: Value): (ms: seq<Option<string>>)
    ensures |ms| == |rules|
  {
    seq(|rules|, j requires 0 <= j < |rules| => RuleMessage(key, rules[j], v))
  }

  /** The message left in `errors[key]` after the rules have run in order. */
  function KeyError(key: string, rules: seq<string>, v: Value): Option<string> {
    LastWrite(Messages(key, rules, v))
  }

  /** A rule written with a parameter, like `max:255` or `unique:posts`, is
      not one the `switch` knows, so a key carrying one is always reported,
      whatever its value. */
  lemma ParameterisedRuleAlwaysFails(key: string, rules: seq<string>, v: Value, j: nat)
    requires j < |rules| && ':' in rules[j]
    ensures KeyError(key, rules, v).Some?
  {
    assert rules[j] !in KnownRules;
    assert Messages(key, rules, v)[j].Some?;
    LastWriteWins(Messages(key, rules, v));
  }

  /** A rule text that ends with `|` ends with the empty rule, which is
      unknown; being last, its message is the one reported. */
  lemma TrailingBarReported(key: string, text: string, v: Value)
    requires text != "" && text[|text| - 1] == '|'
    ensures KeyError(key, Split(text, '|'), v)
      == Some(if Blank(v) then "The " + key + " is not a valid rule"
              else "The " + key + " has an unknown validation rule: ")
  {
    var init := SplitEndsEmpty(text, '|');
    EmptyRuleUnknown(key, v);
    LastRuleDecides(key, init, "", v);
  }

  lemma SplitEndsEmpty(text: string, sep: char) returns (init: seq<string>)
    requires text != "" && text[|text| - 1] == sep
    ensures Split(text, sep) == init + [""]
  {
    SplitLastPiece(text, sep);
    var rules := Split(text, sep);
    init := rules[..|rules| - 1];
    assert rules == init + [rules[|rules| - 1]];
  }

  /** When the last rule writes a message, that message is the one left. */
  lemma LastRuleDecides(key: string, init: seq<string>, last: string, v: Value)
    requires RuleMessage(key, last, v).Some?
    ensures KeyError(key, init + [last], v) == RuleMessage(key, last, v)
  {
    var ms := Messages(key, init + [last], v);
    assert ms[|ms| - 1] == RuleMessage(key, last, v);
  }

  lemma EmptyRuleUnknown(key: string, v: Value)
    ensures RuleMessage(key, "", v)
      == Some(if Blank(v) then "The " + key + " is not a valid rule"
              else "The " + key + " has an unknown validation rule: ")
  {
    assert "" !in KnownRules;
    assert "The " + key + " has an unknown validation rule: " + "" == "The " + key + " has an unknown validation rule: ";
  }

  /** The date rule checks the shape only: an impossible month and day pass. */
  lemma DateRuleIsShapeOnly(key: string)
    ensures RuleMessage(key, "date", Str("2024-13-45")) == None
  {
    assert DateShape("2024-13-45");
  }

  /** The URL rule wants at least two characters after the scheme. */
  lemma UrlNeedsTwoHostCharacters()
    ensures !UrlShape("http://a") && UrlShape("http://ab")
  {
    assert "http://a"[..7] == "http://" && "http://a"[7..] == "a";
    assert "http://ab"[..7] == "http://" && "http://ab"[7..] == "ab";
  }

  /** The e-mail rule wants a dot followed by at least two letters. */
  lemma EmailNeedsTopLevelDomain()
    ensures EmailShape("a@b.co") && !EmailShape("a@b.c")
  {
    var s := "a@b.co";
    assert s[1] == '@' && s[3] == '.';
    assert forall k :: 3 < k < |s| ==> IsAsciiLetter(s[k]);
  }

  /** The value a rule sees for `key`; a missing key reads as `nil`. */
  function ValueAt(attrs: map<string, Value>, key: string): Value {
    if key in attrs then attrs[key] else Null
  }

  /** The key's rules: its rule text split at `|`. */
  function RulesOf(data: map<string, string>, key: string): seq<string>
    requires key in data
  {
    Split(data[key], '|')
  }

  /** The message reported for a key of `data`, if any. */
  function KeyResult(data: map<string, string>, attrs: map<string, Value>, key: string): Option<string>
    requires key in data
  {
    KeyError(key, RulesOf(data, key), ValueAt(attrs, key))
  }

  /** The map `Validate` returns for well-formed inputs: one entry per key of
      `data` with a failing rule. */
  function Errors(data: map<string, string>, attrs: map<string, Value>): (r: map<string, string>)
    ensures r.Keys <= data.Keys
    ensures forall key :: key in data ==> (key in r <==> KeyResult(data, attrs, key).Some?)
    ensures forall key :: key in r ==> r[key] == KeyResult(data, attrs, key).value
  {
    map key | key in data && KeyResult(data, attrs, key).Some? :: KeyResult(data, attrs, key).value
  }

  /** A key missing from `data` is never reported, whatever the body holds,
      and a key of `data` is reported exactly when one of its rules fails. */
  lemma ErrorsReportFailingRules(data: map<string, string>, attrs: map<string, Value>, key: string)
    ensures key !in data ==> key !in Errors(data, attrs)
    ensures key in data ==> (key in Errors(data, attrs) <==>
      exists j :: 0 <= j < |RulesOf(data, key)| && Messages(key, RulesOf(data, key), ValueAt(attrs, key))[j].Some?)
  {
    if key in data {
      LastWriteWins(Messages(key, RulesOf(data, key), ValueAt(attrs, key)));
    }
  }

  /** A map with the entry for `key` written when there is a message. */
  function Record(m: map<string, string>, key: string, message: Option<string>): map<string, string> {
    if message.Some? then m[key := message.value] else m
  }

  /** A map that agrees with the error map key by key is the error map. */
  lemma ErrorsExtensional(errors: map<string, string>, data: map<string, string>, attrs: map<string, Value>)
    requires errors.Keys <= data.Keys
    requires forall key :: key in data ==> (key in errors <==> KeyResult(data, attrs, key).Some?)
    requires forall key :: key in errors ==> errors[key] == KeyResult(data, attrs, key).value
    ensures errors == Errors(data, attrs)
  {
    assert errors.Keys == Errors(data, attrs).Keys;
  }

  const NilData := "Validation data cannot be nil"
  const NilBody := "Request body cannot be nil"

  class Request {
    var headers: map<string, string>
    var additionalFields: map<string, Value>

    constructor (headers: map<string, string>)
      ensures this.headers == headers && additionalFields == map[]
    {
      this.headers := headers;
      additionalFields := map[];
    }

    /** `GetHeader`: a header never set reads as the empty string. */
    function GetHeader(key: string): (v: string)
      reads this
      ensures key in headers ==> v == headers[key]
      ensures key !in headers ==> v == ""
    {
      if key in headers then headers[key] else ""
    }

    /** `AddHeader`: the value must hold a string, or the type assertion
        panics before anything changes. */
    method AddHeader(key: string, value: Value) returns (o: Outcome)
      modifies this
      ensures value.Str? ==> o == Done && headers == old(headers)[key := value.s]
      ensures value.Str? ==> GetHeader(key) == value.s
      ensures !value.Str? ==> o == Panicked(ConversionPanic(value, "string")) && headers == old(headers)
      ensures forall k :: k != key ==> GetHeader(k) == old(GetHeader(k))
      ensures additionalFields == old(additionalFields)
    {
      if !value.Str? {
        return Panicked(ConversionPanic(value, "string"));
      }
      headers := headers[key := value.s];
      return Done;
    }

    /** `AddField`: any value is stored under the key. */
    method AddField(key: string, value: Value)
      modifies this
      ensures additionalFields == old(additionalFields)[key := value]
      ensures headers == old(headers)
    {
      additionalFields := additionalFields[key := value];
    }

    /** `Validate(data, attributes)`: the two nil checks, the conversion of
        the body to a map, then every rule of every key. */
    method Validate(data: Option<map<string, string>>, attributes: Value) returns (r: Result<map<string, string>>)
      ensures data.None? ==> r == Panic(NilData)
      ensures data.Some? && attributes.Null? ==> r == Panic(NilBody)
      ensures data.Some? && !attributes.Null? && !attributes.Object? ==>
        r == Panic(ConversionPanic(attributes, "map[string]interface {}"))
      ensures data.Some? && attributes.Object? ==> r == Ok(Errors(data.value, attributes.fields))
    {
      if data.None? {
        return Panic(NilData);
      }
      if attributes.Null? {
        return Panic(NilBody);
      }
      if !attributes.Object? {
        return Panic(ConversionPanic(attributes, "map[string]interface {}"));
      }
      var errors := ValidateAll(data.value, attributes.fields);
      return Ok(errors);
    }

    /** The outer loop, over the keys of `data` in any order. */
    method ValidateAll(data: map<string, string>, attrs: map<string, Value>) returns (errors: map<string, string>)
      ensures errors == Errors(data, attrs)
    {
      errors := map[];
      var todo := data.Keys;
      while todo != {}
        invariant todo <= data.Keys
        invariant errors.Keys <= data.Keys - todo
        invariant forall key :: key in data && key !in todo ==> (key in errors <==> KeyResult(data, attrs, key).Some?)
        invariant forall key :: key in errors ==> errors[key] == KeyResult(data, attrs, key).value
        decreases todo
      {
        var key :| key in todo;
        ghost var result := KeyResult(data, attrs, key);
        ghost var prev := errors;
        errors := ValidateKey(errors, key, RulesOf(data, key), ValueAt(attrs, key));
        assert errors == Record(prev, key, result) by {
          assert result == KeyError(key, RulesOf(data, key), ValueAt(attrs, key));
        }
        todo := todo - {key};
      }
      ErrorsExtensional(errors, data, attrs);
    }

    /** The inner loop, over the rules of one key: each rule that fails
        overwrites `errors[key]` with its message. */
    method ValidateKey(before: map<string, string>, key: string, rules: seq<string>, v: Value)
      returns (errors: map<string, string>)
      requires key !in before
      ensures errors == Record(before, key, KeyError(key, rules, v))
    {
      var writes := Messages(key, rules, v);
      errors := before;
      var i := 0;
      while i < |writes|
        invariant 0 <= i <= |writes|
        invariant errors == Record(before, key, LastWrite(writes[..i]))
      {
        var message := writes[i];
        if message.Some? {
          errors := errors[key := message.value];
        }
        LastWriteStep(writes, i);
        i := i + 1;
      }
      assert writes[..i] == writes;
    }
  }
}
