/** The structured logger of http/tools.go. A logger is a value: `WithFields`,
    `WithField` and `WithError` copy its field map into a fresh one and
    return a new logger, leaving the receiver as it was. The logging calls
    print a headline, then one line per field in map order. */
module Tools {

  datatype Logger<V> = Logger(message: string, fields: map<string, V>)

  /** `Logger()`: the zero logger, with no prefix and no fields. */
  function NewLogger<V>(): (l: Logger<V>)
    ensures l.message == "" && |l.fields| == 0
  {
    Logger("", map[])
  }

  /** The copy of `a` overwritten by `b`: every key of either, the value
      from `b` where both have it. */
  function Merged<V>(a: map<string, V>, b: map<string, V>): (m: map<string, V>)
    ensures m.Keys == a.Keys + b.Keys
    ensures forall k :: k in b ==> m[k] == b[k]
    ensures forall k :: k in a && k !in b ==> m[k] == a[k]
  {
    a + b
  }

  /** One `for k, v := range src { dst[k] = v }` loop, over the keys in any
      order. */
  method CopyInto<V>(dst: map<string, V>, src: map<string, V>) returns (r: map<string, V>)
    ensures r == Merged(dst, src)
  {
    r := dst;
    var todo := src.Keys;
    while todo != {}
      invariant todo <= src.Keys
      invariant r.Keys == dst.Keys + (src.Keys - todo)
      invariant forall k :: k in src && k !in todo ==> r[k] == src[k]
      invariant forall k :: k in dst && (k !in src || k in todo) ==> r[k] == dst[k]
      decreases todo
    {
      var k :| k in todo;
      r := r[k := src[k]];
      todo := todo - {k};
    }
    assert r.Keys == Merged(dst, src).Keys;
  }

  /** `WithFields`: a new logger with the same prefix whose fields are the
      receiver's overwritten by the argument's. */
  method WithFields<V>(l: Logger<V>, fields: map<string, V>) returns (r: Logger<V>)
    ensures r.message == l.message
    ensures r.fields == Merged(l.fields, fields)
  {
    var newFields := CopyInto(map[], l.fields);
    newFields := CopyInto(newFields, fields);
    assert newFields == Merged(l.fields, fields);
    return Logger(l.message, newFields);
  }

  /** `WithField`: a new logger with the same prefix and one field set. */
  method WithField<V>(l: Logger<V>, key: string, value: V) returns (r: Logger<V>)
    ensures r.message == l.message
    ensures r.fields == l.fields[key := value]
  {
    var newFields := CopyInto(map[], l.fields);
    assert newFields == l.fields;
    newFields := newFields[key := value];
    return Logger(l.message, newFields);
  }

  /** `WithError`: the error recorded under the field `error`. */
  method WithError<V>(l: Logger<V>, err: V) returns (r: Logger<V>)
    ensures r.message == l.message
    ensures r.fields == l.fields["error" := err]
  {
    r := WithField(l, "error", err);
  }

  /** Setting one field is merging a one-entry map: `WithField(k, v)` and
      `WithFields({k: v})` build the same logger. */
  lemma {:induction false} OneFieldIsMerge<V>(fields: map<string, V>, key: string, value: V)
    ensures fields[key := value] == Merged(fields, map[key := value])
  {
    var single := map[key := value];
    assert (fields[key := value]).Keys == Merged(fields, single).Keys;
    forall k | k in fields[key := value]
      ensures fields[key := value][k] == Merged(fields, single)[k]
    {
      if k != key {
        assert k !in single;
      }
    }
  }

  datatype Level = Plain | Debug | Error | Info | Warn | Fatal | Trace

  /** The tag each logging call prints first; `Log` prints none. */
  function Tag(level: Level): string {
    match level
    case Plain => ""
    case Debug => "DEBUG:"
    case Error => "ERROR:"
    case Info => "INFO:"
    case Warn => "WARN:"
    case Fatal => "FATAL:"
    case Trace => "TRACE:"
  }

  /** What a headline prints before the message: the tag and a space (the
      separator `println` puts between its arguments), then the logger's own
      message and a colon when it has one. */
  function HeadlineFront<V>(l: Logger<V>, level: Level): string {
    (if level == Plain then "" else Tag(level) + " ") + (if l.message != "" then l.message + ": " else "")
  }

  /** The first line a logging call prints: its front, then the message. */
  function Headline<V>(l: Logger<V>, level: Level, message: string): (line: string)
    ensures level == Plain && l.message == "" ==> line == message
    ensures |line| >= |message| && line[|line| - |message|..] == message
    ensures level != Plain ==> |line| > |Tag(level)| && line[..|Tag(level)| + 1] == Tag(level) + " "
    ensures l.message != "" ==>
              |line| >= |l.message| + 2 + |message|
              && line[|line| - |message| - |l.message| - 2..|line| - |message|] == l.message + ": "
  {
    HeadlineFront(l, level) + message
  }

  lemma SuffixAfter(front: string, m: string)
    ensures (front + m)[|front|..] == m
  {
  }

  /** The headline keeps the message recoverable: two messages logged at the
      same level through the same logger print different headlines. */
  lemma {:induction false} HeadlineInjective<V>(l: Logger<V>, level: Level, m1: string, m2: string)
    requires Headline(l, level, m1) == Headline(l, level, m2)
    ensures m1 == m2
  {
    var front := HeadlineFront(l, level);
    SuffixAfter(front, m1);
    SuffixAfter(front, m2);
  }

  /** Starting from `Logger()` and deriving only through `WithFields`,
      `WithField` and `WithError` keeps the message empty, so the prefix
      branch is never taken: a level call prints its tag, a space and the
      message as given. */
  lemma UnprefixedHeadline<V>(l: Logger<V>, level: Level, message: string)
    requires l.message == ""
    ensures level != Plain ==> Headline(l, level, message) == Tag(level) + " " + message
    ensures level == Plain ==> Headline(l, level, message) == message
  {
  }
}
