/** The parts of Go's `strings` package that the router uses, for a
    one-character separator. */
module Strings {

  /** `strings.Split(s, sep)`: never empty, and no piece holds the
      separator. */
  function Split(s: string, sep: char): (parts: seq<string>)
    ensures |parts| >= 1
    ensures forall i :: 0 <= i < |parts| ==> sep !in parts[i]
    ensures sep !in s ==> parts == [s]
    ensures sep in s ==> |parts| >= 2
    decreases |s|
  {
    if |s| == 0 then [""]
    else
      var rest := Split(s[1..], sep);
      assert s == [s[0]] + s[1..];
      if s[0] == sep then [""] + rest
      else [[s[0]] + rest[0]] + rest[1..]
  }

  /** Every character of a piece of `Split(s, sep)` comes from `s`. */
  lemma {:induction false} SplitChars(s: string, sep: char)
    decreases |s|
    ensures forall i, c :: 0 <= i < |Split(s, sep)| && c in Split(s, sep)[i] ==> c in s
  {
    if |s| > 0 {
      SplitChars(s[1..], sep);
      assert s == [s[0]] + s[1..];
      forall i, c | 0 <= i < |Split(s, sep)| && c in Split(s, sep)[i]
        ensures c in s
      {
        var rest := Split(s[1..], sep);
        if s[0] != sep && i == 0 {
          assert Split(s, sep)[0] == [s[0]] + rest[0];
        }
      }
    }
  }

  /** `strings.Join(parts, sep)`. */
  function Join(parts: seq<string>, sep: char): string
  {
    if |parts| == 0 then ""
    else if |parts| == 1 then parts[0]
    else parts[0] + [sep] + Join(parts[1..], sep)
  }

  /** Index of the first occurrence of `c` in `s`. */
  function IndexOf(s: string, c: char): (i: nat)
    requires c in s
    ensures i < |s| && s[i] == c && c !in s[..i]
  {
    if s[0] == c then 0 else 1 + IndexOf(s[1..], c)
  }

  /** `strings.Cut(s, sep)` when `sep` occurs: the text before the first
      separator and the text after it. */
  function Cut(s: string, sep: char): (r: (string, string))
    requires sep in s
    ensures s == r.0 + [sep] + r.1
    ensures sep !in r.0
  {
    var i := IndexOf(s, sep);
    assert s == s[..i] + [sep] + s[i + 1..];
    (s[..i], s[i + 1..])
  }

  /** Splitting undoes joining. */
  lemma {:induction false} JoinSplit(s: string, sep: char)
    ensures Join(Split(s, sep), sep) == s
    decreases |s|
  {
    if |s| > 0 {
      var rest := Split(s[1..], sep);
      JoinSplit(s[1..], sep);
      if s[0] == sep {
        assert ([""] + rest)[1..] == rest;
      } else if |rest| > 1 {
        var parts := [[s[0]] + rest[0]] + rest[1..];
        assert parts[1..] == rest[1..];
        assert Join(rest, sep) == rest[0] + [sep] + Join(rest[1..], sep);
        assert s == [s[0]] + s[1..];
      } else {
        assert s == [s[0]] + s[1..];
      }
    }
  }

  /** Splitting text that starts with a separator-free piece and a separator
      yields that piece first. */
  lemma {:induction false} SplitAfter(a: string, sep: char, b: string)
    requires sep !in a
    ensures Split(a + [sep] + b, sep) == [a] + Split(b, sep)
    decreases |a|
  {
    var s := a + [sep] + b;
    if |a| == 0 {
      assert s[1..] == b;
    } else {
      assert s[1..] == a[1..] + [sep] + b;
      SplitAfter(a[1..], sep, b);
      assert [s[0]] + a[1..] == a;
    }
  }

  /** Two separators cut three separator-free pieces apart. */
  lemma SplitThree(a: string, b: string, c: string, sep: char)
    requires sep !in a && sep !in b && sep !in c
    ensures Split(a + [sep] + (b + [sep] + c), sep) == [a, b, c]
  {
    SplitAfter(b, sep, c);
    SplitAfter(a, sep, b + [sep] + c);
  }

  /** Three separators cut four separator-free pieces apart. */
  lemma SplitFour(a: string, b: string, c: string, d: string, sep: char)
    requires sep !in a && sep !in b && sep !in c && sep !in d
    ensures Split(a + [sep] + (b + [sep] + (c + [sep] + d)), sep) == [a, b, c, d]
  {
    SplitThree(b, c, d, sep);
    SplitAfter(a, sep, b + [sep] + (c + [sep] + d));
  }

  lemma JoinThree(a: string, b: string, c: string, sep: char)
    ensures Join([a, b, c], sep) == a + [sep] + (b + [sep] + c)
  {
    assert [a, b, c][1..] == [b, c];
    assert [b, c][1..] == [c];
    assert Join([b, c], sep) == b + [sep] + c;
  }

  lemma JoinFour(a: string, b: string, c: string, d: string, sep: char)
    ensures Join([a, b, c, d], sep) == a + [sep] + (b + [sep] + (c + [sep] + d))
  {
    assert [a, b, c, d][1..] == [b, c, d];
    JoinThree(b, c, d, sep);
  }

  /** Joining undoes splitting when no piece holds the separator. */
  lemma {:induction false} SplitJoin(parts: seq<string>, sep: char)
    requires |parts| >= 1
    requires forall i :: 0 <= i < |parts| ==> sep !in parts[i]
    ensures Split(Join(parts, sep), sep) == parts
    decreases |parts|
  {
    if |parts| > 1 {
      SplitJoin(parts[1..], sep);
      SplitAfter(parts[0], sep, Join(parts[1..], sep));
      assert [parts[0]] + parts[1..] == parts;
    }
  }

  /** The first piece of a split is the text before the first separator. */
  lemma SplitAtFirst(s: string, sep: char)
    requires sep in s
    ensures Split(s, sep) == [Cut(s, sep).0] + Split(Cut(s, sep).1, sep)
  {
    SplitAfter(Cut(s, sep).0, sep, Cut(s, sep).1);
  }

  /** Cutting at a separator that the first part does not hold gives the
      two parts back. */
  lemma CutAfter(a: string, sep: char, b: string)
    requires sep !in a
    ensures Cut(a + [sep] + b, sep) == (a, b)
  {
    var s := a + [sep] + b;
    var r := Cut(s, sep);
    assert s[|a|] == sep;
    assert r.0 == s[..|r.0|] && a == s[..|a|];
  }

  lemma {:induction false} JoinSnoc(parts: seq<string>, x: string, sep: char)
    requires |parts| >= 1
    ensures Join(parts + [x], sep) == Join(parts, sep) + [sep] + x
    decreases |parts|
  {
    if |parts| > 1 {
      assert (parts + [x])[1..] == parts[1..] + [x];
      JoinSnoc(parts[1..], x, sep);
    }
  }

  lemma {:induction false} JoinExtendLast(parts: seq<string>, c: char, sep: char)
    requires |parts| >= 1
    ensures Join(parts[..|parts| - 1] + [parts[|parts| - 1] + [c]], sep) == Join(parts, sep) + [c]
    decreases |parts|
  {
    var n := |parts|;
    var q := parts[..n - 1] + [parts[n - 1] + [c]];
    if n > 1 {
      var tail := parts[1..];
      assert q[1..] == tail[..|tail| - 1] + [tail[|tail| - 1] + [c]];
      JoinExtendLast(tail, c, sep);
    }
  }

  /** Appending the separator opens a new, empty last piece. */
  lemma SplitSnocSep(a: string, sep: char)
    ensures Split(a + [sep], sep) == Split(a, sep) + [""]
  {
    var p := Split(a, sep);
    JoinSplit(a, sep);
    JoinSnoc(p, "", sep);
    assert Join(p + [""], sep) == a + [sep];
    SplitJoin(p + [""], sep);
  }

  /** Appending any other character extends the last piece. */
  lemma SplitSnocOther(a: string, c: char, sep: char)
    requires c != sep
    ensures var p := Split(a, sep);
      Split(a + [c], sep) == p[..|p| - 1] + [p[|p| - 1] + [c]]
  {
    var p := Split(a, sep);
    var q := p[..|p| - 1] + [p[|p| - 1] + [c]];
    JoinSplit(a, sep);
    JoinExtendLast(p, c, sep);
    assert Join(q, sep) == a + [c];
    forall i | 0 <= i < |q|
      ensures sep !in q[i]
    {
      if i < |q| - 1 {
        assert q[i] == p[i];
      } else {
        var last := p[|p| - 1];
        assert sep !in last;
        assert q[i] == last + [c];
      }
    }
    SplitJoin(q, sep);
  }

  /** The last piece is empty exactly when the text is empty or ends with the
      separator. */
  lemma SplitLastPiece(s: string, sep: char)
    ensures Split(s, sep)[|Split(s, sep)| - 1] == "" <==> s == "" || s[|s| - 1] == sep
  {
    if s != "" {
      var a := s[..|s| - 1];
      assert s == a + [s[|s| - 1]];
      if s[|s| - 1] == sep {
        SplitSnocSep(a, sep);
      } else {
        SplitSnocOther(a, s[|s| - 1], sep);
      }
    }
  }

  /** Go's `unicode.IsSpace`, which `strings.TrimSpace` uses. */
  predicate IsUnicodeSpace(c: char) {
    c == '\t' || c == '\n' || c == '\U{000B}' || c == '\U{000C}' || c == '\r' || c == ' '
    || c == '\U{0085}' || c == '\U{00A0}' || c == '\U{1680}'
    || ('\U{2000}' <= c <= '\U{200A}')
    || c == '\U{2028}' || c == '\U{2029}' || c == '\U{202F}' || c == '\U{205F}' || c == '\U{3000}'
  }

  /** Drops leading white space: the result is a suffix of `s` that does not
      start with a space, and everything dropped is space. */
  function TrimLeft(s: string): (r: string)
    ensures |r| <= |s| && r == s[|s| - |r|..]
    ensures r == [] || !IsUnicodeSpace(r[0])
    ensures forall k :: 0 <= k < |s| - |r| ==> IsUnicodeSpace(s[k])
  {
    if |s| > 0 && IsUnicodeSpace(s[0]) then TrimLeft(s[1..]) else s
  }

  /** Drops trailing white space: the result is a prefix of `s` that does not
      end with a space, and everything dropped is space. */
  function TrimRight(s: string): (r: string)
    ensures |r| <= |s| && r == s[..|r|]
    ensures r == [] || !IsUnicodeSpace(r[|r| - 1])
    ensures forall k :: |r| <= k < |s| ==> IsUnicodeSpace(s[k])
  {
    if |s| > 0 && IsUnicodeSpace(s[|s| - 1]) then TrimRight(s[..|s| - 1]) else s
  }

  /** `strings.TrimSpace`: white space dropped at both ends, each end
      described by `TrimLeft` and `TrimRight`. */
  function TrimSpace(s: string): string {
    TrimRight(TrimLeft(s))
  }
}
