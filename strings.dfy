/** The JavaScript string operations the system relies on (`trim`, `split`
    with a one-character separator, `join`, `startsWith`, and `replace` with a
    string pattern), over `string == seq<char>`. */
module Strings {
  import opened Wrappers

  /** The characters `String.prototype.trim` removes: ECMAScript WhiteSpace
      (tab, vertical tab, form feed, space, no-break space, byte order mark and
      every space separator) and LineTerminator (LF, CR, LS, PS). */
  predicate IsWhitespace(c: char) {
    || c == '\t' || c == '\n' || c == '\U{000B}' || c == '\U{000C}' || c == '\r'
    || c == ' ' || c == '\U{00A0}' || c == '\U{1680}' || ('\U{2000}' <= c <= '\U{200A}')
    || c == '\U{2028}' || c == '\U{2029}' || c == '\U{202F}' || c == '\U{205F}'
    || c == '\U{3000}' || c == '\U{FEFF}'
  }

  predicate AllWhitespace(s: string) {
    forall i :: 0 <= i < |s| ==> IsWhitespace(s[i])
  }

  /** `s.trimStart()`. */
  function TrimStart(s: string): string {
    if |s| > 0 && IsWhitespace(s[0]) then TrimStart(s[1..]) else s
  }

  /** `s.trimEnd()`. */
  function TrimEnd(s: string): string {
    if |s| > 0 && IsWhitespace(s[|s| - 1]) then TrimEnd(s[..|s| - 1]) else s
  }

  /** `s.trim()`. */
  function Trim(s: string): string {
    TrimEnd(TrimStart(s))
  }

  /** Trimming the start leaves a suffix of `s`, removes only whitespace, and
      leaves no whitespace at the front. */
  lemma {:induction false} TrimStartShape(s: string)
    ensures var r := TrimStart(s);
      && |r| <= |s| && r == s[|s| - |r|..]
      && AllWhitespace(s[..|s| - |r|])
      && (r != [] ==> !IsWhitespace(r[0]))
  {
    if |s| > 0 && IsWhitespace(s[0]) {
      TrimStartShape(s[1..]);
    }
  }

  /** Trimming the end leaves a prefix of `s`, removes only whitespace, and
      leaves no whitespace at the back. */
  lemma {:induction false} TrimEndShape(s: string)
    ensures var r := TrimEnd(s);
      && |r| <= |s| && r == s[..|r|]
      && AllWhitespace(s[|r|..])
      && (r != [] ==> !IsWhitespace(r[|r| - 1]))
  {
    if |s| > 0 && IsWhitespace(s[|s| - 1]) {
      TrimEndShape(s[..|s| - 1]);
      assert s[..|s| - 1][|TrimEnd(s)|..] + [s[|s| - 1]] == s[|TrimEnd(s)|..];
    }
  }

  /** `Trim(s)` is empty exactly when `s` is all whitespace; otherwise it
      neither starts nor ends with whitespace. */
  lemma TrimShape(s: string)
    ensures Trim(s) == [] <==> AllWhitespace(s)
    ensures Trim(s) != [] ==> !IsWhitespace(Trim(s)[0]) && !IsWhitespace(Trim(s)[|Trim(s)| - 1])
  {
    var t := TrimStart(s);
    var r := TrimEnd(t);
    TrimStartShape(s);
    TrimEndShape(t);
    assert s == s[..|s| - |t|] + t;
    if r == [] {
      assert t == t[|r|..];
    } else {
      assert t[0] == s[|s| - |t|];
    }
  }

  /** Where `Trim(s)` sits inside `s`: it is the slice `s[a..a + |Trim(s)|]`
      and everything outside that slice is whitespace. */
  lemma TrimSlice(s: string) returns (a: nat)
    ensures a + |Trim(s)| <= |s| && Trim(s) == s[a..a + |Trim(s)|]
    ensures AllWhitespace(s[..a]) && AllWhitespace(s[a + |Trim(s)|..])
  {
    var t := TrimStart(s);
    TrimStartShape(s);
    a := |s| - |t|;
    var r := TrimEnd(t);
    TrimEndShape(t);
    assert t == s[a..];
    assert r == t[..|r|] == s[a..a + |r|];
    assert t[|r|..] == s[a + |r|..];
  }

  /** Trimming twice is trimming once. */
  lemma TrimIdempotent(s: string)
    ensures Trim(Trim(s)) == Trim(s)
  {
    var r := Trim(s);
    TrimShape(s);
    if r != [] {
      assert TrimStart(r) == r;
      assert TrimEnd(r) == r;
    }
  }

  /** `s.split(sep)` for a one-character separator: the pieces between
      separators, in order, including empty pieces at either end. */
  function Split(s: string, sep: char): (parts: seq<string>)
    ensures |parts| >= 1
    ensures forall i :: 0 <= i < |parts| ==> sep !in parts[i]
    decreases |s|
  {
    if |s| == 0 then [""]
    else
      var rest := Split(s[1..], sep);
      if s[0] == sep then [""] + rest
      else [[s[0]] + rest[0]] + rest[1..]
  }

  /** `parts.join(sep)`. */
  function Join(parts: seq<string>, sep: string): string
  {
    if |parts| == 0 then ""
    else if |parts| == 1 then parts[0]
    else parts[0] + sep + Join(parts[1..], sep)
  }

  lemma JoinConsChar(c: char, p: string, q: seq<string>, sep: string)
    ensures Join([[c] + p] + q, sep) == [c] + Join([p] + q, sep)
  {
    if |q| > 0 {
      assert ([[c] + p] + q)[1..] == q == ([p] + q)[1..];
    }
  }

  /** Splitting and joining with the same separator gives back the string. */
  lemma {:induction false} SplitJoin(s: string, sep: char)
    ensures Join(Split(s, sep), [sep]) == s
    decreases |s|
  {
    if |s| > 0 {
      var rest := Split(s[1..], sep);
      SplitJoin(s[1..], sep);
      if s[0] == sep {
        assert Split(s, sep) == [""] + rest;
        assert ([""] + rest)[1..] == rest;
        assert s == [sep] + s[1..];
      } else {
        assert rest == [rest[0]] + rest[1..];
        JoinConsChar(s[0], rest[0], rest[1..], [sep]);
        assert s == [s[0]] + s[1..];
      }
    }
  }

  /** Every character of every piece of `Split(s, sep)` is a character of `s`. */
  lemma {:induction false} SplitChars(s: string, sep: char, i: nat, c: char)
    requires i < |Split(s, sep)| && c in Split(s, sep)[i]
    ensures c in s
    decreases |s|
  {
    if |s| > 0 {
      var rest := Split(s[1..], sep);
      if s[0] == sep {
        SplitChars(s[1..], sep, i - 1, c);
      } else if i == 0 {
        if c != s[0] {
          assert c in rest[0];
          SplitChars(s[1..], sep, 0, c);
        }
      } else {
        SplitChars(s[1..], sep, i, c);
      }
    }
  }

  /** A character of `s` other than the separator lands in some piece. */
  lemma {:induction false} SplitKeeps(s: string, sep: char, k: nat) returns (i: nat)
    requires k < |s| && s[k] != sep
    ensures i < |Split(s, sep)| && s[k] in Split(s, sep)[i]
    decreases |s|
  {
    var rest := Split(s[1..], sep);
    if k == 0 {
      i := 0;
      assert Split(s, sep)[0] == [s[0]] + rest[0];
    } else {
      var j := SplitKeeps(s[1..], sep, k - 1);
      assert s[1..][k - 1] == s[k];
      if s[0] == sep {
        i := j + 1;
      } else if j == 0 {
        i := 0;
        assert Split(s, sep)[0] == [s[0]] + rest[0];
      } else {
        i := j;
      }
    }
  }

  /** A string without the separator splits into itself alone. */
  lemma {:induction false} SplitWithoutSep(s: string, sep: char)
    requires sep !in s
    ensures Split(s, sep) == [s]
    decreases |s|
  {
    if |s| > 0 {
      SplitWithoutSep(s[1..], sep);
      assert s == [s[0]] + s[1..];
    }
  }

  /** The first piece of a split is the text before the first separator:
      a prefix of `s` without the separator, followed in `s` by the
      separator or by nothing. */
  lemma {:induction false} SplitFirst(s: string, sep: char)
    ensures var p := Split(s, sep)[0];
      && |p| <= |s| && p == s[..|p|] && sep !in p
      && (|p| < |s| ==> s[|p|] == sep)
    decreases |s|
  {
    if |s| > 0 && s[0] != sep {
      SplitFirst(s[1..], sep);
    }
  }

  /** The strings of `ss` one after another. */
  function Concat(ss: seq<string>): string
  {
    if ss == [] then "" else ss[0] + Concat(ss[1..])
  }

  lemma {:induction false} ConcatAppend(a: seq<string>, b: seq<string>)
    ensures Concat(a + b) == Concat(a) + Concat(b)
  {
    if a != [] {
      assert (a + b)[1..] == a[1..] + b;
      ConcatAppend(a[1..], b);
    } else {
      assert a + b == b;
    }
  }

  /** `s.startsWith(prefix)`. */
  predicate StartsWith(s: string, prefix: string) {
    |prefix| <= |s| && s[..|prefix|] == prefix
  }

  /** `pat` occurs in `s` starting at index `i`. */
  predicate OccursAt(s: string, pat: string, i: nat) {
    i + |pat| <= |s| && s[i..i + |pat|] == pat
  }

  /** The first index at or after `from` where `pat` occurs in `s`. */
  function IndexOfFrom(s: string, pat: string, from: nat): (r: Option<nat>)
    ensures r.Some? ==> from <= r.value && OccursAt(s, pat, r.value)
    ensures r.Some? ==> forall j :: from <= j < r.value ==> !OccursAt(s, pat, j)
    ensures r.None? ==> forall j :: from <= j ==> !OccursAt(s, pat, j)
    decreases |s| - from
  {
    if from + |pat| > |s| then None
    else if s[from..from + |pat|] == pat then Some(from)
    else IndexOfFrom(s, pat, from + 1)
  }

  /** `s.replace(pat, rep)` with a string pattern: the first occurrence of
      `pat`, if any, is replaced by `rep`. */
  function ReplaceFirst(s: string, pat: string, rep: string): string
  {
    match IndexOfFrom(s, pat, 0)
    case None => s
    case Some(i) => s[..i] + rep + s[i + |pat|..]
  }

  /** When `pat` occurs in `s` at all, `ReplaceFirst` puts `rep` in place of
      its first occurrence, which is at or before any given one, and keeps
      the text on either side. */
  lemma ReplaceFirstOccurs(s: string, pat: string, rep: string, k: nat) returns (i: nat)
    requires OccursAt(s, pat, k)
    ensures i <= k && OccursAt(s, pat, i)
    ensures forall j :: 0 <= j < i ==> !OccursAt(s, pat, j)
    ensures ReplaceFirst(s, pat, rep) == s[..i] + rep + s[i + |pat|..]
    ensures |ReplaceFirst(s, pat, rep)| == |s| - |pat| + |rep|
  {
    i := IndexOfFrom(s, pat, 0).value;
  }
}
