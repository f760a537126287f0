/** The JavaScript string built-ins the core relies on: String.prototype.startsWith,
    String.prototype.split with a one-character separator, String.prototype.toLowerCase
    (ASCII letters only), Array.prototype.join, and the last path segment of a URL,
    which is what an Express route parameter at the end of the path receives. */
module Text {

  predicate StartsWith(s: string, prefix: string) {
    |prefix| <= |s| && s[..|prefix|] == prefix
  }

  /** Array.prototype.join: the pieces with `sep` between each neighbouring pair. */
  function Join(parts: seq<string>, sep: string): string
    decreases |parts|
  {
    if |parts| == 0 then ""
    else if |parts| == 1 then parts[0]
    else parts[0] + sep + Join(parts[1..], sep)
  }

  /** String.prototype.split(sep): the maximal pieces free of `sep`, empty pieces kept;
      joining them back with `sep` gives the original string. */
  function Split(s: string, sep: char): (parts: seq<string>)
    ensures |parts| >= 1
    ensures forall i :: 0 <= i < |parts| ==> sep !in parts[i]
    ensures Join(parts, [sep]) == s
    decreases |s|
  {
    if |s| == 0 then [""]
    else
      var rest := Split(s[1..], sep);
      if s[0] == sep then
        [""] + rest
      else
        [[s[0]] + rest[0]] + rest[1..]
  }

  /** Splitting a string built as `a + sep + b`, where `a` has no separator, yields `a` and then the pieces of `b`. */
  lemma {:induction false} SplitAfterPiece(a: string, sep: char, b: string)
    requires sep !in a
    ensures Split(a + [sep] + b, sep) == [a] + Split(b, sep)
    decreases |a|
  {
    if |a| == 0 {
      assert a + [sep] + b == [sep] + b;
      assert ([sep] + b)[1..] == b;
    } else {
      SplitAfterPiece(a[1..], sep, b);
      assert (a + [sep] + b)[1..] == a[1..] + [sep] + b;
      assert [a[0]] + a[1..] == a;
    }
  }

  /** A string with no separator splits into itself alone. */
  lemma {:induction false} SplitNoSeparator(a: string, sep: char)
    requires sep !in a
    ensures Split(a, sep) == [a]
    decreases |a|
  {
    if |a| > 0 {
      SplitNoSeparator(a[1..], sep);
      assert [a[0]] + a[1..] == a;
    }
  }

  function LowerChar(c: char): char {
    if 'A' <= c <= 'Z' then (c as int + 32) as char else c
  }

  predicate IsLower(s: string) {
    forall i :: 0 <= i < |s| ==> !('A' <= s[i] <= 'Z')
  }

  /** String.prototype.toLowerCase on ASCII: same length, every upper-case letter replaced
      by its lower-case letter (32 code points on), every other character kept. */
  function Lower(s: string): (r: string)
    ensures |r| == |s| && IsLower(r)
    ensures forall i :: 0 <= i < |s| && 'A' <= s[i] <= 'Z' ==> r[i] as int == s[i] as int + 32
    ensures forall i :: 0 <= i < |s| && !('A' <= s[i] <= 'Z') ==> r[i] == s[i]
  {
    seq(|s|, i requires 0 <= i < |s| => LowerChar(s[i]))
  }

  /** The text after the last '/': a suffix of `s` with no '/', which is either all of `s`
      or preceded by a '/'. */
  function LastSegment(s: string): (r: string)
    ensures '/' !in r
    ensures |r| <= |s| && s[|s| - |r|..] == r
    ensures |r| < |s| ==> s[|s| - |r| - 1] == '/'
    decreases |s|
  {
    if |s| == 0 || s[|s| - 1] == '/' then ""
    else LastSegment(s[..|s| - 1]) + [s[|s| - 1]]
  }

  /** The last segment of `prefix + "/" + t` is `t` when `t` holds no '/'. */
  lemma {:induction false} LastSegmentAfterSlash(prefix: string, t: string)
    requires '/' !in t
    ensures LastSegment(prefix + "/" + t) == t
    decreases |t|
  {
    var s := prefix + "/" + t;
    if |t| == 0 {
      assert s[|s| - 1] == '/';
    } else {
      var t' := t[..|t| - 1];
      var c := t[|t| - 1];
      assert s[..|s| - 1] == prefix + "/" + t';
      assert s[|s| - 1] == c && c != '/';
      LastSegmentAfterSlash(prefix, t');
      assert LastSegment(s) == LastSegment(s[..|s| - 1]) + [c];
      assert t' + [c] == t;
    }
  }

  /** A deliberately simple stand-in for validator.isEmail: one '@' with a non-empty local
      part before it and a domain after it that contains a '.'. */
  predicate IsEmail(s: string) {
    var parts := Split(s, '@');
    |parts| == 2 && parts[0] != "" && '.' in parts[1]
  }
}
