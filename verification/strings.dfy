/**
 * The string operations of `String.prototype` that the SDK relies on:
 * `trim`, ASCII case mapping, `startsWith`/`endsWith`/`includes`,
 * slash stripping as done by `replace(/^\/+/, '')` and `replace(/\/+$/, '')`,
 * `split` on one character and `join`.
 */
module Strings {
  import opened Js

  // ---------------------------------------------------------------------------
  // Whitespace and trim
  // ---------------------------------------------------------------------------

  /** ECMAScript WhiteSpace and LineTerminator code points, the set `trim` removes. */
  predicate IsWhitespace(c: char) {
    || c == ' ' || c == '\t' || c == '\n' || c == '\r'
    || c == '\U{B}' || c == '\U{C}' || c == '\U{A0}' || c == '\U{1680}'
    || ('\U{2000}' <= c <= '\U{200A}')
    || c == '\U{2028}' || c == '\U{2029}' || c == '\U{202F}' || c == '\U{205F}'
    || c == '\U{3000}' || c == '\U{FEFF}'
  }

  predicate AllWhitespace(s: string) {
    forall i :: 0 <= i < |s| ==> IsWhitespace(s[i])
  }

  /** A string `trim` leaves alone: empty, or non-whitespace at both ends. */
  predicate Trimmed(s: string) {
    s == "" || (!IsWhitespace(s[0]) && !IsWhitespace(s[|s| - 1]))
  }

  /** `trim` at the start only: drops leading whitespace. */
  function TrimStart(s: string): (r: string)
    ensures |r| <= |s| && r == s[|s| - |r|..]
    ensures r == "" || !IsWhitespace(r[0])
  {
    if |s| > 0 && IsWhitespace(s[0]) then TrimStart(s[1..]) else s
  }

  /** `trim` at the end only: drops trailing whitespace. */
  function TrimEnd(s: string): (r: string)
    ensures |r| <= |s| && r == s[..|r|]
    ensures r == "" || !IsWhitespace(r[|r| - 1])
  {
    if |s| > 0 && IsWhitespace(s[|s| - 1]) then TrimEnd(s[..|s| - 1]) else s
  }

  /** What `TrimStart` drops is whitespace. */
  lemma {:induction false} TrimStartDropsWhitespace(s: string)
    ensures AllWhitespace(s[..|s| - |TrimStart(s)|])
    decreases |s|
  {
    if |s| > 0 && IsWhitespace(s[0]) {
      var r := TrimStart(s[1..]);
      TrimStartDropsWhitespace(s[1..]);
      assert s[1..][..|s[1..]| - |r|] == s[1..|s| - |r|];
    }
  }

  /** What `TrimEnd` drops is whitespace. */
  lemma {:induction false} TrimEndDropsWhitespace(s: string)
    ensures AllWhitespace(s[|TrimEnd(s)|..])
    decreases |s|
  {
    if |s| > 0 && IsWhitespace(s[|s| - 1]) {
      var r := TrimEnd(s[..|s| - 1]);
      TrimEndDropsWhitespace(s[..|s| - 1]);
      assert s[..|s| - 1][|r|..] + [s[|s| - 1]] == s[|r|..];
    }
  }

  /** Trimming both ends keeps the first non-whitespace character first. */
  lemma TrimBothEndsTrimmed(s: string)
    ensures Trimmed(TrimEnd(TrimStart(s)))
  {
    var t := TrimStart(s);
    var r := TrimEnd(t);
    assert r != "" ==> r[0] == t[0];
  }

  /** A slice holds only elements of the whole. */
  lemma SliceElements<T>(s: seq<T>, lo: nat, hi: nat)
    requires lo <= hi <= |s|
    ensures forall c :: c in s[lo..hi] ==> c in s
  {
    forall c | c in s[lo..hi] ensures c in s {
      var k :| 0 <= k < hi - lo && s[lo..hi][k] == c;
      assert s[lo + k] == c;
    }
  }

  /** Trimming both ends adds no character. */
  lemma TrimBothEndsChars(s: string)
    ensures forall c :: c in TrimEnd(TrimStart(s)) ==> c in s
  {
    var t := TrimStart(s);
    var r := TrimEnd(t);
    SliceElements(s, |s| - |t|, |s|);
    SliceElements(t, 0, |r|);
  }

  /** All-whitespace input leaves nothing after the start is trimmed. */
  lemma TrimStartOfWhitespace(s: string)
    requires AllWhitespace(s)
    ensures TrimStart(s) == ""
  {
  }

  /** A whitespace prefix before a whitespace suffix leaves nothing else. */
  lemma WhitespaceSplit(s: string, k: nat)
    requires k <= |s| && AllWhitespace(s[..k]) && AllWhitespace(s[k..])
    ensures AllWhitespace(s)
  {
    forall i | 0 <= i < |s| ensures IsWhitespace(s[i]) {
      if i < k {
        assert s[i] == s[..k][i];
      } else {
        assert s[i] == s[k..][i - k];
      }
    }
  }

  /** Nothing left after trimming the end means all was whitespace. */
  lemma WhitespaceOfTrimEnd(t: string)
    requires TrimEnd(t) == ""
    ensures AllWhitespace(t)
  {
    TrimEndDropsWhitespace(t);
    assert t[0..] == t;
  }

  /** Nothing left after trimming the start means all was whitespace. */
  lemma WhitespaceOfTrimStart(s: string)
    requires AllWhitespace(TrimStart(s))
    ensures AllWhitespace(s)
  {
    TrimStartDropsWhitespace(s);
    WhitespaceSplit(s, |s| - |TrimStart(s)|);
  }

  /** Nothing left after trimming both ends means all was whitespace. */
  lemma WhitespaceOfTrimBothEnds(s: string)
    requires TrimEnd(TrimStart(s)) == ""
    ensures AllWhitespace(s)
  {
    WhitespaceOfTrimEnd(TrimStart(s));
    WhitespaceOfTrimStart(s);
  }

  /** Trimming both ends leaves nothing exactly when all is whitespace. */
  lemma TrimBothEndsEmpty(s: string)
    ensures TrimEnd(TrimStart(s)) == "" <==> AllWhitespace(s)
  {
    if AllWhitespace(s) {
      TrimStartOfWhitespace(s);
    }
    if TrimEnd(TrimStart(s)) == "" {
      WhitespaceOfTrimBothEnds(s);
    }
  }

  /** `String.prototype.trim`. */
  function Trim(s: string): (r: string)
    ensures |r| <= |s|
    ensures Trimmed(r)
    ensures r == "" <==> AllWhitespace(s)
  {
    TrimBothEndsTrimmed(s);
    TrimBothEndsEmpty(s);
    TrimEnd(TrimStart(s))
  }

  /** Trimming only removes characters: everything left was in the input. */
  lemma TrimKeepsChars(s: string)
    ensures forall c :: c in Trim(s) ==> c in s
  {
    TrimBothEndsChars(s);
  }

  /** The source's `toTrimmedString`: a string is trimmed, anything else becomes ''. */
  function ToTrimmedString(v: JsValue): (r: string)
    ensures Trimmed(r)
    ensures v.JStr? ==> r == Trim(v.s)
    ensures !v.JStr? ==> r == ""
  {
    if v.JStr? then Trim(v.s) else ""
  }

  lemma TrimOfTrimmed(s: string)
    requires Trimmed(s)
    ensures Trim(s) == s
  {
  }

  lemma TrimIdempotent(s: string)
    ensures Trim(Trim(s)) == Trim(s)
  {
    TrimOfTrimmed(Trim(s));
  }

  lemma {:induction false} TrimStartAfterWhitespace(w: string, y: string)
    requires AllWhitespace(w)
    ensures TrimStart(w + y) == TrimStart(y)
    decreases |w|
  {
    if |w| > 0 {
      assert (w + y)[1..] == w[1..] + y;
      TrimStartAfterWhitespace(w[1..], y);
    } else {
      assert w + y == y;
    }
  }

  lemma {:induction false} TrimEndBeforeWhitespace(z: string, w: string)
    requires AllWhitespace(w)
    ensures TrimEnd(z + w) == TrimEnd(z)
    decreases |w|
  {
    if |w| > 0 {
      assert (z + w)[..|z + w| - 1] == z + w[..|w| - 1];
      TrimEndBeforeWhitespace(z, w[..|w| - 1]);
    } else {
      assert z + w == z;
    }
  }

  /** Leading whitespace does not change the result of `trim`. */
  lemma TrimIgnoresLeadingWhitespace(w: string, y: string)
    requires AllWhitespace(w)
    ensures Trim(w + y) == Trim(y)
  {
    TrimStartAfterWhitespace(w, y);
  }

  /** Trailing whitespace does not change the result of `trim`. */
  lemma {:induction false} TrimIgnoresTrailingWhitespace(y: string, w: string)
    requires AllWhitespace(w)
    ensures Trim(y + w) == Trim(y)
    decreases |y|
  {
    if |y| == 0 {
      assert y + w == w;
      TrimStartAfterWhitespace(w, "");
      assert w + "" == w;
    } else if IsWhitespace(y[0]) {
      assert (y + w)[1..] == y[1..] + w;
      TrimIgnoresTrailingWhitespace(y[1..], w);
    } else {
      TrimEndBeforeWhitespace(y, w);
    }
  }

  /** `trim` removes whitespace around its result and nothing else. */
  lemma TrimSurroundings(s: string) returns (w1: string, w2: string)
    ensures AllWhitespace(w1) && AllWhitespace(w2)
    ensures s == w1 + Trim(s) + w2
  {
    var ts := TrimStart(s);
    var t := TrimEnd(ts);
    TrimStartDropsWhitespace(s);
    TrimEndDropsWhitespace(ts);
    w1 := s[..|s| - |ts|];
    w2 := ts[|t|..];
    assert ts == t + w2;
    assert s == w1 + ts;
    SeqAssoc3(w1, t, w2);
  }

  lemma SeqAssoc3(a: string, b: string, c: string)
    ensures a + (b + c) == a + b + c
  {
  }

  /** Surrounding whitespace does not change the result of `trim`. */
  lemma TrimIgnoresSurroundingWhitespace(w1: string, s: string, w2: string)
    requires AllWhitespace(w1) && AllWhitespace(w2)
    ensures Trim(w1 + s + w2) == Trim(s)
  {
    var y := s + w2;
    assert w1 + s + w2 == w1 + y;
    TrimIgnoresLeadingWhitespace(w1, y);
    TrimIgnoresTrailingWhitespace(s, w2);
  }

  /** Surrounding whitespace is all that `trim` removes from a trimmed string. */
  lemma TrimAroundTrimmed(w1: string, t: string, w2: string)
    requires AllWhitespace(w1) && AllWhitespace(w2) && Trimmed(t)
    ensures Trim(w1 + t + w2) == t
  {
    TrimIgnoresSurroundingWhitespace(w1, t, w2);
    TrimOfTrimmed(t);
  }

  // ---------------------------------------------------------------------------
  // ASCII case mapping
  // ---------------------------------------------------------------------------

  function LowerChar(c: char): char {
    if 'A' <= c <= 'Z' then (c as int + 32) as char else c
  }

  function UpperChar(c: char): char {
    if 'a' <= c <= 'z' then (c as int - 32) as char else c
  }

  /** `toLowerCase`, restricted to the ASCII letters. */
  function ToLower(s: string): (r: string)
    ensures |r| == |s|
    ensures forall i :: 0 <= i < |s| ==> r[i] == LowerChar(s[i])
  {
    seq(|s|, i requires 0 <= i < |s| => LowerChar(s[i]))
  }

  /** `toUpperCase`, restricted to the ASCII letters. */
  function ToUpper(s: string): (r: string)
    ensures |r| == |s|
    ensures forall i :: 0 <= i < |s| ==> r[i] == UpperChar(s[i])
  {
    seq(|s|, i requires 0 <= i < |s| => UpperChar(s[i]))
  }

  predicate HasNoUpper(s: string) {
    forall i :: 0 <= i < |s| ==> !('A' <= s[i] <= 'Z')
  }

  lemma ToLowerProperties(s: string)
    ensures HasNoUpper(ToLower(s))
    ensures ToLower(ToLower(s)) == ToLower(s)
    ensures Trimmed(s) ==> Trimmed(ToLower(s))
    ensures ToLower(s) == "" <==> s == ""
  {
  }

  predicate HasNoLower(s: string) {
    forall i :: 0 <= i < |s| ==> !('a' <= s[i] <= 'z')
  }

  lemma ToUpperProperties(s: string)
    ensures HasNoLower(ToUpper(s))
    ensures ToUpper(ToUpper(s)) == ToUpper(s)
    ensures Trimmed(s) ==> Trimmed(ToUpper(s))
  {
  }

  lemma UpperOfNoLower(s: string)
    requires HasNoLower(s)
    ensures ToUpper(s) == s
  {
  }

  lemma LowerOfNoUpper(s: string)
    requires HasNoUpper(s)
    ensures ToLower(s) == s
  {
  }

  // ---------------------------------------------------------------------------
  // Prefixes, suffixes, membership
  // ---------------------------------------------------------------------------

  predicate StartsWith(s: string, prefix: string) {
    |prefix| <= |s| && s[..|prefix|] == prefix
  }

  predicate EndsWith(s: string, suffix: string) {
    |suffix| <= |s| && s[|s| - |suffix|..] == suffix
  }

  /** `replace(/^c+/, '')`: drop every leading `c`. */
  function StripLeading(s: string, c: char): (r: string)
    ensures |r| <= |s| && r == s[|s| - |r|..]
    ensures r == "" || r[0] != c
  {
    if |s| > 0 && s[0] == c then StripLeading(s[1..], c) else s
  }

  /** What `StripLeading` drops is all `c`. */
  lemma {:induction false} StripLeadingDrops(s: string, c: char)
    ensures forall i :: 0 <= i < |s| - |StripLeading(s, c)| ==> s[i] == c
    decreases |s|
  {
    if |s| > 0 && s[0] == c {
      StripLeadingDrops(s[1..], c);
      assert forall i :: 1 <= i < |s| ==> s[i] == s[1..][i - 1];
    }
  }

  /** `replace(/c+$/, '')`: drop every trailing `c`. */
  function StripTrailing(s: string, c: char): (r: string)
    ensures |r| <= |s| && r == s[..|r|]
    ensures r == "" || r[|r| - 1] != c
  {
    if |s| > 0 && s[|s| - 1] == c then StripTrailing(s[..|s| - 1], c) else s
  }

  /** What `StripTrailing` drops is all `c`. */
  lemma {:induction false} StripTrailingDrops(s: string, c: char)
    ensures forall i :: |StripTrailing(s, c)| <= i < |s| ==> s[i] == c
    decreases |s|
  {
    if |s| > 0 && s[|s| - 1] == c {
      StripTrailingDrops(s[..|s| - 1], c);
      assert forall i :: 0 <= i < |s| - 1 ==> s[i] == s[..|s| - 1][i];
    }
  }

  // ---------------------------------------------------------------------------
  // split and join
  // ---------------------------------------------------------------------------

  /** `s.split(sep)` for a one-character separator: the pieces between separators. */
  function Split(s: string, sep: char): (r: seq<string>)
    ensures |r| >= 1
    ensures forall i :: 0 <= i < |r| ==> sep !in r[i]
    decreases |s|
  {
    if |s| == 0 then [""]
    else if s[0] == sep then [""] + Split(s[1..], sep)
    else
      var t := Split(s[1..], sep);
      [[s[0]] + t[0]] + t[1..]
  }

  /** `parts.join(sep)`. */
  function Join(parts: seq<string>, sep: string): string {
    if |parts| == 0 then ""
    else if |parts| == 1 then parts[0]
    else parts[0] + sep + Join(parts[1..], sep)
  }

  lemma {:induction false} SplitWithoutSeparator(s: string, sep: char)
    requires sep !in s
    ensures Split(s, sep) == [s]
    decreases |s|
  {
    if |s| > 0 {
      assert s[0] in s;
      SplitWithoutSeparator(s[1..], sep);
      assert [s[0]] + s[1..] == s;
    }
  }

  /** A separator between `a` and `b` splits exactly there. */
  lemma {:induction false} SplitAtSeparator(a: string, sep: char, b: string)
    ensures Split(a + [sep] + b, sep) == Split(a, sep) + Split(b, sep)
    decreases |a|
  {
    var s := a + [sep] + b;
    if |a| == 0 {
      assert s == [sep] + b;
      assert s[1..] == b;
    } else {
      assert s[0] == a[0];
      assert s[1..] == a[1..] + [sep] + b;
      SplitAtSeparator(a[1..], sep, b);
    }
  }

  /** A separator-free prefix is glued onto the first piece. */
  lemma {:induction false} SplitAfterPlainPrefix(w: string, m: string, sep: char)
    requires sep !in w
    ensures Split(w + m, sep) == [w + Split(m, sep)[0]] + Split(m, sep)[1..]
    decreases |w|
  {
    if |w| == 0 {
      assert w + m == m;
      assert w + Split(m, sep)[0] == Split(m, sep)[0];
    } else {
      assert (w + m)[0] == w[0];
      assert (w + m)[1..] == w[1..] + m;
      SplitAfterPlainPrefix(w[1..], m, sep);
      assert [w[0]] + (w[1..] + Split(m, sep)[0]) == w + Split(m, sep)[0];
    }
  }

  /** Gluing `w` onto the last piece commutes with a new first piece. */
  lemma GlueLastAfterCons(x: string, u: seq<string>, w: string)
    requires |u| >= 1
    ensures var t := [x] + u;
            t[..|t| - 1] + [t[|t| - 1] + w] == [x] + (u[..|u| - 1] + [u[|u| - 1] + w])
  {
  }

  /** Gluing `w` onto the last piece commutes with gluing `c` onto the first. */
  lemma GlueLastAfterHead(c: char, u: seq<string>, w: string)
    requires |u| >= 1
    ensures var t := [[c] + u[0]] + u[1..];
            var v := u[..|u| - 1] + [u[|u| - 1] + w];
            t[..|t| - 1] + [t[|t| - 1] + w] == [[c] + v[0]] + v[1..]
  {
    var v := u[..|u| - 1] + [u[|u| - 1] + w];
    if |u| == 1 {
      assert [c] + (u[0] + w) == [c] + u[0] + w;
    } else {
      assert v[0] == u[0];
      assert v[1..] == u[1..|u| - 1] + [u[|u| - 1] + w];
    }
  }

  /** A separator-free suffix is glued onto the last piece. */
  lemma {:induction false} SplitBeforePlainSuffix(m: string, w: string, sep: char)
    requires sep !in w
    ensures var t := Split(m, sep);
            Split(m + w, sep) == t[..|t| - 1] + [t[|t| - 1] + w]
    decreases |m|
  {
    if |m| == 0 {
      assert m + w == w;
      SplitWithoutSeparator(w, sep);
    } else {
      assert (m + w)[0] == m[0];
      assert (m + w)[1..] == m[1..] + w;
      SplitBeforePlainSuffix(m[1..], w, sep);
      var u := Split(m[1..], sep);
      if m[0] == sep {
        GlueLastAfterCons("", u, w);
      } else {
        GlueLastAfterHead(m[0], u, w);
      }
    }
  }

  /** Splitting a join of separator-free pieces gives the pieces back. */
  lemma {:induction false} SplitOfJoin(parts: seq<string>, sep: char)
    requires |parts| >= 1
    requires forall i :: 0 <= i < |parts| ==> sep !in parts[i]
    ensures Split(Join(parts, [sep]), sep) == parts
    decreases |parts|
  {
    if |parts| == 1 {
      SplitWithoutSeparator(parts[0], sep);
    } else {
      SplitOfJoin(parts[1..], sep);
      SplitAtSeparator(parts[0], sep, Join(parts[1..], [sep]));
      SplitWithoutSeparator(parts[0], sep);
    }
  }

  /** Joining the pieces of a split gives the string back. */
  lemma {:induction false} JoinOfSplit(s: string, sep: char)
    ensures Join(Split(s, sep), [sep]) == s
    decreases |s|
  {
    if |s| > 0 {
      JoinOfSplit(s[1..], sep);
      var t := Split(s[1..], sep);
      if s[0] == sep {
        assert Split(s, sep)[1..] == t;
      } else {
        var r := Split(s, sep);
        assert r[1..] == t[1..];
        if |t| == 1 {
          assert Join(r, [sep]) == [s[0]] + t[0];
        } else {
          assert Join(r, [sep]) == [s[0]] + t[0] + [sep] + Join(t[1..], [sep]);
        }
      }
    }
  }

  lemma {:induction false} JoinEnds(parts: seq<string>, sep: string)
    requires |parts| >= 1 && |parts[0]| > 0 && |parts[|parts| - 1]| > 0
    ensures |Join(parts, sep)| > 0
    ensures Join(parts, sep)[0] == parts[0][0]
    ensures Join(parts, sep)[|Join(parts, sep)| - 1] == parts[|parts| - 1][|parts[|parts| - 1]| - 1]
    decreases |parts|
  {
    if |parts| > 1 {
      var rest := parts[1..];
      assert rest[|rest| - 1] == parts[|parts| - 1];
      if |rest[0]| > 0 {
        JoinEnds(rest, sep);
      } else {
        JoinLast(rest, sep);
      }
    }
  }

  lemma {:induction false} JoinLast(parts: seq<string>, sep: string)
    requires |parts| >= 1 && |parts[|parts| - 1]| > 0
    ensures |Join(parts, sep)| > 0
    ensures Join(parts, sep)[|Join(parts, sep)| - 1] == parts[|parts| - 1][|parts[|parts| - 1]| - 1]
    decreases |parts|
  {
    if |parts| > 1 {
      var rest := parts[1..];
      assert rest[|rest| - 1] == parts[|parts| - 1];
      JoinLast(rest, sep);
    }
  }

  // ---------------------------------------------------------------------------
  // Decimal rendering of an array index (template literals `${index}`)
  // ---------------------------------------------------------------------------

  function DigitChar(d: nat): char
    requires d < 10
  {
    ('0' as int + d) as char
  }

  function NatToString(n: nat): (r: string)
    ensures |r| >= 1
    ensures forall i :: 0 <= i < |r| ==> '0' <= r[i] <= '9'
  {
    if n < 10 then [DigitChar(n)] else NatToString(n / 10) + [DigitChar(n % 10)]
  }
}
