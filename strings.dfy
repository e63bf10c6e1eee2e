/** The JavaScript string primitives the extension relies on, over `string` (a `seq<char>`):
    `trim`, `split` and `join` on one separator character, `indexOf`/`includes`,
    `replace` with a string pattern, ASCII `toLowerCase`, `Number(text)` for
    integer decimal text with an optional sign, and `parseInt`. */
module Strings {

  /** The characters `String.prototype.trim` removes: ECMAScript WhiteSpace
      (tab, vertical tab, form feed, space, no-break space, byte order mark and the
      space separators) and LineTerminator (line feed, carriage return, U+2028, U+2029). */
  predicate IsJsWhitespace(c: char) {
    c == ' ' || c == '\t' || c == '\n' || c == '\r' || c == '\U{000B}' || c == '\U{000C}'
    || c == '\U{00A0}' || c == '\U{FEFF}' || c == '\U{1680}' || ('\U{2000}' <= c <= '\U{200A}')
    || c == '\U{2028}' || c == '\U{2029}' || c == '\U{202F}' || c == '\U{205F}' || c == '\U{3000}'
  }

  predicate AllWhitespace(s: string) {
    forall i :: 0 <= i < |s| ==> IsJsWhitespace(s[i])
  }

  /** Neither starts nor ends with whitespace: what `trim` returns. */
  predicate Trimmed(s: string) {
    s == [] || (!IsJsWhitespace(s[0]) && !IsJsWhitespace(s[|s| - 1]))
  }

  /** `trimStart`: the suffix left after dropping leading whitespace. */
  function TrimStart(s: string): (r: string)
    ensures |r| <= |s| && r == s[|s| - |r|..]
    ensures AllWhitespace(s[..|s| - |r|])
    ensures r != [] ==> !IsJsWhitespace(r[0])
  {
    if s != [] && IsJsWhitespace(s[0]) then TrimStart(s[1..]) else s
  }

  /** `trimEnd`: the prefix left after dropping trailing whitespace. */
  function TrimEnd(s: string): (r: string)
    ensures |r| <= |s| && r == s[..|r|]
    ensures AllWhitespace(s[|r|..])
    ensures r != [] ==> !IsJsWhitespace(r[|r| - 1])
  {
    if s != [] && IsJsWhitespace(s[|s| - 1]) then TrimEnd(s[..|s| - 1]) else s
  }

  /** `trim` */
  function Trim(s: string): (r: string)
    ensures Trimmed(r) && |r| <= |s|
  {
    TrimEnd(TrimStart(s))
  }

  lemma {:induction false} TrimStartOf(a: string, r: string)
    requires AllWhitespace(a)
    requires r == [] || !IsJsWhitespace(r[0])
    ensures TrimStart(a + r) == r
    decreases |a|
  {
    if a == [] {
      assert a + r == r;
    } else {
      assert (a + r)[1..] == a[1..] + r;
      TrimStartOf(a[1..], r);
    }
  }

  lemma {:induction false} TrimEndOf(r: string, b: string)
    requires AllWhitespace(b)
    requires r == [] || !IsJsWhitespace(r[|r| - 1])
    ensures TrimEnd(r + b) == r
    decreases |b|
  {
    if b == [] {
      assert r + b == r;
    } else {
      assert (r + b)[..|r + b| - 1] == r + b[..|b| - 1];
      TrimEndOf(r, b[..|b| - 1]);
    }
  }

  /** Trimming is determined by the surrounding whitespace: whatever whitespace
      surrounds an already-trimmed text, `trim` gives that text back. */
  lemma TrimOf(a: string, r: string, b: string)
    requires AllWhitespace(a) && AllWhitespace(b) && Trimmed(r)
    ensures Trim(a + r + b) == r
  {
    if r == [] {
      assert a + r + b == a + b;
      assert AllWhitespace(a + b);
      TrimStartOf(a + b, []);
      assert a + b + [] == a + b;
      TrimEndOf([], []);
    } else {
      assert a + r + b == a + (r + b);
      TrimStartOf(a, r + b);
      TrimEndOf(r, b);
    }
  }

  /** Text that starts and ends without whitespace stays so whatever is put between. */
  lemma TrimmedJoin(x: string, y: string, z: string)
    requires x != [] && z != [] && Trimmed(x) && Trimmed(z)
    ensures Trimmed(x + y + z)
  {
    assert (x + y + z)[0] == x[0];
    assert (x + y + z)[|x + y + z| - 1] == z[|z| - 1];
  }

  /** `trim` only removes characters: what it keeps was in the text. */
  lemma TrimWithin(s: string)
    ensures forall i :: 0 <= i < |Trim(s)| ==> Trim(s)[i] in s
  {
    var a := TrimStart(s);
    var t := TrimEnd(a);
    var lo := |s| - |a|;
    assert t == s[lo..lo + |t|];
    SliceWithin(s, lo, lo + |t|);
  }

  lemma SliceWithin(s: string, lo: nat, hi: nat)
    requires lo <= hi <= |s|
    ensures forall i :: 0 <= i < hi - lo ==> s[lo..hi][i] in s
  {
    forall i | 0 <= i < hi - lo ensures s[lo..hi][i] in s {
      assert s[lo..hi][i] == s[lo + i];
    }
  }

  /** Trimming leaves nothing exactly when the text is all whitespace. */
  lemma TrimBlank(s: string)
    ensures Trim(s) == [] <==> AllWhitespace(s)
  {
    if AllWhitespace(s) {
      assert s + [] + [] == s;
      TrimOf(s, [], []);
    }
    if Trim(s) == [] {
      var a := TrimStart(s);
      assert a == a[0..];
      assert s == s[..|s| - |a|] + a;
    }
  }

  lemma TrimIdempotent(s: string)
    ensures Trim(Trim(s)) == Trim(s)
  {
    var t := Trim(s);
    assert [] + t + [] == t;
    TrimOf([], t, []);
  }

  /** `parts.join(sep)` with a one-character separator. */
  function Join(parts: seq<string>, sep: char): (r: string)
    ensures |parts| == 1 ==> r == parts[0]
  {
    if |parts| == 0 then [] else if |parts| == 1 then parts[0]
    else parts[0] + [sep] + Join(parts[1..], sep)
  }

  /** Joining one more part puts a separator and that part at the end. */
  lemma {:induction false} JoinSnoc(parts: seq<string>, x: string, sep: char)
    requires |parts| >= 1
    ensures Join(parts + [x], sep) == Join(parts, sep) + [sep] + x
    decreases |parts|
  {
    if |parts| == 1 {
      assert (parts + [x])[1..] == [x];
    } else {
      assert (parts + [x])[1..] == parts[1..] + [x];
      JoinSnoc(parts[1..], x, sep);
    }
  }

  /** A character that is neither the separator nor in any part is not in the joined text. */
  lemma {:induction false} JoinFree(parts: seq<string>, sep: char, c: char)
    requires c != sep
    requires forall i :: 0 <= i < |parts| ==> c !in parts[i]
    ensures c !in Join(parts, sep)
    decreases |parts|
  {
    if |parts| > 1 {
      JoinFree(parts[1..], sep, c);
    }
  }

  /** Joining non-empty trimmed parts gives trimmed text: it starts with the first part
      and ends with the last. */
  lemma {:induction false} JoinTrimmed(parts: seq<string>, sep: char)
    requires |parts| >= 1
    requires forall i :: 0 <= i < |parts| ==> parts[i] != [] && Trimmed(parts[i])
    ensures Trimmed(Join(parts, sep))
    decreases |parts|
  {
    if |parts| > 1 {
      JoinTrimmed(parts[1..], sep);
      TrimmedJoin(parts[0], [sep], Join(parts[1..], sep));
    }
  }

  /** `s.split(sep)` with a one-character separator: never empty, and the pieces are
      the maximal separator-free runs, so joining them back gives `s`. */
  function Split(s: string, sep: char): (r: seq<string>)
    ensures |r| >= 1
    ensures forall i :: 0 <= i < |r| ==> sep !in r[i]
    ensures Join(r, sep) == s
  {
    if s == [] then [[]]
    else
      var rest := Split(s[1..], sep);
      if s[0] == sep then
        assert [[]] + rest == [[]] + rest && ([[]] + rest)[1..] == rest;
        [[]] + rest
      else
        var r := [[s[0]] + rest[0]] + rest[1..];
        assert r[1..] == rest[1..];
        assert Join(r, sep) == s by {
          if |rest| == 1 {
            assert s == [s[0]] + s[1..];
          } else {
            assert Join(rest, sep) == rest[0] + [sep] + Join(rest[1..], sep);
            assert s == [s[0]] + s[1..];
          }
        }
        r
  }

  /** Splitting undoes joining when no piece contains the separator. */
  lemma {:induction false} SplitJoin(parts: seq<string>, sep: char)
    requires |parts| >= 1
    requires forall i :: 0 <= i < |parts| ==> sep !in parts[i]
    ensures Split(Join(parts, sep), sep) == parts
    decreases |parts|, |parts[0]|
  {
    var p := parts[0];
    if |parts| == 1 {
      if p != [] {
        SplitJoin([p[1..]], sep);
        assert p[0] != sep by { assert p[0] in p; }
        assert p == [p[0]] + p[1..];
      }
    } else {
      var s := Join(parts, sep);
      if p == [] {
        assert s == [sep] + Join(parts[1..], sep);
        assert s[1..] == Join(parts[1..], sep);
        SplitJoin(parts[1..], sep);
        assert parts == [[]] + parts[1..];
      } else {
        var parts' := [p[1..]] + parts[1..];
        assert parts'[1..] == parts[1..];
        assert forall i :: 0 <= i < |parts'| ==> sep !in parts'[i] by {
          forall i | 0 <= i < |parts'| ensures sep !in parts'[i] {
            if i == 0 {
              assert forall c :: c in p[1..] ==> c in p;
            } else {
              assert parts'[i] == parts[i];
            }
          }
        }
        SplitJoin(parts', sep);
        assert s == [p[0]] + Join(parts', sep);
        assert s[1..] == Join(parts', sep);
        assert p[0] != sep by { assert p[0] in p; }
        assert p == [p[0]] + p[1..];
        assert parts == [[p[0]] + parts'[0]] + parts'[1..];
      }
    }
  }

  /** `p` occurs in `s` starting at index `i`. */
  predicate Occurs(s: string, p: string, i: int) {
    0 <= i && i + |p| <= |s| && s[i..i + |p|] == p
  }

  /** `s.indexOf(p)`: the first index where `p` occurs, or -1 when it does not. */
  function IndexOf(s: string, p: string): (r: int)
    ensures r == -1 || Occurs(s, p, r)
    ensures forall i :: 0 <= i && (r == -1 || i < r) ==> !Occurs(s, p, i)
  {
    if |p| > |s| then -1
    else if s[..|p|] == p then 0
    else
      var r := IndexOf(s[1..], p);
      assert forall i :: 1 <= i ==> (Occurs(s, p, i) <==> Occurs(s[1..], p, i - 1)) by {
        forall i | 1 <= i && i + |p| <= |s| ensures Occurs(s, p, i) <==> Occurs(s[1..], p, i - 1) {
          var a, b := s[i..i + |p|], s[1..][i - 1..i - 1 + |p|];
          assert forall j :: 0 <= j < |p| ==> a[j] == b[j];
          assert a == b;
        }
      }
      assert s[0..|p|] == s[..|p|];
      if r < 0 then -1 else r + 1
  }

  /** An occurrence stays an occurrence when text is put in front. */
  lemma OccursShift(a: string, b: string, p: string, i: int)
    requires Occurs(b, p, i)
    ensures Occurs(a + b, p, |a| + i)
  {
    assert (a + b)[|a| + i..|a| + i + |p|] == b[i..i + |p|];
  }

  /** An occurrence inside a slice is an occurrence in the whole text. */
  lemma OccursSlice(x: string, a: int, b: int, p: string, j: int)
    requires 0 <= a <= b <= |x| && Occurs(x[a..b], p, j)
    ensures Occurs(x, p, a + j)
  {
    var u := x[a..b];
    assert u[j..j + |p|] == p;
    assert forall t :: 0 <= t < |p| ==> x[a + j..a + j + |p|][t] == p[t];
  }

  /** Trimming a text cannot create an occurrence of a pattern. */
  lemma TrimNoOccurrence(x: string, p: string)
    requires forall j :: !Occurs(x, p, j)
    ensures forall j :: !Occurs(Trim(x), p, j)
  {
    var s := TrimStart(x);
    var a := |x| - |s|;
    var r := Trim(x);
    assert r == x[a..a + |r|];
    forall j ensures !Occurs(r, p, j) {
      if Occurs(r, p, j) {
        OccursSlice(x, a, a + |r|, p, j);
      }
    }
  }

  /** `s.replace(p, "")` on a text that starts with `p` drops that prefix. */
  lemma ReplaceLeading(s: string, p: string)
    requires p <= s
    ensures ReplaceFirst(s, p, "") == s[|p|..]
  {
    assert s[..|p|] == p;
  }

  /** The text before the first occurrence of `marker`, trimmed, or the whole text when
      the marker does not occur. */
  function CutBefore(s: string, marker: string): (r: string)
  {
    var i := IndexOf(s, marker);
    if i != -1 then Trim(s[..i]) else s
  }

  /** A trimmed text comes back trimmed and free of the marker. */
  lemma CutBeforeClean(s: string, marker: string)
    requires Trimmed(s) && marker != []
    ensures Trimmed(CutBefore(s, marker))
    ensures forall j :: !Occurs(CutBefore(s, marker), marker, j)
  {
    var i := IndexOf(s, marker);
    if i != -1 {
      var cut := s[..i];
      assert cut == s[0..i];
      forall j ensures !Occurs(cut, marker, j) {
        if Occurs(cut, marker, j) {
          OccursSlice(s, 0, i, marker, j);
        }
      }
      TrimNoOccurrence(cut, marker);
    }
  }

  /** A text without the marker is kept whole. */
  lemma CutBeforeAbsent(s: string, marker: string)
    requires forall j :: !Occurs(s, marker, j)
    ensures CutBefore(s, marker) == s
  {
  }

  /** Text, then trailing whitespace, then the marker and the rest: cut at the marker when
      that is where it first occurs. */
  lemma CutBeforeAt(t: string, b: string, marker: string, rest: string)
    requires AllWhitespace(b) && Trimmed(t)
    requires forall j :: 0 <= j < |t + b| ==> !Occurs(t + b + marker + rest, marker, j)
    ensures CutBefore(t + b + marker + rest, marker) == t
  {
    var s := t + b + marker + rest;
    var n := |t + b|;
    assert s[n..n + |marker|] == marker;
    assert Occurs(s, marker, n);
    assert IndexOf(s, marker) == n;
    assert s[..n] == t + b;
    assert [] + t + b == t + b;
    TrimOf([], t, b);
  }

  /** `s.includes(p)` */
  predicate Contains(s: string, p: string) {
    IndexOf(s, p) >= 0
  }

  /** `s.startsWith(p)` */
  predicate StartsWith(s: string, p: string) {
    p <= s
  }

  /** `s.replace(p, v)` with a string pattern: only the first occurrence is replaced.
      (Replacement strings are assumed free of `$` patterns.) */
  function ReplaceFirst(s: string, p: string, v: string): (r: string)
  {
    var i := IndexOf(s, p);
    if i < 0 then s else s[..i] + v + s[i + |p|..]
  }

  lemma ReplaceFirstAbsent(s: string, p: string, v: string)
    requires forall i :: !Occurs(s, p, i)
    ensures ReplaceFirst(s, p, v) == s
  {
  }

  /** Replacing at the first occurrence: when `p` does not occur anywhere before
      `|pre|` in `pre + p + post`, exactly that occurrence becomes `v`. */
  lemma ReplaceFirstAt(pre: string, p: string, post: string, v: string)
    requires forall i :: 0 <= i < |pre| ==> !Occurs(pre + p + post, p, i)
    ensures ReplaceFirst(pre + p + post, p, v) == pre + v + post
  {
    var s := pre + p + post;
    assert s[|pre|..|pre| + |p|] == p;
    assert Occurs(s, p, |pre|);
    var i := IndexOf(s, p);
    assert i == |pre|;
    assert s[..i] == pre;
    assert s[i + |p|..] == post;
  }

  /** An occurrence in the back part of a text is one in the back part alone. */
  lemma OccursUnshift(a: string, b: string, p: string, i: int)
    requires 0 <= i && Occurs(a + b, p, |a| + i)
    ensures Occurs(b, p, i)
  {
    assert (a + b)[|a| + i..|a| + i + |p|] == b[i..i + |p|];
  }

  /** The first occurrence in a text whose front part holds none starts in the back part. */
  lemma IndexOfPast(x: string, rest: string, p: string)
    requires forall i :: 0 <= i < |x| ==> !Occurs(x + rest, p, i)
    ensures IndexOf(x + rest, p) == if IndexOf(rest, p) == -1 then -1 else |x| + IndexOf(rest, p)
  {
    var j := IndexOf(rest, p);
    var i := IndexOf(x + rest, p);
    if i != -1 {
      OccursUnshift(x, rest, p, i - |x|);
    }
    if j != -1 {
      OccursShift(x, rest, p, j);
    }
  }

  /** `replace` passes over a front part in which the pattern does not start. */
  lemma ReplaceFirstPast(x: string, rest: string, p: string, v: string)
    requires forall i :: 0 <= i < |x| ==> !Occurs(x + rest, p, i)
    ensures ReplaceFirst(x + rest, p, v) == x + ReplaceFirst(rest, p, v)
  {
    IndexOfPast(x, rest, p);
    ReplaceFirstShifted(x, rest, p, v);
  }

  /** `replace` where the first occurrence is that of the back part. */
  lemma ReplaceFirstShifted(x: string, rest: string, p: string, v: string)
    requires IndexOf(x + rest, p) == if IndexOf(rest, p) == -1 then -1 else |x| + IndexOf(rest, p)
    ensures ReplaceFirst(x + rest, p, v) == x + ReplaceFirst(rest, p, v)
  {
    var j := IndexOf(rest, p);
    if j == -1 {
      assert ReplaceFirst(x + rest, p, v) == x + rest;
      assert ReplaceFirst(rest, p, v) == rest;
    } else {
      ReplaceFirstFound(rest, p, v, j);
      ReplaceFirstFound(x + rest, p, v, |x| + j);
      ReplaceSplice(x, rest, j, |p|, v, ReplaceFirst(x + rest, p, v), ReplaceFirst(rest, p, v));
    }
  }

  /** `replace` at a found occurrence. */
  lemma ReplaceFirstFound(s: string, p: string, v: string, i: nat)
    requires IndexOf(s, p) == i
    ensures i + |p| <= |s| && ReplaceFirst(s, p, v) == s[..i] + v + s[i + |p|..]
  {
  }

  /** Splicing at a position of the back part is splicing the back part. */
  lemma ReplaceSplice(x: string, rest: string, j: nat, n: nat, v: string, whole: string, back: string)
    requires j + n <= |rest|
    requires whole == (x + rest)[..|x| + j] + v + (x + rest)[|x| + j + n..]
    requires back == rest[..j] + v + rest[j + n..]
    ensures whole == x + back
  {
    var s := x + rest;
    assert s[..|x| + j] == x + rest[..j];
    assert s[|x| + j + n..] == rest[j + n..];
  }

  /** ASCII `toLowerCase`. */
  function AsciiLower(s: string): (r: string)
    ensures |r| == |s|
    ensures forall i :: 0 <= i < |s| ==> r[i] == (if 'A' <= s[i] <= 'Z' then (s[i] as int + 32) as char else s[i])
  {
    if s == [] then []
    else [if 'A' <= s[0] <= 'Z' then (s[0] as int + 32) as char else s[0]] + AsciiLower(s[1..])
  }

  // ---------------------------------------------------------------------------
  // Number(text), for the decimal texts the pages show

  /** The result of `Number(text)`: a finite value or NaN. */
  datatype JsNumber = Finite(value: int) | NaN

  predicate IsDigit(c: char) { '0' <= c <= '9' }

  predicate AllDigits(s: string) {
    forall i :: 0 <= i < |s| ==> IsDigit(s[i])
  }

  /** The value of a decimal digit string. */
  function DigitsValue(s: string): (n: nat)
    requires AllDigits(s)
  {
    if s == [] then 0 else DigitsValue(s[..|s| - 1]) * 10 + (s[|s| - 1] as int - '0' as int)
  }

  /** The decimal spelling of `n`, without leading zeros. */
  function Decimal(n: nat): (s: string)
    ensures s != [] && AllDigits(s)
    ensures DigitsValue(s) == n
  {
    if n < 10 then [('0' as int + n) as char]
    else
      var s := Decimal(n / 10) + [('0' as int + n % 10) as char];
      assert s[..|s| - 1] == Decimal(n / 10);
      s
  }

  /** `Number(text)` for integer text: surrounding whitespace is ignored, blank text is 0,
      decimal digits with an optional sign give their value, anything else is NaN. */
  function ParseNumber(text: string): (r: JsNumber)
    ensures Trim(text) == [] ==> r == Finite(0)
    ensures r.Finite? && r.value < 0 ==> Trim(text)[0] == '-'
  {
    TrimmedNumber(Trim(text))
  }

  /** `Number` of text without surrounding whitespace. */
  function TrimmedNumber(t: string): (r: JsNumber)
    ensures r.Finite? && r.value < 0 ==> t != [] && t[0] == '-'
  {
    if t == [] then Finite(0)
    else if AllDigits(t) then Finite(DigitsValue(t))
    else if (t[0] == '-' || t[0] == '+') && t[1..] != [] && AllDigits(t[1..]) then
      if t[0] == '-' then Finite(0 - DigitsValue(t[1..])) else Finite(DigitsValue(t[1..]))
    else NaN
  }

  /** `Number` reads back what `Decimal` writes, with or without whitespace around it. */
  lemma ParseDecimal(a: string, n: nat, b: string)
    requires AllWhitespace(a) && AllWhitespace(b)
    ensures ParseNumber(a + Decimal(n) + b) == Finite(n)
  {
    var d := Decimal(n);
    assert !IsJsWhitespace(d[0]) && !IsJsWhitespace(d[|d| - 1]) by {
      assert IsDigit(d[0]) && IsDigit(d[|d| - 1]);
    }
    TrimOf(a, d, b);
  }

  /** A sign in front of the digits: "-" negates the value, "+" keeps it. */
  lemma ParseSigned(a: string, sign: char, n: nat, b: string)
    requires AllWhitespace(a) && AllWhitespace(b) && (sign == '-' || sign == '+')
    ensures ParseNumber(a + [sign] + Decimal(n) + b) == Finite(if sign == '-' then 0 - n else n)
  {
    var d := [sign] + Decimal(n);
    SignedTrimmed(sign, n);
    assert a + [sign] + Decimal(n) + b == a + d + b;
    TrimOf(a, d, b);
    SignedValue(Trim(a + d + b), sign, Decimal(n));
  }

  lemma SignedTrimmed(sign: char, n: nat)
    requires sign == '-' || sign == '+'
    ensures Trimmed([sign] + Decimal(n))
  {
    var d := [sign] + Decimal(n);
    assert IsDigit(d[|d| - 1]);
  }

  lemma SignedValue(t: string, sign: char, digits: string)
    requires (sign == '-' || sign == '+') && digits != [] && AllDigits(digits)
    requires t == [sign] + digits
    ensures TrimmedNumber(t) == Finite(if sign == '-' then 0 - DigitsValue(digits) else DigitsValue(digits))
  {
    assert !AllDigits(t) by {
      assert !IsDigit(t[0]);
    }
    assert t[1..] == digits;
  }

  /** `parseInt(text)`: leading whitespace skipped, an optional sign, then the longest
      run of decimal digits; NaN without digits. */
  function ParseInt(text: string): (r: JsNumber)
  {
    var t := TrimStart(text);
    var negative := t != [] && t[0] == '-';
    var u := if t != [] && (t[0] == '-' || t[0] == '+') then t[1..] else t;
    var d := u[..DigitRun(u)];
    if d == [] then NaN
    else if negative then Finite(0 - DigitsValue(d))
    else Finite(DigitsValue(d))
  }

  /** The length of the run of digits `s` starts with. */
  function DigitRun(s: string): (n: nat)
    ensures n <= |s| && AllDigits(s[..n])
    ensures n < |s| ==> !IsDigit(s[n])
  {
    if s != [] && IsDigit(s[0]) then
      var n := 1 + DigitRun(s[1..]);
      assert forall i :: 1 <= i < n ==> s[..n][i] == s[1..][..n - 1][i - 1];
      n
    else 0
  }

  /** The run of digits in front of a non-digit is read in full. */
  lemma {:induction false} DigitRunOf(d: string, rest: string)
    requires AllDigits(d) && (rest == [] || !IsDigit(rest[0]))
    ensures DigitRun(d + rest) == |d|
    decreases |d|
  {
    if d != [] {
      assert (d + rest)[1..] == d[1..] + rest;
      DigitRunOf(d[1..], rest);
    } else {
      assert d + rest == rest;
    }
  }

  /** `parseInt` reads the leading digits and ignores what follows them. */
  lemma ParseIntDigits(d: string, rest: string)
    requires d != [] && AllDigits(d) && (rest == [] || !IsDigit(rest[0]))
    ensures ParseInt(d + rest) == Finite(DigitsValue(d))
  {
    var s := d + rest;
    assert s[0] == d[0];
    UnsignedStart(s);
    DigitRunOf(d, rest);
    assert s[..|d|] == d;
  }

  /** Text that starts with a digit has no leading whitespace and no sign. */
  lemma UnsignedStart(s: string)
    requires s != [] && IsDigit(s[0])
    ensures TrimStart(s) == s && s[0] != '-' && s[0] != '+'
  {
    assert !IsJsWhitespace(s[0]);
  }

  lemma ParseIntAllDigits(d: string)
    requires d != [] && AllDigits(d)
    ensures ParseInt(d) == Finite(DigitsValue(d))
  {
    ParseIntDigits(d, []);
    assert d + [] == d;
  }
}
