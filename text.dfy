/**
 * String operations with the JavaScript semantics the parser and the scorer rely on:
 * `includes`, `toLowerCase`, `split`, `join`, `trim` and the decimal rendering of a
 * count in a template literal.
 */
module Text {

  /** `k` occurs in `s` as a contiguous run of characters (`String.prototype.includes`). */
  predicate Contains(s: string, k: string)
  {
    exists i | 0 <= i <= |s| - |k| :: OccursAt(s, k, i)
  }

  /** `k` occurs in `s` starting at index `i`. */
  predicate OccursAt(s: string, k: string, i: int)
  {
    0 <= i <= |s| - |k| && s[i..i + |k|] == k
  }

  lemma ContainsAt(s: string, k: string, i: int)
    requires OccursAt(s, k, i)
    ensures Contains(s, k)
  {
  }

  /** Containment is transitive: a run inside a run of `t` is a run of `t`. */
  lemma ContainsTransitive(t: string, s: string, k: string)
    requires Contains(t, s) && Contains(s, k)
    ensures Contains(t, k)
  {
    var j :| OccursAt(t, s, j);
    assert OccursAt(t, s, j);
    var i :| OccursAt(s, k, i);
    assert OccursAt(s, k, i);
    forall n | 0 <= n < |k| ensures t[j + i + n] == k[n] {
      assert s[i + n] == k[n];
      assert t[j + (i + n)] == s[i + n];
    }
    assert t[j + i..j + i + |k|] == k;
    ContainsAt(t, k, j + i);
  }

  /** Lower-casing of one character: the ASCII capitals A to Z map to a to z. */
  function LowerChar(c: char): char
  {
    if 'A' <= c <= 'Z' then (c as int - 'A' as int + 'a' as int) as char else c
  }

  /** `String.prototype.toLowerCase`, character by character. */
  function Lower(s: string): (r: string)
    ensures |r| == |s|
    ensures forall i :: 0 <= i < |s| ==> r[i] == LowerChar(s[i])
  {
    seq(|s|, i requires 0 <= i < |s| => LowerChar(s[i]))
  }

  /** `lines.map(l => l.toLowerCase())`. */
  function LowerAll(lines: seq<string>): (r: seq<string>)
    ensures |r| == |lines|
    ensures forall i :: 0 <= i < |lines| ==> r[i] == Lower(lines[i])
  {
    seq(|lines|, i requires 0 <= i < |lines| => Lower(lines[i]))
  }

  lemma LowerSlice(s: string, a: int, b: int)
    requires 0 <= a <= b <= |s|
    ensures Lower(s)[a..b] == Lower(s[a..b])
  {
  }

  /** Lower-casing both sides keeps a containment. */
  lemma ContainsLower(s: string, k: string)
    requires Contains(s, k)
    ensures Contains(Lower(s), Lower(k))
  {
    var i :| OccursAt(s, k, i);
    assert OccursAt(s, k, i);
    LowerSlice(s, i, i + |k|);
    ContainsAt(Lower(s), Lower(k), i);
  }

  /** `parts.join(sep)`: the parts with `sep` between consecutive ones. */
  function Join(parts: seq<string>, sep: string): string
  {
    if |parts| == 0 then ""
    else if |parts| == 1 then parts[0]
    else parts[0] + sep + Join(parts[1..], sep)
  }

  /** The index of the first `c` in `s`, or `|s|` when there is none. */
  function IndexOf(s: string, c: char): (i: nat)
    ensures i <= |s|
    ensures i < |s| ==> s[i] == c
    ensures forall j :: 0 <= j < i ==> s[j] != c
  {
    if s == [] then 0
    else if s[0] == c then 0
    else 1 + IndexOf(s[1..], c)
  }

  /**
   * `s.split(c)` for a one-character separator: the maximal runs between separators,
   * so an empty string or a trailing separator yields an empty last piece.
   */
  function Split(s: string, c: char): (parts: seq<string>)
    ensures |parts| >= 1
    ensures forall p :: p in parts ==> c !in p
    decreases |s|
  {
    var i := IndexOf(s, c);
    if i == |s| then [s] else [s[..i]] + Split(s[i + 1..], c)
  }

  /** Splitting and joining on the same character gives the string back. */
  lemma {:induction false} SplitJoin(s: string, c: char)
    ensures Join(Split(s, c), [c]) == s
    decreases |s|
  {
    var i := IndexOf(s, c);
    if i < |s| {
      var rest := Split(s[i + 1..], c);
      SplitJoin(s[i + 1..], c);
      assert Split(s, c) == [s[..i]] + rest;
      assert ([s[..i]] + rest)[1..] == rest;
      assert s == s[..i] + [c] + s[i + 1..];
    }
  }

  /** Every piece of a split is a run of characters of the split string. */
  lemma {:induction false} SplitPiecesOccur(s: string, c: char)
    ensures forall p :: p in Split(s, c) ==> Contains(s, p)
    decreases |s|
  {
    var i := IndexOf(s, c);
    if i == |s| {
      assert s[0..|s|] == s;
      ContainsAt(s, s, 0);
    } else {
      var rest := s[i + 1..];
      SplitPiecesOccur(rest, c);
      assert s[0..i] == s[..i];
      ContainsAt(s, s[..i], 0);
      assert s[i + 1..i + 1 + |rest|] == rest;
      ContainsAt(s, rest, i + 1);
      forall p | p in Split(rest, c) ensures Contains(s, p) {
        ContainsTransitive(s, rest, p);
      }
    }
  }

  /** A join starts with its first part. */
  lemma JoinStartsWithFirst(parts: seq<string>, sep: string)
    requires |parts| >= 1
    ensures |Join(parts, sep)| >= |parts[0]| && Join(parts, sep)[..|parts[0]|] == parts[0]
  {
  }

  /** The ECMAScript WhiteSpace and LineTerminator characters (`trim`, and `\s` in a regular expression). */
  predicate IsSpace(c: char)
  {
    c == ' ' || c == '\t' || c == '\n' || c == '\r' || c == '\U{000B}' || c == '\U{000C}'
    || c == '\U{00A0}' || c == '\U{1680}' || ('\U{2000}' <= c <= '\U{200A}')
    || c == '\U{2028}' || c == '\U{2029}' || c == '\U{202F}' || c == '\U{205F}'
    || c == '\U{3000}' || c == '\U{FEFF}'
  }

  function TrimStart(s: string): (r: string)
    ensures |r| <= |s| && r == s[|s| - |r|..]
    ensures r == [] || !IsSpace(r[0])
    ensures forall i :: 0 <= i < |s| - |r| ==> IsSpace(s[i])
    ensures s == [] || !IsSpace(s[0]) ==> r == s
  {
    if s != [] && IsSpace(s[0]) then
      var r := TrimStart(s[1..]);
      assert s[1..][|s| - 1 - |r|..] == s[|s| - |r|..];
      assert forall i :: 1 <= i < |s| - |r| ==> s[i] == s[1..][i - 1];
      r
    else s
  }

  function TrimEnd(s: string): (r: string)
    ensures |r| <= |s| && r == s[..|r|]
    ensures r == [] || !IsSpace(r[|r| - 1])
    ensures forall i :: |r| <= i < |s| ==> IsSpace(s[i])
    ensures s == [] || !IsSpace(s[|s| - 1]) ==> r == s
  {
    if s != [] && IsSpace(s[|s| - 1]) then
      var r := TrimEnd(s[..|s| - 1]);
      assert s[..|s| - 1][..|r|] == s[..|r|];
      assert forall i :: |r| <= i < |s| - 1 ==> s[i] == s[..|s| - 1][i];
      r
    else s
  }

  /**
   * `String.prototype.trim`: a contiguous piece of `s` that neither starts nor ends with
   * white space, and that is `s` itself when `s` already has no white space at its ends.
   */
  function Trim(s: string): (r: string)
    ensures |r| <= |s| && Contains(s, r)
    ensures r == [] || (!IsSpace(r[0]) && !IsSpace(r[|r| - 1]))
    ensures TrimmedFrom(s, r)
    ensures s == [] || (!IsSpace(s[0]) && !IsSpace(s[|s| - 1])) ==> r == s
  {
    var t := TrimStart(s);
    var r := TrimEnd(t);
    TrimPiece(s, t, r);
    TrimBounds(s, t, r);
    r
  }

  /** Trimming twice trims no more than trimming once. */
  lemma TrimIdempotent(s: string)
    ensures Trim(Trim(s)) == Trim(s)
  {
    var r := Trim(s);
    assert r == [] || (!IsSpace(r[0]) && !IsSpace(r[|r| - 1]));
  }

  lemma TrimPiece(s: string, t: string, r: string)
    requires |t| <= |s| && t == s[|s| - |t|..]
    requires |r| <= |t| && r == t[..|r|]
    ensures Contains(s, r)
  {
    assert s[|s| - |t|..][..|r|] == s[|s| - |t|..|s| - |t| + |r|];
    ContainsAt(s, r, |s| - |t|);
  }

  /** White space inside the string survives trimming. */
  lemma TrimKeepsInnerSpace()
    ensures Trim(" a b ") == "a b"
  {
    TrimStartExample();
    TrimEndExample();
  }

  lemma TrimStartExample()
    ensures TrimStart(" a b ") == "a b "
  {
    var s := " a b ";
    assert IsSpace(s[0]) && s[1..] == "a b ";
    assert !IsSpace("a b "[0]);
  }

  lemma TrimEndExample()
    ensures TrimEnd("a b ") == "a b"
  {
    var s := "a b ";
    assert IsSpace(s[3]) && s[..3] == "a b";
    assert !IsSpace("a b"[2]);
  }

  /** `r` is `s` with some leading and some trailing white space removed. */
  ghost predicate TrimmedFrom(s: string, r: string)
  {
    exists k, m :: 0 <= k <= m <= |s| && r == s[k..m] && SpaceOutside(s, k, m)
  }

  /** Every character of `s` before index `k` and from index `m` on is white space. */
  ghost predicate SpaceOutside(s: string, k: int, m: int)
    requires 0 <= k <= m <= |s|
  {
    (forall i :: 0 <= i < k ==> IsSpace(s[i])) && (forall i :: m <= i < |s| ==> IsSpace(s[i]))
  }

  /** The trimmed string is `s` between a white-space prefix and a white-space suffix. */
  lemma TrimBounds(s: string, t: string, r: string)
    requires |t| <= |s| && t == s[|s| - |t|..]
    requires forall i :: 0 <= i < |s| - |t| ==> IsSpace(s[i])
    requires |r| <= |t| && r == t[..|r|]
    requires forall i :: |r| <= i < |t| ==> IsSpace(t[i])
    ensures TrimmedFrom(s, r)
  {
    var k := |s| - |t|;
    var m := k + |r|;
    assert r == s[k..m];
    forall i | m <= i < |s| ensures IsSpace(s[i]) {
      assert s[i] == t[i - k];
    }
    assert SpaceOutside(s, k, m);
  }

  function DigitChar(d: nat): (c: char)
    requires d < 10
    ensures '0' <= c <= '9'
  {
    ('0' as int + d) as char
  }

  predicate IsDigit(c: char)
  {
    '0' <= c <= '9'
  }

  /** The decimal rendering of a count inside a template literal, without leading zeros. */
  function NatToString(n: nat): (s: string)
    ensures |s| >= 1
    ensures forall i :: 0 <= i < |s| ==> IsDigit(s[i])
    ensures n > 0 ==> s[0] != '0'
  {
    if n < 10 then [DigitChar(n)] else NatToString(n / 10) + [DigitChar(n % 10)]
  }

  /** The number a string of decimal digits denotes. */
  function DecimalValue(s: string): nat
    requires forall i :: 0 <= i < |s| ==> IsDigit(s[i])
  {
    if s == [] then 0
    else
      assert IsDigit(s[|s| - 1]);
      DecimalValue(s[..|s| - 1]) * 10 + (s[|s| - 1] as int - '0' as int)
  }

  /** Reading back the rendering of `n` gives `n`. */
  lemma {:induction false} NatToStringRoundTrip(n: nat)
    ensures DecimalValue(NatToString(n)) == n
  {
    if n >= 10 {
      NatToStringRoundTrip(n / 10);
      var s := NatToString(n);
      assert s[..|s| - 1] == NatToString(n / 10);
    }
  }

  /** The length of the run of digits that `s` starts with. */
  function DigitPrefix(s: string): nat
  {
    if s == [] || !IsDigit(s[0]) then 0 else 1 + DigitPrefix(s[1..])
  }

  /** A run of digits followed by a non-digit: the digit run is exactly the first part. */
  lemma {:induction false} DigitPrefixOf(a: string, t: string)
    requires forall i :: 0 <= i < |a| ==> IsDigit(a[i])
    requires t != [] && !IsDigit(t[0])
    ensures DigitPrefix(a + t) == |a|
  {
    if a == [] {
      assert a + t == t;
    } else {
      assert (a + t)[1..] == a[1..] + t;
      DigitPrefixOf(a[1..], t);
    }
  }

  /** The rendering of a count can be read off any string it starts, when a non-digit follows it. */
  lemma NatToStringPrefixInjective(n: nat, m: nat, t: string, u: string)
    requires t != [] && !IsDigit(t[0]) && u != [] && !IsDigit(u[0])
    requires NatToString(n) + t == NatToString(m) + u
    ensures n == m && t == u
  {
    var a, b := NatToString(n), NatToString(m);
    DigitPrefixOf(a, t);
    DigitPrefixOf(b, u);
    assert a == (a + t)[..|a|] == (b + u)[..|b|] == b;
    assert t == (a + t)[|a|..] == (b + u)[|b|..] == u;
    NatToStringRoundTrip(n);
    NatToStringRoundTrip(m);
  }
}
