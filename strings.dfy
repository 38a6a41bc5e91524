/** The string operations of the browser client: `String.prototype.replace`
    with a global literal pattern, `String.prototype.trim`, and the order used
    to sort user names. */
module Strings {

  /** `key` occurs in `s` starting at index `i`. */
  predicate OccursAt(s: string, key: string, i: nat)
  {
    i + |key| <= |s| && s[i..i + |key|] == key
  }

  ghost predicate Occurs(s: string, key: string)
  {
    exists i: nat :: OccursAt(s, key, i)
  }

  /** No character of `rep` appears in `key`. */
  predicate Disjoint(rep: string, key: string)
  {
    forall c :: c in rep ==> c !in key
  }

  /** `s.replace(/key/g, rep)` for a pattern that matches `key` literally: scan
      left to right, replacing each non-overlapping occurrence. */
  function ReplaceAll(s: string, key: string, rep: string): string
    requires key != []
    decreases |s|
  {
    if |s| < |key| then s
    else if s[..|key|] == key then rep + ReplaceAll(s[|key|..], key, rep)
    else [s[0]] + ReplaceAll(s[1..], key, rep)
  }

  /** Text in which `key` does not occur comes back unchanged. */
  lemma {:induction false} ReplaceAllAbsent(s: string, key: string, rep: string)
    requires key != [] && !Occurs(s, key)
    ensures ReplaceAll(s, key, rep) == s
    decreases |s|
  {
    if |s| >= |key| {
      assert !OccursAt(s, key, 0);
      forall i: nat ensures !OccursAt(s[1..], key, i) {
        if i + |key| <= |s[1..]| {
          assert s[1..][i..i + |key|] == s[i + 1..i + 1 + |key|];
        }
        assert !OccursAt(s, key, i + 1);
      }
      ReplaceAllAbsent(s[1..], key, rep);
    }
  }

  /** The first `m` characters of the result are either the first `m`
      characters of the input, or hold a character of the replacement. */
  lemma {:induction false} ReplaceAllPrefix(s: string, key: string, rep: string, m: nat)
    requires key != [] && rep != []
    requires m <= |ReplaceAll(s, key, rep)|
    ensures (m <= |s| && ReplaceAll(s, key, rep)[..m] == s[..m])
         || (exists p :: 0 <= p < m && ReplaceAll(s, key, rep)[p] in rep)
    decreases |s|
  {
    var r := ReplaceAll(s, key, rep);
    if m == 0 || |s| < |key| {
    } else if s[..|key|] == key {
      assert r[0] == rep[0];
    } else {
      var rest := ReplaceAll(s[1..], key, rep);
      assert r == [s[0]] + rest;
      ReplaceAllPrefix(s[1..], key, rep, m - 1);
      if m - 1 <= |s[1..]| && rest[..m - 1] == s[1..][..m - 1] {
        assert r[..m] == [s[0]] + rest[..m - 1];
        assert s[..m] == [s[0]] + s[1..][..m - 1];
      } else {
        var p :| 0 <= p < m - 1 && rest[p] in rep;
        assert r[p + 1] == rest[p];
      }
    }
  }

  /** An occurrence of a pattern sharing no character with `rep`, found in
      the result, was already in the input. */
  lemma {:induction false} ReplaceAllNoNewOccurrence(s: string, key: string, rep: string, k: string)
    requires key != [] && rep != [] && k != [] && Disjoint(rep, k)
    requires Occurs(ReplaceAll(s, key, rep), k)
    ensures Occurs(s, k)
    decreases |s|
  {
    var r := ReplaceAll(s, key, rep);
    var i: nat :| OccursAt(r, k, i);
    if |s| < |key| {
      assert OccursAt(s, k, i);
    } else if s[..|key|] == key {
      var rest := ReplaceAll(s[|key|..], key, rep);
      assert r == rep + rest;
      if i < |rep| {
        RepNotInPattern(r, rep, rest, k, i);
      }
      OccurrenceBehind(rep, rest, k, i);
      ReplaceAllNoNewOccurrence(s[|key|..], key, rep, k);
      var j: nat :| OccursAt(s[|key|..], k, j);
      OccurrenceInSuffix(s, k, |key|, j);
    } else {
      var rest := ReplaceAll(s[1..], key, rep);
      assert r == [s[0]] + rest;
      if i > 0 {
        OccurrenceBehind([s[0]], rest, k, i);
        ReplaceAllNoNewOccurrence(s[1..], key, rep, k);
        var j: nat :| OccursAt(s[1..], k, j);
        OccurrenceInSuffix(s, k, 1, j);
      } else {
        HeadOccurrence(s, key, rep, k);
      }
    }
  }

  /** An occurrence past a prefix is an occurrence in what follows it. */
  lemma OccurrenceBehind(p: string, rest: string, k: string, i: nat)
    requires |p| <= i && OccursAt(p + rest, k, i)
    ensures OccursAt(rest, k, i - |p|)
  {
    assert rest[i - |p|..i - |p| + |k|] == (p + rest)[i..i + |k|];
  }

  /** An occurrence in a suffix is an occurrence in the whole string. */
  lemma OccurrenceInSuffix(s: string, k: string, d: nat, j: nat)
    requires d <= |s| && OccursAt(s[d..], k, j)
    ensures OccursAt(s, k, j + d)
  {
    assert s[j + d..j + d + |k|] == s[d..][j..j + |k|];
  }

  /** The case of ReplaceAllNoNewOccurrence where the occurrence starts at
      a character copied from the input. */
  lemma HeadOccurrence(s: string, key: string, rep: string, k: string)
    requires key != [] && rep != [] && k != [] && Disjoint(rep, k)
    requires |s| >= |key| && s[..|key|] != key
    requires OccursAt([s[0]] + ReplaceAll(s[1..], key, rep), k, 0)
    ensures OccursAt(s, k, 0)
  {
    var rest := ReplaceAll(s[1..], key, rep);
    var m := |k| - 1;
    assert rest[..m] == k[1..] by {
      assert ([s[0]] + rest)[..|k|] == k;
      assert ([s[0]] + rest)[..|k|] == [s[0]] + rest[..m];
    }
    assert s[0] == k[0];
    ReplaceAllPrefix(s[1..], key, rep, m);
    forall p | 0 <= p < m ensures rest[p] !in rep {
      assert rest[p] == rest[..m][p] == k[p + 1];
    }
    assert s[..|k|] == [s[0]] + s[1..][..m];
  }

  /** A pattern that shares no character with `rep` cannot start inside a
      leading copy of `rep`. */
  lemma RepNotInPattern(r: string, rep: string, rest: string, k: string, i: nat)
    requires r == rep + rest && k != [] && Disjoint(rep, k)
    requires i < |rep|
    ensures !OccursAt(r, k, i)
  {
    assert r[i] == rep[i] && rep[i] in rep;
  }

  /** An occurrence-free tail stays occurrence-free behind any prefix, at
      every position past the prefix. */
  lemma NoOccurrenceInTail(p: string, rest: string, key: string)
    requires !Occurs(rest, key)
    ensures forall i: nat :: |p| <= i ==> !OccursAt(p + rest, key, i)
  {
    var r := p + rest;
    forall i: nat | |p| <= i ensures !OccursAt(r, key, i) {
      if i + |key| <= |r| {
        assert rest[i - |p|..i - |p| + |key|] == r[i..i + |key|];
        assert !OccursAt(rest, key, i - |p|);
      }
    }
  }

  /** When the replacement shares no character with the pattern, no
      occurrence of the pattern survives. */
  lemma {:induction false} ReplaceAllRemoves(s: string, key: string, rep: string)
    requires key != [] && rep != [] && Disjoint(rep, key)
    ensures !Occurs(ReplaceAll(s, key, rep), key)
    decreases |s|
  {
    var r := ReplaceAll(s, key, rep);
    if |s| < |key| {
      assert |r| < |key|;
    } else if s[..|key|] == key {
      var rest := ReplaceAll(s[|key|..], key, rep);
      assert r == rep + rest;
      ReplaceAllRemoves(s[|key|..], key, rep);
      NoOccurrenceInTail(rep, rest, key);
      forall i: nat | i < |rep| ensures !OccursAt(r, key, i) {
        RepNotInPattern(r, rep, rest, key, i);
      }
    } else {
      var rest := ReplaceAll(s[1..], key, rep);
      assert r == [s[0]] + rest;
      ReplaceAllRemoves(s[1..], key, rep);
      NoOccurrenceInTail([s[0]], rest, key);
      if OccursAt(r, key, 0) {
        HeadOccurrence(s, key, rep, key);
      }
    }
  }

  /** The characters `String.prototype.trim` strips: the ECMAScript
      WhiteSpace and LineTerminator code points. */
  predicate IsJsWhitespace(c: char)
  {
    || c == ' ' || c == '\t' || c == '\n' || c == '\r'
    || c == '\U{000B}' || c == '\U{000C}' || c == '\U{00A0}' || c == '\U{FEFF}'
    || c == '\U{1680}' || ('\U{2000}' <= c <= '\U{200A}') || c == '\U{2028}'
    || c == '\U{2029}' || c == '\U{202F}' || c == '\U{205F}' || c == '\U{3000}'
  }

  function TrimStart(s: string): (r: string)
    ensures |r| <= |s| && r == s[|s| - |r|..]
    ensures r == [] || !IsJsWhitespace(r[0])
    ensures forall i :: 0 <= i < |s| - |r| ==> IsJsWhitespace(s[i])
    decreases |s|
  {
    if |s| > 0 && IsJsWhitespace(s[0]) then TrimStart(s[1..]) else s
  }

  function TrimEnd(s: string): (r: string)
    ensures |r| <= |s| && r == s[..|r|]
    ensures r == [] || !IsJsWhitespace(r[|r| - 1])
    ensures forall i :: |r| <= i < |s| ==> IsJsWhitespace(s[i])
    decreases |s|
  {
    if |s| > 0 && IsJsWhitespace(s[|s| - 1]) then TrimEnd(s[..|s| - 1]) else s
  }

  /** `s.trim()`. */
  function Trim(s: string): string
  {
    TrimEnd(TrimStart(s))
  }

  /** `s.trim()` is empty, so falsy, exactly when `s` is all whitespace. */
  lemma TrimEmptyIff(s: string)
    ensures Trim(s) == [] <==> forall i :: 0 <= i < |s| ==> IsJsWhitespace(s[i])
  {
    var t := TrimStart(s);
    if Trim(s) == [] {
      assert t == [];
    }
  }

  /** Only whitespace lies before index `a` and from index `b` on. */
  predicate WhitespaceOutside(s: string, a: nat, b: nat)
  {
    && (forall i :: 0 <= i < a && i < |s| ==> IsJsWhitespace(s[i]))
    && (forall i :: b <= i < |s| ==> IsJsWhitespace(s[i]))
  }

  /** Trimming leaves a piece of the input with only whitespace around it,
      and that piece starts and ends with a character other than
      whitespace. */
  lemma TrimIsInnerSlice(s: string)
    ensures exists a, b :: 0 <= a <= b <= |s| && Trim(s) == s[a..b] && WhitespaceOutside(s, a, b)
    ensures Trim(s) == [] || (!IsJsWhitespace(Trim(s)[0]) && !IsJsWhitespace(Trim(s)[|Trim(s)| - 1]))
  {
    var a, b := TrimBounds(s);
    var t := TrimStart(s);
    if Trim(s) != [] {
      assert Trim(s)[0] == t[0];
    }
  }

  /** Where the trimmed piece lies in the input. */
  lemma TrimBounds(s: string) returns (a: nat, b: nat)
    ensures a <= b <= |s| && Trim(s) == s[a..b] && WhitespaceOutside(s, a, b)
  {
    var t := TrimStart(s);
    a := |s| - |t|;
    TrailingWhitespace(s, a, t);
    b := a + |TrimEnd(t)|;
  }

  /** Trimming the end of a suffix of `s` leaves a slice of `s` followed by
      whitespace only. */
  lemma TrailingWhitespace(s: string, a: nat, t: string)
    requires a <= |s| && t == s[a..]
    ensures a + |TrimEnd(t)| <= |s| && TrimEnd(t) == s[a..a + |TrimEnd(t)|]
    ensures forall i :: a + |TrimEnd(t)| <= i < |s| ==> IsJsWhitespace(s[i])
  {
    var r := TrimEnd(t);
    assert r == t[..|r|];
    forall i | a + |r| <= i < |s| ensures IsJsWhitespace(s[i]) {
      assert s[i] == t[i - a];
    }
  }

  /** Trimming twice is trimming once. */
  lemma TrimIdempotent(s: string)
    ensures Trim(Trim(s)) == Trim(s)
  {
    var t := Trim(s);
    TrimIsInnerSlice(s);
    if t != [] {
      assert TrimStart(t) == t;
    }
  }

  /** Code-point lexicographic order. */
  predicate StrLeq(a: string, b: string)
    decreases |a|
  {
    |a| == 0 || (|b| > 0 && (a[0] < b[0] || (a[0] == b[0] && StrLeq(a[1..], b[1..]))))
  }

  lemma {:induction false} StrLeqTotal(a: string, b: string)
    ensures StrLeq(a, b) || StrLeq(b, a)
    decreases |a|
  {
    if |a| > 0 && |b| > 0 && a[0] == b[0] {
      StrLeqTotal(a[1..], b[1..]);
    }
  }

  lemma {:induction false} StrLeqTrans(a: string, b: string, c: string)
    requires StrLeq(a, b) && StrLeq(b, c)
    ensures StrLeq(a, c)
    decreases |a|
  {
    if |a| > 0 && a[0] == b[0] && b[0] == c[0] {
      StrLeqTrans(a[1..], b[1..], c[1..]);
    }
  }

  lemma {:induction false} StrLeqAntisym(a: string, b: string)
    requires StrLeq(a, b) && StrLeq(b, a)
    ensures a == b
    decreases |a|
  {
    if |a| > 0 {
      StrLeqAntisym(a[1..], b[1..]);
      assert a == [a[0]] + a[1..] && b == [b[0]] + b[1..];
    }
  }

  /** `a.localeCompare(b)`, with code-point order standing in for the
      locale's collation. */
  function StrCompare(a: string, b: string): (r: int)
    ensures r == 0 <==> a == b
    ensures r <= 0 <==> StrLeq(a, b)
    ensures r > 0 ==> StrLeq(b, a)
  {
    if a == b then (StrLeqTotal(a, a); 0)
    else if StrLeq(a, b) then -1
    else (StrLeqTotal(a, b); 1)
  }
}
