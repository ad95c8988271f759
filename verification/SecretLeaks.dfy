/** Exactly which secrets the redaction of api.go is certain to remove: those that no mark can help
    to make up. For every other there is a text that still holds it afterwards. */
module SecretLeaks {
  import opened Sorting
  import opened Redaction

  predicate BracketFree(s: string) {
    forall i | 0 <= i < |s| :: s[i] != '[' && s[i] != ']'
  }

  lemma {:induction false} NoMatchNoChange(s: string, from: string)
    requires from != ""
    ensures Contains(s, from) ==> Contains(ReplaceAll(s, from), MARK)
    ensures !Contains(s, from) ==> ReplaceAll(s, from) == s
  {
    if |s| >= |from| {
      var r := ReplaceAll(s, from);
      if from <= s {
        assert OccursAt(s, from, 0) && OccursAt(r, MARK, 0);
      } else {
        NoMatchNoChange(s[1..], from);
        ContainsSuffix(s, 1, from);
        ContainsSuffix(r, 1, MARK);
        assert r[1..] == ReplaceAll(s[1..], from);
        if Contains(s, from) {
          var i: nat :| OccursAt(s, from, i);
          OccursLater(s, from, i, 1);
        }
      }
    }
  }

  lemma ContainsTransitive(s: string, w: string, x: string)
    requires Contains(s, w) && Contains(w, x)
    ensures Contains(s, x)
  {
    var i: nat :| OccursAt(s, w, i);
    var j: nat :| OccursAt(w, x, j);
    forall k | 0 <= k < |x| ensures s[i + j + k] == x[k] {
      assert s[i..i + |w|][j + k] == s[i + j + k];
      assert w[j..j + |x|][k] == w[j + k];
    }
    assert OccursAt(s, x, i + j);
  }

  lemma LaterIsLater(p: string, t: string, x: string, i: nat)
    requires p != "" && OccursAt(p[1..] + t, x, i)
    ensures OccursAt(p + t, x, i + 1)
  {
    assert (p + t)[1..] == p[1..] + t;
    assert (p + t)[i + 1..i + 1 + |x|] == (p + t)[1..][i..i + |x|];
  }

  lemma PrefixOccurs(s: string, x: string)
    ensures x <= s <==> OccursAt(s, x, 0)
  {
  }

  /** Where the first match is, the mark takes its place. */
  lemma {:induction false} FirstMatch(p: string, from: string, rest: string)
    requires from != "" && forall i: nat | i < |p| :: !OccursAt(p + (from + rest), from, i)
    ensures ReplaceAll(p + (from + rest), from) == p + (MARK + ReplaceAll(rest, from))
  {
    var t := from + rest;
    if p == "" {
      assert p + t == t && t[..|from|] == from && t[|from|..] == rest;
    } else {
      PrefixOccurs(p + t, from);
      forall i: nat | i < |p[1..]| ensures !OccursAt(p[1..] + t, from, i) {
        if OccursAt(p[1..] + t, from, i) {
          LaterIsLater(p, t, from, i);
        }
      }
      FirstMatch(p[1..], from, rest);
      PutFirst(p, t, from, MARK + ReplaceAll(rest, from));
    }
  }

  lemma OneOn(s: string, from: string)
    requires from != "" && |s| >= |from| && !(from <= s)
    ensures ReplaceAll(s, from) == [s[0]] + ReplaceAll(s[1..], from)
  {
  }

  lemma Regroup(p: string, t: string)
    requires p != ""
    ensures (p + t)[0] == p[0] && (p + t)[1..] == p[1..] + t && [p[0]] + (p[1..] + t) == p + t
  {
  }

  lemma PutFirst(p: string, t: string, from: string, u: string)
    requires p != "" && from != "" && |t| >= |from| && !(from <= p + t)
    requires ReplaceAll(p[1..] + t, from) == p[1..] + u
    ensures ReplaceAll(p + t, from) == p + u
  {
    OneOn(p + t, from);
    Regroup(p, t);
    Regroup(p, u);
  }

  // ---------------------------------------------------------------- query escapes

  lemma {:induction false} EscapedIsBracketFree(s: string)
    ensures BracketFree(QueryEscape(s))
  {
    if s != "" {
      EscapedIsBracketFree(s[1..]);
    }
  }

  lemma {:induction false} EscapeAppend(a: string, b: string)
    ensures QueryEscape(a + b) == QueryEscape(a) + QueryEscape(b)
  {
    if a == "" {
      assert a + b == b;
    } else {
      assert (a + b)[1..] == a[1..] + b;
      EscapeAppend(a[1..], b);
    }
  }

  lemma {:induction false} EscapeIsLonger(s: string)
    ensures |QueryEscape(s)| >= |s|
  {
    if s != "" {
      EscapeIsLonger(s[1..]);
    }
  }

  /** The characters an escaped string is made of. */
  predicate Escaped(c: char) { Unreserved(c) || c == '+' || c == '%' }

  lemma {:induction false} EscapeIsEscaped(s: string)
    ensures forall i | 0 <= i < |QueryEscape(s)| :: Escaped(QueryEscape(s)[i])
  {
    if s != "" {
      EscapeIsEscaped(s[1..]);
    }
  }

  /** Escaped once more, such a string has a '2' behind every percent sign. */
  lemma {:induction false} EscapedTwice(g: string, i: nat)
    requires (forall j | 0 <= j < |g| :: Escaped(g[j])) && i < |QueryEscape(g)| && QueryEscape(g)[i] == '%'
    ensures i + 1 < |QueryEscape(g)| && QueryEscape(g)[i + 1] == '2'
  {
    var e, n := QueryEscape(g), |QueryEscape(g)| - |QueryEscape(g[1..])|;
    assert e[n..] == QueryEscape(g[1..]);
    if i >= n {
      EscapedTwice(g[1..], i - n);
    } else if !Unreserved(g[0]) {
      assert n == 3 && e[1] == '2';
      assert e[2] != '%';
    }
  }

  // ---------------------------------------------------------------- a text that keeps it

  /** `e` begins with `g` and repeats it to its end. */
  predicate Repeating(e: string, g: string) { |g| <= |e| && e <= g + e }

  lemma RepeatingAt(e: string, g: string, j: nat)
    requires Repeating(e, g) && j < |e|
    ensures e[j] == if j < |g| then g[j] else e[j - |g|]
  {
    assert e[j] == (g + e)[j];
  }

  lemma Repeats(p: string, e: string, rest: string, i: nat)
    requires i < |p| <= i + |e| && OccursAt(p + e + rest, e, i)
    ensures Repeating(e, p[i..])
  {
    var s := p + e + rest;
    assert s[i..] == p[i..] + e + rest;
    assert (p[i..] + e)[..|e|] == s[i..][..|e|] == s[i..i + |e|] == e;
  }

  lemma EscapedBracket(m: string)
    requires m != "" && m[0] == '['
    ensures |QueryEscape(m)| > 1 && QueryEscape(m)[0] == '%' && QueryEscape(m)[1] == '5'
  {
  }

  /** An escaped string that begins with `g` and repeats it cannot have the escaped `g`, and an
      escaped bracket behind that: it would have a '5' where only a '2' can be. */
  lemma NoRepeating(a: string, g: string, z: string)
    requires g != "" && |z| > 1 && z[0] == '%' && z[1] == '5'
    requires forall j | 0 <= j < |a + QueryEscape(g) + z| :: Escaped((a + QueryEscape(g) + z)[j])
    ensures !Repeating(a + QueryEscape(g) + z, g)
  {
    var b, d := QueryEscape(g), |g|;
    var e, at := a + b + z, |a| + |b|;
    EscapeIsLonger(g);
    if Repeating(e, g) {
      forall j | 0 <= j < d ensures Escaped(g[j]) {
        RepeatingAt(e, g, j);
        assert Escaped(e[j]);
      }
      RepeatingAt(e, g, at);
      RepeatingAt(e, g, at + 1);
      EscapedTwice(g, |b| - d);
    }
  }

  /** The escaped form of a secret that has a bracket after `p` is not found too early behind `p`. */
  lemma NotTooEarly(p: string, m: string, rest: string, i: nat)
    requires m != "" && m[0] == '[' && i < |p|
    ensures !OccursAt(p + QueryEscape(p + m) + rest, QueryEscape(p + m), i)
  {
    var e, a, g := QueryEscape(p + m), p[..i], p[i..];
    assert a + g == p;
    EscapeAppend(p, m);
    EscapeAppend(a, g);
    EscapedBracket(m);
    EscapeIsEscaped(p + m);
    NoRepeating(QueryEscape(a), g, QueryEscape(m));
    EscapeIsLonger(p + m);
    if OccursAt(p + e + rest, e, i) {
      Repeats(p, e, rest, i);
    }
  }

  function Count(c: char, s: string): nat {
    if s == "" then 0 else (if s[0] == c then 1 else 0) + Count(c, s[1..])
  }

  lemma {:induction false} CountAppend(c: char, a: string, b: string)
    ensures Count(c, a + b) == Count(c, a) + Count(c, b)
  {
    if a == "" {
      assert a + b == b;
    } else {
      assert (a + b)[1..] == a[1..] + b;
      CountAppend(c, a[1..], b);
    }
  }

  lemma {:induction false} CountAbsent(c: char, s: string)
    requires c !in s
    ensures Count(c, s) == 0
  {
    if s != "" {
      CountAbsent(c, s[1..]);
    }
  }

  lemma {:induction false} CountPresent(c: char, s: string)
    requires c in s
    ensures Count(c, s) > 0
  {
    if s[0] != c {
      CountPresent(c, s[1..]);
    }
  }

  lemma CountContained(c: char, s: string, x: string, i: nat)
    requires OccursAt(s, x, i)
    ensures Count(c, x) <= Count(c, s)
  {
    var head, tail := s[..i], s[i + |x|..];
    assert s == head + x + tail;
    CountAppend(c, head + x, tail);
    CountAppend(c, head, x);
  }

  /** With its bracketed part escaped, the secret is not there. */
  lemma EscapedOut(p: string, m: string, r: string, c: char)
    requires (c == '[' || c == ']') && c in m
    ensures !Contains(p + QueryEscape(p + m + r) + r, p + m + r)
  {
    var x := p + m + r;
    var e := QueryEscape(x);
    EscapedIsBracketFree(x);
    CountAbsent(c, e);
    CountPresent(c, m);
    CountAppend(c, p + m, r);
    CountAppend(c, p, m);
    CountAppend(c, p + e, r);
    CountAppend(c, p, e);
    if Contains(p + e + r, x) {
      var i: nat :| OccursAt(p + e + r, x, i);
      CountContained(c, p + e + r, x, i);
    }
  }

  /** Nothing matches before its escaped form. */
  lemma FirstEscaped(p: string, m: string, r: string, x: string, i: nat)
    requires x == p + m + r && m != "" && m[0] == '[' && i < |p|
    ensures !OccursAt(p + (QueryEscape(x) + r), QueryEscape(x), i)
  {
    assert x == p + (m + r);
    NotTooEarly(p, m + r, r, i);
    assert p + QueryEscape(x) + r == p + (QueryEscape(x) + r);
  }

  /** A secret `p + m + r`, where `m` holds a bracket: its escaped form between `p` and `r` turns
      into the mark. */
  lemma MarkBetween(p: string, m: string, r: string, x: string, c: char)
    requires x == p + m + r && (c == '[' || c == ']') && c in m && (p == "" || m[0] == '[')
    ensures RedactOne(p + (QueryEscape(x) + r), x) == p + (MARK + r)
  {
    var e := QueryEscape(x);
    EscapedOut(p, m, r, c);
    assert p + e + r == p + (e + r);
    NoMatchNoChange(p + (e + r), x);
    EscapeIsLonger(x);
    forall i: nat | i < |p| ensures !OccursAt(p + (e + r), e, i) {
      FirstEscaped(p, m, r, x, i);
    }
    FirstMatch(p, e, r);
    assert ReplaceAll(r, e) == r;
  }

  lemma OneSecret(value: string, x: string)
    requires x != ""
    ensures Redacted(value, [x]) == RedactOne(value, x)
  {
    SortOne(x, (s: string) => -|s|);
    var one := LongestFirst([x]);
    assert one == [x] && one[..0] == [];
    assert RedactAll(value, one[..0]) == value;
  }

  /** A secret the mark holds turns into the mark. */
  lemma PartOfMarkLeaks(x: string) returns (value: string)
    requires x != "" && Contains(MARK, x)
    ensures Contains(Redacted(value, [x]), x)
  {
    value := x;
    OneSecret(value, x);
    assert ReplaceAll(x[|x|..], x) == "";
    assert ReplaceAll(x, x) == MARK + "" == MARK;
    NoMatchNoChange(MARK, QueryEscape(x));
    if Contains(MARK, QueryEscape(x)) {
      ContainsTransitive(RedactOne(value, x), MARK, x);
    }
  }

  /** A secret that begins like the end of the mark, ends like its beginning or holds it all. */
  lemma OverlapLeaks(p: string, m: string, r: string, x: string, c: char, at: nat) returns (value: string)
    requires x == p + m + r && (c == '[' || c == ']') && c in m && (p == "" || m[0] == '[')
    requires OccursAt(p + (MARK + r), x, at)
    ensures Contains(Redacted(value, [x]), x)
  {
    value := p + (QueryEscape(x) + r);
    OneSecret(value, x);
    MarkBetween(p, m, r, x, c);
  }

  lemma MarkEnds(m: string, at: nat)
    requires at < |MARK| && m == MARK[at..]
    ensures ']' in m
  {
    assert m[|m| - 1] == ']';
  }

  lemma EndOccurs(p: string, mark: string, m: string, r: string, at: nat)
    requires p == "" && at <= |mark| && m == mark[at..]
    ensures p + m + r == m + r && OccursAt(p + (mark + r), m + r, at)
  {
    var s := mark + r;
    assert p + s == s && p + m == m;
    assert s[at..] == m + r;
    assert s[at..at + |m + r|] == s[at..];
  }

  lemma BeginsInMarkLeaks(x: string, k: nat) returns (value: string)
    requires BeginsInMark(x, k)
    ensures Contains(Redacted(value, [x]), x)
  {
    var p, m, r, at := "", x[..k], x[k..], |MARK| - k;
    assert x == m + r;
    MarkEnds(m, at);
    EndOccurs(p, MARK, m, r, at);
    value := OverlapLeaks(p, m, r, x, ']', at);
  }

  lemma EndsInMarkLeaks(x: string, k: nat) returns (value: string)
    requires EndsInMark(x, k)
    ensures Contains(Redacted(value, [x]), x)
  {
    var p, m := x[..|x| - k], x[|x| - k..];
    var s := p + (MARK + "");
    assert x == p + m + "";
    assert MARK[0] == '[' && m[0] == MARK[..k][0];
    assert s[0..|x|] == p + MARK[..k];
    value := OverlapLeaks(p, m, "", x, '[', 0);
  }

  lemma HoldsMarkLeaks(x: string, i: nat) returns (value: string)
    requires OccursAt(x, MARK, i)
    ensures Contains(Redacted(value, [x]), x)
  {
    var p, r := x[..i], x[i + |MARK|..];
    assert x == p + MARK + r == p + (MARK + r);
    assert MARK[0] == '[';
    PrefixOccurs(x, x);
    value := OverlapLeaks(p, MARK, r, x, '[', 0);
  }

  lemma UnclearLeaks(x: string) returns (value: string)
    requires x != "" && !Clear(x)
    ensures Contains(Redacted(value, [x]), x)
  {
    if Contains(MARK, x) {
      value := PartOfMarkLeaks(x);
    } else if Contains(x, MARK) {
      var i: nat :| OccursAt(x, MARK, i);
      value := HoldsMarkLeaks(x, i);
    } else if k: nat :| BeginsInMark(x, k) {
      value := BeginsInMarkLeaks(x, k);
    } else {
      var k: nat :| EndsInMark(x, k);
      value := EndsInMarkLeaks(x, k);
    }
  }

  ghost predicate AlwaysRemoved(x: string, secrets: seq<string>) {
    forall value :: !Contains(Redacted(value, secrets), x)
  }

  /** A secret is removed from every text exactly when it is clear of the mark: alone, and likewise
      in whatever company. */
  lemma RemovedIffClear(x: string)
    requires x != ""
    ensures AlwaysRemoved(x, [x]) <==> Clear(x)
    ensures (forall secrets | x in secrets :: AlwaysRemoved(x, secrets)) <==> Clear(x)
  {
    if Clear(x) {
      forall secrets | x in secrets ensures AlwaysRemoved(x, secrets) {
        forall value ensures !Contains(Redacted(value, secrets), x) {
          RedactedRemoves(value, secrets, x, x);
        }
      }
      assert x in [x];
    } else {
      var value := UnclearLeaks(x);
      assert !AlwaysRemoved(x, [x]);
    }
  }

  // ---------------------------------------------------------------- secrets without brackets

  lemma MeetsBrackets(r: string, x: string, i: nat)
    requires MARK <= r && i < |MARK| && x != "" && OccursAt(r, x, i)
    ensures i == 0 ==> x[0] == '['
    ensures i + |x| > 9 ==> x[9 - i] == ']'
  {
    assert r[..|MARK|] == MARK;
    assert r[0] == '[' && r[9] == ']';
    if i + |x| > 9 {
      assert r[i..i + |x|][9 - i] == r[9];
    }
  }

  /** A bracket-free string that begins inside a leading mark lies within its word. */
  lemma InsideMark(r: string, x: string, i: nat)
    requires MARK <= r && i < |MARK| && x != "" && BracketFree(x) && OccursAt(r, x, i)
    ensures Contains(WORD, x)
  {
    MeetsBrackets(r, x, i);
    assert 1 <= i && i + |x| <= 9;
    assert MARK[1..9] == WORD;
    assert x == MARK[i..i + |x|] == WORD[i - 1..i - 1 + |x|];
    assert OccursAt(WORD, x, i - 1);
  }

  lemma HoldsNoMark(x: string, i: nat)
    requires BracketFree(x)
    ensures !OccursAt(x, MARK, i)
  {
    if i + |MARK| <= |x| {
      assert x[i..i + |MARK|][0] == x[i] != MARK[0];
    }
  }

  lemma NotAtTheEnds(x: string, k: nat)
    requires BracketFree(x)
    ensures !BeginsInMark(x, k) && !EndsInMark(x, k)
  {
    if 0 < k <= |x| && k <= |MARK| {
      assert x[..k][k - 1] != MARK[|MARK| - k..][k - 1];
      assert x[|x| - k..][0] != MARK[..k][0];
    }
  }

  /** Without brackets only a part of the mark's word is not clear. */
  lemma BracketFreeClear(x: string)
    requires x != "" && BracketFree(x)
    ensures Clear(x) <==> !Contains(WORD, x)
  {
    if Contains(WORD, x) {
      var i: nat :| OccursAt(WORD, x, i);
      assert MARK[1..9] == WORD;
      assert x == MARK[1..9][i..i + |x|] == MARK[i + 1..i + 1 + |x|];
      assert OccursAt(MARK, x, i + 1);
    } else {
      if Contains(MARK, x) {
        var i: nat :| OccursAt(MARK, x, i);
        InsideMark(MARK, x, i);
      }
      forall i: nat ensures !OccursAt(x, MARK, i) {
        HoldsNoMark(x, i);
      }
      forall k: nat ensures !BeginsInMark(x, k) && !EndsInMark(x, k) {
        NotAtTheEnds(x, k);
      }
    }
  }

  /** A part of the mark's word that is there stays there. */
  lemma {:induction false} PartOfMarkStays(value: string, secrets: seq<string>, x: string)
    requires Contains(value, x) && Contains(WORD, x)
    ensures Contains(RedactAll(value, secrets), x)
  {
    if secrets != [] {
      var front, last := secrets[..|secrets| - 1], secrets[|secrets| - 1];
      PartOfMarkStays(value, front, x);
      if last != "" {
        StaysOnce(RedactAll(value, front), last, x);
        StaysOnce(ReplaceAll(RedactAll(value, front), last), QueryEscape(last), x);
      }
    }
  }

  lemma StaysOnce(s: string, from: string, x: string)
    requires from != "" && Contains(s, x) && Contains(WORD, x)
    ensures Contains(ReplaceAll(s, from), x)
  {
    NoMatchNoChange(s, from);
    if Contains(s, from) {
      assert OccursAt(MARK, WORD, 1);
      ContainsTransitive(MARK, WORD, x);
      ContainsTransitive(ReplaceAll(s, from), MARK, x);
    }
  }

  /** Such a secret is removed by a list, whatever else is in it, exactly when it is no part of the
      word the mark itself is made of. */
  lemma RemovedIff(secrets: seq<string>, secret: string)
    requires secret in secrets && secret != "" && BracketFree(secret)
    ensures AlwaysRemoved(secret, secrets) <==> !Contains(WORD, secret)
  {
    BracketFreeClear(secret);
    if Contains(WORD, secret) {
      assert OccursAt(secret, secret, 0);
      PartOfMarkStays(secret, LongestFirst(secrets), secret);
      assert Contains(Redacted(secret, secrets), secret);
    } else {
      forall value ensures !Contains(Redacted(value, secrets), secret) {
        RedactedRemoves(value, secrets, secret, secret);
      }
    }
  }
}
