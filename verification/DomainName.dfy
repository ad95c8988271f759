/** `isDomainName` of internal/tunnet/tun.go: a one-pass scanner against the names it is meant to
    accept, a variant of sections 2.3.1 and 2.3.4 of RFC 1035. */
module DomainName {
  import opened Characters

  predicate IsLetter(c: char) { 'a' <= c <= 'z' || 'A' <= c <= 'Z' || c == '_' }

  predicate IsLabelChar(c: char) { IsLetter(c) || IsDigit(c) || c == '-' }

  // ---------------------------------------------------------------- the names meant

  predicate Label(l: string) {
    && 1 <= |l| <= 63
    && (forall i | 0 <= i < |l| :: IsLabelChar(l[i]))
    && l[0] != '-' && l[|l| - 1] != '-'
  }

  /** The parts of `s` between its dots. */
  function Split(s: string): (parts: seq<string>)
    ensures |parts| >= 1
  {
    if s == "" then [""]
    else
      var parts := Split(s[..|s| - 1]);
      var c := s[|s| - 1];
      var n := |parts| - 1;
      if c == '.' then parts + [""] else parts[n := parts[n] + [c]]
  }

  /** The labels: a trailing dot ends the name without starting another. */
  function Labels(s: string): seq<string> {
    var parts := Split(s);
    if |parts| > 1 && parts[|parts| - 1] == "" then parts[..|parts| - 1] else parts
  }

  predicate LengthAllowed(s: string) {
    1 <= |s| <= 253 || (|s| == 254 && s[253] == '.')
  }

  ghost predicate ValidName(s: string) {
    && LengthAllowed(s)
    && (forall k | 0 <= k < |Labels(s)| :: Label(Labels(s)[k]))
    && NonNumeric(s, |s|)
  }

  function Join(parts: seq<string>): string
    requires parts != []
  {
    if |parts| == 1 then parts[0] else Join(parts[..|parts| - 1]) + "." + parts[|parts| - 1]
  }

  /** `Split` is the one way to cut a string into dot-free parts that dots join again. */
  lemma {:induction false} SplitJoins(s: string)
    ensures Join(Split(s)) == s
    ensures forall k, i | 0 <= k < |Split(s)| && 0 <= i < |Split(s)[k]| :: Split(s)[k][i] != '.'
  {
    JoinOfSplit(s);
    SplitIsDotFree(s);
  }

  lemma {:induction false} SplitIsDotFree(s: string)
    ensures forall k, i | 0 <= k < |Split(s)| && 0 <= i < |Split(s)[k]| :: Split(s)[k][i] != '.'
  {
    if s != "" {
      SplitIsDotFree(s[..|s| - 1]);
    }
  }

  lemma {:induction false} JoinOfSplit(s: string)
    ensures Join(Split(s)) == s
  {
    if s != "" {
      var front, c := s[..|s| - 1], s[|s| - 1];
      var parts := Split(front);
      JoinOfSplit(front);
      if c == '.' {
        assert (parts + [""])[..|parts|] == parts;
      } else {
        var n := |parts| - 1;
        assert parts[n := parts[n] + [c]][..n] == parts[..n];
      }
      assert s == front + [c];
    }
  }

  lemma {:induction false} SplitOfJoin(parts: seq<string>)
    requires parts != []
    requires forall k, i | 0 <= k < |parts| && 0 <= i < |parts[k]| :: parts[k][i] != '.'
    ensures Split(Join(parts)) == parts
  {
    var front, last := parts[..|parts| - 1], parts[|parts| - 1];
    if |parts| == 1 {
      SplitPlain(last);
    } else {
      SplitOfJoin(front);
      SplitOneMore(Join(front), front, last);
      assert front + [last] == parts;
    }
  }

  lemma SplitPlain(s: string)
    requires forall i | 0 <= i < |s| :: s[i] != '.'
    ensures Split(s) == [s]
  {
    SplitExtends("", s);
    assert "" + s == s;
  }

  lemma SplitOneMore(s: string, parts: seq<string>, last: string)
    requires Split(s) == parts && forall i | 0 <= i < |last| :: last[i] != '.'
    ensures Split(s + "." + last) == parts + [last]
  {
    var dotted := s + ".";
    assert dotted[..|dotted| - 1] == s;
    assert Split(dotted) == parts + [""];
    SplitExtends(dotted, last);
    assert "" + last == last;
    assert (parts + [""])[|parts| := last] == parts + [last];
  }

  /** `parts` with more at the end of its last part. */
  function Extended(parts: seq<string>, more: string): seq<string>
    requires parts != []
  {
    parts[|parts| - 1 := parts[|parts| - 1] + more]
  }

  lemma SplitChar(s: string, c: char, t: string)
    requires c != '.' && t == s + [c]
    ensures Split(t) == Extended(Split(s), [c])
  {
    assert t[..|t| - 1] == s && t[|t| - 1] == c;
  }

  lemma ExtendedTwice(parts: seq<string>, a: string, b: string, ab: string)
    requires parts != [] && ab == a + b
    ensures Extended(Extended(parts, a), b) == Extended(parts, ab)
  {
    var last := parts[|parts| - 1];
    assert last + a + b == last + ab;
  }

  lemma SplitMore(s: string, parts: seq<string>, front: string, c: char, t: string, more: string)
    requires parts != [] && Split(s) == Extended(parts, front) && c != '.' && t == s + [c] && more == front + [c]
    ensures Split(t) == Extended(parts, more)
  {
    SplitChar(s, c, t);
    ExtendedTwice(parts, front, [c], more);
  }

  lemma Regroup(s: string, front: string, c: char, more: string)
    requires more == front + [c]
    ensures s + more == (s + front) + [c]
  {
  }

  lemma {:induction false} SplitExtends(s: string, more: string)
    requires forall i | 0 <= i < |more| :: more[i] != '.'
    ensures Split(s + more) == Extended(Split(s), more)
  {
    var parts := Split(s);
    if more == "" {
      assert s + more == s && parts[|parts| - 1] + more == parts[|parts| - 1];
    } else {
      var front, c := more[..|more| - 1], more[|more| - 1];
      SplitExtends(s, front);
      Regroup(s, front, c, more);
      SplitMore(s + front, parts, front, c, s + more, more);
    }
  }

  // ---------------------------------------------------------------- a prefix

  predicate Begun(cur: string) {
    (forall i | 0 <= i < |cur| :: IsLabelChar(cur[i])) && (cur != "" ==> cur[0] != '-')
  }

  /** Every part a dot has closed is a label, and the open one may still become one. */
  predicate GoodPrefix(p: string) {
    var parts := Split(p);
    (forall k | 0 <= k < |parts| - 1 :: Label(parts[k])) && Begun(parts[|parts| - 1])
  }

  lemma {:induction false} PrefixSplit(s: string, i: nat)
    requires i <= |s|
    ensures var p, q := Split(s[..i]), Split(s);
      && |p| <= |q|
      && (forall k | 0 <= k < |p| - 1 :: p[k] == q[k])
      && p[|p| - 1] <= q[|p| - 1]
    decreases |s|
  {
    if i == |s| {
      assert s[..i] == s;
    } else {
      PrefixSplit(s[..|s| - 1], i);
      assert s[..|s| - 1][..i] == s[..i];
    }
  }

  /** No valid name begins with a bad prefix. */
  lemma BadPrefix(s: string, i: nat)
    requires i <= |s| && !GoodPrefix(s[..i])
    ensures !ValidName(s)
  {
    PrefixSplit(s, i);
    var p, q := Split(s[..i]), Split(s);
    if k :| 0 <= k < |p| - 1 && !Label(p[k]) {
      assert Labels(s)[k] == p[k];
    } else {
      var cur, l := p[|p| - 1], q[|p| - 1];
      assert !Begun(cur) && cur != "" && cur <= l;
      assert Labels(s)[|p| - 1] == l;
      if cur[0] != '-' {
        var j :| 0 <= j < |cur| && !IsLabelChar(cur[j]);
        assert l[j] == cur[j];
      }
    }
  }

  lemma PrefixStep(s: string, i: nat)
    requires i < |s| && GoodPrefix(s[..i])
    ensures var parts := Split(s[..i]); var cur := parts[|parts| - 1];
      GoodPrefix(s[..i + 1]) <==>
        if s[i] == '.' then Label(cur) else IsLabelChar(s[i]) && (cur == "" ==> s[i] != '-')
  {
    var parts := Split(s[..i]);
    var n := |parts| - 1;
    var parts' := Split(s[..i + 1]);
    assert s[..i + 1][..i] == s[..i];
    if s[i] == '.' {
      assert parts'[n] == parts[n];
      assert parts'[n + 1] == "";
      assert forall k | 0 <= k < n :: parts'[k] == parts[k];
    } else {
      assert parts'[n] == parts[n] + [s[i]];
      assert parts'[n][|parts[n]|] == s[i];
      assert forall j | 0 <= j < |parts[n]| :: parts'[n][j] == parts[n][j];
    }
  }

  lemma WholeName(s: string)
    requires s != "" && GoodPrefix(s)
    ensures var parts := Split(s); var cur := parts[|parts| - 1];
      (forall k | 0 <= k < |Labels(s)| :: Label(Labels(s)[k])) <==>
        (if cur == "" then |parts| > 1 else |cur| <= 63 && cur[|cur| - 1] != '-')
  {
    var parts := Split(s);
    var n := |parts| - 1;
    if n == 0 || parts[n] != "" {
      assert Labels(s) == parts;
      assert Labels(s)[n] == parts[n];
      assert (forall k | 0 <= k < |Labels(s)| :: Label(Labels(s)[k])) <==> Label(parts[n]);
    }
  }

  /** The part no dot has closed yet. */
  function Open(p: string): string { Split(p)[|Split(p)| - 1] }

  lemma OpenStep(s: string, i: nat)
    requires i < |s|
    ensures Open(s[..i + 1]) == if s[i] == '.' then "" else Open(s[..i]) + [s[i]]
    ensures |Split(s[..i + 1])| == if s[i] == '.' then |Split(s[..i])| + 1 else |Split(s[..i])|
  {
    assert s[..i + 1][..i] == s[..i];
  }

  predicate NonNumeric(s: string, n: nat)
    requires n <= |s|
  {
    exists j | 0 <= j < n :: s[j] != '.' && !IsDigit(s[j])
  }

  lemma NonNumericStep(s: string, i: nat)
    requires i < |s|
    ensures NonNumeric(s, i + 1) <==> NonNumeric(s, i) || (s[i] != '.' && !IsDigit(s[i]))
  {
    if s[i] != '.' && !IsDigit(s[i]) {
      assert NonNumeric(s, i + 1);
    }
  }

  /** What the scanner knows after `i` characters: the open part and the last character. */
  predicate Scanned(s: string, i: nat, cur: string, last: char)
    requires i <= |s|
  {
    && GoodPrefix(s[..i]) && cur == Open(s[..i])
    && (if cur == "" then last == '.' && (i > 0 ==> |Split(s[..i])| > 1) else last == cur[|cur| - 1])
  }

  /** A dot may end a label in order, and a label may begin with anything but a hyphen. */
  predicate GoesOn(cur: string, last: char, c: char) {
    if c == '.' then last != '.' && last != '-' && 0 < |cur| <= 63
    else IsLabelChar(c) && (c == '-' ==> last != '.')
  }

  lemma ScanStep(s: string, i: nat, cur: string, last: char)
    requires i < |s| && Scanned(s, i, cur, last)
    ensures if GoesOn(cur, last, s[i]) then Scanned(s, i + 1, if s[i] == '.' then "" else cur + [s[i]], s[i])
            else !ValidName(s)
  {
    PrefixStep(s, i);
    OpenStep(s, i);
    if !GoodPrefix(s[..i + 1]) {
      BadPrefix(s, i + 1);
    }
  }

  /** What is left to see when the whole name has been scanned. */
  lemma EndOfName(s: string, cur: string, last: char)
    requires LengthAllowed(s) && Scanned(s, |s|, cur, last)
    ensures ValidName(s) <==> last != '-' && |cur| <= 63 && NonNumeric(s, |s|)
  {
    assert s[..|s|] == s;
    WholeName(s);
  }

  lemma OfWrongLength(s: string)
    requires !LengthAllowed(s)
    ensures !ValidName(s)
  {
  }

  // ---------------------------------------------------------------- the scanner

  /** Accepts exactly the valid names. */
  method IsDomainName(s: string) returns (ok: bool)
    ensures ok <==> ValidName(s)
  {
    var l := |s|;
    if l == 0 || l > 254 || (l == 254 && s[l - 1] != '.') {
      OfWrongLength(s);
      return false;
    }
    var last := '.';
    var nonNumeric := false;
    var partlen := 0;
    ghost var cur := "";
    for i := 0 to l
      invariant Scanned(s, i, cur, last) && partlen == |cur|
      invariant nonNumeric <==> NonNumeric(s, i)
    {
      var c := s[i];
      ScanStep(s, i, cur, last);
      NonNumericStep(s, i);
      if IsLetter(c) {
        nonNumeric := true;
        partlen := partlen + 1;
        cur := cur + [c];
      } else if IsDigit(c) {
        partlen := partlen + 1;
        cur := cur + [c];
      } else if c == '-' {
        if last == '.' {
          return false;
        }
        partlen := partlen + 1;
        nonNumeric := true;
        cur := cur + [c];
      } else if c == '.' {
        if last == '.' || last == '-' {
          return false;
        }
        if partlen > 63 || partlen == 0 {
          return false;
        }
        partlen := 0;
        cur := "";
      } else {
        return false;
      }
      last := c;
    }
    EndOfName(s, cur, last);
    if last == '-' || partlen > 63 {
      return false;
    }
    return nonNumeric;
  }
}
