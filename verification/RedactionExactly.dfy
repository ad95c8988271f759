/** What the redaction of api.go leaves: besides removing secrets, it marks each one whole, the longer
    before the shorter, and changes nothing else. */
module RedactionExactly {
  import opened Wrappers
  import opened Sorting
  import opened Redaction
  import opened SecretLeaks

  // ---------------------------------------------------------------- a secret and its surroundings

  /** What a secret is looked for as: itself and its form in a query. */
  predicate FormOf(f: string, secret: string) { f == secret || f == QueryEscape(secret) }

  /** No mark can help to make up a secret of the list, or its query form. */
  ghost predicate AllClear(secrets: seq<string>) {
    forall y | y in secrets && y != "" :: Clear(y) && Clear(QueryEscape(y))
  }

  /** Where `f` occurs in `p + x + q` it lies within `x`. */
  ghost predicate Within(p: string, x: string, q: string, f: string) {
    forall i: nat | OccursAt(p + x + q, f, i) :: |p| <= i && i + |f| <= |p| + |x|
  }

  /** So does whatever of the list occurs there. */
  ghost predicate OnlyWithin(p: string, x: string, q: string, secrets: seq<string>) {
    forall y, f | y in secrets && y != "" && FormOf(f, y) :: Within(p, x, q, f)
  }

  lemma OccursPast(s: string, x: string, i: nat, n: nat)
    requires n <= |s| && OccursAt(s[n..], x, i)
    ensures OccursAt(s, x, n + i)
  {
    assert s[n..][i..i + |x|] == s[n + i..n + i + |x|];
  }

  /** A clear string does not touch a mark. */
  lemma ClearKeepsOff(p: string, q: string, f: string, i: nat)
    requires Clear(f) && OccursAt(p + (MARK + q), f, i)
    ensures i + |f| <= |p| || i >= |p| + |MARK|
  {
    var s, r := p + (MARK + q), MARK + q;
    assert s[|p|..] == r && MARK <= r;
    if |p| <= i < |p| + |MARK| {
      OccursLater(s, f, i, |p|);
      BeginsInside(f, r, i - |p|);
    } else if i < |p| < i + |f| {
      var j := |p| - i;
      assert f[j..] == s[i..i + |f|][j..] == s[|p|..i + |f|] == r[..|f| - j];
      EndsInside(f, j, r);
    }
  }

  lemma FoundBefore(p: string, x: string, q: string, f: string, i: nat)
    requires OccursAt(p + (MARK + q), f, i) && i + |f| <= |p|
    ensures OccursAt(p + x + q, f, i)
  {
    assert (p + (MARK + q))[i..i + |f|] == p[i..i + |f|] == (p + x + q)[i..i + |f|];
  }

  lemma FoundBehind(p: string, x: string, q: string, f: string, i: nat)
    requires OccursAt(p + (MARK + q), f, i) && i >= |p| + |MARK|
    ensures OccursAt(p + x + q, f, i - |MARK| + |x|)
  {
    var n, m := |p| + |MARK|, |p| + |x|;
    OccursLater(p + (MARK + q), f, i, n);
    assert (p + (MARK + q))[n..] == q == (p + x + q)[m..];
    OccursPast(p + x + q, f, i - n, m);
  }

  /** So nothing is found in surroundings in which nothing was. */
  lemma NothingAround(p: string, x: string, q: string, f: string)
    requires Clear(f) && Within(p, x, q, f)
    ensures !Contains(p + (MARK + q), f)
  {
    if Contains(p + (MARK + q), f) {
      var i: nat :| OccursAt(p + (MARK + q), f, i);
      ClearKeepsOff(p, q, f, i);
      if i + |f| <= |p| {
        FoundBefore(p, x, q, f, i);
      } else {
        FoundBehind(p, x, q, f, i);
      }
    }
  }

  lemma ReplaceWhole(p: string, x: string, q: string)
    requires x != "" && Within(p, x, q, x)
    ensures ReplaceAll(p + x + q, x) == p + (MARK + q)
  {
    assert p + x + q == p + (x + q);
    forall i: nat | i < |p| ensures !OccursAt(p + (x + q), x, i) {
      assert OccursAt(p + (x + q), x, i) ==> OccursAt(p + x + q, x, i);
    }
    FirstMatch(p, x, q);
    if Contains(q, x) {
      var i: nat :| OccursAt(q, x, i);
      assert (p + x + q)[|p| + |x|..] == q;
      OccursPast(p + x + q, x, i, |p| + |x|);
    }
    NoMatchNoChange(q, x);
  }

  /** Once the secret is marked, no secret of the list changes the text any more. */
  lemma MarkedStays(p: string, x: string, q: string, secrets: seq<string>, y: string)
    requires AllClear(secrets) && OnlyWithin(p, x, q, secrets) && y in secrets
    ensures RedactOne(p + (MARK + q), y) == p + (MARK + q)
  {
    if y != "" {
      assert FormOf(y, y) && FormOf(QueryEscape(y), y);
      NothingAround(p, x, q, y);
      NothingAround(p, x, q, QueryEscape(y));
      NoMatchNoChange(p + (MARK + q), y);
      NoMatchNoChange(p + (MARK + q), QueryEscape(y));
    }
  }

  lemma FillsWhole(p: string, x: string, q: string, f: string)
    requires OccursAt(p + x + q, f, |p|) && |f| == |x|
    ensures f == x
  {
    assert (p + x + q)[|p|..|p| + |x|] == x;
  }

  /** A form at least as long as the secret is the secret itself, or is not there. */
  lemma FormStep(p: string, x: string, q: string, f: string)
    requires x != "" && |f| >= |x| && Within(p, x, q, f)
    ensures ReplaceAll(p + x + q, f) == if f == x then p + (MARK + q) else p + x + q
  {
    var s := p + x + q;
    if f == x {
      ReplaceWhole(p, x, q);
    } else {
      forall i: nat ensures !OccursAt(s, f, i) {
        if OccursAt(s, f, i) && i == |p| && |f| == |x| {
          FillsWhole(p, x, q, f);
        }
      }
      NoMatchNoChange(s, f);
    }
  }

  lemma SecretStep(p: string, x: string, q: string, secrets: seq<string>, y: string)
    requires x != "" && AllClear(secrets) && OnlyWithin(p, x, q, secrets) && y in secrets && |y| >= |x|
    ensures RedactOne(p + x + q, y) == if FormOf(x, y) then p + (MARK + q) else p + x + q
  {
    EscapeIsLonger(y);
    assert FormOf(y, y) && FormOf(QueryEscape(y), y);
    TwoForms(p, x, q, y, QueryEscape(y));
  }

  lemma TwoForms(p: string, x: string, q: string, y: string, e: string)
    requires x != "" && |e| >= |y| >= |x| && Within(p, x, q, y) && Within(p, x, q, e) && Clear(e)
    ensures ReplaceAll(ReplaceAll(p + x + q, y), e) == if x == y || x == e then p + (MARK + q) else p + x + q
  {
    FormStep(p, x, q, y);
    if y == x {
      NothingAround(p, x, q, e);
      NoMatchNoChange(p + (MARK + q), e);
    } else {
      FormStep(p, x, q, e);
    }
  }

  /** As long as only secrets no shorter than `x` have been looked for, the text is untouched or `x` is
      marked whole; and it is marked once `x` itself has been. */
  lemma {:induction false} LongerFirst(p: string, x: string, q: string, secrets: seq<string>, done: seq<string>)
    requires x != "" && AllClear(secrets) && OnlyWithin(p, x, q, secrets)
    requires (forall y | y in done :: y in secrets)
    requires forall i, j | 0 <= i <= j < |done| :: |done[i]| >= |done[j]|
    requires x in done || forall y | y in done :: |y| >= |x|
    ensures RedactAll(p + x + q, done) == p + (MARK + q) || (RedactAll(p + x + q, done) == p + x + q && x !in done)
  {
    if done != [] {
      var front, y := done[..|done| - 1], done[|done| - 1];
      assert done == front + [y];
      NoneShorter(done, x);
      LongerFirst(p, x, q, secrets, front);
      if RedactAll(p + x + q, front) == p + (MARK + q) {
        MarkedStays(p, x, q, secrets, y);
      } else {
        SecretStep(p, x, q, secrets, y);
      }
    }
  }

  /** In front of `x` in a falling list there is nothing shorter. */
  lemma NoneShorter(done: seq<string>, x: string)
    requires done != [] && forall i, j | 0 <= i <= j < |done| :: |done[i]| >= |done[j]|
    requires x in done || forall y | y in done :: |y| >= |x|
    ensures var front, y := done[..|done| - 1], done[|done| - 1];
      x in front || ((forall z | z in front :: |z| >= |x|) && |y| >= |x|)
  {
    var front, y := done[..|done| - 1], done[|done| - 1];
    assert done == front + [y];
    if x !in front && x in done {
      forall z | z in front ensures |z| >= |x| {
        var i :| 0 <= i < |front| && front[i] == z;
        assert |done[i]| >= |done[|done| - 1]|;
      }
    }
  }

  lemma SortedLongestFirst(secrets: seq<string>)
    ensures var done := LongestFirst(secrets);
      && (forall y :: y in done <==> y in secrets)
      && forall i, j | 0 <= i <= j < |done| :: |done[i]| >= |done[j]|
  {
    var key := (s: string) => -|s|;
    StableSortMeaning(secrets, key);
    var done := StableSort(secrets, key);
    forall i, j | 0 <= i <= j < |done| ensures |done[i]| >= |done[j]| {
      assert key(done[i]) <= key(done[j]);
    }
  }

  /** A secret of the list is marked whole, whatever shorter ones it holds and whatever stands around
      it, as long as nothing else there matches. */
  lemma MarkedWhole(p: string, x: string, q: string, secrets: seq<string>)
    requires x in secrets && x != "" && AllClear(secrets) && OnlyWithin(p, x, q, secrets)
    ensures Redacted(p + x + q, secrets) == p + MARK + q
  {
    SortedLongestFirst(secrets);
    LongerFirst(p, x, q, secrets, LongestFirst(secrets));
    assert p + (MARK + q) == p + MARK + q;
  }

  /** By itself in particular: a text that is a secret leaves nothing but the mark. */
  lemma SecretBecomesMark(x: string, secrets: seq<string>)
    requires x in secrets && x != "" && AllClear(secrets)
    ensures Redacted(x, secrets) == MARK
  {
    assert "" + x + "" == x && "" + MARK + "" == MARK;
    MarkedWhole("", x, "", secrets);
  }

  // ---------------------------------------------------------------- nothing else changes

  ghost predicate HoldsNone(value: string, secrets: seq<string>) {
    forall y, f | y in secrets && y != "" && FormOf(f, y) :: !Contains(value, f)
  }

  lemma {:induction false} NothingToDo(value: string, done: seq<string>)
    requires HoldsNone(value, done)
    ensures RedactAll(value, done) == value
  {
    if done != [] {
      var front, y := done[..|done| - 1], done[|done| - 1];
      assert done == front + [y];
      NothingToDo(value, front);
      if y != "" {
        assert FormOf(y, y) && FormOf(QueryEscape(y), y);
        NoMatchNoChange(value, y);
        NoMatchNoChange(value, QueryEscape(y));
      }
    }
  }

  /** A text with no secret in it stays as it is. */
  lemma NothingToRedact(value: string, secrets: seq<string>)
    requires HoldsNone(value, secrets)
    ensures Redacted(value, secrets) == value
  {
    SortedLongestFirst(secrets);
    NothingToDo(value, LongestFirst(secrets));
  }

  /** Outside sensitive keys a string is redacted as a text, every other leaf stays, and what is an
      object or an array still is, with the same keys or as many items. */
  lemma {:induction false} LeavesOutside(v: Json, path: seq<Step>, secrets: seq<string>, w: Json)
    requires At(v, path) == Some(w) && !SensitivePath(path)
    ensures var r := At(RedactValue(v, secrets), path);
      r.Some? &&
      match w
      case Str(s) => r.value == Str(Redacted(s, secrets))
      case Obj(members) => r.value.Obj? && r.value.members.Keys == members.Keys
      case Arr(items) => r.value.Arr? && |r.value.items| == |items|
      case _ => r.value == w
    decreases |path|
  {
    if path != [] {
      assert !SensitiveStep(path[0]);
      forall i | 0 <= i < |path[1..]| ensures !SensitiveStep(path[1..][i]) {
        assert path[1..][i] == path[i + 1];
      }
      LeavesOutside(Child(v, path[0]).value, path[1..], secrets, w);
      assert Child(RedactValue(v, secrets), path[0]) == Some(RedactValue(Child(v, path[0]).value, secrets));
    }
  }

  // ---------------------------------------------------------------- keys

  /** Two characters of a key that count as the same. */
  predicate SameInKey(a: char, b: char) {
    || a == b || (a in "-_" && b in "-_")
    || ('A' <= a <= 'Z' && b as int == a as int + 32) || ('A' <= b <= 'Z' && a as int == b as int + 32)
  }

  /** Case and hyphens make no difference to whether a key is sensitive. */
  lemma CaseAndHyphens(k: string, l: string)
    requires |k| == |l| && forall i | 0 <= i < |k| :: SameInKey(k[i], l[i])
    ensures SensitiveKey(k) <==> SensitiveKey(l)
  {
    forall i | 0 <= i < |k| ensures Lower(k[i]) == Lower(l[i]) {
      assert SameInKey(k[i], l[i]);
    }
    assert LowerAll(k) == LowerAll(l);
  }

  /** A key is sensitive with any of the five words in it, however it is spelt there, and only then. */
  lemma SensitiveExactly(key: string)
    ensures SensitiveKey(key) <==>
      exists n, i | 0 <= n < 5 && 0 <= i <= |key| ::
        var word := ["secret", "token", "credential", "private_key", "authorization"][n];
        i + |word| <= |key| && SpeltLike(key, word, i)
  {
    var words := ["secret", "token", "credential", "private_key", "authorization"];
    assert words == SENSITIVE_PARTS;
    forall n, i | 0 <= n < 5 && 0 <= i <= |key|
      ensures OccursAt(LowerAll(key), words[n], i) <==> i + |words[n]| <= |key| && SpeltLike(key, words[n], i)
    {
      if i + |words[n]| <= |key| {
        WordsAreLower(words[n], n);
        SpeltOccurs(key, words[n], i);
      }
    }
    forall n | 0 <= n < 5
      ensures HasPart(LowerAll(key), words[n]) <==>
        exists i | 0 <= i <= |key| :: i + |words[n]| <= |key| && SpeltLike(key, words[n], i)
    {
    }
  }

  predicate SpeltLike(key: string, word: string, i: nat)
    requires i + |word| <= |key|
  {
    forall j | 0 <= j < |word| :: SameInKey(key[i + j], word[j])
  }

  predicate IsWord(word: string) {
    forall j | 0 <= j < |word| :: 'a' <= word[j] <= 'z' || word[j] == '_'
  }

  lemma WordsAreLower(word: string, n: nat)
    requires n < 5 && word == ["secret", "token", "credential", "private_key", "authorization"][n]
    ensures IsWord(word)
  {
  }

  lemma SpeltOccurs(key: string, word: string, i: nat)
    requires IsWord(word) && i + |word| <= |key|
    ensures OccursAt(LowerAll(key), word, i) <==> SpeltLike(key, word, i)
  {
    var low := LowerAll(key);
    if OccursAt(low, word, i) {
      forall j | 0 <= j < |word| ensures SameInKey(key[i + j], word[j]) {
        assert low[i..i + |word|][j] == low[i + j] == Lower(key[i + j]);
      }
    }
    if SpeltLike(key, word, i) {
      forall j | 0 <= j < |word| ensures low[i + j] == word[j] {
        assert SameInKey(key[i + j], word[j]);
      }
      assert low[i..i + |word|] == word;
    }
  }

  // ---------------------------------------------------------------- the query form

  function HexDigitValue(c: char): Option<nat> {
    if '0' <= c <= '9' then Some(c as int - '0' as int)
    else if 'A' <= c <= 'F' then Some(c as int - 'A' as int + 10)
    else None
  }

  /** Reads a query form back, if it is written with capital hexadecimal digits. */
  function Unescape(s: string): Option<string>
    decreases |s|
  {
    if s == "" then Some("")
    else if s[0] == '%' then
      if |s| < 3 then None
      else
        match (HexDigitValue(s[1]), HexDigitValue(s[2]), Unescape(s[3..]))
        case (Some(a), Some(b), Some(rest)) => Some([(a * 16 + b) as char] + rest)
        case _ => None
    else if s[0] == '+' then Add(' ', Unescape(s[1..]))
    else if Unreserved(s[0]) then Add(s[0], Unescape(s[1..]))
    else None
  }

  function Add(c: char, rest: Option<string>): Option<string> {
    match rest case None => None case Some(s) => Some([c] + s)
  }

  lemma HexBack(n: nat)
    requires n < 16
    ensures HexDigitValue(UpperHex(n)) == Some(n)
  {
  }

  /** An escape is read by its two digits. */
  lemma EscapeIsRead(a: char, b: char, x: nat, y: nat, rest: string, back: string)
    requires HexDigitValue(a) == Some(x) && HexDigitValue(b) == Some(y) && x < 16 && y < 16 && Unescape(rest) == Some(back)
    ensures Unescape(['%', a, b] + rest) == Some([(x * 16 + y) as char] + back)
  {
    var s := ['%', a, b] + rest;
    assert s[0] == '%' && s[1] == a && s[2] == b && s[3..] == rest;
  }

  lemma Halves(n: nat)
    requires n < 256
    ensures n / 16 % 16 < 16 && n / 16 % 16 * 16 + n % 16 == n
  {
  }

  lemma ReservedBack(c: char, rest: string, back: string)
    requires c as int < 256 && Unescape(rest) == Some(back)
    ensures Unescape(['%', UpperHex(c as int / 16 % 16), UpperHex(c as int % 16)] + rest) == Some([c] + back)
  {
    var n := c as int;
    var x, y := n / 16 % 16, n % 16;
    Halves(n);
    HexBack(x);
    HexBack(y);
    EscapeIsRead(UpperHex(x), UpperHex(y), x, y, rest, back);
  }

  /** Every text is read back from its query form. */
  lemma {:induction false} EscapeRoundTrip(s: string)
    requires forall i | 0 <= i < |s| :: s[i] as int < 256
    ensures Unescape(QueryEscape(s)) == Some(s)
  {
    if s != "" {
      var rest := QueryEscape(s[1..]);
      EscapeRoundTrip(s[1..]);
      assert [s[0]] + s[1..] == s;
      if Unreserved(s[0]) {
        assert ([s[0]] + rest)[1..] == rest;
      } else if s[0] == ' ' {
        assert ("+" + rest)[1..] == rest;
      } else {
        ReservedBack(s[0], rest, s[1..]);
      }
    }
  }
}
