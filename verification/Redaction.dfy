/** Keeping secrets out of the log: the redaction of api.go and logging.go. Strings stand for byte
    sequences, one character each. */
module Redaction {
  import opened Wrappers
  import opened Sorting

  const MARK := "[REDACTED]"
  const WORD := "REDACTED"

  // ---------------------------------------------------------------- strings

  predicate OccursAt(s: string, x: string, i: nat) {
    i + |x| <= |s| && s[i..i + |x|] == x
  }

  ghost predicate Contains(s: string, x: string) {
    exists i: nat :: OccursAt(s, x, i)
  }

  /** Every occurrence, from the left and without overlap, replaced by the mark. */
  function ReplaceAll(s: string, from: string): string
    requires from != ""
  {
    if |s| < |from| then s
    else if from <= s then MARK + ReplaceAll(s[|from|..], from)
    else [s[0]] + ReplaceAll(s[1..], from)
  }

  /** The first `k` characters of `x` are the last of the mark. */
  predicate BeginsInMark(x: string, k: nat) {
    0 < k <= |x| && k <= |MARK| && x[..k] == MARK[|MARK| - k..]
  }

  /** The last `k` characters of `x` are the first of the mark. */
  predicate EndsInMark(x: string, k: nat) {
    0 < k <= |x| && k <= |MARK| && x[|x| - k..] == MARK[..k]
  }

  /** No mark, wherever it is put, can help to make up `x`. */
  ghost predicate Clear(x: string) {
    && x != "" && !Contains(MARK, x) && !Contains(x, MARK)
    && (forall k: nat :: !BeginsInMark(x, k))
    && (forall k: nat :: !EndsInMark(x, k))
  }

  /** A string that begins inside a mark lies in it, or begins like its end. */
  lemma BeginsInside(x: string, r: string, i: nat)
    requires MARK <= r && i < |MARK| && OccursAt(r, x, i)
    ensures Contains(MARK, x) || BeginsInMark(x, |MARK| - i)
  {
    var k := |MARK| - i;
    assert r[..|MARK|] == MARK;
    if |x| <= k {
      assert r[i..i + |x|] == r[..|MARK|][i..i + |x|];
      assert OccursAt(MARK, x, i);
    } else {
      assert x[..k] == r[i..i + |x|][..k] == r[i..|MARK|] == MARK[i..];
    }
  }

  /** A string with an end that begins like a mark and what follows it holds the mark, or ends like
      its beginning. */
  lemma EndsInside(x: string, j: nat, r: string)
    requires MARK <= r && j < |x| && x[j..] <= r
    ensures Contains(x, MARK) || EndsInMark(x, |x| - j)
  {
    assert r[..|MARK|] == MARK;
    if |x| - j <= |MARK| {
      assert x[j..] == r[..|x| - j] == r[..|MARK|][..|x| - j];
    } else {
      assert x[j..j + |MARK|] == x[j..][..|MARK|] == r[..|MARK|];
      assert OccursAt(x, MARK, j);
    }
  }

  /** So the part of a replaced string that begins like the rest of `x` was there before. */
  lemma {:induction false} ClearPrefix(s: string, from: string, x: string, j: nat)
    requires from != "" && Clear(x) && j <= |x| && x[j..] <= ReplaceAll(s, from)
    ensures x[j..] <= s && (j < |x| && |s| >= |from| ==> !(from <= s))
    decreases |x| - j
  {
    if j < |x| && |s| >= |from| {
      var r := ReplaceAll(s, from);
      if from <= s {
        EndsInside(x, j, r);
      } else {
        assert x[j..][1..] == x[j + 1..] && r[1..] == ReplaceAll(s[1..], from);
        assert x[j..][0] == r[0] == s[0];
        TailOfPrefix(x[j..], r);
        ClearPrefix(s[1..], from, x, j + 1);
        assert x[j..] == [s[0]] + x[j + 1..];
        assert s == [s[0]] + s[1..];
      }
    }
  }

  lemma TailOfPrefix(x: string, s: string)
    requires x != "" && x <= s
    ensures x[1..] <= s[1..]
  {
    assert s[1..][..|x| - 1] == s[..|x|][1..];
  }

  lemma OccursLater(s: string, x: string, i: nat, n: nat)
    requires OccursAt(s, x, i) && n <= i && n <= |s|
    ensures OccursAt(s[n..], x, i - n)
  {
    assert s[n..][i - n..i - n + |x|] == s[i..i + |x|];
  }

  /** A clear string found after a replacement was there before, and is not what was replaced. */
  lemma {:induction false} NothingNew(s: string, from: string, x: string, i: nat)
    requires from != "" && Clear(x) && OccursAt(ReplaceAll(s, from), x, i)
    ensures Contains(s, x) && x != from
  {
    var r := ReplaceAll(s, from);
    if |s| < |from| {
      assert OccursAt(s, x, i);
    } else if from <= s {
      if i >= |MARK| {
        OccursLater(r, x, i, |MARK|);
        assert r[|MARK|..] == ReplaceAll(s[|from|..], from);
        NothingNew(s[|from|..], from, x, i - |MARK|);
        ContainsSuffix(s, |from|, x);
      } else {
        BeginsInside(x, r, i);
      }
    } else if i > 0 {
      OccursLater(r, x, i, 1);
      assert r[1..] == ReplaceAll(s[1..], from);
      NothingNew(s[1..], from, x, i - 1);
      ContainsSuffix(s, 1, x);
    } else {
      assert x[0..] == x <= r;
      ClearPrefix(s, from, x, 0);
      assert OccursAt(s, x, 0);
    }
  }

  lemma ContainsSuffix(s: string, n: nat, x: string)
    requires n <= |s|
    ensures Contains(s[n..], x) ==> Contains(s, x)
  {
    if Contains(s[n..], x) {
      var i: nat :| OccursAt(s[n..], x, i);
      assert s[n..][i..i + |x|] == s[n + i..n + i + |x|];
      assert OccursAt(s, x, n + i);
    }
  }

  // ---------------------------------------------------------------- known secrets

  predicate Unreserved(c: char) {
    'a' <= c <= 'z' || 'A' <= c <= 'Z' || '0' <= c <= '9' || c == '-' || c == '_' || c == '.' || c == '~'
  }

  function UpperHex(n: nat): char
    requires n < 16
  {
    if n < 10 then '0' + n as char else 'A' + (n - 10) as char
  }

  /** The form a secret takes in a query string. */
  function QueryEscape(s: string): (r: string)
    ensures s != "" ==> r != ""
  {
    if s == "" then ""
    else
      var n := s[0] as int;
      (if Unreserved(s[0]) then [s[0]] else if s[0] == ' ' then "+" else ['%', UpperHex(n / 16 % 16), UpperHex(n % 16)])
      + QueryEscape(s[1..])
  }

  function RedactOne(value: string, secret: string): string {
    if secret == "" then value else ReplaceAll(ReplaceAll(value, secret), QueryEscape(secret))
  }

  function RedactAll(value: string, secrets: seq<string>): string {
    if secrets == [] then value
    else RedactOne(RedactAll(value, secrets[..|secrets| - 1]), secrets[|secrets| - 1])
  }

  function LongestFirst(secrets: seq<string>): seq<string> {
    StableSort(secrets, (s: string) => -|s|)
  }

  function Redacted(value: string, secrets: seq<string>): string {
    RedactAll(value, LongestFirst(secrets))
  }

  method RedactKnownSecrets(value: string, knownSecrets: seq<string>) returns (r: string)
    ensures r == Redacted(value, knownSecrets)
  {
    var secrets := LongestFirst(knownSecrets);
    r := value;
    for i := 0 to |secrets|
      invariant r == RedactAll(value, secrets[..i])
    {
      assert secrets[..i + 1][..i] == secrets[..i];
      if secrets[i] == "" {
        continue;
      }
      r := ReplaceAll(r, secrets[i]);
      r := ReplaceAll(r, QueryEscape(secrets[i]));
    }
    assert secrets[..|secrets|] == secrets;
  }

  lemma ReplaceKeepsOut(s: string, from: string, x: string)
    requires from != "" && Clear(x) && (!Contains(s, x) || x == from)
    ensures !Contains(ReplaceAll(s, from), x)
  {
    if Contains(ReplaceAll(s, from), x) {
      var i: nat :| OccursAt(ReplaceAll(s, from), x, i);
      NothingNew(s, from, x, i);
    }
  }

  lemma RedactOneRemoves(value: string, secret: string, x: string)
    requires Clear(x)
    requires !Contains(value, x) || (secret != "" && (x == secret || x == QueryEscape(secret)))
    ensures !Contains(RedactOne(value, secret), x)
  {
    if secret != "" {
      var once := ReplaceAll(value, secret);
      if !Contains(value, x) || x == secret {
        ReplaceKeepsOut(value, secret, x);
      }
      ReplaceKeepsOut(once, QueryEscape(secret), x);
    }
  }

  /** Whatever the order of the secrets and however they overlap, none of them, and none of their
      escaped forms, is left. */
  lemma {:induction false} RedactAllRemoves(value: string, secrets: seq<string>, secret: string, x: string)
    requires secret in secrets && secret != "" && (x == secret || x == QueryEscape(secret)) && Clear(x)
    ensures !Contains(RedactAll(value, secrets), x)
  {
    var front, last := secrets[..|secrets| - 1], secrets[|secrets| - 1];
    assert secrets == front + [last];
    if secret in front {
      RedactAllRemoves(value, front, secret, x);
    }
    RedactOneRemoves(RedactAll(value, front), last, x);
  }

  lemma RedactedRemoves(value: string, secrets: seq<string>, secret: string, x: string)
    requires secret in secrets && secret != "" && (x == secret || x == QueryEscape(secret)) && Clear(x)
    ensures !Contains(Redacted(value, secrets), x)
  {
    StableSortMeaning(secrets, (s: string) => -|s|);
    RedactAllRemoves(value, LongestFirst(secrets), secret, x);
  }

  // ---------------------------------------------------------------- JSON values

  datatype Json =
    | Null
    | Bool(b: bool)
    | Number(text: string)
    | Str(s: string)
    | Arr(items: seq<Json>)
    | Obj(members: map<string, Json>)

  function Lower(c: char): char {
    if 'A' <= c <= 'Z' then 'a' + (c - 'A') else if c == '-' then '_' else c
  }

  function LowerAll(s: string): string { seq(|s|, i requires 0 <= i < |s| => Lower(s[i])) }

  const SENSITIVE_PARTS := ["secret", "token", "credential", "private_key", "authorization"]

  predicate HasPart(s: string, x: string) {
    exists i | 0 <= i <= |s| :: OccursAt(s, x, i)
  }

  predicate SensitiveKey(key: string) {
    exists k | 0 <= k < |SENSITIVE_PARTS| :: HasPart(LowerAll(key), SENSITIVE_PARTS[k])
  }

  function RedactValue(v: Json, secrets: seq<string>): Json {
    match v
    case Obj(members) =>
      Obj(map k | k in members :: if SensitiveKey(k) then Str(MARK) else RedactValue(members[k], secrets))
    case Arr(items) => Arr(seq(|items|, i requires 0 <= i < |items| => RedactValue(items[i], secrets)))
    case Str(s) => Str(Redacted(s, secrets))
    case _ => v
  }

  // ---------------------------------------------------------------- paths into a value

  datatype Step = Key(key: string) | Index(i: nat)

  function Child(v: Json, step: Step): Option<Json> {
    match (v, step)
    case (Obj(members), Key(k)) => if k in members then Some(members[k]) else None
    case (Arr(items), Index(i)) => if i < |items| then Some(items[i]) else None
    case _ => None
  }

  function At(v: Json, path: seq<Step>): Option<Json> {
    if path == [] then Some(v)
    else
      match Child(v, path[0])
      case None => None
      case Some(w) => At(w, path[1..])
  }

  predicate SensitiveStep(step: Step) { step.Key? && SensitiveKey(step.key) }

  predicate SensitivePath(path: seq<Step>) {
    exists i | 0 <= i < |path| :: SensitiveStep(path[i])
  }

  /** What redaction leaves at a path: everything in place outside sensitive keys, the mark at the
      first sensitive key, and nothing below it. */
  function Left(v: Json, path: seq<Step>, secrets: seq<string>): Option<Json> {
    if path == [] then Some(RedactValue(v, secrets))
    else
      match Child(v, path[0])
      case None => None
      case Some(w) =>
        if !SensitiveStep(path[0]) then Left(w, path[1..], secrets)
        else if |path| == 1 then Some(Str(MARK)) else None
  }

  lemma {:induction false} RedactValueLeaves(v: Json, path: seq<Step>, secrets: seq<string>)
    ensures At(RedactValue(v, secrets), path) == Left(v, path, secrets)
    decreases |path|
  {
    if path != [] {
      var step := path[0];
      match Child(v, step)
      case None => assert Child(RedactValue(v, secrets), step) == None;
      case Some(w) =>
        if SensitiveStep(step) {
          assert Child(RedactValue(v, secrets), step) == Some(Str(MARK));
          if |path| > 1 {
            assert Child(Str(MARK), path[1..][0]) == None;
          }
        } else {
          assert Child(RedactValue(v, secrets), step) == Some(RedactValue(w, secrets));
          RedactValueLeaves(w, path[1..], secrets);
        }
    }
  }

  lemma {:induction false} LeftIsRedacted(v: Json, path: seq<Step>, secrets: seq<string>, s: string)
    requires Left(v, path, secrets) == Some(Str(s))
    ensures s == MARK || exists orig :: At(v, path) == Some(Str(orig)) && s == Redacted(orig, secrets)
    decreases |path|
  {
    if path == [] {
      assert v.Str?;
    } else if !SensitiveStep(path[0]) {
      LeftIsRedacted(Child(v, path[0]).value, path[1..], secrets, s);
    }
  }

  /** No string anywhere in a redacted value holds a known secret, or its escaped form, that is
      clear of the mark. */
  lemma NoSecretIsLeft(v: Json, path: seq<Step>, secrets: seq<string>, s: string, secret: string, x: string)
    requires At(RedactValue(v, secrets), path) == Some(Str(s))
    requires secret in secrets && secret != "" && (x == secret || x == QueryEscape(secret)) && Clear(x)
    ensures !Contains(s, x)
  {
    RedactValueLeaves(v, path, secrets);
    LeftIsRedacted(v, path, secrets, s);
    if s == MARK {
      assert !Contains(MARK, x);
    } else {
      var orig :| At(v, path) == Some(Str(orig)) && s == Redacted(orig, secrets);
      RedactedRemoves(orig, secrets, secret, x);
    }
  }

  /** A subtree under a sensitive key is gone, whatever it held, key names included. */
  lemma SensitiveSubtreesCollapse(v: Json, path: seq<Step>, key: string, below: seq<Step>, secrets: seq<string>)
    requires !SensitivePath(path) && SensitiveKey(key)
    ensures At(RedactValue(v, secrets), path + [Key(key)] + below)
         == if below == [] && At(v, path + [Key(key)]).Some? then Some(Str(MARK)) else None
  {
    RedactValueLeaves(v, path + [Key(key)] + below, secrets);
    CollapsesBelow(v, path, key, below, secrets);
  }

  lemma {:induction false} CollapsesBelow(v: Json, path: seq<Step>, key: string, below: seq<Step>, secrets: seq<string>)
    requires !SensitivePath(path) && SensitiveKey(key)
    ensures Left(v, path + [Key(key)] + below, secrets)
         == if below == [] && At(v, path + [Key(key)]).Some? then Some(Str(MARK)) else None
    decreases |path|
  {
    var all := path + [Key(key)] + below;
    if path == [] {
      assert all == [Key(key)] + below;
      assert (path + [Key(key)])[1..] == [];
    } else {
      assert all[1..] == path[1..] + [Key(key)] + below;
      assert (path + [Key(key)])[1..] == path[1..] + [Key(key)];
      assert !SensitiveStep(path[0]);
      forall i | 0 <= i < |path[1..]| ensures !SensitiveStep(path[1..][i]) {
        assert path[1..][i] == path[i + 1];
      }
      match Child(v, path[0])
      case None =>
      case Some(w) => CollapsesBelow(w, path[1..], key, below, secrets);
    }
  }

  // ---------------------------------------------------------------- collecting secrets

  predicate Inherits(sensitive: bool, key: string) { sensitive || SensitiveKey(key) }

  /** The non-empty strings with a sensitive key above them. */
  function SensitiveStrings(v: Json, sensitive: bool): set<string> {
    match v
    case Obj(members) =>
      set k, s | k in members && s in SensitiveStrings(members[k], Inherits(sensitive, k)) :: s
    case Arr(items) =>
      set i, s | 0 <= i < |items| && s in SensitiveStrings(items[i], sensitive) :: s
    case Str(s) => if sensitive && s != "" then {s} else {}
    case _ => {}
  }

  lemma {:induction false} SensitiveStringsSound(v: Json, sensitive: bool, s: string) returns (path: seq<Step>)
    requires s in SensitiveStrings(v, sensitive)
    ensures s != "" && At(v, path) == Some(Str(s)) && (sensitive || SensitivePath(path))
    decreases v
  {
    match v {
      case Obj(members) =>
        var k :| k in members && s in SensitiveStrings(members[k], Inherits(sensitive, k));
        var rest := SensitiveStringsSound(members[k], Inherits(sensitive, k), s);
        path := PathCons(Key(k), rest);
      case Arr(items) =>
        var i :| 0 <= i < |items| && s in SensitiveStrings(items[i], sensitive);
        var rest := SensitiveStringsSound(items[i], sensitive, s);
        path := PathCons(Index(i), rest);
      case Str(_) =>
        path := [];
    }
  }

  lemma PathCons(step: Step, rest: seq<Step>) returns (path: seq<Step>)
    ensures path == [step] + rest && path[1..] == rest
    ensures SensitivePath(path) <==> SensitiveStep(step) || SensitivePath(rest)
  {
    path := [step] + rest;
    if SensitivePath(rest) {
      var i :| 0 <= i < |rest| && SensitiveStep(rest[i]);
      assert path[i + 1] == rest[i];
    }
    if SensitiveStep(step) {
      assert SensitiveStep(path[0]);
    }
    if SensitivePath(path) && !SensitiveStep(step) {
      var i :| 0 <= i < |path| && SensitiveStep(path[i]);
      assert rest[i - 1] == path[i];
    }
  }

  lemma {:induction false} SensitiveStringsComplete(v: Json, sensitive: bool, path: seq<Step>, s: string)
    requires s != "" && At(v, path) == Some(Str(s)) && (sensitive || SensitivePath(path))
    ensures s in SensitiveStrings(v, sensitive)
    decreases |path|
  {
    if path != [] {
      var step, rest := path[0], path[1..];
      var again := PathCons(step, rest);
      assert again == path;
      var w := Child(v, step).value;
      match step
      case Key(k) =>
        assert Inherits(sensitive, k) <==> sensitive || SensitiveStep(step);
        SensitiveStringsComplete(w, Inherits(sensitive, k), rest, s);
        assert s in SensitiveStrings(v.members[k], Inherits(sensitive, k));
      case Index(i) =>
        SensitiveStringsComplete(w, sensitive, rest, s);
        assert s in SensitiveStrings(v.items[i], sensitive);
    }
  }

  /** Exactly the non-empty strings that some path with a sensitive key leads to. */
  lemma SensitiveStringsMeaning(v: Json, s: string)
    ensures s in SensitiveStrings(v, false) <==>
              s != "" && exists path :: At(v, path) == Some(Str(s)) && SensitivePath(path)
  {
    if s in SensitiveStrings(v, false) {
      var path := SensitiveStringsSound(v, false, s);
    }
    if s != "" {
      forall path | At(v, path) == Some(Str(s)) && SensitivePath(path) ensures s in SensitiveStrings(v, false) {
        SensitiveStringsComplete(v, false, path, s);
      }
    }
  }

  /** Visits every string leaf, in some order of an object's keys, appending the sensitive ones. */
  method WalkSensitiveValue(v: Json, sensitive: bool, secrets: seq<string>) returns (r: seq<string>)
    ensures secrets <= r
    ensures forall s :: s in r <==> s in secrets || s in SensitiveStrings(v, sensitive)
    decreases v
  {
    r := secrets;
    match v {
      case Obj(members) =>
        var todo := members.Keys;
        while todo != {}
          invariant secrets <= r && todo <= members.Keys
          invariant forall s ::
            s in r <==> (s in secrets || exists k | k in members.Keys - todo :: s in SensitiveStrings(members[k], Inherits(sensitive, k)))
          decreases todo
        {
          var k :| k in todo;
          r := WalkSensitiveValue(members[k], Inherits(sensitive, k), r);
          todo := todo - {k};
        }
      case Arr(items) =>
        for i := 0 to |items|
          invariant secrets <= r
          invariant forall s ::
            s in r <==> (s in secrets || exists j | 0 <= j < i :: s in SensitiveStrings(items[j], sensitive))
        {
          r := WalkSensitiveValue(items[i], sensitive, r);
        }
      case Str(s) =>
        if sensitive && s != "" {
          r := r + [s];
        }
      case _ =>
    }
  }

  /** A value that is missing or does not decode holds no secrets. */
  method CollectSensitiveStrings(decoded: Option<Json>) returns (secrets: seq<string>)
    ensures decoded == None ==> secrets == []
    ensures decoded.Some? ==> forall s :: s in secrets <==> s in SensitiveStrings(decoded.value, false)
  {
    if decoded == None {
      return [];
    }
    secrets := WalkSensitiveValue(decoded.value, false, []);
  }

  /** From request to log: a credential sent under a sensitive key of the request, clear of the mark,
      appears in no string of the redacted response. */
  lemma SentCredentialsAreNotLogged(request: Json, response: Json, token: string, collected: seq<string>,
                                    sentAt: seq<Step>, credential: string, loggedAt: seq<Step>, logged: string)
    requires forall s :: s in collected <==> s in SensitiveStrings(request, false)
    requires At(request, sentAt) == Some(Str(credential)) && SensitivePath(sentAt) && Clear(credential)
    requires At(RedactValue(response, [token] + collected), loggedAt) == Some(Str(logged))
    ensures !Contains(logged, credential)
  {
    SensitiveStringsComplete(request, false, sentAt, credential);
    assert credential in collected;
    NoSecretIsLeft(response, loggedAt, [token] + collected, logged, credential, credential);
  }
}
