/** Ranking and filtering the peer's candidates, as nomination.go does. What the address parsers
    of the standard library say about an address is a parameter. */
module Candidates {
  import opened Sorting

  datatype Candidate = Candidate(kind: string, addr: string)

  /** `host`: it splits and parses; `v4`: it is an IPv4 address, mapped ones included; `is6`: it
      parses as an IPv6 address and port; `public`: it is publicly routable. */
  datatype AddrInfo = AddrInfo(host: bool, v4: bool, is6: bool, public: bool)

  type Lookup = string -> AddrInfo

  function Score(c: Candidate, look: Lookup): int {
    (match c.kind case "iface" => 0 case "reflex" => 10 case "turn" => 20 case _ => 100)
    - (if look(c.addr).is6 then 2 else 0)
  }

  /** Interface addresses come before reflexive ones, these before relays and these before all others,
      whatever the family; among candidates of one kind IPv6 comes first. */
  lemma ScoreOrder(c: Candidate, d: Candidate, look: Lookup)
    ensures c.kind == "iface" && d.kind != "iface" ==> Score(c, look) < Score(d, look)
    ensures c.kind == "reflex" && d.kind != "iface" && d.kind != "reflex" ==> Score(c, look) < Score(d, look)
    ensures c.kind == "turn" && d.kind != "iface" && d.kind != "reflex" && d.kind != "turn" ==> Score(c, look) < Score(d, look)
    ensures c.kind == d.kind ==> (Score(c, look) < Score(d, look) <==> look(c.addr).is6 && !look(d.addr).is6)
  {
  }

  function RankCandidates(cs: seq<Candidate>, look: Lookup): seq<Candidate> {
    StableSort(cs, c => Score(c, look))
  }

  datatype Families = Families(v4: bool, v6: bool)

  predicate Reachable(c: Candidate, look: Lookup, sockets: Families, local: Families) {
    look(c.addr).host && if look(c.addr).v4 then sockets.v4 && local.v4 else sockets.v6 && local.v6
  }

  function OnlyReachable(cs: seq<Candidate>, look: Lookup, sockets: Families, local: Families): seq<Candidate> {
    if cs == [] then []
    else
      var before := OnlyReachable(cs[..|cs| - 1], look, sockets, local);
      if Reachable(cs[|cs| - 1], look, sockets, local) then before + [cs[|cs| - 1]] else before
  }

  ghost predicate HasFamily(cs: seq<Candidate>, look: Lookup, v4: bool) {
    exists c | c in cs :: look(c.addr).host && look(c.addr).v4 == v4
  }

  ghost function LocalFamilies(local: seq<Candidate>, look: Lookup): Families {
    Families(HasFamily(local, look, true), HasFamily(local, look, false))
  }

  /** The families for which a local candidate was found; it stops once it has both. */
  method LocalCandidateFamilies(local: seq<Candidate>, look: Lookup) returns (f: Families)
    ensures f == LocalFamilies(local, look)
  {
    f := Families(false, false);
    for i := 0 to |local|
      invariant f.v4 <==> HasFamily(local[..i], look, true)
      invariant f.v6 <==> HasFamily(local[..i], look, false)
    {
      if f.v4 && f.v6 {
        return;
      }
      assert local[..i + 1] == local[..i] + [local[i]];
      var info := look(local[i].addr);
      if info.host {
        if info.v4 {
          f := f.(v4 := true);
        } else {
          f := f.(v6 := true);
        }
      }
    }
    assert local[..|local|] == local;
  }

  /** Without sockets nothing is compatible. */
  method CompatibleCandidates(cs: seq<Candidate>, look: Lookup, sockets: Families, open: bool, local: seq<Candidate>)
    returns (ranked: seq<Candidate>)
    ensures ranked == if open then RankCandidates(OnlyReachable(cs, look, sockets, LocalFamilies(local, look)), look) else []
  {
    if !open {
      return [];
    }
    var families := LocalCandidateFamilies(local, look);
    var compatible := [];
    for i := 0 to |cs|
      invariant compatible == OnlyReachable(cs[..i], look, sockets, families)
    {
      assert cs[..i + 1][..i] == cs[..i];
      if Reachable(cs[i], look, sockets, families) {
        compatible := compatible + [cs[i]];
      }
    }
    assert cs[..|cs|] == cs;
    ranked := RankCandidates(compatible, look);
  }

  lemma {:induction false} OnlyReachableMembers(cs: seq<Candidate>, look: Lookup, sockets: Families, local: Families)
    ensures forall c :: c in OnlyReachable(cs, look, sockets, local) <==> c in cs && Reachable(c, look, sockets, local)
  {
    if cs != [] {
      OnlyReachableMembers(cs[..|cs| - 1], look, sockets, local);
      assert cs == cs[..|cs| - 1] + [cs[|cs| - 1]];
    }
  }

  /** The ranking holds exactly the candidates an open socket and a local address can reach, best
      score first. */
  lemma RankedMeaning(cs: seq<Candidate>, look: Lookup, sockets: Families, local: Families)
    ensures var ranked := RankCandidates(OnlyReachable(cs, look, sockets, local), look);
      && (forall c :: c in ranked <==> c in cs && Reachable(c, look, sockets, local))
      && (forall i, j | 0 <= i <= j < |ranked| :: Score(ranked[i], look) <= Score(ranked[j], look))
      && IsStableSortOf(ranked, OnlyReachable(cs, look, sockets, local), c => Score(c, look))
  {
    OnlyReachableMembers(cs, look, sockets, local);
    StableSortMeaning(OnlyReachable(cs, look, sockets, local), c => Score(c, look));
  }

  /** Where `x` first occurs in `s`, or the length of `s`. */
  function First(s: seq<string>, x: string): (k: nat)
    ensures k <= |s| && (k < |s| <==> x in s) && (k < |s| ==> s[k] == x)
    ensures forall i | 0 <= i < k :: s[i] != x
  {
    if s == [] then 0 else if s[0] == x then 0 else 1 + First(s[1..], x)
  }

  lemma {:induction false} FirstAppend(s: seq<string>, t: seq<string>, x: string)
    ensures First(s + t, x) == if x in s then First(s, x) else |s| + First(t, x)
  {
    if s == [] {
      assert s + t == t;
    } else {
      assert (s + t)[1..] == s[1..] + t;
      FirstAppend(s[1..], t, x);
    }
  }

  // ---------------------------------------------------------------- the last-resort guess

  /** Nothing answered: the first publicly routable candidate, or else the first of all. */
  method GuessCandidate(ordered: seq<Candidate>, look: Lookup) returns (addr: string)
    ensures addr == Guess(ordered, look)
  {
    for i := 0 to |ordered|
      invariant forall j | 0 <= j < i :: !look(ordered[j].addr).public
    {
      if look(ordered[i].addr).public {
        GuessMeaning(ordered, look);
        assert IsFirstPublic(ordered, look, i);
        return ordered[i].addr;
      }
    }
    GuessMeaning(ordered, look);
    return if |ordered| > 0 then ordered[0].addr else "";
  }

  function FirstPublic(ordered: seq<Candidate>, look: Lookup): nat {
    if ordered == [] then 0
    else if look(ordered[0].addr).public then 0
    else 1 + FirstPublic(ordered[1..], look)
  }

  function Guess(ordered: seq<Candidate>, look: Lookup): string {
    var k := FirstPublic(ordered, look);
    if k < |ordered| then ordered[k].addr else if ordered == [] then "" else ordered[0].addr
  }

  /** A family with no open socket, or of which no local address was found, is never tried; one with
      both keeps all its candidates. */
  lemma FamiliesKeptApart(cs: seq<Candidate>, look: Lookup, sockets: Families, local: Families, c: Candidate)
    ensures c in OnlyReachable(cs, look, sockets, local) ==> c in cs && look(c.addr).host
    ensures look(c.addr).v4 && !(sockets.v4 && local.v4) ==> c !in OnlyReachable(cs, look, sockets, local)
    ensures !look(c.addr).v4 && !(sockets.v6 && local.v6) ==> c !in OnlyReachable(cs, look, sockets, local)
    ensures c in cs && look(c.addr).host && look(c.addr).v4 && sockets.v4 && local.v4 ==> c in OnlyReachable(cs, look, sockets, local)
    ensures c in cs && look(c.addr).host && !look(c.addr).v4 && sockets.v6 && local.v6 ==> c in OnlyReachable(cs, look, sockets, local)
  {
    OnlyReachableMembers(cs, look, sockets, local);
  }

  /** The first publicly routable candidate. */
  predicate IsFirstPublic(ordered: seq<Candidate>, look: Lookup, i: nat) {
    i < |ordered| && look(ordered[i].addr).public && forall j | 0 <= j < i :: !look(ordered[j].addr).public
  }

  lemma {:induction false} FirstPublicMeaning(ordered: seq<Candidate>, look: Lookup)
    ensures var k := FirstPublic(ordered, look);
      if k < |ordered| then IsFirstPublic(ordered, look, k)
      else k == |ordered| && forall c | c in ordered :: !look(c.addr).public
  {
    if ordered != [] && !look(ordered[0].addr).public {
      FirstPublicMeaning(ordered[1..], look);
      assert ordered == [ordered[0]] + ordered[1..];
    }
  }

  /** The guess is the first publicly routable candidate, failing that the first of all, and
      nothing where there is no candidate. */
  lemma GuessMeaning(ordered: seq<Candidate>, look: Lookup)
    ensures forall i: nat | IsFirstPublic(ordered, look, i) :: Guess(ordered, look) == ordered[i].addr
    ensures (forall c | c in ordered :: !look(c.addr).public) ==>
              Guess(ordered, look) == if ordered == [] then "" else ordered[0].addr
  {
    FirstPublicMeaning(ordered, look);
    var k := FirstPublic(ordered, look);
    if k < |ordered| {
      assert ordered[k] in ordered;
    }
    forall i: nat | IsFirstPublic(ordered, look, i) ensures i == k {
      assert ordered[i] in ordered;
    }
  }
}
