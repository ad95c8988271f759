/** The queue of endpoints to fall back on: main.go's observed queue and its completion with the
    candidates the peer advertised. */
module RetryQueue {
  import opened Candidates

  /** `q` keeps, in the order they first occur in `s`, exactly its entries outside `skip`. */
  ghost predicate FirstOccurrences(q: seq<string>, s: seq<string>, skip: set<string>) {
    && (forall x :: x in q <==> x in s && x !in skip)
    && Rises(q, s)
  }

  /** Each entry first occurs in `s` after the one before it. */
  predicate Rises(q: seq<string>, s: seq<string>) {
    forall i, j | 0 <= i < j < |q| :: First(s, q[i]) < First(s, q[j])
  }

  /** That describes one queue only, and one without duplicates. */
  lemma FirstOccurrencesUnique(q: seq<string>, r: seq<string>, s: seq<string>, skip: set<string>)
    requires FirstOccurrences(q, s, skip) && FirstOccurrences(r, s, skip)
    ensures q == r
    ensures forall i, j | 0 <= i < j < |q| :: q[i] != q[j]
  {
    SameOrder(q, r, s);
  }

  /** Rising lists with the same members begin alike, as neither can begin later than the other. */
  lemma SameFirst(q: seq<string>, r: seq<string>, s: seq<string>)
    requires q != [] && r != [] && q[0] in r && r[0] in q && Rises(q, s) && Rises(r, s)
    ensures q[0] == r[0]
  {
    var k :| 0 <= k < |r| && r[k] == q[0];
    var m :| 0 <= m < |q| && q[m] == r[0];
    assert First(s, r[0]) <= First(s, r[k]);
    assert First(s, q[0]) <= First(s, q[m]);
  }

  /** The first entry of a rising list does not come again. */
  lemma RestMembers(q: seq<string>, s: seq<string>, x: string)
    requires q != [] && Rises(q, s)
    ensures x in q[1..] <==> x in q && x != q[0]
    ensures Rises(q[1..], s)
  {
    var rest := q[1..];
    assert q == [q[0]] + rest;
    if x in rest {
      var i :| 0 <= i < |rest| && rest[i] == x;
      assert First(s, q[0]) < First(s, q[i + 1]);
    }
    forall i, j | 0 <= i < j < |rest| ensures First(s, rest[i]) < First(s, rest[j]) {
      assert First(s, q[i + 1]) < First(s, q[j + 1]);
    }
  }

  lemma HasMember(r: seq<string>)
    ensures r != [] ==> exists x :: x in r
  {
    if r != [] {
      assert r[0] in r;
    }
  }

  predicate SameMembers(q: seq<string>, r: seq<string>) {
    (forall x | x in q :: x in r) && (forall x | x in r :: x in q)
  }

  lemma {:induction false} SameOrder(q: seq<string>, r: seq<string>, s: seq<string>)
    requires SameMembers(q, r) && Rises(q, s) && Rises(r, s)
    ensures q == r
  {
    if q == [] {
      HasMember(r);
    } else {
      assert q[0] in r;
      assert r[0] in q;
      SameFirst(q, r, s);
      RestMembers(q, s, q[0]);
      RestMembers(r, s, r[0]);
      forall x ensures x in q[1..] <==> x in r[1..] {
        RestMembers(q, s, x);
        RestMembers(r, s, x);
      }
      SameOrder(q[1..], r[1..], s);
      assert q == [q[0]] + q[1..] && r == [r[0]] + r[1..];
    }
  }

  /** One more entry: kept if it is new and not to be skipped. */
  lemma FirstOccurrencesSnoc(q: seq<string>, s: seq<string>, skip: set<string>, x: string)
    requires FirstOccurrences(q, s, skip)
    ensures FirstOccurrences(if x in skip || x in q then q else q + [x], s + [x], skip)
  {
    var q' := if x in skip || x in q then q else q + [x];
    forall y ensures y in s ==> First(s + [x], y) == First(s, y) {
      FirstAppend(s, [x], y);
    }
    FirstAppend(s, [x], x);
    forall i, j | 0 <= i < j < |q'| ensures First(s + [x], q'[i]) < First(s + [x], q'[j]) {
      assert q'[i] in q';
      if j < |q| {
        assert q[i] in q && q[j] in q;
      } else {
        assert q[i] in q;
        assert First(s, q[i]) < |s|;
      }
    }
  }

  // ---------------------------------------------------------------- observed candidates

  /** One line of the packet log: its sender, and whether it is an inbound binding request. */
  datatype Packet = Packet(addr: string, bindingRequest: bool)

  function Senders(log: seq<Packet>): seq<string> {
    if log == [] then []
    else
      var before := Senders(log[..|log| - 1]);
      if log[|log| - 1].bindingRequest then before + [log[|log| - 1].addr] else before
  }

  /** The senders of the lines one after another: nobody for a line that is no binding request. */
  lemma {:induction false} SendersAppend(a: seq<Packet>, b: seq<Packet>)
    ensures Senders(a + b) == Senders(a) + Senders(b)
  {
    if b == [] {
      assert a + b == a;
    } else {
      var front, last := b[..|b| - 1], b[|b| - 1];
      assert (a + b)[..|a + b| - 1] == a + front;
      SendersAppend(a, front);
    }
  }

  lemma SenderOfOne(p: Packet)
    ensures Senders([p]) == if p.bindingRequest then [p.addr] else []
  {
    assert [p][..0] == [];
  }

  datatype Mode = PerTupleNomination | InboundBindingRequest | FallbackProbe

  /** A queue and the set beside it that tells what is in it, besides `endpoint`. */
  ghost predicate Collected(queue: seq<string>, seen: set<string>, extra: set<string>, s: seq<string>, skip: set<string>) {
    FirstOccurrences(queue, s, skip) && forall x :: x in seen <==> x in queue || x in extra
  }

  /** The queue's first entry is the list's, if none is skipped. */
  lemma FirstIsFirst(queue: seq<string>, s: seq<string>)
    requires FirstOccurrences(queue, s, {})
    ensures queue == [] <==> s == []
    ensures queue != [] ==> queue[0] == s[0]
  {
    if s != [] {
      assert s[0] in queue;
      var k :| 0 <= k < |queue| && queue[k] == s[0];
      assert First(s, queue[k]) == 0 <= First(s, queue[0]);
    }
    HasMember(queue);
  }

  method AppendSender(queue: seq<string>, seen: set<string>, addr: string, ghost s: seq<string>)
    returns (queue': seq<string>, seen': set<string>)
    requires Collected(queue, seen, {}, s, {})
    ensures Collected(queue', seen', {}, s + [addr], {})
  {
    FirstOccurrencesSnoc(queue, s, {}, addr);
    if addr in seen {
      return queue, seen;
    }
    return queue + [addr], seen + {addr};
  }

  /** Those who sent a binding request, each once, in order; the first of them stands in for a
      missing nomination. */
  method ResolveObserved(nominated: string, log: seq<Packet>)
    returns (endpoint: string, mode: Mode, queue: seq<string>)
    requires forall p | p in log :: p.addr != ""
    ensures FirstOccurrences(queue, Senders(log), {})
    ensures queue == [] <==> Senders(log) == []
    ensures if nominated != "" then endpoint == nominated && mode == PerTupleNomination
            else if queue != [] then endpoint == queue[0] == Senders(log)[0] && mode == InboundBindingRequest
            else endpoint == "" && mode == FallbackProbe
  {
    endpoint, queue := nominated, [];
    mode := if nominated != "" then PerTupleNomination else FallbackProbe;
    var seen: set<string> := {};
    ghost var s: seq<string> := [];
    for i := 0 to |log|
      invariant s == Senders(log[..i]) && Collected(queue, seen, {}, s, {})
      invariant if nominated != "" then endpoint == nominated && mode == PerTupleNomination
                else if s != [] then endpoint == s[0] != "" && mode == InboundBindingRequest
                else endpoint == "" && mode == FallbackProbe
    {
      var p := log[i];
      assert p in log;
      assert log[..i + 1][..i] == log[..i];
      if p.bindingRequest {
        queue, seen := AppendSender(queue, seen, p.addr, s);
        s := s + [p.addr];
        if endpoint == "" {
          endpoint := p.addr;
          mode := InboundBindingRequest;
        }
      }
    }
    assert log[..|log|] == log;
    FirstIsFirst(queue, s);
  }

  // ---------------------------------------------------------------- the whole queue

  /** The addresses of one group, in order. */
  function Group(cs: seq<Candidate>, look: Lookup, public: bool): seq<string> {
    if cs == [] then []
    else
      var before := Group(cs[..|cs| - 1], look, public);
      var addr := cs[|cs| - 1].addr;
      if look(addr).public == public then before + [addr] else before
  }

  function Addrs(cs: seq<Candidate>): seq<string> { seq(|cs|, i requires 0 <= i < |cs| => cs[i].addr) }

  /** Everything that may be tried, most promising first. */
  function InOrder(observed: seq<string>, advertised: seq<Candidate>, look: Lookup): seq<string> {
    observed + Group(advertised, look, true) + Group(advertised, look, false)
  }

  method BuildCandidateRetryQueue(endpoint: string, observed: seq<string>, advertised: seq<Candidate>, look: Lookup)
    returns (queue: seq<string>)
    ensures FirstOccurrences(queue, InOrder(observed, advertised, look), {endpoint, ""})
  {
    var seen;
    ghost var skip := {endpoint, ""};
    queue, seen := AppendAll([], {endpoint}, {endpoint}, skip, [], observed);
    assert [] + observed == observed;
    queue, seen := AppendGroup(queue, seen, {endpoint}, skip, observed, advertised, look, true);
    queue, seen := AppendGroup(queue, seen, {endpoint}, skip, observed + Group(advertised, look, true), advertised, look, false);
  }

  /** tunnel.go's order of recovery: the current endpoint, then every other known one. */
  method BuildEndpointRecoveryOrder(current: string, known: seq<string>) returns (order: seq<string>)
    ensures FirstOccurrences(order, [current] + known, {""})
  {
    var seen;
    order, seen := AppendAll([], {}, {}, {""}, [], [current]);
    assert [] + [current] == [current];
    order, seen := AppendAll(order, seen, {}, {""}, [current], known);
  }

  /** The closures of both builders: an address is kept unless it is empty or already seen. */
  method AppendCandidate(queue: seq<string>, seen: set<string>, addr: string,
                         ghost extra: set<string>, ghost skip: set<string>, ghost s: seq<string>)
    returns (queue': seq<string>, seen': set<string>)
    requires Collected(queue, seen, extra, s, skip) && skip == extra + {""}
    ensures Collected(queue', seen', extra, s + [addr], skip)
  {
    FirstOccurrencesSnoc(queue, s, skip, addr);
    if addr == "" || addr in seen {
      return queue, seen;
    }
    return queue + [addr], seen + {addr};
  }

  method AppendAll(queue0: seq<string>, seen0: set<string>, ghost extra: set<string>, ghost skip: set<string>,
                   ghost before: seq<string>, more: seq<string>)
    returns (queue: seq<string>, seen: set<string>)
    requires Collected(queue0, seen0, extra, before, skip) && skip == extra + {""}
    ensures Collected(queue, seen, extra, before + more, skip)
  {
    queue, seen := queue0, seen0;
    ghost var s := before;
    for i := 0 to |more|
      invariant s == before + more[..i] && Collected(queue, seen, extra, s, skip)
    {
      queue, seen := AppendCandidate(queue, seen, more[i], extra, skip, s);
      assert before + more[..i + 1] == s + [more[i]];
      s := s + [more[i]];
    }
    assert more[..|more|] == more;
  }

  lemma GroupSnoc(before: seq<string>, cs: seq<Candidate>, look: Lookup, public: bool, i: nat)
    requires i < |cs|
    ensures before + Group(cs[..i + 1], look, public)
         == if look(cs[i].addr).public == public then before + Group(cs[..i], look, public) + [cs[i].addr]
            else before + Group(cs[..i], look, public)
  {
    assert cs[..i + 1][..i] == cs[..i];
  }

  method AppendGroup(queue0: seq<string>, seen0: set<string>, ghost extra: set<string>, ghost skip: set<string>,
                     ghost before: seq<string>, advertised: seq<Candidate>, look: Lookup, public: bool)
    returns (queue: seq<string>, seen: set<string>)
    requires Collected(queue0, seen0, extra, before, skip) && skip == extra + {""}
    ensures Collected(queue, seen, extra, before + Group(advertised, look, public), skip)
  {
    queue, seen := queue0, seen0;
    ghost var s := before;
    for i := 0 to |advertised|
      invariant s == before + Group(advertised[..i], look, public) && Collected(queue, seen, extra, s, skip)
    {
      GroupSnoc(before, advertised, look, public, i);
      if look(advertised[i].addr).public == public {
        queue, seen := AppendCandidate(queue, seen, advertised[i].addr, extra, skip, s);
        s := s + [advertised[i].addr];
      }
    }
    assert advertised[..|advertised|] == advertised;
  }

  // ---------------------------------------------------------------- the order it keeps

  lemma {:induction false} GroupMembers(cs: seq<Candidate>, look: Lookup, public: bool)
    ensures forall x :: x in Group(cs, look, public) <==> x in Addrs(cs) && look(x).public == public
  {
    if cs != [] {
      var front, c := cs[..|cs| - 1], cs[|cs| - 1];
      GroupMembers(front, look, public);
      assert Addrs(cs) == Addrs(front) + [c.addr];
    }
  }

  /** Within a group, addresses first occur in the same order as in the whole list. */
  lemma {:induction false} GroupKeepsOrder(cs: seq<Candidate>, look: Lookup, public: bool, x: string, y: string)
    requires x in Group(cs, look, public) && y in Group(cs, look, public)
    ensures First(Group(cs, look, public), x) < First(Group(cs, look, public), y)
       <==> First(Addrs(cs), x) < First(Addrs(cs), y)
  {
    var front, c := cs[..|cs| - 1], cs[|cs| - 1];
    var g, a := Group(front, look, public), Addrs(front);
    GroupMembers(cs, look, public);
    GroupMembers(front, look, public);
    assert Addrs(cs) == a + [c.addr];
    FirstAppend(a, [c.addr], x);
    FirstAppend(a, [c.addr], y);
    if look(c.addr).public == public {
      FirstAppend(g, [c.addr], x);
      FirstAppend(g, [c.addr], y);
    }
    if x in g && y in g {
      GroupKeepsOrder(front, look, public, x, y);
    }
  }

  /** How promising an address is: seen in action, public, or neither. */
  function Tier(addr: string, observed: seq<string>, look: Lookup): nat {
    if addr in observed then 0 else if look(addr).public then 1 else 2
  }

  /** The queue goes by tier; within the advertised tiers it keeps the rank order. */
  lemma QueueOrder(queue: seq<string>, endpoint: string, observed: seq<string>, ranked: seq<Candidate>, look: Lookup, i: nat, j: nat)
    requires FirstOccurrences(queue, InOrder(observed, ranked, look), {endpoint, ""}) && i < j < |queue|
    ensures Tier(queue[i], observed, look) <= Tier(queue[j], observed, look)
    ensures Tier(queue[i], observed, look) == Tier(queue[j], observed, look) == 0 ==>
              First(observed, queue[i]) < First(observed, queue[j])
    ensures Tier(queue[i], observed, look) == Tier(queue[j], observed, look) > 0 ==>
              First(Addrs(ranked), queue[i]) < First(Addrs(ranked), queue[j]) < |ranked|
  {
    var x, y := queue[i], queue[j];
    assert x in queue && y in queue;
    var pub, priv := Group(ranked, look, true), Group(ranked, look, false);
    GroupMembers(ranked, look, true);
    GroupMembers(ranked, look, false);
    Locate(observed, pub, priv, x);
    Locate(observed, pub, priv, y);
    if Tier(x, observed, look) == Tier(y, observed, look) == 1 {
      GroupKeepsOrder(ranked, look, true, x, y);
    } else if Tier(x, observed, look) == Tier(y, observed, look) == 2 {
      GroupKeepsOrder(ranked, look, false, x, y);
    }
  }

  lemma Locate(a: seq<string>, b: seq<string>, c: seq<string>, x: string)
    ensures First(a + b + c, x)
         == if x in a then First(a, x) else if x in b then |a| + First(b, x) else |a| + |b| + First(c, x)
  {
    FirstAppend(a + b, c, x);
    FirstAppend(a, b, x);
  }

  predicate Offers(peer: seq<Candidate>, look: Lookup, sockets: Families, local: Families, addr: string) {
    exists c | c in peer :: c.addr == addr && Reachable(c, look, sockets, local)
  }

  lemma RankedAddrs(ranked: seq<Candidate>, peer: seq<Candidate>, look: Lookup, sockets: Families, local: Families, x: string)
    requires ranked == RankCandidates(OnlyReachable(peer, look, sockets, local), look)
    ensures x in Addrs(ranked) <==> Offers(peer, look, sockets, local, x)
  {
    RankedMeaning(peer, look, sockets, local);
    if x in Addrs(ranked) {
      var k :| 0 <= k < |ranked| && ranked[k].addr == x;
      assert ranked[k] in ranked;
    }
    if c :| c in peer && c.addr == x && Reachable(c, look, sockets, local) {
      assert c in ranked;
      var k :| 0 <= k < |ranked| && ranked[k] == c;
      assert Addrs(ranked)[k] == x;
    }
  }

  /** From the peer's list to the queue: only reachable candidates enter, none is lost, and within
      an advertised tier a better score comes first. */
  lemma QueueFromPeer(queue: seq<string>, endpoint: string, observed: seq<string>,
                      peer: seq<Candidate>, look: Lookup, sockets: Families, local: Families)
    requires FirstOccurrences(queue,
      InOrder(observed, RankCandidates(OnlyReachable(peer, look, sockets, local), look), look), {endpoint, ""})
    ensures forall x :: x in queue <==>
      x != "" && x != endpoint && (x in observed || Offers(peer, look, sockets, local, x))
    ensures forall i, j | 0 <= i < j < |queue| ::
      Tier(queue[i], observed, look) == Tier(queue[j], observed, look) > 0 ==>
        OfferedInOrder(peer, look, sockets, local, queue[i], queue[j])
  {
    var ranked := RankCandidates(OnlyReachable(peer, look, sockets, local), look);
    GroupMembers(ranked, look, true);
    GroupMembers(ranked, look, false);
    forall x ensures x in Addrs(ranked) <==> Offers(peer, look, sockets, local, x) {
      RankedAddrs(ranked, peer, look, sockets, local, x);
    }
    forall i, j | 0 <= i < j < |queue| && Tier(queue[i], observed, look) == Tier(queue[j], observed, look) > 0
      ensures OfferedInOrder(peer, look, sockets, local, queue[i], queue[j])
    {
      QueueOrder(queue, endpoint, observed, ranked, look, i, j);
      RankedInOrder(ranked, peer, look, sockets, local, queue[i], queue[j]);
    }
  }

  /** Reachable candidates of the peer stand behind `x` and `y`, the one behind `x` scored no worse. */
  predicate OfferedInOrder(peer: seq<Candidate>, look: Lookup, sockets: Families, local: Families, x: string, y: string) {
    exists c, d | c in peer && d in peer ::
      && c.addr == x && d.addr == y
      && Reachable(c, look, sockets, local) && Reachable(d, look, sockets, local)
      && Score(c, look) <= Score(d, look)
  }

  lemma RankedInOrder(ranked: seq<Candidate>, peer: seq<Candidate>, look: Lookup, sockets: Families, local: Families, x: string, y: string)
    requires ranked == RankCandidates(OnlyReachable(peer, look, sockets, local), look)
    requires First(Addrs(ranked), x) < First(Addrs(ranked), y) < |ranked|
    ensures OfferedInOrder(peer, look, sockets, local, x, y)
  {
    RankedMeaning(peer, look, sockets, local);
    var a, b := First(Addrs(ranked), x), First(Addrs(ranked), y);
    assert ranked[a] in ranked && ranked[b] in ranked;
  }
}
