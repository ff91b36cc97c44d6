/**
 The lifetime of a DNS response: the TTL the client computes for it, and the two in-place
 rewrites it makes, of TTLs and of the address hints of HTTPS records.
 */
module DnsMessage {
  import opened Basics

  const TYPE_HTTPS := 65
  const IPV4_HINT := 4
  const IPV6_HINT := 6

  datatype Param = Param(key: nat, data: nat)

  /** The EDNS parameters of an OPT pseudo-record. */
  datatype Edns = Edns(version: nat, udpSize: nat, dnssecOk: bool)

  /** A resource record; the TTL field of an OPT pseudo-record holds flags and is never a lifetime. */
  datatype Record =
    | Opt(edns: Edns, options: nat)
    | Soa(ttl: nat, minimum: nat, data: nat)
    | Https(ttl: nat, params: seq<Param>, data: nat)
    | Other(kind: nat, ttl: nat, data: nat)

  datatype Contents = Contents(rcode: nat, answer: seq<Record>, ns: seq<Record>, extra: seq<Record>)

  datatype Strategy = AsIs | PreferIpv4 | PreferIpv6 | Ipv4Only | Ipv6Only

  datatype Options = Options(strategy: Strategy, rewriteTtl: Option<nat>)

  function Min(a: nat, b: nat): nat
  {
    if a < b then a else b
  }

  function All(c: Contents): seq<Record>
  {
    c.answer + c.ns + c.extra
  }

  // ----- what the TTL means -----

  /** The least positive TTL of the records that are not OPT, or 0 if there is none. */
  ghost predicate IsLeastTtl(rs: seq<Record>, t: nat)
  {
    && (forall i :: 0 <= i < |rs| && !rs[i].Opt? && rs[i].ttl > 0 ==> 0 < t <= rs[i].ttl)
    && (t > 0 ==> exists i :: 0 <= i < |rs| && !rs[i].Opt? && rs[i].ttl == t)
  }

  /** Position of the first SOA record, or the length if there is none. */
  function FirstSoa(rs: seq<Record>): (i: nat)
    ensures i <= |rs|
    ensures i < |rs| ==> rs[i].Soa?
    ensures forall j :: 0 <= j < i ==> !rs[j].Soa?
  {
    if |rs| == 0 then 0
    else if rs[0].Soa? then 0
    else 1 + FirstSoa(rs[1..])
  }

  predicate IsNegative(c: Contents)
  {
    |c.answer| == 0 && FirstSoa(c.ns) < |c.ns|
  }

  // ----- how it is computed -----

  function Visit(t: nat, r: Record): nat
  {
    if r.Opt? then t
    else if t == 0 || (r.ttl > 0 && r.ttl < t) then r.ttl
    else t
  }

  function Scan(rs: seq<Record>): nat
  {
    if |rs| == 0 then 0 else Visit(Scan(rs[..|rs| - 1]), rs[|rs| - 1])
  }

  function TimeToLive(c: Contents): nat
  {
    if IsNegative(c) then Min(c.ns[FirstSoa(c.ns)].ttl, c.ns[FirstSoa(c.ns)].minimum)
    else Scan(All(c))
  }

  lemma {:induction false} ScanIsLeast(rs: seq<Record>)
    ensures IsLeastTtl(rs, Scan(rs))
  {
    if |rs| > 0 {
      var last := |rs| - 1;
      ScanIsLeast(rs[..last]);
      var t := Scan(rs[..last]);
      if t > 0 {
        var i :| 0 <= i < last && !rs[..last][i].Opt? && rs[..last][i].ttl == t;
        assert rs[i].ttl == t;
      }
      forall i | 0 <= i < |rs| && !rs[i].Opt? && rs[i].ttl > 0 ensures 0 < Scan(rs) <= rs[i].ttl {
        if i < last {
          assert rs[..last][i] == rs[i];
        }
      }
    }
  }

  lemma LeastTtlIsUnique(rs: seq<Record>, t: nat, u: nat)
    requires IsLeastTtl(rs, t) && IsLeastTtl(rs, u)
    ensures t == u
  {
  }

  /**
   The computed lifetime is the negative one of section 5 of RFC 2308 for an answerless response with an SOA record,
   else the least positive TTL.
   */
  lemma TimeToLiveExact(c: Contents, t: nat)
    ensures IsNegative(c) ==> (t == TimeToLive(c) <==> t == Min(c.ns[FirstSoa(c.ns)].ttl, c.ns[FirstSoa(c.ns)].minimum))
    ensures !IsNegative(c) ==> (t == TimeToLive(c) <==> IsLeastTtl(All(c), t))
  {
    ScanIsLeast(All(c));
    if !IsNegative(c) && IsLeastTtl(All(c), t) {
      LeastTtlIsUnique(All(c), t, TimeToLive(c));
    }
  }

  // ----- the rewrites -----

  function WithTtl(r: Record, t: nat): Record
  {
    if r.Opt? then r else r.(ttl := t)
  }

  function AllWithTtl(rs: seq<Record>, t: nat): (out: seq<Record>)
    ensures |out| == |rs|
    ensures forall i :: 0 <= i < |rs| ==> out[i] == WithTtl(rs[i], t)
  {
    seq(|rs|, i requires 0 <= i < |rs| => WithTtl(rs[i], t))
  }

  function Normalised(c: Contents, t: nat): Contents
  {
    Contents(c.rcode, AllWithTtl(c.answer, t), AllWithTtl(c.ns, t), AllWithTtl(c.extra, t))
  }

  /** The address hints a strategy forbids. */
  predicate Forbidden(strategy: Strategy, p: Param)
  {
    p.key == if strategy == Ipv4Only then IPV6_HINT else IPV4_HINT
  }

  function Allowed(strategy: Strategy, ps: seq<Param>): (out: seq<Param>)
    ensures forall p :: p in out <==> p in ps && !Forbidden(strategy, p)
  {
    if |ps| == 0 then []
    else
      var front := Allowed(strategy, ps[..|ps| - 1]);
      var p := ps[|ps| - 1];
      assert ps == ps[..|ps| - 1] + [p];
      if Forbidden(strategy, p) then front else front + [p]
  }

  function Filtered(strategy: Strategy, r: Record): Record
  {
    if r.Https? then r.(params := Allowed(strategy, r.params)) else r
  }

  function AllFiltered(strategy: Strategy, rs: seq<Record>): (out: seq<Record>)
    ensures |out| == |rs|
    ensures forall i :: 0 <= i < |rs| ==> out[i] == Filtered(strategy, rs[i])
  {
    seq(|rs|, i requires 0 <= i < |rs| => Filtered(strategy, rs[i]))
  }

  predicate FiltersHints(qtype: nat, strategy: Strategy)
  {
    qtype == TYPE_HTTPS && (strategy == Ipv4Only || strategy == Ipv6Only)
  }

  function WithoutHints(qtype: nat, strategy: Strategy, c: Contents): Contents
  {
    if FiltersHints(qtype, strategy) then c.(answer := AllFiltered(strategy, c.answer)) else c
  }

  function Lifetime(qtype: nat, c: Contents, options: Options): nat
  {
    if options.rewriteTtl.Some? then options.rewriteTtl.value else TimeToLive(WithoutHints(qtype, options.strategy, c))
  }

  /** The response as the client returns and stores it. */
  function Applied(qtype: nat, c: Contents, options: Options): Contents
  {
    Normalised(WithoutHints(qtype, options.strategy, c), Lifetime(qtype, c, options))
  }

  // ----- what the rewrites leave alone -----

  lemma FirstSoaIs(rs: seq<Record>, i: nat)
    requires i <= |rs| && (i < |rs| ==> rs[i].Soa?) && forall j :: 0 <= j < i ==> !rs[j].Soa?
    ensures FirstSoa(rs) == i
  {
  }

  lemma NormalisedKeepsSoa(c: Contents, t: nat)
    ensures FirstSoa(Normalised(c, t).ns) == FirstSoa(c.ns)
    ensures IsNegative(Normalised(c, t)) == IsNegative(c)
    ensures IsNegative(c) ==> Normalised(c, t).ns[FirstSoa(c.ns)] == WithTtl(c.ns[FirstSoa(c.ns)], t)
  {
    FirstSoaIs(Normalised(c, t).ns, FirstSoa(c.ns));
  }

  ghost predicate HasLifetimes(c: Contents)
  {
    exists i :: 0 <= i < |All(c)| && !All(c)[i].Opt?
  }

  lemma AllNormalised(c: Contents, t: nat)
    ensures All(Normalised(c, t)) == AllWithTtl(All(c), t)
  {
  }

  /**
   Computing the lifetime again after every TTL was set to `t` gives `t` exactly when some record
   can carry it and the negative lifetime does not cap it.
   */
  lemma RecomputeExact(c: Contents, t: nat)
    ensures TimeToLive(Normalised(c, t)) == t
            <==> if IsNegative(c) then t <= c.ns[FirstSoa(c.ns)].minimum else t == 0 || HasLifetimes(c)
  {
    NormalisedKeepsSoa(c, t);
    if !IsNegative(c) {
      AllNormalised(c, t);
      var rs := All(Normalised(c, t));
      ScanIsLeast(rs);
      if HasLifetimes(c) {
        var i :| 0 <= i < |All(c)| && !All(c)[i].Opt?;
        assert rs[i] == WithTtl(All(c)[i], t);
        assert rs[i].ttl == t;
      }
    }
  }

  /** Without a rewrite the lifetime survives normalising. */
  lemma LifetimeIsStable(c: Contents)
    ensures TimeToLive(Normalised(c, TimeToLive(c))) == TimeToLive(c)
  {
    RecomputeExact(c, TimeToLive(c));
    if !IsNegative(c) && TimeToLive(c) != 0 {
      ScanIsLeast(All(c));
    }
  }

  /** Filtering hints does not change the lifetime, so the stored response has the upstream response's. */
  lemma HintsDoNotMatter(qtype: nat, strategy: Strategy, c: Contents)
    ensures TimeToLive(WithoutHints(qtype, strategy, c)) == TimeToLive(c)
  {
    var f := WithoutHints(qtype, strategy, c);
    assert f.ns == c.ns && |f.answer| == |c.answer|;
    if !IsNegative(c) {
      ScanIsLeast(All(c));
      ScanIsLeast(All(f));
      SameTtls(All(c), All(f));
    }
  }

  lemma SameTtls(rs: seq<Record>, fs: seq<Record>)
    requires |rs| == |fs|
    requires forall i :: 0 <= i < |rs| ==> rs[i].Opt? == fs[i].Opt? && (!rs[i].Opt? ==> rs[i].ttl == fs[i].ttl)
    ensures Scan(rs) == Scan(fs)
  {
    ScanIsLeast(rs);
    ScanIsLeast(fs);
    var t := Scan(rs);
    if t > 0 {
      var i :| 0 <= i < |rs| && !rs[i].Opt? && rs[i].ttl == t;
      assert fs[i].ttl == t;
    }
    assert IsLeastTtl(fs, t);
  }

  /** Equal but for the TTL and address hints. */
  ghost predicate SameData(a: Record, b: Record)
  {
    || a == b
    || (a.Soa? && b.Soa? && a.minimum == b.minimum && a.data == b.data)
    || (a.Other? && b.Other? && a.kind == b.kind && a.data == b.data)
    || (a.Https? && b.Https? && a.data == b.data
        && forall p :: p in a.params && p.key != IPV4_HINT && p.key != IPV6_HINT <==>
           p in b.params && p.key != IPV4_HINT && p.key != IPV6_HINT)
  }

  ghost predicate SameRecords(rs: seq<Record>, qs: seq<Record>)
  {
    |rs| == |qs| && forall i :: 0 <= i < |rs| ==> SameData(rs[i], qs[i])
  }

  /** The same answer up to TTLs and address hints. */
  ghost predicate SameAnswer(a: Contents, b: Contents)
  {
    a.rcode == b.rcode && SameRecords(a.answer, b.answer) && SameRecords(a.ns, b.ns) && SameRecords(a.extra, b.extra)
  }

  /** What is stored, and what is served from it later, is the upstream answer up to TTLs and address hints. */
  lemma ServedIsSameAnswer(qtype: nat, c: Contents, options: Options, t: nat)
    ensures SameAnswer(c, Applied(qtype, c, options))
    ensures SameAnswer(c, Normalised(Applied(qtype, c, options), t))
  {
  }

  // ----- EDNS -----

  /** The parameters of the last OPT record, which is the one that counts. */
  function EdnsOf(extra: seq<Record>): Option<Edns>
  {
    if |extra| == 0 then None
    else if extra[|extra| - 1].Opt? then Some(extra[|extra| - 1].edns)
    else EdnsOf(extra[..|extra| - 1])
  }

  function WithoutOpts(rs: seq<Record>): (out: seq<Record>)
    ensures forall i :: 0 <= i < |out| ==> !out[i].Opt?
  {
    if |rs| == 0 then []
    else
      var front := WithoutOpts(rs[..|rs| - 1]);
      if rs[|rs| - 1].Opt? then front else front + [rs[|rs| - 1]]
  }

  /**
   A response whose EDNS version the request cannot take is stripped of it; a request with EDNS gets version 0 instead.
   */
  function Fitted(c: Contents, request: Option<Edns>): Contents
  {
    var own := EdnsOf(c.extra);
    if own.None? || (request.Some? && request.value.version >= own.value.version) then c
    else c.(extra := WithoutOpts(c.extra) + if request.Some?
        then [Opt(Edns(0, own.value.udpSize, own.value.dnssecOk), 0)] else [])
  }

  lemma {:induction false} NoOptsNoEdns(rs: seq<Record>)
    requires forall i :: 0 <= i < |rs| ==> !rs[i].Opt?
    ensures EdnsOf(rs) == None && WithoutOpts(rs) == rs
  {
    if |rs| > 0 {
      NoOptsNoEdns(rs[..|rs| - 1]);
      assert rs == rs[..|rs| - 1] + [rs[|rs| - 1]];
    }
  }

  /** The response handed out speaks no EDNS to a request without it, and no version beyond the request's otherwise. */
  lemma FittedSuitsTheRequest(c: Contents, request: Option<Edns>)
    ensures var own, now := EdnsOf(c.extra), EdnsOf(Fitted(c, request).extra);
            && (now.Some? <==> own.Some? && request.Some?)
            && (now.Some? ==>
               now.value.version <= request.value.version && now.value.udpSize == own.value.udpSize
               && now.value.dnssecOk == own.value.dnssecOk)
  {
    var f := Fitted(c, request);
    var own, kept := EdnsOf(c.extra), WithoutOpts(c.extra);
    NoOptsNoEdns(kept);
    if own.Some? && request.None? {
      assert f.extra == kept;
    } else if own.Some? && request.value.version < own.value.version {
      assert f.extra[|f.extra| - 1] == Opt(Edns(0, own.value.udpSize, own.value.dnssecOk), 0);
    }
  }

  lemma FittedExtra(c: Contents, request: Option<Edns>)
    ensures WithoutOpts(Fitted(c, request).extra) == WithoutOpts(c.extra)
  {
    var f, kept := Fitted(c, request), WithoutOpts(c.extra);
    var own := EdnsOf(c.extra);
    NoOptsNoEdns(kept);
    if own.Some? && request.None? {
      assert f.extra == kept;
    } else if own.Some? && request.value.version < own.value.version {
      assert f.extra[..|f.extra| - 1] == kept;
    }
  }

  /** The records that are not OPT are untouched, and so is the lifetime. */
  lemma FittedKeepsTheAnswer(c: Contents, request: Option<Edns>)
    ensures var f := Fitted(c, request);
            && f.rcode == c.rcode && f.answer == c.answer && f.ns == c.ns
               && WithoutOpts(f.extra) == WithoutOpts(c.extra)
            && TimeToLive(f) == TimeToLive(c)
  {
    FittedExtra(c, request);
    ScanSkipsOpts(c.answer + c.ns, c.extra);
    ScanSkipsOpts(c.answer + c.ns, Fitted(c, request).extra);
  }

  lemma {:induction false} ScanSkipsOpts(before: seq<Record>, rs: seq<Record>)
    ensures Scan(before + rs) == Scan(before + WithoutOpts(rs))
    decreases |rs|
  {
    if |rs| > 0 {
      var front, last := rs[..|rs| - 1], rs[|rs| - 1];
      ScanSkipsOpts(before, front);
      assert (before + rs)[..|before + rs| - 1] == before + front;
      if !last.Opt? {
        var kept := before + WithoutOpts(rs);
        assert kept[..|kept| - 1] == before + WithoutOpts(front) && kept[|kept| - 1] == last;
      }
    } else {
      assert WithoutOpts(rs) == rs;
    }
  }

  // ----- in place -----

  method ExtractNegativeTtl(ns: seq<Record>) returns (t: nat, found: bool)
    ensures found <==> FirstSoa(ns) < |ns|
    ensures found ==> t == Min(ns[FirstSoa(ns)].ttl, ns[FirstSoa(ns)].minimum)
  {
    for i := 0 to |ns|
      invariant forall j :: 0 <= j < i ==> !ns[j].Soa?
    {
      if ns[i].Soa? {
        FirstSoaIs(ns, i);
        return Min(ns[i].ttl, ns[i].minimum), true;
      }
    }
    FirstSoaIs(ns, |ns|);
    return 0, false;
  }

  method ScanSection(rs: seq<Record>, t0: nat, ghost before: seq<Record>) returns (t: nat)
    requires t0 == Scan(before)
    ensures t == Scan(before + rs)
  {
    t := t0;
    assert before + rs[..0] == before;
    for i := 0 to |rs|
      invariant t == Scan(before + rs[..i])
    {
      ghost var more := before + rs[..i + 1];
      assert more[..|more| - 1] == before + rs[..i] && more[|more| - 1] == rs[i];
      if !rs[i].Opt? {
        if t == 0 || (rs[i].ttl > 0 && rs[i].ttl < t) {
          t := rs[i].ttl;
        }
      }
    }
    assert rs[..|rs|] == rs;
  }

  method NormaliseSection(rs: seq<Record>, t: nat) returns (out: seq<Record>)
    ensures out == AllWithTtl(rs, t)
  {
    out := rs;
    for i := 0 to |rs|
      invariant |out| == |rs|
      invariant forall j :: 0 <= j < i ==> out[j] == WithTtl(rs[j], t)
      invariant forall j :: i <= j < |rs| ==> out[j] == rs[j]
    {
      if !out[i].Opt? {
        out := out[i := out[i].(ttl := t)];
      }
    }
  }

  method FilterParams(strategy: Strategy, ps: seq<Param>) returns (out: seq<Param>)
    ensures out == Allowed(strategy, ps)
  {
    out := [];
    for i := 0 to |ps|
      invariant out == Allowed(strategy, ps[..i])
    {
      assert ps[..i + 1][..i] == ps[..i];
      if !Forbidden(strategy, ps[i]) {
        out := out + [ps[i]];
      }
    }
    assert ps[..|ps|] == ps;
  }

  method FilterSection(rs: seq<Record>, strategy: Strategy) returns (out: seq<Record>)
    ensures out == AllFiltered(strategy, rs)
  {
    out := rs;
    for i := 0 to |rs|
      invariant |out| == |rs|
      invariant forall j :: 0 <= j < i ==> out[j] == Filtered(strategy, rs[j])
      invariant forall j :: i <= j < |rs| ==> out[j] == rs[j]
    {
      if out[i].Https? {
        var ps := FilterParams(strategy, out[i].params);
        out := out[i := out[i].(params := ps)];
      }
    }
  }

  method FindEdns(extra: seq<Record>) returns (e: Option<Edns>)
    ensures e == EdnsOf(extra)
  {
    var i := |extra|;
    assert extra[..i] == extra;
    while i > 0
      invariant 0 <= i <= |extra| && EdnsOf(extra) == EdnsOf(extra[..i])
    {
      i := i - 1;
      assert extra[..i + 1][..i] == extra[..i];
      if extra[i].Opt? {
        return Some(extra[i].edns);
      }
    }
    return None;
  }

  method FilterOpts(rs: seq<Record>) returns (out: seq<Record>)
    ensures out == WithoutOpts(rs)
  {
    out := [];
    for i := 0 to |rs|
      invariant out == WithoutOpts(rs[..i])
    {
      assert rs[..i + 1][..i] == rs[..i];
      if !rs[i].Opt? {
        out := out + [rs[i]];
      }
    }
    assert rs[..|rs|] == rs;
  }

  /** A response, whose records change in place. */
  class Message {
    var id: nat
    const rcode: nat
    var answer: seq<Record>
    var ns: seq<Record>
    var extra: seq<Record>

    constructor (id: nat, contents: Contents)
      ensures this.id == id && Value() == contents
    {
      this.id, this.rcode := id, contents.rcode;
      this.answer, this.ns, this.extra := contents.answer, contents.ns, contents.extra;
    }

    function Value(): Contents
      reads this
    {
      Contents(rcode, answer, ns, extra)
    }

    method Copy() returns (copy: Message)
      ensures fresh(copy) && copy.id == id && copy.Value() == Value()
    {
      copy := new Message(id, Value());
    }

    method ComputeTimeToLive() returns (t: nat)
      ensures t == TimeToLive(Value())
    {
      if |answer| == 0 {
        var soa, found := ExtractNegativeTtl(ns);
        if found {
          return soa;
        }
      }
      t := ScanSection(answer, 0, []);
      assert [] + answer == answer;
      t := ScanSection(ns, t, answer);
      t := ScanSection(extra, t, answer + ns);
    }

    method NormaliseTtl(t: nat)
      modifies this
      ensures Value() == Normalised(old(Value()), t) && id == old(id)
    {
      answer := NormaliseSection(answer, t);
      ns := NormaliseSection(ns, t);
      extra := NormaliseSection(extra, t);
    }

    method ApplyResponseOptions(qtype: nat, options: Options) returns (t: nat)
      modifies this
      ensures t == Lifetime(qtype, old(Value()), options)
      ensures Value() == Applied(qtype, old(Value()), options) && id == old(id)
    {
      if qtype == TYPE_HTTPS && (options.strategy == Ipv4Only || options.strategy == Ipv6Only) {
        answer := FilterSection(answer, options.strategy);
      }
      t := ComputeTimeToLive();
      if options.rewriteTtl.Some? {
        t := options.rewriteTtl.value;
      }
      NormaliseTtl(t);
    }

    method FitEdns(request: Option<Edns>)
      modifies this
      ensures Value() == Fitted(old(Value()), request) && id == old(id)
    {
      var own := FindEdns(extra);
      if own.Some? && (request.None? || request.value.version < own.value.version) {
        extra := FilterOpts(extra);
        if request.Some? {
          extra := extra + [Opt(Edns(0, own.value.udpSize, own.value.dnssecOk), 0)];
        }
      }
    }
  }
}
