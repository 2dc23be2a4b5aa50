/** Dialling a target: the port check, the two passes over the rules, and the addresses that
    are tried (`dialContextCheckACL`). */
module Dialling {
  import opened Wrappers
  import opened Networks
  import opened Acl

  // ---------------------------------------------------------------- ports

  function DigitsValue(s: string): Option<int> {
    if s == "" then Some(0)
    else
      var c := s[|s| - 1];
      match DigitsValue(s[..|s| - 1])
      case None => None
      case Some(v) => if '0' <= c <= '9' then Some(10 * v + (c as int - '0' as int)) else None
  }

  predicate Signed(s: string) { s != "" && (s[0] == '+' || s[0] == '-') }

  const MAX_INT := 0x7fff_ffff_ffff_ffff

  /** `strconv.Atoi`, which refuses what does not fit into 64 bits. */
  function Atoi(s: string): Option<int> {
    var digits := if Signed(s) then s[1..] else s;
    if digits == "" then None
    else
      match DigitsValue(digits)
      case None => None
      case Some(v) =>
        var value := if s[0] == '-' then -v else v;
        if -MAX_INT - 1 <= value <= MAX_INT then Some(value) else None
  }

  function Decimal(n: nat): (s: string)
    ensures s != ""
  {
    var last := ['0' + (n % 10) as char];
    if n < 10 then last else Decimal(n / 10) + last
  }

  lemma {:induction false} DecimalValue(n: nat)
    ensures DigitsValue(Decimal(n)) == Some(n) && '0' <= Decimal(n)[0] <= '9'
  {
    var c := '0' + (n % 10) as char;
    assert '0' <= c <= '9' && c as int - '0' as int == n % 10;
    if n < 10 {
      assert Decimal(n)[..0] == "" && Decimal(n)[0] == c;
      assert DigitsValue("") == Some(0);
    } else {
      DecimalValue(n / 10);
      assert Decimal(n)[..|Decimal(n)| - 1] == Decimal(n / 10);
    }
  }

  /** The decimal digits. */
  const DIGITS := "0123456789"

  /** `z` zeros in front of the number `n`. */
  function Numeral(z: nat, n: nat): (s: string)
    ensures s != ""
  {
    if z == 0 then Decimal(n) else "0" + Numeral(z - 1, n)
  }

  lemma {:induction false} LeadingZero(s: string)
    ensures DigitsValue("0" + s) == DigitsValue(s)
    decreases |s|
  {
    var t := "0" + s;
    if s == "" {
      assert t[..0] == "" && DigitsValue("") == Some(0);
    } else {
      assert t[..|t| - 1] == "0" + s[..|s| - 1];
      LeadingZero(s[..|s| - 1]);
    }
  }

  lemma {:induction false} NumeralValue(z: nat, n: nat)
    ensures DigitsValue(Numeral(z, n)) == Some(n) && '0' <= Numeral(z, n)[0] <= '9'
  {
    if z == 0 {
      DecimalValue(n);
    } else {
      NumeralValue(z - 1, n);
      LeadingZero(Numeral(z - 1, n));
    }
  }

  /** Reading a number's decimal text, with or without zeros in front and with or without a
      sign, gives the number, if it fits; a number that does not is an error. */
  lemma AtoiDecimal(z: nat, n: nat)
    ensures Atoi(Numeral(z, n)) == Atoi("+" + Numeral(z, n)) ==
            if n <= 9_223_372_036_854_775_807 then Some(n) else None
    ensures Atoi("-" + Numeral(z, n)) == if n <= 9_223_372_036_854_775_808 then Some(0 - n) else None
  {
    hide DigitsValue, Numeral;
    NumeralValue(z, n);
    assert !Signed(Numeral(z, n));
    assert ("+" + Numeral(z, n))[1..] == Numeral(z, n) && ("-" + Numeral(z, n))[1..] == Numeral(z, n);
  }

  lemma DigitOf(c: char)
    ensures c in DIGITS <==> '0' <= c <= '9'
  {
    if '0' <= c <= '9' {
      assert DIGITS[c as int - '0' as int] == c;
    }
  }

  lemma {:induction false} DecimalOf(s: string) returns (n: nat)
    requires s != "" && (forall i :: 0 <= i < |s| ==> s[i] in DIGITS) && (|s| == 1 || s[0] != '0')
    ensures s == Decimal(n) && (s[0] != '0' ==> n > 0)
    decreases |s|
  {
    var last := s[|s| - 1];
    DigitOf(last);
    var d := last as int - '0' as int;
    assert last == '0' + d as char;
    if |s| == 1 {
      n := d;
      assert s == [last];
    } else {
      var front := s[..|s| - 1];
      var m := DecimalOf(front);
      n := 10 * m + d;
      assert n / 10 == m && n % 10 == d;
      assert s == front + [last];
    }
  }

  /** Every text of digits is such a numeral. */
  lemma {:induction false} DigitsAreNumeral(s: string) returns (z: nat, n: nat)
    requires s != "" && forall i :: 0 <= i < |s| ==> s[i] in DIGITS
    ensures s == Numeral(z, n)
    decreases |s|
  {
    if |s| == 1 || s[0] != '0' {
      z := 0;
      n := DecimalOf(s);
    } else {
      z, n := DigitsAreNumeral(s[1..]);
      z := z + 1;
      assert s == "0" + s[1..];
    }
  }

  lemma {:induction false} NotADigit(s: string, i: nat)
    requires i < |s| && s[i] !in DIGITS
    ensures DigitsValue(s) == None
    decreases |s|
  {
    DigitOf(s[i]);
    if i < |s| - 1 {
      NotADigit(s[..|s| - 1], i);
    }
  }

  /** Nothing else is a number: no text without digits, and none with another character. */
  lemma AtoiRefuses(s: string)
    ensures Atoi("") == Atoi("+") == Atoi("-") == None
    ensures (exists i :: 0 <= i < |s| && s[i] !in DIGITS) ==> DigitsValue(s) == None
    ensures (exists i :: 0 <= i < |s| && s[i] !in DIGITS && (i > 0 || s[0] !in {'+', '-'})) ==> Atoi(s) == None
    ensures (exists i :: 0 <= i < |s| && s[i] !in DIGITS) ==> Atoi("+" + s) == Atoi("-" + s) == None
  {
    assert ("+" + s)[1..] == s && ("-" + s)[1..] == s;
    if i :| 0 <= i < |s| && s[i] !in DIGITS {
      NotADigit(s, i);
    }
    if i :| 0 <= i < |s| && s[i] !in DIGITS && (i > 0 || s[0] !in {'+', '-'}) {
      NotADigit(s, i);
      if Signed(s) {
        NotADigit(s[1..], i - 1);
      }
    }
  }

  /** The port is a number from 1 to 65535, and one of the configured ones if there are any. */
  predicate PortOk(ports: seq<int>, port: string) {
    Atoi(port).Some? && 1 <= Atoi(port).value <= 65535 && (ports == [] || Atoi(port).value in ports)
  }

  /** `portIsAllowed`. */
  method PortIsAllowed(ports: seq<int>, port: string) returns (ok: bool)
    ensures ok <==> PortOk(ports, port)
  {
    var portInt := Atoi(port);
    if portInt == None {
      return false;
    }
    if portInt.value <= 0 || portInt.value > 65535 {
      return false;
    }
    if |ports| == 0 {
      return true;
    }
    var isAllowed := false;
    for i := 0 to |ports|
      invariant !isAllowed && portInt.value !in ports[..i]
    {
      if ports[i] == portInt.value {
        isAllowed := true;
        break;
      }
    }
    return isAllowed;
  }

  lemma PortByNumber(ports: seq<int>, n: nat)
    ensures PortOk(ports, Decimal(n)) <==> 1 <= n <= 65535 && (ports == [] || n in ports)
  {
    AtoiDecimal(0, n);
  }

  // ---------------------------------------------------------------- dialling

  datatype Target = Upstream(hostPort: string) | Address(ip: Ip, port: string)

  /** The network: every attempt, in order, and whether the `k`-th of all attempts succeeds. */
  class Dialer {
    var attempts: seq<Target>
    const answer: nat -> bool

    constructor (answer: nat -> bool)
      ensures attempts == [] && this.answer == answer
    {
      attempts := [];
      this.answer := answer;
    }

    method Dial(t: Target) returns (ok: bool)
      modifies this
      ensures attempts == old(attempts) + [t] && ok == answer(|old(attempts)|)
    {
      ok := answer(|attempts|);
      attempts := attempts + [t];
    }
  }

  datatype DialResult = Connected(to: Target) | BadRequest | BadGateway | Forbidden

  /** The addresses a plain first match allows, in the order of the lookup. */
  ghost function Candidates(rules: seq<Rule>, host: string, ips: seq<Ip>): seq<Ip> {
    if ips == [] then []
    else
      var last := ips[|ips| - 1];
      Candidates(rules, host, ips[..|ips| - 1]) + if Allowed(rules, last, host) then [last] else []
  }

  lemma {:induction false} CandidatesAreAllowed(rules: seq<Rule>, host: string, ips: seq<Ip>, ip: Ip)
    ensures ip in Candidates(rules, host, ips) <==> ip in ips && Allowed(rules, ip, host)
  {
    if ips != [] {
      CandidatesAreAllowed(rules, host, ips[..|ips| - 1], ip);
      assert ips == ips[..|ips| - 1] + [ips[|ips| - 1]];
    }
  }

  lemma {:induction false} CandidatesPrefix(rules: seq<Rule>, host: string, ips: seq<Ip>, k: nat)
    requires k <= |ips|
    ensures Candidates(rules, host, ips[..k]) <= Candidates(rules, host, ips)
    decreases |ips|
  {
    if k == |ips| {
      assert ips[..k] == ips;
    } else {
      assert ips[..|ips| - 1][..k] == ips[..k];
      CandidatesPrefix(rules, host, ips[..|ips| - 1], k);
    }
  }

  lemma CandidatesStep(rules: seq<Rule>, host: string, ips: seq<Ip>, k: nat)
    requires k < |ips|
    ensures Candidates(rules, host, ips[..k + 1]) ==
            Candidates(rules, host, ips[..k]) + if Allowed(rules, ips[k], host) then [ips[k]] else []
  {
    hide Allowed;
    assert ips[..k + 1][..k] == ips[..k];
  }

  function At(ips: seq<Ip>, port: string): seq<Target> {
    seq(|ips|, i requires 0 <= i < |ips| => Address(ips[i], port))
  }

  /** Attempts `from`, `from + 1`, ... were made on `targets` up to and including the first
      that succeeds; on all of them if none does. */
  ghost predicate TriedInOrder(answer: nat -> bool, from: nat, targets: seq<Target>, tried: seq<Target>,
      r: DialResult)
  {
    && tried <= targets
    && (forall k :: from <= k < from + |tried| - 1 ==> !answer(k))
    && if r.Connected? then tried != [] && answer(from + |tried| - 1) && r.to == tried[|tried| - 1]
       else r == Forbidden && tried == targets && (tried != [] ==> !answer(from + |tried| - 1))
  }

  /** The first pass: the first domain rule that matches the host decides whether to go on. */
  method HostIsDenied(rules: seq<Rule>, host: string) returns (denied: bool)
    ensures denied <==> HostDenied(rules, host)
  {
    hide MatchesDomain;
    for i := 0 to |rules|
      invariant forall j :: 0 <= j < i ==> !DomainMatch(rules[j], host)
    {
      if rules[i].DomainRule? {
        var d := TryMatch(rules[i], [], host);
        if d == Deny {
          assert FirstDomainMatch(rules, host, i);
          return true;
        }
        if d == Allow {
          assert FirstDomainMatch(rules, host, i);
          return false;
        }
      }
    }
    return false;
  }

  lemma CandidatesNone(rules: seq<Rule>, host: string, ips: seq<Ip>)
    requires ips == []
    ensures Candidates(rules, host, ips) == []
  {
  }

  /** The loop over the addresses. */
  method DialAny(rules: seq<Rule>, host: string, port: string, ips: seq<Ip>, dialer: Dialer) returns (r: DialResult)
    modifies dialer
    ensures old(dialer.attempts) <= dialer.attempts
    ensures TriedInOrder(dialer.answer, |old(dialer.attempts)|, At(Candidates(rules, host, ips), port),
                         dialer.attempts[|old(dialer.attempts)|..], r)
    ensures forall i :: |old(dialer.attempts)| <= i < |dialer.attempts| ==>
              dialer.attempts[i].Address? && dialer.attempts[i].port == port
  {
    hide Allowed, Candidates;
    ghost var before := dialer.attempts;
    ghost var done: seq<Ip> := [];
    assert Candidates(rules, host, ips[..0]) == [] by { CandidatesNone(rules, host, ips[..0]); }
    for i := 0 to |ips|
      invariant done == Candidates(rules, host, ips[..i])
      invariant dialer.attempts == before + At(done, port)
      invariant forall i :: |before| <= i < |dialer.attempts| ==>
                  dialer.attempts[i].Address? && dialer.attempts[i].port == port
      invariant forall k :: |before| <= k < |before| + |done| ==> !dialer.answer(k)
    {
      CandidatesStep(rules, host, ips, i);
      var ok := HostIsAllowed(rules, host, ips[i]);
      if ok {
        ghost var now := done + [ips[i]];
        var connected := dialer.Dial(Address(ips[i], port));
        assert At(now, port) == At(done, port) + [Address(ips[i], port)];
        assert dialer.attempts[|before|..] == At(now, port);
        if connected {
          CandidatesPrefix(rules, host, ips, i + 1);
          assert At(now, port) <= At(Candidates(rules, host, ips), port);
          return Connected(Address(ips[i], port));
        }
        done := now;
      }
    }
    assert ips[..|ips|] == ips;
    assert dialer.attempts[|before|..] == At(done, port);
    return Forbidden;
  }

  /** `dialContextCheckACL`, given what `net.SplitHostPort` and `net.LookupIP` return. With
      an upstream nothing is checked. Otherwise, for an allowed port, a host that the domain
      rules do not deny and a lookup that succeeds, exactly the allowed addresses are tried,
      in order, until one answers; in all other cases nothing is dialled. */
  method DialContextCheckAcl(network: string, hostPort: string, split: Option<(string, string)>, upstream: bool,
      rules: seq<Rule>, ports: seq<int>, lookup: Option<seq<Ip>>, dialer: Dialer)
    returns (r: DialResult)
    modifies dialer
    ensures old(dialer.attempts) <= dialer.attempts
    ensures var before, tried := old(dialer.attempts), dialer.attempts[|old(dialer.attempts)|..];
            if network !in {"tcp", "tcp4", "tcp6"} || split == None then r == BadRequest && tried == []
            else if upstream then
              tried == [Upstream(hostPort)] &&
              r == if dialer.answer(|before|) then Connected(Upstream(hostPort)) else BadGateway
            else
              var host, port := split.value.0, split.value.1;
              if !PortOk(ports, port) || HostDenied(rules, host) then r == Forbidden && tried == []
              else if lookup == None then r == BadGateway && tried == []
              else TriedInOrder(dialer.answer, |before|, At(Candidates(rules, host, lookup.value), port), tried, r)
    ensures !upstream && split.Some? ==>
              forall i :: |old(dialer.attempts)| <= i < |dialer.attempts| ==>
                dialer.attempts[i].Address? && dialer.attempts[i].port == split.value.1
  {
    hide Allowed, HostDenied, PortOk;
    if network != "tcp" && network != "tcp4" && network != "tcp6" {
      return BadRequest;
    }
    if split == None {
      return BadRequest;
    }
    var (host, port) := split.value;
    if upstream {
      var ok := dialer.Dial(Upstream(hostPort));
      return if ok then Connected(Upstream(hostPort)) else BadGateway;
    }
    var portOk := PortIsAllowed(ports, port);
    if !portOk {
      return Forbidden;
    }
    var denied := HostIsDenied(rules, host);
    if denied {
      return Forbidden;
    }
    if lookup == None {
      return BadGateway;
    }
    r := DialAny(rules, host, port, lookup.value, dialer);
  }

  // ---------------------------------------------------------------- what is never dialled

  /** With the provisioned rules, an address in a private range is dialled only if a
      configured rule matches it; every attempt without an upstream is at an allowed address. */
  lemma PrivateIsNeverTried(user: seq<Rule>, host: string, port: string, ips: seq<Ip>,
      answer: nat -> bool, from: nat, tried: seq<Target>, r: DialResult, ip: Ip)
    requires TriedInOrder(answer, from, At(Candidates(Provisioned(user), host, ips), port), tried, r)
    requires Address(ip, port) in tried && (|ip| == 4 || |ip| == 16) && PrivateAddress(ip)
    ensures ip in ips && Allowed(Provisioned(user), ip, host)
    ensures exists i: nat :: FirstMatch(user, ip, host, i) && user[i].allow
  {
    hide Allowed, Matches, PrivateAddress, Candidates;
    var k :| 0 <= k < |tried| && tried[k] == Address(ip, port);
    assert tried[k] == At(Candidates(Provisioned(user), host, ips), port)[k];
    assert ip in Candidates(Provisioned(user), host, ips);
    CandidatesAreAllowed(Provisioned(user), host, ips, ip);
    TotalDecision(user, ip, host);
    if j :| 0 <= j < |user| && Matches(user[j], ip, host) {
      var i := SomeFirstMatch(user, ip, host, j);
      assert FirstMatch(user, ip, host, i) && user[i].allow;
    }
  }
}
