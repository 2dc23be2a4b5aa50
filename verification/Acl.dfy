/** Access control: the rules and what they match (`acl.go`), their assembly in `Provision`,
    and the two-phase check around the dialling of a target (`dialContextCheckACL`). */
module Acl {
  import opened Wrappers
  import opened Text
  import opened Networks

  datatype Rule =
    | IpRule(net: Network, allow: bool)
    | DomainRule(domain: string, subdomains: bool, allow: bool)
    | AllRule(allow: bool)

  datatype Decision = Allow | Deny | NoMatch

  // ---------------------------------------------------------------- what a rule matches

  function Labels(domain: string): seq<string> { Split(domain, '.') }

  /** `strings.TrimPrefix(domain, ".")`. */
  function TrimDot(host: string): string {
    if host != "" && host[0] == '.' then host[1..] else host
  }

  /** A domain rule matches by labels: those of the rule are the last ones of the host, and
      all of them unless subdomains are allowed too. */
  ghost predicate MatchesDomain(domain: string, subdomains: bool, host: string) {
    if subdomains then EndsWith(Labels(TrimDot(host)), Labels(domain))
    else Labels(TrimDot(host)) == Labels(domain)
  }

  ghost predicate Matches(r: Rule, ip: Ip, host: string) {
    match r
    case IpRule(net, _) => Inside(net, ip)
    case DomainRule(domain, subdomains, _) => MatchesDomain(domain, subdomains, host)
    case AllRule(_) => true
  }

  lemma LabelsInjective(a: string, b: string)
    ensures Labels(a) == Labels(b) <==> a == b
  {
    JoinSplit(a, '.');
    JoinSplit(b, '.');
  }

  /** The test on strings is the test on labels: no match begins inside a label. */
  lemma WildcardIsLabelwise(domain: string, subdomains: bool, host: string)
    ensures var h := TrimDot(host);
            h == domain || (subdomains && EndsWith(h, "." + domain)) <==> MatchesDomain(domain, subdomains, host)
  {
    if subdomains {
      TailOfParts(TrimDot(host), domain, '.');
      assert "." + domain == ['.'] + domain;
    } else {
      LabelsInjective(TrimDot(host), domain);
    }
  }

  /** A host without a leading dot is compared as it is written, one with it without that one
      dot and no other. */
  lemma HostIsTrimmedOnce(domain: string, subdomains: bool, host: string)
    ensures host == "" || host[0] != '.' ==>
              (MatchesDomain(domain, subdomains, host) <==>
               if subdomains then EndsWith(Split(host, '.'), Split(domain, '.')) else host == domain)
    ensures MatchesDomain(domain, subdomains, "." + host) <==>
            if subdomains then EndsWith(Split(host, '.'), Split(domain, '.')) else host == domain
  {
    assert ("." + host)[1..] == host;
    LabelsInjective(host, domain);
  }

  /** The `tryMatch` methods of the three kinds of rules. */
  method TryMatch(r: Rule, ip: Ip, host: string) returns (d: Decision)
    ensures d == NoMatch <==> !Matches(r, ip, host)
    ensures d == Allow ==> r.allow
    ensures d == Deny ==> !r.allow
  {
    hide MatchesDomain, Inside;
    match r
    case IpRule(net, allow) =>
      var inside := Contains(net, ip);
      if !inside {
        return NoMatch;
      }
      return if allow then Allow else Deny;
    case DomainRule(domain, subdomains, allow) =>
      WildcardIsLabelwise(domain, subdomains, host);
      var name := TrimDot(host);
      if name == domain || (subdomains && EndsWith(name, "." + domain)) {
        return if allow then Allow else Deny;
      }
      return NoMatch;
    case AllRule(allow) =>
      return if allow then Allow else Deny;
  }

  // ---------------------------------------------------------------- reading a rule

  datatype DomainError = BadCharacter(c: char) | EmptySection | LongSection

  predicate DomainCharacter(c: char) {
    'a' <= c <= 'z' || 'A' <= c <= 'Z' || c == '_' || '0' <= c <= '9' || c == '-' || c == '.'
  }

  lemma LowerCase(c: char)
    ensures c in "abcdefghijklmnopqrstuvwxyz" <==> 'a' <= c <= 'z'
  {
    var s := "abcdefghijklmnopqrstuvwxyz";
    if 'a' <= c <= 'z' {
      assert s[c as int - 'a' as int] == c;
    }
  }

  lemma UpperCase(c: char)
    ensures c in "ABCDEFGHIJKLMNOPQRSTUVWXYZ" <==> 'A' <= c <= 'Z'
  {
    var s := "ABCDEFGHIJKLMNOPQRSTUVWXYZ";
    if 'A' <= c <= 'Z' {
      assert s[c as int - 'A' as int] == c;
    }
  }

  lemma DecimalDigit(c: char)
    ensures c in "0123456789" <==> '0' <= c <= '9'
  {
    var s := "0123456789";
    if '0' <= c <= '9' {
      assert s[c as int - '0' as int] == c;
    }
  }

  /** The accepted characters, written out: letters, digits, underscore, hyphen and dot. */
  lemma DomainCharacters(c: char)
    ensures DomainCharacter(c) <==>
            c in "abcdefghijklmnopqrstuvwxyz" || c in "ABCDEFGHIJKLMNOPQRSTUVWXYZ" || c in "0123456789" ||
            c in {'_', '-', '.'}
  {
    LowerCase(c);
    UpperCase(c);
    DecimalDigit(c);
  }

  ghost predicate ValidDomain(domain: string) {
    && (forall i :: 0 <= i < |domain| ==> DomainCharacter(domain[i]))
    && (forall i :: 0 <= i < |Labels(domain)| ==> 1 <= |Labels(domain)[i]| <= 63)
  }

  /** `isValidDomainLite`: the first bad character, or else the first bad section. */
  method IsValidDomainLite(domain: string) returns (error: Option<DomainError>)
    ensures error == None <==> ValidDomain(domain)
    ensures error.Some? && error.value.BadCharacter? ==>
              exists i :: 0 <= i < |domain| && domain[i] == error.value.c && !DomainCharacter(domain[i]) &&
                forall j :: 0 <= j < i ==> DomainCharacter(domain[j])
    ensures error.Some? && !error.value.BadCharacter? ==>
              exists i :: 0 <= i < |Labels(domain)| &&
                (if error.value == EmptySection then |Labels(domain)[i]| == 0 else |Labels(domain)[i]| > 63) &&
                forall j :: 0 <= j < i ==> 1 <= |Labels(domain)[j]| <= 63
  {
    for i := 0 to |domain|
      invariant forall j :: 0 <= j < i ==> DomainCharacter(domain[j])
    {
      if !DomainCharacter(domain[i]) {
        return Some(BadCharacter(domain[i]));
      }
    }
    var sections := Split(domain, '.');
    for i := 0 to |sections|
      invariant forall j :: 0 <= j < i ==> 1 <= |Labels(domain)[j]| <= 63
    {
      if |sections[i]| == 0 {
        assert |Labels(domain)[i]| == 0;
        return Some(EmptySection);
      }
      if |sections[i]| > 63 {
        assert |Labels(domain)[i]| > 63;
        return Some(LongSection);
      }
    }
    return None;
  }

  /** `net.ParseCIDR` and `net.ParseIP`. */
  datatype Parsers = Parsers(cidr: string -> Option<Network>, ip: string -> Option<Ip>)

  /** The network a subject names: in prefix notation, or as one address. */
  function NetworkOf(subject: string, p: Parsers): Option<Network> {
    if p.cidr(subject).Some? then p.cidr(subject)
    else
      match p.ip(subject)
      case None => None
      case Some(ip) => p.cidr(subject + if |Shorten(ip)| == 4 then "/32" else "/128")
  }

  predicate Starred(subject: string) { |subject| >= 2 && subject[..2] == "*." }

  function Unstarred(subject: string): string { if Starred(subject) then subject[2..] else subject }

  /** Is `r` what the subject stands for? "all" comes before networks, networks before
      domain names. */
  ghost predicate Reads(r: Rule, subject: string, allow: bool, p: Parsers) {
    && r.allow == allow
    && if subject == "all" then r.AllRule?
       else if NetworkOf(subject, p).Some? then r.IpRule? && r.net == NetworkOf(subject, p).value
       else r.DomainRule? && r.subdomains == Starred(subject) && r.domain == Unstarred(subject) && ValidDomain(r.domain)
  }

  /** A subject that is neither. */
  ghost predicate Unreadable(subject: string, p: Parsers) {
    subject != "all" && NetworkOf(subject, p) == None && !ValidDomain(Unstarred(subject))
  }

  /** What the forms of a subject read as: "all"; a network; one address of four bytes, in
      either form, or of sixteen; a name with subdomains, and one without. */
  lemma SubjectForms(r: Rule, allow: bool, p: Parsers, subject: string)
    requires Reads(r, subject, allow, p)
    ensures subject == "all" ==> r == AllRule(allow)
    ensures subject != "all" && p.cidr(subject).Some? ==> r == IpRule(p.cidr(subject).value, allow)
    ensures subject != "all" && p.cidr(subject) == None && p.ip(subject).Some? ==>
              var ip := p.ip(subject).value;
              (|ip| == 4 || (|ip| == 16 && ip[..12] == [0, 0, 0, 0, 0, 0, 0, 0, 0, 0, 0xff, 0xff]) ==>
                 p.cidr(subject + "/32").Some? ==> r == IpRule(p.cidr(subject + "/32").value, allow)) &&
              (|ip| == 16 && ip[..12] != [0, 0, 0, 0, 0, 0, 0, 0, 0, 0, 0xff, 0xff] ==>
                 p.cidr(subject + "/128").Some? ==> r == IpRule(p.cidr(subject + "/128").value, allow))
    ensures subject != "all" && p.cidr(subject) == None && p.ip(subject) == None ==>
              r == if |subject| >= 2 && subject[0] == '*' && subject[1] == '.'
                   then DomainRule(subject[2..], true, allow)
                   else DomainRule(subject, false, allow)
  {
    hide ValidDomain;
    assert |subject| >= 2 ==> subject[..2] == [subject[0], subject[1]];
  }

  method NewAclRule(subject: string, allow: bool, p: Parsers) returns (r: Option<Rule>)
    ensures r == None <==> Unreadable(subject, p)
    ensures r.Some? ==> Reads(r.value, subject, allow, p)
  {
    hide ValidDomain;
    if subject == "all" {
      return Some(AllRule(allow));
    }
    var ipNet := p.cidr(subject);
    if ipNet == None {
      var ip := p.ip(subject);
      if ip.Some? {
        if |Shorten(ip.value)| == 4 {
          ipNet := p.cidr(subject + "/32");
        } else {
          ipNet := p.cidr(subject + "/128");
        }
      }
    }
    if ipNet.Some? {
      return Some(IpRule(ipNet.value, allow));
    }
    var name, subdomains := subject, false;
    if Starred(subject) {
      subdomains := true;
      name := subject[2..];
    }
    var error := IsValidDomainLite(name);
    if error.Some? {
      return None;
    }
    return Some(DomainRule(name, subdomains, allow));
  }

  // ---------------------------------------------------------------- assembly

  /** One `acl` entry: subjects that share a verdict. */
  datatype Entry = Entry(subjects: seq<string>, allow: bool)

  function Texts(e: Entry): seq<(string, bool)> {
    seq(|e.subjects|, i requires 0 <= i < |e.subjects| => (e.subjects[i], e.allow))
  }

  function Flat(entries: seq<Entry>): seq<(string, bool)> {
    if entries == [] then []
    else
      var last := entries[|entries| - 1];
      Flat(entries[..|entries| - 1]) + Texts(last)
  }

  /** How many subjects the entries before the `k`-th have. */
  function Offset(entries: seq<Entry>, k: nat): nat
    requires k <= |entries|
  {
    if k == 0 then 0 else Offset(entries, k - 1) + |entries[k - 1].subjects|
  }

  lemma {:induction false} OffsetOfPrefix(entries: seq<Entry>, n: nat, k: nat)
    requires k <= n <= |entries|
    ensures Offset(entries[..n], k) == Offset(entries, k)
  {
    if k > 0 {
      OffsetOfPrefix(entries, n, k - 1);
    }
  }

  lemma {:induction false} FlatSize(entries: seq<Entry>)
    ensures |Flat(entries)| == Offset(entries, |entries|)
  {
    if entries != [] {
      FlatSize(entries[..|entries| - 1]);
      OffsetOfPrefix(entries, |entries| - 1, |entries| - 1);
    }
  }

  /** The subjects stand in the order of the entries and of the subjects in each, every one
      with the verdict of its own entry. */
  lemma {:induction false} FlatAt(entries: seq<Entry>, k: nat, j: nat)
    requires k < |entries| && j < |entries[k].subjects|
    ensures Offset(entries, k) + j < |Flat(entries)|
    ensures Flat(entries)[Offset(entries, k) + j] == (entries[k].subjects[j], entries[k].allow)
    decreases |entries|
  {
    var n := |entries| - 1;
    FlatSize(entries[..n]);
    OffsetOfPrefix(entries, n, k);
    OffsetOfPrefix(entries, n, n);
    if k < n {
      FlatAt(entries[..n], k, j);
    }
  }

  const PRIVATE_TEXT := ["10.0.0.0/8", "127.0.0.0/8", "172.16.0.0/12", "192.168.0.0/16", "::1/128", "fe80::/10"]

  /** `net.ParseCIDR` reads the six texts as they are meant. */
  predicate ReadsPrivate(p: Parsers) {
    && p.cidr("10.0.0.0/8") == Some(Network([10, 0, 0, 0], 8))
    && p.cidr("127.0.0.0/8") == Some(Network([127, 0, 0, 0], 8))
    && p.cidr("172.16.0.0/12") == Some(Network([172, 16, 0, 0], 12))
    && p.cidr("192.168.0.0/16") == Some(Network([192, 168, 0, 0], 16))
    && p.cidr("::1/128") == Some(Network([0, 0, 0, 0, 0, 0, 0, 0, 0, 0, 0, 0, 0, 0, 0, 1], 128))
    && p.cidr("fe80::/10") == Some(Network([0xfe, 0x80, 0, 0, 0, 0, 0, 0, 0, 0, 0, 0, 0, 0, 0, 0], 10))
  }

  lemma ReadsPrivateAt(p: Parsers, i: nat)
    requires ReadsPrivate(p) && i < |PRIVATE_TEXT|
    ensures p.cidr(PRIVATE_TEXT[i]) == Some(PRIVATE[i])
  {
    assert PRIVATE[4].base == [0, 0, 0, 0, 0, 0, 0, 0, 0, 0, 0, 0, 0, 0, 0, 1];
    assert PRIVATE[5].base == [0xfe, 0x80, 0, 0, 0, 0, 0, 0, 0, 0, 0, 0, 0, 0, 0, 0];
  }

  function PrivateRules(n: nat): seq<Rule>
    requires n <= |PRIVATE|
  {
    seq(n, i requires 0 <= i < n => IpRule(PRIVATE[i], false))
  }

  /** What `Provision` puts behind the configured rules. */
  function Provisioned(user: seq<Rule>): seq<Rule> { user + PrivateRules(|PRIVATE|) + [AllRule(true)] }

  ghost predicate ReadsAll(rules: seq<Rule>, texts: seq<(string, bool)>, p: Parsers) {
    |rules| == |texts| && forall i :: 0 <= i < |rules| ==> Reads(rules[i], texts[i].0, texts[i].1, p)
  }

  lemma PrivateReads(r: Option<Rule>, i: nat, p: Parsers)
    requires ReadsPrivate(p) && i < |PRIVATE_TEXT|
    requires r == None <==> Unreadable(PRIVATE_TEXT[i], p)
    requires r.Some? ==> Reads(r.value, PRIVATE_TEXT[i], false, p)
    ensures r == Some(IpRule(PRIVATE[i], false))
  {
    ReadsPrivateAt(p, i);
    assert PRIVATE_TEXT[i] != "all" by {
      assert |PRIVATE_TEXT[i]| > 3;
    }
  }

  /** The rule in the place of the entry's subject reads as that subject and has that entry's
      verdict. */
  ghost predicate StandsFor(rules: seq<Rule>, entries: seq<Entry>, k: nat, j: nat, p: Parsers)
    requires k < |entries| && j < |entries[k].subjects|
  {
    && Offset(entries, k) + j < |rules|
    && Reads(rules[Offset(entries, k) + j], entries[k].subjects[j], entries[k].allow, p)
  }

  lemma EntryByEntry(entries: seq<Entry>, rules: seq<Rule>, p: Parsers, k: nat, j: nat)
    requires ReadsAll(rules, Flat(entries), p) && k < |entries| && j < |entries[k].subjects|
    ensures StandsFor(rules, entries, k, j, p)
  {
    hide Reads, Offset;
    FlatAt(entries, k, j);
  }

  /** The rules of one entry. */
  method ReadEntry(e: Entry, p: Parsers) returns (rules: Option<seq<Rule>>)
    ensures rules == None <==> exists j :: 0 <= j < |e.subjects| && Unreadable(e.subjects[j], p)
    ensures rules.Some? ==> ReadsAll(rules.value, Texts(e), p)
  {
    hide Reads, Unreadable, NetworkOf;
    var all: seq<Rule> := [];
    for j := 0 to |e.subjects|
      invariant |all| == j && forall i :: 0 <= i < j ==> Reads(all[i], e.subjects[i], e.allow, p)
      invariant forall i :: 0 <= i < j ==> !Unreadable(e.subjects[i], p)
    {
      var r := NewAclRule(e.subjects[j], e.allow, p);
      if r == None {
        return None;
      }
      all := all + [r.value];
    }
    return Some(all);
  }

  lemma FlatSnoc(entries: seq<Entry>, k: nat)
    requires k < |entries|
    ensures Flat(entries[..k + 1]) == Flat(entries[..k]) + Texts(entries[k])
  {
    assert entries[..k + 1][..k] == entries[..k];
  }

  lemma ReadsMore(a: seq<Rule>, s: seq<(string, bool)>, b: seq<Rule>, t: seq<(string, bool)>, p: Parsers)
    requires ReadsAll(a, s, p) && ReadsAll(b, t, p)
    ensures ReadsAll(a + b, s + t, p)
  {
    hide Reads;
  }

  /** The rules behind the configured ones. */
  method PrivateAndAll(p: Parsers) returns (rules: seq<Rule>)
    requires ReadsPrivate(p)
    ensures rules == PrivateRules(|PRIVATE|) + [AllRule(true)]
  {
    hide Reads, Unreadable, NetworkOf;
    rules := [];
    for i := 0 to |PRIVATE_TEXT|
      invariant rules == PrivateRules(i)
    {
      var r := NewAclRule(PRIVATE_TEXT[i], false, p);
      PrivateReads(r, i, p);
      rules := rules + [r.value];
    }
    rules := rules + [AllRule(true)];
  }

  lemma NothingRead(entries: seq<Entry>, p: Parsers)
    ensures ReadsAll([], Flat(entries[..0]), p)
  {
  }

  lemma SameSize(rules: seq<Rule>, texts: seq<(string, bool)>, p: Parsers)
    requires ReadsAll(rules, texts, p)
    ensures |rules| == |texts|
  {
  }

  /** The configured rules, entry by entry and subject by subject, then the private ranges,
      then `allow all`. */
  method AssembleRules(entries: seq<Entry>, p: Parsers) returns (rules: Option<seq<Rule>>, ghost user: seq<Rule>)
    requires ReadsPrivate(p)
    ensures rules == None <==>
              exists k, j :: 0 <= k < |entries| && 0 <= j < |entries[k].subjects| &&
                             Unreadable(entries[k].subjects[j], p)
    ensures rules.Some? ==> |user| == Offset(entries, |entries|) && rules.value == Provisioned(user)
    ensures rules.Some? ==>
              forall k, j :: 0 <= k < |entries| && 0 <= j < |entries[k].subjects| ==> StandsFor(user, entries, k, j, p)
  {
    hide ReadsAll, Unreadable, StandsFor, Flat, Offset;
    var all: seq<Rule> := [];
    user := [];
    NothingRead(entries, p);
    for k := 0 to |entries|
      invariant ReadsAll(all, Flat(entries[..k]), p)
      invariant forall i, j :: 0 <= i < k && 0 <= j < |entries[i].subjects| ==> !Unreadable(entries[i].subjects[j], p)
    {
      var more := ReadEntry(entries[k], p);
      FlatSnoc(entries, k);
      if more == None {
        return None, [];
      }
      ReadsMore(all, Flat(entries[..k]), more.value, Texts(entries[k]), p);
      all := all + more.value;
    }
    assert entries[..|entries|] == entries;
    user := all;
    FlatSize(entries);
    SameSize(all, Flat(entries), p);
    forall k, j | 0 <= k < |entries| && 0 <= j < |entries[k].subjects| ensures StandsFor(user, entries, k, j, p) {
      EntryByEntry(entries, user, p, k, j);
    }
    var rest := PrivateAndAll(p);
    rules := Some(all + rest);
    assert all + rest == Provisioned(user);
  }

  // ---------------------------------------------------------------- first match

  ghost predicate FirstMatch(rules: seq<Rule>, ip: Ip, host: string, i: nat) {
    && i < |rules| && Matches(rules[i], ip, host)
    && forall j :: 0 <= j < i ==> !Matches(rules[j], ip, host)
  }

  ghost predicate Allowed(rules: seq<Rule>, ip: Ip, host: string) {
    exists i: nat :: FirstMatch(rules, ip, host, i) && rules[i].allow
  }

  lemma Decided(rules: seq<Rule>, ip: Ip, host: string, i: nat)
    requires FirstMatch(rules, ip, host, i)
    ensures Allowed(rules, ip, host) <==> rules[i].allow
  {
    hide Matches;
  }

  /** `hostIsAllowed`: the first rule that matches decides; if none does, the answer is no. */
  method HostIsAllowed(rules: seq<Rule>, host: string, ip: Ip) returns (ok: bool)
    ensures ok <==> Allowed(rules, ip, host)
  {
    hide Matches;
    for i := 0 to |rules|
      invariant forall j :: 0 <= j < i ==> !Matches(rules[j], ip, host)
    {
      var d := TryMatch(rules[i], ip, host);
      if d == Deny {
        Decided(rules, ip, host, i);
        return false;
      }
      if d == Allow {
        Decided(rules, ip, host, i);
        return true;
      }
    }
    return false;
  }

  /** The first rule that matches decides, and nothing behind it matters. */
  lemma FirstMatchDecides(rules: seq<Rule>, more: seq<Rule>, ip: Ip, host: string, i: nat)
    requires FirstMatch(rules, ip, host, i)
    ensures FirstMatch(rules + more, ip, host, i)
    ensures Allowed(rules + more, ip, host) <==> rules[i].allow
  {
    hide Matches;
    assert FirstMatch(rules + more, ip, host, i);
    Decided(rules + more, ip, host, i);
  }

  /** The least index at which some rule matches. */
  lemma {:induction false} SomeFirstMatch(rules: seq<Rule>, ip: Ip, host: string, k: nat) returns (i: nat)
    requires k < |rules| && Matches(rules[k], ip, host)
    ensures i <= k && FirstMatch(rules, ip, host, i)
    decreases k
  {
    hide Matches;
    if j :| 0 <= j < k && Matches(rules[j], ip, host) {
      i := SomeFirstMatch(rules, ip, host, j);
    } else {
      i := k;
    }
  }

  /** Rules behind an `all` rule never change the verdict on an address. */
  lemma NothingAfterAll(rules: seq<Rule>, allow: bool, more: seq<Rule>, ip: Ip, host: string)
    ensures Allowed(rules + [AllRule(allow)] + more, ip, host) <==> Allowed(rules + [AllRule(allow)], ip, host)
  {
    var front := rules + [AllRule(allow)];
    var i := SomeFirstMatch(front, ip, host, |rules|);
    FirstMatchDecides(front, more, ip, host, i);
    Decided(front, ip, host, i);
  }

  lemma DefaultDecision(user: seq<Rule>, ip: Ip, host: string)
    requires |ip| == 4 || |ip| == 16
    requires forall i :: 0 <= i < |user| ==> !Matches(user[i], ip, host)
    ensures Allowed(Provisioned(user), ip, host) <==> !PrivateAddress(ip)
  {
    hide MatchesDomain, Inside, PrivateAddress;
    PrivateRanges(ip);
    var rules, n := Provisioned(user), |user|;
    assert forall i :: 0 <= i < |PRIVATE| ==> rules[n + i] == IpRule(PRIVATE[i], false);
    assert rules[n + |PRIVATE|] == AllRule(true);
    var i := SomeFirstMatch(rules, ip, host, n + |PRIVATE|);
    Decided(rules, ip, host, i);
    assert i >= n;
    assert i < n + |PRIVATE| ==> Inside(PRIVATE[i - n], ip);
    if k :| 0 <= k < |PRIVATE| && Inside(PRIVATE[k], ip) {
      assert Matches(rules[n + k], ip, host);
      assert i <= n + k;
    }
  }

  /** Every host and address is decided: by the first configured rule that matches, and if
      there is none, by whether the address is private. */
  lemma TotalDecision(user: seq<Rule>, ip: Ip, host: string)
    requires |ip| == 4 || |ip| == 16
    ensures forall i: nat :: FirstMatch(user, ip, host, i) ==> (Allowed(Provisioned(user), ip, host) <==> user[i].allow)
    ensures (forall i :: 0 <= i < |user| ==> !Matches(user[i], ip, host)) ==>
              (Allowed(Provisioned(user), ip, host) <==> !PrivateAddress(ip))
  {
    hide Matches, PrivateAddress;
    var tail := PrivateRules(|PRIVATE|) + [AllRule(true)];
    assert Provisioned(user) == user + tail;
    forall i: nat | FirstMatch(user, ip, host, i) ensures Allowed(Provisioned(user), ip, host) <==> user[i].allow {
      FirstMatchDecides(user, tail, ip, host, i);
    }
    if forall i :: 0 <= i < |user| ==> !Matches(user[i], ip, host) {
      DefaultDecision(user, ip, host);
    }
  }

  /** An IPv4 address that no configured rule matches, in four or in sixteen bytes, is refused
      exactly in these ranges. */
  lemma DefaultForIpv4(user: seq<Rule>, a: Ip, host: string)
    requires |a| == 4
    ensures var ranges := a[0] == 10 || a[0] == 127 || (a[0] == 172 && 16 <= a[1] <= 31) ||
                          (a[0] == 192 && a[1] == 168);
            var long: Ip := [0, 0, 0, 0, 0, 0, 0, 0, 0, 0, 0xff, 0xff] + a;
            ((forall i :: 0 <= i < |user| ==> !Matches(user[i], a, host)) ==>
               (Allowed(Provisioned(user), a, host) <==> !ranges)) &&
            ((forall i :: 0 <= i < |user| ==> !Matches(user[i], long, host)) ==>
               (Allowed(Provisioned(user), long, host) <==> !ranges))
  {
    hide Matches, Allowed, Provisioned;
    var long: Ip := [0, 0, 0, 0, 0, 0, 0, 0, 0, 0, 0xff, 0xff] + a;
    assert long[..12] == [0, 0, 0, 0, 0, 0, 0, 0, 0, 0, 0xff, 0xff] && long[12..] == a;
    TotalDecision(user, a, host);
    TotalDecision(user, long, host);
  }

  /** Any other address in sixteen bytes, in these. */
  lemma DefaultForIpv6(user: seq<Rule>, ip: Ip, host: string)
    requires |ip| == 16 && ip[..12] != [0, 0, 0, 0, 0, 0, 0, 0, 0, 0, 0xff, 0xff]
    requires forall i :: 0 <= i < |user| ==> !Matches(user[i], ip, host)
    ensures Allowed(Provisioned(user), ip, host) <==>
            ip != [0, 0, 0, 0, 0, 0, 0, 0, 0, 0, 0, 0, 0, 0, 0, 1] && !(ip[0] == 0xfe && 0x80 <= ip[1] <= 0xbf)
  {
    hide Matches, Allowed, Provisioned;
    assert ZEROS + [0, 0, 0, 1] == [0, 0, 0, 0, 0, 0, 0, 0, 0, 0, 0, 0, 0, 0, 0, 1];
    TotalDecision(user, ip, host);
  }

  // ---------------------------------------------------------------- the domain rules on their own

  ghost predicate DomainMatch(r: Rule, host: string) {
    r.DomainRule? && MatchesDomain(r.domain, r.subdomains, host)
  }

  ghost predicate FirstDomainMatch(rules: seq<Rule>, host: string, i: nat) {
    && i < |rules| && DomainMatch(rules[i], host)
    && forall j :: 0 <= j < i ==> !DomainMatch(rules[j], host)
  }

  /** The first pass: only domain rules, before the name is looked up. */
  ghost predicate HostDenied(rules: seq<Rule>, host: string) {
    exists i: nat :: FirstDomainMatch(rules, host, i) && !rules[i].allow
  }

  /** The two passes refuse an address that a plain first match would allow exactly when an
      address or `all` rule that allows it stands before the domain rule that denies the host. */
  lemma TwoPassesDiffer(rules: seq<Rule>, ip: Ip, host: string)
    ensures HostDenied(rules, host) && Allowed(rules, ip, host) <==>
            exists i: nat, j: nat :: i < j < |rules| && FirstMatch(rules, ip, host, i) && rules[i].allow &&
              !rules[i].DomainRule? && FirstDomainMatch(rules, host, j) && !rules[j].allow
  {
    hide Inside, MatchesDomain;
    if HostDenied(rules, host) && Allowed(rules, ip, host) {
      var i: nat :| FirstMatch(rules, ip, host, i) && rules[i].allow;
      var j: nat :| FirstDomainMatch(rules, host, j) && !rules[j].allow;
      assert Matches(rules[j], ip, host);
    }
  }

  /** When a domain rule is the first match of all, the two passes agree. */
  lemma DomainFirstAgrees(rules: seq<Rule>, ip: Ip, host: string, i: nat)
    requires FirstMatch(rules, ip, host, i) && rules[i].DomainRule?
    ensures HostDenied(rules, host) <==> !Allowed(rules, ip, host)
  {
    hide Inside, MatchesDomain;
    assert FirstDomainMatch(rules, host, i);
    Decided(rules, ip, host, i);
  }

  /** A domain rule behind an `all` rule has no say over addresses, and still denies a host. */
  lemma AfterAllStillDenies(domain: string, ip: Ip)
    ensures var rules := [AllRule(true), DomainRule(domain, true, false)];
            Allowed(rules, ip, domain) && (TrimDot(domain) == domain ==> HostDenied(rules, domain)) &&
            !HostDenied([AllRule(true)], domain)
  {
    var rules := [AllRule(true), DomainRule(domain, true, false)];
    assert FirstMatch(rules, ip, domain, 0);
    if TrimDot(domain) == domain {
      assert FirstDomainMatch(rules, domain, 1);
    }
  }
}
