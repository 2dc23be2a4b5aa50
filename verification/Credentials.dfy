/** Basic credentials: how they are configured (`EncodeAuthCredentials` and the `basic_auth`
    directive) and how a request is checked against them (`checkCredentials`). */
module Credentials {
  import opened Wrappers
  import opened Streams
  import opened Text
  import opened Base64
  import opened Accounting
  import opened Quota

  const SPACE: byte := 32
  const COLON: byte := 58

  type ByteString = seq<byte>

  datatype Account = Account(user: ByteString, pass: ByteString)

  function Raw(a: Account): ByteString { a.user + [COLON] + a.pass }

  function Credential(a: Account): ByteString { Encode(Raw(a)) }

  /** Counters and quotas are kept under names. */
  function Name(user: ByteString): (name: User)
    ensures |name| == |user|
  {
    seq(|user|, i requires 0 <= i < |user| => user[i] as char)
  }

  // ---------------------------------------------------------------- configuration

  /** `EncodeAuthCredentials`. */
  method EncodeAuthCredentials(user: ByteString, pass: ByteString) returns (result: array<byte>)
    ensures fresh(result) && result[..] == Encode(user + [58] + pass) == Credential(Account(user, pass))
  {
    var raw := user + [COLON] + pass;
    result := new byte[EncodedLen(|raw|)](_ => 0);
    EncodeInto(result, raw);
  }

  /** The `basic_auth` directive: two arguments, a name that is not empty and has no colon. */
  method BasicAuth(credentials: seq<ByteString>, args: seq<ByteString>) returns (r: Option<seq<ByteString>>)
    ensures r.Some? <==> |args| == 2 && args[0] != [] && COLON !in args[0]
    ensures r.Some? ==> r.value == credentials + [Credential(Account(args[0], args[1]))]
  {
    if |args| != 2 {
      return None;
    }
    if |args[0]| == 0 {
      return None;
    }
    if COLON in args[0] {
      return None;
    }
    var encoded := EncodeAuthCredentials(args[0], args[1]);
    return Some(credentials + [encoded[..]]);
  }

  lemma GroupOfAB()
    ensures Group([97, 58, 98]) == [89, 84, 112, 105]
  {
  }

  /** The credential of user "a" and password "b" is "YTpi". */
  lemma CredentialOfAB()
    ensures Credential(Account([97], [98])) == [89, 84, 112, 105]
  {
    assert [97] + [58] + [98] == [97, 58, 98];
    GroupOfAB();
    EncodeLast([97, 58, 98]);
  }

  // ---------------------------------------------------------------- one credential

  /** The user read from a decode buffer that is as long as `DecodedLen` says, with zeros
      behind the decoded bytes. -1 has no slice: the program would panic. */
  function UserIn(credential: ByteString): Option<ByteString> {
    var bytes := Decode(credential).bytes;
    var buf := bytes + seq(DecodedLen(|credential|) - |bytes|, _ => 0);
    var i := IndexOf(buf, COLON);
    if i < 0 then None else Some(buf[..i])
  }

  /** The first colon of `user:pass` ends the user, whatever follows it. */
  lemma FirstColon(a: Account, rest: ByteString)
    requires COLON !in a.user
    ensures IndexOf(Raw(a) + rest, COLON) == |a.user| && (Raw(a) + rest)[..|a.user|] == a.user
  {
    var s := Raw(a) + rest;
    var i := IndexOf(s, COLON);
    assert s[|a.user|] == COLON && forall k :: 0 <= k < |a.user| ==> s[k] == a.user[k];
    assert forall k :: 0 <= k < i ==> s[..i][k] == s[k];
  }

  /** The user comes back whole, although the buffer may be too long by up to two zeros. */
  lemma UserRoundTrip(a: Account)
    requires COLON !in a.user
    ensures UserIn(Credential(a)) == Some(a.user)
    ensures SPACE !in Credential(a)
  {
    hide Encode, Decode, Raw;
    DecodeEncode(Raw(a));
    EncodedText(Raw(a));
    var bytes := Decode(Credential(a)).bytes;
    FirstColon(a, seq(DecodedLen(|Credential(a)|) - |bytes|, _ => 0));
  }

  /** A credential stands for one account only. */
  lemma CredentialInjective(a: Account, b: Account)
    requires COLON !in a.user && COLON !in b.user && Credential(a) == Credential(b)
    ensures a == b
  {
    EncodeInjective(Raw(a), Raw(b));
    FirstColon(a, []);
    FirstColon(b, []);
    assert Raw(a) + [] == Raw(a) && Raw(b) + [] == Raw(b);
    assert a.pass == Raw(a)[|a.user| + 1..] && b.pass == Raw(b)[|b.user| + 1..];
  }

  // ---------------------------------------------------------------- a request

  datatype Auth =
    | Admitted(user: ByteString)
    | OverQuota(user: ByteString)
    | MissingHeader
    | OtherScheme
    | WrongCredentials
    | Panic

  function LowerByte(c: byte): byte { if 65 <= c <= 90 then c + 32 else c }

  /** `strings.ToLower` as far as it can yield plain letters: besides A-Z, the two bytes of
      the dotted capital I become an i. */
  function Lower(s: ByteString): ByteString {
    if s == [] then []
    else if |s| >= 2 && s[0] == 0xC4 && s[1] == 0xB0 then [105] + Lower(s[2..])
    else [LowerByte(s[0])] + Lower(s[1..])
  }

  const BASIC: ByteString := [98, 97, 115, 105, 99]

  predicate IsBasic(scheme: ByteString) { Lower(scheme) == BASIC }

  lemma {:induction false} LowerKeepsSpaces(s: ByteString)
    requires SPACE in s
    ensures SPACE in Lower(s)
    decreases |s|
  {
    if |s| >= 2 && s[0] == 0xC4 && s[1] == 0xB0 {
      assert s == [s[0], s[1]] + s[2..];
      LowerKeepsSpaces(s[2..]);
    } else if s[0] != SPACE {
      assert s == [s[0]] + s[1..];
      LowerKeepsSpaces(s[1..]);
    }
  }

  /** What is decided about a token that equals a configured credential. */
  function Identify(token: ByteString, quotas: Quotas, counters: Counts): Auth {
    match UserIn(token)
    case None => Panic
    case Some(user) => if Exceeded(quotas, counters, Name(user)) then OverQuota(user) else Admitted(user)
  }

  function Check(credentials: seq<ByteString>, quotas: Quotas, counters: Counts, header: ByteString): Auth {
    var pa := Split(header, SPACE);
    if |pa| != 2 then MissingHeader
    else if !IsBasic(pa[0]) then OtherScheme
    else if pa[1] in credentials then Identify(pa[1], quotas, counters)
    else WrongCredentials
  }

  /** The decoding of a configured credential into a buffer of the length `DecodedLen` gives. */
  method DecodeUser(creds: ByteString) returns (user: Option<ByteString>)
    ensures user == UserIn(creds)
  {
    hide Decode;
    var buf := new byte[DecodedLen(|creds|)](_ => 0);
    var n, ok := DecodeInto(buf, creds);
    var cred := buf[..];
    assert cred == Decode(creds).bytes + seq(DecodedLen(|creds|) - |Decode(creds).bytes|, _ => 0);
    var colon := IndexOf(cred, COLON);
    return if colon < 0 then None else Some(cred[..colon]);
  }

  /** `checkCredentials`. */
  method CheckCredentials(credentials: seq<ByteString>, quotas: Quotas, counters: Counts, header: ByteString)
    returns (r: Auth)
    ensures r == Check(credentials, quotas, counters, header)
  {
    hide Decode, Encode, Lower, UserIn, Name;
    var pa := Split(header, SPACE);
    if |pa| != 2 {
      return MissingHeader;
    }
    if Lower(pa[0]) != BASIC {
      return OtherScheme;
    }
    for i := 0 to |credentials|
      invariant pa[1] !in credentials[..i]
    {
      var creds := credentials[i];
      if creds == pa[1] {
        var user := DecodeUser(creds);
        if user == None {
          return Panic;
        }
        var username := Name(user.value);
        if username in quotas && quotas[username] > 0 {
          if username in counters {
            var used := counters[username];
            if used >= quotas[username] {
              return OverQuota(user.value);
            }
          }
        }
        return Admitted(user.value);
      }
    }
    return WrongCredentials;
  }

  // ---------------------------------------------------------------- who gets in

  function CredentialsOf(accounts: seq<Account>): seq<ByteString> {
    seq(|accounts|, i requires 0 <= i < |accounts| => Credential(accounts[i]))
  }

  function Header(scheme: ByteString, a: Account): ByteString { scheme + [SPACE] + Credential(a) }

  /** The request carries the credential of the account. */
  ghost predicate Presents(header: ByteString, scheme: ByteString, a: Account) {
    IsBasic(scheme) && header == Header(scheme, a)
  }

  /** A request that presents an account is that account's, and its quota decides. */
  lemma PresentedIsIdentified(accounts: seq<Account>, quotas: Quotas, counters: Counts, header: ByteString,
      scheme: ByteString, a: Account)
    requires a in accounts && COLON !in a.user && Presents(header, scheme, a)
    ensures Check(CredentialsOf(accounts), quotas, counters, header) ==
            if Exceeded(quotas, counters, Name(a.user)) then OverQuota(a.user) else Admitted(a.user)
  {
    hide Encode, Decode, UserIn, Lower, Exceeded, Name;
    UserRoundTrip(a);
    if SPACE in scheme {
      LowerKeepsSpaces(scheme);
      assert false;
    }
    SplitInTwo(header, SPACE, scheme, Credential(a));
    var i :| 0 <= i < |accounts| && accounts[i] == a;
    assert CredentialsOf(accounts)[i] == Credential(a);
  }

  /** And a request that gets past the comparison presents one. */
  lemma IdentifiedPresents(accounts: seq<Account>, quotas: Quotas, counters: Counts, header: ByteString)
    returns (scheme: ByteString, a: Account)
    requires var r := Check(CredentialsOf(accounts), quotas, counters, header);
             r.Admitted? || r.OverQuota? || r.Panic?
    ensures a in accounts && Presents(header, scheme, a)
  {
    hide Encode, Decode, UserIn, Lower, Exceeded, Name;
    var pa := Split(header, SPACE);
    var i :| 0 <= i < |accounts| && CredentialsOf(accounts)[i] == pa[1];
    scheme, a := pa[0], accounts[i];
    assert pa == [pa[0], pa[1]];
    SplitInTwo(header, SPACE, pa[0], pa[1]);
  }

  /** A user is let in exactly when the header is the basic scheme, one space, and the
      credential of an account of that user, and the user is below its quota; no header
      makes the program panic. */
  lemma AdmittedExactly(accounts: seq<Account>, quotas: Quotas, counters: Counts, header: ByteString, user: ByteString)
    requires forall a :: a in accounts ==> COLON !in a.user
    ensures var r := Check(CredentialsOf(accounts), quotas, counters, header);
            var presented := exists a, scheme :: a in accounts && a.user == user && Presents(header, scheme, a);
            (r == Admitted(user) <==> presented && !Exceeded(quotas, counters, Name(user))) &&
            (r == OverQuota(user) <==> presented && Exceeded(quotas, counters, Name(user))) &&
            r != Panic
  {
    hide Check, Presents, Exceeded, Name, CredentialsOf;
    var r := Check(CredentialsOf(accounts), quotas, counters, header);
    if a, scheme :| a in accounts && a.user == user && Presents(header, scheme, a) {
      PresentedIsIdentified(accounts, quotas, counters, header, scheme, a);
    }
    if r.Admitted? || r.OverQuota? || r.Panic? {
      var scheme, a := IdentifiedPresents(accounts, quotas, counters, header);
      PresentedIsIdentified(accounts, quotas, counters, header, scheme, a);
    }
  }

  /** Of which users counters and quotas are kept: `n` is the text of the user's bytes. */
  predicate IsNameOf(n: string, user: ByteString) {
    |n| == |user| && forall i :: 0 <= i < |n| ==> n[i] as int == user[i]
  }

  /** The quota that decides over a request is the one under the very name of the account it
      presents, and the counter that is compared is that name's. */
  lemma QuotaUnderOwnName(accounts: seq<Account>, quotas: Quotas, counters: Counts, header: ByteString,
      scheme: ByteString, a: Account, n: string)
    requires a in accounts && COLON !in a.user && IsNameOf(n, a.user)
    requires IsBasic(scheme) && header == scheme + [32] + Encode(a.user + [58] + a.pass)
    ensures Check(CredentialsOf(accounts), quotas, counters, header) ==
            if n in quotas && quotas[n] > 0 && n in counters && counters[n] >= quotas[n] then OverQuota(a.user)
            else Admitted(a.user)
  {
    hide Check, CredentialsOf, Encode, IsBasic;
    assert Presents(header, scheme, a);
    assert n == Name(a.user);
    PresentedIsIdentified(accounts, quotas, counters, header, scheme, a);
  }

  /** So users that differ never share a counter or a quota. */
  lemma NamesDiffer(u: ByteString, v: ByteString, n: string)
    requires IsNameOf(n, u) && IsNameOf(n, v)
    ensures u == v
  {
    forall i | 0 <= i < |u| ensures u[i] == v[i] {
      assert n[i] as int == u[i];
    }
  }

  lemma NextLetter(s: ByteString, c: byte, t: ByteString)
    requires 97 <= c <= 122 && c != 105
    ensures Lower(s) == [c] + t <==> s != [] && s[0] in {c - 32, c as int} && Lower(s[1..]) == t
  {
    if s != [] {
      assert Lower(s)[1..] == Lower(if s[0] == 0xC4 && |s| >= 2 && s[1] == 0xB0 then s[2..] else s[1..]);
      assert ([c] + t)[1..] == t;
    }
  }

  lemma NextI(s: ByteString, t: ByteString)
    ensures Lower(s) == [105] + t <==>
            (s != [] && s[0] in {73, 105} && Lower(s[1..]) == t) ||
            (|s| >= 2 && s[0] == 0xC4 && s[1] == 0xB0 && Lower(s[2..]) == t)
  {
    if s != [] {
      assert Lower(s)[1..] == Lower(if s[0] == 0xC4 && |s| >= 2 && s[1] == 0xB0 then s[2..] else s[1..]);
      assert ([105] + t)[1..] == t;
    }
  }

  /** `c` and nothing after it. */
  lemma LastLetter(s: ByteString)
    ensures Lower(s) == [99] <==> |s| == 1 && s[0] in {67, 99}
  {
    NextLetter(s, 99, []);
    assert [99] + [] == [99];
    assert Lower([]) == [];
    if s != [] && Lower(s[1..]) == [] {
      assert s[1..] == [];
    }
  }

  lemma LastTwo(s: ByteString)
    ensures Lower(s) == [105, 99] <==>
            (|s| == 2 && s[0] in {73, 105} && s[1] in {67, 99}) ||
            (|s| == 3 && s[0] == 0xC4 && s[1] == 0xB0 && s[2] in {67, 99})
  {
    hide Lower;
    NextI(s, [99]);
    assert [105] + [99] == [105, 99];
    if s != [] {
      LastLetter(s[1..]);
    }
    if |s| >= 2 {
      LastLetter(s[2..]);
    }
  }

  /** The scheme is "basic" in any mixture of upper and lower case, where the i may also be
      the dotted capital I of two bytes, and nothing else. */
  lemma BasicInAnyCase(scheme: ByteString)
    ensures IsBasic(scheme) <==>
            |scheme| >= 5 && scheme[0] in {66, 98} && scheme[1] in {65, 97} && scheme[2] in {83, 115} &&
            ((|scheme| == 5 && scheme[3] in {73, 105} && scheme[4] in {67, 99}) ||
             (|scheme| == 6 && scheme[3] == 0xC4 && scheme[4] == 0xB0 && scheme[5] in {67, 99}))
  {
    hide Lower;
    assert BASIC == [98] + [97, 115, 105, 99] && [97, 115, 105, 99] == [97] + [115, 105, 99];
    assert [115, 105, 99] == [115] + [105, 99];
    NextLetter(scheme, 98, [97, 115, 105, 99]);
    if |scheme| >= 1 {
      NextLetter(scheme[1..], 97, [115, 105, 99]);
    }
    if |scheme| >= 2 {
      assert scheme[1..][1..] == scheme[2..];
      NextLetter(scheme[2..], 115, [105, 99]);
    }
    if |scheme| >= 3 {
      assert scheme[2..][1..] == scheme[3..];
      LastTwo(scheme[3..]);
    }
  }

  /** Why a request is refused: it is not two parts around one space; the first part is not
      the basic scheme; or the second is no configured credential. */
  lemma RefusedExactly(credentials: seq<ByteString>, quotas: Quotas, counters: Counts, header: ByteString)
    ensures Check(credentials, quotas, counters, header) == MissingHeader <==>
            forall a: ByteString, b: ByteString :: header == a + [32] + b ==> 32 in a || 32 in b
    ensures Check(credentials, quotas, counters, header) == OtherScheme <==>
            exists a: ByteString, b: ByteString ::
              header == a + [32] + b && 32 !in a && 32 !in b && !IsBasic(a)
    ensures Check(credentials, quotas, counters, header) == WrongCredentials <==>
            exists a: ByteString, b: ByteString ::
              header == a + [32] + b && 32 !in a && 32 !in b && IsBasic(a) && b !in credentials
  {
    hide IsBasic, UserIn, Exceeded, Name;
    var pa := Split(header, SPACE);
    if |pa| == 2 {
      assert pa == [pa[0], pa[1]];
      SplitInTwo(header, SPACE, pa[0], pa[1]);
    }
    forall a: ByteString, b: ByteString | header == a + [32] + b && 32 !in a && 32 !in b
      ensures pa == [a, b]
    {
      SplitInTwo(header, SPACE, a, b);
    }
  }

  /** A request presents at most one account. */
  lemma PresentedIsUnique(header: ByteString, s1: ByteString, a1: Account, s2: ByteString, a2: Account)
    requires COLON !in a1.user && COLON !in a2.user
    requires Presents(header, s1, a1) && Presents(header, s2, a2)
    ensures a1 == a2 && s1 == s2
  {
    hide Encode, Lower, Raw;
    UserRoundTrip(a1);
    UserRoundTrip(a2);
    if SPACE in s1 {
      LowerKeepsSpaces(s1);
    }
    if SPACE in s2 {
      LowerKeepsSpaces(s2);
    }
    SplitInTwo(header, SPACE, s1, Credential(a1));
    SplitInTwo(header, SPACE, s2, Credential(a2));
    assert [s1, Credential(a1)] == [s2, Credential(a2)];
    assert [s1, Credential(a1)][1] == [s2, Credential(a2)][1];
    CredentialInjective(a1, a2);
  }

  /** The request presents a configured credential that decodes to a text without a colon. */
  ghost predicate Unreadable(credentials: seq<ByteString>, header: ByteString, scheme: ByteString, token: ByteString) {
    && token in credentials && IsBasic(scheme) && SPACE !in token
    && header == scheme + [SPACE] + token && COLON !in Decode(token).bytes
  }

  lemma NoColonNoUser(token: ByteString)
    ensures UserIn(token) == None <==> COLON !in Decode(token).bytes
  {
    hide Decode;
    var bytes := Decode(token).bytes;
    var rest := seq(DecodedLen(|token|) - |bytes|, _ => 0);
    assert COLON !in rest;
    assert COLON in bytes + rest <==> COLON in bytes;
  }

  /** Only a credential without a colon, which no `basic_auth` directive writes, can make the
      program panic, and it does so for every request that presents it. */
  lemma PanicsExactly(credentials: seq<ByteString>, quotas: Quotas, counters: Counts, header: ByteString)
    ensures Check(credentials, quotas, counters, header) == Panic <==>
            exists scheme, token :: Unreadable(credentials, header, scheme, token)
  {
    hide Decode, Lower, Exceeded, Name, IndexOf;
    var pa := Split(header, SPACE);
    if Check(credentials, quotas, counters, header) == Panic {
      assert pa == [pa[0], pa[1]];
      SplitInTwo(header, SPACE, pa[0], pa[1]);
      NoColonNoUser(pa[1]);
      assert Unreadable(credentials, header, pa[0], pa[1]);
    }
    if scheme, token :| Unreadable(credentials, header, scheme, token) {
      if SPACE in scheme {
        LowerKeepsSpaces(scheme);
      }
      SplitInTwo(header, SPACE, scheme, token);
      NoColonNoUser(token);
    }
  }

  /** Such a request: "Basic" and the encoding of "x", where just that is configured. */
  lemma APanickingHeader(quotas: Quotas, counters: Counts)
    ensures var token := Encode([120]);
            Check([token], quotas, counters, [66, 97, 115, 105, 99] + [SPACE] + token) == Panic
  {
    var token, scheme := Encode([120]), [66, 97, 115, 105, 99];
    DecodeEncode([120]);
    EncodedText([120]);
    hide Encode, Decode, IsBasic;
    BasicInAnyCase(scheme);
    assert Unreadable([token], scheme + [SPACE] + token, scheme, token);
    PanicsExactly([token], quotas, counters, scheme + [SPACE] + token);
  }
}
