/** Normalisation of host names (services/api/src/study_agent/config.py) and the allow-list test
    that uses it (services/api/src/study_agent/main.py). */
module HostNames {

  import opened Sequences
  import opened Wrappers

  datatype Address = Address(version: nat, compressed: string)

  datatype HostError = InvalidHost

  /** The two library functions the code relies on: `str.lower` and `ip_address`. */
  datatype Platform = Platform(lower: string -> string, parseIp: string -> Option<Address>)

  // ---------- Characters ----------

  predicate IsAscii(s: string) {
    forall i :: 0 <= i < |s| ==> s[i] as int < 128
  }

  predicate IsUpper(c: char) {
    'A' <= c <= 'Z'
  }

  predicate IsSpace(c: char) {
    c == ' ' || '\t' <= c <= '\r' || 0x1c <= c as int <= 0x1f
    || c as int in {0x85, 0xa0, 0x1680, 0x2028, 0x2029, 0x202f, 0x205f, 0x3000}
    || 0x2000 <= c as int <= 0x200a
  }

  predicate IsDigit(c: char) {
    '0' <= c <= '9'
  }

  predicate IsAlphanumeric(c: char) {
    IsDigit(c) || 'a' <= c <= 'z' || IsUpper(c)
  }

  function LowerChar(c: char): char {
    if IsUpper(c) then ((c as int) + 32) as char else c
  }

  function AsciiLower(s: string): (r: string)
    ensures |r| == |s|
  {
    seq(|s|, i requires 0 <= i < |s| => LowerChar(s[i]))
  }

  function StripLeft(s: string): string {
    if s != [] && IsSpace(s[0]) then StripLeft(s[1..]) else s
  }

  function StripRight(s: string): string {
    if s != [] && IsSpace(Last(s)) then StripRight(Init(s)) else s
  }

  function Strip(s: string): string {
    StripRight(StripLeft(s))
  }

  lemma {:induction false} StripLeftMeaning(s: string) returns (before: string)
    ensures s == before + StripLeft(s) && forall c :: c in before ==> IsSpace(c)
    ensures StripLeft(s) != "" ==> !IsSpace(StripLeft(s)[0])
    decreases |s|
  {
    hide IsSpace;
    if s == [] || !IsSpace(s[0]) {
      before := [];
    } else {
      var rest := StripLeftMeaning(s[1..]);
      before := [s[0]] + rest;
    }
  }

  lemma {:induction false} StripRightMeaning(s: string) returns (after: string)
    ensures s == StripRight(s) + after && forall c :: c in after ==> IsSpace(c)
    ensures StripRight(s) != "" ==> !IsSpace(Last(StripRight(s))) && StripRight(s)[0] == s[0]
    decreases |s|
  {
    hide IsSpace;
    if s == [] || !IsSpace(Last(s)) {
      after := [];
    } else {
      var rest := StripRightMeaning(Init(s));
      after := rest + [Last(s)];
    }
  }

  /** Stripping removes white space at both ends and nothing else. */
  lemma {:induction false} StripMeaning(s: string) returns (before: string, after: string)
    ensures s == before + Strip(s) + after
    ensures forall c :: c in before || c in after ==> IsSpace(c)
    ensures Strip(s) != "" ==> !IsSpace(Strip(s)[0]) && !IsSpace(Last(Strip(s)))
  {
    hide IsSpace;
    before := StripLeftMeaning(s);
    after := StripRightMeaning(StripLeft(s));
  }

  predicate StartsWith(s: string, prefix: string) {
    prefix <= s
  }

  predicate EndsWith(s: string, suffix: string) {
    |suffix| <= |s| && s[|s| - |suffix|..] == suffix
  }

  predicate DoubleDot(s: string) {
    exists i :: 0 <= i < |s| - 1 && s[i] == '.' && s[i + 1] == '.'
  }

  /** How often `c` occurs. */
  function Occurrences(s: string, c: char): nat {
    multiset(s)[c]
  }

  // ---------- Labels ----------

  /** `s.split(".")` */
  function Split(s: string): (labels: seq<string>)
    ensures labels != []
  {
    if s == [] then [[]]
    else
      var front := Split(Init(s));
      if Last(s) == '.' then front + [[]] else Init(front) + [Last(front) + [Last(s)]]
  }

  function Join(labels: seq<string>): string
    requires labels != []
  {
    if |labels| == 1 then labels[0] else Join(Init(labels)) + "." + Last(labels)
  }

  lemma {:induction false} SplitAppend(s: string, c: char)
    ensures Split(s + [c]) == if c == '.' then Split(s) + [[]] else Init(Split(s)) + [Last(Split(s)) + [c]]
  {
    assert Init(s + [c]) == s;
  }

  lemma LastOfConcat(x: seq<string>, y: seq<string>, c: char)
    requires y != []
    ensures (x + y) + [[]] == x + (y + [[]])
    ensures Init(x + y) + [Last(x + y) + [c]] == x + (Init(y) + [Last(y) + [c]])
  {
    assert Last(x + y) == Last(y) && Init(x + y) == x + Init(y);
  }

  lemma {:induction false} SplitConcat(x: string, y: string)
    ensures Split(x + "." + y) == Split(x) + Split(y)
    decreases |y|
  {
    SplitAppend(x, '.');
    if y == [] {
      assert x + "." + y == x + ['.'];
    } else {
      hide Split;
      var y', c := Init(y), Last(y);
      var s := x + "." + y';
      assert y == y' + [c] && x + "." + y == s + [c];
      SplitConcat(x, y');
      SplitAppend(s, c);
      SplitAppend(y', c);
      LastOfConcat(Split(x), Split(y'), c);
    }
  }

  lemma {:induction false} JoinAppend(labels: seq<string>, name: string)
    requires labels != []
    ensures Join(labels + [name]) == Join(labels) + "." + name
  {
    assert Init(labels + [name]) == labels;
  }

  /** A longer last label makes the joined text longer by the same characters. */
  lemma {:induction false} JoinGrow(labels: seq<string>, c: char)
    requires labels != []
    ensures Join(Init(labels) + [Last(labels) + [c]]) == Join(labels) + [c]
  {
    if |labels| > 1 {
      JoinAppend(Init(labels), Last(labels) + [c]);
      assert Join(Init(labels)) + "." + (Last(labels) + [c]) == Join(Init(labels)) + "." + Last(labels) + [c];
    } else {
      assert Init(labels) == [];
    }
  }

  lemma {:induction false} JoinSplit(s: string)
    ensures Join(Split(s)) == s
    decreases |s|
  {
    if s == [] {
    } else {
      var s', c := Init(s), Last(s);
      assert s == s' + [c];
      JoinSplit(s');
      SplitAppend(s', c);
      hide Split, Join;
      if c == '.' {
        JoinAppend(Split(s'), []);
        assert s' + "." + [] == s;
      } else {
        JoinGrow(Split(s'), c);
      }
    }
  }

  lemma {:induction false} JoinConcat(x: seq<string>, y: seq<string>)
    requires x != [] && y != []
    ensures Join(x + y) == Join(x) + "." + Join(y)
    decreases |y|
  {
    assert Init(x + y) == x + Init(y) && Last(x + y) == Last(y);
    if |y| == 1 {
      assert x + Init(y) == x;
    } else {
      JoinConcat(x, Init(y));
      assert Join(x) + "." + (Join(Init(y)) + "." + Last(y)) == Join(x) + "." + Join(Init(y)) + "." + Last(y);
    }
  }

  /** `labels` ends with `suffix` and has at least one label before it. */
  predicate Extends(labels: seq<string>, suffix: seq<string>) {
    |suffix| < |labels| && labels[|labels| - |suffix|..] == suffix
  }

  /** Comparing text after a dot is comparing labels. */
  lemma SuffixIsLabelwise(host: string, domain: string)
    ensures EndsWith(host, "." + domain) <==> Extends(Split(host), Split(domain))
  {
    hide Split, Join;
    if EndsWith(host, "." + domain) {
      var x := host[..|host| - |domain| - 1];
      assert host == x + "." + domain;
      SplitConcat(x, domain);
    }
    if Extends(Split(host), Split(domain)) {
      var x := Split(host)[..|Split(host)| - |Split(domain)|];
      assert Split(host) == x + Split(domain);
      JoinConcat(x, Split(domain));
      JoinSplit(host);
      JoinSplit(domain);
      assert host == Join(x) + ("." + domain);
    }
  }

  // ---------- Normalisation ----------

  predicate LabelOk(name: string) {
    && |name| <= 63
    && !StartsWith(name, "-") && !EndsWith(name, "-")
    && forall i :: 0 <= i < |name| ==> IsAlphanumeric(name[i]) || name[i] == '-'
  }

  predicate LabelsOk(labels: seq<string>) {
    forall i :: 0 <= i < |labels| ==> LabelOk(labels[i])
  }

  /** An ASCII character that no host is refused for. */
  predicate IsPlain(c: char) {
    && c as int < 128 && !IsSpace(c)
    && c != '/' && c != '\\' && c != '@' && c != '?' && c != '#' && c != '%'
  }

  predicate PlainCharacters(host: string) {
    forall i :: 0 <= i < |host| ==> IsPlain(host[i])
  }

  function NormalizeAddress(address: Option<Address>): Result<string, HostError> {
    if address.Some? && address.value.version == 6 then Success(address.value.compressed) else Failure(InvalidHost)
  }

  function NormalizeDns(p: Platform, candidate: string, wildcard: bool): Result<string, HostError> {
    match p.parseIp(candidate)
    case None =>
      if |candidate| > 253 || !LabelsOk(Split(candidate)) then Failure(InvalidHost)
      else if wildcard then Success("*." + candidate)
      else Success(candidate)
    case Some(address) => if wildcard then Failure(InvalidHost) else Success(address.compressed)
  }

  /** The name without a wildcard prefix. */
  function NormalizeCandidate(p: Platform, candidate: string, wildcard: bool): Result<string, HostError> {
    if candidate == "" || StartsWith(candidate, ".") || EndsWith(candidate, ".") || DoubleDot(candidate) then
      Failure(InvalidHost)
    else if StartsWith(candidate, "[") then
      if wildcard || !EndsWith(candidate, "]") || Occurrences(candidate, '[') != 1 then Failure(InvalidHost)
      else NormalizeAddress(p.parseIp(candidate[1..|candidate| - 1]))
    else if '[' in candidate || ']' in candidate then Failure(InvalidHost)
    else if ':' in candidate then
      if wildcard then Failure(InvalidHost) else NormalizeAddress(p.parseIp(candidate))
    else NormalizeDns(p, candidate, wildcard)
  }

  /** The part after trimming and lower-casing. */
  function NormalizeClean(p: Platform, host: string, allowWildcard: bool): Result<string, HostError> {
    var wildcard := allowWildcard && StartsWith(host, "*.");
    if host == "" then Success("")
    else if !PlainCharacters(host) then Failure(InvalidHost)
    else if host == "*" then if allowWildcard then Success(host) else Failure(InvalidHost)
    else if '*' in host && (!wildcard || Occurrences(host, '*') != 1) then Failure(InvalidHost)
    else NormalizeCandidate(p, if wildcard then host[2..] else host, wildcard)
  }

  function NormalizeHost(p: Platform, value: string, allowWildcard: bool): Result<string, HostError> {
    NormalizeClean(p, p.lower(Strip(value)), allowWildcard)
  }

  predicate AddressCharacter(c: char) {
    IsDigit(c) || 'a' <= c <= 'f' || 'A' <= c <= 'F' || c == ':' || c == '.'
  }

  /** The texts that `ip_address` parses: hexadecimal digits of either case, dots inside and never
      two in a row, and colons exactly for version 6. */
  ghost predicate AddressText(s: string, version: nat) {
    && s != ""
    && (forall i :: 0 <= i < |s| ==> AddressCharacter(s[i]))
    && (':' in s <==> version == 6)
    && !StartsWith(s, ".") && !EndsWith(s, ".") && !DoubleDot(s)
  }

  /** What `ip_address` prints for a parsed address is lower-case and parses to the same address. */
  ghost predicate Printed(p: Platform, address: Address) {
    var s := address.compressed;
    && (address.version == 4 || address.version == 6)
    && AddressText(s, address.version)
    && (forall i :: 0 <= i < |s| ==> !IsUpper(s[i]))
    && p.parseIp(s) == Some(address)
  }

  /** What is assumed of the library functions.  Scoped addresses (with `%`) need no clause, since
      such hosts are refused before parsing. */
  ghost predicate Sound(p: Platform) {
    && (forall s :: IsAscii(s) ==> p.lower(s) == AsciiLower(s))
    && (forall s :: IsAscii(p.lower(s)) ==> forall i :: 0 <= i < |p.lower(s)| ==> !IsUpper(p.lower(s)[i]))
    && (forall s :: '%' !in s && p.parseIp(s).Some? ==>
          AddressText(s, p.parseIp(s).value.version) && Printed(p, p.parseIp(s).value))
  }

  /** Trimming and lower-casing leave such a string alone. */
  ghost predicate Clean(s: string) {
    IsAscii(s) && forall i :: 0 <= i < |s| ==> !IsSpace(s[i]) && !IsUpper(s[i])
  }

  lemma CleanUnchanged(p: Platform, s: string)
    requires Sound(p) && Clean(s)
    ensures p.lower(Strip(s)) == s
  {
    assert AsciiLower(s) == s;
  }

  lemma AddressCharacterPlain(c: char)
    requires AddressCharacter(c)
    ensures IsPlain(c) && c != '*' && c != '[' && c != ']'
  {
  }

  lemma AddressTextPlain(s: string, version: nat)
    requires AddressText(s, version)
    ensures forall c :: c in s ==> IsPlain(c) && c != '*' && c != '[' && c != ']'
  {
    hide IsPlain, AddressCharacter;
    forall c | c in s ensures IsPlain(c) && c != '*' && c != '[' && c != ']' {
      AddressCharacterPlain(c);
    }
  }

  lemma PlainMarks()
    ensures IsPlain('[') && IsPlain(']') && IsPlain('*') && IsPlain('.')
  {
  }

  lemma PlainByMembers(s: string)
    requires forall c :: c in s ==> IsPlain(c)
    ensures PlainCharacters(s)
  {
    hide IsPlain;
  }

  lemma {:induction false} CleanAddress(p: Platform, address: Address, allowWildcard: bool)
    requires Sound(p) && Printed(p, address)
    ensures NormalizeHost(p, address.compressed, allowWildcard) == Success(address.compressed)
  {
    hide Strip, DoubleDot, Split, LabelsOk;
    var s := address.compressed;
    AddressTextPlain(s, address.version);
    PlainByMembers(s);
    CleanUnchanged(p, s);
    assert s[0] in s && !StartsWith(s, "*.") && !StartsWith(s, "[");
  }

  /** A result is the name itself, with its wildcard, or a printed address. */
  lemma NameOrAddress(p: Platform, candidate: string, wildcard: bool)
    requires Sound(p) && '%' !in candidate && NormalizeCandidate(p, candidate, wildcard).Success?
    ensures var r := NormalizeCandidate(p, candidate, wildcard).value;
      || r == (if wildcard then "*." + candidate else candidate)
      || exists address :: Printed(p, address) && r == address.compressed
  {
    if StartsWith(candidate, "[") {
      var literal := candidate[1..|candidate| - 1];
      assert '%' !in literal;
      assert Printed(p, p.parseIp(literal).value);
    } else if p.parseIp(candidate).Some? {
      assert Printed(p, p.parseIp(candidate).value);
    }
  }

  lemma NotHostIsAddress(p: Platform, host: string, allowWildcard: bool)
    requires Sound(p) && NormalizeClean(p, host, allowWildcard).Success?
    requires NormalizeClean(p, host, allowWildcard).value != host
    ensures exists address :: Printed(p, address) && NormalizeClean(p, host, allowWildcard).value == address.compressed
  {
    hide NormalizeCandidate, Sound, Printed;
    assert '%' !in host;
    if allowWildcard && StartsWith(host, "*.") {
      assert host == "*." + host[2..];
      NameOrAddress(p, host[2..], true);
    } else {
      NameOrAddress(p, host, false);
    }
  }

  /** Normalising twice is normalising once, on every input that is accepted. */
  lemma NormalizeIdempotent(p: Platform, value: string, allowWildcard: bool)
    requires Sound(p) && NormalizeHost(p, value, allowWildcard).Success?
    ensures var host := NormalizeHost(p, value, allowWildcard).value;
      NormalizeHost(p, host, allowWildcard) == Success(host)
  {
    var host := p.lower(Strip(value));
    var normalized := NormalizeHost(p, value, allowWildcard).value;
    if normalized == host {
      assert Clean(host);
      CleanUnchanged(p, host);
    } else {
      NotHostIsAddress(p, host, allowWildcard);
      var address :| Printed(p, address) && normalized == address.compressed;
      CleanAddress(p, address, allowWildcard);
    }
  }

  // ---------- Which names are accepted ----------

  /** Up to 63 letters, digits and inner hyphens. */
  predicate IsDnsLabel(name: string) {
    && 1 <= |name| <= 63
    && name[0] != '-' && name[|name| - 1] != '-'
    && forall i :: 0 <= i < |name| ==>
         'a' <= name[i] <= 'z' || 'A' <= name[i] <= 'Z' || '0' <= name[i] <= '9' || name[i] == '-'
  }

  /** A DNS name: at most 253 characters in such labels. */
  predicate IsDnsName(s: string) {
    |s| <= 253 && forall i :: 0 <= i < |Split(s)| ==> IsDnsLabel(Split(s)[i])
  }

  lemma DnsLabelMeaning(name: string)
    ensures IsDnsLabel(name) <==> name != "" && LabelOk(name)
  {
    if name != "" {
      assert StartsWith(name, "-") <==> name[0] == '-';
      assert EndsWith(name, "-") <==> name[|name| - 1] == '-';
    }
  }

  predicate NoEmptyLabel(labels: seq<string>) {
    forall i :: 0 <= i < |labels| ==> labels[i] != ""
  }

  /** The two ways to say it: the labels pass the code's test, and none of them is empty. */
  lemma DnsNameMeaning(s: string)
    ensures IsDnsName(s) <==> |s| <= 253 && NoEmptyLabel(Split(s)) && LabelsOk(Split(s))
  {
    hide Split, IsDnsLabel, LabelOk;
    forall i | 0 <= i < |Split(s)| ensures IsDnsLabel(Split(s)[i]) <==> Split(s)[i] != "" && LabelOk(Split(s)[i]) {
      DnsLabelMeaning(Split(s)[i]);
    }
  }

  /** The text has no empty label: no dot at either end and no two in a row. */
  predicate WellDotted(s: string) {
    s != "" && !StartsWith(s, ".") && !EndsWith(s, ".") && !DoubleDot(s)
  }

  /** A dot at the end, or none at all, decides the last label. */
  lemma {:induction false} LastLabel(s: string)
    ensures Last(Split(s)) == "" <==> s == "" || Last(s) == '.'
  {
    if s != "" {
      assert s == Init(s) + [Last(s)];
      SplitAppend(Init(s), Last(s));
      assert |Last(Init(Split(Init(s))) + [Last(Split(Init(s))) + [Last(s)]])| > 0;
    }
  }

  lemma DoubleDotAppend(s: string, c: char)
    ensures DoubleDot(s + [c]) <==> DoubleDot(s) || (c == '.' && s != "" && Last(s) == '.')
    ensures StartsWith(s + [c], ".") <==> if s == "" then c == '.' else StartsWith(s, ".")
  {
    var all := s + [c];
    assert StartsWith(all, ".") <==> all[0] == '.';
    assert s != "" ==> (StartsWith(s, ".") <==> s[0] == '.');
    if DoubleDot(s) || (c == '.' && s != "" && Last(s) == '.') {
      var i :| 0 <= i < |s| && s[i] == '.' && all[i + 1] == '.';
      assert all[i] == '.';
    }
    if DoubleDot(all) {
      var i :| 0 <= i < |all| - 1 && all[i] == '.' && all[i + 1] == '.';
      if i + 1 < |s| {
        assert s[i] == '.' && s[i + 1] == '.';
      }
    }
  }

  /** The dots before the last label are in order. */
  predicate DotsInFront(s: string) {
    s == "" || (!StartsWith(s, ".") && !DoubleDot(s))
  }

  lemma NoDots()
    ensures !DoubleDot("")
  {
  }

  lemma DotsAppend(s: string, c: char)
    ensures DotsInFront(s + [c]) <==> if c == '.' then DotsInFront(s) && s != "" && Last(s) != '.' else DotsInFront(s)
  {
    hide DoubleDot;
    DoubleDotAppend(s, c);
    NoDots();
  }

  lemma EmptyLabelAppend(labels: seq<string>, name: string)
    ensures NoEmptyLabel(labels + [name]) <==> NoEmptyLabel(labels) && name != ""
    ensures Init(labels + [name]) == labels
  {
    var all := labels + [name];
    assert all[|labels|] == name && forall i :: 0 <= i < |labels| ==> all[i] == labels[i];
  }

  lemma {:induction false} FrontLabelsAppend(s: string, c: char)
    requires NoEmptyLabel(Init(Split(s))) <==> DotsInFront(s)
    ensures NoEmptyLabel(Init(Split(s + [c]))) <==> DotsInFront(s + [c])
  {
    hide Split, DotsInFront, NoEmptyLabel;
    var labels := Split(s);
    SplitAppend(s, c);
    DotsAppend(s, c);
    LastLabel(s);
    EmptyLabelAppend(labels, []);
    EmptyLabelAppend(Init(labels), Last(labels));
    EmptyLabelAppend(Init(labels), Last(labels) + [c]);
    assert labels == Init(labels) + [Last(labels)];
  }

  lemma {:induction false} FrontLabels(s: string)
    ensures NoEmptyLabel(Init(Split(s))) <==> DotsInFront(s)
    decreases |s|
  {
    if s == [] {
    } else {
      FrontLabels(Init(s));
      assert s == Init(s) + [Last(s)];
      FrontLabelsAppend(Init(s), Last(s));
    }
  }

  /** The checks on dots say exactly that no label is empty. */
  lemma {:induction false} DotsMeanLabels(s: string)
    ensures WellDotted(s) <==> NoEmptyLabel(Split(s))
  {
    FrontLabels(s);
    LastLabel(s);
    hide Split, DoubleDot;
    var labels := Split(s);
    assert labels == Init(labels) + [Last(labels)];
    assert EndsWith(s, ".") <==> s != "" && Last(s) == '.';
  }

  /** Every character is a dot or lies in a label. */
  lemma {:induction false} LabelCharacters(s: string, c: char)
    requires c in s && c != '.'
    ensures exists i :: 0 <= i < |Split(s)| && c in Split(s)[i]
    decreases |s|
  {
    hide Split;
    var s', d := Init(s), Last(s);
    assert s == s' + [d];
    SplitAppend(s', d);
    var before, after := Split(s'), Split(s);
    if c in s' {
      LabelCharacters(s', c);
      var i :| 0 <= i < |before| && c in before[i];
      assert i < |after| && (after[i] == before[i] || after[i] == before[i] + [d]);
    } else {
      assert after[|before| - 1] == Last(before) + [c];
    }
  }

  lemma DnsCharacters(s: string, c: char)
    requires c in s && LabelsOk(Split(s))
    ensures c == '.' || c == '-' || IsAlphanumeric(c)
  {
    hide Split;
    if c != '.' {
      LabelCharacters(s, c);
      var i :| 0 <= i < |Split(s)| && c in Split(s)[i];
      assert LabelOk(Split(s)[i]);
    }
  }

  /** A name that does not parse as an address is accepted exactly when it is a DNS name. */
  lemma {:induction false} DnsAccepted(p: Platform, candidate: string, wildcard: bool)
    requires p.parseIp(candidate).None? && !StartsWith(candidate, "[")
    ensures NormalizeCandidate(p, candidate, wildcard) ==
      if IsDnsName(candidate) then Success(if wildcard then "*." + candidate else candidate) else Failure(InvalidHost)
  {
    hide Split, DoubleDot, LabelOk, IsDnsName;
    DnsNameMeaning(candidate);
    DotsMeanLabels(candidate);
    if LabelsOk(Split(candidate)) {
      forall c | c in candidate ensures c == '.' || c == '-' || IsAlphanumeric(c) {
        DnsCharacters(candidate, c);
      }
    }
  }

  lemma {:induction false} DnsNamePlain(s: string)
    requires IsDnsName(s)
    ensures forall c :: c in s ==> IsPlain(c) && c != '*' && c != '[' && c != ']' && c != ':'
  {
    hide Split, LabelOk, IsDnsName;
    DnsNameMeaning(s);
    forall c | c in s ensures IsPlain(c) && c != '*' && c != '[' && c != ']' && c != ':' {
      DnsCharacters(s, c);
    }
  }

  /** The text between brackets. */
  predicate Bracketed(s: string) {
    |s| >= 2 && s[0] == '[' && Last(s) == ']'
  }

  function Inner(s: string): string
    requires Bracketed(s)
  {
    s[1..|s| - 1]
  }

  predicate IsAddress(p: Platform, s: string) {
    '%' !in s && p.parseIp(s).Some?
  }

  /** What the checks come to: blank and `*` stay, addresses are printed, version 6 also from
      brackets, DNS names stay, with or without a wildcard, and nothing else is accepted. */
  function Canonical(p: Platform, host: string, allowWildcard: bool): Result<string, HostError> {
    if host == "" || (allowWildcard && host == "*") then Success(host)
    else if IsAddress(p, host) then Success(p.parseIp(host).value.compressed)
    else if Bracketed(host) && IsAddress(p, Inner(host)) && p.parseIp(Inner(host)).value.version == 6 then
      Success(p.parseIp(Inner(host)).value.compressed)
    else if IsDnsName(host) then Success(host)
    else if allowWildcard && StartsWith(host, "*.") && IsDnsName(host[2..]) && !IsAddress(p, host[2..]) then
      Success(host)
    else Failure(InvalidHost)
  }

  /** The candidate part of the code, by its own cases. */
  function CanonicalCandidate(p: Platform, candidate: string, wildcard: bool): Result<string, HostError> {
    if IsAddress(p, candidate) then
      if wildcard then Failure(InvalidHost) else Success(p.parseIp(candidate).value.compressed)
    else if Bracketed(candidate) && IsAddress(p, Inner(candidate))
       && p.parseIp(Inner(candidate)).value.version == 6 then
      if wildcard then Failure(InvalidHost) else Success(p.parseIp(Inner(candidate)).value.compressed)
    else if IsDnsName(candidate) then Success(if wildcard then "*." + candidate else candidate)
    else Failure(InvalidHost)
  }

  lemma {:induction false} AddressCandidate(p: Platform, candidate: string, wildcard: bool)
    requires Sound(p) && IsAddress(p, candidate)
    ensures NormalizeCandidate(p, candidate, wildcard) == CanonicalCandidate(p, candidate, wildcard)
  {
    hide IsDnsName, LabelsOk, Split, Printed, DoubleDot, Occurrences;
    var version := p.parseIp(candidate).value.version;
    assert AddressText(candidate, version);
    AddressTextPlain(candidate, version);
    assert '[' !in candidate && ']' !in candidate;
  }

  lemma BracketsPlain(s: string)
    requires Bracketed(s) && '[' !in Inner(s)
    ensures Occurrences(s, '[') == 1
    ensures DoubleDot(s) <==> DoubleDot(Inner(s))
  {
    var inner := Inner(s);
    assert s == ['['] + inner + [']'];
    assert '[' !in multiset(inner);
    if DoubleDot(s) {
      var i :| 0 <= i < |s| - 1 && s[i] == '.' && s[i + 1] == '.';
      assert inner[i - 1] == '.' && inner[i - 1 + 1] == '.';
    }
    if DoubleDot(inner) {
      var i :| 0 <= i < |inner| - 1 && inner[i] == '.' && inner[i + 1] == '.';
      assert s[i + 1] == '.' && s[i + 1 + 1] == '.';
    }
  }

  lemma {:induction false} BracketCandidate(p: Platform, candidate: string, wildcard: bool)
    requires Sound(p) && '%' !in candidate && StartsWith(candidate, "[")
    ensures NormalizeCandidate(p, candidate, wildcard) == CanonicalCandidate(p, candidate, wildcard)
  {
    hide IsDnsName, LabelsOk, Split, Printed, DoubleDot, Occurrences;
    assert candidate[0] == '[' && '[' in candidate;
    if IsDnsName(candidate) {
      DnsNamePlain(candidate);
    }
    if IsAddress(p, candidate) {
      AddressTextPlain(candidate, p.parseIp(candidate).value.version);
    }
    if Bracketed(candidate) {
      var inner := Inner(candidate);
      if IsAddress(p, inner) {
        var version := p.parseIp(inner).value.version;
        assert AddressText(inner, version);
        AddressTextPlain(inner, version);
        BracketsPlain(candidate);
      }
    }
  }

  lemma {:induction false} CandidateMeaning(p: Platform, candidate: string, wildcard: bool)
    requires Sound(p) && '%' !in candidate
    ensures NormalizeCandidate(p, candidate, wildcard) == CanonicalCandidate(p, candidate, wildcard)
  {
    hide IsDnsName, NormalizeCandidate, Sound;
    if StartsWith(candidate, "[") {
      BracketCandidate(p, candidate, wildcard);
    } else if IsAddress(p, candidate) {
      AddressCandidate(p, candidate, wildcard);
    } else {
      DnsAccepted(p, candidate, wildcard);
    }
  }

  /** A text that has a canonical form has no character that the code refuses, and a star only as
      its wildcard. */
  lemma {:induction false} CanonicalPlain(p: Platform, host: string, allowWildcard: bool)
    requires Sound(p) && host != "*" && Canonical(p, host, allowWildcard).Success?
    ensures PlainCharacters(host)
    ensures '*' in host ==> allowWildcard && StartsWith(host, "*.") && '*' !in host[2..]
  {
    hide IsDnsName, Printed, DoubleDot, IsPlain;
    if IsAddress(p, host) {
      AddressTextPlain(host, p.parseIp(host).value.version);
    } else if Bracketed(host) && IsAddress(p, Inner(host)) {
      AddressTextPlain(Inner(host), p.parseIp(Inner(host)).value.version);
      assert host == ['['] + Inner(host) + [']'];
    } else if IsDnsName(host) {
      DnsNamePlain(host);
    } else if host != "" {
      DnsNamePlain(host[2..]);
      assert host == ['*', '.'] + host[2..];
    }
    PlainMarks();
    PlainByMembers(host);
  }

  /** Without a wildcard the whole host is the candidate; with one it is what follows it. */
  lemma {:induction false} CanonicalByCandidate(p: Platform, host: string, allowWildcard: bool)
    requires Sound(p) && host != "" && host != "*"
    ensures var wildcard := allowWildcard && StartsWith(host, "*.");
      ('*' in host ==> wildcard && '*' !in host[2..]) ==>
        Canonical(p, host, allowWildcard) == CanonicalCandidate(p, if wildcard then host[2..] else host, wildcard)
  {
    hide IsDnsName, Printed, DoubleDot, IsPlain;
    if allowWildcard && StartsWith(host, "*.") {
      var candidate := host[2..];
      assert host == "*." + candidate && host[0] == '*' && host[0] in host;
      if IsAddress(p, host) {
        AddressTextPlain(host, p.parseIp(host).value.version);
      }
      if IsDnsName(host) {
        DnsNamePlain(host);
      }
      if Bracketed(candidate) && IsDnsName(candidate) {
        assert candidate[0] in candidate;
        DnsNamePlain(candidate);
      }
    }
  }

  lemma WildcardCount(host: string)
    requires StartsWith(host, "*.")
    ensures Occurrences(host, '*') == 1 <==> '*' !in host[2..]
  {
    assert host == ['*', '.'] + host[2..];
    assert '*' in host[2..] <==> '*' in multiset(host[2..]);
  }

  lemma CanonicalFails(p: Platform, host: string, allowWildcard: bool)
    ensures Canonical(p, host, allowWildcard).Failure? ==> Canonical(p, host, allowWildcard) == Failure(InvalidHost)
  {
  }

  lemma {:induction false} CanonicalBlankOrStar(p: Platform, host: string, allowWildcard: bool)
    requires Sound(p) && (host == "" || host == "*")
    ensures Canonical(p, host, allowWildcard)
         == if host == "" || allowWildcard then Success(host) else Failure(InvalidHost)
  {
    hide IsDnsName, Printed, DoubleDot, IsPlain;
    if host == "*" {
      assert '*' in host;
      if IsAddress(p, host) {
        AddressTextPlain(host, p.parseIp(host).value.version);
      }
      if IsDnsName(host) {
        DnsNamePlain(host);
      }
    }
  }

  /** Which hosts are accepted, and as what, for every input. */
  lemma {:induction false} NormalizeMeaning(p: Platform, value: string, allowWildcard: bool)
    requires Sound(p)
    ensures NormalizeHost(p, value, allowWildcard) == Canonical(p, p.lower(Strip(value)), allowWildcard)
  {
    hide IsDnsName, NormalizeCandidate, CanonicalCandidate, Canonical, Sound, Strip, Occurrences;
    var host := p.lower(Strip(value));
    var wildcard := allowWildcard && StartsWith(host, "*.");
    if host == "" || host == "*" {
      CanonicalBlankOrStar(p, host, allowWildcard);
    } else {
      if Canonical(p, host, allowWildcard).Success? {
        CanonicalPlain(p, host, allowWildcard);
      } else {
        CanonicalFails(p, host, allowWildcard);
      }
      if wildcard {
        WildcardCount(host);
      }
      if PlainCharacters(host) {
        assert '%' !in host;
        CanonicalByCandidate(p, host, allowWildcard);
        CandidateMeaning(p, if wildcard then host[2..] else host, wildcard);
      }
    }
  }

  // ---------- The configured list ----------

  /** `normalize_allowed_hosts`: normalised, without blanks and repetitions, in first-seen order. */
  function NormalizeAll(p: Platform, values: seq<string>): Result<seq<string>, HostError> {
    if values == [] then Success([])
    else match NormalizeAll(p, Init(values))
      case Failure(e) => Failure(e)
      case Success(done) =>
        match NormalizeHost(p, Last(values), true)
        case Failure(e) => Failure(e)
        case Success(host) => Success(if host == "" || host in done then done else done + [host])
  }

  lemma {:induction false} AllFails(p: Platform, values: seq<string>, n: nat)
    requires n <= |values| && NormalizeAll(p, values[..n]).Failure?
    ensures NormalizeAll(p, values) == Failure(InvalidHost)
    decreases |values|
  {
    if n == |values| {
      assert values[..n] == values;
      assert NormalizeAll(p, values).error.InvalidHost?;
    } else {
      assert Init(values)[..n] == values[..n];
      AllFails(p, Init(values), n);
    }
  }

  method NormalizeAllowedHosts(p: Platform, value: seq<string>) returns (r: Result<seq<string>, HostError>)
    ensures r == NormalizeAll(p, value)
  {
    var normalized: seq<string> := [];
    for n := 0 to |value|
      invariant NormalizeAll(p, value[..n]) == Success(normalized)
    {
      assert Init(value[..n + 1]) == value[..n];
      var host := NormalizeHost(p, value[n], true);
      if host.Failure? {
        AllFails(p, value, n + 1);
        return Failure(InvalidHost);
      }
      if host.value != "" && host.value !in normalized {
        normalized := normalized + [host.value];
      }
    }
    assert value[..|value|] == value;
    r := Success(normalized);
  }

  lemma {:induction false} AllNormal(p: Platform, values: seq<string>)
    requires Sound(p) && NormalizeAll(p, values).Success?
    ensures var hosts := NormalizeAll(p, values).value;
      Distinct(hosts)
      && forall i :: 0 <= i < |hosts| ==> hosts[i] != "" && NormalizeHost(p, hosts[i], true) == Success(hosts[i])
    decreases |values|
  {
    hide Sound, NormalizeHost;
    if values == [] {
    } else {
      AllNormal(p, Init(values));
      NormalizeIdempotent(p, Last(values), true);
    }
  }

  lemma {:induction false} NormalUnchanged(p: Platform, hosts: seq<string>)
    requires Distinct(hosts)
    requires forall i :: 0 <= i < |hosts| ==> hosts[i] != "" && NormalizeHost(p, hosts[i], true) == Success(hosts[i])
    ensures NormalizeAll(p, hosts) == Success(hosts)
    decreases |hosts|
  {
    if hosts == [] {
    } else {
      NormalUnchanged(p, Init(hosts));
      assert hosts == Init(hosts) + [Last(hosts)];
    }
  }

  /** Normalising the configured list twice changes nothing the second time. */
  lemma NormalizeAllIdempotent(p: Platform, values: seq<string>)
    requires Sound(p) && NormalizeAll(p, values).Success?
    ensures NormalizeAll(p, NormalizeAll(p, values).value) == NormalizeAll(p, values)
  {
    AllNormal(p, values);
    NormalUnchanged(p, NormalizeAll(p, values).value);
  }

  // ---------- The allow list ----------

  predicate HexLabel(name: string) {
    StartsWith(name, "0x") && |name| > 2 && forall i :: 2 <= i < |name| ==> name[i] in "0123456789abcdef"
  }

  predicate DigitLabel(name: string) {
    name != "" && forall i :: 0 <= i < |name| ==> IsDigit(name[i])
  }

  predicate HostIsIpLike(p: Platform, host: string) {
    p.parseIp(host).Some?
    || forall i :: 0 <= i < |Split(host)| ==> DigitLabel(Split(host)[i]) || HexLabel(Split(host)[i])
  }

  /** `_host_is_allowed`, entry by entry, with its early answers. */
  predicate HostIsAllowed(p: Platform, host: string, allowed: seq<string>)
    decreases |allowed|
  {
    if allowed == [] then false
    else
      var a := allowed[0];
      if a == "*" || host == a then true
      else if HostIsIpLike(p, host) then HostIsAllowed(p, host, allowed[1..])
      else if StartsWith(a, "*.") && EndsWith(host, a[1..]) then host != a[2..]
      else HostIsAllowed(p, host, allowed[1..])
  }

  /** An entry admits a host: anything, the host itself, or, for hosts that do not look like an
      address, every proper extension of the pattern's labels. */
  predicate Admits(p: Platform, a: string, host: string) {
    || a == "*"
    || a == host
    || (!HostIsIpLike(p, host) && StartsWith(a, "*.") && Extends(Split(host), Split(a[2..])))
  }

  /** The test holds exactly when some entry admits the host, label by label. */
  lemma {:induction false} AllowedMeaning(p: Platform, host: string, allowed: seq<string>)
    ensures HostIsAllowed(p, host, allowed) <==> exists a :: a in allowed && Admits(p, a, host)
    decreases |allowed|
  {
    if allowed == [] {
    } else {
      var a, rest := allowed[0], allowed[1..];
      AllowedMeaning(p, host, rest);
      if StartsWith(a, "*.") {
        assert a[1..] == "." + a[2..];
        SuffixIsLabelwise(host, a[2..]);
      }
      hide HostIsIpLike, Extends, Split;
      assert HostIsAllowed(p, host, allowed) <==> Admits(p, a, host) || HostIsAllowed(p, host, rest);
      assert forall b :: b in allowed <==> b == a || b in rest;
    }
  }

  /** A label that is a number: decimal digits, or `0x` before hexadecimal ones. */
  predicate IsNumber(name: string) {
    || (name != "" && forall i :: 0 <= i < |name| ==> '0' <= name[i] <= '9')
    || (|name| > 2 && name[0] == '0' && name[1] == 'x'
        && forall i :: 2 <= i < |name| ==> '0' <= name[i] <= '9' || 'a' <= name[i] <= 'f')
  }

  lemma HexDigit(c: char)
    ensures c in "0123456789abcdef" <==> '0' <= c <= '9' || 'a' <= c <= 'f'
  {
    var digits := "0123456789abcdef";
    if '0' <= c <= '9' {
      assert digits[c as int - '0' as int] == c;
    } else if 'a' <= c <= 'f' {
      assert digits[c as int - 'a' as int + 10] == c;
    }
  }

  lemma NumberLabels(name: string)
    ensures IsNumber(name) <==> DigitLabel(name) || HexLabel(name)
  {
    forall i | 2 <= i < |name|
      ensures name[i] in "0123456789abcdef" <==> '0' <= name[i] <= '9' || 'a' <= name[i] <= 'f'
    {
      HexDigit(name[i]);
    }
    if |name| >= 2 {
      assert StartsWith(name, "0x") <==> name[0] == '0' && name[1] == 'x';
    }
  }

  lemma IpLikeMeaning(p: Platform, host: string)
    ensures HostIsIpLike(p, host) <==>
      p.parseIp(host).Some? || forall i :: 0 <= i < |Split(host)| ==> IsNumber(Split(host)[i])
  {
    hide Split, IsNumber, DigitLabel, HexLabel;
    forall name ensures IsNumber(name) <==> DigitLabel(name) || HexLabel(name) {
      NumberLabels(name);
    }
  }

  /** A host that parses as an address or consists of numbers is allowed exactly when it is listed,
      or everything is. */
  lemma {:induction false} AddressAllowed(p: Platform, host: string, allowed: seq<string>)
    requires p.parseIp(host).Some? || forall i :: 0 <= i < |Split(host)| ==> IsNumber(Split(host)[i])
    ensures HostIsAllowed(p, host, allowed) <==> host in allowed || "*" in allowed
  {
    hide HostIsIpLike, HostIsAllowed, Split, IsNumber;
    AllowedMeaning(p, host, allowed);
    IpLikeMeaning(p, host);
  }

  /** Any other host is allowed exactly when it is listed, everything is, or its labels properly
      extend those of a domain listed after `*.`. */
  lemma {:induction false} OrdinaryAllowed(p: Platform, host: string, allowed: seq<string>)
    requires p.parseIp(host).None? && exists i :: 0 <= i < |Split(host)| && !IsNumber(Split(host)[i])
    ensures HostIsAllowed(p, host, allowed) <==>
      || host in allowed || "*" in allowed
      || exists d :: "*." + d in allowed && |Split(d)| < |Split(host)|
                     && Split(host)[|Split(host)| - |Split(d)|..] == Split(d)
  {
    hide HostIsIpLike, HostIsAllowed, Split, IsNumber;
    AllowedMeaning(p, host, allowed);
    IpLikeMeaning(p, host);
    if a :| a in allowed && Admits(p, a, host) && StartsWith(a, "*.") && a != host {
      assert a == "*." + a[2..];
    }
    if d :| "*." + d in allowed && Extends(Split(host), Split(d)) {
      assert ("*." + d)[2..] == d;
      assert Admits(p, "*." + d, host);
    }
  }

  /** The answer does not depend on the order of the list, nor on repeated entries. */
  lemma AllowedAnyOrder(p: Platform, host: string, allowed: seq<string>, other: seq<string>)
    requires forall a :: a in allowed <==> a in other
    ensures HostIsAllowed(p, host, allowed) == HostIsAllowed(p, host, other)
  {
    AllowedMeaning(p, host, allowed);
    AllowedMeaning(p, host, other);
  }
}
