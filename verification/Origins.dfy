/**
 * Allowed origins of a form: the list is put into a normal form once, and every request's host is
 * matched against it.
 */
module Origins {
  import opened Wrappers
  import opened Text

  /** What a parsed URL tells: its authority without user information, and what follows the authority. */
  datatype Url = Url(scheme: string, user: bool, host: string, path: string, query: string, fragment: string)

  predicate IsLetter(c: char) {
    'a' <= c <= 'z' || 'A' <= c <= 'Z'
  }

  predicate IsSchemeChar(c: char) {
    IsLetter(c) || IsDigit(c) || c in {'+', '-', '.'}
  }

  predicate IsHostChar(c: char) {
    IsLetter(c) || IsDigit(c) || c in {'-', '_', '.', '~', '!', '$', '&', '\'', '(', ')', '*', '+', ',', ';', '=',
        ':', '[', ']', '<', '>', '"'} || c as int >= 128
  }

  predicate IsUserChar(c: char) {
    IsLetter(c) || IsDigit(c) || c in {'-', '.', '_', ':', '~', '!', '$', '&', '\'', '(', ')', '*', '+', ',', ';',
        '=', '%', '@'}
  }

  predicate IsControl(c: char) {
    (c as int) < 32 || c as int == 127
  }

  /** Before the first colon: a scheme, or none, or an error. */
  function SchemeOf(s: string): (r: Option<(string, string)>)
    ensures r.Some? && r.value.0 == "" ==> r.value.1 == s
    ensures r.Some? && r.value.0 != "" ==> s == r.value.0 + ":" + r.value.1
  {
    var i := Index(s, ':');
    if i == |s| || (exists k {:trigger IsSchemeChar(s[k])} | 0 <= k < i :: !IsSchemeChar(s[k]))
        || (i > 0 && !IsLetter(s[0])) then Some(("", s))
    else if i == 0 then None
    else
      assert s == s[..i] + ":" + s[i + 1..];
      Some((s[..i], s[i + 1..]))
  }

  /** A colon and digits, or nothing. */
  predicate ValidOptionalPort(port: string) {
    port == "" || (port[0] == ':' && AllDigits(port[1..]))
  }

  predicate ValidAuthority(host: string) {
    && (forall k {:trigger IsHostChar(host[k])} | 0 <= k < |host| :: IsHostChar(host[k]))
    && if HasPrefix(host, "[") then LastIndex(host, ']') >= 0 && ValidOptionalPort(host[LastIndex(host, ']') + 1..])
       else LastIndex(host, ':') < 0 || ValidOptionalPort(host[LastIndex(host, ':')..])
  }

  predicate HasControl(s: string) {
    exists k {:trigger IsControl(s[k])} | 0 <= k < |s| :: IsControl(s[k])
  }

  /** url.Parse, for text without percent escapes. */
  function UrlParse(s: string): Option<Url> {
    var hash := Index(s, '#');
    var main, fragment := s[..hash], if hash < |s| then s[hash + 1..] else "";
    if HasControl(main) then None
    else if main == "*" then Some(Url("", false, "", "*", "", fragment))
    else ParseMain(main, fragment)
  }

  function ParseMain(main: string, fragment: string): Option<Url> {
    var scheme := SchemeOf(main);
    if scheme.None? then None
    else
      var rest := scheme.value.1;
      var mark := Index(rest, '?');
      ParseHierarchy(scheme.value.0, rest[..mark], if mark < |rest| then rest[mark + 1..] else "", fragment)
  }

  predicate ValidUser(user: string) {
    forall k {:trigger IsUserChar(user[k])} | 0 <= k < |user| :: IsUserChar(user[k])
  }

  /** The user information up to the last `@`, if any, and the host after it. */
  function ParseAuthority(authority: string): (r: Option<(bool, string)>)
    ensures r.Some? ==> ValidAuthority(r.value.1)
    ensures r.Some? && !r.value.0 ==> r.value.1 == authority
  {
    var at := LastIndex(authority, '@');
    if at < 0 then (if ValidAuthority(authority) then Some((false, authority)) else None)
    else if ValidAuthority(authority[at + 1..]) && ValidUser(authority[..at]) then Some((true, authority[at + 1..]))
    else None
  }

  function ParseHierarchy(scheme: string, rest: string, query: string, fragment: string): (r: Option<Url>)
    ensures r.Some? && r.value.host != "" ==> HasPrefix(rest, "//") && (scheme == "" ==> !HasPrefix(rest, "///"))
  {
    if !HasPrefix(rest, "/") && scheme != "" then Some(Url(scheme, false, "", "", query, fragment))
    else if !HasPrefix(rest, "/") && ':' in rest[..Index(rest, '/')] then None
    else if HasPrefix(rest, "//") && (scheme != "" || !HasPrefix(rest, "///")) then
      var after := rest[2..];
      var authority := ParseAuthority(after[..Index(after, '/')]);
      if authority.None? then None
      else Some(Url(scheme, authority.value.0, authority.value.1, after[Index(after, '/')..], query, fragment))
    else Some(Url(scheme, false, "", rest, query, fragment))
  }

  function WithoutPort(host: string): string {
    var colon := LastIndex(host, ':');
    if colon >= 0 && ValidOptionalPort(host[colon..]) then host[..colon] else host
  }

  function WithoutBrackets(host: string): string {
    if |host| >= 2 && host[0] == '[' && host[|host| - 1] == ']' then host[1..|host| - 1] else host
  }

  /** Without the port, and without the brackets of an address literal. */
  function Hostname(url: Url): string {
    WithoutBrackets(WithoutPort(url.host))
  }

  /**
   * What is used of net.ParseIP: literals are made of hexadecimal digits, colons and dots, and
   * case does not matter.
   */
  ghost predicate IpSyntax(ip: string -> bool) {
    && (forall s | ip(s) :: s != "" && s[0] != '.' && forall k {:trigger IsIpChar(s[k])} | 0 <= k < |s| ::
        IsIpChar(s[k]))
    && (forall s | ip(s) :: ip(Lower(s)))
  }

  predicate IsIpChar(c: char) {
    IsDigit(c) || 'a' <= c <= 'f' || 'A' <= c <= 'F' || c == ':' || c == '.'
  }

  /** originHost, for the side that stores the list. */
  function OriginHost(ip: string -> bool, value: string): Option<string> {
    if ip(value) then Some(value)
    else if Contains(value, "://") then
      var parsed := UrlParse(value);
      if parsed.None? || parsed.value.user || Hostname(parsed.value) == ""
          || Lower(parsed.value.scheme) !in {"http", "https"} then None
      else Some(Hostname(parsed.value))
    else
      var parsed := UrlParse("//" + value);
      if || parsed.None? || parsed.value.user || Hostname(parsed.value) == ""
         || parsed.value.path != "" || parsed.value.query != "" || parsed.value.fragment != "" then None
      else Some(Hostname(parsed.value))
  }

  /** normalizedHost, for the side that matches requests. */
  function NormalizedHost(ip: string -> bool, value: string): string {
    var trimmed := TrimSpace(value);
    if trimmed == "" then ""
    else if ip(trimmed) then Lower(trimmed)
    else
      var parsed := UrlParse(trimmed);
      if parsed.Some? && Hostname(parsed.value) != "" then Lower(Hostname(parsed.value))
      else
        var again := UrlParse("//" + trimmed);
        if again.Some? then Lower(Hostname(again.value)) else ""
  }

  predicate IsLabelChar(c: char) {
    IsLetter(c) || IsDigit(c) || c == '-'
  }

  predicate ValidLabel(part: string) {
    && 0 < |part| <= 63 && part[0] != '-' && part[|part| - 1] != '-'
    && forall k {:trigger IsLabelChar(part[k])} | 0 <= k < |part| :: IsLabelChar(part[k])
  }

  predicate ValidOriginHost(ip: string -> bool, host: string) {
    ip(host) || (0 < |host| <= 253 && forall k | 0 <= k < |Split(host, '.')| :: ValidLabel(Split(host, '.')[k]))
  }

  lemma SchemeNeedsLetter(s: string)
    requires s != "" && !IsLetter(s[0]) && s[0] != ':'
    ensures SchemeOf(s) == Some(("", s))
  {
    var i := Index(s, ':');
    assert i > 0 by {
      assert i < |s| ==> s[i] == ':';
    }
  }

  lemma MainNeedsSlashes(main: string, fragment: string)
    requires ParseMain(main, fragment).Some? && ParseMain(main, fragment).value.host != ""
    ensures (HasPrefix(main, "//") && !HasPrefix(main, "///"))
              || (main != "" && IsLetter(main[0]) && Contains(main, "://"))
  {
    var scheme := SchemeOf(main).value;
    PrefixBefore(scheme.1, '?', "//");
    PrefixBefore(scheme.1, '?', "///");
    assert HasPrefix(scheme.1, "//");
    if scheme.0 != "" {
      SchemeThenSlashes(main, scheme.0, scheme.1);
      SchemeStartsWithLetter(main);
    }
  }

  /** Only two slashes, at the start or after a scheme, introduce a host. */
  lemma HostNeedsSlashes(s: string)
    requires UrlParse(s).Some? && UrlParse(s).value.host != ""
    ensures (HasPrefix(s, "//") && !HasPrefix(s, "///")) || (s != "" && IsLetter(s[0]) && Contains(s, "://"))
  {
    var hash := Index(s, '#');
    MainNeedsSlashes(s[..hash], if hash < |s| then s[hash + 1..] else "");
    SlashesInPrefix(s, s[..hash]);
  }

  lemma SlashesInPrefix(s: string, main: string)
    requires main == s[..Index(s, '#')]
    requires (HasPrefix(main, "//") && !HasPrefix(main, "///"))
               || (main != "" && IsLetter(main[0]) && Contains(main, "://"))
    ensures (HasPrefix(s, "//") && !HasPrefix(s, "///")) || (s != "" && IsLetter(s[0]) && Contains(s, "://"))
  {
    if HasPrefix(main, "//") && !HasPrefix(main, "///") {
      PrefixBefore(s, '#', "//");
      PrefixBefore(s, '#', "///");
    } else {
      ContainsInPrefix(s, main, "://");
    }
  }

  lemma SchemeThenSlashes(main: string, scheme: string, rest: string)
    requires main == scheme + ":" + rest && HasPrefix(rest, "//")
    ensures Contains(main, "://")
  {
    assert main[|scheme|..] == ":" + rest;
    assert HasPrefix(main[|scheme|..], "://");
  }

  lemma ContainsInPrefix(s: string, main: string, part: string)
    requires main <= s && Contains(main, part)
    ensures Contains(s, part)
  {
    var i :| 0 <= i <= |main| && HasPrefix(main[i..], part);
    assert main[i..] <= s[i..];
  }

  lemma SchemeStartsWithLetter(main: string)
    requires SchemeOf(main).Some? && SchemeOf(main).value.0 != ""
    ensures main != "" && IsLetter(main[0])
  {
    if main != "" && main[0] != ':' && !IsLetter(main[0]) {
      SchemeNeedsLetter(main);
    }
  }

  lemma HostnameNeedsHost(url: Url)
    requires url.host == ""
    ensures Hostname(url) == ""
  {
  }

  lemma HierarchyStarts(rest: string, query: string, fragment: string)
    requires HasPrefix(rest, "//")
    requires var url := ParseHierarchy("", rest, query, fragment); url.Some? && !url.value.user && url.value.host != ""
    ensures
      var host := ParseHierarchy("", rest, query, fragment).value.host;
      host <= rest[2..] && ValidAuthority(host)
  {
  }

  lemma MainStarts(main: string, fragment: string)
    requires HasPrefix(main, "//")
    requires var url := ParseMain(main, fragment); url.Some? && !url.value.user && url.value.host != ""
    ensures
      var host := ParseMain(main, fragment).value.host;
      host <= main[2..] && ValidAuthority(host)
  {
    SchemeNeedsLetter(main);
    PrefixBefore(main, '?', "//");
    var mark := Index(main, '?');
    HierarchyStarts(main[..mark], if mark < |main| then main[mark + 1..] else "", fragment);
    assert main[..mark][2..] <= main[2..];
  }

  /** Without user information the host begins where the text after the slashes begins. */
  lemma HostStarts(e: string)
    requires var url := UrlParse("//" + e); url.Some? && !url.value.user && url.value.host != ""
    ensures UrlParse("//" + e).value.host <= e && ValidAuthority(UrlParse("//" + e).value.host)
  {
    hide ParseMain, ValidAuthority;
    var s := "//" + e;
    var hash := Index(s, '#');
    PrefixBefore(s, '#', "//");
    MainStarts(s[..hash], if hash < |s| then s[hash + 1..] else "");
    assert s[..hash][2..] <= s[2..] == e;
  }

  lemma DotStays(host: string)
    requires host != "" && host[0] == '.'
    ensures WithoutBrackets(WithoutPort(host)) != "" && WithoutBrackets(WithoutPort(host))[0] == '.'
  {
    var colon := LastIndex(host, ':');
    assert colon != 0;
  }

  lemma LeadingDotIsInvalid(ip: string -> bool, host: string)
    requires IpSyntax(ip) && host != "" && host[0] == '.'
    ensures !ValidOriginHost(ip, host)
  {
    assert host == "" + ['.'] + host[1..];
    SplitFirst("", '.', host[1..]);
    assert Split(host, '.')[0] == "";
    assert !ValidLabel(Split(host, '.')[0]);
  }

  lemma LowerIsEmpty(s: string)
    ensures Lower(s) == "" <==> s == ""
  {
  }

  /**
   * An accepted entry names a host, starts with neither a space nor a dot, and the matching side
   * reads the same host.
   */
  lemma BothSidesAgree(ip: string -> bool, e: string, host: string)
    requires IpSyntax(ip) && OriginHost(ip, e) == Some(host) && ValidOriginHost(ip, host)
    requires e == "" || !IsSpace(e[|e| - 1])
    ensures e != "" && !IsSpace(e[0]) && e[0] != '.' && host != ""
    ensures NormalizedHost(ip, e) == Lower(host)
  {
    if ip(e) {
      assert IsIpChar(e[0]);
      TrimmedStays(e);
    } else if Contains(e, "://") {
      AgreeOnUrl(ip, e, host);
    } else {
      AgreeOnHost(ip, e, host);
    }
  }

  lemma AgreeOnUrl(ip: string -> bool, e: string, host: string)
    requires !ip(e) && Contains(e, "://") && OriginHost(ip, e) == Some(host)
    requires e == "" || !IsSpace(e[|e| - 1])
    ensures e != "" && !IsSpace(e[0]) && e[0] != '.' && host != ""
    ensures NormalizedHost(ip, e) == Lower(host)
  {
    var url := UrlParse(e).value;
    if url.host == "" {
      HostnameNeedsHost(url);
    }
    HostNeedsSlashes(e);
    assert e != "" && (e[0] == '/' || IsLetter(e[0]));
    TrimmedStays(e);
  }

  /** What the storing side reads from an entry without a scheme. */
  lemma ReadWithSlashes(ip: string -> bool, e: string, host: string)
    requires !ip(e) && !Contains(e, "://") && OriginHost(ip, e) == Some(host)
    ensures
      var url := UrlParse("//" + e);
      url.Some? && !url.value.user && url.value.host != "" && host == Hostname(url.value) != ""
  {
    hide UrlParse, Contains;
    var url := UrlParse("//" + e).value;
    if url.host == "" {
      HostnameNeedsHost(url);
    }
  }

  lemma FirstOfAuthority(e: string, host: string)
    requires host != "" && host <= e && ValidAuthority(host)
    ensures e != "" && e[0] == host[0] && !IsSpace(e[0])
  {
    assert IsHostChar(host[0]);
  }

  lemma LeadsWithHostChar(ip: string -> bool, e: string, url: Url)
    requires IpSyntax(ip) && UrlParse("//" + e) == Some(url) && !url.user && url.host != ""
    requires ValidOriginHost(ip, Hostname(url))
    ensures e != "" && !IsSpace(e[0]) && e[0] != '.'
  {
    hide UrlParse, IpSyntax, ValidOriginHost, Hostname, ValidAuthority, IsSpace;
    HostStarts(e);
    FirstOfAuthority(e, url.host);
    NoLeadingDot(ip, url);
  }

  lemma NoLeadingDot(ip: string -> bool, url: Url)
    requires IpSyntax(ip) && ValidOriginHost(ip, Hostname(url))
    ensures url.host == "" || url.host[0] != '.'
  {
    hide IpSyntax, ValidOriginHost, WithoutBrackets, WithoutPort;
    if url.host != "" && url.host[0] == '.' {
      DotStays(url.host);
      LeadingDotIsInvalid(ip, Hostname(url));
    }
  }

  /** The matching side finds no host in the entry as it is, and reads it again with slashes. */
  lemma ReadAgain(ip: string -> bool, e: string, host: string)
    requires !ip(e) && TrimSpace(e) == e != "" && UrlParse("//" + e).Some?
    requires UrlParse(e).Some? ==> Hostname(UrlParse(e).value) == ""
    requires Hostname(UrlParse("//" + e).value) == host
    ensures NormalizedHost(ip, e) == Lower(host)
  {
    hide UrlParse, Hostname, TrimSpace, Lower;
  }

  lemma AgreeOnHost(ip: string -> bool, e: string, host: string)
    requires IpSyntax(ip) && !ip(e) && !Contains(e, "://") && OriginHost(ip, e) == Some(host)
               && ValidOriginHost(ip, host)
    requires e == "" || !IsSpace(e[|e| - 1])
    ensures e != "" && !IsSpace(e[0]) && e[0] != '.' && host != ""
    ensures NormalizedHost(ip, e) == Lower(host)
  {
    hide UrlParse, Hostname, OriginHost, NormalizedHost, IpSyntax, ValidOriginHost, Contains, TrimSpace, Lower;
    ReadWithSlashes(ip, e, host);
    LeadsWithHostChar(ip, e, UrlParse("//" + e).value);
    TrimmedStays(e);
    NoHostWithoutColonSlashes(e);
    ReadAgain(ip, e, host);
  }

  lemma NoHostWithoutColonSlashes(e: string)
    requires !Contains(e, "://") && UrlParse("//" + e).Some? && UrlParse("//" + e).value.host != ""
    ensures UrlParse(e).Some? ==> Hostname(UrlParse(e).value) == ""
  {
    if UrlParse(e).Some? && UrlParse(e).value.host != "" {
      HostNeedsSlashes(e);
      HostNeedsSlashes("//" + e);
      assert HasPrefix("//" + e, "///");
    }
  }

  /** A host name made of labels. */
  ghost predicate PlainHost(host: string) {
    host != "" && AllIn(host, c => IsLabelChar(c) || c == '.')
  }

  lemma LabelsArePlain(ip: string -> bool, host: string)
    requires ValidOriginHost(ip, host) && !ip(host)
    ensures PlainHost(host)
  {
    var chars := c => IsLabelChar(c) || c == '.';
    forall k | 0 <= k < |Split(host, '.')| ensures AllIn(Split(host, '.')[k], chars) {
      var part := Split(host, '.')[k];
      assert ValidLabel(part);
      forall i | 0 <= i < |part| ensures chars(part[i]) {
        assert IsLabelChar(part[i]);
      }
    }
    CharsOfParts(host, '.', chars);
  }

  lemma PlainHasNo(host: string, c: char)
    requires PlainHost(host) && !IsLabelChar(c) && c != '.'
    ensures c !in host && Index(host, c) == |host| && LastIndex(host, c) == -1
  {
  }

  lemma PlainAuthority(host: string)
    requires PlainHost(host)
    ensures ParseAuthority(host) == Some((false, host)) && WithoutBrackets(WithoutPort(host)) == host
  {
    PlainHasNo(host, '@');
    PlainHasNo(host, ':');
    PlainHasNo(host, '[');
    assert host[0] != '[';
    forall k | 0 <= k < |host| ensures IsHostChar(host[k]) {
    }
  }

  lemma PlainHierarchy(host: string)
    requires PlainHost(host)
    ensures ParseHierarchy("", "//" + host, "", "") == Some(Url("", false, host, "", "", ""))
  {
    var rest := "//" + host;
    PlainHasNo(host, '/');
    assert rest[2..] == host && rest[2] == host[0] != '/';
    assert host[..|host|] == host && host[|host|..] == "";
    PlainAuthority(host);
  }

  lemma SlashedHasNo(host: string, c: char)
    requires PlainHost(host) && !IsLabelChar(c) && c != '.' && c != '/'
    ensures Index("//" + host, c) == |host| + 2
  {
    var s := "//" + host;
    assert forall k | 0 <= k < |host| :: s[k + 2] == host[k];
    assert forall k | 0 <= k < |s| :: s[k] == '/' || s[k] == host[k - 2];
  }

  lemma PlainParses(host: string)
    requires PlainHost(host)
    ensures UrlParse("//" + host) == Some(Url("", false, host, "", "", ""))
  {
    var s := "//" + host;
    SlashedHasNo(host, '#');
    SlashedHasNo(host, '?');
    assert s[..|s|] == s && s != "*";
    assert !HasControl(s) by {
      forall k | 0 <= k < |s| ensures !IsControl(s[k]) {
        assert s[k] == '/' || s[k] == host[k - 2];
      }
    }
    SchemeNeedsLetter(s);
    PlainHierarchy(host);
  }

  lemma PlainHasNoSchemeMark(host: string)
    requires PlainHost(host)
    ensures !Contains(host, "://")
  {
    if Contains(host, "://") {
      var i :| 0 <= i <= |host| && HasPrefix(host[i..], "://");
      assert host[i] == host[i..][0] == ':';
      PlainHasNo(host, ':');
    }
  }

  /** A plain host is its own origin host. */
  lemma PlainIsItsOwn(ip: string -> bool, host: string)
    requires PlainHost(host)
    ensures OriginHost(ip, host) == Some(host)
  {
    PlainHasNoSchemeMark(host);
    PlainParses(host);
    PlainAuthority(host);
  }

  lemma LowerLabelIsValid(part: string)
    requires ValidLabel(part)
    ensures ValidLabel(Lower(part))
  {
    forall k | 0 <= k < |part| ensures IsLabelChar(Lower(part)[k]) {
      assert IsLabelChar(part[k]);
    }
  }

  lemma LowerIsValid(ip: string -> bool, host: string)
    requires IpSyntax(ip) && ValidOriginHost(ip, host)
    ensures ValidOriginHost(ip, Lower(host))
  {
    if !ip(host) {
      LowerSplit(host, '.');
      forall k | 0 <= k < |Split(Lower(host), '.')| ensures ValidLabel(Split(Lower(host), '.')[k]) {
        LowerLabelIsValid(Split(host, '.')[k]);
      }
    }
  }

  predicate IsNameChar(c: char) {
    IsLabelChar(c) || c == '.' || c == ':'
  }

  lemma HostChars(ip: string -> bool, host: string)
    requires IpSyntax(ip) && ValidOriginHost(ip, host)
    ensures host != "" && forall k {:trigger host[k]} | 0 <= k < |host| :: IsNameChar(host[k])
  {
    if ip(host) {
      forall k | 0 <= k < |host| ensures IsNameChar(host[k]) {
        assert IsIpChar(host[k]);
      }
    } else {
      LabelsArePlain(ip, host);
    }
  }

  lemma ValidIsItsOwn(ip: string -> bool, host: string)
    requires ValidOriginHost(ip, host)
    ensures OriginHost(ip, host) == Some(host)
  {
    if !ip(host) {
      LabelsArePlain(ip, host);
      PlainIsItsOwn(ip, host);
    }
  }

  /** An entry in normal form. */
  datatype Entry = Entry(wildcard: bool, host: string)

  function Render(entry: Entry): string {
    (if entry.wildcard then "*." else "") + entry.host
  }

  /** What one trimmed entry other than `*` is normalised to, if it is acceptable. */
  function Canonical(ip: string -> bool, entry: string): Option<Entry> {
    var wildcard := HasPrefix(entry, "*.");
    var rest := TrimPrefix(entry, "*.");
    if entry == "" || '*' in rest then None
    else
      var host := OriginHost(ip, rest);
      if host.None? || !ValidOriginHost(ip, host.value) then None else Some(Entry(wildcard, Lower(host.value)))
  }

  predicate MatchesHost(host: string, allowed: string) {
    host == allowed || HasSuffix(host, "." + allowed)
  }

  /** originMatches. */
  predicate OriginMatches(ip: string -> bool, host: string, entry: string) {
    var trimmed := TrimSpace(entry);
    trimmed == "*" ||
    var allowed := NormalizedHost(ip, TrimPrefix(TrimPrefix(trimmed, "*."), "."));
    allowed != "" && MatchesHost(host, allowed)
  }

  lemma StrippedAgrees(ip: string -> bool, rest: string)
    requires IpSyntax(ip) && OriginHost(ip, rest).Some? && ValidOriginHost(ip, OriginHost(ip, rest).value)
    requires rest == "" || !IsSpace(rest[|rest| - 1])
    ensures NormalizedHost(ip, TrimPrefix(rest, ".")) == Lower(OriginHost(ip, rest).value) != ""
  {
    var found := OriginHost(ip, rest).value;
    BothSidesAgree(ip, rest, found);
    assert !HasPrefix(rest, ".") && TrimPrefix(rest, ".") == rest;
    LowerIsEmpty(found);
  }

  lemma StripKeepsEnd(entry: string)
    requires entry == "" || !IsSpace(entry[|entry| - 1])
    ensures var rest := TrimPrefix(entry, "*."); rest == "" || !IsSpace(rest[|rest| - 1])
  {
  }

  /** An accepted entry matches exactly the hosts its normal form names. */
  lemma MatchesItsNormalForm(ip: string -> bool, host: string, raw: string)
    requires IpSyntax(ip) && TrimSpace(raw) != "*" && Canonical(ip, TrimSpace(raw)).Some?
    ensures OriginMatches(ip, host, raw) <==> MatchesHost(host, Canonical(ip, TrimSpace(raw)).value.host)
    ensures Canonical(ip, TrimSpace(raw)).value.host != ""
  {
    StripKeepsEnd(TrimSpace(raw));
    StrippedAgrees(ip, TrimPrefix(TrimSpace(raw), "*."));
  }

  /** Entries in normal form. */
  ghost predicate IsNormal(ip: string -> bool, entry: Entry) {
    ValidOriginHost(ip, entry.host) && Lower(entry.host) == entry.host
  }

  lemma CanonicalIsNormal(ip: string -> bool, raw: string)
    requires IpSyntax(ip) && Canonical(ip, raw).Some?
    ensures IsNormal(ip, Canonical(ip, raw).value)
  {
    var host := OriginHost(ip, TrimPrefix(raw, "*.")).value;
    LowerIsValid(ip, host);
    LowerTwice(host);
  }

  lemma RenderedChars(ip: string -> bool, entry: Entry)
    requires IpSyntax(ip) && IsNormal(ip, entry)
    ensures
      var s := Render(entry);
      && entry.host != "" && ',' !in s && '*' !in entry.host && s != "*" && !HasPrefix(entry.host, "*.")
      && !IsSpace(s[0]) && !IsSpace(s[|s| - 1])
  {
    HostChars(ip, entry.host);
    var s := Render(entry);
    assert IsNameChar(entry.host[0]) && IsNameChar(entry.host[|entry.host| - 1]);
    assert s[|s| - 1] == entry.host[|entry.host| - 1];
    assert s[0] == if entry.wildcard then '*' else entry.host[0];
    assert forall k | 0 <= k < |s| :: s[k] == '*' || s[k] == '.' || IsNameChar(s[k]);
  }

  /** Normalising a normal form changes nothing. */
  lemma NormalStays(ip: string -> bool, entry: Entry)
    requires IpSyntax(ip) && IsNormal(ip, entry)
    ensures TrimSpace(Render(entry)) == Render(entry) && TrimSpace(" " + Render(entry)) == Render(entry)
    ensures Canonical(ip, Render(entry)) == Some(entry)
  {
    hide OriginHost, ValidOriginHost, TrimSpace, Lower;
    RenderedChars(ip, entry);
    TrimmedStays(Render(entry));
    TrimAfterSpace(Render(entry));
    ValidIsItsOwn(ip, entry.host);
    RenderedStrips(entry);
  }

  lemma RenderedStrips(entry: Entry)
    requires entry.host != "" && !HasPrefix(entry.host, "*.")
    ensures TrimPrefix(Render(entry), "*.") == entry.host && HasPrefix(Render(entry), "*.") == entry.wildcard
  {
    if entry.wildcard {
      assert Render(entry)[2..] == entry.host;
    } else {
      assert Render(entry) == entry.host;
    }
  }

  /** What an entry of a list is found to be. */
  datatype Verdict = Star | Bad | Good(entry: Entry)

  function Judge(ip: string -> bool, entry: string): Verdict {
    var trimmed := TrimSpace(entry);
    if trimmed == "*" then Star
    else
      var canonical := Canonical(ip, trimmed);
      if canonical.None? then Bad else Good(canonical.value)
  }

  function Judged(ip: string -> bool, entries: seq<string>): (r: seq<Verdict>)
    ensures |r| == |entries|
  {
    seq(|entries|, k requires 0 <= k < |entries| => Judge(ip, entries[k]))
  }

  /** What becomes of a whole list: the first `*` or the first bad entry decides, and repeated hosts are dropped. */
  datatype Outcome = Rejected | Everything | Hosts(list: seq<Entry>)

  function Step(before: Outcome, verdict: Verdict): Outcome {
    if !before.Hosts? then before
    else
      match verdict
      case Star => Everything
      case Bad => Rejected
      case Good(entry) => if entry in before.list then before else Hosts(before.list + [entry])
  }

  function Collect(verdicts: seq<Verdict>): Outcome {
    if verdicts == [] then Hosts([]) else Step(Collect(verdicts[..|verdicts| - 1]), verdicts[|verdicts| - 1])
  }

  lemma CollectAppend(verdicts: seq<Verdict>, verdict: Verdict)
    ensures Collect(verdicts + [verdict]) == Step(Collect(verdicts), verdict)
  {
    assert (verdicts + [verdict])[..|verdicts|] == verdicts;
  }

  ghost predicate Distinct(list: seq<Entry>) {
    forall j, k | 0 <= j < k < |list| :: list[j] != list[k]
  }

  /** With neither a bad entry nor a `*` the collected list holds exactly the entries there are, each once. */
  lemma {:induction false} CollectedHosts(verdicts: seq<Verdict>)
    ensures Collect(verdicts).Hosts? <==> forall k | 0 <= k < |verdicts| :: verdicts[k].Good?
    ensures Collect(verdicts).Hosts? ==>
              && Distinct(Collect(verdicts).list)
              && (forall k | 0 <= k < |verdicts| :: verdicts[k].entry in Collect(verdicts).list)
              && (forall c | c in Collect(verdicts).list :: Good(c) in verdicts)
              && (verdicts != [] ==> Collect(verdicts).list != [])
  {
    if verdicts != [] {
      var front, last := verdicts[..|verdicts| - 1], verdicts[|verdicts| - 1];
      CollectedHosts(front);
      assert verdicts == front + [last];
      if Collect(verdicts).Hosts? {
        assert forall c | c in Collect(verdicts).list :: c in Collect(front).list || Good(c) == last;
      }
    }
  }

  /** A list is rejected exactly for a bad entry that no `*` comes before. */
  lemma {:induction false} RejectedExactlyWhen(verdicts: seq<Verdict>)
    ensures Collect(verdicts).Rejected? <==>
              exists k | 0 <= k < |verdicts| :: verdicts[k].Bad? && forall j | 0 <= j < k :: verdicts[j].Good?
    ensures Collect(verdicts).Everything? <==>
              exists k | 0 <= k < |verdicts| :: verdicts[k].Star? && forall j | 0 <= j < k :: verdicts[j].Good?
  {
    if verdicts != [] {
      var front, last := verdicts[..|verdicts| - 1], verdicts[|verdicts| - 1];
      RejectedExactlyWhen(front);
      CollectedHosts(front);
      assert forall k | 0 <= k < |front| :: front[k] == verdicts[k];
      if Collect(front).Hosts? {
        assert forall j | 0 <= j < |front| :: verdicts[j].Good?;
      }
    }
  }

  /** A list without repetitions is collected as it is. */
  lemma {:induction false} CollectDistinct(verdicts: seq<Verdict>, list: seq<Entry>)
    requires |verdicts| == |list| && Distinct(list) && forall k | 0 <= k < |list| :: verdicts[k] == Good(list[k])
    ensures Collect(verdicts) == Hosts(list)
  {
    if list != [] {
      var n := |list| - 1;
      CollectDistinct(verdicts[..n], list[..n]);
      assert list[n] !in list[..n];
      assert list[..n] + [list[n]] == list;
    }
  }

  function Rendered(list: seq<Entry>): (r: seq<string>)
    ensures |r| == |list|
  {
    seq(|list|, k requires 0 <= k < |list| => Render(list[k]))
  }

  /** normalizeAllowedOrigins. */
  function Normalized(ip: string -> bool, value: string): Option<string> {
    match Collect(Judged(ip, Split(value, ',')))
    case Rejected => None
    case Everything => Some("*")
    case Hosts(list) => Some(if list == [] then "" else Join(Rendered(list), ", "))
  }

  predicate HasStar(entries: seq<string>) {
    exists k | 0 <= k < |entries| :: TrimSpace(entries[k]) == "*"
  }

  predicate MatchesAny(ip: string -> bool, host: string, entries: seq<string>) {
    exists k | 0 <= k < |entries| :: OriginMatches(ip, host, entries[k])
  }

  /** Form.IsOriginAllowed. */
  predicate IsOriginAllowed(ip: string -> bool, origins: string, host: string) {
    var allowed := TrimSpace(origins);
    allowed != "" &&
    var entries := Split(allowed, ',');
    HasStar(entries) || (NormalizedHost(ip, host) != "" && MatchesAny(ip, NormalizedHost(ip, host), entries))
  }

  predicate NamesOneOf(list: seq<Entry>, host: string) {
    exists c | c in list :: MatchesHost(host, c.host)
  }

  ghost predicate AllNormal(ip: string -> bool, list: seq<Entry>) {
    forall c | c in list :: IsNormal(ip, c)
  }

  lemma GoodIsNormal(ip: string -> bool, entry: string)
    requires IpSyntax(ip) && Judge(ip, entry).Good?
    ensures IsNormal(ip, Judge(ip, entry).entry)
  {
    CanonicalIsNormal(ip, TrimSpace(entry));
  }

  lemma GoodMatches(ip: string -> bool, host: string, entry: string)
    requires IpSyntax(ip) && Judge(ip, entry).Good?
    ensures OriginMatches(ip, host, entry) <==> MatchesHost(host, Judge(ip, entry).entry.host)
    ensures TrimSpace(entry) != "*"
  {
    MatchesItsNormalForm(ip, host, entry);
  }

  lemma NormalIsGood(ip: string -> bool, entry: Entry, text: string)
    requires IpSyntax(ip) && IsNormal(ip, entry) && (text == Render(entry) || text == " " + Render(entry))
    ensures Judge(ip, text) == Good(entry)
  {
    NormalStays(ip, entry);
    RenderedChars(ip, entry);
  }

  lemma CollectedIsNormal(ip: string -> bool, entries: seq<string>)
    requires IpSyntax(ip) && Collect(Judged(ip, entries)).Hosts?
    ensures AllNormal(ip, Collect(Judged(ip, entries)).list)
  {
    var verdicts := Judged(ip, entries);
    CollectedHosts(verdicts);
    forall c | c in Collect(verdicts).list ensures IsNormal(ip, c) {
      var k :| 0 <= k < |verdicts| && verdicts[k] == Good(c);
      GoodIsNormal(ip, entries[k]);
    }
  }

  lemma CollectedHasNoStar(ip: string -> bool, entries: seq<string>)
    requires Collect(Judged(ip, entries)).Hosts?
    ensures !HasStar(entries)
  {
    CollectedHosts(Judged(ip, entries));
    forall k | 0 <= k < |entries| ensures TrimSpace(entries[k]) != "*" {
      assert Judged(ip, entries)[k].Good?;
    }
  }

  lemma MatchIsNamed(ip: string -> bool, entries: seq<string>, host: string, k: nat) returns (c: Entry)
    requires IpSyntax(ip) && Collect(Judged(ip, entries)).Hosts? && k < |entries| && OriginMatches(ip, host, entries[k])
    ensures c in Collect(Judged(ip, entries)).list && MatchesHost(host, c.host)
  {
    var verdicts := Judged(ip, entries);
    CollectedHosts(verdicts);
    c := verdicts[k].entry;
    assert Judge(ip, entries[k]) == Good(c);
    GoodMatches(ip, host, entries[k]);
  }

  lemma NameMatches(ip: string -> bool, entries: seq<string>, host: string, c: Entry) returns (k: nat)
    requires IpSyntax(ip) && Collect(Judged(ip, entries)).Hosts?
    requires c in Collect(Judged(ip, entries)).list && MatchesHost(host, c.host)
    ensures k < |entries| && OriginMatches(ip, host, entries[k])
  {
    CollectedHosts(Judged(ip, entries));
    k :| 0 <= k < |entries| && Judged(ip, entries)[k] == Good(c);
    GoodMatches(ip, host, entries[k]);
  }

  /** The collected hosts name exactly what the entries match. */
  lemma CollectedMatches(ip: string -> bool, entries: seq<string>, host: string)
    requires IpSyntax(ip) && Collect(Judged(ip, entries)).Hosts?
    ensures MatchesAny(ip, host, entries) <==> NamesOneOf(Collect(Judged(ip, entries)).list, host)
  {
    if k :| 0 <= k < |entries| && OriginMatches(ip, host, entries[k]) {
      var c := MatchIsNamed(ip, entries, host, k);
    } else if c :| c in Collect(Judged(ip, entries)).list && MatchesHost(host, c.host) {
      var k := NameMatches(ip, entries, host, c);
    }
  }

  lemma RenderedParts(ip: string -> bool, list: seq<Entry>, k: nat)
    requires IpSyntax(ip) && AllNormal(ip, list) && k < |list|
    ensures var part := Rendered(list)[k]; ',' !in part && part != "" && !IsSpace(part[0]) && !IsSpace(part[|part| - 1])
  {
    RenderedChars(ip, list[k]);
  }

  lemma JoinedIsTrimmed(ip: string -> bool, list: seq<Entry>)
    requires IpSyntax(ip) && AllNormal(ip, list) && list != []
    ensures var text := Join(Rendered(list), ", "); text != "" && TrimSpace(text) == text
  {
    forall k | 0 <= k < |list| ensures Rendered(list)[k] != "" {
      RenderedParts(ip, list, k);
    }
    JoinEnds(Rendered(list), ", ");
    RenderedParts(ip, list, 0);
    RenderedParts(ip, list, |list| - 1);
    TrimmedStays(Join(Rendered(list), ", "));
  }

  lemma JoinedSplits(ip: string -> bool, list: seq<Entry>)
    requires IpSyntax(ip) && AllNormal(ip, list) && list != []
    ensures Split(Join(Rendered(list), ", "), ',') == Spaced(Rendered(list))
  {
    forall k | 0 <= k < |list| ensures ',' !in Rendered(list)[k] {
      RenderedParts(ip, list, k);
    }
    SplitOfWholeJoin(Rendered(list));
  }

  /** A list in normal form reads back as itself. */
  lemma ReadsBack(ip: string -> bool, list: seq<Entry>)
    requires IpSyntax(ip) && AllNormal(ip, list) && Distinct(list) && list != []
    ensures Collect(Judged(ip, Split(Join(Rendered(list), ", "), ','))) == Hosts(list)
  {
    JoinedSplits(ip, list);
    var entries := Spaced(Rendered(list));
    forall k | 0 <= k < |list| ensures Judged(ip, entries)[k] == Good(list[k]) {
      assert list[k] in list;
      NormalIsGood(ip, list[k], entries[k]);
    }
    CollectDistinct(Judged(ip, entries), list);
  }

  lemma StarIsStar(ip: string -> bool, entry: string)
    requires TrimSpace(entry) == "*"
    ensures Judge(ip, entry) == Star
  {
  }

  lemma JudgedOne(ip: string -> bool, entry: string)
    ensures Judged(ip, [entry]) == [Judge(ip, entry)]
  {
  }

  lemma CollectOne(verdict: Verdict)
    ensures Collect([verdict]) == Step(Hosts([]), verdict)
  {
    CollectAppend([], verdict);
    assert [] + [verdict] == [verdict];
  }

  lemma StarReadsBack(ip: string -> bool)
    ensures TrimSpace("*") == "*" && Collect(Judged(ip, Split("*", ','))) == Everything
  {
    hide Judge, Canonical;
    SplitWhole("*", ',');
    TrimmedStays("*");
    StarIsStar(ip, "*");
    JudgedOne(ip, "*");
    CollectOne(Star);
  }

  /** Normalising an accepted list once more changes nothing. */
  lemma NormalizingIsIdempotent(ip: string -> bool, value: string)
    requires IpSyntax(ip) && Normalized(ip, value).Some?
    ensures Normalized(ip, Normalized(ip, value).value) == Normalized(ip, value)
  {
    hide Judge, Canonical;
    var verdicts := Judged(ip, Split(value, ','));
    if Collect(verdicts).Everything? {
      StarReadsBack(ip);
    } else {
      CollectedHosts(verdicts);
      CollectedIsNormal(ip, Split(value, ','));
      ReadsBack(ip, Collect(verdicts).list);
    }
  }

  lemma EmptyIsBad(ip: string -> bool)
    ensures Judge(ip, "") == Bad
  {
  }

  lemma EmptyIsRejected(ip: string -> bool)
    ensures Collect(Judged(ip, Split("", ','))) == Rejected
  {
    hide Judge, Canonical;
    SplitWhole("", ',');
    EmptyIsBad(ip);
    JudgedOne(ip, "");
    CollectOne(Bad);
  }

  lemma StarIsThere(ip: string -> bool, entries: seq<string>)
    requires Collect(Judged(ip, entries)).Everything?
    ensures HasStar(entries)
  {
    RejectedExactlyWhen(Judged(ip, entries));
    var k :| 0 <= k < |entries| && Judged(ip, entries)[k].Star?;
    assert Judge(ip, entries[k]).Star?;
  }

  lemma StarAllowsAll(ip: string -> bool, value: string, host: string)
    requires Collect(Judged(ip, Split(TrimSpace(value), ','))).Everything?
    ensures IsOriginAllowed(ip, value, host)
  {
    EmptyIsRejected(ip);
    StarIsThere(ip, Split(TrimSpace(value), ','));
  }

  lemma HostsAllow(ip: string -> bool, value: string, list: seq<Entry>, host: string)
    requires IpSyntax(ip) && Collect(Judged(ip, Split(TrimSpace(value), ','))) == Hosts(list)
    ensures IsOriginAllowed(ip, value, host) <==>
              NormalizedHost(ip, host) != "" && NamesOneOf(list, NormalizedHost(ip, host))
  {
    EmptyIsRejected(ip);
    CollectedHasNoStar(ip, Split(TrimSpace(value), ','));
    CollectedMatches(ip, Split(TrimSpace(value), ','), NormalizedHost(ip, host));
  }

  lemma JoinedAllows(ip: string -> bool, list: seq<Entry>, host: string)
    requires IpSyntax(ip) && AllNormal(ip, list) && Distinct(list) && list != []
    ensures IsOriginAllowed(ip, Join(Rendered(list), ", "), host) <==>
              NormalizedHost(ip, host) != "" && NamesOneOf(list, NormalizedHost(ip, host))
  {
    hide Judge, Canonical;
    ReadsBack(ip, list);
    JoinedIsTrimmed(ip, list);
    HostsAllow(ip, Join(Rendered(list), ", "), list, host);
  }

  lemma StarKeepsTheHosts(ip: string -> bool, value: string, host: string)
    requires Collect(Judged(ip, Split(TrimSpace(value), ','))) == Everything
    ensures IsOriginAllowed(ip, "*", host) && IsOriginAllowed(ip, value, host)
  {
    hide Judge, Canonical, IsOriginAllowed, Collect, Judged, Split, TrimSpace;
    StarReadsBack(ip);
    StarAllowsAll(ip, value, host);
    StarAllowsAll(ip, "*", host);
  }

  lemma ListKeepsTheHosts(ip: string -> bool, value: string, list: seq<Entry>, host: string)
    requires IpSyntax(ip) && Collect(Judged(ip, Split(TrimSpace(value), ','))) == Hosts(list)
    ensures list != []
    ensures IsOriginAllowed(ip, Join(Rendered(list), ", "), host) <==> IsOriginAllowed(ip, value, host)
  {
    hide Judge, Canonical, Collect, TrimSpace, OriginHost;
    CollectNone();
    var entries := Split(TrimSpace(value), ',');
    CollectedHosts(Judged(ip, entries));
    CollectedIsNormal(ip, entries);
    HostsAllow(ip, value, list, host);
    JoinedAllows(ip, list, host);
  }

  /** The stored list allows exactly the hosts that the accepted list, as it was typed, allows. */
  lemma NormalizingKeepsTheHosts(ip: string -> bool, value: string, host: string)
    requires IpSyntax(ip) && Normalized(ip, TrimSpace(value)).Some?
    ensures IsOriginAllowed(ip, Normalized(ip, TrimSpace(value)).value, host) <==> IsOriginAllowed(ip, value, host)
  {
    hide Judge, Canonical, IsOriginAllowed;
    var outcome := Collect(Judged(ip, Split(TrimSpace(value), ',')));
    if outcome.Everything? {
      StarKeepsTheHosts(ip, value, host);
    } else {
      ListKeepsTheHosts(ip, value, outcome.list, host);
    }
  }

  /** A host matches an allowed one exactly when its labels end in the allowed one's labels. */
  lemma MatchesExactlyBySuffixOfLabels(host: string, allowed: string)
    ensures MatchesHost(host, allowed) <==> EndsInParts(Split(host, '.'), Split(allowed, '.'))
  {
    SuffixOfParts(host, allowed, '.');
  }

  /** A label of a host name: letters, digits and inner hyphens, at most 63 of them. */
  ghost predicate HostLabel(part: string) {
    && 1 <= |part| <= 63 && part[0] != '-' && part[|part| - 1] != '-'
    && forall k {:trigger part[k]} | 0 <= k < |part| ::
         'a' <= part[k] <= 'z' || 'A' <= part[k] <= 'Z' || '0' <= part[k] <= '9' || part[k] == '-'
  }

  /** A host name of at most 253 characters: such labels with dots between them. */
  ghost predicate IsHostName(host: string, labels: seq<string>) {
    && |host| <= 253 && |labels| >= 1 && host == Join(labels, ".")
    && forall k | 0 <= k < |labels| :: HostLabel(labels[k])
  }

  lemma LabelIsValid(part: string)
    ensures HostLabel(part) <==> ValidLabel(part)
    ensures HostLabel(part) ==> '.' !in part
  {
    if ValidLabel(part) {
      assert forall k | 0 <= k < |part| :: IsLabelChar(part[k]);
    }
  }

  lemma {:induction false} SplitOfLabels(labels: seq<string>)
    requires |labels| >= 1 && forall k | 0 <= k < |labels| :: '.' !in labels[k]
    ensures Split(Join(labels, "."), '.') == labels && |Join(labels, ".")| >= |labels[0]|
  {
    if |labels| == 1 {
      SplitWhole(labels[0], '.');
    } else {
      SplitOfLabels(labels[1..]);
      SplitFirst(labels[0], '.', Join(labels[1..], "."));
      assert [labels[0]] + labels[1..] == labels;
    }
  }

  /** But for addresses, the hosts that are accepted are exactly the host names. */
  lemma ValidExactlyWhenHostName(ip: string -> bool, host: string)
    requires !ip(host)
    ensures ValidOriginHost(ip, host) <==> exists labels :: IsHostName(host, labels)
  {
    if ValidOriginHost(ip, host) {
      JoinOfSplit(host, '.');
      forall k | 0 <= k < |Split(host, '.')| ensures HostLabel(Split(host, '.')[k]) {
        LabelIsValid(Split(host, '.')[k]);
      }
      assert IsHostName(host, Split(host, '.'));
    }
    if labels :| IsHostName(host, labels) {
      HostNameIsValid(ip, host, labels);
    }
  }

  lemma HostNameIsValid(ip: string -> bool, host: string, labels: seq<string>)
    requires IsHostName(host, labels)
    ensures ValidOriginHost(ip, host)
  {
    forall k | 0 <= k < |labels| ensures ValidLabel(labels[k]) && '.' !in labels[k] {
      LabelIsValid(labels[k]);
    }
    SplitOfLabels(labels);
  }

  /** The text of a valid host: nothing in it is trimmed, stripped, split or read as a wildcard. */
  lemma ValidText(ip: string -> bool, host: string)
    requires IpSyntax(ip) && ValidOriginHost(ip, host)
    ensures host != "" && ',' !in host && '*' !in host && TrimSpace(host) == host
    ensures host[0] != '.' && !IsSpace(host[0]) && !IsSpace(host[|host| - 1])
  {
    HostChars(ip, host);
    assert IsNameChar(host[0]) && IsNameChar(host[|host| - 1]);
    TrimmedStays(host);
    if host[0] == '.' {
      LeadingDotIsInvalid(ip, host);
    }
  }

  lemma ValidReadsAsItself(ip: string -> bool, host: string)
    requires IpSyntax(ip) && ValidOriginHost(ip, host)
    ensures NormalizedHost(ip, host) == Lower(host) != ""
  {
    hide NormalizedHost, OriginHost, ValidOriginHost, IpSyntax, TrimSpace;
    ValidText(ip, host);
    ValidIsItsOwn(ip, host);
    BothSidesAgree(ip, host, host);
    LowerIsEmpty(host);
  }

  lemma EntryStrips(host: string, wildcard: bool)
    requires host != "" && '*' !in host && !IsSpace(host[0]) && !IsSpace(host[|host| - 1])
    ensures
      var entry := Render(Entry(wildcard, host));
      && TrimSpace(entry) == entry && entry != "" && entry != "*"
      && TrimPrefix(entry, "*.") == host && HasPrefix(entry, "*.") == wildcard
  {
    hide TrimSpace, TrimPrefix;
    var entry := Render(Entry(wildcard, host));
    assert entry[|entry| - 1] == host[|host| - 1] && entry[0] == if wildcard then '*' else host[0];
    TrimmedStays(entry);
    RenderedStrips(Entry(wildcard, host));
  }

  /** So every host name can be listed, with or without the wildcard, and is kept in lower case. */
  lemma HostNamesAreAccepted(ip: string -> bool, host: string, labels: seq<string>, wildcard: bool)
    requires IpSyntax(ip) && IsHostName(host, labels)
    ensures Judge(ip, (if wildcard then "*." else "") + host) == Good(Entry(wildcard, Lower(host)))
  {
    hide OriginHost, ValidOriginHost, IpSyntax, TrimSpace, Lower, TrimPrefix, HasPrefix, IsHostName;
    HostNameIsValid(ip, host, labels);
    ValidText(ip, host);
    ValidIsItsOwn(ip, host);
    EntryStrips(host, wildcard);
  }

  lemma PlainEntryMatches(ip: string -> bool, host: string, listed: string)
    requires listed != "" && listed[0] != '.' && '*' !in listed && TrimSpace(listed) == listed
    requires NormalizedHost(ip, listed) == Lower(listed) != ""
    ensures OriginMatches(ip, host, listed) <==> MatchesHost(host, Lower(listed))
  {
    hide NormalizedHost, Lower, MatchesHost, TrimSpace;
    assert TrimPrefix(listed, "*.") == listed && TrimPrefix(listed, ".") == listed;
  }

  lemma OneEntryAllows(ip: string -> bool, listed: string, host: string)
    requires listed != "" && ',' !in listed && listed != "*" && TrimSpace(listed) == listed
    ensures IsOriginAllowed(ip, listed, host) <==>
              NormalizedHost(ip, host) != "" && OriginMatches(ip, NormalizedHost(ip, host), listed)
  {
    hide NormalizedHost, OriginMatches, TrimSpace;
    SplitWhole(listed, ',');
    hide Split;
    assert MatchesAny(ip, NormalizedHost(ip, host), [listed]) <==>
           OriginMatches(ip, NormalizedHost(ip, host), [listed][0]);
    assert HasStar([listed]) <==> TrimSpace([listed][0]) == "*";
  }

  predicate IsAuthorityChar(c: char) {
    IsLabelChar(c) || c == '.' || c == ':' || c == '[' || c == ']'
  }

  lemma AuthorityHasNo(a: string, c: char)
    requires AllIn(a, IsAuthorityChar) && !IsAuthorityChar(c)
    ensures c !in a && Index(a, c) == |a| && LastIndex(a, c) == -1
  {
  }

  lemma AuthorityHierarchy(scheme: string, a: string)
    requires a != "" && AllIn(a, IsAuthorityChar) && ValidAuthority(a)
    ensures ParseHierarchy(scheme, "//" + a, "", "") == Some(Url(scheme, false, a, "", "", ""))
  {
    var rest := "//" + a;
    AuthorityHasNo(a, '/');
    AuthorityHasNo(a, '@');
    assert rest[2..] == a && rest[2] == a[0] != '/';
    assert a[..|a|] == a && a[|a|..] == "";
  }

  lemma SchemeIsRead(scheme: string, rest: string)
    requires scheme == "http" || scheme == "https"
    ensures SchemeOf(scheme + ":" + rest) == Some((scheme, rest))
  {
    var s := scheme + ":" + rest;
    assert s[|scheme|] == ':' && s[..|scheme|] == scheme && s[|scheme| + 1..] == rest;
    assert forall k | 0 <= k < |scheme| :: s[k] == scheme[k] != ':' && IsSchemeChar(s[k]);
    assert Index(s, ':') == |scheme|;
  }

  lemma TextHasNo(s: string, c: char)
    requires AllIn(s, k => IsAuthorityChar(k) || k == '/') && !IsAuthorityChar(c) && c != '/'
    ensures c !in s && Index(s, c) == |s|
  {
  }

  lemma SlashedChars(scheme: string, a: string)
    requires (scheme == "" || scheme == "http:" || scheme == "https:") && AllIn(a, IsAuthorityChar)
    ensures AllIn(scheme + "//" + a, k => IsAuthorityChar(k) || k == '/')
    ensures !HasControl(scheme + "//" + a) && scheme + "//" + a != "*"
  {
    var s := scheme + "//" + a;
    forall k | 0 <= k < |s| ensures (IsAuthorityChar(s[k]) || s[k] == '/') && !IsControl(s[k]) {
      if k >= |scheme| + 2 {
        assert s[k] == a[k - |scheme| - 2];
      }
    }
    assert s[|scheme|] == '/';
  }

  lemma UrlOfMain(s: string)
    requires '#' !in s && !HasControl(s) && s != "*"
    ensures UrlParse(s) == ParseMain(s, "")
  {
    hide ParseMain, HasControl;
    assert s[..|s|] == s;
  }

  lemma MainOfScheme(main: string, scheme: string, rest: string)
    requires SchemeOf(main) == Some((scheme, rest)) && '?' !in rest
    ensures ParseMain(main, "") == ParseHierarchy(scheme, rest, "", "")
  {
    assert rest[..|rest|] == rest;
  }

  /** An authority of such characters, after a scheme or without one, is read as the host it is. */
  lemma AuthorityParses(scheme: string, a: string)
    requires scheme == "http" || scheme == "https"
    requires a != "" && AllIn(a, IsAuthorityChar) && ValidAuthority(a)
    ensures UrlParse(scheme + ":" + ("//" + a)) == Some(Url(scheme, false, a, "", "", ""))
    ensures UrlParse("//" + a) == Some(Url("", false, a, "", "", ""))
  {
    hide HasControl, ValidAuthority, AllIn, ParseHierarchy, ParseMain, UrlParse, SchemeOf;
    SlashedChars("", a);
    SlashedChars(scheme + ":", a);
    var rest := "//" + a;
    assert "" + "//" + a == rest;
    var s := scheme + ":" + rest;
    assert s == scheme + ":" + "//" + a;
    TextHasNo(rest, '#');
    TextHasNo(rest, '?');
    TextHasNo(s, '#');
    UrlOfMain(rest);
    UrlOfMain(s);
    SchemeNeedsLetter(rest);
    SchemeIsRead(scheme, rest);
    MainOfScheme(rest, "", rest);
    MainOfScheme(s, scheme, rest);
    AuthorityHierarchy("", a);
    AuthorityHierarchy(scheme, a);
  }

  lemma OriginWithScheme(ip: string -> bool, s: string, url: Url)
    requires !ip(s) && Contains(s, "://") && UrlParse(s) == Some(url) && !url.user && Hostname(url) != ""
    requires url.scheme == "http" || url.scheme == "https"
    ensures OriginHost(ip, s) == Some(Hostname(url))
  {
    hide UrlParse, Hostname, Contains;
    assert Lower(url.scheme) == url.scheme;
  }

  lemma OriginWithoutScheme(ip: string -> bool, s: string, a: string)
    requires !ip(s) && !Contains(s, "://") && s == a != ""
    requires UrlParse("//" + s) == Some(Url("", false, a, "", "", ""))
    requires WithoutBrackets(WithoutPort(a)) != ""
    ensures OriginHost(ip, s) == Some(WithoutBrackets(WithoutPort(a)))
  {
    hide UrlParse, WithoutBrackets, WithoutPort, Contains;
  }

  lemma HostWithPort(host: string, port: string)
    requires PlainHost(host) && AllDigits(port)
    ensures
      var a := host + ":" + port;
      AllIn(a, IsAuthorityChar) && ValidAuthority(a) && WithoutBrackets(WithoutPort(a)) == host
  {
    var a := host + ":" + port;
    PlainHasNo(host, ':');
    PlainHasNo(host, '[');
    assert a[|host|] == ':' && a[..|host|] == host && a[|host|..] == ":" + port && a[|host|..][1..] == port;
    forall k | 0 <= k < |a| ensures IsAuthorityChar(a[k]) && IsHostChar(a[k]) && (k > |host| ==> a[k] != ':') {
      if k > |host| {
        assert a[k] == port[k - |host| - 1] && IsDigit(port[k - |host| - 1]);
      } else if k < |host| {
        assert a[k] == host[k];
      }
    }
    assert LastIndex(a, ':') == |host|;
    assert a[0] == host[0] != '[';
  }

  lemma NotAnAddress(ip: string -> bool, s: string, k: nat)
    requires IpSyntax(ip) && k < |s| && !IsIpChar(s[k])
    ensures !ip(s)
  {
  }

  lemma NoMarkInAuthority(a: string)
    requires AllIn(a, IsAuthorityChar)
    ensures !Contains(a, "://")
  {
    AuthorityHasNo(a, '/');
    forall i | 0 <= i <= |a| ensures !HasPrefix(a[i..], "://") {
      if |a| - i >= 2 {
        assert a[i..][1] == a[i + 1];
      }
    }
  }

  lemma PlainChars(host: string)
    requires PlainHost(host)
    ensures AllIn(host, IsAuthorityChar) && ValidAuthority(host) && WithoutBrackets(WithoutPort(host)) == host != ""
  {
    PlainAuthority(host);
    forall k | 0 <= k < |host| ensures IsAuthorityChar(host[k]) {
    }
  }

  lemma UrlReads(ip: string -> bool, scheme: string, a: string, host: string)
    requires IpSyntax(ip) && (scheme == "http" || scheme == "https")
    requires a != "" && AllIn(a, IsAuthorityChar) && ValidAuthority(a)
    requires host == WithoutBrackets(WithoutPort(a)) != ""
    ensures OriginHost(ip, scheme + "://" + a) == Some(host)
    ensures !ip(a) ==> OriginHost(ip, a) == Some(host)
  {
    hide ValidAuthority, UrlParse, WithoutBrackets, WithoutPort, AllIn, OriginHost;
    AuthorityParses(scheme, a);
    SchemeMarked(ip, scheme, a);
    OriginWithScheme(ip, scheme + "://" + a, Url(scheme, false, a, "", "", ""));
    NoMarkInAuthority(a);
    if !ip(a) {
      OriginWithoutScheme(ip, a, a);
    }
  }

  lemma SchemeMarked(ip: string -> bool, scheme: string, a: string)
    requires IpSyntax(ip)
    ensures
      var s := scheme + "://" + a;
      s == scheme + ":" + ("//" + a) && !ip(s) && Contains(s, "://")
  {
    var s := scheme + "://" + a;
    assert s[|scheme| + 1] == '/';
    NotAnAddress(ip, s, |scheme| + 1);
    assert HasPrefix(s[|scheme|..], "://");
  }

  /** An entry may also be an address of the web, with or without a port; only its host is kept. */
  lemma UrlNamesItsHost(ip: string -> bool, scheme: string, host: string, labels: seq<string>, port: string)
    requires IpSyntax(ip) && IsHostName(host, labels) && !ip(host) && AllDigits(port)
    requires scheme == "http" || scheme == "https"
    ensures OriginHost(ip, scheme + "://" + host) == Some(host)
    ensures OriginHost(ip, scheme + "://" + (host + ":" + port)) == Some(host)
    ensures !ip(host + ":" + port) ==> OriginHost(ip, host + ":" + port) == Some(host)
  {
    hide PlainHost, IsHostName, ValidOriginHost, ValidAuthority, AllIn, WithoutBrackets, WithoutPort, OriginHost;
    HostNameIsValid(ip, host, labels);
    LabelsArePlain(ip, host);
    PlainChars(host);
    HostWithPort(host, port);
    UrlReads(ip, scheme, host, host);
    UrlReads(ip, scheme, host + ":" + port, host);
  }

  /** And an address in brackets stands for the address. */
  lemma BracketsAreRemoved(ip: string -> bool, address: string)
    requires IpSyntax(ip) && ip(address)
    ensures OriginHost(ip, "[" + address + "]") == Some(address)
  {
    var a := "[" + address + "]";
    assert address != "" && a[0] == '[';
    BracketedAuthority(a, address);
    NotAnAddress(ip, a, 0);
    hide ValidAuthority, AllIn, WithoutBrackets, WithoutPort, OriginHost, IpSyntax;
    UrlReads(ip, "http", a, address);
  }

  lemma BracketedChars(a: string, address: string)
    requires a == "[" + address + "]" && forall k | 0 <= k < |address| :: IsIpChar(address[k])
    ensures forall k | 0 <= k < |a| :: IsAuthorityChar(a[k]) && IsHostChar(a[k])
  {
    forall k | 0 <= k < |a| ensures IsAuthorityChar(a[k]) && IsHostChar(a[k]) {
      if 0 < k < |a| - 1 {
        assert a[k] == address[k - 1] && IsIpChar(address[k - 1]);
      }
    }
  }

  /** A bracket at the end hides the colons before it: what follows the last of them is no port. */
  lemma NoPortBeforeBracket(a: string)
    requires a != "" && a[|a| - 1] == ']'
    ensures WithoutPort(a) == a
  {
    var colon := LastIndex(a, ':');
    if colon >= 0 {
      var port := a[colon..];
      assert port[1..][|port| - 2] == ']' && !IsDigit(']');
      assert !AllDigits(port[1..]);
    }
  }

  lemma BracketedAuthority(a: string, address: string)
    requires a == "[" + address + "]" && address != "" && forall k | 0 <= k < |address| :: IsIpChar(address[k])
    ensures AllIn(a, IsAuthorityChar) && ValidAuthority(a) && WithoutBrackets(WithoutPort(a)) == address
  {
    BracketedChars(a, address);
    NoPortBeforeBracket(a);
    hide WithoutPort, IsIpChar, IsHostChar, IsAuthorityChar;
    assert a[|a| - 1] == ']' && a[|a|..] == "" && a[1..|a| - 1] == address;
    assert LastIndex(a, ']') == |a| - 1;
  }

  /** A star matches every host. */
  lemma StarMatches(ip: string -> bool, host: string, entry: string)
    requires TrimSpace(entry) == "*"
    ensures OriginMatches(ip, host, entry)
  {
  }

  /** And a list of one host allows, of all valid hosts, exactly those whose labels end in its labels, in any case. */
  lemma OneHostAllows(ip: string -> bool, listed: string, host: string)
    requires IpSyntax(ip) && ValidOriginHost(ip, listed) && ValidOriginHost(ip, host)
    ensures IsOriginAllowed(ip, listed, host) <==>
              EndsInParts(Split(Lower(host), '.'), Split(Lower(listed), '.'))
  {
    hide NormalizedHost, ValidOriginHost, IpSyntax, TrimSpace, Lower, Split, IsOriginAllowed, OriginMatches;
    hide MatchesHost, EndsInParts;
    ValidText(ip, listed);
    ValidReadsAsItself(ip, listed);
    ValidReadsAsItself(ip, host);
    OneEntryAllows(ip, listed, host);
    PlainEntryMatches(ip, Lower(host), listed);
    MatchesExactlyBySuffixOfLabels(Lower(host), Lower(listed));
  }

  method JudgeEntry(ip: string -> bool, raw: string) returns (verdict: Verdict)
    ensures verdict == Judge(ip, raw)
  {
    var entry := TrimSpace(raw);
    if entry == "" {
      return Bad;
    }
    if entry == "*" {
      return Star;
    }
    var wildcard := HasPrefix(entry, "*.");
    if wildcard {
      entry := TrimPrefix(entry, "*.");
    }
    if '*' in entry {
      return Bad;
    }
    var host := OriginHost(ip, entry);
    if host.None? || !ValidOriginHost(ip, host.value) {
      return Bad;
    }
    verdict := Good(Entry(wildcard, Lower(host.value)));
  }

  /** normalizeAllowedOrigins, entry by entry. */
  method NormalizeAllowedOrigins(ip: string -> bool, value: string) returns (r: Option<string>)
    ensures r == Normalized(ip, value)
  {
    hide Judge, Canonical, Collect, TrimSpace, OriginHost;
    CollectNone();
    var entries := Split(value, ',');
    var normalized: seq<Entry>, seen: set<Entry> := [], {};
    ghost var verdicts := Judged(ip, entries);
    assert verdicts[..0] == [];
    for n := 0 to |entries|
      invariant Collect(verdicts[..n]) == Hosts(normalized)
      invariant forall c :: c in seen <==> c in normalized
    {
      var verdict := JudgeEntry(ip, entries[n]);
      ghost var before := verdicts[..n];
      assert verdicts[..n + 1] == before + [verdict];
      CollectAppend(before, verdict);
      match verdict {
        case Star =>
          DecidedEarly(verdicts, n + 1);
          return Some("*");
        case Bad =>
          DecidedEarly(verdicts, n + 1);
          return None;
        case Good(entry) =>
          if entry !in seen {
            seen := seen + {entry};
            normalized := normalized + [entry];
          }
      }
    }
    assert verdicts[..|entries|] == verdicts;
    r := Some(if normalized == [] then "" else Join(Rendered(normalized), ", "));
  }

  lemma CollectNone()
    ensures Collect([]) == Hosts([])
  {
  }

  lemma {:induction false} DecidedEarly(verdicts: seq<Verdict>, n: nat)
    requires n <= |verdicts| && !Collect(verdicts[..n]).Hosts?
    ensures Collect(verdicts) == Collect(verdicts[..n])
    decreases |verdicts| - n
  {
    if n == |verdicts| {
      assert verdicts[..n] == verdicts;
    } else {
      assert verdicts[..n + 1][..n] == verdicts[..n];
      DecidedEarly(verdicts, n + 1);
    }
  }
}
