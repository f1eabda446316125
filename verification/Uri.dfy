/** WebSocket URIs: the parsing constructor, and the text it is printed back to (section 3 of RFC 6455). */
module Uri {
  import opened Options

  const DEFAULT_PORT: nat := 80
  const DEFAULT_SECURE_PORT: nat := 443

  datatype Components = Components(scheme: string, secure: bool, host: string, port: nat, resource: string)

  // ---------------------------------------------------------------- ports

  predicate IsDigit(c: char) { '0' <= c <= '9' }

  predicate IsSpace(c: char) { c == ' ' || '\t' <= c <= '\r' }

  function DigitValue(c: char): nat
    requires IsDigit(c)
  {
    (c as int) - ('0' as int)
  }

  /** The number that the leading digits of s continue. */
  function DigitsValue(s: string, acc: nat): nat {
    if s == "" || !IsDigit(s[0]) then acc else DigitsValue(s[1..], 10 * acc + DigitValue(s[0]))
  }

  function SkipSpaces(s: string): string {
    if s == "" || !IsSpace(s[0]) then s else SkipSpaces(s[1..])
  }

  const LONG_MAX: int := 0x7fff_ffff_ffff_ffff
  const UINT_SIZE: int := 0x1_0000_0000

  /** strtol in base ten: white space, a sign, digits; clamped to a 64-bit long. */
  function Strtol(s: string): int {
    var t := SkipSpaces(s);
    if t != "" && t[0] == '-' then
      var n := 0 - DigitsValue(t[1..], 0);
      if n < -LONG_MAX - 1 then -LONG_MAX - 1 else n
    else
      var n := DigitsValue(if t != "" && t[0] == '+' then t[1..] else t, 0);
      if n > LONG_MAX then LONG_MAX else n
  }

  function DefaultPort(secure: bool): nat { if secure then DEFAULT_SECURE_PORT else DEFAULT_PORT }

  /** The port of a port string: the scheme's own for the empty one, none outside 1 to 65535 after 32-bit truncation. */
  function PortFromString(secure: bool, s: string): Option<nat> {
    if s == "" then Some(DefaultPort(secure))
    else
      var t := Strtol(s) % UINT_SIZE;
      if t > 65535 || t == 0 then None else Some(t)
  }

  // ---------------------------------------------------------------- the grammar

  predicate Starts(s: string, prefix: string) { |prefix| <= |s| && s[..|prefix|] == prefix }

  /** The scheme, and whether it is secure; at least one character must follow it. */
  function SchemeOf(s: string): Option<(string, bool)> {
    if |s| >= 7 && Starts(s, "wss://") then Some(("wss", true))
    else if |s| >= 6 && Starts(s, "ws://") then Some(("ws", false))
    else if |s| >= 8 && Starts(s, "http://") then Some(("http", false))
    else if |s| >= 9 && Starts(s, "https://") then Some(("https", true))
    else None
  }

  /** Where the first character that is c or d stands, or the length. */
  function FirstOf(s: string, c: char, d: char): (n: nat)
    ensures n <= |s|
    ensures forall k | 0 <= k < n :: s[k] != c && s[k] != d
    ensures n < |s| ==> s[n] == c || s[n] == d
  {
    if s == "" || s[0] == c || s[0] == d then 0 else 1 + FirstOf(s[1..], c, d)
  }

  /** The port string and what follows the slash, for the text after a host. */
  function AfterHost(s: string): Option<(string, string)> {
    if s == "" then Some(("", ""))
    else if s[0] == '/' then Some(("", s[1..]))
    else if s[0] == ':' then
      var k := FirstOf(s[1..], '/', '/');
      Some((s[1..][..k], if k == |s| - 1 then "" else s[1..][k + 1..]))
    else None
  }

  /** The host, without brackets, and the text after it. */
  function HostOf(s: string): Option<(string, string)>
    requires s != ""
  {
    if s[0] == '[' then
      var k := FirstOf(s[1..], ']', ']');
      if k == |s| - 1 then None else Some((s[1..][..k], s[1..][k + 1..]))
    else
      var k := FirstOf(s, ':', '/');
      Some((s[..k], s[k..]))
  }

  function ParsedRest(scheme: string, secure: bool, s: string): Option<Components>
    requires s != ""
  {
    match HostOf(s)
    case None => None
    case Some((host, rest)) =>
      match AfterHost(rest)
      case None => None
      case Some((portString, tail)) =>
        match PortFromString(secure, portString)
        case None => None
        case Some(port) => Some(Components(scheme, secure, host, port, "/" + tail))
  }

  /** What the constructor makes of a text, when it finds it valid. */
  function Parsed(s: string): Option<Components> {
    match SchemeOf(s)
    case None => None
    case Some((scheme, secure)) => ParsedRest(scheme, secure, s[|scheme| + 3..])
  }

  // ---------------------------------------------------------------- printing

  function Decimal(n: nat): string {
    if n < 10 then [Digit(n)] else Decimal(n / 10) + [Digit(n % 10)]
  }

  function Digit(n: nat): (c: char)
    requires n < 10
    ensures IsDigit(c) && DigitValue(c) == n
  {
    ('0' as int + n) as char
  }

  function PortPart(c: Components): string {
    if c.port != DefaultPort(c.secure) then ":" + Decimal(c.port) else ""
  }

  function Str(c: Components): string {
    c.scheme + "://" + c.host + PortPart(c) + c.resource
  }

  // ---------------------------------------------------------------- round trip

  lemma {:induction false} DecimalDigits(n: nat)
    ensures Decimal(n) != "" && forall k | 0 <= k < |Decimal(n)| :: IsDigit(Decimal(n)[k])
  {
    if n >= 10 {
      DecimalDigits(n / 10);
    }
  }

  /** A decimal has no leading zero. */
  lemma {:induction false} NoLeadingZero(n: nat)
    ensures Decimal(n) != "" && (n > 0 ==> Decimal(n)[0] != '0') && Decimal(0) == "0"
  {
    if n >= 10 {
      NoLeadingZero(n / 10);
    }
  }

  lemma {:induction false} DigitsJoin(s: string, c: char, acc: nat)
    requires (forall k | 0 <= k < |s| :: IsDigit(s[k])) && IsDigit(c)
    ensures DigitsValue(s + [c], acc) == 10 * DigitsValue(s, acc) + DigitValue(c)
    decreases |s|
  {
    if s == "" {
      assert (s + [c])[1..] == "";
    } else {
      assert (s + [c])[1..] == s[1..] + [c];
      DigitsJoin(s[1..], c, 10 * acc + DigitValue(s[0]));
    }
  }

  lemma {:induction false} DecimalValue(n: nat)
    ensures DigitsValue(Decimal(n), 0) == n
  {
    if n < 10 {
      assert Decimal(n)[1..] == "";
    } else {
      DecimalValue(n / 10);
      DecimalDigits(n / 10);
      DigitsJoin(Decimal(n / 10), Digit(n % 10), 0);
    }
  }

  lemma PortOfDecimal(secure: bool, n: nat)
    requires 0 < n <= 65535
    ensures PortFromString(secure, Decimal(n)) == Some(n)
  {
    hide Decimal, DigitsValue;
    DecimalDigits(n);
    DecimalValue(n);
    assert SkipSpaces(Decimal(n)) == Decimal(n);
  }

  ghost predicate AllDigits(s: string) { s != "" && forall k | 0 <= k < |s| :: IsDigit(s[k]) }

  /** The port that a digit string names: its value, if that is between 1 and 65535. */
  function NamedPort(s: string): Option<nat> {
    var v := DigitsValue(s, 0);
    if 0 < v <= 65535 then Some(v) else None
  }

  /** Every digit string: it is read as the port it names if and only if its value is below 2^32, or beyond the range of
      a long, or not between 1 and 65535 modulo 2^32. The others are accepted for the wrong port. */
  lemma DigitPort(secure: bool, s: string)
    requires AllDigits(s)
    ensures var v := DigitsValue(s, 0);
            PortFromString(secure, s) == NamedPort(s)
            <==> v < UINT_SIZE || v > LONG_MAX || !(0 < v % UINT_SIZE <= 65535)
    ensures var v := DigitsValue(s, 0);
            PortFromString(secure, s) != NamedPort(s)
            ==> v > 65535 && PortFromString(secure, s) == Some(v % UINT_SIZE)
  {
    hide DigitsValue;
    assert SkipSpaces(s) == s;
  }

  /** Every digit string behind a minus sign: refused, as it should be, if and only if its value is beyond the range of
      a long or does not come back into range modulo 2^32. */
  lemma NegativePort(secure: bool, s: string)
    requires AllDigits(s)
    ensures var v := DigitsValue(s, 0);
            PortFromString(secure, "-" + s).None? <==> v > LONG_MAX || v % UINT_SIZE < UINT_SIZE - 65535
    ensures var v := DigitsValue(s, 0);
            PortFromString(secure, "-" + s).Some? ==> PortFromString(secure, "-" + s).value == UINT_SIZE - v % UINT_SIZE
  {
    hide DigitsValue;
    var t := "-" + s;
    assert SkipSpaces(t) == t && t[1..] == s;
  }

  lemma {:induction false} DigitsStop(s: string, tail: string, acc: nat)
    requires (forall k | 0 <= k < |s| :: IsDigit(s[k])) && tail != "" && !IsDigit(tail[0])
    ensures DigitsValue(s + tail, acc) == DigitsValue(s, acc)
  {
    if s != "" {
      assert (s + tail)[1..] == s[1..] + tail;
      DigitsStop(s[1..], tail, 10 * acc + DigitValue(s[0]));
    } else {
      assert s + tail == tail;
    }
  }

  /** Whatever follows the digits is ignored: a port string with a tail is read as the one without. */
  lemma TailIgnored(secure: bool, s: string, tail: string)
    requires AllDigits(s) && tail != "" && !IsDigit(tail[0])
    ensures PortFromString(secure, s + tail) == PortFromString(secure, s)
  {
    hide DigitsValue;
    DigitsStop(s, tail, 0);
    assert SkipSpaces(s) == s && SkipSpaces(s + tail) == s + tail;
  }

  /** White space in front of a port string is skipped, and so is a plus sign. */
  lemma {:induction false} SpacesSkipped(secure: bool, spaces: string, s: string)
    requires forall k | 0 <= k < |spaces| :: spaces[k] in {' ', '\t', '\n', '\U{0b}', '\U{0c}', '\r'}
    requires s != ""
    ensures SkipSpaces(spaces + s) == SkipSpaces(s) && PortFromString(secure, spaces + s) == PortFromString(secure, s)
  {
    hide DigitsValue;
    if spaces == "" {
      assert spaces + s == s;
    } else {
      assert (spaces + s)[1..] == spaces[1..] + s;
      SpacesSkipped(secure, spaces[1..], s);
    }
  }

  lemma PlusSkipped(secure: bool, s: string)
    requires AllDigits(s)
    ensures PortFromString(secure, "+" + s) == PortFromString(secure, s)
  {
    hide DigitsValue;
    assert SkipSpaces(s) == s && SkipSpaces("+" + s) == "+" + s && ("+" + s)[1..] == s;
  }

  /** The smallest member of the misread family that comes out as port 80: 2^32 + 80. */
  lemma LargePortWraps(secure: bool)
    ensures PortFromString(secure, Decimal(0x1_0000_0050)) == Some(80) && NamedPort(Decimal(0x1_0000_0050)) == None
  {
    hide Decimal, DigitsValue;
    DecimalDigits(0x1_0000_0050);
    DecimalValue(0x1_0000_0050);
    assert SkipSpaces(Decimal(0x1_0000_0050)) == Decimal(0x1_0000_0050);
  }

  lemma FirstOfIs(s: string, c: char, d: char, n: nat)
    requires n <= |s| && (forall k | 0 <= k < n :: s[k] != c && s[k] != d) && (n < |s| ==> s[n] == c || s[n] == d)
    ensures FirstOf(s, c, d) == n
  {
  }

  /** What is left to print after the host: it starts with a colon or a slash. */
  function Suffix(c: Components): string { PortPart(c) + c.resource }

  lemma ParsedRange(scheme: string, secure: bool, s: string)
    requires s != "" && ParsedRest(scheme, secure, s).Some?
    ensures var c := ParsedRest(scheme, secure, s).value;
            c.scheme == scheme && c.secure == secure && 0 < c.port <= 65535 && c.resource != "" && c.resource[0] == '/'
  {
    hide HostOf, AfterHost, Strtol;
  }

  lemma SuffixReadsBack(c: Components)
    requires 0 < c.port <= 65535 && c.resource != "" && c.resource[0] == '/'
    ensures Suffix(c) != "" && (Suffix(c)[0] == ':' || Suffix(c)[0] == '/')
    ensures AfterHost(Suffix(c)).Some?
    ensures PortFromString(c.secure, AfterHost(Suffix(c)).value.0) == Some(c.port)
    ensures "/" + AfterHost(Suffix(c)).value.1 == c.resource
  {
    hide Strtol, Decimal, PortFromString, AfterHost;
    if c.port == DefaultPort(c.secure) {
      assert Suffix(c) == c.resource;
      SlashReadsBack(c.secure, c.resource);
    } else {
      DecimalDigits(c.port);
      PortOfDecimal(c.secure, c.port);
      assert Suffix(c) == ":" + (Decimal(c.port) + c.resource);
      ColonReadsBack(Decimal(c.port), c.resource);
    }
  }

  lemma SlashReadsBack(secure: bool, resource: string)
    requires resource != "" && resource[0] == '/'
    ensures AfterHost(resource) == Some(("", resource[1..])) && "/" + resource[1..] == resource
    ensures PortFromString(secure, "") == Some(DefaultPort(secure))
  {
    hide Strtol, FirstOf;
  }

  lemma ColonReadsBack(digits: string, resource: string)
    requires resource != "" && resource[0] == '/' && forall k | 0 <= k < |digits| :: IsDigit(digits[k])
    ensures AfterHost(":" + (digits + resource)) == Some((digits, resource[1..])) && "/" + resource[1..] == resource
  {
    hide FirstOf;
    var p := digits + resource;
    assert (":" + p)[1..] == p;
    FirstOfIs(p, '/', '/', |digits|);
    assert p[..|digits|] == digits && p[|digits| + 1..] == resource[1..];
  }

  /** A host that needs no brackets. */
  predicate Plain(host: string) {
    && (forall k | 0 <= k < |host| :: host[k] != ':' && host[k] != '/')
    && (host != "" ==> host[0] != '[')
  }

  lemma PlainHostReadsBack(c: Components)
    requires 0 < c.port <= 65535 && c.resource != "" && c.resource[0] == '/' && Plain(c.host)
    ensures ParsedRest(c.scheme, c.secure, c.host + Suffix(c)) == Some(c)
  {
    hide AfterHost, PortFromString, Suffix;
    SuffixReadsBack(c);
    var s := c.host + Suffix(c);
    FirstOfIs(s, ':', '/', |c.host|);
    assert s[..|c.host|] == c.host && s[|c.host|..] == Suffix(c);
  }

  lemma OtherHostReadsDifferently(c: Components, suffix: string)
    requires !Plain(c.host) && suffix != "" && (suffix[0] == ':' || suffix[0] == '/')
    ensures HostOf(c.host + suffix) != None ==> HostOf(c.host + suffix).value.0 != c.host
  {
    var s := c.host + suffix;
    if s[0] != '[' {
      var k :| 0 <= k < |c.host| && (c.host[k] == ':' || c.host[k] == '/');
      assert s[k] == c.host[k];
      assert FirstOf(s, ':', '/') <= k;
    } else {
      BracketReadsDifferently(c.host, suffix);
    }
  }

  /** Behind an opening bracket the host loses its first character, and what follows cannot make up for it. */
  lemma BracketReadsDifferently(host: string, suffix: string)
    requires host != "" && host[0] == '[' && suffix != "" && (suffix[0] == ':' || suffix[0] == '/')
    ensures var s := (host + suffix)[1..]; s[..FirstOf(s, ']', ']')] != host
  {
    var s := (host + suffix)[1..];
    if s[..FirstOf(s, ']', ']')] == host {
      OnlyBracketsFit(host, suffix, FirstOf(s, ']', ']'));
    }
  }

  lemma OnlyBracketsFit(host: string, suffix: string, k: nat)
    requires host != "" && host[0] == '[' && suffix != "" && k < |host + suffix| && (host + suffix)[1..][..k] == host
    ensures suffix[0] == '['
  {
    var s := (host + suffix)[1..];
    assert forall i | 0 <= i < |host| :: s[i] == s[..k][i];
    AllBrackets(host, s, |host| - 1);
    assert s[|host| - 1] == suffix[0];
  }

  lemma {:induction false} AllBrackets(host: string, s: string, i: nat)
    requires i < |host| <= |s| && host[0] == '['
    requires forall k | 0 <= k < |host| :: s[k] == host[k]
    requires forall k | 0 <= k < |host| - 1 :: s[k] == host[k + 1]
    ensures host[i] == '['
  {
    if i > 0 {
      AllBrackets(host, s, i - 1);
    }
  }

  lemma SchemeReadsBack(s: string, rest: string)
    requires SchemeOf(s).Some? && rest != ""
    ensures var (scheme, secure) := SchemeOf(s).value;
            SchemeOf(scheme + "://" + rest) == Some((scheme, secure)) && (scheme + "://" + rest)[|scheme| + 3..] == rest
  {
    hide SchemeOf, IsScheme;
    SchemeRead(s);
    SchemeText(SchemeOf(s).value.0, SchemeOf(s).value.1, rest);
  }

  /** Printing a parsed URI and parsing the text again gives the same components exactly when its host is plain. */
  lemma PrintedReadsBack(s: string)
    requires Parsed(s).Some?
    ensures Parsed(Str(Parsed(s).value)) == Parsed(s) <==> Plain(Parsed(s).value.host)
  {
    hide ParsedRest, HostOf, Plain, SchemeOf, Suffix, PortPart;
    var c := Parsed(s).value;
    var (scheme, secure) := SchemeOf(s).value;
    SchemeRest(s);
    ParsedRange(scheme, secure, s[|scheme| + 3..]);
    SuffixReadsBack(c);
    StrIs(c);
    SchemeReadsBack(s, c.host + Suffix(c));
    if Plain(c.host) {
      PlainHostReadsBack(c);
    } else {
      OtherHostReadsDifferently(c, Suffix(c));
      HostOfParsed(c.scheme, c.secure, c.host + Suffix(c));
    }
  }

  lemma StrIs(c: Components)
    ensures Str(c) == c.scheme + "://" + (c.host + Suffix(c))
  {
    hide PortPart;
  }

  lemma SchemeRest(s: string)
    requires SchemeOf(s).Some?
    ensures |SchemeOf(s).value.0| + 3 < |s|
  {
  }

  lemma HostOfParsed(scheme: string, secure: bool, s: string)
    requires s != ""
    ensures ParsedRest(scheme, secure, s).Some? ==>
      HostOf(s).Some? && HostOf(s).value.0 == ParsedRest(scheme, secure, s).value.host
  {
    hide HostOf, AfterHost, PortFromString;
  }

  /** A host that stood in brackets: printed without them, the text no longer means the same. */
  lemma BracketsAreLost()
    ensures Parsed("ws://[:]") == Some(Components("ws", false, ":", 80, "/"))
    ensures Parsed(Str(Parsed("ws://[:]").value)) != Parsed("ws://[:]")
  {
    hide FirstOf, HostOf, Str;
    var s := "ws://[:]";
    assert s[2] == ':';
    assert s[..5] == "ws://" && s[5..] == "[:]";
    assert SchemeOf(s) == Some(("ws", false));
    BracketedColon();
    assert "/" + "" == "/";
    PrintedReadsBack(s);
  }

  lemma BracketedColon()
    ensures HostOf("[:]") == Some((":", ""))
  {
    var s := "[:]";
    assert s[1..] == ":]" && s[1..][..1] == ":" && s[1..][2..] == "";
    FirstOfIs(":]", ']', ']', 1);
  }

  /** A host that stood without brackets is plain, so its URI reads back. */
  lemma UnbracketedReadsBack(s: string)
    requires Parsed(s).Some? && s[|Parsed(s).value.scheme| + 3] != '['
    ensures Parsed(Str(Parsed(s).value)) == Parsed(s)
  {
    hide ParsedRest, SchemeOf, Str;
    var (scheme, secure) := SchemeOf(s).value;
    SchemeRest(s);
    var rest := s[|scheme| + 3..];
    ParsedRange(scheme, secure, rest);
    HostOfParsed(scheme, secure, rest);
    PrintedReadsBack(s);
  }

  // ---------------------------------------------------------------- the grammar, without a parser

  predicate IsScheme(scheme: string, secure: bool) {
    if secure then scheme == "wss" || scheme == "https" else scheme == "ws" || scheme == "http"
  }

  /** A host as it is written: in brackets, or else without a colon, a slash, or a bracket in front. */
  predicate HostText(text: string, host: string) {
    || (text == host && ':' !in host && '/' !in host && (host != "" ==> host[0] != '['))
    || (text == "[" + host + "]" && ']' !in host)
  }

  /** A port as it is written: nothing, or a colon and a port string, which may be empty. */
  predicate PortText(text: string, secure: bool, port: nat) {
    if text == "" || text == ":" then port == if secure then 443 else 80
    else text[0] == ':' && '/' !in text && PortFromString(secure, text[1..]) == Some(port)
  }

  predicate ResourceText(text: string, resource: string) {
    if text == "" then resource == "/" else text[0] == '/' && resource == text
  }

  predicate Splits(s: string, c: Components, host: string, port: string, path: string) {
    && s == c.scheme + "://" + (host + (port + path)) && host + (port + path) != ""
    && HostText(host, c.host) && PortText(port, c.secure, c.port) && ResourceText(path, c.resource)
  }

  /** The text is scheme, host, port and path, and these are its components. */
  ghost predicate Derives(s: string, c: Components) {
    IsScheme(c.scheme, c.secure) && exists host, port, path :: Splits(s, c, host, port, path)
  }

  lemma SchemeText(scheme: string, secure: bool, rest: string)
    requires IsScheme(scheme, secure) && rest != ""
    ensures SchemeOf(scheme + "://" + rest) == Some((scheme, secure)) && (scheme + "://" + rest)[|scheme| + 3..] == rest
  {
    var t := scheme + "://" + rest;
    assert t[..|scheme| + 3] == scheme + "://";
    if scheme == "wss" {
    } else if scheme == "ws" {
      assert t[2] == ':';
    } else if scheme == "http" {
      assert t[0] == 'h' && t[4] == ':';
    } else {
      assert t[0] == 'h' && t[4] == 's';
    }
  }

  lemma StartsSplits(s: string, prefix: string)
    ensures Starts(s, prefix) ==> |prefix| <= |s| && s == prefix + s[|prefix|..]
  {
  }

  lemma PrefixParts()
    ensures "wss" + "://" == "wss://" && "ws" + "://" == "ws://"
    ensures "http" + "://" == "http://" && "https" + "://" == "https://"
  {
  }

  lemma SchemeRead(s: string)
    requires SchemeOf(s).Some?
    ensures var (scheme, secure) := SchemeOf(s).value;
            IsScheme(scheme, secure) && |scheme| + 3 < |s| && s == scheme + "://" + s[|scheme| + 3..]
  {
    hide Starts;
    StartsSplits(s, "wss://");
    StartsSplits(s, "ws://");
    StartsSplits(s, "http://");
    StartsSplits(s, "https://");
    PrefixParts();
  }

  lemma HostTextRead(text: string, host: string, after: string)
    requires HostText(text, host) && text + after != "" && (after != "" ==> after[0] == ':' || after[0] == '/')
    ensures HostOf(text + after) == Some((host, after))
  {
    var s := text + after;
    if text == host && ':' !in host && '/' !in host && (host != "" ==> host[0] != '[') {
      FirstOfIs(s, ':', '/', |host|);
      assert s[..|host|] == host && s[|host|..] == after;
    } else {
      assert s[1..] == host + ("]" + after);
      FirstOfIs(s[1..], ']', ']', |host|);
      assert s[1..][..|host|] == host && s[1..][|host| + 1..] == after;
    }
  }

  lemma HostReadText(s: string) returns (text: string)
    requires s != "" && HostOf(s).Some?
    ensures HostText(text, HostOf(s).value.0) && s == text + HostOf(s).value.1
  {
    var (host, after) := HostOf(s).value;
    text := s[..|s| - |after|];
    if s[0] == '[' {
      assert text == "[" + host + "]";
    }
  }

  /** Without a port string the port is the scheme's own. */
  lemma NoPort(secure: bool)
    ensures PortFromString(secure, "") == Some(if secure then 443 else 80)
  {
    hide Strtol;
  }

  lemma AfterTextRead(port: string, path: string, secure: bool, n: nat, resource: string)
    requires PortText(port, secure, n) && ResourceText(path, resource)
    ensures AfterHost(port + path).Some?
    ensures var (portString, tail) := AfterHost(port + path).value;
            PortFromString(secure, portString) == Some(n) && "/" + tail == resource
  {
    hide PortFromString;
    NoPort(secure);
    if port == "" {
      assert port + path == path;
    } else {
      var t := (port + path)[1..];
      assert t == port[1..] + path;
      FirstOfIs(t, '/', '/', |port| - 1);
      assert t[..|port| - 1] == port[1..];
      if path != "" { assert t[|port|..] == path[1..]; }
    }
  }

  lemma AfterReadText(s: string, secure: bool, n: nat) returns (port: string, path: string)
    requires AfterHost(s).Some? && PortFromString(secure, AfterHost(s).value.0) == Some(n)
    ensures s == port + path && PortText(port, secure, n) && ResourceText(path, "/" + AfterHost(s).value.1)
  {
    hide PortFromString;
    NoPort(secure);
    if s == "" {
      port, path := "", "";
    } else if s[0] == '/' {
      port, path := "", s;
    } else {
      var k := FirstOf(s[1..], '/', '/');
      port, path := s[..k + 1], s[k + 1..];
      assert port[1..] == s[1..][..k];
      if path != "" { assert path[1..] == s[1..][k + 1..]; }
    }
  }

  /** The parser accepts exactly the texts of the grammar, and reads them as the grammar does. */
  lemma ParsedIsDerived(s: string, c: Components)
    ensures Parsed(s) == Some(c) <==> Derives(s, c)
  {
    hide SchemeOf, HostOf, AfterHost, PortFromString, HostText, PortText, ResourceText, IsScheme;
    if Derives(s, c) {
      var host, port, path :| Splits(s, c, host, port, path);
      SplitsIsParsed(s, c, host, port, path);
    }
    if Parsed(s) == Some(c) {
      ParsedSplits(s, c);
    }
  }

  lemma SplitsIsParsed(s: string, c: Components, host: string, port: string, path: string)
    requires IsScheme(c.scheme, c.secure) && Splits(s, c, host, port, path)
    ensures Parsed(s) == Some(c)
  {
    hide SchemeOf, HostOf, AfterHost, PortFromString, HostText, PortText, ResourceText, IsScheme;
    SchemeText(c.scheme, c.secure, host + (port + path));
    AfterStarts(port, path, c.secure, c.port, c.resource);
    HostTextRead(host, c.host, port + path);
    AfterTextRead(port, path, c.secure, c.port, c.resource);
  }

  lemma AfterStarts(port: string, path: string, secure: bool, n: nat, resource: string)
    requires PortText(port, secure, n) && ResourceText(path, resource)
    ensures port + path != "" ==> (port + path)[0] == ':' || (port + path)[0] == '/'
  {
    hide PortFromString;
  }

  lemma ParsedSplits(s: string, c: Components)
    requires Parsed(s) == Some(c)
    ensures Derives(s, c)
  {
    hide SchemeOf, HostOf, AfterHost, PortFromString, HostText, PortText, ResourceText, IsScheme;
    SchemeRead(s);
    var rest := s[|c.scheme| + 3..];
    var host := HostReadText(rest);
    var port, path := AfterReadText(HostOf(rest).value.1, c.secure, c.port);
    assert Splits(s, c, host, port, path);
  }

  // ---------------------------------------------------------------- the class

  /** The iterator is past the separator that ended the host, and the state tells which it was. */
  ghost predicate PastHost(text: string, it: nat, state: nat, rest: string) {
    && it <= |text|
    && if rest == "" then state == 2 && it == |text|
       else it > 0 && text[it - 1..] == rest && state == if rest[0] == ':' then 1 else 2
  }

  lemma PastHostRest(text: string, it: nat, state: nat, rest: string)
    requires PastHost(text, it, state, rest) && AfterHost(rest).Some?
    ensures state == 1 ==> rest == ":" + text[it..]
    ensures state == 2 ==> AfterHost(rest) == Some(("", text[it..]))
    ensures state == 1 || state == 2
  {
    hide FirstOf;
    if rest == "" {
      assert text[it..] == "";
    } else {
      assert text[it..] == rest[1..];
    }
  }

  lemma AcceptsTheGrammar(text: string)
    ensures Parsed(text).Some? <==> exists c :: Derives(text, c)
    ensures Parsed(text).Some? ==>
              && Derives(text, Parsed(text).value)
              && (Parsed(text).value.secure <==> Starts(text, "wss://") || Starts(text, "https://"))
  {
    hide Parsed, Derives, Starts;
    if Parsed(text).Some? {
      ParsedIsDerived(text, Parsed(text).value);
      SecureByScheme(text, Parsed(text).value);
    }
    if c :| Derives(text, c) {
      ParsedIsDerived(text, c);
    }
  }

  lemma SecureByScheme(s: string, c: Components)
    requires Derives(s, c)
    ensures c.secure <==> Starts(s, "wss://") || Starts(s, "https://")
  {
    hide HostText, PortText, ResourceText;
    var host, port, path :| Splits(s, c, host, port, path);
    assert s[..|c.scheme| + 3] == c.scheme + "://";
    if c.scheme == "ws" { assert s[2] == ':'; }
    if c.scheme == "http" { assert s[0] == 'h' && s[4] == ':'; }
    if c.scheme == "https" { assert s[..8] == "https://"; }
    if c.scheme == "wss" { assert s[..6] == "wss://"; }
  }

  class WebSocketUri {
    var scheme: string
    var host: string
    var resource: string
    var port: nat
    var secure: bool
    var valid: bool

    /** Parses a text, one character at a time from the host on. */
    constructor (text: string)
      ensures valid <==> Parsed(text).Some?
      ensures valid ==> Some(Components(scheme, secure, host, port, resource)) == Parsed(text)
      ensures valid <==> exists c :: Derives(text, c)
      ensures valid ==> Derives(text, Components(scheme, secure, host, port, resource))
      ensures valid ==> (secure <==> Starts(text, "wss://") || Starts(text, "https://"))
    {
      AcceptsTheGrammar(text);
      hide Derives, Starts, SchemeOf, HostOf, AfterHost, PastHost, PortFromString;
      scheme, host, resource, port, secure, valid := "", "", "", 0, false, false;
      new;
      var it := ReadScheme(text);
      if it == 0 {
        return;
      }
      ghost var rest := HostOf(text[it..]);
      var state: nat;
      it, state := ReadHost(text, it);
      if state == 0 {
        return;
      }
      var portString: string;
      it, portString := ReadPort(text, it, state, rest.value.1);
      match PortFromString(secure, portString) {
        case None =>
          return;
        case Some(p) =>
          port := p;
      }
      resource := "/" + text[it..];
      valid := true;
    }

    /** The scheme and its security; where the host starts, or 0. */
    method ReadScheme(text: string) returns (it: nat)
      modifies this`scheme, this`secure
      ensures it == 0 <==> SchemeOf(text) == None
      ensures it > 0 ==> SchemeOf(text) == Some((scheme, secure)) && it == |scheme| + 3 < |text|
    {
      if |text| >= 7 && Starts(text, "wss://") {
        secure := true;
        scheme := "wss";
        it := 6;
      } else if |text| >= 6 && Starts(text, "ws://") {
        secure := false;
        scheme := "ws";
        it := 5;
      } else if |text| >= 8 && Starts(text, "http://") {
        secure := false;
        scheme := "http";
        it := 7;
      } else if |text| >= 9 && Starts(text, "https://") {
        secure := true;
        scheme := "https";
        it := 8;
      } else {
        it := 0;
      }
    }

    /** The host; state 1 before a port, state 2 past the host, state 0 on failure. */
    method ReadHost(text: string, start: nat) returns (it: nat, state: nat)
      requires start < |text|
      modifies this`host
      ensures it <= |text|
      ensures state == 0 <==> HostOf(text[start..]) == None || AfterHost(HostOf(text[start..]).value.1) == None
      ensures state > 0 ==> host == HostOf(text[start..]).value.0
      ensures state > 0 ==> PastHost(text, it, state, HostOf(text[start..]).value.1)
    {
      hide FirstOf;
      if text[start] == '[' {
        it, state := ReadBracketedHost(text, start);
      } else {
        it, state := ReadPlainHost(text, start);
      }
    }

    method ReadBracketedHost(text: string, start: nat) returns (it: nat, state: nat)
      requires start < |text| && text[start] == '['
      modifies this`host
      ensures it <= |text|
      ensures state == 0 <==> HostOf(text[start..]) == None || AfterHost(HostOf(text[start..]).value.1) == None
      ensures state > 0 ==> host == HostOf(text[start..]).value.0
      ensures state > 0 ==> PastHost(text, it, state, HostOf(text[start..]).value.1)
    {
      hide FirstOf, HostOf;
      var temp := start + 1;
      while temp < |text| && text[temp] != ']'
        invariant start < temp <= |text|
        invariant forall k | start < k < temp :: text[k] != ']'
      {
        temp := temp + 1;
      }
      BracketEnds(text, start, temp);
      if temp == |text| {
        return temp, 0;
      }
      host := text[start + 1..temp];
      it := temp + 1;
      if it == |text| {
        state := 2;
      } else if text[it] == '/' {
        state := 2;
        it := it + 1;
      } else if text[it] == ':' {
        state := 1;
        it := it + 1;
      } else {
        state := 0;
      }
    }

    method ReadPlainHost(text: string, start: nat) returns (it: nat, state: nat)
      requires start < |text| && text[start] != '['
      modifies this`host
      ensures it <= |text| && state > 0
      ensures HostOf(text[start..]).Some? && host == HostOf(text[start..]).value.0
      ensures PastHost(text, it, state, HostOf(text[start..]).value.1)
      ensures AfterHost(HostOf(text[start..]).value.1).Some?
    {
      hide FirstOf, HostOf, AfterHost;
      host := "";
      it, state := start, 0;
      while state == 0
        invariant start <= it <= |text| && state <= 2
        invariant state == 0
                  ==> host == text[start..it] && forall k | start <= k < it :: text[k] != ':' && text[k] != '/'
        invariant state > 0
                  ==> start + |host| <= |text| && HostOf(text[start..]) == Some((host, text[start + |host|..]))
        invariant state > 0 ==> AfterHost(text[start + |host|..]).Some?
        invariant state > 0 && start + |host| == |text| ==> state == 2 && it == |text|
        invariant state > 0 && start + |host| < |text| ==>
          it == start + |host| + 1 && text[it - 1] == if state == 1 then ':' else '/'
        decreases state == 0, |text| - it
      {
        if it == |text| {
          HostEnds(text, start, it);
          state := 2;
          break;
        } else if text[it] == '/' {
          HostEnds(text, start, it);
          state := 2;
        } else if text[it] == ':' {
          HostEnds(text, start, it);
          state := 1;
        } else {
          host := host + [text[it]];
        }
        it := it + 1;
      }
    }

    /** The port string, up to the slash or the end. */
    method ReadPort(text: string, start: nat, state: nat, ghost rest: string) returns (it: nat, portString: string)
      requires PastHost(text, start, state, rest) && AfterHost(rest).Some?
      ensures it <= |text| && AfterHost(rest) == Some((portString, text[it..]))
    {
      hide FirstOf, AfterHost;
      it, portString := start, "";
      PastHostRest(text, start, state, rest);
      if state == 2 {
        return;
      }
      while it < |text| && text[it] != '/'
        invariant start <= it <= |text| && portString == text[start..it]
        invariant forall k | start <= k < it :: text[k] != '/'
      {
        portString := portString + [text[it]];
        it := it + 1;
      }
      PortEnds(text, start, it);
      if it < |text| {
        it := it + 1;
      }
    }

    method ToString() returns (s: string)
      ensures s == Str(Components(scheme, secure, host, port, resource))
      ensures var portPart := if port == (if secure then 443 else 80) then "" else ":" + Decimal(port);
              s == scheme + "://" + host + portPart + resource
    {
      s := scheme + "://" + host;
      if port != DefaultPort(secure) {
        s := s + ":" + Decimal(port);
      }
      s := s + resource;
    }
  }

  lemma BracketEnds(text: string, start: nat, temp: nat)
    requires start < temp <= |text| && text[start] == '[' && (temp < |text| ==> text[temp] == ']')
    requires forall k | start < k < temp :: text[k] != ']'
    ensures temp == |text| ==> HostOf(text[start..]) == None
    ensures temp < |text| ==> HostOf(text[start..]) == Some((text[start + 1..temp], text[temp + 1..]))
  {
    hide FirstOf;
    var s, k := text[start..], temp - start - 1;
    assert s[1..] == text[start + 1..];
    FirstOfIs(s[1..], ']', ']', k);
    if temp < |text| {
      assert s[1..][..k] == text[start + 1..temp] && s[1..][k + 1..] == text[temp + 1..];
    }
  }

  lemma HostEnds(text: string, start: nat, it: nat)
    requires start < |text| && start <= it <= |text| && text[start] != '['
    requires forall k | start <= k < it :: text[k] != ':' && text[k] != '/'
    requires it < |text| ==> text[it] == ':' || text[it] == '/'
    ensures HostOf(text[start..]) == Some((text[start..it], text[it..])) && AfterHost(text[it..]).Some?
  {
    hide FirstOf;
    var s := text[start..];
    FirstOfIs(s, ':', '/', it - start);
    assert s[..it - start] == text[start..it] && s[it - start..] == text[it..];
  }

  lemma TailSlices(text: string, start: nat, it: nat)
    requires start <= it <= |text|
    ensures text[start..][..it - start] == text[start..it]
    ensures it < |text| ==> text[start..][it - start + 1..] == text[it + 1..]
  {
  }

  lemma PortEnds(text: string, start: nat, it: nat)
    requires start <= it <= |text| && (it < |text| ==> text[it] == '/')
    requires forall k | start <= k < it :: text[k] != '/'
    ensures AfterHost(":" + text[start..])
            == Some((text[start..it], if it < |text| then text[it + 1..] else text[it..]))
  {
    hide FirstOf;
    var rest := text[start..];
    assert (":" + rest)[1..] == rest;
    forall k | 0 <= k < it - start ensures rest[k] != '/' {
      assert rest[k] == text[start + k];
    }
    FirstOfIs(rest, '/', '/', it - start);
    TailSlices(text, start, it);
    if it == |text| {
      assert text[it..] == "";
    }
  }
}
