/** Mount handling shared by both distribution-point layers
    (jss/distribution_points.py and jss/distribution_point.py): the AFP and
    SMB mount URLs, the host/share strings a mount line is matched against,
    reconciliation of the configured mount point with the mount table, and
    the `mount`/`umount`/`diskutil` argument lists. */
module Mounting {
  import opened Errors
  import opened Text
  import opened Host
  import Paths

  /** Characters `urllib.quote` leaves alone in passwords and share names,
      besides letters, digits and `_.-`. */
  const QUOTE_SAFE: string := "~()*!.'"

  // ---------------------------------------------------------------------------
  // Mount URLs

  /** "user:quoted-password@" when both are non-empty, else "". */
  function Auth(username: Value, password: Value): string {
    if Truthy(username) && Truthy(password) then
      Render(username) + ":" + Quote(Render(password), QUOTE_SAFE) + "@"
    else ""
  }

  /** ":port" when a port is given, else "". */
  function PortSuffix(port: Value): string {
    if Truthy(port) then ":" + Render(port) else ""
  }

  /** The AFP `mount_url`: "afp://" auth host port "/" share. */
  function AfpMountUrl(username: Value, password: Value, url: Value, port: Value, share: Value): string {
    "afp://" + Auth(username, password) + Render(url) + PortSuffix(port) + "/" + Render(share)
  }

  /** The SMB `mount_url`: "//" [domain ";"] auth host port "/" share; the
      domain is only written when there is an auth part. */
  function SmbMountUrl(domain: Value, username: Value, password: Value, url: Value, port: Value, share: Value): string {
    var auth := Auth(username, password);
    "//" + DomainPrefix(domain, auth, true) + auth + Render(url) + PortSuffix(port) + "/" + Render(share)
  }

  /** Without both username and password the AFP URL has no credentials. */
  lemma AfpMountUrlWithoutAuth(username: Value, password: Value, url: Value, port: Value, share: Value)
    requires !(Truthy(username) && Truthy(password))
    ensures AfpMountUrl(username, password, url, port, share) == "afp://" + Render(url) + PortSuffix(port) + "/" + Render(share)
  {
    assert "afp://" + Auth(username, password) == "afp://";
  }

  /** Without a port the AFP URL has no ":port". */
  lemma AfpMountUrlWithoutPort(username: Value, password: Value, url: Value, port: Value, share: Value)
    requires !Truthy(port)
    ensures AfpMountUrl(username, password, url, port, share) == "afp://" + Auth(username, password) + Render(url) + "/" + Render(share)
  {
    var prefix := "afp://" + Auth(username, password) + Render(url);
    assert prefix + PortSuffix(port) == prefix;
  }

  /** Without both username and password the SMB URL has neither
      credentials nor domain. */
  lemma SmbMountUrlWithoutAuth(domain: Value, username: Value, password: Value, url: Value, port: Value, share: Value)
    requires !(Truthy(username) && Truthy(password))
    ensures SmbMountUrl(domain, username, password, url, port, share) == "//" + Render(url) + PortSuffix(port) + "/" + Render(share)
  {
    var auth := Auth(username, password);
    assert "//" + DomainPrefix(domain, auth, true) + auth == "//";
  }

  /** Without a domain the SMB URL is the credentials, host, port and share. */
  lemma SmbMountUrlWithoutDomain(domain: Value, username: Value, password: Value, url: Value, port: Value, share: Value)
    requires !Truthy(domain)
    ensures SmbMountUrl(domain, username, password, url, port, share)
      == "//" + Auth(username, password) + Render(url) + PortSuffix(port) + "/" + Render(share)
  {
    var auth := Auth(username, password);
    assert "//" + DomainPrefix(domain, auth, true) + auth == "//" + auth;
  }

  // ---------------------------------------------------------------------------
  // Reading a mount URL back

  /** The pieces of a mount URL. */
  datatype UrlParts = UrlParts(domain: Option<string>, username: Option<string>,
                               password: Option<seq<byte>>, host: string,
                               port: Option<string>, share: string)

  /** Splits `s` at the first occurrence of `c`. */
  function SplitFirst(s: string, c: char): (r: Option<(string, string)>)
    ensures r.Some? ==> s == r.value.0 + [c] + r.value.1 && c !in r.value.0
    ensures r.None? ==> c !in s
  {
    if s == [] then None
    else if s[0] == c then Some(([], s[1..]))
    else match SplitFirst(s[1..], c)
      case None => None
      case Some(p) => Some(([s[0]] + p.0, p.1))
  }

  /** "host[:port]". */
  function HostPort(hp: string): (string, Option<string>) {
    match SplitFirst(hp, ':')
    case None => (hp, None)
    case Some((h, p)) => (h, Some(p))
  }

  /** "user:percent-encoded-password". */
  function Creds(a: string): Option<(string, seq<byte>)> {
    match SplitFirst(a, ':')
    case None => None
    case Some((user, pw)) =>
      match PercentDecode(pw)
      case None => None
      case Some(bytes) => Some((user, bytes))
  }

  /** "[user:password@]host[:port]". */
  function Login(rest: string): Option<(Option<(string, seq<byte>)>, string, Option<string>)> {
    match SplitFirst(rest, '@')
    case None => var hp := HostPort(rest); Some((None, hp.0, hp.1))
    case Some((a, h)) =>
      match Creds(a)
      case None => None
      case Some(cr) => var hp := HostPort(h); Some((Some(cr), hp.0, hp.1))
  }

  /** "[domain;]rest". */
  function DomainSplit(front: string): (Option<string>, string) {
    match SplitFirst(front, ';')
    case None => (None, front)
    case Some((d, r)) => (Some(d), r)
  }

  /** Reads "[domain;][user:password@]host[:port]"; a domain is only read
      when `withDomain`, and only together with credentials. */
  function ParseFront(front: string, withDomain: bool)
    : Option<(Option<string>, Option<(string, seq<byte>)>, string, Option<string>)>
  {
    var ds := if withDomain then DomainSplit(front) else (None, front);
    match Login(ds.1)
    case None => None
    case Some((cr, host, port)) =>
      if cr.None? && ds.0.Some? then None else Some((ds.0, cr, host, port))
  }

  /** Reads the text after the scheme: the front part, "/", the share. */
  function ParseAuthority(s: string, withDomain: bool): Option<UrlParts> {
    match SplitFirst(s, '/')
    case None => None
    case Some((front, share)) =>
      match ParseFront(front, withDomain)
      case None => None
      case Some((domain, cr, host, port)) =>
        Some(UrlParts(domain, if cr.Some? then Some(cr.value.0) else None,
                      if cr.Some? then Some(cr.value.1) else None, host, port, share))
  }

  /** Reads an AFP mount URL back into its parts. */
  function ParseAfpMountUrl(u: string): Option<UrlParts> {
    if |u| >= 6 && u[..6] == "afp://" then ParseAuthority(u[6..], false) else None
  }

  /** Reads an SMB mount URL back into its parts. */
  function ParseSmbMountUrl(u: string): Option<UrlParts> {
    if |u| >= 2 && u[..2] == "//" then ParseAuthority(u[2..], true) else None
  }

  /** A piece of text that cannot be confused with a URL separator. */
  predicate Plain(s: string) {
    '/' !in s && ':' !in s && '@' !in s && ';' !in s
  }

  function PortPart(port: Value): Option<string> {
    if Truthy(port) then Some(Render(port)) else None
  }

  function CredsPart(username: Value, password: Value): Option<(string, seq<byte>)> {
    if Truthy(username) && Truthy(password) then Some((Render(username), Utf8(Render(password)))) else None
  }

  /** The parts a connection should produce. */
  function Expected(domain: Value, username: Value, password: Value, url: Value,
                    port: Value, share: Value, withDomain: bool): UrlParts
  {
    var cr := CredsPart(username, password);
    UrlParts(
      if withDomain && cr.Some? && Truthy(domain) then Some(Render(domain)) else None,
      if cr.Some? then Some(cr.value.0) else None,
      if cr.Some? then Some(cr.value.1) else None,
      Render(url), PortPart(port), Render(share))
  }

  lemma {:induction false} SplitFirstOf(a: string, c: char, b: string)
    requires c !in a
    ensures SplitFirst(a + [c] + b, c) == Some((a, b))
  {
    if a == [] {
      assert a + [c] + b == [c] + b;
    } else {
      assert (a + [c] + b)[1..] == a[1..] + [c] + b;
      SplitFirstOf(a[1..], c, b);
      assert [a[0]] + a[1..] == a;
    }
  }

  lemma QuotedPlain(s: string)
    ensures Plain(Quote(s, QUOTE_SAFE))
  {
    QuoteAlphabet(s, QUOTE_SAFE);
    var q := Quote(s, QUOTE_SAFE);
    forall i | 0 <= i < |q| ensures q[i] != '/' && q[i] != ':' && q[i] != '@' && q[i] != ';' {
      assert QuotedAlphabet(q[i], QUOTE_SAFE);
    }
  }

  lemma HostPortOf(url: Value, port: Value)
    requires Plain(Render(url))
    ensures HostPort(Render(url) + PortSuffix(port)) == (Render(url), PortPart(port))
  {
    if Truthy(port) {
      assert Render(url) + PortSuffix(port) == Render(url) + [':'] + Render(port);
      SplitFirstOf(Render(url), ':', Render(port));
    } else {
      assert Render(url) + PortSuffix(port) == Render(url);
    }
  }

  lemma CredsOf(user: string, password: string)
    requires ':' !in user
    ensures Creds(user + ":" + Quote(password, QUOTE_SAFE)) == Some((user, Utf8(password)))
  {
    var q := Quote(password, QUOTE_SAFE);
    assert user + ":" + q == user + [':'] + q;
    SplitFirstOf(user, ':', q);
    QuoteRoundTrip(password, QUOTE_SAFE);
  }

  lemma LoginOf(username: Value, password: Value, url: Value, port: Value)
    requires Plain(Render(url)) && Plain(Render(port)) && Plain(Render(username))
    ensures Login(Auth(username, password) + Render(url) + PortSuffix(port))
      == Some((CredsPart(username, password), Render(url), PortPart(port)))
  {
    var a := Auth(username, password);
    var hp := Render(url) + PortSuffix(port);
    HostPortOf(url, port);
    PortSuffixPlain(url, port);
    LoginAuth(username, password, hp);
    LoginRegroup(a, Render(url), PortSuffix(port));
  }

  lemma LoginRegroup(a: string, h: string, p: string)
    ensures Login(a + h + p) == Login(a + (h + p))
  {
    assert a + h + p == a + (h + p);
  }

  lemma PortSuffixPlain(url: Value, port: Value)
    requires Plain(Render(url)) && Plain(Render(port))
    ensures '@' !in Render(url) + PortSuffix(port)
  {
  }

  /** The login part, with or without credentials, before a host part. */
  lemma LoginAuth(username: Value, password: Value, hp: string)
    requires Plain(Render(username)) && '@' !in hp
    ensures Login(Auth(username, password) + hp) == Some((CredsPart(username, password), HostPort(hp).0, HostPort(hp).1))
  {
    if Truthy(username) && Truthy(password) {
      LoginWithCreds(username, password, hp);
    } else {
      assert Auth(username, password) + hp == hp;
      LoginPlain(hp);
    }
  }

  lemma LoginPlain(hp: string)
    requires '@' !in hp
    ensures Login(hp) == Some((None, HostPort(hp).0, HostPort(hp).1))
  {
    assert SplitFirst(hp, '@').None?;
  }

  lemma LoginWithCreds(username: Value, password: Value, hp: string)
    requires Truthy(username) && Truthy(password) && Plain(Render(username)) && '@' !in hp
    ensures Login(Auth(username, password) + hp) == Some((CredsPart(username, password), HostPort(hp).0, HostPort(hp).1))
  {
    var q := Quote(Render(password), QUOTE_SAFE);
    QuotedPlain(Render(password));
    var a := Render(username) + ":" + q;
    assert '@' !in a;
    assert Auth(username, password) + hp == a + ['@'] + hp;
    SplitFirstOf(a, '@', hp);
    CredsOf(Render(username), Render(password));
  }

  /** The optional "domain;" prefix. */
  function DomainPrefix(domain: Value, auth: string, withDomain: bool): string {
    if withDomain && auth != "" && Truthy(domain) then Render(domain) + ";" else ""
  }

  lemma RestPlain(username: Value, password: Value, url: Value, port: Value)
    requires Plain(Render(url)) && Plain(Render(port)) && Plain(Render(username))
    ensures var rest := Auth(username, password) + Render(url) + PortSuffix(port);
      ';' !in rest && '/' !in rest
  {
    var a := Auth(username, password);
    if a != "" {
      QuotedPlain(Render(password));
      assert a == Render(username) + ":" + Quote(Render(password), QUOTE_SAFE) + "@";
    }
    assert ';' !in a && '/' !in a;
    assert ';' !in PortSuffix(port) && '/' !in PortSuffix(port);
  }

  /** ParseFront once the domain split and the login are known. */
  lemma ParseFrontWith(front: string, withDomain: bool, ds: (Option<string>, string),
                       login: (Option<(string, seq<byte>)>, string, Option<string>))
    requires (if withDomain then DomainSplit(front) else (None, front)) == ds
    requires Login(ds.1) == Some(login)
    requires login.0.None? ==> ds.0.None?
    ensures ParseFront(front, withDomain) == Some((ds.0, login.0, login.1, login.2))
  {
  }

  /** The domain split of a front part made of the prefix and the rest. */
  lemma DomainSplitOf(domain: Value, auth: string, withDomain: bool, rest: string)
    requires Plain(Render(domain)) && ';' !in rest
    ensures var pre := DomainPrefix(domain, auth, withDomain);
      (if withDomain then DomainSplit(pre + rest) else (None, pre + rest))
        == (if pre != "" then Some(Render(domain)) else None, rest)
  {
    var pre := DomainPrefix(domain, auth, withDomain);
    if pre != "" {
      assert pre + rest == Render(domain) + [';'] + rest;
      SplitFirstOf(Render(domain), ';', rest);
    } else {
      assert pre + rest == rest;
      assert DomainSplit(rest) == (None, rest);
    }
  }

  lemma FrontOf(domain: Value, username: Value, password: Value, url: Value, port: Value, withDomain: bool)
    requires Plain(Render(url)) && Plain(Render(port)) && Plain(Render(username)) && Plain(Render(domain))
    ensures
      var auth := Auth(username, password);
      ParseFront(DomainPrefix(domain, auth, withDomain) + (auth + Render(url) + PortSuffix(port)), withDomain)
        == Some((if withDomain && auth != "" && Truthy(domain) then Some(Render(domain)) else None,
                 CredsPart(username, password), Render(url), PortPart(port)))
  {
    var auth := Auth(username, password);
    var rest := auth + Render(url) + PortSuffix(port);
    var pre := DomainPrefix(domain, auth, withDomain);
    LoginOf(username, password, url, port);
    RestPlain(username, password, url, port);
    DomainSplitOf(domain, auth, withDomain, rest);
    var ds := (if pre != "" then Some(Render(domain)) else None, rest);
    assert auth != "" <==> CredsPart(username, password).Some?;
    ParseFrontWith(pre + rest, withDomain, ds, (CredsPart(username, password), Render(url), PortPart(port)));
  }

  /** The text after the scheme is read back into the parts it was built from. */
  lemma AuthorityRoundTrip(domain: Value, username: Value, password: Value,
                           url: Value, port: Value, share: Value, withDomain: bool)
    requires Plain(Render(url)) && Plain(Render(port)) && Plain(Render(username)) && Plain(Render(domain))
    ensures
      var auth := Auth(username, password);
      ParseAuthority(DomainPrefix(domain, auth, withDomain) + (auth + Render(url) + PortSuffix(port)) + "/" + Render(share), withDomain)
        == Some(Expected(domain, username, password, url, port, share, withDomain))
  {
    var auth := Auth(username, password);
    var pre := DomainPrefix(domain, auth, withDomain);
    var rest := auth + Render(url) + PortSuffix(port);
    RestPlain(username, password, url, port);
    assert '/' !in pre;
    var front := pre + rest;
    assert '/' !in front;
    AuthorityAt(front, Render(share), withDomain);
    FrontOf(domain, username, password, url, port, withDomain);
  }

  lemma AuthorityAt(front: string, share: string, withDomain: bool)
    requires '/' !in front
    ensures ParseAuthority(front + "/" + share, withDomain) ==
      match ParseFront(front, withDomain)
      case None => None
      case Some((domain, cr, host, port)) =>
        Some(UrlParts(domain, if cr.Some? then Some(cr.value.0) else None,
                      if cr.Some? then Some(cr.value.1) else None, host, port, share))
  {
    assert front + "/" + share == front + ['/'] + share;
    SplitFirstOf(front, '/', share);
  }

  lemma SchemeOf(scheme: string, tail: string)
    ensures (scheme + tail)[..|scheme|] == scheme && (scheme + tail)[|scheme|..] == tail
  {
  }

  lemma Regroup(scheme: string, pre: string, a: string, h: string, p: string, s: string)
    ensures scheme + pre + a + h + p + "/" + s == scheme + (pre + (a + h + p) + "/" + s)
  {
  }

  lemma AfpShape(username: Value, password: Value, url: Value, port: Value, share: Value)
    ensures AfpMountUrl(username, password, url, port, share) ==
      "afp://" + (DomainPrefix(Null, Auth(username, password), false)
        + (Auth(username, password) + Render(url) + PortSuffix(port)) + "/" + Render(share))
  {
    var a := Auth(username, password);
    var h := Render(url);
    var p := PortSuffix(port);
    var s := Render(share);
    var pre := DomainPrefix(Null, a, false);
    assert pre == "";
    assert "afp://" + pre + a == "afp://" + a;
    Regroup("afp://", pre, a, h, p, s);
  }

  lemma SmbShape(domain: Value, username: Value, password: Value, url: Value, port: Value, share: Value)
    ensures SmbMountUrl(domain, username, password, url, port, share) ==
      "//" + (DomainPrefix(domain, Auth(username, password), true)
        + (Auth(username, password) + Render(url) + PortSuffix(port)) + "/" + Render(share))
  {
    var a := Auth(username, password);
    var pre := DomainPrefix(domain, a, true);
    Regroup("//", pre, a, Render(url), PortSuffix(port), Render(share));
  }

  /** The AFP mount URL can be read back: the credentials appear iff both
      username and password are non-empty (the password percent-decodes to
      its UTF-8 bytes), the port iff one is given, then host and share. */
  lemma AfpMountUrlRoundTrip(username: Value, password: Value, url: Value, port: Value, share: Value)
    requires Plain(Render(url)) && Plain(Render(port)) && Plain(Render(username))
    ensures ParseAfpMountUrl(AfpMountUrl(username, password, url, port, share))
      == Some(Expected(Null, username, password, url, port, share, false))
  {
    var auth := Auth(username, password);
    var tail := DomainPrefix(Null, auth, false) + (auth + Render(url) + PortSuffix(port)) + "/" + Render(share);
    AfpShape(username, password, url, port, share);
    SchemeOf("afp://", tail);
    AuthorityRoundTrip(Null, username, password, url, port, share, false);
  }

  /** The SMB mount URL can be read back the same way; the domain appears,
      before the credentials, iff there are credentials and a domain. */
  lemma SmbMountUrlRoundTrip(domain: Value, username: Value, password: Value, url: Value, port: Value, share: Value)
    requires Plain(Render(url)) && Plain(Render(port)) && Plain(Render(username)) && Plain(Render(domain))
    ensures ParseSmbMountUrl(SmbMountUrl(domain, username, password, url, port, share))
      == Some(Expected(domain, username, password, url, port, share, true))
  {
    var auth := Auth(username, password);
    var tail := DomainPrefix(domain, auth, true) + (auth + Render(url) + PortSuffix(port)) + "/" + Render(share);
    SmbShape(domain, username, password, url, port, share);
    SchemeOf("//", tail);
    AuthorityRoundTrip(domain, username, password, url, port, share, true);
  }

  // ---------------------------------------------------------------------------
  // Matching the mount table

  /** The host forms a mount line may show: the configured host, its
      address, its first DNS label and its fully qualified name, each with
      and without the port. */
  function HostForms(url: string, port: string, ip: string, fqdn: string): set<string> {
    var domainName := Split(url, ".")[0];
    { url, url + ":" + port, ip, ip + ":" + port,
      domainName, domainName + ":" + port, fqdn, fqdn + ":" + port }
  }

  /** `_get_valid_mount_strings`: every host form joined with the quoted
      share name. */
  function ValidMountStrings(url: string, share: string, port: string, ip: string, fqdn: string): set<string> {
    var q := Quote(share, QUOTE_SAFE);
    set a | a in HostForms(url, port, ip, fqdn) :: Paths.Join(a, q)
  }

  /** The valid mount strings are exactly the eight host forms, each joined
      with the quoted share. */
  lemma ValidMountStringsForms(url: string, share: string, port: string, ip: string, fqdn: string)
    ensures var q := Quote(share, QUOTE_SAFE);
      var r := ValidMountStrings(url, share, port, ip, fqdn);
      Paths.Join(url, q) in r && Paths.Join(url + ":" + port, q) in r &&
      Paths.Join(ip, q) in r && Paths.Join(ip + ":" + port, q) in r &&
      Paths.Join(Split(url, ".")[0], q) in r && Paths.Join(Split(url, ".")[0] + ":" + port, q) in r &&
      Paths.Join(fqdn, q) in r && Paths.Join(fqdn + ":" + port, q) in r
    ensures forall m :: m in ValidMountStrings(url, share, port, ip, fqdn) ==>
      exists a :: a in HostForms(url, port, ip, fqdn) && m == Paths.Join(a, Quote(share, QUOTE_SAFE))
  {
  }

  lemma QuoteNonEmpty(s: string)
    requires s != []
    ensures Quote(s, QUOTE_SAFE) != []
  {
    assert Utf8(s) != [];
  }

  /** Every valid mount string names the quoted share as its last component. */
  lemma ValidMountStringsEndInShare(url: string, share: string, port: string, ip: string, fqdn: string, m: string)
    requires share != [] && m in ValidMountStrings(url, share, port, ip, fqdn)
    ensures Paths.Basename(m) == Quote(share, QUOTE_SAFE)
  {
    var q := Quote(share, QUOTE_SAFE);
    var a :| a in HostForms(url, port, ip, fqdn) && m == Paths.Join(a, q);
    QuotedPlain(share);
    QuoteNonEmpty(share);
    Paths.BasenameOfJoin(a, q);
  }

  /** The mount strings for the connection, or the error computing them
      raises: a missing key, a share name `quote` refuses, a host that is
      not a string (`os.path.join` calls its `endswith`), or a host that
      does not resolve. */
  function ValidStrings(c: Connection, h: HostState, urlKey: string): Result<set<string>> {
    if urlKey !in c then Err(KeyError(urlKey))
    else match StrAt(c, "share_name")
      case Err(e) => Err(e)
      case Ok(share) =>
        if "port" !in c then Err(KeyError("port"))
        else if !c[urlKey].Str? then Err(AttributeError("endswith"))
        else match h.HostByName(c[urlKey].s)
          case Err(e) => Err(e)
          case Ok(ip) => Ok(ValidMountStrings(c[urlKey].s, share, Render(c["port"]), ip, h.Fqdn(ip)))
  }

  /** A mount line is ours when the text before its first " on " contains a
      valid mount string and its file-system type is ours. */
  predicate LineMatches(rec: MountRecord, valid: set<string>, fsType: string) {
    (exists m :: m in valid && Contains(Split(rec.line, " on ")[0], m)) && rec.fsType == Some(fsType)
  }

  /** The index of the first matching line at or after `i`. */
  function FirstMatch(table: seq<MountRecord>, valid: set<string>, fsType: string, i: nat): (r: Option<nat>)
    requires i <= |table|
    ensures r.Some? ==> i <= r.value < |table| && LineMatches(table[r.value], valid, fsType)
    ensures r.Some? ==> forall j :: i <= j < r.value ==> !LineMatches(table[j], valid, fsType)
    ensures r.None? ==> forall j :: i <= j < |table| ==> !LineMatches(table[j], valid, fsType)
    decreases |table| - i
  {
    if i == |table| then None
    else if LineMatches(table[i], valid, fsType) then Some(i)
    else FirstMatch(table, valid, fsType, i + 1)
  }

  // ---------------------------------------------------------------------------
  // Finding a free mount point

  /** The longest string in a set. */
  ghost function MaxLen(s: set<string>): (m: nat)
    ensures forall x :: x in s ==> |x| <= m
  {
    if s == {} then 0
    else
      var x :| x in s;
      var m := MaxLen(s - {x});
      if |x| > m then |x| else m
  }

  /** "-count-(count+1)-…", k numbered suffixes. */
  function Chain(count: nat, k: nat): string
    decreases k
  {
    if k == 0 then "" else "-" + NatToString(count) + Chain(count + 1, k - 1)
  }

  /** The `while os.path.ismount(...)` loop: append "-count", "-count+1", …
      to `mp` until it names no mount point. */
  function Deconflict(mp: string, count: nat, mounted: set<string>): (r: string)
    ensures r !in mounted
    decreases MaxLen(mounted) + 1 - |mp|
  {
    if mp in mounted then Deconflict(mp + "-" + NatToString(count), count + 1, mounted) else mp
  }

  lemma ChainShift(mp: string, count: nat, j: nat)
    ensures mp + Chain(count, j + 1) == (mp + "-" + NatToString(count)) + Chain(count + 1, j)
  {
  }

  /** The result is `mp` followed by the first `k` suffixes, where every
      shorter chain names a mount point: it is the first free candidate. */
  lemma {:induction false} DeconflictIsFirstFree(mp: string, count: nat, mounted: set<string>) returns (k: nat)
    ensures Deconflict(mp, count, mounted) == mp + Chain(count, k)
    ensures forall j :: 0 <= j < k ==> mp + Chain(count, j) in mounted
    decreases MaxLen(mounted) + 1 - |mp|
  {
    if mp in mounted {
      var next := mp + "-" + NatToString(count);
      assert |mp| <= MaxLen(mounted) && |next| > |mp|;
      var k' := DeconflictIsFirstFree(next, count + 1, mounted);
      k := k' + 1;
      assert Deconflict(mp, count, mounted) == Deconflict(next, count + 1, mounted);
      ChainShift(mp, count, k');
      forall j | 0 <= j < k ensures mp + Chain(count, j) in mounted {
        if j > 0 {
          ChainShift(mp, count, j - 1);
          assert next + Chain(count + 1, j - 1) in mounted;
        } else {
          assert mp + Chain(count, 0) == mp;
        }
      }
    } else {
      k := 0;
      assert mp + Chain(count, 0) == mp;
    }
  }

  /** A mount point that is not in use is kept as it is. */
  lemma DeconflictFree(mp: string, count: nat, mounted: set<string>)
    requires mp !in mounted
    ensures Deconflict(mp, count, mounted) == mp
  {
  }

  // ---------------------------------------------------------------------------
  // Reconciling the configured mount point with the mount table

  /** The line's regular expression captured a non-empty mount point. */
  predicate Captures(rec: MountRecord) {
    rec.mountPoint.Some? && rec.mountPoint.value != ""
  }

  /** The connection after a line matched: its captured mount point, when
      there is one, replaces the configured one. */
  function Adopt(c: Connection, rec: MountRecord): Connection {
    if Captures(rec) then c["mount_point" := Str(rec.mountPoint.value)] else c
  }

  /** `os.path.ismount(connection["mount_point"])`. */
  function FinalCheck(c: Connection, h: HostState): Result<bool> {
    match StrAt(c, "mount_point")
    case Err(e) => Err(e)
    case Ok(mp) => Ok(h.IsMount(mp))
  }

  /** `connection["jss"].verbose`: KeyError without a "jss" entry,
      AttributeError when the entry is not a JSS object. */
  function ReadVerbose(c: Connection): Outcome {
    match JssAt(c, "verbose")
    case Err(e) => Raised(e)
    case Ok(_) => Done
  }

  /** `is_mounted`: the connection afterwards and the answer (or the error).
      `checkOs` selects the newer layer, which refuses an OS that is neither
      macOS nor Linux once the mount strings are computed. A captured mount
      point is stored before `connection["jss"]` is read for its verbosity. */
  function ReconcileSpec(c: Connection, h: HostState, fsType: string, urlKey: string, checkOs: bool): (Connection, Result<bool>) {
    match ValidStrings(c, h, urlKey)
    case Err(e) => (c, Err(e))
    case Ok(valid) =>
      if checkOs && h.os == OtherOs then (c, Err(JSSError("Unsupported OS.")))
      else match FirstMatch(h.mountTable, valid, fsType, 0)
        case Some(i) =>
          var c' := Adopt(c, h.mountTable[i]);
          if Captures(h.mountTable[i]) && ReadVerbose(c').Raised? then (c', Err(ReadVerbose(c').error))
          else (c', FinalCheck(c', h))
        case None =>
          match StrAt(c, "mount_point")
          case Err(e) => (c, Err(e))
          case Ok(mp) =>
            var c' := c["mount_point" := Str(Deconflict(mp, 1, h.mounted))];
            (c', FinalCheck(c', h))
  }

  /** The `for mount in mount_check` loop: the first line that is ours. */
  method ScanMountTable(table: seq<MountRecord>, valid: set<string>, fsType: string) returns (found: Option<nat>)
    ensures found == FirstMatch(table, valid, fsType, 0)
  {
    found := None;
    var i := 0;
    while i < |table|
      invariant 0 <= i <= |table|
      invariant FirstMatch(table, valid, fsType, 0) == FirstMatch(table, valid, fsType, i)
    {
      if LineMatches(table[i], valid, fsType) {
        found := Some(i);
        break;
      }
      i := i + 1;
    }
  }

  /** The `while os.path.ismount(...)` loop of `is_mounted`. */
  method FreeMountPoint(mp: string, h: HostState) returns (cur: string)
    ensures cur == Deconflict(mp, 1, h.mounted)
  {
    cur := mp;
    var count := 1;
    while h.IsMount(cur)
      invariant Deconflict(cur, count, h.mounted) == Deconflict(mp, 1, h.mounted)
      decreases MaxLen(h.mounted) + 1 - |cur|
    {
      cur := cur + "-" + NatToString(count);
      count := count + 1;
    }
  }

  /** `is_mounted`: scan the mount table for the first line that is ours and
      adopt its mount point, else rename the mount point until it is free. */
  method Reconcile(conn: Connection, h: HostState, fsType: string, urlKey: string, checkOs: bool)
    returns (c: Connection, r: Result<bool>)
    ensures (c, r) == ReconcileSpec(conn, h, fsType, urlKey, checkOs)
  {
    var v := ValidStrings(conn, h, urlKey);
    if v.Err? {
      return conn, Err(v.error);
    }
    if checkOs && h.os == OtherOs {
      return conn, Err(JSSError("Unsupported OS."));
    }
    var found := ScanMountTable(h.mountTable, v.value, fsType);
    c := conn;
    if found.Some? {
      var rec := h.mountTable[found.value];
      if Captures(rec) {
        c := c["mount_point" := Str(rec.mountPoint.value)];
        var verbose := ReadVerbose(c);
        if verbose.Raised? {
          return c, Err(verbose.error);
        }
      }
    } else {
      var m := StrAt(c, "mount_point");
      if m.Err? {
        return c, Err(m.error);
      }
      var mp := FreeMountPoint(m.value, h);
      c := c["mount_point" := Str(mp)];
    }
    r := FinalCheck(c, h);
  }

  /** When a line matches, the first matching line decides the mount point
      and the share counts as mounted iff that path is a mount point. */
  lemma ReconcileAdoptsFirstMatch(c: Connection, h: HostState, fsType: string, urlKey: string, checkOs: bool, i: nat)
    requires ValidStrings(c, h, urlKey).Ok? && !(checkOs && h.os == OtherOs)
    requires i < |h.mountTable| && LineMatches(h.mountTable[i], ValidStrings(c, h, urlKey).value, fsType)
    requires forall j :: 0 <= j < i ==> !LineMatches(h.mountTable[j], ValidStrings(c, h, urlKey).value, fsType)
    requires "jss" in c && c["jss"].Server?
    ensures ReconcileSpec(c, h, fsType, urlKey, checkOs).0 == Adopt(c, h.mountTable[i])
    ensures ReconcileSpec(c, h, fsType, urlKey, checkOs).1 == FinalCheck(Adopt(c, h.mountTable[i]), h)
  {
    var valid := ValidStrings(c, h, urlKey).value;
    var f := FirstMatch(h.mountTable, valid, fsType, 0);
    assert f == Some(i);
  }

  /** When no line matches, the mount point becomes the first free
      candidate and the answer is false. */
  lemma ReconcileWithoutMatch(c: Connection, h: HostState, fsType: string, urlKey: string, checkOs: bool)
    requires ValidStrings(c, h, urlKey).Ok? && !(checkOs && h.os == OtherOs)
    requires forall j :: 0 <= j < |h.mountTable| ==> !LineMatches(h.mountTable[j], ValidStrings(c, h, urlKey).value, fsType)
    requires "mount_point" in c && c["mount_point"].Str?
    ensures ReconcileSpec(c, h, fsType, urlKey, checkOs)
      == (c["mount_point" := Str(Deconflict(c["mount_point"].s, 1, h.mounted))], Ok(false))
  {
    var valid := ValidStrings(c, h, urlKey).value;
    assert FirstMatch(h.mountTable, valid, fsType, 0).None?;
  }

  /** Once the keys it reads first are there, `is_mounted` raises
      AttributeError for a host that is not a string, and socket.gaierror
      naming the host exactly when the host does not resolve. Either way the
      connection is left as it was. */
  lemma ReconcileHostErrors(c: Connection, h: HostState, fsType: string, urlKey: string, checkOs: bool)
    requires urlKey in c && "port" in c && "share_name" in c && c["share_name"].Str?
    ensures !c[urlKey].Str? ==> ReconcileSpec(c, h, fsType, urlKey, checkOs) == (c, Err(AttributeError("endswith")))
    ensures c[urlKey].Str? ==>
      (ReconcileSpec(c, h, fsType, urlKey, checkOs) == (c, Err(GaiError(c[urlKey].s))) <==> c[urlKey].s in h.unresolved)
  {
  }

  /** When the first matching line captures a mount point, that point is
      adopted before `connection["jss"].verbose` is read, and the read raises
      KeyError without a "jss" entry and AttributeError when the entry is
      not a JSS object. */
  lemma ReconcileVerboseErrors(c: Connection, h: HostState, fsType: string, urlKey: string, checkOs: bool, i: nat)
    requires ValidStrings(c, h, urlKey).Ok? && !(checkOs && h.os == OtherOs)
    requires i < |h.mountTable| && LineMatches(h.mountTable[i], ValidStrings(c, h, urlKey).value, fsType)
    requires forall j :: 0 <= j < i ==> !LineMatches(h.mountTable[j], ValidStrings(c, h, urlKey).value, fsType)
    requires Captures(h.mountTable[i])
    ensures "jss" !in c ==> ReconcileSpec(c, h, fsType, urlKey, checkOs) == (Adopt(c, h.mountTable[i]), Err(KeyError("jss")))
    ensures "jss" in c && !c["jss"].Server? ==>
      ReconcileSpec(c, h, fsType, urlKey, checkOs) == (Adopt(c, h.mountTable[i]), Err(AttributeError("verbose")))
  {
    var valid := ValidStrings(c, h, urlKey).value;
    var f := FirstMatch(h.mountTable, valid, fsType, 0);
    assert f == Some(i);
  }

  // ---------------------------------------------------------------------------
  // Command lines

  /** Python's `list.insert(i, x)`. */
  function Insert(xs: seq<string>, i: nat, x: string): (r: seq<string>)
    requires i <= |xs|
    ensures |r| == |xs| + 1 && r[i] == x
    ensures r[..i] == xs[..i] && r[i + 1..] == xs[i..]
  {
    xs[..i] + [x] + xs[i..]
  }

  /** Python's `del xs[i]`. */
  function Remove(xs: seq<string>, i: nat): seq<string>
    requires i < |xs|
  {
    xs[..i] + xs[i + 1..]
  }

  /** The unmount command; `forced` inserts "force" at index 2 for diskutil
      and "-f" at index 1 for umount. */
  function UmountArgs(darwin: bool, mp: string, forced: bool): seq<string> {
    if darwin then
      var cmd := ["/usr/sbin/diskutil", "unmount", mp];
      if forced then Insert(cmd, 2, "force") else cmd
    else
      var cmd := ["umount", mp];
      if forced then Insert(cmd, 1, "-f") else cmd
  }

  function ForceIndex(darwin: bool): nat { if darwin then 2 else 1 }
  function ForceFlag(darwin: bool): string { if darwin then "force" else "-f" }

  /** Forcing only adds the flag at its index: removing it gives the plain
      command, which ends with the mount point. */
  lemma UmountForced(darwin: bool, mp: string)
    ensures |UmountArgs(darwin, mp, true)| == |UmountArgs(darwin, mp, false)| + 1
    ensures UmountArgs(darwin, mp, true)[ForceIndex(darwin)] == ForceFlag(darwin)
    ensures Remove(UmountArgs(darwin, mp, true), ForceIndex(darwin)) == UmountArgs(darwin, mp, false)
    ensures ForceFlag(darwin) !in UmountArgs(darwin, mp, false) || mp == ForceFlag(darwin)
    ensures Last(UmountArgs(darwin, mp, false)) == mp && Last(UmountArgs(darwin, mp, true)) == mp
  {
  }

  function Last(xs: seq<string>): string
    requires xs != []
  {
    xs[|xs| - 1]
  }

  /** `mount -t protocol url mount_point`, with "-o", "nobrowse" inserted at
      indices 1 and 2 when asked. */
  function MountArgs(program: string, protocol: string, url: string, mp: string, nobrowse: bool): seq<string> {
    var args := [program, "-t", protocol, url, mp];
    if nobrowse then Insert(Insert(args, 1, "-o"), 2, "nobrowse") else args
  }

  /** "nobrowse" adds exactly "-o", "nobrowse" right after the program name. */
  lemma MountNobrowse(program: string, protocol: string, url: string, mp: string)
    ensures MountArgs(program, protocol, url, mp, true)
      == [program, "-o", "nobrowse"] + MountArgs(program, protocol, url, mp, false)[1..]
    ensures Last(MountArgs(program, protocol, url, mp, true)) == mp
  {
  }
}
