/**
 * `cppfs::Url`: a string split lazily into protocol, location, address,
 * path, login, host, username and password. The splitting is a fixed
 * sequence of first-occurrence searches; the object caches its result.
 */
module Url {
  import opened Wrappers
  import opened StdString

  /** The eight parts `analyze` fills in. */
  datatype Parts = Parts(
    protocol: string,
    location: string,
    address: string,
    path: string,
    login: string,
    host: string,
    username: string,
    password: string)

  /** The parts as a fresh object holds them: all empty. */
  const Blank := Parts("", "", "", "", "", "", "", "")

  /** True when `"://"` starts at index `i` of `s`. */
  predicate SchemeMarkAt(s: string, i: nat)
  {
    OccursAt(s, "://", i)
  }

  /**
   * Protocol and location: the protocol runs up to and including the first
   * `"://"`, the location is the rest; without `"://"` the whole string is
   * the location.
   */
  function SplitProtocol(url: string): (r: (string, string))
    ensures r.0 + r.1 == url
  {
    match Find(url, "://", 0)
    case Some(pos) => (url[..pos + 3], url[pos + 3..])
    case None => ("", url)
  }

  /** The protocol is empty exactly when there is no `"://"`, and otherwise ends at the first one. */
  lemma ProtocolAtFirstMark(url: string)
    ensures var r := SplitProtocol(url);
      (r.0 == "" <==> forall i: nat :: !SchemeMarkAt(url, i)) &&
      (forall i: nat :: i + 3 < |r.0| ==> !SchemeMarkAt(url, i))
  {
    var pos := Find(url, "://", 0);
    if pos.Some? {
      assert SchemeMarkAt(url, pos.value);
    }
  }

  /** The three characters a scheme mark is made of. */
  lemma SchemeMarkChars(s: string, i: nat)
    requires SchemeMarkAt(s, i)
    ensures s[i] == ':' && s[i + 1] == '/' && s[i + 2] == '/'
  {
    assert s[i..i + 3][0] == s[i];
    assert s[i..i + 3][1] == s[i + 1];
    assert s[i..i + 3][2] == s[i + 2];
  }

  /** A position whose characters differ from `"://"` holds no scheme mark. */
  lemma NoSchemeMark(s: string, i: nat)
    requires i + 3 <= |s| ==> s[i] != ':' || s[i + 1] != '/' || s[i + 2] != '/'
    ensures !SchemeMarkAt(s, i)
  {
    if SchemeMarkAt(s, i) {
      SchemeMarkChars(s, i);
    }
  }

  /** A protocol, when there is one, ends in the `"://"` that was found. */
  lemma ProtocolEndsWithMark(url: string)
    ensures var protocol := SplitProtocol(url).0;
      protocol != "" ==> |protocol| >= 3 && protocol[|protocol| - 3..] == "://"
  {
    var pos := Find(url, "://", 0);
    if pos.Some? {
      assert url[pos.value..pos.value + 3] == "://";
      assert SplitProtocol(url).0[pos.value..] == url[pos.value..pos.value + 3];
    }
  }

  /** True when `location` is split into address and path for `protocol`. */
  predicate SplitsAddress(protocol: string, location: string)
  {
    protocol != "" && protocol != "file://" && '/' in location
  }

  /**
   * Address and path: for a protocol other than none and `file://`, the
   * address is the location up to its first `/` and the path starts there;
   * otherwise the address is empty and the path is the whole location.
   */
  function SplitAddress(protocol: string, location: string): (r: (string, string))
    ensures r.0 + r.1 == location
  {
    var pos := FindChar(location, '/', 0);
    if protocol != "" && protocol != "file://" && pos.Some? then
      (location[..pos.value], location[pos.value..])
    else
      ("", location)
  }

  /** The address stops at the first `/` when the location is split, and is empty otherwise. */
  lemma AddressAtFirstSlash(protocol: string, location: string)
    ensures var r := SplitAddress(protocol, location);
      (SplitsAddress(protocol, location) ==> '/' !in r.0 && r.1 != "" && r.1[0] == '/') &&
      (!SplitsAddress(protocol, location) ==> r.0 == "" && r.1 == location)
  {
  }

  /**
   * Login and host: split at the first `@`; without one, the login is
   * empty and the host is the whole address.
   */
  function SplitLogin(address: string): (r: (string, string))
    ensures |r.0| + |r.1| <= |address|
  {
    match FindChar(address, '@', 0)
    case Some(pos) => (address[..pos], address[pos + 1..])
    case None => ("", address)
  }

  /** Login and host are split at the first `@`, which belongs to neither. */
  lemma LoginAtFirstAt(address: string)
    ensures var r := SplitLogin(address);
      ('@' in address ==> r.0 + "@" + r.1 == address && '@' !in r.0) &&
      ('@' !in address ==> r.0 == "" && r.1 == address)
  {
  }

  /**
   * Username and password: split at the first `:`; without one, the
   * username is the whole login and the password is empty.
   */
  function SplitCredentials(login: string): (r: (string, string))
    ensures |r.0| + |r.1| <= |login|
  {
    match FindChar(login, ':', 0)
    case Some(pos) => (login[..pos], login[pos + 1..])
    case None => (login, "")
  }

  /** Username and password are split at the first `:`, which belongs to neither. */
  lemma CredentialsAtFirstColon(login: string)
    ensures var r := SplitCredentials(login);
      (':' in login ==> r.0 + ":" + r.1 == login && ':' !in r.0) &&
      (':' !in login ==> r.0 == login && r.1 == "")
  {
  }

  /** What `analyze` computes for `url`. */
  function Analysis(url: string): Parts
  {
    var scheme := SplitProtocol(url);
    var place := SplitAddress(scheme.0, scheme.1);
    var account := SplitLogin(place.0);
    var credentials := SplitCredentials(account.0);
    Parts(scheme.0, scheme.1, place.0, place.1, account.0, account.1, credentials.0, credentials.1)
  }

  /**
   * The parts put back together give the original string: the protocol,
   * the address and the path in a row; the address is the login and `@`
   * (when it has one) before the host; the login is the username and `:`
   * (when it has one) before the password.
   */
  lemma Reassemble(url: string)
    ensures var r := Analysis(url);
      && url == r.protocol + r.location
      && r.location == r.address + r.path
      && url == r.protocol + r.address + r.path
      && (r.address != "" ==> '/' !in r.address && r.path != "" && r.path[0] == '/')
      && r.address == (if '@' in r.address then r.login + "@" else "") + r.host
      && r.login == (if ':' in r.login then r.username + ":" + r.password else r.username)
  {
    var r := Analysis(url);
    AddressAtFirstSlash(r.protocol, r.location);
    ConcatAssociative(r.protocol, r.address, r.path);
    LoginJoin(r.address);
    CredentialsJoin(r.login);
  }

  /** The login, `@` when present, and the host spell the address. */
  lemma LoginJoin(address: string)
    ensures var r := SplitLogin(address);
      address == (if '@' in address then r.0 + "@" else "") + r.1
  {
    var r := SplitLogin(address);
    LoginAtFirstAt(address);
    if '@' !in address {
      assert address == "" + r.1;
    }
  }

  /** The username, `:` when present, and the password spell the login. */
  lemma CredentialsJoin(login: string)
    ensures var r := SplitCredentials(login);
      login == (if ':' in login then r.0 + ":" + r.1 else r.0)
  {
    CredentialsAtFirstColon(login);
  }

  /** Without a protocol the whole string is the path. */
  lemma NoProtocolIsPath(url: string)
    requires forall i: nat :: !SchemeMarkAt(url, i)
    ensures var r := Analysis(url);
      r.protocol == "" && r.location == url && r.path == url && r.address == ""
      && r.host == "" && r.login == "" && r.username == "" && r.password == ""
  {
    ProtocolAtFirstMark(url);
    AddressAtFirstSlash("", url);
    LoginAtFirstAt("");
    CredentialsAtFirstColon("");
  }

  /** A `file://` URL never has an address: its location is its path. */
  lemma FileUrlIsPath(rest: string)
    requires forall i: nat :: !SchemeMarkAt(rest, i)
    ensures var r := Analysis("file://" + rest);
      r.protocol == "file://" && r.path == rest && r.address == "" && r.host == ""
  {
    var url := "file://" + rest;
    assert url[4..7] == "://";
    assert SchemeMarkAt(url, 4);
    NoSchemeMark(url, 0);
    NoSchemeMark(url, 1);
    NoSchemeMark(url, 2);
    NoSchemeMark(url, 3);
    assert Find(url, "://", 0) == Some(4);
    assert url[..7] == "file://" && url[7..] == rest;
    assert SplitProtocol(url) == ("file://", rest);
  }

  /** `ssh://host` has no `/` after the protocol: the host lands in the path. */
  lemma HostOnlyLandsInPath()
    ensures var r := Analysis("ssh://host");
      r.protocol == "ssh://" && r.location == "host" && r.path == "host"
      && r.address == "" && r.host == ""
  {
    var url := "ssh://host";
    assert url[3..6] == "://";
    NoSchemeMark(url, 0);
    NoSchemeMark(url, 1);
    NoSchemeMark(url, 2);
    assert Find(url, "://", 0) == Some(3);
    assert url[..6] == "ssh://" && url[6..] == "host";
    assert SplitProtocol(url) == ("ssh://", "host");
    var location := "host";
    assert '/' !in location by {
      assert location[0] != '/' && location[1] != '/' && location[2] != '/' && location[3] != '/';
    }
  }

  lemma SshProtocol()
    ensures SplitProtocol("ssh://user:pw@host/x") == ("ssh://", "user:pw@host/x")
  {
    var url := "ssh://user:pw@host/x";
    assert url[..6] == "ssh://";
    SshProtocolOf(url);
    assert url[6..] == "user:pw@host/x";
  }

  /** A url that starts with `ssh://` has exactly that protocol. */
  lemma SshProtocolOf(url: string)
    requires |url| >= 6 && url[..6] == "ssh://"
    ensures SplitProtocol(url) == ("ssh://", url[6..])
  {
    assert url[0] == url[..6][0] && url[1] == url[..6][1] && url[2] == url[..6][2];
    NoSchemeMark(url, 0);
    NoSchemeMark(url, 1);
    NoSchemeMark(url, 2);
    assert url[3..6] == url[..6][3..];
    FirstSchemeMark(url, 3);
  }

  /** The search finds the mark at `k` when no mark starts before it. */
  lemma FirstSchemeMark(url: string, k: nat)
    requires SchemeMarkAt(url, k)
    requires forall i: nat :: i < k ==> !SchemeMarkAt(url, i)
    ensures Find(url, "://", 0) == Some(k)
  {
    var r := Find(url, "://", 0);
    assert r.Some? ==> SchemeMarkAt(url, r.value);
    assert r.None? || r.value > k ==> !OccursAt(url, "://", k);
  }

  lemma SshAddress()
    ensures SplitAddress("ssh://", "user:pw@host/x") == ("user:pw@host", "/x")
  {
    var location := "user:pw@host/x";
    assert location[..12] == "user:pw@host";
    assert '/' !in "user:pw@host";
    assert FindChar(location, '/', 0) == Some(12);
  }

  lemma SshLogin()
    ensures SplitLogin("user:pw@host") == ("user:pw", "host")
  {
    var address := "user:pw@host";
    assert address[..7] == "user:pw";
    assert '@' !in "user:pw";
    assert FindChar(address, '@', 0) == Some(7);
  }

  lemma SshCredentials()
    ensures SplitCredentials("user:pw") == ("user", "pw")
  {
    var login := "user:pw";
    assert login[..4] == "user";
    assert ':' !in "user";
    assert FindChar(login, ':', 0) == Some(4);
  }

  /** A full SSH URL splits into all eight parts. */
  lemma FullSshUrl()
    ensures var r := Analysis("ssh://user:pw@host/x");
      r.protocol == "ssh://" && r.location == "user:pw@host/x"
      && r.address == "user:pw@host" && r.path == "/x"
      && r.login == "user:pw" && r.host == "host"
      && r.username == "user" && r.password == "pw"
  {
    SshProtocol();
    SshAddress();
    SshLogin();
    SshCredentials();
  }

  /**
   * A URL object: the string it was built from and, once analysed, the
   * cached parts. The accessors analyse on first use.
   */
  class Url {
    var url: string
    var analyzed: bool
    var cache: Parts

    /** The cache, once filled, holds the parts of the current string. */
    predicate Valid()
      reads this
    {
      analyzed ==> cache == Analysis(url)
    }

    /** An empty URL, not yet analysed. */
    constructor ()
      ensures Valid() && url == "" && !analyzed && cache == Blank
    {
      url := "";
      analyzed := false;
      cache := Blank;
    }

    /** A URL over `s`, not yet analysed. */
    constructor FromString(s: string)
      ensures Valid() && url == s && !analyzed && cache == Blank
    {
      url := s;
      analyzed := false;
      cache := Blank;
    }

    /** A copy, including the analysis state and cached parts. */
    constructor Copy(other: Url)
      requires other.Valid()
      ensures Valid()
      ensures url == other.url && analyzed == other.analyzed && cache == other.cache
    {
      url := other.url;
      analyzed := other.analyzed;
      cache := other.cache;
    }

    /** Assignment from another URL: every field, the cache included. */
    method Assign(other: Url)
      requires other.Valid()
      modifies this
      ensures Valid()
      ensures url == old(other.url) && analyzed == old(other.analyzed) && cache == old(other.cache)
    {
      var u, a, c := other.url, other.analyzed, other.cache;
      url, analyzed, cache := u, a, c;
    }

    /** The string the URL was built from. */
    function ToString(): (r: string)
      reads this
      ensures r == url
    {
      url
    }

    /**
     * Fills the cache once; later calls change nothing. The string itself
     * is never touched.
     */
    method Analyze()
      requires Valid()
      modifies this
      ensures Valid() && analyzed && url == old(url)
      ensures cache == Analysis(old(url))
      ensures old(analyzed) ==> cache == old(cache)
    {
      if analyzed {
        return;
      }
      var u := url;
      var parts := Analysis(u);
      cache := parts;
      analyzed := true;
      assert url == u;
    }

    method Protocol() returns (r: string)
      requires Valid()
      modifies this
      ensures Valid() && analyzed && url == old(url)
      ensures r == Analysis(old(url)).protocol
    {
      Analyze();
      r := cache.protocol;
    }

    method Location() returns (r: string)
      requires Valid()
      modifies this
      ensures Valid() && analyzed && url == old(url)
      ensures r == Analysis(old(url)).location
    {
      Analyze();
      r := cache.location;
    }

    method Address() returns (r: string)
      requires Valid()
      modifies this
      ensures Valid() && analyzed && url == old(url)
      ensures r == Analysis(old(url)).address
    {
      Analyze();
      r := cache.address;
    }

    method Path() returns (r: string)
      requires Valid()
      modifies this
      ensures Valid() && analyzed && url == old(url)
      ensures r == Analysis(old(url)).path
    {
      Analyze();
      r := cache.path;
    }

    method Login() returns (r: string)
      requires Valid()
      modifies this
      ensures Valid() && analyzed && url == old(url)
      ensures r == Analysis(old(url)).login
    {
      Analyze();
      r := cache.login;
    }

    method Host() returns (r: string)
      requires Valid()
      modifies this
      ensures Valid() && analyzed && url == old(url)
      ensures r == Analysis(old(url)).host
    {
      Analyze();
      r := cache.host;
    }

    method Username() returns (r: string)
      requires Valid()
      modifies this
      ensures Valid() && analyzed && url == old(url)
      ensures r == Analysis(old(url)).username
    {
      Analyze();
      r := cache.username;
    }

    method Password() returns (r: string)
      requires Valid()
      modifies this
      ensures Valid() && analyzed && url == old(url)
      ensures r == Analysis(old(url)).password
    {
      Analyze();
      r := cache.password;
    }
  }
}
