/** Connection URLs: what the engine takes them apart into, and which ones come apart as meant. */
module EngineUrl {
  import opened Characters
  import opened Common
  import opened Values
  import opened Substrings

  // ---------------------------------------------------------------- percent-encoding

  /** The byte after a percent sign; a NUL is as bad as a digit that is none. */
  function EscapedByte(s: string): (r: Option<char>)
    requires |s| >= 2
  {
    var (high, low) := (HexValue(s[0]), HexValue(s[1]));
    if high.None? || low.None? || 16 * high.value + low.value == 0 then None
    else Some((16 * high.value + low.value) as char)
  }

  /** g_uri_unescape_string(); no result when the text is not valid percent-encoding. */
  function Decode(s: string): Option<string> {
    if s == "" then Some("")
    else if s[0] != '%' then
      var rest := Decode(s[1..]);
      if rest.Some? then Some([s[0]] + rest.value) else None
    else if |s| < 3 || EscapedByte(s[1..]).None? then None
    else
      var rest := Decode(s[3..]);
      if rest.Some? then Some([EscapedByte(s[1..]).value] + rest.value) else None
  }

  /** orm_uri_component_unescape(): what is not valid percent-encoding is taken literally. */
  function Unescape(s: string): string {
    var decoded := Decode(s);
    if decoded.Some? then decoded.value else s
  }

  // ---------------------------------------------------------------- taking a URL apart

  datatype Dialect = Sqlite | Postgres | MySql

  datatype Failure = NoScheme | UnknownScheme(scheme: string) | NotCompiledIn(dialect: Dialect) | NoDatabase

  datatype Parts =
    | File(path: string)
    | Network(dialect: Dialect, user: Option<string>, password: Option<string>, host: string, port: int, database: string)

  datatype Result = Parsed(parts: Parts) | Failed(failure: Failure)

  function IsSpace(c: char): bool {
    c in {' ', '\t', '\n', '\r', 11 as char, 12 as char}
  }

  function DigitRun(s: string): (n: nat)
    ensures n <= |s|
  {
    if s == "" || !IsDigit(s[0]) then 0 else 1 + DigitRun(s[1..])
  }

  /** g_ascii_strtoll() in base ten: blanks, a sign, digits; it saturates. */
  function StrToLong(s: string): int {
    if s != "" && IsSpace(s[0]) then StrToLong(s[1..])
    else
      var negative := s != "" && s[0] == '-';
      var digits := if s != "" && (s[0] == '-' || s[0] == '+') then s[1..] else s;
      var n: int := NatOf(digits[..DigitRun(digits)]);
      if negative then (if n > 0x8000_0000_0000_0000 then -0x8000_0000_0000_0000 else 0 - n)
      else if n >= 0x8000_0000_0000_0000 then 0x7FFF_FFFF_FFFF_FFFF
      else n
  }

  /** The cast of a 64-bit integer to a gint. */
  function ToInt(n: int): int {
    var low := n % 0x1_0000_0000;
    if low < 0x8000_0000 then low else low - 0x1_0000_0000
  }

  /** User, password, and where the host starts. */
  function CredentialsOf(p: string): (r: (Option<string>, Option<string>, nat))
    ensures r.2 <= |p|
  {
    var at, colon := IndexOf(p, '@'), IndexOf(p, ':');
    if at.None? then (None, None, 0)
    else if colon.Some? && colon.value < at.value then
      (Some(Unescape(p[..colon.value])), Some(Unescape(p[colon.value + 1..at.value])), at.value + 1)
    else (Some(Unescape(p[..at.value])), None, at.value + 1)
  }

  /** Host, port and database, off what follows the credentials. */
  function LocationOf(rest: string, defaultPort: int): Option<(string, int, string)> {
    var slash, colon := IndexOf(rest, '/'), IndexOf(rest, ':');
    if slash.None? then None
    else if colon.Some? && colon.value < slash.value then
      Some((rest[..colon.value], ToInt(StrToLong(rest[colon.value + 1..])), rest[slash.value + 1..]))
    else Some((rest[..slash.value], defaultPort, rest[slash.value + 1..]))
  }

  function NetworkParts(p: string, dialect: Dialect, defaultPort: int): Result {
    var (user, password, from) := CredentialsOf(p);
    var location := LocationOf(p[from..], defaultPort);
    if location.None? then Failed(NoDatabase) else
      Parsed(Network(dialect, user, password, location.value.0, location.value.1, location.value.2))
  }

  const MEMORY := ":memory:"

  function Parse(url: string, postgres: bool, mysql: bool): Result {
    var schemeEnd := FirstOccurrence(url, "://");
    if schemeEnd.None? then Failed(NoScheme) else
      var scheme, p := url[..schemeEnd.value], url[schemeEnd.value + 3..];
      if scheme == "sqlite" then Parsed(File(if p == "/" + MEMORY || p == MEMORY then MEMORY else p))
      else if scheme == "postgresql" || scheme == "postgres" then
        if postgres then NetworkParts(p, Postgres, 5432) else Failed(NotCompiledIn(Postgres))
      else if scheme == "mysql" || scheme == "mariadb" then
        if mysql then NetworkParts(p, MySql, 3306) else Failed(NotCompiledIn(MySql))
      else Failed(UnknownScheme(scheme))
  }

  // ---------------------------------------------------------------- the engine

  class Engine {
    const postgres: bool
    const mysql: bool
    var url: Option<string>
    var databasePath: Option<string>
    var host: Option<string>
    var port: int
    var username: Option<string>
    var password: Option<string>
    var database: Option<string>
    var dialect: Dialect

    constructor (postgres: bool, mysql: bool)
      ensures this.postgres == postgres && this.mysql == mysql && url == None
      ensures databasePath == host == username == password == database == None && port == 0
    {
      this.postgres, this.mysql := postgres, mysql;
      url, databasePath, host, username, password, database := None, None, None, None, None, None;
      port, dialect := 0, Sqlite;
    }

    method ParseCredentials(p: string) returns (hostStart: nat)
      modifies this`username, this`password
      ensures (username, password, hostStart) == CredentialsOf(p)
    {
      hide IndexOf, Unescape;
      var at := IndexOf(p, '@');
      if at.None? {
        username, password := None, None;
        return 0;
      }
      var colon := IndexOf(p, ':');
      if colon.Some? && colon.value < at.value {
        username := Some(Unescape(p[..colon.value]));
        password := Some(Unescape(p[colon.value + 1..at.value]));
      } else {
        username, password := Some(Unescape(p[..at.value])), None;
      }
      return at.value + 1;
    }

    /** Reads user, password, host, port and database off `p`. */
    method ParseNetwork(p: string, defaultPort: int) returns (failure: Option<Failure>)
      modifies this`username, this`password, this`host, this`port, this`database
      ensures match NetworkParts(p, dialect, defaultPort)
              case Failed(f) => failure == Some(f)
              case Parsed(parts) =>
                && failure == None && parts.Network?
                && username == parts.user && password == parts.password
                && host == Some(parts.host) && port == parts.port && database == Some(parts.database)
    {
      hide CredentialsOf, IndexOf, StrToLong, ToInt;
      var hostStart := ParseCredentials(p);
      var rest := p[hostStart..];
      var slash := IndexOf(rest, '/');
      if slash.None? {
        return Some(NoDatabase);
      }
      database := Some(rest[slash.value + 1..]);
      var colon := IndexOf(rest, ':');
      if colon.Some? && colon.value < slash.value {
        host := Some(rest[..colon.value]);
        port := ToInt(StrToLong(rest[colon.value + 1..]));
      } else {
        host, port := Some(rest[..slash.value]), defaultPort;
      }
      return None;
    }

    /** orm_engine_parse_url(): the URL is kept only when it came apart. */
    method ParseUrl(text: string) returns (failure: Option<Failure>)
      modifies this
      ensures match Parse(text, postgres, mysql)
              case Failed(f) => failure == Some(f) && url == old(url)
              case Parsed(File(path)) => failure == None && url == Some(text) && dialect == Sqlite && databasePath == Some(path)
              case Parsed(parts) =>
                && failure == None && url == Some(text) && dialect == parts.dialect
                && username == parts.user && password == parts.password
                && host == Some(parts.host) && port == parts.port && database == Some(parts.database)
    {
      hide CredentialsOf, LocationOf, FirstOccurrence;
      var schemeEnd := FirstOccurrence(text, "://");
      if schemeEnd.None? {
        return Some(NoScheme);
      }
      var scheme, p := text[..schemeEnd.value], text[schemeEnd.value + 3..];
      if scheme == "sqlite" {
        dialect := Sqlite;
        databasePath := Some(if p == "/" + MEMORY || p == MEMORY then MEMORY else p);
      } else if scheme == "postgresql" || scheme == "postgres" {
        dialect := Postgres;
        if !postgres {
          return Some(NotCompiledIn(Postgres));
        }
        failure := ParseNetwork(p, 5432);
        if failure.Some? {
          return;
        }
      } else if scheme == "mysql" || scheme == "mariadb" {
        dialect := MySql;
        if !mysql {
          return Some(NotCompiledIn(MySql));
        }
        failure := ParseNetwork(p, 3306);
        if failure.Some? {
          return;
        }
      } else {
        return Some(UnknownScheme(scheme));
      }
      url := Some(text);
      failure := None;
    }
  }

  // ---------------------------------------------------------------- writing a URL

  /** `s` spells `text`: a character as itself, or as a percent sign and two digits. */
  predicate Spells(s: string, text: string)
    decreases |text|
  {
    if text == "" then s == "" else
      || (s != "" && s[0] == text[0] && s[0] != '%' && Spells(s[1..], text[1..]))
      || (|s| >= 3 && s[0] == '%' && EscapedByte(s[1..]) == Some(text[0]) && Spells(s[3..], text[1..]))
  }

  lemma {:induction false} SpellingDecodes(s: string, text: string)
    requires Spells(s, text)
    ensures Unescape(s) == text && Decode(s).Some?
    decreases |text|
  {
    if text != "" {
      assert text == [text[0]] + text[1..];
      SpellingDecodes(if s[0] == '%' then s[3..] else s[1..], text[1..]);
    }
  }

  /** What can be decoded is a spelling of what it is decoded to. */
  lemma {:induction false} DecodedIsSpelled(s: string)
    ensures Decode(s).Some? ==> Spells(s, Decode(s).value)
    decreases |s|
  {
    if s != "" && Decode(s).Some? {
      if s[0] != '%' {
        DecodedIsSpelled(s[1..]);
        assert ([s[0]] + Decode(s[1..]).value)[1..] == Decode(s[1..]).value;
      } else {
        DecodedIsSpelled(s[3..]);
        assert ([EscapedByte(s[1..]).value] + Decode(s[3..]).value)[1..] == Decode(s[3..]).value;
      }
    }
  }

  /**
   A component stands for the text that it spells; one that spells none, with a percent sign that no
   two hexadecimal digits follow or one for a NUL, stands for itself.
   */
  lemma UnescapeMeans(s: string, text: string)
    ensures Unescape(s) == text <==> Spells(s, text) || (text == s && forall other :: !Spells(s, other))
  {
    hide Spells, Decode;
    DecodedIsSpelled(s);
    if Spells(s, text) {
      SpellingDecodes(s, text);
    }
    if Decode(s).None? {
      forall other ensures !Spells(s, other) {
        if Spells(s, other) {
          SpellingDecodes(s, other);
        }
      }
    } else {
      assert Spells(s, Decode(s).value);
    }
  }

  /** User, password and host as they are written; a password needs a user. */
  datatype Address = Address(user: Option<string>, password: Option<string>, host: string, port: Option<nat>, database: string)

  function Credentials(a: Address): string {
    if a.user.None? then "" else a.user.value + (if a.password.Some? then ":" + a.password.value else "") + "@"
  }

  function Location(a: Address): string {
    a.host + (if a.port.Some? then ":" + NatText(a.port.value) else "") + "/" + a.database
  }

  function Print(scheme: string, a: Address): string {
    scheme + "://" + (Credentials(a) + Location(a))
  }

  /** What RFC 3986 wants percent-encoded here is. */
  predicate Proper(a: Address) {
    && (a.user.None? ==> a.password.None?)
    && (a.user.Some? ==> '@' !in a.user.value && ':' !in a.user.value)
    && (a.password.Some? ==> '@' !in a.password.value)
    && '/' !in a.host && ':' !in a.host && '@' !in a.host
  }

  function Meant(a: Address, dialect: Dialect, defaultPort: int): Parts {
    Network(dialect,
            if a.user.Some? then Some(Unescape(a.user.value)) else None,
            if a.password.Some? then Some(Unescape(a.password.value)) else None,
            a.host, if a.port.Some? then a.port.value else defaultPort, a.database)
  }

  function DialectOf(scheme: string): Option<(Dialect, int)> {
    if scheme == "postgresql" || scheme == "postgres" then Some((Postgres, 5432))
    else if scheme == "mysql" || scheme == "mariadb" then Some((MySql, 3306))
    else None
  }

  lemma {:induction false} DigitsStop(digits: string, rest: string)
    requires forall i | 0 <= i < |digits| :: IsDigit(digits[i])
    requires rest == "" || !IsDigit(rest[0])
    ensures DigitRun(digits + rest) == |digits|
  {
    if digits == "" {
      assert digits + rest == rest;
    } else {
      assert (digits + rest)[1..] == digits[1..] + rest;
      DigitsStop(digits[1..], rest);
    }
  }

  /** An integer of any size as 64 bits hold it. */
  function Saturated(n: int): int {
    if n > 0x7FFF_FFFF_FFFF_FFFF then 0x7FFF_FFFF_FFFF_FFFF
    else if n < -0x8000_0000_0000_0000 then -0x8000_0000_0000_0000
    else n
  }

  lemma UnsignedReads(n: nat, rest: string)
    requires rest == "" || !IsDigit(rest[0])
    ensures StrToLong(NatText(n) + rest) == Saturated(n)
  {
    hide NatText, NatOf, DigitRun;
    var digits := NatText(n);
    var s := digits + rest;
    NatTextIsDecimal(n);
    assert forall i | 0 <= i < |digits| :: digits[i] in digits;
    DigitsStop(digits, rest);
    assert s[0] == digits[0] && s[..|digits|] == digits;
  }

  lemma SignedReads(minus: bool, n: nat, rest: string)
    requires rest == "" || !IsDigit(rest[0])
    ensures StrToLong([if minus then '-' else '+'] + (NatText(n) + rest)) == Saturated(if minus then 0 - n else n)
  {
    hide NatText, NatOf, DigitRun;
    var digits := NatText(n);
    var s := [if minus then '-' else '+'] + (digits + rest);
    NatTextIsDecimal(n);
    assert forall i | 0 <= i < |digits| :: digits[i] in digits;
    DigitsStop(digits, rest);
    assert s[1..] == digits + rest && (digits + rest)[..|digits|] == digits;
  }

  lemma {:induction false} BlanksSkipped(blanks: string, s: string)
    requires forall c | c in blanks :: c in {' ', '\t', '\n', '\r', 11 as char, 12 as char}
    ensures StrToLong(blanks + s) == StrToLong(s)
  {
    if blanks == "" {
      assert blanks + s == s;
    } else {
      assert blanks[0] in blanks && forall c | c in blanks[1..] :: c in blanks;
      assert (blanks + s)[1..] == blanks[1..] + s;
      BlanksSkipped(blanks[1..], s);
    }
  }

  /** strtoll() reads any integer back after any blanks, with its sign, and saturates at the ends of 64 bits. */
  lemma StrToLongReads(blanks: string, n: int, rest: string)
    requires forall c | c in blanks :: c in {' ', '\t', '\n', '\r', 11 as char, 12 as char}
    requires rest == "" || !IsDigit(rest[0])
    ensures StrToLong(blanks + (IntText(n) + rest)) == Saturated(n)
    ensures n >= 0 ==> StrToLong(blanks + ("+" + IntText(n) + rest)) == Saturated(n)
  {
    hide StrToLong, NatText, Saturated;
    BlanksSkipped(blanks, IntText(n) + rest);
    BlanksSkipped(blanks, "+" + IntText(n) + rest);
    if n < 0 {
      SignedReads(true, -n, rest);
      assert IntText(n) + rest == ['-'] + (NatText(-n) + rest);
    } else {
      UnsignedReads(n, rest);
      SignedReads(false, n, rest);
      assert "+" + IntText(n) + rest == ['+'] + (NatText(n) + rest);
    }
  }

  /** A port is what its number is modulo 2 to the 32, as a signed 32-bit integer, however it is spelled. */
  lemma PortWraps(n: int64, rest: string)
    requires rest == "" || !IsDigit(rest[0])
    ensures var port := ToInt(StrToLong(IntText(n) + rest));
            -0x8000_0000 <= port < 0x8000_0000 && (port - n) % 0x1_0000_0000 == 0
  {
    hide StrToLong, IntText;
    assert "" + (IntText(n) + rest) == IntText(n) + rest;
    StrToLongReads("", n, rest);
    var q := n / 0x1_0000_0000;
    assert n == q * 0x1_0000_0000 + n % 0x1_0000_0000;
  }

  /** The gint that a printed port is read as. */
  function PortOf(port: nat): int {
    ToInt(StrToLong(NatText(port) + "/"))
  }

  /** A port comes back if and only if it fits a gint. */
  lemma PortReads(port: nat, database: string)
    ensures ToInt(StrToLong(NatText(port) + ("/" + database))) == PortOf(port)
    ensures PortOf(port) == port <==> port < 0x8000_0000
  {
    hide StrToLong, NatText;
    UnsignedReads(port, "/" + database);
    UnsignedReads(port, "/");
  }

  lemma LocationShape(a: Address)
    ensures Location(a)
            == if a.port.Some? then a.host + ":" + NatText(a.port.value) + ("/" + a.database) else a.host + ['/'] + a.database
  {
  }

  lemma LocationReads(a: Address, defaultPort: int)
    requires Proper(a)
    ensures LocationOf(Location(a), defaultPort)
            == Some((a.host, if a.port.Some? then PortOf(a.port.value) else defaultPort, a.database))
  {
    hide IndexOf, NatText, StrToLong, ToInt, Location, LocationOf;
    LocationShape(a);
    if a.port.Some? {
      NatTextIsDecimal(a.port.value);
      PortedLocation(a.host, NatText(a.port.value), a.database, defaultPort);
      PortReads(a.port.value, a.database);
    } else {
      UnportedLocation(a.host, a.database, defaultPort);
    }
  }

  lemma UnportedLocation(host: string, database: string, defaultPort: int)
    requires '/' !in host && ':' !in host
    ensures LocationOf(host + ['/'] + database, defaultPort) == Some((host, defaultPort, database))
  {
    hide IndexOf, StrToLong, ToInt;
    var rest := host + ['/'] + database;
    IndexAfter(host, '/', database);
    assert forall i | 0 <= i < |host| :: rest[i] == host[i] && host[i] in host;
    assert rest[..|host|] == host && rest[|host| + 1..] == database;
  }

  lemma PortedLocation(host: string, digits: string, database: string, defaultPort: int)
    requires '/' !in host && ':' !in host && '/' !in digits
    ensures LocationOf(host + ":" + digits + ("/" + database), defaultPort)
            == Some((host, ToInt(StrToLong(digits + ("/" + database))), database))
  {
    hide IndexOf, StrToLong, ToInt;
    var rest := host + ":" + digits + ("/" + database);
    assert rest == host + [':'] + (digits + ("/" + database));
    IndexAfter(host, ':', digits + ("/" + database));
    assert rest == (host + ":" + digits) + ['/'] + database;
    IndexAfter(host + ":" + digits, '/', database);
    assert rest[..|host|] == host && rest[|host| + 1..] == digits + ("/" + database);
    assert rest[|host| + 1 + |digits| + 1..] == database;
  }

  lemma UserRead(user: string, location: string)
    requires '@' !in user && ':' !in user
    ensures CredentialsOf(user + ['@'] + location) == (Some(Unescape(user)), None, |user| + 1)
  {
    hide IndexOf, Unescape;
    var p := user + ['@'] + location;
    IndexAfter(user, '@', location);
    assert p[..|user|] == user;
    assert forall i | 0 <= i < |user| :: p[i] == user[i] && user[i] in user;
  }

  lemma UserAndPasswordRead(user: string, password: string, location: string)
    requires '@' !in user && ':' !in user && '@' !in password
    ensures CredentialsOf(user + ":" + password + ['@'] + location)
            == (Some(Unescape(user)), Some(Unescape(password)), |user| + 1 + |password| + 1)
  {
    hide IndexOf, Unescape;
    var p := user + ":" + password + ['@'] + location;
    IndexAfter(user + ":" + password, '@', location);
    assert p == user + [':'] + (password + ['@'] + location);
    IndexAfter(user, ':', password + ['@'] + location);
    assert p[..|user|] == user && p[|user| + 1..|user| + 1 + |password|] == password;
  }

  lemma CredentialsRead(a: Address, location: string)
    requires Proper(a) && a.user.Some?
    ensures CredentialsOf(Credentials(a) + location)
            == (Some(Unescape(a.user.value)),
                if a.password.Some? then Some(Unescape(a.password.value)) else None,
                |Credentials(a)|)
  {
    hide CredentialsOf, Unescape;
    if a.password.Some? {
      UserAndPasswordRead(a.user.value, a.password.value, location);
      assert Credentials(a) == a.user.value + ":" + a.password.value + ['@']
          by { assert ":" + a.password.value + "@" == ":" + a.password.value + ['@']; }
    } else {
      UserRead(a.user.value, location);
      assert Credentials(a) == a.user.value + ['@'];
    }
  }

  lemma AtSignOfLocation(a: Address)
    requires Proper(a)
    ensures '@' in Location(a) <==> '@' in a.database
  {
    if a.port.Some? {
      NatTextIsDecimal(a.port.value);
    }
  }

  /** The port, if there is one, fits a gint. */
  predicate PortFits(a: Address) {
    a.port.Some? ==> a.port.value < 0x8000_0000
  }

  /** With credentials any database name comes back; without, one that has no at-sign in it. */
  lemma NetworkRoundTrip(a: Address, dialect: Dialect, defaultPort: int)
    requires Proper(a)
    ensures NetworkParts(Credentials(a) + Location(a), dialect, defaultPort) == Parsed(Meant(a, dialect, defaultPort))
            <==> (a.user.Some? || '@' !in a.database) && PortFits(a)
  {
    hide IndexOf, Location, LocationOf, Unescape, PortOf;
    if a.port.Some? {
      PortReads(a.port.value, a.database);
    }
    var location := Location(a);
    var p := Credentials(a) + location;
    LocationReads(a, defaultPort);
    if a.user.Some? {
      CredentialsRead(a, location);
      assert p[|Credentials(a)|..] == location;
    } else {
      assert p == location && p[0..] == p;
      AtSignOfLocation(a);
    }
  }

  /**
   Printing and parsing: for a proper address under a network scheme whose support is compiled
   in, the parts come back, decoded, if and only if there are credentials or the database name
   has no at-sign in it, and the port fits a gint.
   */
  lemma UrlRoundTrip(scheme: string, a: Address, postgres: bool, mysql: bool)
    requires DialectOf(scheme).Some? && Proper(a)
    requires if DialectOf(scheme).value.0.Postgres? then postgres else mysql
    ensures var (dialect, defaultPort) := DialectOf(scheme).value;
            Parse(Print(scheme, a), postgres, mysql) == Parsed(Meant(a, dialect, defaultPort))
            <==> (a.user.Some? || '@' !in a.database) && PortFits(a)
  {
    hide FirstOccurrence, NetworkParts, Credentials, Location, Meant;
    var (dialect, defaultPort) := DialectOf(scheme).value;
    var rest := Credentials(a) + Location(a);
    var url := Print(scheme, a);
    assert "://"[0] !in scheme;
    FirstAfter(scheme, "://", rest);
    assert url[..|scheme|] == scheme && url[|scheme| + 3..] == rest;
    NetworkRoundTrip(a, dialect, defaultPort);
  }

  /** Support for the dialect is compiled in. */
  predicate Supported(dialect: Dialect, postgres: bool, mysql: bool) {
    match dialect
    case Sqlite => true
    case Postgres => postgres
    case MySql => mysql
  }

  /** Which URLs are refused, and why: an unknown or unsupported scheme, or no slash after the host. */
  lemma WhenParsingFails(scheme: string, rest: string, postgres: bool, mysql: bool)
    requires ':' !in scheme && scheme != "sqlite"
    ensures var (at, network) := (IndexOf(rest, '@'), DialectOf(scheme));
            var r := Parse(scheme + "://" + rest, postgres, mysql);
            if network.None? then r == Failed(UnknownScheme(scheme))
            else if !Supported(network.value.0, postgres, mysql) then r == Failed(NotCompiledIn(network.value.0))
            else r == Failed(NoDatabase) <==> '/' !in if at.Some? then rest[at.value + 1..] else rest
  {
    hide FirstOccurrence, NetworkParts, IndexOf;
    FirstAfter(scheme, "://", rest);
    var url := scheme + "://" + rest;
    assert url[..|scheme|] == scheme && url[|scheme| + 3..] == rest;
    if DialectOf(scheme).Some? {
      WhenLocationIsMissing(rest, DialectOf(scheme).value.0, DialectOf(scheme).value.1);
    }
  }

  lemma WhenLocationIsMissing(rest: string, dialect: Dialect, defaultPort: int)
    ensures var at := IndexOf(rest, '@');
            NetworkParts(rest, dialect, defaultPort) == Failed(NoDatabase)
            <==> '/' !in if at.Some? then rest[at.value + 1..] else rest
  {
    hide IndexOf, Unescape, StrToLong, ToInt;
    assert rest[0..] == rest;
  }

  /** Nothing is a URL without the three marks; and with them that is never what is wrong. */
  lemma SchemeIsNeeded(url: string, postgres: bool, mysql: bool)
    ensures Parse(url, postgres, mysql) == Failed(NoScheme) <==> !Occurs(url, "://")
  {
    hide FirstOccurrence, Occurs, CredentialsOf, LocationOf;
  }

  /** The four network schemes, their dialects and their default ports. */
  lemma DefaultPorts(host: string, database: string)
    requires '/' !in host && ':' !in host && '@' !in host && '@' !in database
    ensures Parse("postgresql://" + (host + "/" + database), true, false) == Parsed(Network(Postgres, None, None, host, 5432, database))
    ensures Parse("postgres://" + (host + "/" + database), true, false) == Parsed(Network(Postgres, None, None, host, 5432, database))
    ensures Parse("mysql://" + (host + "/" + database), false, true) == Parsed(Network(MySql, None, None, host, 3306, database))
    ensures Parse("mariadb://" + (host + "/" + database), false, true) == Parsed(Network(MySql, None, None, host, 3306, database))
  {
    hide Parse, NetworkParts, Credentials;
    var a := Address(None, None, host, None, database);
    DefaultPort("postgresql", a);
    DefaultPort("postgres", a);
    DefaultPort("mysql", a);
    DefaultPort("mariadb", a);
    assert "postgresql" + "://" == "postgresql://" && "postgres" + "://" == "postgres://";
    assert "mysql" + "://" == "mysql://" && "mariadb" + "://" == "mariadb://";
  }

  lemma DefaultPort(scheme: string, a: Address)
    requires DialectOf(scheme).Some? && Proper(a) && a.user.None? && a.port.None? && '@' !in a.database
    ensures var (dialect, port) := DialectOf(scheme).value;
            Parse(scheme + "://" + (a.host + "/" + a.database), dialect.Postgres?, dialect.MySql?)
            == Parsed(Network(dialect, None, None, a.host, port, a.database))
  {
    hide Parse;
    var (dialect, port) := DialectOf(scheme).value;
    UrlRoundTrip(scheme, a, dialect.Postgres?, dialect.MySql?);
    assert Credentials(a) + Location(a) == a.host + "/" + a.database;
  }

  /** A SQLite path is taken as it stands, except for the two spellings of the in-memory database. */
  lemma SqlitePaths(p: string)
    ensures Parse("sqlite://" + p, false, false) == Parsed(File(if p == "/:memory:" then ":memory:" else p))
  {
    hide FirstOccurrence;
    FirstAfter("sqlite", "://", p);
    var url := "sqlite" + "://" + p;
    assert url == "sqlite://" + p && url[..6] == "sqlite" && url[9..] == p;
    assert "/" + MEMORY == "/:memory:";
  }

  // ---------------------------------------------------------------- every text can be spelled

  predicate Unreserved(c: char) {
    'a' <= c <= 'z' || 'A' <= c <= 'Z' || IsDigit(c) || c in {'-', '.', '_', '~'}
  }

  /** A text of bytes other than NUL. */
  predicate IsBytes(s: string) {
    forall i | 0 <= i < |s| :: 0 < s[i] as nat < 256
  }

  /** Percent-encoding as in section 2.1 of RFC 3986. */
  function Encode(s: string): string
    requires IsBytes(s)
  {
    if s == "" then "" else
      (if Unreserved(s[0]) then [s[0]]
       else ['%', UpperHex(s[0] as nat / 16), UpperHex(s[0] as nat % 16)]) + Encode(s[1..])
  }

  lemma UpperHexReads(n: nat)
    requires n < 16
    ensures HexValue(UpperHex(n)) == Some(n) && Unreserved(UpperHex(n))
  {
  }

  lemma EscapeReads(c: char, rest: string)
    requires 0 < c as nat < 256
    ensures EscapedByte([UpperHex(c as nat / 16), UpperHex(c as nat % 16)] + rest) == Some(c)
  {
    hide UpperHex, HexValue;
    UpperHexReads(c as nat / 16);
    UpperHexReads(c as nat % 16);
  }

  lemma SpellsPlain(c: char, s: string, text: string)
    requires Spells(s, text) && c != '%'
    ensures Spells([c] + s, [c] + text)
  {
    assert ([c] + s)[1..] == s && ([c] + text)[1..] == text;
  }

  lemma SpellsEscaped(high: char, low: char, c: char, s: string, text: string)
    requires Spells(s, text) && EscapedByte([high, low] + s) == Some(c)
    ensures Spells(['%', high, low] + s, [c] + text)
  {
    var written := ['%', high, low] + s;
    assert written[1..] == [high, low] + s && written[3..] == s && ([c] + text)[1..] == text;
  }

  lemma {:induction false} EncodingSpells(s: string)
    requires IsBytes(s)
    ensures Spells(Encode(s), s)
  {
    hide EscapedByte, UpperHex, Unreserved, Spells;
    if s == "" {
      NothingSpelled();
    } else {
      EncodingSpells(s[1..]);
      NoMarks(s[0]);
      assert s == [s[0]] + s[1..];
      if Unreserved(s[0]) {
        SpellsPlain(s[0], Encode(s[1..]), s[1..]);
      } else {
        EscapeReads(s[0], Encode(s[1..]));
        SpellsEscaped(UpperHex(s[0] as nat / 16), UpperHex(s[0] as nat % 16), s[0], Encode(s[1..]), s[1..]);
      }
    }
  }

  lemma NothingSpelled()
    ensures Spells("", "")
  {
  }

  lemma {:induction false} EncodingIsUnmarked(s: string)
    requires IsBytes(s)
    ensures '@' !in Encode(s) && ':' !in Encode(s)
  {
    hide UpperHex, Unreserved;
    if s != "" {
      EncodingIsUnmarked(s[1..]);
      NoMarks(s[0]);
    }
  }

  lemma NoMarks(c: char)
    requires 0 < c as nat < 256
    ensures Unreserved(c) ==> c !in {'@', ':', '%'}
    ensures UpperHex(c as nat / 16) !in {'@', ':'} && UpperHex(c as nat % 16) !in {'@', ':'}
  {
    UpperHexReads(c as nat / 16);
    UpperHexReads(c as nat % 16);
  }

  /** With percent-encoded credentials every user, password and database name comes back. */
  lemma EncodedUrlComesBack(scheme: string, user: string, password: string, host: string, port: Option<nat>,
                            database: string, postgres: bool, mysql: bool)
    requires IsBytes(user) && IsBytes(password)
    requires '/' !in host && ':' !in host && '@' !in host && (port.Some? ==> port.value < 0x8000_0000)
    requires DialectOf(scheme).Some? && if DialectOf(scheme).value.0.Postgres? then postgres else mysql
    ensures var (dialect, defaultPort) := DialectOf(scheme).value;
            Parse(Print(scheme, Address(Some(Encode(user)), Some(Encode(password)), host, port, database)), postgres, mysql)
            == Parsed(Network(dialect, Some(user), Some(password), host, if port.Some? then port.value else defaultPort, database))
  {
    hide Parse, Print, Encode, Spells, Unescape, Decode;
    EncodingSpells(user);
    EncodingSpells(password);
    EncodingIsUnmarked(user);
    EncodingIsUnmarked(password);
    SpellingDecodes(Encode(user), user);
    SpellingDecodes(Encode(password), password);
    UrlRoundTrip(scheme, Address(Some(Encode(user)), Some(Encode(password)), host, port, database), postgres, mysql);
  }
}
