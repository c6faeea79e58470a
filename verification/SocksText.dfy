// Upstream lists as text: the export line of a relay and the line parser.
module SocksText {
  import opened RelayItems
  import opened Text
  import Decimal

  // URL and JSON reading and the check for a numeric address are library calls.
  datatype Libraries = Libraries(
    url: string -> Result<Upstream>,
    json: string -> Option<Result<seq<Upstream>>>,
    isAddress: string -> bool)

  function PrintInt(n: int): string {
    if n < 0 then "-" + Decimal.Print(-n) else Decimal.Print(n)
  }

  function Export(host: string, port: int, username: string, password: string): string {
    Trim(host, IsBracket) + [':'] + (PrintInt(port) + [':'] + (username + [':'] + password))
  }

  predicate ValidUpstream(u: Upstream, lib: Libraries) {
    var server := Trim(Trim(u.server, IsBracket), IsSpace);
    && server != "" && 1 <= u.port <= 65535
    && (forall c :: c in server ==> c !in "/?#@ \t\r\n")
    && (lib.isAddress(server) || (|server| <= 253 && ':' !in server))
  }

  function Checked(u: Upstream, lib: Libraries): Result<Upstream> {
    if ValidUpstream(u, lib) then Success(u) else Failure("SOCKS5 server or port is invalid")
  }

  // An endpoint "host:port" with credentials "user:password".
  function WithCredentials(endpoint: string, credentials: string): Option<Upstream> {
    var hostPort := SplitHostPort(Trim(endpoint, IsSpace));
    if hostPort.None? then None
    else
      var port := Atoi(hostPort.value.1);
      var parts := Split(credentials, ':');
      if port.None? || |parts| < 2 || parts[0] == "" then None
      else Some(Upstream(Trim(hostPort.value.0, IsBracket), port.value, parts[0], Join(parts[1..], ':')))
  }

  // Four fields, of which the second or the last is the port.
  function FromFour(fields: seq<string>): Option<Upstream>
    requires |fields| == 4
  {
    if Atoi(fields[1]).Some? then
      Some(Upstream(Trim(fields[0], IsBracket), Atoi(fields[1]).value, fields[2], fields[3]))
    else if Atoi(fields[3]).Some? then
      Some(Upstream(Trim(fields[2], IsBracket), Atoi(fields[3]).value, fields[0], fields[1]))
    else None
  }

  function ParseLine(text: string, lib: Libraries): Result<Upstream> {
    var line := Trim(Trim(text, IsQuote), IsSpace);
    if line == "" then Failure("empty SOCKS5 entry")
    else if Contains(line, "://") then
      match lib.url(line)
      case Failure(e) => Failure(e)
      case Success(u) => Checked(u, lib)
    else
      var at := LastIndex(line, '@');
      var left := if at > 0 then line[..at] else "";
      var right := if at > 0 then line[at + 1..] else "";
      if at > 0 && WithCredentials(right, left).Some? then Checked(WithCredentials(right, left).value, lib)
      else if at > 0 && WithCredentials(left, right).Some? then Checked(WithCredentials(left, right).value, lib)
      else
        var fields := Fields(line);
        if |fields| == 4 && FromFour(fields).Some? then Checked(FromFour(fields).value, lib)
        else ParsePlain(line, lib)
  }

  function ParsePlain(line: string, lib: Libraries): Result<Upstream> {
    var hostPort := SplitHostPort(line);
    if hostPort.Some? then
      var port := Atoi(hostPort.value.1);
      if port.None? then Failure("invalid SOCKS5 port")
      else Checked(Upstream(Trim(hostPort.value.0, IsBracket), port.value, "", ""), lib)
    else
      var parts := Split(line, ':');
      if |parts| == 4 && FromFour(parts).Some? then Checked(FromFour(parts).value, lib)
      else if |parts| < 4 then Failure("expected host:port, host:port:user:pass, user:pass@host:port, or a SOCKS5 URL")
      else
        var n := |parts|;
        var port := Atoi(parts[n - 3]);
        if port.None? then Failure("invalid SOCKS5 port")
        else Checked(Upstream(Trim(Join(parts[..n - 3], ':'), IsBracket), port.value, parts[n - 2], parts[n - 1]), lib)
  }

  predicate Ignored(raw: string) {
    var line := Trim(raw, IsSpace);
    line == "" || HasPrefix(line, "#")
  }

  function ParseLines(lines: seq<string>, lib: Libraries): Result<seq<Upstream>> {
    if lines == [] then Success([])
    else match ParseLines(lines[..|lines| - 1], lib)
      case Failure(e) => Failure(e)
      case Success(before) =>
        var last := lines[|lines| - 1];
        if Ignored(last) then Success(before)
        else match ParseLine(Trim(last, IsSpace), lib)
          case Failure(e) => Failure(e)
          case Success(u) => Success(before + [u])
  }

  function Cleaned(text: string): string {
    Trim(if HasPrefix(text, "\U{FEFF}") then text[1..] else text, IsSpace)
  }

  function ParseText(text: string, lib: Libraries): Result<seq<Upstream>> {
    var cleaned := Cleaned(text);
    var json := if HasPrefix(cleaned, "{") || HasPrefix(cleaned, "[") then lib.json(cleaned) else None;
    if cleaned == "" then Failure("no valid SOCKS5 entries found")
    else if json.Some? && (json.value.Failure? || json.value.value != []) then json.value
    else match ParseLines(Split(ReplaceCRLF(cleaned), '\n'), lib)
      case Failure(e) => Failure(e)
      case Success(us) => if us == [] then Failure("no valid SOCKS5 entries found") else Success(us)
  }

  // Reads a list, one entry a line.
  method ParseRelayUpstreams(text: string, lib: Libraries) returns (r: Result<seq<Upstream>>)
    ensures r.Success? == ParseText(text, lib).Success?
    ensures r.Success? ==> r == ParseText(text, lib)
  {
    var cleaned := text;
    if HasPrefix(cleaned, "\U{FEFF}") {
      cleaned := cleaned[1..];
    }
    cleaned := Trim(cleaned, IsSpace);
    if cleaned == "" {
      return Failure("no valid SOCKS5 entries found");
    }
    if HasPrefix(cleaned, "{") || HasPrefix(cleaned, "[") {
      var json := lib.json(cleaned);
      if json.Some? && (json.value.Failure? || json.value.value != []) {
        return json.value;
      }
    }
    var lines := Split(ReplaceCRLF(cleaned), '\n');
    var result: seq<Upstream> := [];
    for i := 0 to |lines|
      invariant ParseLines(lines[..i], lib) == Success(result)
    {
      assert lines[..i + 1][..i] == lines[..i];
      var line := Trim(lines[i], IsSpace);
      if line == "" || HasPrefix(line, "#") {
        continue;
      }
      var upstream := ParseLine(line, lib);
      if upstream.Failure? {
        LinesFail(lines, i + 1, |lines|, lib);
        assert lines[..|lines|] == lines;
        return Failure(upstream.error);
      }
      result := result + [upstream.value];
    }
    assert lines[..|lines|] == lines;
    if result == [] {
      return Failure("no valid SOCKS5 entries found");
    }
    r := Success(result);
  }

  lemma {:induction false} LinesFail(lines: seq<string>, i: nat, j: nat, lib: Libraries)
    requires i <= j <= |lines| && ParseLines(lines[..i], lib).Failure?
    ensures ParseLines(lines[..j], lib).Failure?
    decreases j
  {
    if i < j {
      LinesFail(lines, i, j - 1, lib);
      assert lines[..j][..j - 1] == lines[..j - 1];
    }
  }

  // ----------------------------------------------------------- round trip

  predicate IsPlain(c: char) {
    !IsSpace(c) && !IsSeparator(c) && !IsQuote(c) && c != '/' && c != '@'
  }

  // A hostname or a numeric address, without brackets.
  predicate PlainServer(s: string) {
    s != "" && s[0] != '{' && s[0] != '\U{FEFF}' && forall c :: c in s ==> IsPlain(c) && !IsBracket(c)
  }

  predicate PlainCredential(s: string) {
    forall c :: c in s ==> IsPlain(c) && c != ':'
  }

  predicate Exportable(u: Upstream, lib: Libraries) {
    ValidUpstream(u, lib) && PlainServer(u.server) && PlainCredential(u.username) && PlainCredential(u.password)
  }

  function Line(u: Upstream): string {
    Export(u.server, u.port, u.username, u.password)
  }

  lemma LineForm(u: Upstream, lib: Libraries)
    requires Exportable(u, lib)
    ensures Line(u) == u.server + [':'] + (PrintInt(u.port) + [':'] + (u.username + [':'] + u.password))
    ensures (forall c :: c in Line(u) ==> IsPlain(c)) && Line(u) != "" && Line(u)[0] == u.server[0]
  {
    assert u.server[0] in u.server && u.server[|u.server| - 1] in u.server;
    TrimNothing(u.server, IsBracket);
  }

  lemma LineParts(u: Upstream, lib: Libraries)
    requires Exportable(u, lib)
    ensures Split(Line(u), ':') == Split(u.server, ':') + [PrintInt(u.port), u.username, u.password]
  {
    LineForm(u, lib);
    var port := PrintInt(u.port);
    var login := u.username + [':'] + u.password;
    SplitOfJoined(u.server, port + [':'] + login, ':');
    SplitOfJoined(port, login, ':');
    SplitOfJoined(u.username, u.password, ':');
    SplitNothing(port, ':');
    SplitNothing(u.username, ':');
    SplitNothing(u.password, ':');
  }

  lemma LineHasNoHostPort(u: Upstream, lib: Libraries)
    requires Exportable(u, lib)
    ensures SplitHostPort(Line(u)).None?
  {
    LineForm(u, lib);
    var line := Line(u);
    var head := u.server + [':'] + (PrintInt(u.port) + [':'] + u.username);
    assert line == head + [':'] + u.password;
    LastIndexOfJoined(head, u.password, ':');
    assert line[..|head|][|u.server|] == ':';
    assert u.server[0] in u.server;
  }

  lemma PlainLinesArePlain(u: Upstream, lib: Libraries)
    requires Exportable(u, lib)
    ensures Trim(Line(u), IsQuote) == Line(u) && Trim(Line(u), IsSpace) == Line(u)
    ensures !Contains(Line(u), "://") && LastIndex(Line(u), '@') == -1 && |Fields(Line(u))| == 1
  {
    LineForm(u, lib);
    var line := Line(u);
    assert line[0] in line && line[|line| - 1] in line;
    TrimNothing(line, IsQuote);
    TrimNothing(line, IsSpace);
    FieldsNothing(line);
    NoLastIndex(line, '@');
    forall i | 0 <= i <= |line| - 3
      ensures line[i..][..3] != "://"
    {
      assert line[i + 1] in line && line[i..][..3][1] == line[i + 1];
    }
  }

  // MAIN: an exported line reads back as the same server, port and credentials.
  lemma LineRoundTrip(u: Upstream, lib: Libraries)
    requires Exportable(u, lib)
    ensures ParseLine(Line(u), lib) == Success(u)
  {
    PlainLinesArePlain(u, lib);
    LineHasNoHostPort(u, lib);
    LineParts(u, lib);
    AtoiPrint(u.port);
    assert u.server[0] in u.server && u.server[|u.server| - 1] in u.server;
    TrimNothing(u.server, IsBracket);
    var parts := Split(Line(u), ':');
    var n := |parts|;
    assert parts[..n - 3] == Split(u.server, ':');
    JoinSplit(u.server, ':');
  }

  // ----------------------------------------------------- the other line forms

  // The server as it stands before a port: an address with colons in brackets.
  function Host(server: string): string {
    if ':' in server then ['['] + server + [']'] else server
  }

  function Endpoint(u: Upstream): string
    requires u.port >= 0
  {
    Host(u.server) + [':'] + Decimal.Print(u.port)
  }

  // A login whose parts need no quoting; the password may contain colons.
  predicate PlainLogin(u: Upstream) {
    && u.username != "" && (forall c :: c in u.username ==> IsPlain(c) && c != ':' && !IsBracket(c))
    && (forall c :: c in u.password ==> IsPlain(c) && !IsBracket(c))
  }

  predicate Readable(u: Upstream, lib: Libraries) {
    ValidUpstream(u, lib) && PlainServer(u.server)
  }

  function Bracketed(server: string, port: string): string {
    ['['] + server + [']'] + [':'] + port
  }

  lemma BracketedColon(server: string, port: string)
    requires ':' !in port
    ensures LastIndex(Bracketed(server, port), ':') == |server| + 2
  {
    LastIndexOfJoined(['['] + server + [']'], port, ':');
  }

  lemma BracketedEnd(server: string, port: string)
    requires ']' !in server
    ensures |SkipTo(Bracketed(server, port), ']')| == |port| + 2
  {
    assert Bracketed(server, port) == (['['] + server) + [']'] + ([':'] + port);
    SkipToFirst(['['] + server, ']', [':'] + port);
  }

  lemma BracketedContents(server: string, port: string)
    requires '[' !in server && '[' !in port && ']' !in port
    ensures var s, n := Bracketed(server, port), |server|;
            && s[0] == '[' && s[1..n + 1] == server && s[n + 3..] == port
            && '[' !in s[1..] && ']' !in s[n + 2..]
  {
    var s, n := Bracketed(server, port), |server|;
    assert s[1..] == server + ([']'] + ([':'] + port));
    assert s[n + 2..] == [':'] + port;
  }

  lemma BracketedIsSplit(server: string, port: string)
    requires (forall c :: c in server ==> !IsBracket(c)) && (forall c :: c in port ==> !IsBracket(c) && c != ':')
    ensures SplitHostPort(Bracketed(server, port)) == Some((server, port))
  {
    BracketedColon(server, port);
    BracketedEnd(server, port);
    BracketedContents(server, port);
  }

  lemma PlainIsSplit(server: string, port: string)
    requires server != "" && forall c :: c in server ==> !IsBracket(c) && c != ':'
    requires forall c :: c in port ==> !IsBracket(c) && c != ':'
    ensures SplitHostPort(server + [':'] + port) == Some((server, port))
  {
    var s := server + [':'] + port;
    LastIndexOfJoined(server, port, ':');
    assert server[0] in server;
    assert s[..|server|] == server && s[|server| + 1..] == port;
  }

  lemma EndpointIsSplit(u: Upstream, lib: Libraries)
    requires Readable(u, lib)
    ensures SplitHostPort(Endpoint(u)) == Some((u.server, Decimal.Print(u.port)))
  {
    var port := Decimal.Print(u.port);
    DigitsArePlain(u.port);
    if ':' in u.server {
      BracketedIsSplit(u.server, port);
    } else {
      PlainIsSplit(u.server, port);
    }
  }

  lemma DigitsArePlain(n: nat)
    ensures forall c :: c in Decimal.Print(n) ==> IsPlain(c) && c != ':' && !IsBracket(c)
  {
    assert forall c :: c in Decimal.Print(n) ==> Decimal.IsDigit(c);
    forall c | Decimal.IsDigit(c)
      ensures !IsSpace(c)
    {
      assert 48 <= c as int <= 57;
    }
  }

  lemma HostCharacters(u: Upstream)
    requires PlainServer(u.server)
    ensures forall c :: c in Host(u.server) ==> IsPlain(c)
  {
    assert IsPlain('[') && IsPlain(']');
    forall c | c in Host(u.server)
      ensures IsPlain(c)
    {
      assert c in u.server || c == '[' || c == ']';
    }
  }

  lemma EndpointCharacters(u: Upstream, lib: Libraries)
    requires Readable(u, lib)
    ensures Endpoint(u) != "" && forall c :: c in Endpoint(u) ==> IsPlain(c)
  {
    HostCharacters(u);
    DigitsArePlain(u.port);
    assert IsPlain(':');
  }

  lemma EndpointIsPlain(u: Upstream, lib: Libraries)
    requires Readable(u, lib)
    ensures Endpoint(u) != "" && forall c :: c in Endpoint(u) ==> IsPlain(c)
    ensures Trim(Endpoint(u), IsSpace) == Endpoint(u) && Trim(u.server, IsBracket) == u.server
    ensures Atoi(Decimal.Print(u.port)) == Some(u.port)
  {
    EndpointCharacters(u, lib);
    PlainIsTrimmed(Endpoint(u));
    assert u.server[0] in u.server && u.server[|u.server| - 1] in u.server;
    TrimNothing(u.server, IsBracket);
    AtoiPrint(u.port);
  }

  lemma PlainIsTrimmed(s: string)
    requires s != "" && forall c :: c in s ==> IsPlain(c)
    ensures Trim(s, IsSpace) == s
  {
    assert s[0] in s && s[|s| - 1] in s;
    TrimNothing(s, IsSpace);
  }

  lemma LoginParts(u: Upstream)
    requires PlainLogin(u)
    ensures var parts := Split(u.username + [':'] + u.password, ':');
            |parts| >= 2 && parts[0] == u.username && Join(parts[1..], ':') == u.password
  {
    SplitOfJoined(u.username, u.password, ':');
    SplitNothing(u.username, ':');
    JoinSplit(u.password, ':');
    assert (Split(u.username, ':') + Split(u.password, ':'))[1..] == Split(u.password, ':');
  }

  lemma LoginIsRead(u: Upstream, lib: Libraries)
    requires Readable(u, lib) && PlainLogin(u)
    ensures WithCredentials(Endpoint(u), u.username + [':'] + u.password) == Some(u)
  {
    EndpointIsPlain(u, lib);
    EndpointIsSplit(u, lib);
    LoginParts(u);
  }

  // A line of plain characters around one '@' reaches the two login forms.
  lemma LineWithAt(left: string, right: string)
    requires left != "" && right != ""
    requires (forall c :: c in left ==> IsPlain(c)) && (forall c :: c in right ==> IsPlain(c))
    ensures var line := left + ['@'] + right;
            && Trim(Trim(line, IsQuote), IsSpace) == line && line != "" && !Contains(line, "://")
            && LastIndex(line, '@') == |left| && line[..|left|] == left && line[|left| + 1..] == right
  {
    var line := left + ['@'] + right;
    assert line[0] == left[0] && left[0] in left;
    assert line[|line| - 1] == right[|right| - 1] && right[|right| - 1] in right;
    TrimNothing(line, IsQuote);
    TrimNothing(line, IsSpace);
    LastIndexOfJoined(left, right, '@');
    forall i | 0 <= i <= |line| - 3
      ensures line[i..][..3] != "://"
    {
      assert line[i..][..3][1] == line[i + 1];
      assert line[i + 1] == '@' || line[i + 1] in left || line[i + 1] in right;
    }
  }

  // MAIN: "user:password@host:port" reads as that server and login.
  lemma LoginLineIsRead(u: Upstream, lib: Libraries)
    requires Readable(u, lib) && PlainLogin(u)
    ensures ParseLine(u.username + [':'] + u.password + ['@'] + Endpoint(u), lib) == Success(u)
  {
    EndpointIsPlain(u, lib);
    LoginIsRead(u, lib);
    LineWithAt(u.username + [':'] + u.password, Endpoint(u));
  }

  // MAIN: "host:port@user:password" does exactly when the password is no
  // number; otherwise user and password are taken for host and port.
  lemma ServerFirstIsRead(u: Upstream, lib: Libraries)
    requires Readable(u, lib) && PlainLogin(u) && ':' !in u.server && ':' !in u.password && u.password != ""
    ensures ParseLine(Endpoint(u) + ['@'] + (u.username + [':'] + u.password), lib)
            == if Atoi(u.password).None? then Success(u)
               else Checked(Upstream(u.username, Atoi(u.password).value, u.server, Decimal.Print(u.port)), lib)
  {
    EndpointIsPlain(u, lib);
    LoginIsRead(u, lib);
    LineWithAt(Endpoint(u), u.username + [':'] + u.password);
    LoginAsEndpoint(u, lib);
  }

  lemma LoginAsEndpoint(u: Upstream, lib: Libraries)
    requires Readable(u, lib) && PlainLogin(u) && ':' !in u.server && ':' !in u.password && u.password != ""
    ensures WithCredentials(u.username + [':'] + u.password, Endpoint(u))
            == if Atoi(u.password).None? then None
               else Some(Upstream(u.username, Atoi(u.password).value, u.server, Decimal.Print(u.port)))
  {
    var login, port := u.username + [':'] + u.password, Decimal.Print(u.port);
    assert forall c :: c in login ==> IsPlain(c);
    PlainIsTrimmed(login);
    PlainIsSplit(u.username, u.password);
    assert u.username[0] in u.username && u.username[|u.username| - 1] in u.username;
    TrimNothing(u.username, IsBracket);
    DigitsArePlain(u.port);
    SplitOfJoined(u.server, port, ':');
    SplitNothing(u.server, ':');
    SplitNothing(port, ':');
    assert Split(Endpoint(u), ':') == [u.server, port];
  }

  // A line of plain characters without '@' reaches the forms behind.
  lemma LineWithoutAt(line: string)
    requires line != "" && '@' !in line && '/' !in line
    requires !IsQuote(line[0]) && !IsSpace(line[0]) && !IsQuote(line[|line| - 1]) && !IsSpace(line[|line| - 1])
    ensures Trim(Trim(line, IsQuote), IsSpace) == line && !Contains(line, "://") && LastIndex(line, '@') == -1
  {
    TrimNothing(line, IsQuote);
    TrimNothing(line, IsSpace);
    NoLastIndex(line, '@');
    forall i | 0 <= i <= |line| - 3
      ensures line[i..][..3] != "://"
    {
      assert line[i..][..3][1] == line[i + 1] && line[i + 1] in line;
    }
  }

  // MAIN: "host:port" reads as that server without credentials.
  lemma EndpointLineIsRead(u: Upstream, lib: Libraries)
    requires Readable(u, lib) && u.username == u.password == ""
    ensures ParseLine(Endpoint(u), lib) == Success(u)
  {
    EndpointIsPlain(u, lib);
    EndpointIsSplit(u, lib);
    var line := Endpoint(u);
    assert line[0] in line && line[|line| - 1] in line;
    LineWithoutAt(line);
    FieldsNothing(line);
  }

  predicate IsField(s: string) {
    s != "" && forall c :: c in s ==> IsPlain(c)
  }

  function FourFields(a: string, b: string, c: string, d: string, sep: char): string {
    a + [sep] + (b + [sep] + (c + [sep] + d))
  }

  lemma FourFieldsAreFields(a: string, b: string, c: string, d: string, sep: char)
    requires IsField(a) && IsField(b) && IsField(c) && IsField(d) && IsSeparator(sep)
    ensures Fields(FourFields(a, b, c, d, sep)) == [a, b, c, d]
  {
    FieldsOfJoined(a, sep, b + [sep] + (c + [sep] + d));
    FieldsOfJoined(b, sep, c + [sep] + d);
    FieldsOfJoined(c, sep, d);
    FieldsNothing(d);
  }

  lemma FourFieldsLine(a: string, b: string, c: string, d: string, sep: char)
    requires IsField(a) && IsField(b) && IsField(c) && IsField(d) && IsSeparator(sep)
    ensures var line := FourFields(a, b, c, d, sep);
            && line != "" && Trim(Trim(line, IsQuote), IsSpace) == line && !Contains(line, "://")
            && LastIndex(line, '@') == -1
  {
    var line := FourFields(a, b, c, d, sep);
    assert line[0] == a[0] && a[0] in a;
    assert line[|line| - 1] == d[|d| - 1] && d[|d| - 1] in d;
    forall x | x in line
      ensures x != '@' && x != '/'
    {
      assert x in a || x == sep || x in b || x in c || x in d;
    }
    LineWithoutAt(line);
  }

  // MAIN: four fields between separators read as server, port, user, password.
  lemma FourFieldsAreRead(u: Upstream, lib: Libraries, sep: char)
    requires Readable(u, lib) && PlainLogin(u) && u.password != "" && IsSeparator(sep)
    ensures ParseLine(FourFields(u.server, Decimal.Print(u.port), u.username, u.password, sep), lib) == Success(u)
  {
    var port := Decimal.Print(u.port);
    DigitsArePlain(u.port);
    EndpointIsPlain(u, lib);
    FourFieldsLine(u.server, port, u.username, u.password, sep);
    FourFieldsAreFields(u.server, port, u.username, u.password, sep);
    FieldsAreParsed(FourFields(u.server, port, u.username, u.password, sep), [u.server, port, u.username, u.password],
                    lib);
  }

  lemma FieldsAreParsed(line: string, fields: seq<string>, lib: Libraries)
    requires line != "" && Trim(Trim(line, IsQuote), IsSpace) == line && !Contains(line, "://")
    requires LastIndex(line, '@') == -1 && Fields(line) == fields && |fields| == 4 && FromFour(fields).Some?
    ensures ParseLine(line, lib) == Checked(FromFour(fields).value, lib)
  {
  }

  // MAIN: with the login first, the same fields read as that server when the
  // password is no number.
  lemma FourFieldsLoginFirstAreRead(u: Upstream, lib: Libraries, sep: char)
    requires Readable(u, lib) && PlainLogin(u) && u.password != "" && IsSeparator(sep) && Atoi(u.password).None?
    ensures ParseLine(FourFields(u.username, u.password, u.server, Decimal.Print(u.port), sep), lib) == Success(u)
  {
    var port := Decimal.Print(u.port);
    DigitsArePlain(u.port);
    EndpointIsPlain(u, lib);
    FourFieldsLine(u.username, u.password, u.server, port, sep);
    FourFieldsAreFields(u.username, u.password, u.server, port, sep);
    FieldsAreParsed(FourFields(u.username, u.password, u.server, port, sep), [u.username, u.password, u.server, port],
                    lib);
  }

  // Text that starts like JSON and reads as an error or a list is that.
  lemma JsonIsRead(text: string, lib: Libraries)
    requires |Cleaned(text)| > 0 && Cleaned(text)[0] in "{["
    requires lib.json(Cleaned(text)).Some? && lib.json(Cleaned(text)).value != Success([])
    ensures ParseText(text, lib) == lib.json(Cleaned(text)).value
  {
  }

  // A line with "://" is read by the URL library, and checked.
  lemma UrlLineIsRead(line: string, u: Upstream, lib: Libraries, i: nat)
    requires line != "" && i + 3 <= |line| && line[i..][..3] == "://" && lib.url(line) == Success(u)
    requires Trim(line, IsQuote) == line && Trim(line, IsSpace) == line
    ensures ParseLine(line, lib) == if Sound(u, lib) then Success(u) else Failure("SOCKS5 server or port is invalid")
  {
    SoundIsValid(u, lib);
    assert Contains(line, "://");
  }

  // A server and a port one can dial: a numeric address, or a short name
  // without the characters that end a host in a URL.
  predicate Sound(u: Upstream, lib: Libraries) {
    var server := Trim(Trim(u.server, IsBracket), IsSpace);
    && 1 <= u.port <= 65535 && 0 < |server|
    && '/' !in server && '?' !in server && '#' !in server && '@' !in server
    && ' ' !in server && '\t' !in server && '\r' !in server && '\n' !in server
    && (lib.isAddress(server) || (|server| < 254 && ':' !in server))
  }

  // MAIN: whatever the form, what is accepted is sound.
  lemma AcceptedIsSound(line: string, lib: Libraries)
    requires ParseLine(line, lib).Success?
    ensures Sound(ParseLine(line, lib).value, lib)
  {
    SoundIsValid(ParseLine(line, lib).value, lib);
  }

  lemma SoundIsValid(u: Upstream, lib: Libraries)
    ensures Sound(u, lib) <==> ValidUpstream(u, lib)
  {
    var server := Trim(Trim(u.server, IsBracket), IsSpace);
    assert forall c :: c in "/?#@ \t\r\n" <==> c in {'/', '?', '#', '@', ' ', '\t', '\r', '\n'};
  }

  // One more line: an error stays, a comment changes nothing, the rest is read.
  function WithLine(before: Result<seq<Upstream>>, line: string, lib: Libraries): Result<seq<Upstream>> {
    if before.Failure? || Ignored(line) then before
    else match ParseLine(Trim(line, IsSpace), lib)
      case Failure(e) => Failure(e)
      case Success(u) => Success(before.value + [u])
  }

  lemma LastLine(lines: seq<string>, line: string, lib: Libraries)
    ensures ParseLines(lines + [line], lib) == WithLine(ParseLines(lines, lib), line, lib)
  {
    assert (lines + [line])[..|lines|] == lines;
  }

  // Blank lines and comments do not count.
  lemma {:induction false} CommentsDoNotCount(a: seq<string>, line: string, b: seq<string>, lib: Libraries)
    requires var text := Trim(line, IsSpace); text == "" || text[0] == '#'
    ensures ParseLines(a + [line] + b, lib) == ParseLines(a + b, lib)
  {
    if b == [] {
      LastLine(a, line, lib);
      assert a + [line] + b == a + [line] && a + b == a;
    } else {
      var init, last := b[..|b| - 1], b[|b| - 1];
      CommentsDoNotCount(a, line, init, lib);
      LastLine(a + [line] + init, last, lib);
      LastLine(a + init, last, lib);
      assert a + [line] + b == a + [line] + init + [last] && a + b == a + init + [last];
    }
  }

  function Lines(us: seq<Upstream>): seq<string> {
    seq(|us|, i requires 0 <= i < |us| => Line(us[i]))
  }

  lemma LineIsRead(u: Upstream, lib: Libraries)
    requires Exportable(u, lib)
    ensures !Ignored(Line(u)) && Trim(Line(u), IsSpace) == Line(u)
  {
    LineForm(u, lib);
    PlainLinesArePlain(u, lib);
    assert u.server[0] in u.server && u.server[|u.server| - 1] in u.server;
    TrimNothing(u.server, IsBracket);
    TrimNothing(u.server, IsSpace);
    assert u.server[0] != '#';
  }

  lemma {:induction false} LinesRoundTrip(us: seq<Upstream>, lib: Libraries)
    requires forall i :: 0 <= i < |us| ==> Exportable(us[i], lib)
    ensures ParseLines(Lines(us), lib) == Success(us)
  {
    if us == [] {
      assert Lines(us) == [];
    } else {
      var init, last := us[..|us| - 1], us[|us| - 1];
      LinesRoundTrip(init, lib);
      OneMoreLine(init, last, lib);
      assert us == init + [last];
    }
  }

  lemma OneMoreLine(us: seq<Upstream>, u: Upstream, lib: Libraries)
    requires Exportable(u, lib) && ParseLines(Lines(us), lib) == Success(us)
    ensures ParseLines(Lines(us + [u]), lib) == Success(us + [u])
  {
    LineIsRead(u, lib);
    LineRoundTrip(u, lib);
    ParseOneMore(Lines(us), Line(u), us, u, lib);
    assert Lines(us + [u]) == Lines(us) + [Line(u)];
  }

  lemma ParseOneMore(lines: seq<string>, line: string, us: seq<Upstream>, u: Upstream, lib: Libraries)
    requires ParseLines(lines, lib) == Success(us)
    requires !Ignored(line) && ParseLine(Trim(line, IsSpace), lib) == Success(u)
    ensures ParseLines(lines + [line], lib) == Success(us + [u])
  {
    assert (lines + [line])[..|lines|] == lines;
  }

  predicate GoodStart(text: string) {
    |text| > 0 && IsPlain(text[0]) && !IsBracket(text[0]) && text[0] != '{' && text[0] != '\U{FEFF}'
  }

  predicate CleanText(text: string) {
    GoodStart(text) && IsPlain(text[|text| - 1]) && forall c :: c in text ==> IsPlain(c) || c == '\n'
  }

  lemma LineIsClean(u: Upstream, lib: Libraries)
    requires Exportable(u, lib)
    ensures CleanText(Line(u)) && Split(Line(u), '\n') == [Line(u)]
  {
    LineForm(u, lib);
    var line := Line(u);
    assert line[|line| - 1] in line && u.server[0] in u.server;
    assert IsSpace('\n');
    SplitNothing(line, '\n');
  }

  lemma CleanJoined(a: string, b: string)
    requires CleanText(a) && CleanText(b)
    ensures CleanText(a + ['\n'] + b)
  {
  }

  lemma JoinFirst(us: seq<Upstream>)
    requires |us| > 1
    ensures Lines(us) == [Line(us[0])] + Lines(us[1..])
    ensures Join(Lines(us), '\n') == Line(us[0]) + ['\n'] + Join(Lines(us[1..]), '\n')
  {
    assert Lines(us) == [Line(us[0])] + Lines(us[1..]);
  }

  lemma {:induction false} SplitOfLines(us: seq<Upstream>, lib: Libraries)
    requires us != [] && forall i :: 0 <= i < |us| ==> Exportable(us[i], lib)
    ensures Split(Join(Lines(us), '\n'), '\n') == Lines(us) && CleanText(Join(Lines(us), '\n'))
  {
    LineIsClean(us[0], lib);
    if |us| > 1 {
      SplitOfLines(us[1..], lib);
      JoinFirst(us);
      SplitOfJoined(Line(us[0]), Join(Lines(us[1..]), '\n'), '\n');
      CleanJoined(Line(us[0]), Join(Lines(us[1..]), '\n'));
    } else {
      assert Lines(us) == [Line(us[0])];
    }
  }

  // MAIN: reading the newline-joined export lines gives back the same list.
  lemma TextRoundTrip(us: seq<Upstream>, lib: Libraries)
    requires us != [] && forall i :: 0 <= i < |us| ==> Exportable(us[i], lib)
    ensures ParseText(Join(Lines(us), '\n'), lib) == Success(us)
  {
    var text := Join(Lines(us), '\n');
    SplitOfLines(us, lib);
    LinesRoundTrip(us, lib);
    TextIsClean(text);
  }

  lemma TextIsClean(text: string)
    requires CleanText(text)
    ensures Cleaned(text) == text && ReplaceCRLF(text) == text
    ensures !HasPrefix(text, "{") && !HasPrefix(text, "[")
  {
    TrimNothing(text, IsSpace);
    assert !HasPrefix(text, "\U{FEFF}");
    assert IsSpace('\r');
    NoCRLF(text);
  }
}
