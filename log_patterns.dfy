/** The regular expressions of the log-line parser, each written out as the
    match that `java.util.regex` finds: `find()` reports the leftmost position
    where the pattern matches, greedy quantifiers take as much as they can and
    give back only when the rest of the pattern needs it, and the lazy `+?`
    takes as little as it can. Each recognizer returns the capture groups. */
module LogPatterns {
  import opened Wrappers
  import opened Text

  // ---------------------------------------------------------------- search

  /** `Matcher.find()`: the match at the first position, from `i` on, where
      `m` matches. */
  function FindFrom<T>(s: string, i: nat, m: (string, nat) -> Option<T>): (r: Option<T>)
    requires i <= |s| + 1
    ensures r.None? <==> forall j :: i <= j <= |s| ==> m(s, j).None?
    ensures r.Some? ==> exists j :: i <= j <= |s| && m(s, j) == r && forall k :: i <= k < j ==> m(s, k).None?
    decreases |s| + 1 - i
  {
    if i > |s| then None
    else if m(s, i).Some? then m(s, i)
    else FindFrom(s, i + 1, m)
  }

  /** End of the longest run of characters satisfying `p`, starting at `i`. */
  function RunEnd(s: string, i: nat, p: char -> bool): (r: nat)
    requires i <= |s|
    ensures i <= r <= |s|
    ensures forall k :: i <= k < r ==> p(s[k])
    ensures r == |s| || !p(s[r])
    decreases |s| - i
  {
    if i == |s| || !p(s[i]) then i else RunEnd(s, i + 1, p)
  }

  function SpaceEnd(s: string, i: nat): (r: nat)
    requires i <= |s|
    ensures i <= r <= |s| && (forall k :: i <= k < r ==> IsSpace(s[k])) && (r == |s| || !IsSpace(s[r]))
  {
    RunEnd(s, i, c => IsSpace(c))
  }

  function DigitEnd(s: string, i: nat): (r: nat)
    requires i <= |s|
    ensures i <= r <= |s| && (forall k :: i <= k < r ==> IsDigit(s[k])) && (r == |s| || !IsDigit(s[r]))
  {
    RunEnd(s, i, c => IsDigit(c))
  }

  function NonSpaceEnd(s: string, i: nat): (r: nat)
    requires i <= |s|
    ensures i <= r <= |s| && (forall k :: i <= k < r ==> !IsSpace(s[k])) && (r == |s| || IsSpace(s[r]))
  {
    RunEnd(s, i, c => !IsSpace(c))
  }

  function NonColonEnd(s: string, i: nat): (r: nat)
    requires i <= |s|
    ensures i <= r <= |s| && (forall k :: i <= k < r ==> s[k] != ':') && (r == |s| || s[r] == ':')
  {
    RunEnd(s, i, c => c != ':')
  }

  // ---------------------------------------------------------------- IPv4 text

  /** The text matched by `\d{1,3}\.\d{1,3}\.\d{1,3}\.\d{1,3}`. */
  datatype Ipv4Text = Ipv4Text(a: string, b: string, c: string, d: string)
  {
    predicate Valid()
    {
      1 <= |a| <= 3 && AllDigits(a) && 1 <= |b| <= 3 && AllDigits(b) &&
      1 <= |c| <= 3 && AllDigits(c) && 1 <= |d| <= 3 && AllDigits(d)
    }

    function Text(): string { a + "." + b + "." + c + "." + d }
  }

  /** `\d{1,3}\.` at `i`: a digit run of one to three characters followed by a
      dot (a longer run cannot be split, since a digit never matches `\.`). */
  function OctetDot(s: string, i: nat): (r: Option<nat>)
    ensures r.Some? ==> i < r.value <= i + 3 && r.value < |s| && s[r.value] == '.' &&
                        AllDigits(s[i..r.value])
  {
    if i > |s| then None
    else
      var e := DigitEnd(s, i);
      if i < e <= i + 3 && e < |s| && s[e] == '.' then
        DigitsSlice(s, i, e);
        Some(e)
      else None
  }

  /** Three runs each closed by a dot make up the slice they span. */
  lemma DottedSlice(s: string, i: nat, e1: nat, e2: nat, e3: nat)
    requires i <= e1 < e2 < e3 < |s| && s[e1] == '.' && s[e2] == '.' && s[e3] == '.'
    ensures s[i..e3 + 1] == s[i..e1] + "." + s[e1 + 1..e2] + "." + s[e2 + 1..e3] + "."
  {
    var t := s[i..e1] + "." + s[e1 + 1..e2] + "." + s[e2 + 1..e3] + ".";
    assert |t| == e3 + 1 - i;
    forall k | 0 <= k < |t|
      ensures t[k] == s[i + k]
    {
      if k < e1 - i {
      } else if k == e1 - i {
      } else if k < e2 - i {
      } else if k == e2 - i {
      } else if k < e3 - i {
      }
    }
  }

  /** The three leading octets of an address at `i`, and where the fourth starts. */
  function ThreeOctets(s: string, i: nat): (r: Option<(string, string, string, nat)>)
    ensures r.Some? ==> var (x, y, z, j) := r.value;
                        1 <= |x| <= 3 && AllDigits(x) && 1 <= |y| <= 3 && AllDigits(y) &&
                        1 <= |z| <= 3 && AllDigits(z) && j <= |s| && i + |x + "." + y + "." + z + "."| == j &&
                        s[i..j] == x + "." + y + "." + z + "."
  {
    match OctetDot(s, i)
    case None => None
    case Some(e1) =>
      match OctetDot(s, e1 + 1)
      case None => None
      case Some(e2) =>
        match OctetDot(s, e2 + 1)
        case None => None
        case Some(e3) =>
          var x, y, z := s[i..e1], s[e1 + 1..e2], s[e2 + 1..e3];
          DottedSlice(s, i, e1, e2, e3);
          Some((x, y, z, e3 + 1))
  }

  /** An address whose last octet must end the digit run (the source address of
      the connection pattern, where `:` or ` to ` has to follow). */
  function Ipv4Whole(s: string, i: nat): (r: Option<(Ipv4Text, nat)>)
    ensures r.Some? ==> r.value.0.Valid() && i + |r.value.0.Text()| == r.value.1 <= |s| &&
                        s[i..r.value.1] == r.value.0.Text() &&
                        (r.value.1 == |s| || !IsDigit(s[r.value.1]))
  {
    match ThreeOctets(s, i)
    case None => None
    case Some((x, y, z, j)) =>
      var e := DigitEnd(s, j);
      if j < e <= j + 3 then
        var ip := Ipv4Text(x, y, z, s[j..e]);
        DigitsSlice(s, j, e);
        assert s[i..e] == s[i..j] + s[j..e];
        Some((ip, e))
      else None
  }

  /** An address whose last `\d{1,3}` is followed by nothing the pattern needs:
      greedily three digits at most, even when more digits follow. */
  function Ipv4Greedy(s: string, i: nat): (r: Option<(Ipv4Text, nat)>)
    ensures r.Some? ==> r.value.0.Valid() && i + |r.value.0.Text()| == r.value.1 <= |s| &&
                        s[i..r.value.1] == r.value.0.Text()
  {
    match ThreeOctets(s, i)
    case None => None
    case Some((x, y, z, j)) =>
      var run := DigitEnd(s, j);
      if j < run then
        var e := if run - j <= 3 then run else j + 3;
        var ip := Ipv4Text(x, y, z, s[j..e]);
        DigitsSlice(s, j, e);
        assert s[i..e] == s[i..j] + s[j..e];
        Some((ip, e))
      else None
  }

  /** The optional `(?::(\d+))?` after an address ending at `e`. */
  function OptionalPort(s: string, e: nat): (r: (Option<string>, nat))
    requires e <= |s|
    ensures r.0.None? ==> r.1 == e
    ensures r.0.Some? ==> r.0.value != [] && AllDigits(r.0.value) && e < r.1 <= |s| &&
                          s[e..r.1] == ":" + r.0.value && (r.1 == |s| || !IsDigit(s[r.1]))
  {
    if e < |s| && s[e] == ':' then
      var f := DigitEnd(s, e + 1);
      if f > e + 1 then
        DigitsSlice(s, e + 1, f);
        assert s[e..f] == ":" + s[e + 1..f];
        (Some(s[e + 1..f]), f)
      else (None, e)
    else (None, e)
  }

  // ---------------------------------------------------------------- patterns

  /** Groups of `^(\w{3}\s+\d{1,2}\s+\d{2}:\d{2}:\d{2})\s+([^:]+):`. */
  datatype TimestampHost = TimestampHost(timestamp: string, hostname: string)

  predicate ClockAt(s: string, i: nat)
  {
    i + 8 <= |s| && IsDigit(s[i]) && IsDigit(s[i + 1]) && s[i + 2] == ':' &&
    IsDigit(s[i + 3]) && IsDigit(s[i + 4]) && s[i + 5] == ':' && IsDigit(s[i + 6]) && IsDigit(s[i + 7])
  }

  /** The anchored timestamp-and-hostname pattern. When the blanks after the
      clock run straight into the colon, `\s+` gives back its last blank so that
      `[^:]+` has one character: the hostname is then that blank. */
  function MatchTimestampHost(s: string): (r: Option<TimestampHost>)
    ensures r.Some? ==> StartsWith(s, r.value.timestamp) && |r.value.timestamp| >= 13
    ensures r.Some? ==> r.value.hostname != [] && ':' !in r.value.hostname
    ensures r.Some? ==> Contains(s, r.value.hostname + ":")
  {
    if |s| < 3 || !IsWordChar(s[0]) || !IsWordChar(s[1]) || !IsWordChar(s[2]) then None
    else
      var p1 := SpaceEnd(s, 3);
      var d := DigitEnd(s, p1);
      var p3 := SpaceEnd(s, d);
      if p1 == 3 || d == p1 || d > p1 + 2 || p3 == d || !ClockAt(s, p3) then None
      else
        var p4 := p3 + 8;
        match HostAfterClock(s, p4)
        case None => None
        case Some(host) =>
          assert s[..p4][..0] == [];
          Some(TimestampHost(s[..p4], host))
  }

  /** `\s+([^:]+):` after the clock, which ends at `p4`. */
  function HostAfterClock(s: string, p4: nat): (r: Option<string>)
    requires p4 <= |s|
    ensures r.Some? ==> r.value != [] && ':' !in r.value && Contains(s, r.value + ":")
  {
    var w := SpaceEnd(s, p4);
    var c := NonColonEnd(s, w);
    if w == p4 || c == |s| then None
    else
      var h := if c > w then w else w - 1;
      if c == w && w < p4 + 2 then None
      else
        SliceThenChar(s, h, c);
        Some(s[h..c])
  }

  /** Group of `User\s+(\S+)\s+failed\s+login\s+attempt` at position `i`. */
  function LoginAt(s: string, i: nat): (r: Option<string>)
    ensures r.Some? ==> r.value != [] && NoSpace(r.value) && LiteralAt(s, i, "User")
  {
    if !LiteralAt(s, i, "User") then None
    else
      var a := SpaceEnd(s, i + 4);
      var b := NonSpaceEnd(s, a);
      var c := SpaceEnd(s, b);
      if a == i + 4 || b == a || c == b || !LiteralAt(s, c, "failed") then None
      else
        var d := SpaceEnd(s, c + 6);
        if d == c + 6 || !LiteralAt(s, d, "login") then None
        else
          var e := SpaceEnd(s, d + 5);
          if e == d + 5 || !LiteralAt(s, e, "attempt") then None
          else
            NoSpaceSlice(s, a, b);
            Some(s[a..b])
  }

  function FindLogin(s: string): (r: Option<string>)
    ensures r.Some? ==> r.value != [] && NoSpace(r.value) && Contains(s, "User")
  {
    FindFrom(s, 0, LoginAt)
  }

  /** Java's `$` without MULTILINE: at the end, or before a final line
      terminator (a final `\r\n` counts as one). */
  predicate DollarAt(s: string, k: nat)
  {
    k == |s| ||
    (k == |s| - 1 && IsLineTerminator(s[k]) && !(s[k] == '\n' && k > 0 && s[k - 1] == '\r')) ||
    (k == |s| - 2 && s[k] == '\r' && s[k + 1] == '\n')
  }

  /** `(.+?)(?:$|-)` once `.+?` holds `s[q..k]`: stop at the first `k` where the
      alternation matches, else take one more character that `.` accepts. */
  function LazyScan(s: string, q: nat, k: nat): (r: Option<nat>)
    requires q < k <= |s|
    ensures r.Some? ==> k <= r.value <= |s| && (DollarAt(s, r.value) || (r.value < |s| && s[r.value] == '-'))
    ensures r.Some? ==> forall j :: k <= j < r.value ==> !IsLineTerminator(s[j])
    decreases |s| - k
  {
    if DollarAt(s, k) || (k < |s| && s[k] == '-') then Some(k)
    else if k < |s| && !IsLineTerminator(s[k]) then LazyScan(s, q, k + 1)
    else None
  }

  /** `\s+(.+?)(?:$|-)` where the blanks run from `p` to `w`: try the longest
      `\s+` first, then give back one blank at a time. */
  function ReasonFrom(s: string, p: nat, q: nat): (r: Option<string>)
    requires p < q <= |s|
    ensures r.Some? ==> r.value != [] && forall j :: 0 <= j < |r.value| ==> !IsLineTerminator(r.value[j])
    decreases q
  {
    var attempt := if q < |s| && !IsLineTerminator(s[q]) then LazyScan(s, q, q + 1) else None;
    if attempt.Some? then
      var k := attempt.value;
      assert forall j :: 0 <= j < k - q ==> s[q..k][j] == s[q + j];
      Some(s[q..k])
    else if q - 1 > p then ReasonFrom(s, p, q - 1)
    else None
  }

  /** Group of `Reason:\s+(.+?)(?:$|-)` at position `i`. */
  function ReasonAt(s: string, i: nat): (r: Option<string>)
    ensures r.Some? ==> r.value != [] && LiteralAt(s, i, "Reason:")
  {
    if !LiteralAt(s, i, "Reason:") then None
    else
      var w := SpaceEnd(s, i + 7);
      if w == i + 7 then None else ReasonFrom(s, i + 7, w)
  }

  function FindReason(s: string): (r: Option<string>)
    ensures r.Some? ==> r.value != [] && Contains(s, "Reason:")
  {
    FindFrom(s, 0, ReasonAt)
  }

  /** Groups of the connection pattern: source and destination addresses, with
      the ports that follow them when there are any. */
  datatype Connection = Connection(src: string, srcPort: Option<string>, dst: string, dstPort: Option<string>)

  predicate PortText(p: Option<string>) { p.Some? ==> p.value != [] && AllDigits(p.value) }

  ghost predicate IsIpv4Text(t: string) { exists ip: Ipv4Text :: ip.Valid() && ip.Text() == t }

  lemma Ipv4TextValid(ip: Ipv4Text)
    requires ip.Valid()
    ensures IsIpv4Text(ip.Text())
  {
  }

  /** `Connection from (IP)(?::(\d+))? to (IP)(?::(\d+))?` at position `i`. */
  function ConnectionAt(s: string, i: nat): (r: Option<Connection>)
    ensures r.Some? ==> IsIpv4Text(r.value.src) && IsIpv4Text(r.value.dst) &&
                        PortText(r.value.srcPort) && PortText(r.value.dstPort)
    ensures r.Some? ==> LiteralAt(s, i, "Connection from ")
  {
    if !LiteralAt(s, i, "Connection from ") then None
    else
      match Ipv4Whole(s, i + 16)
      case None => None
      case Some((src, e)) =>
        var (sp, f) := OptionalPort(s, e);
        if !LiteralAt(s, f, " to ") then None
        else
          match Ipv4Greedy(s, f + 4)
          case None => None
          case Some((dst, e2)) =>
            var (dp, _) := OptionalPort(s, e2);
            Ipv4TextValid(src);
            Ipv4TextValid(dst);
            Some(Connection(src.Text(), sp, dst.Text(), dp))
  }

  function FindConnection(s: string): (r: Option<Connection>)
    ensures r.Some? ==> IsIpv4Text(r.value.src) && IsIpv4Text(r.value.dst) &&
                        PortText(r.value.srcPort) && PortText(r.value.dstPort)
    ensures r.Some? ==> Contains(s, "Connection from ")
  {
    FindFrom(s, 0, ConnectionAt)
  }

  /** Groups of `(GET|POST|PUT|DELETE|HEAD|OPTIONS|PATCH)\s+(\S+)\s+-\s+(\d{3})`. */
  datatype HttpRequest = HttpRequest(verb: string, url: string, statusCode: string)

  const HttpMethods: seq<string> := ["GET", "POST", "PUT", "DELETE", "HEAD", "OPTIONS", "PATCH"]

  /** The first alternative of the method group that matches at `i`. */
  function MethodAt(s: string, i: nat): (r: Option<string>)
    ensures r.Some? ==> r.value in HttpMethods && LiteralAt(s, i, r.value)
  {
    if LiteralAt(s, i, "GET") then Some("GET")
    else if LiteralAt(s, i, "POST") then Some("POST")
    else if LiteralAt(s, i, "PUT") then Some("PUT")
    else if LiteralAt(s, i, "DELETE") then Some("DELETE")
    else if LiteralAt(s, i, "HEAD") then Some("HEAD")
    else if LiteralAt(s, i, "OPTIONS") then Some("OPTIONS")
    else if LiteralAt(s, i, "PATCH") then Some("PATCH")
    else None
  }

  function HttpAt(s: string, i: nat): (r: Option<HttpRequest>)
    ensures r.Some? ==> r.value.verb in HttpMethods && r.value.url != [] && NoSpace(r.value.url) &&
                        |r.value.statusCode| == 3 && AllDigits(r.value.statusCode)
  {
    match MethodAt(s, i)
    case None => None
    case Some(m) =>
      var a := SpaceEnd(s, i + |m|);
      var b := NonSpaceEnd(s, a);
      var c := SpaceEnd(s, b);
      if a == i + |m| || b == a || c == b || c == |s| || s[c] != '-' then None
      else
        var d := SpaceEnd(s, c + 1);
        if d == c + 1 || d + 3 > |s| || !IsDigit(s[d]) || !IsDigit(s[d + 1]) || !IsDigit(s[d + 2]) then None
        else
          NoSpaceSlice(s, a, b);
          DigitsSlice(s, d, d + 3);
          Some(HttpRequest(m, s[a..b], s[d..d + 3]))
  }

  function FindHttp(s: string): (r: Option<HttpRequest>)
    ensures r.Some? ==> r.value.verb in HttpMethods && r.value.url != [] && NoSpace(r.value.url) &&
                        |r.value.statusCode| == 3 && AllDigits(r.value.statusCode)
  {
    FindFrom(s, 0, HttpAt)
  }

  /** Groups of `<prefix>\s+(IP)(?::(\d+))?`. */
  datatype Address = Address(ip: string, port: Option<string>)

  function LabelledAddressAt(prefix: string, s: string, i: nat): (r: Option<Address>)
    ensures r.Some? ==> IsIpv4Text(r.value.ip) && PortText(r.value.port) && LiteralAt(s, i, prefix)
  {
    if !LiteralAt(s, i, prefix) then None
    else
      var a := SpaceEnd(s, i + |prefix|);
      if a == i + |prefix| then None
      else
        match Ipv4Greedy(s, a)
        case None => None
        case Some((ip, e)) =>
          var (p, _) := OptionalPort(s, e);
          Ipv4TextValid(ip);
          Some(Address(ip.Text(), p))
  }

  const SourceLabel: string := "Source IP:"
  const DestinationLabel: string := "Destination IP:"

  function SourceIpAt(s: string, i: nat): Option<Address> { LabelledAddressAt(SourceLabel, s, i) }

  function DestinationIpAt(s: string, i: nat): Option<Address> { LabelledAddressAt(DestinationLabel, s, i) }

  function FindSourceIp(s: string): (r: Option<Address>)
    ensures r.Some? ==> IsIpv4Text(r.value.ip) && PortText(r.value.port) && Contains(s, SourceLabel)
  {
    FindFrom(s, 0, SourceIpAt)
  }

  function FindDestinationIp(s: string): (r: Option<Address>)
    ensures r.Some? ==> IsIpv4Text(r.value.ip) && PortText(r.value.port) && Contains(s, DestinationLabel)
  {
    FindFrom(s, 0, DestinationIpAt)
  }
}
