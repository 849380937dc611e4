/** The test client of smtptest/gostdsmtp.go: what `Gostd.Sendmail` hands to the
    standard library's `smtp.SendMail` — the dial address, the authentication, the
    envelope and the message text. The message is a `To:` field (section 3.6.3 of
    RFC 5322) and a `Subject:` field (section 3.6.5), an empty line, then the
    body, with every line ending in CRLF as section 2.1 of RFC 5322 requires. */
module GostdClient {
  import opened GoErrors
  import opened GoStrings

  datatype ClientConfig = ClientConfig(host: string, port: int, username: string, password: string)

  /** `smtp.CRAMMD5Auth(username, secret)`. */
  datatype Auth = CramMd5(username: string, secret: string)

  /** The arguments of the `smtp.SendMail` call. */
  datatype Submission = Submission(
    addr: string,
    auth: Option<Auth>,
    from: string,
    recipients: seq<string>,
    msg: string)

  /** Authentication is used only when both the username and the password are set. */
  function ClientAuth(cfg: ClientConfig): (a: Option<Auth>)
    ensures a != None <==> cfg.username != "" && cfg.password != ""
    ensures a != None ==> a.value == CramMd5(cfg.username, cfg.password)
  {
    if cfg.username != "" && cfg.password != "" then Some(CramMd5(cfg.username, cfg.password)) else None
  }

  /** `fmt.Sprintf("%s:%d", host, port)`: the host, a colon, and the port in decimal.
      The numeral holds no colon, so the last colon of the address is the one
      before the port, and reading the numeral gives the port back. */
  function DialAddress(cfg: ClientConfig): (addr: string)
    ensures |addr| > |cfg.host| && addr[..|cfg.host|] == cfg.host && addr[|cfg.host|] == ':'
    ensures ':' !in addr[|cfg.host| + 1..]
    ensures addr[|cfg.host| + 1..] == Decimal(cfg.port) && ParseInt(Decimal(cfg.port)) == cfg.port
  {
    ParseDecimal(cfg.port);
    var addr := cfg.host + ":" + Decimal(cfg.port);
    assert addr[|cfg.host| + 1..] == Decimal(cfg.port);
    addr
  }

  /** The message before line endings are converted (the `fmt.Sprintf` of the
      source): it starts with the `To:` field of the recipients joined by commas and
      ends with the body, which it holds unchanged. */
  function RawMessage(recipients: seq<string>, subject: string, body: string): (r: string)
    ensures |r| == 16 + |Join(recipients, ",")| + |subject| + |body|
    ensures r[..4 + |Join(recipients, ",")|] == "To: " + Join(recipients, ",")
    ensures r[|r| - |body|..] == body
  {
    "To: " + Join(recipients, ",") + "\nSubject: " + subject + "\n\n" + body
  }

  /** The message as sent: the raw message with every LF turned into CRLF. It is
      longer than the raw message by the number of LFs in it, and every LF in it
      ends a CRLF pair. */
  function Message(recipients: seq<string>, subject: string, body: string): (m: string)
    ensures var raw := RawMessage(recipients, subject, body);
      |m| == |raw| + multiset(raw)['\n']
    ensures forall i :: 0 <= i < |m| ==> LfAfterCr(m, i)
  {
    CrlfFromLf(RawMessage(recipients, subject, body))
  }

  /** `Sendmail`: what reaches `smtp.SendMail`. Its returned error belongs to the
      network library and is not modelled. */
  function Sendmail(cfg: ClientConfig, from: string, recipients: seq<string>, subject: string, body: string): (s: Submission)
    ensures s.addr == DialAddress(cfg) && s.auth == ClientAuth(cfg)
    ensures s.msg == Message(recipients, subject, body)
    ensures s.from == from && s.recipients == recipients
    ensures s.auth != None <==> cfg.username != "" && cfg.password != ""
    ensures LfFromCrlf(s.msg) == RawMessage(recipients, subject, body)
  {
    ReceivedAsText(recipients, subject, body);
    Submission(DialAddress(cfg), ClientAuth(cfg), from, recipients, Message(recipients, subject, body))
  }

  /** `pat` occurs in `s` starting at `i`. */
  predicate OccursAt(s: string, pat: string, i: nat)
  {
    i + |pat| <= |s| && s[i..i + |pat|] == pat
  }

  /** The first occurrence of `pat` in `s` starts at `i`. */
  predicate FirstOccursAt(s: string, pat: string, i: nat)
  {
    OccursAt(s, pat, i) && forall j: nat :: j < i ==> !OccursAt(s, pat, j)
  }

  /** The header of the sent message: the `To:` and `Subject:` lines, CRLF between them. */
  function Header(recipients: seq<string>, subject: string): string
  {
    "To: " + Join(recipients, ",") + "\r\nSubject: " + subject
  }

  /** When no recipient and not the subject contain a line feed, the message is the
      header, an empty line, and the body with CRLF line endings; and the first
      empty line of the message is the one that ends the header. */
  lemma HeaderBodySplit(recipients: seq<string>, subject: string, body: string)
    requires forall i :: 0 <= i < |recipients| ==> '\n' !in recipients[i]
    requires '\n' !in subject
    ensures var m := Message(recipients, subject, body);
      var h := Header(recipients, subject);
      m == h + "\r\n\r\n" + CrlfFromLf(body) && FirstOccursAt(m, "\r\n\r\n", |h|)
  {
    var a := "To: " + Join(recipients, ",");
    var b := "Subject: " + subject;
    HeaderLinesFree(recipients, subject);
    assert RawMessage(recipients, subject, body) == a + "\n" + b + "\n\n" + body;
    assert Header(recipients, subject) == a + "\r\n" + b;
    MessageShape(a, b, body);
    FirstBlankLine(a, b, CrlfFromLf(body));
  }

  /** Neither header line holds a line feed when no recipient and not the subject do. */
  lemma HeaderLinesFree(recipients: seq<string>, subject: string)
    requires forall i :: 0 <= i < |recipients| ==> '\n' !in recipients[i]
    requires '\n' !in subject
    ensures '\n' !in "To: " + Join(recipients, ",") && '\n' !in "Subject: " + subject
  {
    JoinExcludes(recipients, ",", '\n');
  }

  /** The CRLF conversion of two lines without line feeds, an empty line and a body. */
  lemma MessageShape(a: string, b: string, body: string)
    requires '\n' !in a && '\n' !in b
    ensures CrlfFromLf(a + "\n" + b + "\n\n" + body) == a + "\r\n" + b + "\r\n\r\n" + CrlfFromLf(body)
  {
    LineThenBlank(b, body);
    LineThenRest(a, b + "\n\n" + body);
    Regroup(a, "\n", b, "\n\n", body);
    Regroup(a, "\r\n", b, "\r\n\r\n", CrlfFromLf(body));
  }

  /** Five strings concatenated, regrouped. */
  lemma Regroup(a: string, x: string, b: string, y: string, c: string)
    ensures a + x + (b + y + c) == a + x + b + y + c
  {
  }

  /** A line without line feeds followed by LF keeps its text and ends in CRLF. */
  lemma LineThenRest(a: string, rest: string)
    requires '\n' !in a
    ensures CrlfFromLf(a + "\n" + rest) == a + "\r\n" + CrlfFromLf(rest)
  {
    var x := "\n" + rest;
    calc {
      CrlfFromLf(a + "\n" + rest);
    == { assert a + "\n" + rest == a + x; }
      CrlfFromLf(a + x);
    == { CrlfFromLfConcat(a, x); }
      CrlfFromLf(a) + CrlfFromLf(x);
    == { CrlfFromLfFree(a); LeadingLineFeed(x); assert x[1..] == rest; }
      a + ("\r\n" + CrlfFromLf(rest));
    == { assert a + ("\r\n" + CrlfFromLf(rest)) == a + "\r\n" + CrlfFromLf(rest); }
      a + "\r\n" + CrlfFromLf(rest);
    }
  }

  /** A leading line feed becomes CRLF. */
  lemma LeadingLineFeed(x: string)
    requires |x| > 0 && x[0] == '\n'
    ensures CrlfFromLf(x) == "\r\n" + CrlfFromLf(x[1..])
  {
  }

  /** A last header line followed by the empty line. */
  lemma LineThenBlank(b: string, body: string)
    requires '\n' !in b
    ensures CrlfFromLf(b + "\n\n" + body) == b + "\r\n\r\n" + CrlfFromLf(body)
  {
    var y := "\n" + body;
    LineThenRest(b, y);
    assert b + "\n" + y == b + "\n\n" + body;
    var e: string := "";
    LineThenRest(e, body);
    assert e + "\n" + body == y;
    assert e + "\r\n" + CrlfFromLf(body) == "\r\n" + CrlfFromLf(body);
  }

  /** In `a CRLF b CRLF CRLF t`, where `a` and `b` hold no line feed and the second
      character of `b` is not one either, the first empty line follows `b`. */
  lemma FirstBlankLine(a: string, b: string, t: string)
    requires '\n' !in a && '\n' !in b && |b| >= 2
    ensures FirstOccursAt(a + "\r\n" + b + "\r\n\r\n" + t, "\r\n\r\n", |a| + 2 + |b|)
  {
    var h := a + "\r\n" + b;
    var pat := "\r\n\r\n";
    var m := h + pat + t;
    assert m == a + "\r\n" + b + "\r\n\r\n" + t;
    assert m[|h|..|h| + 4] == pat;
    forall k: nat | k < |h| ensures !OccursAt(m, pat, k) {
      if k + 4 <= |m| {
        LineFeedsOf(a, b, pat + t, k + 1);
        if k == |a| {
          LineFeedsOf(a, b, pat + t, k + 3);
          assert m[k..k + 4][3] == m[k + 3];
        } else {
          assert m[k..k + 4][1] == m[k + 1];
        }
      }
    }
  }

  /** In `a CRLF b CR ...`, the only line feed before the end of `b` plus one is the
      one after `a`. */
  lemma LineFeedsOf(a: string, b: string, t: string, k: nat)
    requires '\n' !in a && '\n' !in b
    requires |t| > 0 && t[0] == '\r'
    requires k <= |a| + 2 + |b|
    ensures (a + "\r\n" + b + t)[k] == '\n' <==> k == |a| + 1
  {
    var m := a + "\r\n" + b + t;
    if k < |a| {
      assert m[k] == a[k];
    } else if k == |a| {
      assert m[k] == '\r';
    } else if k == |a| + 1 {
      assert m[k] == '\n';
    } else if k < |a| + 2 + |b| {
      assert m[k] == b[k - |a| - 2];
    } else {
      assert m[k] == t[0];
    }
  }

  /** Converting the sent message back to LF line endings, as the integration test
      does before comparing, gives the raw message exactly. */
  lemma ReceivedAsText(recipients: seq<string>, subject: string, body: string)
    ensures LfFromCrlf(Message(recipients, subject, body)) == RawMessage(recipients, subject, body)
  {
    LfFromCrlfInverse(RawMessage(recipients, subject, body));
  }

  /** The message of the integration test as the client builds it, with one
      recipient, subject "Hello" and body "World": on the wire, and after converting
      back to LF endings. The line end after "World" that the test's expected text
      carries is not part of this message. */
  lemma IntegrationTestMessage(recipients: seq<string>, subject: string, body: string)
    requires recipients == ["user@example.com"] && subject == "Hello" && body == "World"
    ensures Message(recipients, subject, body) == "To: user@example.com\r\nSubject: Hello\r\n\r\nWorld"
    ensures LfFromCrlf(Message(recipients, subject, body)) == "To: user@example.com\nSubject: Hello\n\nWorld"
  {
    TestLines(recipients, subject);
    TestHeader(recipients, subject);
    TestRaw(recipients, subject, body);
    TestBody(body);
    HeaderBodySplit(recipients, subject, body);
    TestWire(Header(recipients, subject), CrlfFromLf(body));
    ReceivedAsText(recipients, subject, body);
  }

  /** The integration test's header, the empty line and its body, on the wire. */
  lemma TestWire(header: string, body: string)
    requires header == "To: user@example.com\r\nSubject: Hello" && body == "World"
    ensures header + "\r\n\r\n" + body == "To: user@example.com\r\nSubject: Hello\r\n\r\nWorld"
  {
  }

  /** The header lines of the integration test's message hold no line feed. */
  lemma TestLines(recipients: seq<string>, subject: string)
    requires recipients == ["user@example.com"] && subject == "Hello"
    ensures forall i :: 0 <= i < |recipients| ==> '\n' !in recipients[i]
    ensures '\n' !in subject
  {
  }

  /** The header of the integration test's message. */
  lemma TestHeader(recipients: seq<string>, subject: string)
    requires recipients == ["user@example.com"] && subject == "Hello"
    ensures Header(recipients, subject) == "To: user@example.com\r\nSubject: Hello"
  {
    assert Join(recipients, ",") == "user@example.com";
  }

  /** The raw message of the integration test. */
  lemma TestRaw(recipients: seq<string>, subject: string, body: string)
    requires recipients == ["user@example.com"] && subject == "Hello" && body == "World"
    ensures RawMessage(recipients, subject, body) == "To: user@example.com\nSubject: Hello\n\nWorld"
  {
    assert Join(recipients, ",") == "user@example.com";
  }

  /** The integration test's body has no line feed to convert. */
  lemma TestBody(body: string)
    requires body == "World"
    ensures CrlfFromLf(body) == "World"
  {
    CrlfFromLfFree(body);
  }
}
