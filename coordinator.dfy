/** The service coordinator of main.go: which services `run` registers and which
    inbox it creates, how `runAsync` and `cancellableRun` turn one service's run
    into one result, how `run` collects the results in arrival order while
    cancelling the shared context, and how it reduces them to one error. The
    goroutines and the channel race are not modelled: which event wins a runner's
    race and the order in which results reach `run` are inputs. */
module Coordinator {
  import opened GoErrors
  import opened GoStrings
  import opened MailStore

  /** The command-line settings `run` works from. */
  datatype Settings = Settings(
    smtpAddr: string,
    imapAddr: string,
    imapsAddr: string,
    tlsCert: string,
    tlsKey: string,
    username: string,
    password: string,
    domain: string,
    insecureAuth: bool,
    debug: bool)

  /** The settings when no flag is given: no IMAPs listener and no TLS files, a
      user to create, and neither insecure authentication nor debug output. */
  function DefaultSettings(): (ss: Settings)
    ensures ss.imapsAddr == "" && ss.tlsCert == "" && ss.tlsKey == ""
    ensures HasUser(ss) && !ss.insecureAuth && !ss.debug
  {
    Settings("127.0.0.1:31025", "127.0.0.1:30143", "", "", "", "user", "user", "localhost", false, false)
  }

  /** One long-running listener: its label in diagnostics, where it listens, and
      whether it speaks implicit TLS. */
  datatype Service = Service(name: string, listenAddr: string, implicitTls: bool)

  /** The services `run` starts, in registration order: SMTP, plain IMAP, and IMAPs
      only when an IMAPs address is set. (The IMAP label is spelled as in the source.) */
  function Services(ss: Settings): (r: seq<Service>)
    ensures |r| == 2 || |r| == 3
    ensures |r| == 3 <==> ss.imapsAddr != ""
    ensures forall i :: 0 <= i < |r| ==> r[i].name != ""
    ensures forall i, j :: 0 <= i < j < |r| ==> r[i].name != r[j].name
    ensures r[0].listenAddr == ss.smtpAddr && r[1].listenAddr == ss.imapAddr
    ensures forall i :: 0 <= i < |r| ==> (r[i].implicitTls <==> i == 2)
    ensures |r| == 3 ==> r[2].listenAddr == ss.imapsAddr
  {
    [Service("SMTP server", ss.smtpAddr, false), Service("IMAP serer", ss.imapAddr, false)]
    + (if ss.imapsAddr != "" then [Service("IMAPs server", ss.imapsAddr, true)] else [])
  }

  /** Whether `run` creates an IMAP user and a store inbox. */
  predicate HasUser(ss: Settings)
  {
    ss.username != "" || ss.password != ""
  }

  /** The address of the one inbox `run` creates, `username@domain`. */
  function InboxKey(ss: Settings): (key: string)
    ensures |key| == |ss.username| + 1 + |ss.domain|
    ensures key[..|ss.username|] == ss.username && key[|ss.username|] == '@'
    ensures key[|ss.username| + 1..] == ss.domain
  {
    ss.username + "@" + ss.domain
  }

  /** The error `run` returns when creating the user's "INBOX" fails: it names the
      failure and wraps the cause. */
  function CreateUserError(e: GoError): (r: GoError)
    ensures Text(r) == "failed to create user: " + Text(e)
    ensures Unwrap(r) == Some(e)
  {
    Wrap("failed to create user: ", e)
  }

  /** `runAsync`'s wrapping of the start and the stop function: nil stays nil, an
      error `e` becomes `prefix` followed by the message of `e`, wrapping `e`. The
      prefix is `failed to start <name>: ` or `failed to stop <name>: `. */
  function WrapFailure(prefix: string, e: Err): (r: Err)
    ensures r == None <==> e == None
    ensures r != None ==> Unwrap(r.value) == e && Text(r.value) == prefix + Text(e.value)
  {
    match e
    case None => None
    case Some(x) => Some(Wrap(prefix, x))
  }

  /** Which of the two events of `cancellableRun`'s select happened first: the
      context being cancelled, or the started function returning. */
  datatype Winner = Cancellation | Completion

  /** A `func() error` passed to `cancellableRun`: calling it yields `result`, and a
      ghost counter records how often it was called. */
  class Func {
    const result: Err
    ghost var calls: nat

    constructor (result: Err)
      ensures this.result == result && calls == 0
    {
      this.result := result;
      calls := 0;
    }

    method Call() returns (e: Err)
      modifies this
      ensures e == result && calls == old(calls) + 1
    {
      e := result;
      calls := calls + 1;
    }
  }

  /** The result the select of `cancellableRun` picks: `stop`'s when cancellation
      wins, the started function's otherwise. */
  function Selected(winner: Winner, fErr: Err, stopErr: Err): Err
  {
    if winner == Cancellation then stopErr else fErr
  }

  /** `cancellableRun`: `f` is started in any case; when cancellation wins, `stop` is
      called once and its result returned, otherwise `f`'s result is returned and
      `stop` is never called. */
  method CancellableRun(winner: Winner, f: Func, stop: Func) returns (err: Err)
    requires f != stop
    modifies f, stop
    ensures f.calls == old(f.calls) + 1
    ensures stop.calls == old(stop.calls) + (if winner == Cancellation then 1 else 0)
    ensures err == Selected(winner, f.result, stop.result)
  {
    var fErr := f.Call();
    if winner == Cancellation {
      err := stop.Call();
    } else {
      err := fErr;
    }
  }

  /** The one result `runAsync` delivers for a service. It is nil exactly when the
      function whose result it reports succeeded, and otherwise wraps that
      function's error. */
  function RunAsync(name: string, winner: Winner, startErr: Err, stopErr: Err): (r: Err)
    ensures r == None <==> (winner == Completion && startErr == None) || (winner == Cancellation && stopErr == None)
    ensures r != None ==> Unwrap(r.value) == (if winner == Completion then startErr else stopErr)
  {
    Selected(winner, WrapFailure("failed to start " + name + ": ", startErr), WrapFailure("failed to stop " + name + ": ", stopErr))
  }

  /** A failed runner's message names the phase and the service, followed by the
      message of the original error. */
  lemma RunAsyncResult(name: string, winner: Winner, startErr: Err, stopErr: Err)
    ensures var r := RunAsync(name, winner, startErr, stopErr);
      && (r != None && winner == Completion ==> Text(r.value) == "failed to start " + name + ": " + Text(startErr.value))
      && (r != None && winner == Cancellation ==> Text(r.value) == "failed to stop " + name + ": " + Text(stopErr.value))
  {
  }

  /** One cancellable shared context (`context.WithCancel`): `Cancel` may be called
      any number of times and leaves it cancelled for good. */
  class Canceller {
    var cancelled: bool
    ghost var calls: nat

    constructor ()
      ensures !cancelled && calls == 0
    {
      cancelled := false;
      calls := 0;
    }

    method Cancel()
      modifies this
      ensures cancelled && calls == old(calls) + 1
    {
      cancelled := true;
      calls := calls + 1;
    }
  }

  /** How the collection loop of `run` ends: with `want` results; still waiting
      because the results ran out first (the channel is never closed, so `run` would
      block); or with a panic on more results than services. */
  datatype Collection =
    | Complete(results: seq<Err>)
    | Waiting(results: seq<Err>)
    | Panicked(results: seq<Err>, message: string)

  /** The panic message naming the expected number of results. */
  function PanicMessage(want: nat): (m: string)
    ensures |m| == 22 + |Decimal(want)| + 14
    ensures m[..22] == "encountered more than " && m[|m| - 14..] == " results. Bug?"
    ensures m[22..|m| - 14] == Decimal(want) && ParseInt(Decimal(want)) == want
  {
    ParseDecimal(want);
    var m := "encountered more than " + Decimal(want) + " results. Bug?";
    assert m[22..|m| - 14] == Decimal(want);
    m
  }

  /** What the collection loop makes of the results in arrival order. The loop
      stops the moment it holds `want` results; a panic needs more results than
      `want`, which can only happen when `want` is 0. */
  function Collected(arrivals: seq<Err>, want: nat): (c: Collection)
    ensures want >= 1 ==> !c.Panicked?
    ensures c.Complete? <==> want >= 1 && |arrivals| >= want
    ensures c.Complete? ==> c.results == arrivals[..want]
    ensures c.Waiting? ==> c.results == arrivals && (|arrivals| < want || arrivals == [])
    ensures c.Panicked? ==> |arrivals| > 0 && c.results == arrivals[..1] && c.message == PanicMessage(0)
    ensures want >= 1 ==> |c.results| <= want
    ensures c.results <= arrivals
  {
    if want == 0 && |arrivals| > 0 then Panicked(arrivals[..1], PanicMessage(0))
    else if want >= 1 && |arrivals| >= want then Complete(arrivals[..want])
    else Waiting(arrivals)
  }

  /** The collection loop of `run`: each result is appended and the shared context
      cancelled, once per result; the loop breaks at `want` results and panics
      beyond it. */
  method Collect(arrivals: seq<Err>, want: nat, ctx: Canceller) returns (c: Collection)
    modifies ctx
    ensures c == Collected(arrivals, want)
    ensures ctx.calls == old(ctx.calls) + |c.results|
    ensures ctx.cancelled == (old(ctx.cancelled) || |c.results| > 0)
  {
    var results: seq<Err> := [];
    var i := 0;
    while i < |arrivals|
      invariant 0 <= i <= |arrivals|
      invariant results == arrivals[..i]
      invariant i == 0 || i < want
      invariant ctx.calls == old(ctx.calls) + i
      invariant ctx.cancelled == (old(ctx.cancelled) || i > 0)
    {
      results := results + [arrivals[i]];
      i := i + 1;
      ctx.Cancel();
      if |results| == want {
        return Complete(results);
      } else if |results| > want {
        return Panicked(results, PanicMessage(want));
      }
    }
    assert arrivals[..i] == arrivals;
    return Waiting(results);
  }

  /** The diagnostic one result contributes: its message if it is an error. */
  function Diagnostic(e: Err): seq<string>
  {
    if e == None then [] else [Text(e.value)]
  }

  /** The diagnostics: the messages of the non-nil results, in arrival order. */
  function Messages(results: seq<Err>): (d: seq<string>)
    ensures |d| <= |results|
  {
    if |results| == 0 then []
    else Messages(results[..|results| - 1]) + Diagnostic(results[|results| - 1])
  }

  /** There are no diagnostics exactly when every result is nil. */
  lemma {:induction false} MessagesEmptyIff(results: seq<Err>)
    ensures Messages(results) == [] <==> forall i :: 0 <= i < |results| ==> results[i] == None
  {
    if |results| > 0 {
      var front := results[..|results| - 1];
      MessagesEmptyIff(front);
      assert forall i :: 0 <= i < |front| ==> front[i] == results[i];
    }
  }

  /** The diagnostics of results received one after another are those of the
      first part followed by those of the second. */
  lemma {:induction false} MessagesConcat(a: seq<Err>, b: seq<Err>)
    ensures Messages(a + b) == Messages(a) + Messages(b)
    decreases |b|
  {
    if |b| == 0 {
      assert a + b == a;
    } else {
      var ab := a + b;
      var front := b[..|b| - 1];
      MessagesConcat(a, front);
      assert ab[..|ab| - 1] == a + front;
      assert ab[|ab| - 1] == b[|b| - 1];
      MessagesLast(ab);
      MessagesLast(b);
    }
  }

  /** The last result contributes the last diagnostic, if any. */
  lemma MessagesLast(results: seq<Err>)
    requires |results| > 0
    ensures Messages(results) == Messages(results[..|results| - 1]) + Diagnostic(results[|results| - 1])
  {
  }

  /** A single result contributes exactly its own diagnostic. */
  lemma MessagesSingle(e: Err)
    ensures Messages([e]) == Diagnostic(e)
  {
    assert [e][..0] == [];
  }

  /** The second loop of `run`, building the diagnostics. */
  method Diagnostics(results: seq<Err>) returns (diagnostics: seq<string>)
    ensures diagnostics == Messages(results)
  {
    diagnostics := [];
    var i := 0;
    while i < |results|
      invariant 0 <= i <= |results|
      invariant diagnostics == Messages(results[..i])
    {
      if results[i] != None {
        diagnostics := diagnostics + [Text(results[i].value)];
      }
      assert results[..i + 1][..i] == results[..i];
      assert Messages(results[..i + 1]) == Messages(results[..i]) + Diagnostic(results[i]);
      i := i + 1;
    }
    assert results[..i] == results;
  }

  /** The prefix of the combined error. */
  const ErrorsPrefix: string := "errors encountered: "

  /** The error `run` makes of the collected results: nil when there are no
      diagnostics, otherwise a plain (not wrapping) error listing them one per line. */
  function Combined(results: seq<Err>): (r: Err)
    ensures r == None <==> Messages(results) == []
    ensures r != None ==>
      Unwrap(r.value) == None && |Text(r.value)| >= |ErrorsPrefix| && Text(r.value)[..|ErrorsPrefix|] == ErrorsPrefix
  {
    var d := Messages(results);
    if d == [] then None else Some(Plain(ErrorsPrefix + Join(d, "\n")))
  }

  /** The end of `run`: format the collected results. */
  method CombineResults(results: seq<Err>) returns (err: Err)
    ensures err == Combined(results)
  {
    if |results| > 0 {
      var diagnostics := Diagnostics(results);
      if |diagnostics| > 0 {
        return Some(Plain(ErrorsPrefix + Join(diagnostics, "\n")));
      }
    }
    return None;
  }

  /** The combined error is nil exactly when every result is nil. */
  lemma CombinedNilIff(results: seq<Err>)
    ensures Combined(results) == None <==> forall i :: 0 <= i < |results| ==> results[i] == None
  {
    MessagesEmptyIff(results);
  }

  /** When no diagnostic spans several lines, splitting the combined message after
      its prefix at line breaks gives back the diagnostics, one per line. */
  lemma CombinedLines(results: seq<Err>)
    requires forall i :: 0 <= i < |results| && results[i] != None ==> '\n' !in Text(results[i].value)
    ensures var e := Combined(results);
      e != None ==>
        && Unwrap(e.value) == None
        && Text(e.value)[..|ErrorsPrefix|] == ErrorsPrefix
        && Split(Text(e.value)[|ErrorsPrefix|..], '\n') == Messages(results)
  {
    var d := Messages(results);
    if d != [] {
      MessagesLines(results);
      SplitJoin(d, '\n');
      var t := ErrorsPrefix + Join(d, "\n");
      assert t[|ErrorsPrefix|..] == Join(d, "\n");
    }
  }

  /** A diagnostic spans several lines only if some result's message does. */
  lemma {:induction false} MessagesLines(results: seq<Err>)
    requires forall i :: 0 <= i < |results| && results[i] != None ==> '\n' !in Text(results[i].value)
    ensures forall i :: 0 <= i < |Messages(results)| ==> '\n' !in Messages(results)[i]
  {
    if |results| > 0 {
      MessagesLines(results[..|results| - 1]);
    }
  }

  /** How `run` ends: it returns an error or nil, or it is still blocked waiting for
      results that never came. */
  datatype RunResult = Returned(err: Err) | Blocked

  /** What `run` returns, given the settings, the outcome of creating the IMAP
      user's "INBOX", and the runners' results in arrival order. */
  function RunOutcome(ss: Settings, createErr: Err, arrivals: seq<Err>): (r: RunResult)
    ensures r.Returned? <==> (HasUser(ss) && createErr != None) || |arrivals| >= |Services(ss)|
    ensures HasUser(ss) && createErr != None ==>
      && r.Returned? && r.err != None && Unwrap(r.err.value) == createErr
      && Text(r.err.value) == "failed to create user: " + Text(createErr.value)
  {
    if HasUser(ss) && createErr != None then Returned(Some(CreateUserError(createErr.value)))
    else
      var c := Collected(arrivals, |Services(ss)|);
      if c.Complete? then Returned(Combined(c.results)) else Blocked
  }

  /** `run` from the store set-up to its return: a store with the one inbox the
      settings ask for, fed by the IMAP user built from the configured credentials,
      then the services, the collection and the combined error.
      The store is returned so that its set-up can be stated. */
  method Run(ss: Settings, createErr: Err, arrivals: seq<Err>) returns (r: RunResult, st: Store)
    ensures r == RunOutcome(ss, createErr, arrivals)
    ensures fresh(st) && st.Valid()
    ensures st.inboxes.Keys == if HasUser(ss) && createErr == None then {InboxKey(ss)} else {}
    ensures st.Contents() == if HasUser(ss) && createErr == None then map[InboxKey(ss) := []] else map[]
    ensures HasUser(ss) && createErr == None ==>
      var user := st.inboxes[InboxKey(ss)].user;
      && user.username == ss.username && user.password == ss.password
      && user.inboxLog == []
  {
    st := new Store();
    if HasUser(ss) {
      if createErr != None {
        return Returned(Some(CreateUserError(createErr.value))), st;
      }
      var user := new ImapUser(ss.username, ss.password);
      st.AddUser(InboxKey(ss), user);
    }
    var services := Services(ss);
    var ctx := new Canceller();
    var c := Collect(arrivals, |services|, ctx);
    if c.Complete? {
      var err := CombineResults(c.results);
      r := Returned(err);
    } else {
      r := Blocked;
    }
  }

  /** `run` returns nil exactly when the user set-up succeeded, every service
      reported, and every reported result was nil; it never panics. */
  lemma RunSucceedsIff(ss: Settings, createErr: Err, arrivals: seq<Err>)
    ensures var want := |Services(ss)|;
      RunOutcome(ss, createErr, arrivals) == Returned(None) <==>
        && (HasUser(ss) ==> createErr == None)
        && |arrivals| >= want
        && forall i :: 0 <= i < want ==> arrivals[i] == None
  {
    var want := |Services(ss)|;
    if |arrivals| >= want {
      CombinedNilIff(arrivals[..want]);
    }
  }

  /** `run` never reaches its panic branch and never holds more results than
      services. */
  lemma RunNeverPanics(ss: Settings, arrivals: seq<Err>)
    ensures var c := Collected(arrivals, |Services(ss)|);
      !c.Panicked? && |c.results| <= |Services(ss)|
  {
  }

  /** When `run` returns an error after collecting, its message is the prefix
      followed by the diagnostics of the first `want` results joined by line breaks. */
  lemma RunErrorText(ss: Settings, createErr: Err, arrivals: seq<Err>)
    requires !HasUser(ss) || createErr == None
    requires RunOutcome(ss, createErr, arrivals).Returned?
    requires RunOutcome(ss, createErr, arrivals).err != None
    ensures var want := |Services(ss)|;
      |arrivals| >= want &&
      Text(RunOutcome(ss, createErr, arrivals).err.value)
        == ErrorsPrefix + Join(Messages(arrivals[..want]), "\n")
  {
  }

  /** With no flags: two services and the inbox `user@localhost`. */
  lemma DefaultSetup()
    ensures |Services(DefaultSettings())| == 2
    ensures HasUser(DefaultSettings()) && InboxKey(DefaultSettings()) == "user@localhost"
  {
  }

  /** Two services; the first fails to start, which cancels the second, whose stop
      then fails: `run` reports exactly two lines, the start failure of the first
      service and the stop failure of the second, in that order. */
  lemma StartFailureThenStopFailure(ss: Settings, startErr: GoError, stopErr: GoError)
    requires ss.imapsAddr == ""
    ensures |Services(ss)| == 2
    ensures var a := Services(ss)[0].name;
      var b := Services(ss)[1].name;
      var arrivals := [RunAsync(a, Completion, Some(startErr), None), RunAsync(b, Cancellation, None, Some(stopErr))];
      && a == "SMTP server" && b == "IMAP serer"
      && RunOutcome(ss, None, arrivals) == Returned(Some(Plain(ErrorsPrefix
           + ("failed to start " + a + ": " + Text(startErr)) + "\n"
           + ("failed to stop " + b + ": " + Text(stopErr)))))
  {
    var a := Services(ss)[0].name;
    var b := Services(ss)[1].name;
    var x := RunAsync(a, Completion, Some(startErr), None);
    var y := RunAsync(b, Cancellation, None, Some(stopErr));
    RunAsyncResult(a, Completion, Some(startErr), None);
    RunAsyncResult(b, Cancellation, None, Some(stopErr));
    TwoFailures(ss, x, y, "failed to start " + a + ": " + Text(startErr), "failed to stop " + b + ": " + Text(stopErr));
  }

  /** Two results that are errors, collected from two services: `run` reports their
      messages in arrival order, one per line. */
  lemma TwoFailures(ss: Settings, x: Err, y: Err, p: string, q: string)
    requires |Services(ss)| == 2
    requires Diagnostic(x) == [p] && Diagnostic(y) == [q]
    ensures RunOutcome(ss, None, [x, y]) == Returned(Some(Plain(ErrorsPrefix + p + "\n" + q)))
  {
    CombinedTwo(x, y, p, q);
    RunAfterCollection(ss, [x, y]);
    assert ErrorsPrefix + (p + "\n" + q) == ErrorsPrefix + p + "\n" + q;
  }

  /** Once the user set-up succeeded and exactly one result per service arrived,
      `run` returns the combination of all of them. */
  lemma RunAfterCollection(ss: Settings, arrivals: seq<Err>)
    requires |arrivals| == |Services(ss)|
    ensures RunOutcome(ss, None, arrivals) == Returned(Combined(arrivals))
  {
    assert arrivals[..|arrivals|] == arrivals;
  }

  /** Two results that are errors combine into their two messages, one per line. */
  lemma CombinedTwo(x: Err, y: Err, p: string, q: string)
    requires Diagnostic(x) == [p] && Diagnostic(y) == [q]
    ensures Combined([x, y]) == Some(Plain(ErrorsPrefix + (p + "\n" + q)))
  {
    MessagesSingle(x);
    assert [x, y][..1] == [x];
    assert Messages([x, y]) == [p, q];
    assert Join([p, q], "\n") == p + "\n" + q by {
      assert [p, q][1..] == [q];
    }
  }
}
