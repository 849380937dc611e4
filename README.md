# mailserver — a Dafny model of its sequential core

The mail server is a test server that accepts mail over SMTP and offers it again
over IMAP. `run` (main.go) starts an SMTP listener, a plain IMAP listener and,
optionally, an IMAPs listener. Each listener runs under `runAsync`/`cancellableRun`.
The first result that comes back cancels the shared context. `run` waits for one
result per listener and folds them into a single error. Mail that an SMTP session
(smtp.go) receives goes into an in-memory store (store.go): a map from mail address
to an inbox of emails, each inbox also feeding an IMAP user's "INBOX". A small
test client (smtptest/gostdsmtp.go) builds the message it sends: a `To:` and a
`Subject:` header field (sections 3.6.3 and 3.6.5 of RFC 5322), an empty line and
the body, with CRLF line endings (section 2.1 of RFC 5322).

Modules, one per source file plus two for the Go library behaviour they rely on:

- `GoErrors` (go_errors.dfy): Go `error` values. `None` is nil. `Wrapped` is what
  `fmt.Errorf` with `%w` builds, so `errors.Unwrap` gives the cause back.
- `GoStrings` (go_strings.dfy): `strings.Join`, the LF to CRLF `strings.ReplaceAll`
  of the test client, and `%d`. It also holds two functions that only serve to
  state properties. `strings.Split` on one character reads a joined error message
  back into its lines; the server never calls it. The CRLF to LF
  `strings.ReplaceAll` is applied only by the integration test (main_test.go:101).
- `Coordinator` (coordinator.dfy): main.go. The services and the inbox key that
  the settings produce. The error wrapping of `runAsync`. `cancellableRun` as a
  method that calls the started function and, on cancellation, the stop function;
  both are objects counting their calls, and the winner of the race is an input. The collection
  loop over a given arrival order, as a method with loop invariants, proved
  against the function `Collected`. The diagnostics loop, proved against
  `Messages`. The combined error, and `run` as a whole.
- `MailStore` (store.go): classes `Email`, `ImapUser` (its "INBOX" is a ghost log),
  `Inbox` and `Store`. The store's methods state the new contents in terms of
  the old ones, and say which inboxes stay untouched.
- `SmtpSession` (smtp.go): classes `Backend` and `Session`. The session keeps
  one `Email` object, which it shares with the store, so the aliasing is
  modelled. Client methods show it: a MAIL FROM issued after DATA changes the
  email already stored.
- `GostdClient` (smtptest/gostdsmtp.go): the message text, the authentication,
  the dial address, and the arguments handed to `smtp.SendMail`.

Three points about the code that the model keeps as written:

- The collection loop breaks as soon as it holds `want` results, so the panic
  branch at main.go:208-209 is reachable only when `want` is 0. `want` is always
  2 or 3, so `run` never panics (`RunNeverPanics`), and a surplus result is
  simply never read.
- Only the SMTP stop has a 5-second deadline (main.go:167). The IMAP stops
  (`Close`, main.go:176 and 184) have none.
- The label of the plain IMAP service is "IMAP serer" (main.go:173). The model
  keeps that spelling, since it appears in the diagnostics.

## Model

| member | source | states |
|---|---|---|
| `Coordinator.Services` | main.go:164-187 | 2 services, or 3 exactly when the IMAPs address is non-empty; names non-empty and distinct; SMTP on the SMTP address, IMAP on the IMAP address, only the third uses implicit TLS |
| `Coordinator.InboxKey` | main.go:142 | the inbox address is the username, then `@`, then the domain |
| `Coordinator.Func.constructor` | main.go:250 | a function value of `cancellableRun` has its given result and has not been called |
| `Coordinator.Func.Call` | main.go:253 | calling a function value yields its result and counts one more call |
| `Coordinator.CancellableRun` | main.go:250-262 | `f` is called exactly once; `stop` is called once when cancellation wins and not at all otherwise; the result is `stop`'s on cancellation and `f`'s otherwise |
| `Coordinator.WrapFailure` | main.go:232-243 | the wrapped start or stop result is nil iff the function's error is; otherwise it reads the prefix (`failed to start <name>: ` or `failed to stop <name>: `) followed by `e`, and unwraps to `e` |
| `Coordinator.RunAsync` | main.go:228-248 | a runner's result is nil iff the function whose result it reports (start on completion, stop on cancellation) succeeded; otherwise it unwraps to that function's error |
| `Coordinator.RunAsyncResult` | main.go:228-248 | a failed runner's message is `failed to start <name>: e` on completion and `failed to stop <name>: e` on cancellation |
| `Coordinator.CreateUserError` | main.go:137-139 | the failure to create the "INBOX" reads `failed to create user: e` and unwraps to `e` |
| `Coordinator.PanicMessage` | main.go:209 | the panic text is `encountered more than `, the count in decimal (which reads back as the count), then ` results. Bug?` |
| `GoErrors.Wrap` | main.go:235 | a `%w` error prints its prefix followed by the cause, and unwraps to the cause |
| `Coordinator.Canceller.constructor` | main.go:159 | a new shared context is not cancelled and has had no cancel calls (assuming the parent context was not already cancelled when this line ran; see "## Left out") |
| `Coordinator.Canceller.Cancel` | main.go:203 | after any cancel the context is cancelled; each call is counted |
| `Coordinator.Collected` | main.go:196-211 | the loop completes iff `want >= 1` and at least `want` results arrive, and then holds exactly the first `want` in arrival order; fewer leave it waiting; holds at most `want`; a panic only when `want == 0` |
| `Coordinator.Collect` | main.go:196-211 | the loop computes `Collected`; cancel ran once per collected result; the context is cancelled iff it was before or some result arrived |
| `Coordinator.RunNeverPanics` | main.go:197-211 | with the registered services the panic branch is unreachable and at most `want` results are held |
| `Coordinator.Messages` | main.go:213-219 | there are never more diagnostics than results |
| `Coordinator.MessagesEmptyIff` | main.go:213-220 | no diagnostics iff every result is nil |
| `Coordinator.MessagesConcat` | main.go:213-219 | the diagnostics of consecutive results are those of the first part followed by those of the second (arrival order is kept) |
| `Coordinator.MessagesSingle` | main.go:215-218 | one result contributes its own message if it is an error and nothing if nil |
| `Coordinator.Diagnostics` | main.go:213-219 | the second loop builds exactly `Messages` of the results |
| `Coordinator.Combined` | main.go:213-225 | the combined error is nil iff there are no diagnostics; otherwise it wraps nothing and starts with `errors encountered: ` |
| `Coordinator.CombineResults` | main.go:213-225 | the end of `run` (including its `len(results) > 0` guard) yields exactly `Combined` |
| `Coordinator.CombinedNilIff` | main.go:213-225 | the combined error is nil iff every result is nil |
| `Coordinator.CombinedLines` | main.go:220-222 | a combined error wraps nothing, starts with `errors encountered: `, and when no message has a line break, splitting the rest at line breaks gives back the diagnostics |
| `Coordinator.RunOutcome` | main.go:133-225 | `run` returns (rather than waits) iff the user creation failed or at least `want` results arrived; a failed user creation returns `failed to create user: e`, unwrapping to `e` |
| `Coordinator.RunAfterCollection` | main.go:197-225 | when the user set-up succeeded and exactly one result per service arrived, `run` returns the combination of all of them |
| `Coordinator.Run` | main.go:107-225 | `run` yields `RunOutcome`; its store is new and holds one empty inbox under `username@domain` iff a username or password is set and the user was created, and none otherwise; that inbox feeds an IMAP user with the configured username and password and an empty "INBOX" |
| `Coordinator.RunSucceedsIff` | main.go:135-225 | `run` returns nil iff the user set-up succeeded, all `want` results arrived, and each was nil |
| `Coordinator.RunErrorText` | main.go:213-225 | a returned error after collection reads `errors encountered: ` followed by the diagnostics of the first `want` results joined by `\n` |
| `Coordinator.DefaultSettings` | main.go:59-89 | with no flags there is no IMAPs listener and no TLS file, a user is set up, and insecure authentication and debug output are off |
| `Coordinator.DefaultSetup` | main.go:59-89 | with no flags there are two services and the inbox `user@localhost` |
| `Coordinator.StartFailureThenStopFailure` | main.go:164-248 | with any user settings (those of the defaults and of the integration test included), SMTP fails to start and IMAP then fails to stop: the error lists the start failure of "SMTP server", then the stop failure of "IMAP serer", one line each |
| `GoStrings.Join` | main.go:221 | an empty list joins to the empty string; otherwise the join starts with the first string and is as long as all strings plus one separator between each two |
| `GoStrings.SplitJoin` | main.go:221 | splitting a join on its one-character separator gives the joined strings back when none contains the separator |
| `GoStrings.CrlfFromLf` | smtptest/gostdsmtp.go:25 | the LF→CRLF replacement adds one character per LF, every LF in the result follows a CR, and the result does not start with LF |
| `GoStrings.LfFromCrlf` | main_test.go:101 | replacing CRLF by LF never lengthens a string and leaves one without CR as it is |
| `GoStrings.LfFromCrlfInverse` | main_test.go:98-107 | replacing CRLF by LF undoes the LF→CRLF replacement for every string |
| `GoStrings.Decimal` | smtptest/gostdsmtp.go:26 | `%d` writes a minus sign exactly for a negative number, then one or more decimal digits and nothing else |
| `GoStrings.ParseDecimal` | smtptest/gostdsmtp.go:26 | `%d` writes no colon, and reading the numeral gives the number back |
| `MailStore.Email.constructor` | store.go:23-28 | a new email has empty sender, recipient and data |
| `MailStore.ImapUser.constructor` | main.go:136-137 | a new user has the given credentials and an empty "INBOX" |
| `MailStore.Inbox.constructor` | store.go:61-64 | a new inbox belongs to the given user and holds no emails |
| `MailStore.Store.constructor` | store.go:30-35 | a new store has no inboxes |
| `MailStore.Store.AddUser` | store.go:60-65 | afterwards `addr` has a new, empty inbox for the given user, replacing any earlier one; the key set gains only `addr`; all other inboxes are unchanged |
| `MailStore.Store.Add` | store.go:37-48 | requires a known recipient inbox; appends the email object at the end of that inbox and its data to that user's "INBOX" log; keys, inbox objects and other inboxes unchanged |
| `MailStore.Store.List` | store.go:50-58 | requires a known inbox; returns its emails in insertion order |
| `MailStore.AddThenList` | store.go:44-57 | listing right after `Add(e)` gives the earlier list followed by `e` |
| `SmtpSession.Backend.constructor` | main.go:111-113 | the SMTP backend works on the given store |
| `SmtpSession.Session.constructor` | smtp.go:15-18 | a new session has a new email with all fields empty, on the given backend |
| `SmtpSession.Backend.NewSession` | smtp.go:14-19 | a new session on this backend with a new email whose fields are all empty; no error |
| `SmtpSession.Session.AuthPlain` | smtp.go:26-30 | always succeeds |
| `SmtpSession.Session.Mail` | smtp.go:32-40 | sets only the sender; recipient and data unchanged; no error |
| `SmtpSession.Session.Rcpt` | smtp.go:42-50 | overwrites only the recipient; sender and data unchanged; no error |
| `SmtpSession.RcptKeepsLast` | smtp.go:42-50 | after two RCPT commands only the last recipient is kept |
| `SmtpSession.Session.Data` | smtp.go:52-67 | a read error is returned and nothing changes, neither the email, nor the inbox, nor its user's "INBOX" log; otherwise data becomes the content and the session's own email object is appended to the recipient's inbox, which must be known; its text goes to that user's "INBOX" log |
| `SmtpSession.Session.Reset` | smtp.go:69 | changes nothing; the email keeps its fields |
| `SmtpSession.Session.Logout` | smtp.go:71-73 | always succeeds |
| `SmtpSession.MailAfterData` | smtp.go:32-64 | the stored entry is the session's email, so a MAIL FROM after DATA changes the sender of the mail already in the store |
| `SmtpSession.TwoMessagesOneSession` | smtp.go:52-67 | two DATA commands on one session store the same object twice, and both entries show the second text; the "INBOX" log receives both texts in order |
| `GostdClient.ClientAuth` | smtptest/gostdsmtp.go:21-24 | CRAM-MD5 with the configured credentials iff both username and password are non-empty; otherwise none |
| `GostdClient.DialAddress` | smtptest/gostdsmtp.go:26 | the host, a colon, then the port in decimal; no colon after the host's, and the numeral reads back as the port |
| `GostdClient.RawMessage` | smtptest/gostdsmtp.go:25 | the formatted text starts with `To: ` and the comma-joined recipients, ends with the body unchanged, and is 16 characters longer than recipients, subject and body together |
| `GostdClient.Message` | smtptest/gostdsmtp.go:25 | the sent message is longer than the formatted text by its number of LFs, and every LF in it ends a CRLF |
| `GostdClient.Sendmail` | smtptest/gostdsmtp.go:20-27 | the dial address is `DialAddress`, the authentication `ClientAuth` (present iff both credentials are set), the message `Message`; the envelope sender and recipients are passed unchanged; the message converts back to exactly the formatted text |
| `GostdClient.HeaderBodySplit` | smtptest/gostdsmtp.go:25 | when recipients and subject have no LF, the message is the CRLF header, an empty line and the CRLF body, and its first CRLF CRLF is the one ending the header |
| `GostdClient.ReceivedAsText` | main_test.go:98-107 | converting the sent message back to LF endings gives exactly `To: <recipients>\nSubject: <subject>\n\n<body>` |
| `GostdClient.IntegrationTestMessage` | main_test.go:61-107 | for `user@example.com`, `Hello`, `World` the message the client builds is `To: user@example.com\r\nSubject: Hello\r\n\r\nWorld`, and its LF form is `To: user@example.com\nSubject: Hello\n\nWorld`; the test's expected text has one more line end after `World` |

## Left out

- Goroutines, channels and the `select` races in `run`, `runAsync` and `cancellableRun` are concurrency and are not modelled. The race winner of each runner and the order in which results reach `run` are inputs. This means the model does not tie a `Cancellation` winner to an earlier result or signal.
- `signalingContext` and the interrupt signal are not modelled. They only trigger the shared cancellation.
- `Coordinator.Canceller.constructor`: the new shared context starts out not cancelled. In Go, a child of an already-cancelled parent starts out cancelled, so this holds only if no interrupt arrived before main.go:159. The parent context of `signalingContext` is not modelled.
- The 5-second shutdown deadline of the SMTP stop is not modelled. Its error is part of the stop result, which is an input.
- The `defer cancel()` of `run` is not modelled. It only runs after `run` returns.
- Flag parsing (including `-h` and `ErrHelp`) is library behaviour and is not modelled. Only the default values are kept, in `DefaultSettings`.
- TLS key-pair loading and its `log.Fatalf` are not modelled.
- The go-smtp and go-imap servers (`ListenAndServe`, `ListenAndServeTLS`, `Shutdown`, `Close`, `memServer.AddUser`, `NewSession` of the IMAP side) are foreign code. Their results are inputs.
- The error of `user.Create("INBOX")` is an input (`createErr`).
- `user.Append` is a ghost log of the appended texts. Its error is ignored by the source, and that is not modelled.
- `Coordinator.Run`: if fewer results arrive than services, the Go loop blocks forever, because the channel is never closed. The model reports this as `Blocked` instead of not returning.
- `io.ReadAll` in `Data` is an input pair (content, error). Its partial content on error is ignored, as in the source.
- `MailStore.Store.Add`, `MailStore.Store.List`, `SmtpSession.Session.Data`: the panic on an unknown inbox is a precondition, so the panic itself and its message are not modelled. `List`'s panic message prints the missing inbox value (nil), not the address.
- `smtp.SendMail` in the test client is not modelled. Its arguments are returned as a `Submission` value, and its error comes from the network library. The `[]byte` conversion is kept as characters, with no UTF-8 encoding.
- Logging is not modelled: `log.Printf`, `log.Println`, and the debug writer. In `run` the local `debugWriter` is never assigned, so the `-debug` flag does not reach the servers; that too is logging.
- Go's `int` is 64-bit. Port numbers and result counts are unbounded in the model, which matters for neither.
- `GostdClient.IntegrationTestMessage`: the line end after "World" in the text the integration test compares (main_test.go:103-107) is not in the message the client builds. `smtp.SendMail` adds it when it writes the DATA section, and the network library is not modelled, so the model does not promise the test's exact text.
- The `select` of `cancellableRun` is one input (`Winner`) per runner. The model does not capture that the started function keeps running after cancellation wins, nor what happens to its late result.
- `Coordinator.RunAsync`: the two closures `runAsync` passes to `cancellableRun` are composed as values through `Selected`, the function that `CancellableRun` is proved against. The call counts are stated for `CancellableRun` only, because Dafny has no function values that a method could both wrap and count.
- imaptest/imaptest.go, a network IMAP client used by the tests, is left out. main_test.go is used only as evidence for the message format.
