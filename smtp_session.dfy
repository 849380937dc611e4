/** The SMTP side of smtp.go: a backend that hands every connection a session, and
    the session that records the envelope and the message text into one email
    object it shares with the store. */
module SmtpSession {
  import opened GoErrors
  import opened MailStore

  class Backend {
    const store: Store

    constructor (store: Store)
      ensures this.store == store
    {
      this.store := store;
    }

    /** `NewSession`: a session on this backend with a new, empty email; never fails. */
    method NewSession() returns (s: Session, err: Err)
      ensures fresh(s) && fresh(s.email) && s.backend == this
      ensures s.email.from == "" && s.email.to == "" && s.email.data == ""
      ensures err == None
    {
      s := new Session(this);
      err := None;
    }
  }

  class Session {
    const email: Email
    const backend: Backend

    constructor (backend: Backend)
      ensures fresh(email) && this.backend == backend
      ensures email.from == "" && email.to == "" && email.data == ""
    {
      email := new Email();
      this.backend := backend;
    }

    /** `AuthPlain` accepts any credentials. */
    method AuthPlain(username: string, password: string) returns (err: Err)
      ensures err == None
    {
      err := None;
    }

    /** `Mail` (MAIL FROM) sets the sender and nothing else. */
    method Mail(from: string) returns (err: Err)
      modifies email
      ensures email.from == from
      ensures email.to == old(email.to) && email.data == old(email.data)
      ensures err == None
    {
      email.from := from;
      err := None;
    }

    /** `Rcpt` (RCPT TO) overwrites the recipient, so only the last one is kept. */
    method Rcpt(to: string) returns (err: Err)
      modifies email
      ensures email.to == to
      ensures email.from == old(email.from) && email.data == old(email.data)
      ensures err == None
    {
      email.to := to;
      err := None;
    }

    /** `Data` with the outcome of reading the message (`io.ReadAll`) given as
        `content` and `readErr`. A read error is returned and nothing changes.
        Otherwise the message text becomes the email's data and the email object
        itself is added to the store under its recipient, which must be a known
        inbox: the source panics on an unknown one. */
    method Data(content: string, readErr: Err) returns (err: Err)
      requires backend.store.Valid()
      requires readErr == None ==> email.to in backend.store.inboxes
      modifies email, backend.store.Footprint(email.to)
      ensures backend.store.Valid() && backend.store.inboxes == old(backend.store.inboxes)
      ensures readErr != None ==> err == readErr && unchanged(email)
      ensures readErr != None ==> backend.store.Contents() == old(backend.store.Contents())
      ensures readErr != None ==> unchanged(backend.store.Footprint(email.to))
      ensures readErr == None ==> err == None && email.data == content
      ensures email.from == old(email.from) && email.to == old(email.to)
      ensures readErr == None ==>
        backend.store.Contents() == old(backend.store.Contents())[email.to := old(backend.store.Contents()[email.to]) + [email]]
      ensures readErr == None ==>
        backend.store.inboxes[email.to].user.inboxLog == old(backend.store.inboxes[email.to].user.inboxLog) + [content]
    {
      if readErr != None {
        return readErr;
      }
      email.data := content;
      backend.store.Add(email);
      err := None;
    }

    /** `Reset` does nothing; in particular the email keeps its fields. */
    method Reset()
      ensures unchanged(email)
    {
    }

    /** `Logout` always succeeds and changes nothing. */
    method Logout() returns (err: Err)
      ensures err == None
    {
      err := None;
    }
  }

  /** With several RCPT TO commands only the last recipient is kept. */
  method RcptKeepsLast(s: Session, first: string, last: string)
    modifies s.email
    ensures s.email.to == last && s.email.from == old(s.email.from)
  {
    var _ := s.Rcpt(first);
    var _ := s.Rcpt(last);
  }

  /** Because the store keeps the session's own email object, a MAIL FROM issued on
      the same session after DATA changes the sender of the email already stored. */
  method MailAfterData(s: Session, content: string, laterFrom: string) returns (stored: seq<Email>)
    requires s.backend.store.Valid() && s.email.to in s.backend.store.inboxes
    modifies s.email, s.backend.store.Footprint(s.email.to)
    ensures |stored| > 0 && stored[|stored| - 1] == s.email
    ensures stored[|stored| - 1].from == laterFrom && stored[|stored| - 1].data == content
  {
    var _ := s.Data(content, None);
    var _ := s.Mail(laterFrom);
    stored := s.backend.store.List(s.email.to);
  }

  /** Two messages sent on one session are the same stored object twice: the first
      entry reads back the second message's text. */
  method TwoMessagesOneSession(s: Session, first: string, second: string) returns (stored: seq<Email>)
    requires s.backend.store.Valid() && s.email.to in s.backend.store.inboxes
    modifies s.email, s.backend.store.Footprint(s.email.to)
    ensures |stored| >= 2 && stored[|stored| - 2] == stored[|stored| - 1] == s.email
    ensures stored[|stored| - 2].data == second
    ensures s.email.to in s.backend.store.inboxes
    ensures s.backend.store.inboxes[s.email.to].user.inboxLog
         == old(s.backend.store.inboxes[s.email.to].user.inboxLog) + [first, second]
  {
    var _ := s.Data(first, None);
    var _ := s.Data(second, None);
    stored := s.backend.store.List(s.email.to);
  }
}
