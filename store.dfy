/** The in-memory mail store of store.go: a map from mail address to inbox, each
    inbox holding the emails delivered to it, in delivery order, and the IMAP user
    whose "INBOX" mailbox receives a copy of every delivered message. */
module MailStore {

  /** One email as the SMTP session fills it in. It is shared by reference: the
      store keeps the very object the session keeps changing. */
  class Email {
    var from: string
    var to: string
    var data: string

    /** `&email{}`: every field empty. */
    constructor ()
      ensures from == "" && to == "" && data == ""
    {
      from, to, data := "", "", "";
    }
  }

  /** Stand-in for the IMAP library's user: its credentials and, as a ghost log,
      the message texts appended to its "INBOX" mailbox. */
  class ImapUser {
    const username: string
    const password: string
    ghost var inboxLog: seq<string>

    /** `imapmemserver.NewUser` followed by creating its "INBOX" mailbox. */
    constructor (username: string, password: string)
      ensures this.username == username && this.password == password
      ensures inboxLog == []
    {
      this.username := username;
      this.password := password;
      inboxLog := [];
    }
  }

  /** One inbox: its IMAP user and the emails delivered so far, oldest first. */
  class Inbox {
    const user: ImapUser
    var emails: seq<Email>

    constructor (user: ImapUser)
      ensures this.user == user && emails == []
    {
      this.user := user;
      emails := [];
    }
  }

  class Store {
    var inboxes: map<string, Inbox>

    /** Every address has an inbox object of its own. */
    ghost predicate Valid()
      reads this
    {
      forall a, b :: a in inboxes && b in inboxes && a != b ==> inboxes[a] != inboxes[b]
    }

    /** The emails of every inbox, by address. */
    ghost function Contents(): map<string, seq<Email>>
      reads this, inboxes.Values
    {
      map a | a in inboxes :: inboxes[a].emails
    }

    /** What `Add` for an email to `addr` may write: that inbox and its user. */
    function Footprint(addr: string): set<object>
      reads this
    {
      if addr in inboxes then {inboxes[addr], inboxes[addr].user} else {}
    }

    /** `newStore`: no inboxes at all. */
    constructor ()
      ensures Valid() && inboxes == map[] && Contents() == map[]
    {
      inboxes := map[];
    }

    /** `AddUser`: a new, empty inbox for `user` under `addr`, replacing the one that
        was there if any; the other addresses keep their inbox objects and emails. */
    method AddUser(addr: string, user: ImapUser)
      requires Valid()
      modifies this
      ensures Valid()
      ensures inboxes.Keys == old(inboxes.Keys) + {addr}
      ensures fresh(inboxes[addr]) && inboxes[addr].user == user
      ensures forall a :: a in old(inboxes) && a != addr ==> inboxes[a] == old(inboxes[a])
      ensures Contents() == old(Contents())[addr := []]
    {
      var box := new Inbox(user);
      inboxes := inboxes[addr := box];
    }

    /** `Add`: the email goes at the end of the inbox named by its `to` address and
        its text is appended to that inbox user's "INBOX". An unknown address panics
        in the source, so here it is the caller's obligation. The addresses, the
        inbox objects and every other inbox stay as they were. */
    method Add(e: Email)
      requires Valid() && e.to in inboxes
      modifies Footprint(e.to)
      ensures Valid() && inboxes == old(inboxes)
      ensures Contents() == old(Contents())[e.to := old(Contents()[e.to]) + [e]]
      ensures inboxes[e.to].user.inboxLog == old(inboxes[e.to].user.inboxLog) + [e.data]
    {
      var box := inboxes[e.to];
      box.emails := box.emails + [e];
      box.user.inboxLog := box.user.inboxLog + [e.data];
      assert forall a :: a in inboxes && a != e.to ==> inboxes[a] != box;
    }

    /** `List`: the emails of a known inbox, in the order they were added. An unknown
        address panics in the source, so here it is the caller's obligation. */
    method List(addr: string) returns (emails: seq<Email>)
      requires addr in inboxes
      ensures addr in Contents() && emails == Contents()[addr]
    {
      emails := inboxes[addr].emails;
    }
  }

  /** Listing an inbox right after adding to it gives what it held before, followed
      by the new email. */
  method AddThenList(s: Store, e: Email) returns (listed: seq<Email>)
    requires s.Valid() && e.to in s.inboxes
    modifies s.Footprint(e.to)
    ensures listed == old(s.Contents()[e.to]) + [e]
  {
    s.Add(e);
    listed := s.List(e.to);
  }
}
