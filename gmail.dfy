/** The mail hook: the list of emails a signed-in user sees and the operations
    that update it in place of a server (mark read, toggle important, archive,
    delete), with the unread and important views derived from it. */
module Gmail {
  import opened Wrappers
  import opened Seqs

  datatype Address = Address(name: Option<string>, email: string)

  datatype Email = Email(
    id: string, threadId: string,
    subject: Option<string>, snippet: Option<string>,
    from: Option<Address>, to: Option<seq<Address>>, cc: Option<seq<Address>>, bcc: Option<seq<Address>>,
    date: string, read: bool, important: bool, hasAttachments: bool)

  /** `markAsRead`: every email with this id is marked read. */
  function MarkRead(emails: seq<Email>, id: string): seq<Email>
  {
    seq(|emails|, k requires 0 <= k < |emails| =>
      if emails[k].id == id then emails[k].(read := true) else emails[k])
  }

  /** `markAsImportant`: every email with this id has its important flag flipped. */
  function ToggleImportant(emails: seq<Email>, id: string): seq<Email>
  {
    seq(|emails|, k requires 0 <= k < |emails| =>
      if emails[k].id == id then emails[k].(important := !emails[k].important) else emails[k])
  }

  function HasOtherId(id: string): Email -> bool
  {
    (e: Email) => e.id != id
  }

  /** `archiveEmail` and `deleteEmail`: every email with this id is dropped. */
  function Without(emails: seq<Email>, id: string): seq<Email>
  {
    Filter(emails, HasOtherId(id))
  }

  function IsUnread(e: Email): bool { !e.read }

  function IsImportant(e: Email): bool { e.important }

  /** `unreadEmails`. */
  function Unread(emails: seq<Email>): seq<Email>
  {
    Filter(emails, IsUnread)
  }

  /** `importantEmails`. */
  function Important(emails: seq<Email>): seq<Email>
  {
    Filter(emails, IsImportant)
  }

  ghost predicate HasId(emails: seq<Email>, id: string)
  {
    exists k :: 0 <= k < |emails| && emails[k].id == id
  }

  // ---- marking read ----

  /** Marking read keeps length, order and ids; an email with the id differs from
      its old self only in being read, and every other email is untouched. */
  lemma MarkReadFrame(emails: seq<Email>, id: string)
    ensures var r := MarkRead(emails, id);
      && |r| == |emails|
      && forall k :: 0 <= k < |r| ==>
        && r[k].id == emails[k].id
        && (emails[k].id == id ==> r[k].read && r[k].(read := emails[k].read) == emails[k])
        && (emails[k].id != id ==> r[k] == emails[k])
  {
  }

  /** Marking read twice is marking read once. */
  lemma MarkReadIdempotent(emails: seq<Email>, id: string)
    ensures MarkRead(MarkRead(emails, id), id) == MarkRead(emails, id)
  {
  }

  lemma MarkReadTail(emails: seq<Email>, id: string)
    requires emails != []
    ensures MarkRead(emails, id) == MarkRead([emails[0]], id) + MarkRead(emails[1..], id)
  {
  }

  /** The unread view after marking read is the old unread view without that id. */
  lemma {:induction false} MarkReadUnread(emails: seq<Email>, id: string)
    ensures Unread(MarkRead(emails, id)) == Without(Unread(emails), id)
  {
    if emails != [] {
      MarkReadUnread(emails[1..], id);
      MarkReadTail(emails, id);
      assert MarkRead(emails, id)[1..] == MarkRead(emails[1..], id);
      assert emails == [emails[0]] + emails[1..];
    }
  }

  // ---- toggling important ----

  /** Toggling keeps length, order and ids; an email with the id differs from its
      old self only in its important flag, which is flipped. */
  lemma ToggleImportantFrame(emails: seq<Email>, id: string)
    ensures var r := ToggleImportant(emails, id);
      && |r| == |emails|
      && forall k :: 0 <= k < |r| ==>
        && r[k].id == emails[k].id
        && (emails[k].id == id ==> r[k].important != emails[k].important && r[k].(important := emails[k].important) == emails[k])
        && (emails[k].id != id ==> r[k] == emails[k])
  {
  }

  /** Toggling twice is the identity. */
  lemma ToggleImportantTwice(emails: seq<Email>, id: string)
    ensures ToggleImportant(ToggleImportant(emails, id), id) == emails
  {
  }

  // ---- removing ----

  /** Removal keeps exactly the emails with another id, every copy of each, in
      their original order. */
  lemma WithoutSpec(emails: seq<Email>, id: string, e: Email)
    ensures var r := Without(emails, id);
      && (e in r <==> e in emails && e.id != id)
      && IsSubsequence(r, emails)
      && multiset(r)[e] == (if e.id == id then 0 else multiset(emails)[e])
      && !HasId(r, id)
  {
    FilterCount(emails, HasOtherId(id), e);
    var r := Without(emails, id);
    forall k | 0 <= k < |r| ensures r[k].id != id {
      assert r[k] in r;
    }
  }

  /** Removing twice is removing once. */
  lemma WithoutIdempotent(emails: seq<Email>, id: string)
    ensures Without(Without(emails, id), id) == Without(emails, id)
  {
    FilterFilter(emails, HasOtherId(id), HasOtherId(id), HasOtherId(id));
  }

  // ---- an id that is not there ----

  /** None of the four operations changes a list in which the id does not occur. */
  lemma AbsentIdUnchanged(emails: seq<Email>, id: string)
    requires !HasId(emails, id)
    ensures MarkRead(emails, id) == emails
    ensures ToggleImportant(emails, id) == emails
    ensures Without(emails, id) == emails
  {
    forall x | x in emails ensures HasOtherId(id)(x) {
      var k :| 0 <= k < |emails| && emails[k] == x;
    }
    FilterAll(emails, HasOtherId(id));
  }

  // ---- the derived views ----

  /** `unreadEmails` and `importantEmails` hold exactly the unread, respectively
      important, emails, every copy of each, in their original order. */
  lemma ViewsExact(emails: seq<Email>, e: Email)
    ensures e in Unread(emails) <==> e in emails && !e.read
    ensures multiset(Unread(emails))[e] == if e.read then 0 else multiset(emails)[e]
    ensures IsSubsequence(Unread(emails), emails)
    ensures e in Important(emails) <==> e in emails && e.important
    ensures multiset(Important(emails))[e] == if e.important then multiset(emails)[e] else 0
    ensures IsSubsequence(Important(emails), emails)
  {
    FilterCount(emails, IsUnread, e);
    FilterCount(emails, IsImportant, e);
  }

  /** The hook's state. */
  class Mailbox {
    var emails: seq<Email>
    var isLoading: bool

    /** Before anything is fetched: no emails, loading. */
    constructor ()
      ensures emails == [] && isLoading
    {
      emails := [];
      isLoading := true;
    }

    /** `fetchEmails` up to its delay: loading starts, the list stays. */
    method FetchEmails()
      modifies this
      ensures isLoading && emails == old(emails)
    {
      isLoading := true;
    }

    /** The end of the fetch delay: the fetched list replaces the old one. */
    method EmailsArrived(fetched: seq<Email>)
      modifies this
      ensures emails == fetched && !isLoading
    {
      emails := fetched;
      isLoading := false;
    }

    /** The effect on a change of the signed-in state: fetch when signed in,
        otherwise empty the list. */
    method AuthChanged(isAuthenticated: bool)
      modifies this
      ensures isAuthenticated ==> isLoading && emails == old(emails)
      ensures !isAuthenticated ==> emails == [] && isLoading == old(isLoading)
    {
      if isAuthenticated {
        FetchEmails();
      } else {
        emails := [];
      }
    }

    method MarkAsRead(id: string)
      modifies this
      ensures emails == MarkRead(old(emails), id) && isLoading == old(isLoading)
    {
      emails := MarkRead(emails, id);
    }

    method MarkAsImportant(id: string)
      modifies this
      ensures emails == ToggleImportant(old(emails), id) && isLoading == old(isLoading)
    {
      emails := ToggleImportant(emails, id);
    }

    method ArchiveEmail(id: string)
      modifies this
      ensures emails == Without(old(emails), id) && isLoading == old(isLoading)
    {
      emails := Without(emails, id);
    }

    method DeleteEmail(id: string)
      modifies this
      ensures emails == Without(old(emails), id) && isLoading == old(isLoading)
    {
      emails := Without(emails, id);
    }
  }
}
