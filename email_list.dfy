/** The email list page: the tab taken from and written to the URL's `filter`
    parameter, the search over the current tab, the selection of emails and the
    batch actions applied to it. */
module EmailList {
  import opened Wrappers
  import opened Seqs
  import opened Gmail

  // ---- tabs and the URL ----

  datatype Tab = AllTab | UnreadTab | ImportantTab

  /** The value each tab trigger carries. */
  function TabName(t: Tab): string
  {
    match t
    case AllTab => "all"
    case UnreadTab => "unread"
    case ImportantTab => "important"
  }

  /** The query parameter the tab is kept in. */
  const FilterKey: string := "filter"

  function Lookup(params: map<string, string>, key: string): Option<string>
  {
    if key in params then Some(params[key]) else None
  }

  /** The URL effect: `unread` and `important` select their tab, anything else,
      including no parameter at all, selects the tab of all emails. */
  function TabOfFilter(filter: Option<string>): (t: Tab)
    ensures t == UnreadTab <==> filter == Some("unread")
    ensures t == ImportantTab <==> filter == Some("important")
  {
    if filter == Some("unread") then UnreadTab
    else if filter == Some("important") then ImportantTab
    else AllTab
  }

  /** `handleTabChange`'s parameters: the tab of all emails removes `filter`,
      any other tab sets it to the tab's name. */
  function WithTab(params: map<string, string>, t: Tab): map<string, string>
  {
    if t == AllTab then params - {FilterKey} else params[FilterKey := TabName(t)]
  }

  /** Writing a tab into the parameters and reading it back gives that tab; the
      `filter` parameter is present exactly for the two narrower tabs, and every
      other parameter is kept. */
  lemma TabRoundTrip(params: map<string, string>, t: Tab, key: string)
    ensures TabOfFilter(Lookup(WithTab(params, t), FilterKey)) == t
    ensures FilterKey in WithTab(params, t) <==> t != AllTab
    ensures key != FilterKey ==> Lookup(WithTab(params, t), key) == Lookup(params, key)
  {
  }

  // ---- search ----

  /** ASCII lower case. */
  function Lower(c: char): char
  {
    if 'A' <= c <= 'Z' then (c as int + 32) as char else c
  }

  function LowerStr(s: string): (r: string)
    ensures |r| == |s|
  {
    seq(|s|, k requires 0 <= k < |s| => Lower(s[k]))
  }

  predicate IsPrefix(needle: string, hay: string)
  {
    |needle| <= |hay| && hay[..|needle|] == needle
  }

  /** `includes`. */
  predicate Contains(hay: string, needle: string)
    decreases |hay|
  {
    IsPrefix(needle, hay) || (hay != [] && Contains(hay[1..], needle))
  }

  /** `needle` occurs in `hay` starting at position `i`. */
  predicate OccursAt(hay: string, needle: string, i: int)
  {
    0 <= i && i + |needle| <= |hay| && hay[i..i + |needle|] == needle
  }

  /** `Contains` finds exactly the needles that occur somewhere in the haystack. */
  lemma {:induction false} ContainsIff(hay: string, needle: string)
    ensures Contains(hay, needle) <==> exists i :: OccursAt(hay, needle, i)
    decreases |hay|
  {
    if IsPrefix(needle, hay) {
      assert OccursAt(hay, needle, 0);
    } else if hay != [] {
      ContainsIff(hay[1..], needle);
      if Contains(hay[1..], needle) {
        var i :| OccursAt(hay[1..], needle, i);
        assert hay[i + 1..i + 1 + |needle|] == hay[1..][i..i + |needle|];
        assert OccursAt(hay, needle, i + 1);
      }
      if exists i :: OccursAt(hay, needle, i) {
        var i :| OccursAt(hay, needle, i);
        assert i != 0;
        assert hay[1..][i - 1..i - 1 + |needle|] == hay[i..i + |needle|];
        assert OccursAt(hay[1..], needle, i - 1);
      }
    }
  }

  /** An optional field matches when it is present and contains the query,
      both lowered. */
  predicate FieldMatches(field: Option<string>, query: string)
  {
    field.Some? && Contains(LowerStr(field.value), LowerStr(query))
  }

  /** The search condition: subject, snippet, sender name or sender address. */
  predicate Matches(e: Email, query: string)
  {
    || FieldMatches(e.subject, query)
    || FieldMatches(e.snippet, query)
    || (e.from.Some? && (FieldMatches(e.from.value.name, query) || FieldMatches(Some(e.from.value.email), query)))
  }

  lemma LowerStrIdempotent(s: string)
    ensures LowerStr(LowerStr(s)) == LowerStr(s)
  {
  }

  /** The case of the query does not matter. */
  lemma MatchesIgnoresCase(e: Email, query: string)
    ensures Matches(e, query) == Matches(e, LowerStr(query))
  {
    LowerStrIdempotent(query);
  }

  /** The emails of a tab. */
  function TabList(emails: seq<Email>, t: Tab): seq<Email>
  {
    match t
    case AllTab => emails
    case UnreadTab => Unread(emails)
    case ImportantTab => Important(emails)
  }

  predicate InTab(e: Email, t: Tab)
  {
    match t
    case AllTab => true
    case UnreadTab => !e.read
    case ImportantTab => e.important
  }

  function MatchesQuery(query: string): Email -> bool
  {
    (e: Email) => Matches(e, query)
  }

  /** `filteredEmails`: the tab's emails, narrowed by the search when it is not empty. */
  function FilteredEmails(emails: seq<Email>, t: Tab, query: string): seq<Email>
  {
    if query == "" then TabList(emails, t) else Filter(TabList(emails, t), MatchesQuery(query))
  }

  /** With no query the tab's list is shown as it is. */
  lemma EmptyQueryShowsTab(emails: seq<Email>, t: Tab)
    ensures FilteredEmails(emails, t, "") == TabList(emails, t)
  {
  }

  /** The emails shown are, in their original order, exactly those of the tab
      that match the query (every one of the tab's when the query is empty). */
  lemma FilteredExact(emails: seq<Email>, t: Tab, query: string, e: Email)
    ensures var shown := FilteredEmails(emails, t, query);
      && IsSubsequence(shown, TabList(emails, t))
      && IsSubsequence(shown, emails)
      && (e in shown <==> e in emails && InTab(e, t) && (query == "" || Matches(e, query)))
      && multiset(shown)[e] ==
           if InTab(e, t) && (query == "" || Matches(e, query)) then multiset(emails)[e] else 0
  {
    ViewsExact(emails, e);
    var list := TabList(emails, t);
    if query != "" {
      FilterCount(list, MatchesQuery(query), e);
    }
    if t == AllTab {
      SubsequenceRefl(emails);
    }
    if query == "" {
      SubsequenceRefl(list);
    } else {
      SubsequenceTrans(FilteredEmails(emails, t, query), list, emails);
    }
  }

  // ---- selection ----

  /** `toggleEmailSelection`: a selected id is removed (every copy), another is
      appended. */
  function Toggle(selected: seq<string>, id: string): seq<string>
  {
    if id in selected then Filter(selected, (s: string) => s != id) else selected + [id]
  }

  /** Toggling flips the membership of `id` and no other. */
  lemma ToggleMembership(selected: seq<string>, id: string, x: string)
    ensures x in Toggle(selected, id) <==> if x == id then id !in selected else x in selected
  {
  }

  /** Toggling twice restores every membership; when the id was not selected it
      restores the selection exactly. */
  lemma ToggleTwice(selected: seq<string>, id: string, x: string)
    ensures x in Toggle(Toggle(selected, id), id) <==> x in selected
    ensures id !in selected ==> Toggle(Toggle(selected, id), id) == selected
  {
    ToggleMembership(selected, id, x);
    ToggleMembership(Toggle(selected, id), id, x);
    if id !in selected {
      var p := (s: string) => s != id;
      FilterAppend(selected, id, p);
      FilterAll(selected, p);
    }
  }

  function Ids(emails: seq<Email>): seq<string>
  {
    seq(|emails|, k requires 0 <= k < |emails| => emails[k].id)
  }

  /** `handleSelectAll`: clears when the selection has as many entries as there are
      emails shown, otherwise selects the ids of the emails shown. */
  function SelectAll(selected: seq<string>, shown: seq<Email>): seq<string>
  {
    if |selected| == |shown| then [] else Ids(shown)
  }

  /** Select-all empties the selection exactly when its size equals the number of
      emails shown or nothing is shown; otherwise the selection becomes the ids of
      the emails shown, in order, so that a second press clears it. */
  lemma SelectAllSpec(selected: seq<string>, shown: seq<Email>)
    ensures SelectAll(selected, shown) == [] <==> |selected| == |shown| || shown == []
    ensures |selected| != |shown| ==>
      && |SelectAll(selected, shown)| == |shown|
      && (forall k :: 0 <= k < |shown| ==> SelectAll(selected, shown)[k] == shown[k].id)
      && SelectAll(SelectAll(selected, shown), shown) == []
  {
    if |selected| != |shown| && shown != [] {
      assert SelectAll(selected, shown)[0] == shown[0].id;
    }
  }

  // ---- batch actions ----

  datatype Action = MarkReadAction | ImportantAction | ArchiveAction | DeleteAction

  /** One selected id under the action's mail operation. */
  function Apply(emails: seq<Email>, a: Action, id: string): seq<Email>
  {
    match a
    case MarkReadAction => MarkRead(emails, id)
    case ImportantAction => ToggleImportant(emails, id)
    case ArchiveAction => Without(emails, id)
    case DeleteAction => Without(emails, id)
  }

  /** The action applied for each id in turn, each on the result of the last. */
  function ApplyAll(emails: seq<Email>, a: Action, ids: seq<string>): seq<Email>
    decreases |ids|
  {
    if ids == [] then emails
    else Apply(ApplyAll(emails, a, ids[..|ids| - 1]), a, ids[|ids| - 1])
  }

  /** Batch marking read marks exactly the emails whose id is selected. */
  lemma {:induction false} BatchMarkRead(emails: seq<Email>, ids: seq<string>)
    ensures var r := ApplyAll(emails, MarkReadAction, ids);
      && |r| == |emails|
      && forall k :: 0 <= k < |r| ==> r[k] == if emails[k].id in ids then emails[k].(read := true) else emails[k]
  {
    if ids != [] {
      var n := |ids| - 1;
      BatchMarkRead(emails, ids[..n]);
      assert ids == ids[..n] + [ids[n]];
      assert forall x :: x in ids <==> x in ids[..n] || x == ids[n];
    }
  }

  predicate Odd(n: nat)
  {
    n % 2 == 1
  }

  /** Batch toggling flips the important flag of an email once per time its id is
      selected, so an even number of toggles leaves it as it was. */
  lemma {:induction false} BatchToggleImportant(emails: seq<Email>, ids: seq<string>)
    ensures var r := ApplyAll(emails, ImportantAction, ids);
      && |r| == |emails|
      && forall k :: 0 <= k < |r| ==>
        r[k] == emails[k].(important := emails[k].important != Odd(multiset(ids)[emails[k].id]))
  {
    if ids != [] {
      var n := |ids| - 1;
      BatchToggleImportant(emails, ids[..n]);
      assert ids == ids[..n] + [ids[n]];
      var prev := ApplyAll(emails, ImportantAction, ids[..n]);
      var r := ToggleImportant(prev, ids[n]);
      forall k | 0 <= k < |r|
        ensures r[k] == emails[k].(important := emails[k].important != Odd(multiset(ids)[emails[k].id]))
      {
        var c := multiset(ids[..n])[emails[k].id];
        assert multiset(ids)[emails[k].id] == c + (if emails[k].id == ids[n] then 1 else 0);
        assert Odd(c + 1) == !Odd(c);
      }
    }
  }

  function HasNoneOf(ids: seq<string>): Email -> bool
  {
    (e: Email) => e.id !in ids
  }

  /** Batch archiving or deleting keeps, in order, exactly the emails whose id is
      not selected. */
  lemma {:induction false} BatchRemove(emails: seq<Email>, a: Action, ids: seq<string>)
    requires a == ArchiveAction || a == DeleteAction
    ensures ApplyAll(emails, a, ids) == Filter(emails, HasNoneOf(ids))
  {
    if ids == [] {
      FilterAll(emails, HasNoneOf(ids));
    } else {
      var n := |ids| - 1;
      BatchRemove(emails, a, ids[..n]);
      assert ids == ids[..n] + [ids[n]];
      FilterFilter(emails, HasNoneOf(ids[..n]), HasOtherId(ids[n]), HasNoneOf(ids));
    }
  }

  // ---- the page ----

  /** The page's state; `mail` is the mail hook it draws on. */
  class EmailListView {
    const mail: Mailbox
    var activeTab: Tab
    var searchQuery: string
    var selected: seq<string>
    var params: map<string, string>

    /** The first render: all emails, no query, nothing selected. */
    constructor (mail: Mailbox, params: map<string, string>)
      ensures this.mail == mail && this.params == params
      ensures activeTab == AllTab && searchQuery == "" && selected == []
    {
      this.mail := mail;
      this.params := params;
      activeTab := AllTab;
      searchQuery := "";
      selected := [];
    }

    /** The emails on screen. */
    function Shown(): seq<Email>
      reads this, mail
    {
      FilteredEmails(mail.emails, activeTab, searchQuery)
    }

    /** The effect on a change of the URL parameters. */
    method SyncTabFromUrl()
      modifies this
      ensures activeTab == TabOfFilter(Lookup(params, FilterKey))
      ensures params == old(params) && searchQuery == old(searchQuery) && selected == old(selected)
    {
      activeTab := TabOfFilter(Lookup(params, FilterKey));
    }

    /** `handleTabChange`; the URL effect that follows keeps the chosen tab
        (`TabRoundTrip`). */
    method HandleTabChange(t: Tab)
      modifies this
      ensures activeTab == t && params == WithTab(old(params), t)
      ensures TabOfFilter(Lookup(params, FilterKey)) == t
      ensures searchQuery == old(searchQuery) && selected == old(selected)
    {
      activeTab := t;
      params := WithTab(params, t);
      TabRoundTrip(old(params), t, FilterKey);
    }

    /** Typing in, or clearing, the search box. */
    method SetSearchQuery(query: string)
      modifies this
      ensures searchQuery == query
      ensures activeTab == old(activeTab) && params == old(params) && selected == old(selected)
    {
      searchQuery := query;
    }

    method ToggleEmailSelection(id: string)
      modifies this
      ensures selected == Toggle(old(selected), id)
      ensures activeTab == old(activeTab) && params == old(params) && searchQuery == old(searchQuery)
    {
      if id in selected {
        selected := Filter(selected, (s: string) => s != id);
      } else {
        selected := selected + [id];
      }
    }

    method HandleSelectAll()
      modifies this
      ensures selected == SelectAll(old(selected), old(Shown()))
      ensures activeTab == old(activeTab) && params == old(params) && searchQuery == old(searchQuery)
    {
      var shown := Shown();
      if |selected| == |shown| {
        selected := [];
      } else {
        selected := Ids(shown);
      }
    }

    /** The menu's "clear selection". */
    method ClearSelection()
      modifies this
      ensures selected == []
      ensures activeTab == old(activeTab) && params == old(params) && searchQuery == old(searchQuery)
    {
      selected := [];
    }

    /** `handleBatchAction`: nothing at all on an empty selection; otherwise the
        action for every selected id in order, then the selection is emptied. */
    method HandleBatchAction(a: Action)
      modifies this, mail
      ensures old(selected) == [] ==> mail.emails == old(mail.emails) && selected == []
      ensures mail.emails == ApplyAll(old(mail.emails), a, old(selected)) && selected == []
      ensures mail.isLoading == old(mail.isLoading)
      ensures activeTab == old(activeTab) && params == old(params) && searchQuery == old(searchQuery)
    {
      if |selected| == 0 {
        return;
      }
      var i := 0;
      while i < |selected|
        invariant 0 <= i <= |selected|
        invariant selected == old(selected) && activeTab == old(activeTab)
        invariant params == old(params) && searchQuery == old(searchQuery)
        invariant mail.emails == ApplyAll(old(mail.emails), a, selected[..i])
        invariant mail.isLoading == old(mail.isLoading)
      {
        var id := selected[i];
        match a {
          case MarkReadAction => mail.MarkAsRead(id);
          case ImportantAction => mail.MarkAsImportant(id);
          case ArchiveAction => mail.ArchiveEmail(id);
          case DeleteAction => mail.DeleteEmail(id);
        }
        assert selected[..i + 1][..i] == selected[..i];
        i := i + 1;
      }
      assert selected[..i] == selected;
      selected := [];
    }
  }
}
