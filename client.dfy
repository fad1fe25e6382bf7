/** The static browser client of app.js: one mailbox at a time, kept in the
    module-level variables `login`, `domain`, `pollTimer` and `lastIds` and
    in two localStorage items, driven by the Generate and New buttons and by
    an interval timer that polls the inbox. The page's elements are reduced
    to what they show: the inbox listing, the status line and the message
    viewer. Every provider round trip is a parameter carrying the
    provider's answer, and each handler runs to completion in one step. */
module Client {
  import opened Wrappers
  import Http
  import Names
  import Otp
  import HtmlEscape
  import opened InboxOrder

  const LoginKey: string := "tm_login"
  const DomainKey: string := "tm_domain"
  const LoginLength: nat := 10
  /** The domains Generate picks from. */
  const Domains: seq<string> := ["1secmail.com", "1secmail.org", "1secmail.net"]

  /** `v || ''` */
  function OrEmpty(v: Option<string>): string {
    if TruthyText(v) then v.value else ""
  }

  // ---------------------------------------------------------------------
  // localStorage

  /** What `loadState` restores: the stored pair, when both items are truthy. */
  function StoredPair(storage: map<string, string>): Option<(string, string)> {
    var l := Lookup(storage, LoginKey);
    var d := Lookup(storage, DomainKey);
    if TruthyText(l) && TruthyText(d) then Some((l.value, d.value)) else None
  }

  /** The storage after `saveState`: both items are written only when both
      `login` and `domain` are set. */
  function SavedStorage(storage: map<string, string>, login: Option<string>, domain: Option<string>): map<string, string> {
    if TruthyText(login) && TruthyText(domain) then storage[LoginKey := login.value][DomainKey := domain.value]
    else storage
  }

  /** The storage after New removes both items. */
  function ForgottenStorage(storage: map<string, string>): map<string, string> {
    storage - {LoginKey, DomainKey}
  }

  /** Saving a mailbox and loading it back gives the same pair, and no other item changes. */
  lemma SaveThenLoad(storage: map<string, string>, login: Option<string>, domain: Option<string>)
    requires TruthyText(login) && TruthyText(domain)
    ensures StoredPair(SavedStorage(storage, login, domain)) == Some((login.value, domain.value))
    ensures forall k :: k in storage && k != LoginKey && k != DomainKey ==>
      k in SavedStorage(storage, login, domain) && SavedStorage(storage, login, domain)[k] == storage[k]
  {
    var s := SavedStorage(storage, login, domain);
    assert Lookup(s, LoginKey) == login && Lookup(s, DomainKey) == domain;
  }

  /** After New nothing is left to load, and no other item changes. */
  lemma ForgetThenLoad(storage: map<string, string>)
    ensures StoredPair(ForgottenStorage(storage)) == None
    ensures forall k :: k in storage && k != LoginKey && k != DomainKey ==>
      k in ForgottenStorage(storage) && ForgottenStorage(storage)[k] == storage[k]
  {
    assert Lookup(ForgottenStorage(storage), LoginKey) == None;
  }

  // ---------------------------------------------------------------------
  // What the page shows and what the provider answers

  /** The status line. */
  datatype Status =
    | Blank
    | Polling                       // 'Polling every 3s...'
    | InboxFetchFailed(code: int)   // 'Inbox fetch failed: <status>'
    | InboxError                    // 'Network error while fetching inbox'
    | MessageFetchFailed(code: int) // 'Message fetch failed: <status>'
    | MessageError                  // 'Error reading message'
    | MessageDeleted
    | DeleteFailed
    | DeleteError                   // 'Network delete error'

  /** The provider's answer to `getMessages`: no response, a non-2xx
      status, a body that is not JSON, JSON that is not an array, or the list. */
  datatype InboxReply =
    | InboxUnreachable
    | InboxNotOk(code: int)
    | InboxNotJson
    | NotAList
    | Listing(messages: seq<Summary>)

  /** The provider's answer to `readMessage`. */
  datatype MessageReply =
    | MessageUnreachable
    | MessageNotOk(code: int)
    | MessageNotJson
    | Message(from: Option<string>, subject: Option<string>, textBody: Option<string>, htmlBody: Option<string>)

  /** The provider's answer to `deleteMessage`. */
  datatype DeleteReply = DeleteUnreachable | DeleteAnswered(code: int)

  /** The message viewer: sender, subject and the code shown ('-' when none). */
  datatype Viewer = Viewer(from: string, subject: string, otp: string)

  /** One row of the inbox list: the sender and subject, HTML-escaped. */
  datatype Row = Row(id: int, from: string, subject: string)

  /** The row of one message. The escaped fields hold no character that
      could open a tag or close an attribute value, and the browser's
      decoding of them gives back the sender and subject (absent ones as ""). */
  function RowOf(m: Summary): (r: Row)
    ensures r.id == m.id
    ensures forall i :: 0 <= i < |r.from| ==> r.from[i] != '<' && r.from[i] != '>' && r.from[i] != '"' && r.from[i] != '\''
    ensures forall i :: 0 <= i < |r.subject| ==> r.subject[i] != '<' && r.subject[i] != '>' && r.subject[i] != '"' && r.subject[i] != '\''
    ensures HtmlEscape.Unescape(r.from) == m.from.GetOr("")
    ensures HtmlEscape.Unescape(r.subject) == m.subject.GetOr("")
  {
    HtmlEscape.UnescapeEscapeText(m.from.GetOr(""));
    HtmlEscape.UnescapeEscapeText(m.subject.GetOr(""));
    Row(m.id, HtmlEscape.EscapeHtml(m.from), HtmlEscape.EscapeHtml(m.subject))
  }

  /** The effect of one inbox answer on the listing and the status line: a
      failure leaves the listing and reports; a non-list or an empty list
      shows "No messages." (the empty listing); a list is shown newest first. */
  ghost predicate PollApplied(m0: seq<Summary>, s0: Status, reply: InboxReply, m1: seq<Summary>, s1: Status) {
    match reply
    case InboxUnreachable => m1 == m0 && s1 == InboxError
    case InboxNotJson => m1 == m0 && s1 == InboxError
    case InboxNotOk(code) => m1 == m0 && s1 == InboxFetchFailed(code)
    case NotAList => m1 == [] && s1 == s0
    case Listing(ms) => s1 == s0 && NewestFirst(m1) && multiset(m1) == multiset(ms)
  }

  /** The viewer's code for a text: the text's first code, or '-' when it has none. */
  ghost predicate OtpShown(text: string, shown: string) {
    (Otp.NoOtp(text) ==> shown == "-") && (!Otp.NoOtp(text) ==> Otp.IsFirstOtp(text, shown))
  }

  // ---------------------------------------------------------------------
  // The client

  class Client {
    var login: Option<string>
    var domain: Option<string>
    /** The handle of the last interval created; New clears the interval
        but leaves the handle in place. */
    var pollTimer: Option<nat>
    /** The browser's live intervals. */
    var timers: set<nat>
    /** The handle the next `setInterval` returns (handles are positive). */
    var nextHandle: nat
    var lastIds: set<int>
    var storage: map<string, string>
    /** The messages the inbox list shows, in order; empty shows "No messages." */
    var listing: seq<Summary>
    var status: Status
    var viewer: Option<Viewer>
    /** The number of provider requests made so far. */
    ghost var requests: nat

    /** At most one live interval, the one `pollTimer` names, and only
        while there is a mailbox. */
    ghost predicate Valid()
      reads this
    {
      && 0 < nextHandle
      && (pollTimer.Some? ==> 0 < pollTimer.value < nextHandle)
      && (timers == {} || (pollTimer.Some? && timers == {pollTimer.value}))
      && (timers != {} ==> HasMailbox())
    }

    /** `login && domain` */
    predicate HasMailbox()
      reads this
    {
      TruthyText(login) && TruthyText(domain)
    }

    /** A new interval replaced whatever was live. */
    twostate predicate TimerRestarted()
      reads this
    {
      pollTimer == Some(old(nextHandle)) && timers == {old(nextHandle)} && nextHandle == old(nextHandle) + 1
    }

    /** Page load: the variables start empty and `loadState()` runs. */
    constructor (stored: map<string, string>, firstPoll: InboxReply)
      ensures Valid() && storage == stored && lastIds == {} && viewer == None
      ensures StoredPair(stored).None? ==>
        login == None && domain == None && timers == {} && listing == [] && status == Blank && requests == 0
      ensures StoredPair(stored).Some? ==>
        && login == Some(StoredPair(stored).value.0) && domain == Some(StoredPair(stored).value.1)
        && pollTimer == Some(1) && timers == {1} && requests == 1
        && PollApplied([], Blank, firstPoll, listing, status)
    {
      login, domain := None, None;
      pollTimer, timers, nextHandle := None, {}, 1;
      lastIds, storage := {}, stored;
      listing, status, viewer := [], Blank, None;
      requests := 0;
      new;
      LoadState(firstPoll);
    }

    /** `saveState()` */
    method SaveState()
      modifies this`storage
      ensures storage == SavedStorage(old(storage), login, domain)
    {
      if HasMailbox() {
        storage := storage[LoginKey := login.value][DomainKey := domain.value];
      }
    }

    /** `loadState()`: restores the pair only when both items are truthy,
        and then starts polling. */
    method LoadState(poll: InboxReply)
      requires Valid()
      modifies this
      ensures Valid()
      ensures StoredPair(old(storage)).None? ==> unchanged(this)
      ensures StoredPair(old(storage)).Some? ==>
        && login == Some(StoredPair(old(storage)).value.0) && domain == Some(StoredPair(old(storage)).value.1)
        && storage == old(storage) && lastIds == old(lastIds) && viewer == old(viewer)
        && TimerRestarted() && requests == old(requests) + 1
        && PollApplied(old(listing), old(status), poll, listing, status)
    {
      var l := Lookup(storage, LoginKey);
      var d := Lookup(storage, DomainKey);
      if TruthyText(l) && TruthyText(d) {
        login, domain := l, d;
        StartPolling(poll);
      }
    }

    /** The Generate button: a fresh 10-character login, one of the three
        domains, an empty `lastIds`, the pair saved, polling started. */
    method Generate(draws: seq<nat>, pick: nat, poll: InboxReply)
      requires Valid()
      requires LoginLength <= |draws| && Names.ValidDraws(draws) && pick < |Domains|
      modifies this
      ensures Valid() && HasMailbox()
      ensures login == Some(Names.Spell(draws[..LoginLength])) && domain == Some(Domains[pick])
      ensures |login.value| == LoginLength && Names.InAlphabet(login.value)
      ensures lastIds == {} && viewer == old(viewer)
      ensures storage == SavedStorage(old(storage), login, domain)
      ensures StoredPair(storage) == Some((login.value, domain.value))
      ensures TimerRestarted() && requests == old(requests) + 1
      ensures PollApplied(old(listing), Polling, poll, listing, status)
    {
      var name := Names.RandomString(LoginLength, draws);
      login := Some(name);
      domain := Some(Domains[pick]);
      lastIds := {};
      status := Polling;
      SaveState();
      SaveThenLoad(old(storage), login, domain);
      StartPolling(poll);
    }

    /** The New button: the interval is cleared, the mailbox dropped, both
        items removed, the list reset to "No messages." */
    method Forget()
      requires Valid()
      modifies this
      ensures Valid() && !HasMailbox() && login == None && domain == None
      ensures timers == {} && pollTimer == old(pollTimer) && nextHandle == old(nextHandle)
      ensures storage == ForgottenStorage(old(storage)) && StoredPair(storage) == None
      ensures listing == [] && status == Blank
      ensures lastIds == old(lastIds) && viewer == old(viewer) && requests == old(requests)
    {
      if pollTimer.Some? {
        timers := timers - {pollTimer.value};
      }
      login, domain := None, None;
      storage := storage - {LoginKey, DomainKey};
      ForgetThenLoad(old(storage));
      listing, status := [], Blank;
    }

    /** `startPolling()`: nothing without a mailbox; otherwise the live
        interval is cleared before a new one is created, and the inbox is
        fetched at once. */
    method StartPolling(poll: InboxReply)
      requires Valid()
      modifies this
      ensures Valid()
      ensures !old(HasMailbox()) ==> unchanged(this)
      ensures old(HasMailbox()) ==>
        && TimerRestarted()
        && login == old(login) && domain == old(domain) && storage == old(storage)
        && lastIds == old(lastIds) && viewer == old(viewer)
        && requests == old(requests) + 1
        && PollApplied(old(listing), old(status), poll, listing, status)
    {
      if !HasMailbox() {
        return;
      }
      if pollTimer.Some? {
        timers := timers - {pollTimer.value};
      }
      pollTimer := Some(nextHandle);
      timers := timers + {nextHandle};
      nextHandle := nextHandle + 1;
      FetchInbox(poll);
    }

    /** The interval firing: only a live interval runs `fetchInbox`. */
    method Tick(handle: nat, reply: InboxReply)
      requires Valid()
      modifies this`listing, this`status, this`requests
      ensures Valid()
      ensures handle !in old(timers) ==> unchanged(this)
      ensures handle in old(timers) ==>
        requests == old(requests) + 1 && PollApplied(old(listing), old(status), reply, listing, status)
    {
      if handle in timers {
        FetchInbox(reply);
      }
    }

    /** `fetchInbox()`: nothing without a mailbox; otherwise one request,
        and the listing is replaced as the answer says, sorted newest first. */
    method FetchInbox(reply: InboxReply)
      requires Valid()
      modifies this`listing, this`status, this`requests
      ensures Valid()
      ensures !old(HasMailbox()) ==> unchanged(this)
      ensures old(HasMailbox()) ==>
        requests == old(requests) + 1 && PollApplied(old(listing), old(status), reply, listing, status)
    {
      if !HasMailbox() {
        return;
      }
      requests := requests + 1;
      match reply
      case InboxUnreachable =>
        status := InboxError;
      case InboxNotOk(code) =>
        status := InboxFetchFailed(code);
      case InboxNotJson =>
        status := InboxError;
      case NotAList =>
        listing := [];
      case Listing(ms) =>
        if |ms| == 0 {
          listing := [];
        } else {
          listing := SortNewestFirst(ms);
        }
    }

    /** `openMessage(id)`: nothing without a mailbox; otherwise one request,
        and on success the viewer shows sender, subject and the first code
        of the text body followed by the HTML body. */
    method OpenMessage(id: int, reply: MessageReply)
      requires Valid()
      modifies this`viewer, this`status, this`requests
      ensures Valid()
      ensures !old(HasMailbox()) ==> unchanged(this)
      ensures old(HasMailbox()) ==> requests == old(requests) + 1
      ensures old(HasMailbox()) && reply.Message? ==>
        && status == old(status) && viewer.Some?
        && viewer.value.from == OrEmpty(reply.from) && viewer.value.subject == OrEmpty(reply.subject)
        && OtpShown(OrEmpty(reply.textBody) + " " + OrEmpty(reply.htmlBody), viewer.value.otp)
      ensures old(HasMailbox()) && reply.MessageNotOk? ==>
        status == MessageFetchFailed(reply.code) && viewer == old(viewer)
      ensures old(HasMailbox()) && (reply.MessageUnreachable? || reply.MessageNotJson?) ==>
        status == MessageError && viewer == old(viewer)
    {
      if !HasMailbox() {
        return;
      }
      requests := requests + 1;
      match reply
      case MessageUnreachable =>
        status := MessageError;
      case MessageNotOk(code) =>
        status := MessageFetchFailed(code);
      case MessageNotJson =>
        status := MessageError;
      case Message(from, subject, textBody, htmlBody) =>
        var text := OrEmpty(textBody) + " " + OrEmpty(htmlBody);
        var otp := Otp.ExtractOtp(Some(text));
        viewer := Some(Viewer(OrEmpty(from), OrEmpty(subject), otp.GetOr("-")));
    }

    /** `deleteMessage(id)`: nothing without a mailbox; otherwise one
        request, and after a successful delete the inbox is fetched again. */
    method DeleteMessage(id: int, reply: DeleteReply, refresh: InboxReply)
      requires Valid()
      modifies this`listing, this`status, this`requests
      ensures Valid()
      ensures !old(HasMailbox()) ==> unchanged(this)
      ensures old(HasMailbox()) && reply.DeleteAnswered? && Http.IsOk(reply.code) ==>
        requests == old(requests) + 2 && PollApplied(old(listing), MessageDeleted, refresh, listing, status)
      ensures old(HasMailbox()) && reply.DeleteAnswered? && !Http.IsOk(reply.code) ==>
        requests == old(requests) + 1 && listing == old(listing) && status == DeleteFailed
      ensures old(HasMailbox()) && reply.DeleteUnreachable? ==>
        requests == old(requests) + 1 && listing == old(listing) && status == DeleteError
    {
      if !HasMailbox() {
        return;
      }
      requests := requests + 1;
      match reply
      case DeleteUnreachable =>
        status := DeleteError;
      case DeleteAnswered(code) =>
        if Http.IsOk(code) {
          status := MessageDeleted;
          FetchInbox(refresh);
        } else {
          status := DeleteFailed;
        }
    }
  }

  /** At most one poll interval is ever live. */
  lemma AtMostOneTimer(c: Client)
    requires c.Valid()
    ensures |c.timers| <= 1
  {
    if c.timers != {} {
      assert c.timers == {c.pollTimer.value};
    }
  }

  /** After New no further provider request is made: polling does not
      restart, no interval fires, and every inbox operation returns at once. */
  method ForgetStopsRequests(c: Client, handle: nat, poll: InboxReply, message: MessageReply, deletion: DeleteReply)
    requires c.Valid()
    modifies c
    ensures c.Valid() && !c.HasMailbox() && c.timers == {}
    ensures c.requests == old(c.requests)
  {
    c.Forget();
    c.StartPolling(poll);
    c.Tick(handle, poll);
    c.FetchInbox(poll);
    c.OpenMessage(0, message);
    c.DeleteMessage(0, deletion, poll);
  }
}
