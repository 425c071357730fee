/** The rendezvous between `/sev open` handlers and the event listener of the Slack bot
    (cmd/slackbot). Each handler runs in a goroutine of its own and there is one listener goroutine;
    what they share is two maps behind a mutex. An interleaving is a sequence of atomic steps. */
module Slack {
  import opened Wrappers

  // ---------- the two shared maps ----------

  /** Incident channels and waiting openers by SEV ID. A missing entry reads as the empty string. */
  datatype Book = Book(channels: map<string, string>, pending: map<string, string>)

  function ChannelOf(b: Book, id: string): string {
    if id in b.channels then b.channels[id] else ""
  }

  function PendingOf(b: Book, id: string): string {
    if id in b.pending then b.pending[id] else ""
  }

  function WithChannel(b: Book, id: string, channel: string): Book {
    b.(channels := b.channels[id := channel])
  }

  function WithOpener(b: Book, id: string, opener: string): Book {
    if ChannelOf(b, id) != "" then b else b.(pending := b.pending[id := opener])
  }

  function WithoutOpener(b: Book, id: string): Book {
    b.(pending := b.pending - {id})
  }

  /** dedupeStrings: empty strings and repeats dropped, first occurrences kept in order. */
  function Deduped(ids: seq<string>): seq<string> {
    if ids == [] then []
    else
      var before, last := Deduped(ids[..|ids| - 1]), ids[|ids| - 1];
      if last == "" || last in before then before else before + [last]
  }

  ghost predicate NoRepeats(s: seq<string>) {
    forall i, j | 0 <= i < j < |s| :: s[i] != s[j]
  }

  lemma {:induction false} DedupedKeepsEveryone(ids: seq<string>)
    ensures forall x :: x in Deduped(ids) <==> x in ids && x != ""
    ensures NoRepeats(Deduped(ids))
  {
    if ids != [] {
      DedupedKeepsEveryone(ids[..|ids| - 1]);
      assert ids == ids[..|ids| - 1] + [ids[|ids| - 1]];
    }
  }

  /** Appending candidates never moves or drops an earlier one. */
  lemma {:induction false} DedupedKeepsOrder(ids: seq<string>, more: seq<string>)
    ensures Deduped(ids) <= Deduped(ids + more)
  {
    if more == [] {
      assert ids + more == ids;
    } else {
      DedupedKeepsOrder(ids, more[..|more| - 1]);
      assert (ids + more)[..|ids + more| - 1] == ids + more[..|more| - 1];
    }
  }

  method DedupeStrings(ids: seq<string>) returns (out: seq<string>)
    ensures out == Deduped(ids)
  {
    var seen: set<string> := {};
    out := [];
    for i := 0 to |ids|
      invariant out == Deduped(ids[..i])
      invariant forall x :: x in seen <==> x in out
    {
      assert ids[..i + 1][..i] == ids[..i];
      if ids[i] != "" && ids[i] !in seen {
        seen := seen + {ids[i]};
        out := out + [ids[i]];
      }
    }
    assert ids[..|ids|] == ids;
  }

  // ---------- the interleavings ----------

  /** A handler that opened a SEV: before its turn at the mutex, after leaving its user for the
      listener, about to invite into an existing channel, or after that invitation. */
  datatype Opener =
    | Created(user: string)
    | Registered(user: string)
    | Inviting(user: string, channel: string)
    | Done(user: string)

  datatype Listener =
    | Idle
    | Creating(id: string)
    | Recording(id: string, channel: string)
    | Resolving(id: string, channel: string)
    | Taking(id: string, channel: string)
    | Calling(id: string, channel: string, users: seq<string>)

  /** An InviteUsers call, made by an opener's handler or by the listener. */
  datatype Call =
    | ByOpener(id: string, channel: string, user: string)
    | ByListener(id: string, channel: string, users: seq<string>)

  /** `created` lists the SEVs a channel was created for and `resolved` what the role holders and the
      creator of a SEV resolved to. */
  datatype State = State(
    book: Book,
    openers: map<string, Opener>,
    listener: Listener,
    created: seq<string>,
    resolved: map<string, seq<string>>,
    calls: seq<Call>)

  const START := State(Book(map[], map[]), map[], Idle, [], map[], [])

  /** CreateSEV answers a handler with a new ID; a sev.created event arrives, possibly again, possibly
      before that answer and possibly for a SEV nobody opened from Slack; Slack creates the channel or
      fails to; and the steps between two turns at the mutex. */
  datatype Action =
    | OpenSev(id: string, user: string)
    | Register(id: string)
    | InviteOpener(id: string)
    | Event(id: string)
    | CreateFails
    | CreateSucceeds(channel: string)
    | RecordChannel
    | Resolve(users: seq<string>)
    | TakeOpener
    | InviteAll

  /** One step. A step that is not enabled changes nothing, so every sequence of actions is an
      interleaving. SEV IDs given by the server are new; user and channel IDs given by Slack are not
      empty. */
  function Step(s: State, a: Action): State {
    match a
    case OpenSev(id, user) =>
      if id in s.openers || user == "" then s else s.(openers := s.openers[id := Created(user)])
    case Register(id) =>
      if id !in s.openers || !s.openers[id].Created? then s
      else
        var user, channel := s.openers[id].user, ChannelOf(s.book, id);
        s.(book := WithOpener(s.book, id, user),
           openers := s.openers[id := if channel != "" then Inviting(user, channel) else Registered(user)])
    case InviteOpener(id) =>
      if id !in s.openers || !s.openers[id].Inviting? then s
      else
        var o := s.openers[id];
        s.(openers := s.openers[id := Done(o.user)], calls := s.calls + [ByOpener(id, o.channel, o.user)])
    case Event(id) =>
      if !s.listener.Idle? || ChannelOf(s.book, id) != "" then s else s.(listener := Creating(id))
    case CreateFails =>
      if s.listener.Creating? then s.(listener := Idle) else s
    case CreateSucceeds(channel) =>
      if !s.listener.Creating? || channel == "" then s
      else s.(listener := Recording(s.listener.id, channel), created := s.created + [s.listener.id])
    case RecordChannel =>
      if !s.listener.Recording? then s
      else
        var id, channel := s.listener.id, s.listener.channel;
        s.(book := WithChannel(s.book, id, channel), listener := Resolving(id, channel))
    case Resolve(users) =>
      if !s.listener.Resolving? then s
      else
        s.(listener := Taking(s.listener.id, s.listener.channel), resolved := s.resolved[s.listener.id := users])
    case TakeOpener =>
      if !s.listener.Taking? then s
      else
        var id := s.listener.id;
        var opener := PendingOf(s.book, id);
        var users := ResolvedFor(s, id) + (if opener != "" then [opener] else []);
        s.(book := WithoutOpener(s.book, id), listener := Calling(id, s.listener.channel, Deduped(users)))
    case InviteAll =>
      if !s.listener.Calling? then s
      else
        var l := s.listener;
        s.(listener := Idle, calls := s.calls + [ByListener(l.id, l.channel, l.users)])
  }

  function ResolvedFor(s: State, id: string): seq<string> {
    if id in s.resolved then s.resolved[id] else []
  }

  /** The state after an interleaving. */
  function Run(actions: seq<Action>): State {
    if actions == [] then START else Step(Run(actions[..|actions| - 1]), actions[|actions| - 1])
  }

  // ---------- the invariant ----------

  function DirectCalls(calls: seq<Call>, id: string): seq<Call> {
    if calls == [] then []
    else
      var before, c := DirectCalls(calls[..|calls| - 1], id), calls[|calls| - 1];
      if c.ByOpener? && c.id == id then before + [c] else before
  }

  function ListenerCalls(calls: seq<Call>, id: string): seq<Call> {
    if calls == [] then []
    else
      var before, c := ListenerCalls(calls[..|calls| - 1], id), calls[|calls| - 1];
      if c.ByListener? && c.id == id then before + [c] else before
  }

  function CreatedCount(created: seq<string>, id: string): nat {
    if created == [] then 0
    else CreatedCount(created[..|created| - 1], id) + (if created[|created| - 1] == id then 1 else 0)
  }

  predicate ListenerAt(s: State, id: string) {
    !s.listener.Idle? && s.listener.id == id
  }

  /** The listener created the channel of a SEV and made its invitation. */
  predicate ListenerFinished(s: State, id: string) {
    id in s.book.channels && !ListenerAt(s, id)
  }

  predicate LeftForListener(s: State, id: string) {
    id in s.openers && s.openers[id].Registered?
  }

  /** Whom the listener invites: everyone who resolved, and the opener if its handler came first. */
  function Invitees(s: State, id: string): seq<string> {
    Deduped(ResolvedFor(s, id) + Waiting(s, id))
  }

  function Waiting(s: State, id: string): seq<string> {
    if LeftForListener(s, id) then [s.openers[id].user] else []
  }

  /** The channel of a SEV and the listener's place agree. */
  ghost predicate ChannelOk(s: State, id: string) {
    && (id in s.book.channels ==> s.book.channels[id] != "")
    && CreatedCount(s.created, id)
       == (if id in s.book.channels || (s.listener.Recording? && s.listener.id == id) then 1 else 0)
    && (ListenerAt(s, id) ==>
          if s.listener.Creating? then id !in s.book.channels
          else if s.listener.Recording? then id !in s.book.channels && s.listener.channel != ""
          else id in s.book.channels && s.book.channels[id] == s.listener.channel)
  }

  /** An opener waits in the map exactly while it was left for the listener and not yet taken. */
  ghost predicate PendingOk(s: State, id: string) {
    && (id in s.book.pending <==>
          LeftForListener(s, id) && !ListenerFinished(s, id) && !(ListenerAt(s, id) && s.listener.Calling?))
    && (id in s.book.pending ==> LeftForListener(s, id) && s.book.pending[id] == s.openers[id].user)
    && (id in s.openers ==> s.openers[id].user != "")
    && (id in s.openers && s.openers[id].Inviting? ==>
          id in s.book.channels && s.openers[id].channel == s.book.channels[id])
    && (id in s.openers && s.openers[id].Done? ==> id in s.book.channels)
  }

  /** The calls an opener's own handler made are determined by how far it got. */
  ghost predicate DirectOk(s: State, id: string) {
    DirectCalls(s.calls, id)
    == if DoneOpener(s, id).Some? then [ByOpener(id, ChannelOf(s.book, id), DoneOpener(s, id).value)] else []
  }

  function DoneOpener(s: State, id: string): Option<string> {
    if id in s.openers && s.openers[id].Done? then Some(s.openers[id].user) else None
  }

  /** The calls of the listener, and the one it is about to make, are determined by where the two sides
      are. */
  ghost predicate ListenerOk(s: State, id: string) {
    && ListenerCalls(s.calls, id)
       == (if ListenerFinished(s, id) then [ByListener(id, ChannelOf(s.book, id), Invitees(s, id))] else [])
    && (ListenerAt(s, id) && s.listener.Calling? ==> s.listener.users == Invitees(s, id))
  }

  ghost predicate SevOk(s: State, id: string) {
    ChannelOk(s, id) && PendingOk(s, id) && DirectOk(s, id) && ListenerOk(s, id)
  }

  lemma AppendCall(calls: seq<Call>, c: Call, id: string)
    ensures DirectCalls(calls + [c], id) == DirectCalls(calls, id) + (if c.ByOpener? && c.id == id then [c] else [])
    ensures ListenerCalls(calls + [c], id) == ListenerCalls(calls, id) + (if c.ByListener? && c.id == id then [c] else [])
  {
    assert (calls + [c])[..|calls|] == calls;
  }

  lemma AppendCreated(created: seq<string>, x: string, id: string)
    ensures CreatedCount(created + [x], id) == CreatedCount(created, id) + (if x == id then 1 else 0)
  {
    assert (created + [x])[..|created|] == created;
  }

  lemma StepKeepsChannelOk(s: State, a: Action, id: string)
    requires ChannelOk(s, id)
    ensures ChannelOk(Step(s, a), id)
  {
    if a.CreateSucceeds? && s.listener.Creating? {
      AppendCreated(s.created, s.listener.id, id);
    }
  }

  lemma StepKeepsPendingOk(s: State, a: Action, id: string)
    requires ChannelOk(s, id) && PendingOk(s, id)
    ensures PendingOk(Step(s, a), id)
  {
  }

  /** Only two steps make a call. */
  lemma CallsAfter(s: State, a: Action, id: string)
    ensures var t := Step(s, a);
      && DirectCalls(t.calls, id)
         == (if a.InviteOpener? && a.id == id && id in s.openers && s.openers[id].Inviting?
             then DirectCalls(s.calls, id) + [ByOpener(id, s.openers[id].channel, s.openers[id].user)]
             else DirectCalls(s.calls, id))
      && ListenerCalls(t.calls, id)
         == (if a.InviteAll? && s.listener.Calling? && s.listener.id == id
             then ListenerCalls(s.calls, id) + [ByListener(id, s.listener.channel, s.listener.users)]
             else ListenerCalls(s.calls, id))
  {
    if a.InviteOpener? && a.id in s.openers && s.openers[a.id].Inviting? {
      AppendCall(s.calls, ByOpener(a.id, s.openers[a.id].channel, s.openers[a.id].user), id);
    } else if a.InviteAll? && s.listener.Calling? {
      AppendCall(s.calls, ByListener(s.listener.id, s.listener.channel, s.listener.users), id);
    }
  }

  lemma DoneOpenerAfter(s: State, a: Action, id: string)
    ensures DoneOpener(Step(s, a), id)
         == if a == InviteOpener(id) && id in s.openers && s.openers[id].Inviting? then Some(s.openers[id].user)
            else DoneOpener(s, id)
  {
  }

  lemma ChannelAfter(s: State, a: Action, id: string)
    requires ChannelOk(s, id) && id in s.book.channels
    ensures ChannelOf(Step(s, a).book, id) == ChannelOf(s.book, id)
  {
  }

  lemma StepKeepsDirectOk(s: State, a: Action, id: string)
    requires ChannelOk(s, id) && PendingOk(s, id) && DirectOk(s, id)
    ensures DirectOk(Step(s, a), id)
  {
    CallsAfter(s, a, id);
    DoneOpenerAfter(s, a, id);
    if id in s.book.channels {
      ChannelAfter(s, a, id);
    }
  }

  lemma ResolvedAfter(s: State, a: Action, id: string)
    ensures ResolvedFor(Step(s, a), id)
         == if a.Resolve? && s.listener.Resolving? && s.listener.id == id then a.users else ResolvedFor(s, id)
  {
  }

  lemma WaitingAfter(s: State, a: Action, id: string)
    ensures !(a.Register? && a.id == id && ChannelOf(s.book, id) == "") ==> Waiting(Step(s, a), id) == Waiting(s, id)
  {
  }

  /** Whom the listener is to call changes only while the listener resolves, or by an opener who
      registers; and that finds no channel, so the listener has not called yet. */
  lemma InviteesAfter(s: State, a: Action, id: string)
    ensures !(a.Resolve? && s.listener.Resolving? && s.listener.id == id)
         && !(a.Register? && a.id == id && ChannelOf(s.book, id) == "")
         ==> Invitees(Step(s, a), id) == Invitees(s, id)
  {
    ResolvedAfter(s, a, id);
    WaitingAfter(s, a, id);
  }

  lemma StepKeepsListenerOk(s: State, a: Action, id: string)
    requires ChannelOk(s, id) && PendingOk(s, id) && ListenerOk(s, id)
    ensures ListenerOk(Step(s, a), id)
  {
    CallsAfter(s, a, id);
    InviteesAfter(s, a, id);
  }

  /** Every step keeps every SEV in order, its own and the others, so every interleaving does. */
  lemma {:induction false} RunsKeepSevOk(actions: seq<Action>, id: string)
    ensures SevOk(Run(actions), id)
  {
    if actions != [] {
      var s, a := Run(actions[..|actions| - 1]), actions[|actions| - 1];
      RunsKeepSevOk(actions[..|actions| - 1], id);
      StepKeepsChannelOk(s, a, id);
      StepKeepsPendingOk(s, a, id);
      StepKeepsDirectOk(s, a, id);
      StepKeepsListenerOk(s, a, id);
    }
  }

  // ---------- what every interleaving guarantees ----------

  /** How many calls invite a user on account of a SEV. */
  function Invitations(calls: seq<Call>, id: string, user: string): nat {
    if calls == [] then 0
    else
      var c := calls[|calls| - 1];
      Invitations(calls[..|calls| - 1], id, user)
      + (if c.id == id && Invites(c, user) then 1 else 0)
  }

  lemma AppendInvitation(calls: seq<Call>, c: Call, id: string, user: string)
    ensures Invitations(calls + [c], id, user) == Invitations(calls, id, user) + (if c.id == id && Invites(c, user) then 1 else 0)
  {
    assert (calls + [c])[..|calls|] == calls;
  }

  lemma {:induction false} InvitationsSplit(calls: seq<Call>, id: string, user: string)
    ensures Invitations(calls, id, user)
         == Invitations(DirectCalls(calls, id), id, user) + Invitations(ListenerCalls(calls, id), id, user)
  {
    if calls != [] {
      var init, c := calls[..|calls| - 1], calls[|calls| - 1];
      InvitationsSplit(init, id, user);
      AppendInvitation(DirectCalls(init, id), c, id, user);
      AppendInvitation(ListenerCalls(init, id), c, id, user);
    }
  }

  /** Both sides are done with a SEV: the listener is not at work on it and the opener's handler returned. */
  predicate BothFinished(s: State, id: string) {
    !ListenerAt(s, id) && id in s.openers && (s.openers[id].Registered? || s.openers[id].Done?)
  }

  /** In every interleaving in which a SEV's channel was created and both sides finished, its opener
      was invited, into that channel, and is not left waiting: once, or twice when its own handler
      invited it and it also is one of the SEV's role holders or its creator. */
  lemma OpenerIsInvited(actions: seq<Action>, id: string)
    requires BothFinished(Run(actions), id) && id in Run(actions).created
    ensures var s := Run(actions);
      && id !in s.book.pending
      && Invitations(s.calls, id, s.openers[id].user)
         == (if s.openers[id].Done? && s.openers[id].user in ResolvedFor(s, id) then 2 else 1)
  {
    var s := Run(actions);
    RunsKeepSevOk(actions, id);
    CreatedCounts(s.created, id);
    var user := s.openers[id].user;
    InvitationsSplit(s.calls, id, user);
    InviteesOf(s, id, user);
    OneInvitation(ByListener(id, ChannelOf(s.book, id), Invitees(s, id)), user);
    OneInvitation(ByOpener(id, ChannelOf(s.book, id), user), user);
  }

  predicate Invites(c: Call, user: string) {
    if c.ByOpener? then c.user == user else user in c.users
  }

  lemma OneInvitation(c: Call, user: string)
    ensures Invitations([c], c.id, user) == if Invites(c, user) then 1 else 0
  {
    assert [c][..0] == [];
  }

  lemma InviteesOf(s: State, id: string, user: string)
    requires user != ""
    ensures user in Invitees(s, id)
       <==> user in ResolvedFor(s, id) || (LeftForListener(s, id) && s.openers[id].user == user)
  {
    DedupedKeepsEveryone(ResolvedFor(s, id) + Waiting(s, id));
  }

  /** Everybody else too: once the listener is done with a SEV whose channel was created, whoever its role
      holders and creator resolved to is in one invite call and nobody is invited who is neither among them
      nor the opener. */
  lemma OthersAreInvitedExactly(actions: seq<Action>, id: string, user: string)
    ensures var s := Run(actions);
      id in s.created && !ListenerAt(s, id) && user != "" && !OpenedBy(s, id, user) ==>
        Invitations(s.calls, id, user) == if user in ResolvedFor(s, id) then 1 else 0
  {
    var s := Run(actions);
    RunsKeepSevOk(actions, id);
    if id in s.created && !ListenerAt(s, id) && user != "" && !OpenedBy(s, id, user) {
      InvitationsOfOthers(s, id, user);
    }
  }

  predicate OpenedBy(s: State, id: string, user: string) {
    id in s.openers && s.openers[id].user == user
  }

  lemma InvitationsOfOthers(s: State, id: string, user: string)
    requires SevOk(s, id) && id in s.created && !ListenerAt(s, id) && user != "" && !OpenedBy(s, id, user)
    ensures Invitations(s.calls, id, user) == if user in ResolvedFor(s, id) then 1 else 0
  {
    CreatedCounts(s.created, id);
    InvitationsSplit(s.calls, id, user);
    InviteesOf(s, id, user);
    OneInvitation(ByListener(id, ChannelOf(s.book, id), Invitees(s, id)), user);
    if DoneOpener(s, id).Some? {
      OneInvitation(ByOpener(id, ChannelOf(s.book, id), DoneOpener(s, id).value), user);
    }
  }

  /** Exactly once, then, exactly when the handler did not invite an opener the listener also found. */
  lemma ExactlyOnceUnlessAlsoResolved(actions: seq<Action>, id: string)
    requires BothFinished(Run(actions), id) && id in Run(actions).created
    ensures var s := Run(actions);
      Invitations(s.calls, id, s.openers[id].user) == 1
      <==> !(s.openers[id].Done? && s.openers[id].user in ResolvedFor(s, id))
  {
    OpenerIsInvited(actions, id);
  }

  lemma {:induction false} CreatedCounts(created: seq<string>, id: string)
    ensures CreatedCount(created, id) > 0 <==> id in created
  {
    if created != [] {
      CreatedCounts(created[..|created| - 1], id);
      assert created == created[..|created| - 1] + [created[|created| - 1]];
    }
  }

  /** A channel is created at most once per SEV, however often its event arrives. */
  lemma ChannelCreatedAtMostOnce(actions: seq<Action>, id: string)
    ensures CreatedCount(Run(actions).created, id) <= 1
  {
    RunsKeepSevOk(actions, id);
  }

  /** Once a SEV has its channel, another sev.created event for it changes nothing. */
  lemma RepeatedEventChangesNothing(actions: seq<Action>, id: string)
    requires id in Run(actions).created
    ensures Run(actions + [Event(id)]) == Run(actions)
  {
    RunsKeepSevOk(actions, id);
    CreatedCounts(Run(actions).created, id);
    assert (actions + [Event(id)])[..|actions|] == actions;
  }

  /** As long as no channel could be created, an opener who was left for the listener stays on the
      list for the next event. */
  lemma FailedCreationKeepsTheOpener(actions: seq<Action>, id: string)
    requires BothFinished(Run(actions), id) && id !in Run(actions).created
    ensures var s := Run(actions);
      PendingOf(s.book, id) == s.openers[id].user && Invitations(s.calls, id, s.openers[id].user) == 0
  {
    var s := Run(actions);
    RunsKeepSevOk(actions, id);
    CreatedCounts(s.created, id);
    InvitationsSplit(s.calls, id, s.openers[id].user);
  }

  /** Every invitation on account of a SEV is into its one channel. */
  lemma {:induction false} CallsGoToTheChannel(calls: seq<Call>, id: string, c: Call)
    requires c in calls && c.id == id
    ensures c in DirectCalls(calls, id) || c in ListenerCalls(calls, id)
  {
    if c != calls[|calls| - 1] {
      assert c in calls[..|calls| - 1];
      CallsGoToTheChannel(calls[..|calls| - 1], id, c);
    }
  }

  lemma InvitationsAreIntoTheChannel(actions: seq<Action>, c: Call)
    requires c in Run(actions).calls
    ensures c.id in Run(actions).book.channels && c.channel == Run(actions).book.channels[c.id]
  {
    RunsKeepSevOk(actions, c.id);
    CallsGoToTheChannel(Run(actions).calls, c.id, c);
  }

  lemma RunOne(actions: seq<Action>, n: nat)
    requires n < |actions|
    ensures Run(actions[..n + 1]) == Step(Run(actions[..n]), actions[n])
  {
    assert actions[..n + 1][..n] == actions[..n];
  }

  /** The on-call engineer opens a SEV and the event wins the race. */
  const OVERTAKEN: seq<Action> :=
    [OpenSev("SEV-1", "U1"), Event("SEV-1"), CreateSucceeds("C1"), RecordChannel, Register("SEV-1"),
     InviteOpener("SEV-1"), Resolve(["U1"]), TakeOpener, InviteAll]

  lemma ListenerRecordsFirst()
    ensures Run(OVERTAKEN[..4])
         == State(Book(map["SEV-1" := "C1"], map[]), map["SEV-1" := Created("U1")], Resolving("SEV-1", "C1"), ["SEV-1"], map[], [])
  {
    assert OVERTAKEN[..0] == [];
    RunOne(OVERTAKEN, 0);
    RunOne(OVERTAKEN, 1);
    RunOne(OVERTAKEN, 2);
    RunOne(OVERTAKEN, 3);
  }

  lemma HandlerInvitesDirectly()
    ensures Run(OVERTAKEN[..6])
         == State(Book(map["SEV-1" := "C1"], map[]), map["SEV-1" := Done("U1")], Resolving("SEV-1", "C1"), ["SEV-1"],
                  map[], [ByOpener("SEV-1", "C1", "U1")])
  {
    ListenerRecordsFirst();
    RunOne(OVERTAKEN, 4);
    RunOne(OVERTAKEN, 5);
  }

  lemma ListenerResolvesTheHolder()
    ensures Run(OVERTAKEN[..7])
         == State(Book(map["SEV-1" := "C1"], map[]), map["SEV-1" := Done("U1")], Taking("SEV-1", "C1"), ["SEV-1"],
                  map["SEV-1" := ["U1"]], [ByOpener("SEV-1", "C1", "U1")])
  {
    HandlerInvitesDirectly();
    RunOne(OVERTAKEN, 6);
  }

  /** With nobody waiting the listener calls just those who resolved. */
  lemma NobodyWaiting(s: State)
    requires s.listener.Taking? && s.listener.id !in s.book.pending
    ensures var t := Step(s, TakeOpener);
      && t.listener == Calling(s.listener.id, s.listener.channel, Deduped(ResolvedFor(s, s.listener.id)))
      && t == s.(listener := t.listener)
  {
    assert ResolvedFor(s, s.listener.id) + [] == ResolvedFor(s, s.listener.id);
    assert s.book.pending - {s.listener.id} == s.book.pending;
  }

  lemma ListenerFindsTheHolder()
    ensures var s := Run(OVERTAKEN[..8]);
      && s.listener == Calling("SEV-1", "C1", ["U1"])
      && s.openers == map["SEV-1" := Done("U1")]
      && s.created == ["SEV-1"]
      && s.resolved == map["SEV-1" := ["U1"]]
  {
    ListenerResolvesTheHolder();
    RunOne(OVERTAKEN, 7);
    NobodyWaiting(Run(OVERTAKEN[..7]));
    DedupedOne("U1");
  }

  lemma DedupedOne(x: string)
    requires x != ""
    ensures Deduped([x]) == [x]
  {
    assert [x][..0] == [];
  }

  /** The opener is invited by the handler and again by the listener as a role holder. */
  lemma RoleHolderOpenerIsInvitedTwice()
    ensures var s := Run(OVERTAKEN);
      BothFinished(s, "SEV-1") && Invitations(s.calls, "SEV-1", "U1") == 2
  {
    ListenerFindsTheHolder();
    RunOne(OVERTAKEN, 8);
    assert OVERTAKEN[..9] == OVERTAKEN;
    OpenerIsInvited(OVERTAKEN, "SEV-1");
  }

  // ---------- the bot ----------

  class Bot {
    var channels: map<string, string>
    var pendingOpeners: map<string, string>
    var calls: seq<Call>

    function View(): Book
      reads this
    {
      Book(channels, pendingOpeners)
    }

    constructor ()
      ensures View() == START.book && calls == []
    {
      channels := map[];
      pendingOpeners := map[];
      calls := [];
    }

    method ChannelFor(id: string) returns (channel: string)
      ensures channel == ChannelOf(View(), id)
    {
      channel := if id in channels then channels[id] else "";
    }

    method SetChannelFor(id: string, channel: string)
      modifies this`channels
      ensures View() == WithChannel(old(View()), id, channel)
    {
      channels := channels[id := channel];
    }

    /** An existing channel is answered and nothing recorded; otherwise the opener is. */
    method ChannelOrRegisterOpener(id: string, opener: string) returns (channel: string)
      modifies this`pendingOpeners
      ensures channel == ChannelOf(old(View()), id)
      ensures View() == WithOpener(old(View()), id, opener)
    {
      if id in channels && channels[id] != "" {
        return channels[id];
      }
      pendingOpeners := pendingOpeners[id := opener];
      channel := "";
    }

    method TakePendingOpener(id: string) returns (opener: string)
      modifies this`pendingOpeners
      ensures opener == PendingOf(old(View()), id)
      ensures View() == WithoutOpener(old(View()), id)
    {
      opener := if id in pendingOpeners then pendingOpeners[id] else "";
      pendingOpeners := pendingOpeners - {id};
    }

    /** createIncidentChannel, when nothing interferes: its steps in order. `slack` is what Slack
        answered to the creation and `resolved` the users the role holders and creator resolved to. */
    method CreateIncidentChannel(id: string, slack: Result<string>, resolved: seq<string>, ghost s: State)
      requires slack.Ok? ==> slack.value != ""
      requires s.book == View() && s.calls == calls && s.listener == Creating(id)
      modifies this
      ensures var t := if slack.Err? then Step(s, CreateFails) else AfterCreation(s, slack.value, resolved);
        View() == t.book && calls == t.calls && t.listener.Idle?
    {
      if slack.Err? {
        return;
      }
      AfterCreationIs(s, id, slack.value, resolved);
      SetChannelFor(id, slack.value);
      var userIDs := resolved;
      var opener := TakePendingOpener(id);
      if opener != "" {
        userIDs := userIDs + [opener];
      }
      var invitees := DedupeStrings(userIDs);
      calls := calls + [ByListener(id, slack.value, invitees)];
    }

    method HandleSevCreated(id: string, slack: Result<string>, resolved: seq<string>, ghost s: State)
      requires slack.Ok? ==> slack.value != ""
      requires s.book == View() && s.calls == calls && s.listener.Idle?
      modifies this
      ensures var e := Step(s, Event(id));
        var t := if e.listener.Idle? then e else if slack.Err? then Step(e, CreateFails) else AfterCreation(e, slack.value, resolved);
        View() == t.book && calls == t.calls && t.listener.Idle?
    {
      var channel := ChannelFor(id);
      if channel == "" {
        CreateIncidentChannel(id, slack, resolved, Step(s, Event(id)));
      }
    }

    /** The part of handleOpen after CreateSEV answered with a new ID. */
    method InviteOrRegister(id: string, user: string, ghost s: State)
      requires s.book == View() && s.calls == calls && id in s.openers && s.openers[id] == Created(user)
      modifies this
      ensures var t := Step(Step(s, Register(id)), InviteOpener(id));
        View() == t.book && calls == t.calls && (t.openers[id].Registered? || t.openers[id].Done?)
    {
      var channel := ChannelOrRegisterOpener(id, user);
      if channel != "" {
        calls := calls + [ByOpener(id, channel, user)];
      }
    }
  }

  function AfterCreation(s: State, channel: string, resolved: seq<string>): State {
    Step(Step(Step(Step(Step(s, CreateSucceeds(channel)), RecordChannel), Resolve(resolved)), TakeOpener), InviteAll)
  }

  lemma AfterCreationIs(s: State, id: string, channel: string, resolved: seq<string>)
    requires s.listener == Creating(id) && channel != ""
    ensures var t := AfterCreation(s, channel, resolved);
      var opener := PendingOf(s.book, id);
      && t.book == WithoutOpener(WithChannel(s.book, id, channel), id)
      && t.calls == s.calls + [ByListener(id, channel, Deduped(if opener != "" then resolved + [opener] else resolved))]
      && t.listener.Idle?
  {
    var s3 := s.(listener := Taking(id, channel), created := s.created + [id], book := WithChannel(s.book, id, channel),
                 resolved := s.resolved[id := resolved]);
    assert Step(Step(Step(s, CreateSucceeds(channel)), RecordChannel), Resolve(resolved)) == s3;
    assert resolved + [] == resolved;
  }
}
