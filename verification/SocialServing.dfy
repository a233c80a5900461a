/** The contact and conversation services, step by step as they read and write the repositories and publish. */
module SocialServing {
  import opened Common
  import opened SocialTables
  import opened SocialCalls
  import opened SocialStorage
  import DmRace

  class EventSink {
    var log: seq<Event>

    constructor ()
      ensures log == []
    {
      log := [];
    }

    method Publish(event: Event)
      modifies this
      ensures log == old(log) + [event]
    {
      log := log + [event];
    }
  }

  class ContactService {
    const contacts: SocialDatabase
    const events: EventSink

    constructor (contacts: SocialDatabase, events: EventSink)
      ensures this.contacts == contacts && this.events == events
    {
      this.contacts, this.events := contacts, events;
    }

    method PublishPair(first: SteamId, second: SteamId)
      modifies events
      ensures events.log == old(events.log) + PairEvents(contacts.contacts, first, second)
    {
      events.Publish(ContactChanged(first, second, LevelOf(contacts.contacts, first, second)));
      events.Publish(ContactChanged(second, first, LevelOf(contacts.contacts, second, first)));
    }

    method SendRequest(me: SteamId, target: SteamId, now: int, later: int) returns (r: RequestOutcome)
      modifies contacts, events
      ensures var d := SocialCalls.SendRequest(old(contacts.Contents()), me, target, now, later);
              r == d.answer && contacts.Contents() == d.db && events.log == old(events.log) + d.events
    {
      if me == target {
        return SelfRequest;
      }
      if LevelOf(contacts.contacts, me, target) == Some(Imposter) {
        return UnblockFirst;
      }
      if Connected(contacts.contacts, me, target) {
        return AlreadyContacts;
      }
      if |PendingFrom(contacts.requests, me, later)| >= MAX_PENDING_REQUESTS ||
         |CreatedSince(contacts.requests, me, now - RATE_WINDOW_MS)| >= MAX_REQUESTS_PER_DAY
      {
        return RateLimited;
      }
      if LevelOf(contacts.contacts, target, me) == Some(Imposter) {
        return Pending;
      }
      var theirs, ours := Edge(target, me), Edge(me, target);
      if theirs in contacts.requests {
        var request := contacts.requests[theirs];
        var live := request.declinedAt.None? && now - request.createdAt < REQUEST_TTL_MS;
        var accepted := false;
        if live {
          accepted := contacts.Accept(target, me, now);
        }
        if accepted {
          PublishPair(me, target);
          return Accepted;
        }
      }
      if ours in contacts.requests {
        var request := contacts.requests[ours];
        if request.declinedAt.Some? {
          if now - request.declinedAt.value < DECLINE_COOLDOWN_MS {
            return Pending;
          }
        } else if now - request.createdAt < REQUEST_TTL_MS {
          return Pending;
        }
      }
      contacts.PutRequest(me, target, now);
      events.Publish(ContactRequested(target, me, now));
      return Pending;
    }

    method Accept(me: SteamId, sender: SteamId, now: int) returns (accepted: bool)
      modifies contacts, events
      ensures var d := SocialCalls.Accept(old(contacts.Contents()), me, sender, now);
              accepted == d.answer && contacts.Contents() == d.db && events.log == old(events.log) + d.events
    {
      accepted := contacts.Accept(sender, me, now);
      if accepted {
        PublishPair(me, sender);
      }
    }

    method DeclineOrWithdraw(me: SteamId, other: SteamId, now: int)
      modifies contacts
      ensures contacts.Contents() == SocialCalls.DeclineOrWithdraw(old(contacts.Contents()), me, other, now).db
    {
      var declined := contacts.Decline(other, me, now);
      contacts.Withdraw(me, other);
    }

    method SetLevel(me: SteamId, other: SteamId, level: Level, now: int) returns (r: LevelOutcome)
      modifies contacts, events
      ensures var d := SocialCalls.SetLevel(old(contacts.Contents()), me, other, level, now);
              r == d.answer && contacts.Contents() == d.db && events.log == old(events.log) + d.events
    {
      if me == other {
        return SelfLevel;
      }
      if level == Imposter {
        contacts.Block(me, other, now);
        events.Publish(ContactChanged(me, other, Some(Imposter)));
        events.Publish(ContactChanged(other, me, None));
        return Changed;
      }
      var updated := contacts.SetTier(me, other, level);
      if !updated {
        return NotAContact;
      }
      events.Publish(ContactChanged(me, other, Some(level)));
      return Changed;
    }

    method RemoveOrUnblock(me: SteamId, other: SteamId)
      modifies contacts, events
      ensures var d := SocialCalls.RemoveOrUnblock(old(contacts.Contents()), me, other);
              contacts.Contents() == d.db && events.log == old(events.log) + d.events
    {
      var level := LevelOf(contacts.contacts, me, other);
      if level == None {
        return;
      }
      if level == Some(Imposter) {
        var unblocked := contacts.Unblock(me, other);
        if unblocked {
          events.Publish(ContactChanged(me, other, None));
        }
      } else {
        assert Edge(me, other) in ConnectedRows(contacts.contacts, Edge(me, other));
        var removed := contacts.Remove(me, other);
        if removed {
          events.Publish(ContactChanged(me, other, None));
          events.Publish(ContactChanged(other, me, None));
        }
      }
    }
  }

  class ConversationService {
    const conversations: SocialDatabase
    const events: EventSink

    constructor (conversations: SocialDatabase, events: EventSink)
      ensures this.conversations == conversations && this.events == events
    {
      this.conversations, this.events := conversations, events;
    }

    method OpenDm(me: SteamId, peer: SteamId, now: int, later: int) returns (r: CreateResult)
      modifies conversations, events
      ensures var d := SocialCalls.OpenDm(old(conversations.Contents()), me, peer, now, later);
              r == d.answer && conversations.Contents() == d.db && events.log == old(events.log) + d.events
    {
      if me == peer {
        return CreateResult(SelfDm, None);
      }
      if !Connected(conversations.contacts, me, peer) {
        return CreateResult(NotAllowed, None);
      }
      var id, created := conversations.GetOrCreateDm(me, peer, now);
      var conversation := conversations.Get(id, later);
      if created && conversation.Some? {
        AddedToFew(peer, me, conversation.value);
        events.Publish(ConversationAdded(peer, conversation.value));
        events.Publish(ConversationAdded(me, conversation.value));
      }
      return CreateResult(if created then Fresh else Existing, conversation);
    }

    method Trimmed(text: string) returns (clean: string)
      ensures clean == Trim(text)
    {
      var start := 0;
      while start < |text| && IsSpace(text[start])
        invariant start <= |text| && Trim(text) == Trim(text[start..])
      {
        assert text[start..][1..] == text[start + 1..];
        start := start + 1;
      }
      var stop := |text|;
      assert text[start..stop] == text[start..];
      while stop > start && IsSpace(text[stop - 1])
        invariant start <= stop <= |text| && Trim(text) == Trim(text[start..stop])
        invariant start < stop ==> !IsSpace(text[start])
      {
        assert text[start..stop][..stop - start - 1] == text[start..stop - 1];
        stop := stop - 1;
      }
      clean := text[start..stop];
    }

    method WithoutRepeats(invitees: seq<SteamId>, me: SteamId) returns (users: seq<SteamId>)
      ensures users == Unique(invitees, me)
    {
      users := [];
      for i := 0 to |invitees|
        invariant users == Unique(invitees[..i], me)
      {
        assert invitees[..i + 1][..i] == invitees[..i];
        if invitees[i] != me && invitees[i] !in users {
          users := users + [invitees[i]];
        }
      }
      assert invitees[..|invitees|] == invitees;
    }

    method InviteEach(palette: ConversationId, name: string, me: SteamId, users: seq<SteamId>, now: int)
      modifies conversations`invites, events
      ensures var d := InviteAll(old(conversations.Contents()), palette, name, me, users, now);
              conversations.Contents() == d.db && events.log == old(events.log) + d.events
    {
      for i := 0 to |users|
        invariant var d := InviteAll(old(conversations.Contents()), palette, name, me, users[..i], now);
                  conversations.Contents() == d.db && events.log == old(events.log) + d.events
      {
        assert users[..i + 1][..i] == users[..i];
        var outcome := conversations.Invite(palette, me, users[i], now);
        if outcome == Created {
          events.Publish(PaletteInviteChanged(users[i], palette, name, me, now, true));
        }
      }
      assert users[..|users|] == users;
    }

    method MayInviteAll(me: SteamId, users: seq<SteamId>) returns (allowed: bool)
      ensures allowed <==> MayInvite(conversations.contacts, me, users)
    {
      for i := 0 to |users|
        invariant forall u | u in users[..i] :: Connected(conversations.contacts, me, u)
      {
        if !Connected(conversations.contacts, me, users[i]) {
          return false;
        }
      }
      return true;
    }

    method OpenPalette(me: SteamId, name: string, invitees: seq<SteamId>, now: int, later: int) returns (r: CreateResult)
      modifies conversations, events
      ensures var d := SocialCalls.OpenPalette(old(conversations.Contents()), me, name, invitees, now, later);
              r == d.answer && conversations.Contents() == d.db && events.log == old(events.log) + d.events
    {
      var clean := Trimmed(name);
      if clean == "" || |clean| > MAX_PALETTE_NAME_BYTES {
        return CreateResult(InvalidName, None);
      }
      var users := WithoutRepeats(invitees, me);
      if |users| > MAX_INVITEES_PER_CREATE {
        return CreateResult(TooManyInvitees, None);
      }
      var allowed := MayInviteAll(me, users);
      if !allowed {
        return CreateResult(NotAllowed, None);
      }
      r := FoundPalette(me, clean, users, now, later);
    }

    method FoundPalette(me: SteamId, name: string, users: seq<SteamId>, now: int, later: int) returns (r: CreateResult)
      modifies conversations, events
      ensures var d := SocialCalls.FoundPalette(old(conversations.Contents()), me, name, users, now, later);
              r == d.answer && conversations.Contents() == d.db && events.log == old(events.log) + d.events
    {
      var palette := conversations.CreatePalette(name, me, now);
      InviteEach(palette, name, me, users, now);
      var conversation := conversations.Get(palette, later);
      if conversation.Some? {
        AddedToFew(me, me, conversation.value);
        events.Publish(ConversationAdded(me, conversation.value));
      }
      return CreateResult(Fresh, conversation);
    }

    method InviteTo(me: SteamId, palette: ConversationId, invitee: SteamId, now: int, later: int) returns (r: PaletteInviteResult)
      modifies conversations, events
      ensures var d := SocialCalls.InviteTo(old(conversations.Contents()), me, palette, invitee, now, later);
              r == d.answer && conversations.Contents() == d.db && events.log == old(events.log) + d.events
    {
      if !IsPalette(conversations.conversations, palette) || !IsMember(conversations.conversations, palette, me) {
        return PaletteInviteResult(NotAMember, None);
      }
      if me == invitee {
        return PaletteInviteResult(SelfInvite, None);
      }
      if !Connected(conversations.contacts, me, invitee) {
        return PaletteInviteResult(InviteNotAllowed, None);
      }
      var outcome := conversations.Invite(palette, me, invitee, now);
      var updated := conversations.Get(palette, later);
      if outcome == CooldownActive && updated.Some? {
        updated := Some(updated.value.(invited := Ascending(Elements(updated.value.invited) + {invitee})));
      }
      if outcome == Created && updated.Some? {
        events.Publish(PaletteInviteChanged(invitee, palette, updated.value.name.value, me, later, true));
      }
      return PaletteInviteResult(if outcome == Created then NowInvited else Unchanged, updated);
    }

    method Join(me: SteamId, palette: ConversationId, now: int, later: int) returns (r: Option<View>)
      requires conversations.Valid()
      modifies conversations, events
      ensures conversations.Valid()
      ensures var d := SocialCalls.Join(old(conversations.Contents()), me, palette, now, later);
              r == d.answer && conversations.Contents() == d.db && events.log == old(events.log) + d.events
    {
      var accepted := conversations.AcceptInvite(palette, me, now);
      if !accepted {
        return None;
      }
      var joined := conversations.Get(palette, later);
      if joined.None? {
        return None;
      }
      var view := joined.value;
      Announce(PaletteInviteChanged(me, palette, view.name.value, 0, 0, false), me, view);
      return joined;
    }

    /** The newcomer's own devices first, then everyone else's. */
    method Announce(resolved: Event, me: SteamId, view: View)
      modifies events
      ensures events.log == old(events.log) + ([resolved, ConversationAdded(me, view)] + UpdatedFor(view.members, me, view))
    {
      events.Publish(resolved);
      events.Publish(ConversationAdded(me, view));
      assert events.log == old(events.log) + [resolved, ConversationAdded(me, view)];
      TellOthers(view.members, me, view);
    }

    method TellOthers(members: seq<SteamId>, me: SteamId, view: View)
      modifies events
      ensures events.log == old(events.log) + UpdatedFor(members, me, view)
    {
      for i := 0 to |members|
        invariant events.log == old(events.log) + UpdatedFor(members[..i], me, view)
      {
        assert members[..i + 1][..i] == members[..i];
        if members[i] != me {
          events.Publish(ConversationUpdated(members[i], view));
        }
      }
      assert members[..|members|] == members;
    }

    method TurnDown(me: SteamId, palette: ConversationId, now: int)
      modifies conversations, events
      ensures var d := SocialCalls.TurnDown(old(conversations.Contents()), me, palette, now);
              conversations.Contents() == d.db && events.log == old(events.log) + d.events
    {
      var declined := conversations.DeclineInvite(palette, me, now);
      if declined {
        events.Publish(PaletteInviteChanged(me, palette, "", 0, 0, false));
      }
    }
  }
}
