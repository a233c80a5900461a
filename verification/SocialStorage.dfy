/**
 * The contact and conversation repositories over one database: each method is one transaction, run
 * statement by statement. A row a statement returns tells the method whether to go on.
 */
module SocialStorage {
  import opened Common
  import opened SocialTables
  import DmRace

  class SocialDatabase {
    var contacts: Contacts
    var requests: Requests
    var conversations: Conversations
    var dms: map<DmRace.Pair, ConversationId>
    var invites: Invites
    var nextId: ConversationId

    ghost function Contents(): Db
      reads this
    {
      Db(contacts, requests, conversations, dms, invites, nextId)
    }

    /** The foreign keys of the schema. */
    ghost predicate Valid()
      reads this
    {
      forall k | k in invites :: IsPalette(conversations, k.palette)
    }

    constructor ()
      ensures Valid() && Contents() == Db(map[], map[], map[], map[], map[], 1)
    {
      contacts, requests, conversations, dms, invites, nextId := map[], map[], map[], map[], map[], 1;
    }

    // -------------------------------------------------------------- contacts

    method PutRequest(from: SteamId, to: SteamId, now: int)
      modifies `requests
      ensures Contents() == SocialTables.PutRequest(old(Contents()), Edge(from, to), now)
      ensures IsPending(requests, Edge(from, to), now)
    {
      requests := requests[Edge(from, to) := Request(now, None)];
    }

    method Accept(from: SteamId, to: SteamId, now: int) returns (accepted: bool)
      modifies `requests, `contacts
      ensures accepted <==> IsPending(old(requests), Edge(from, to), now)
      ensures Contents() == AcceptRequest(old(Contents()), Edge(from, to), now)
      ensures !IsPending(requests, Edge(from, to), now) && (accepted ==> Edge(from, to) in contacts && Edge(to, from) in contacts)
    {
      var e := Edge(from, to);
      if e !in requests || requests[e].declinedAt.Some? || requests[e].createdAt <= now - REQUEST_TTL_MS {
        return false;
      }
      requests := requests - {e};
      if e !in contacts {
        contacts := contacts[e := Contact(Ally, now)];
      }
      if Reverse(e) !in contacts {
        contacts := contacts[Reverse(e) := Contact(Ally, now)];
      }
      return true;
    }

    method Decline(from: SteamId, to: SteamId, now: int) returns (declined: bool)
      modifies `requests
      ensures declined <==> IsPending(old(requests), Edge(from, to), now)
      ensures Contents() == DeclineRequest(old(Contents()), Edge(from, to), now)
      ensures !IsPending(requests, Edge(from, to), now)
    {
      var e := Edge(from, to);
      if e !in requests || requests[e].declinedAt.Some? || requests[e].createdAt <= now - REQUEST_TTL_MS {
        return false;
      }
      requests := requests[e := Request(requests[e].createdAt, Some(now))];
      return true;
    }

    method Withdraw(from: SteamId, to: SteamId)
      modifies `requests
      ensures Contents() == WithdrawRequest(old(Contents()), Edge(from, to))
      ensures Edge(from, to) !in requests
    {
      requests := requests - {Edge(from, to)};
    }

    method Remove(first: SteamId, second: SteamId) returns (removed: bool)
      modifies `contacts, `requests, `invites
      ensures removed <==> ConnectedRows(old(contacts), Edge(first, second)) != {}
      ensures Contents() == RemoveContact(old(Contents()), Edge(first, second))
      ensures !IsConnection(contacts, Edge(first, second)) && !IsConnection(contacts, Edge(second, first))
    {
      var e := Edge(first, second);
      var rows := ConnectedRows(contacts, e);
      assert forall r | r in {e, Reverse(e)} && IsConnection(contacts, r) :: r in rows;
      if rows == {} {
        return false;
      }
      contacts := contacts - rows;
      requests := requests - {e, Reverse(e)};
      invites := WithoutInvitesBetween(invites, e);
      return true;
    }

    method Block(owner: SteamId, other: SteamId, now: int)
      modifies `contacts, `requests, `invites
      ensures Contents() == SocialTables.Block(old(Contents()), Edge(owner, other), now)
      ensures owner != other ==> IsBlock(contacts, Edge(owner, other)) && Edge(other, owner) !in contacts
    {
      var e := Edge(owner, other);
      contacts := contacts[e := Contact(Imposter, now)];
      contacts := contacts - {Reverse(e)};
      requests := requests - {e, Reverse(e)};
      invites := WithoutInvitesBetween(invites, e);
    }

    method Unblock(owner: SteamId, other: SteamId) returns (unblocked: bool)
      modifies `contacts
      ensures unblocked <==> IsBlock(old(contacts), Edge(owner, other))
      ensures Contents() == SocialTables.Unblock(old(Contents()), Edge(owner, other))
      ensures !IsBlock(contacts, Edge(owner, other)) && (IsConnection(contacts, Edge(owner, other)) <==> old(IsConnection(contacts, Edge(owner, other))))
    {
      var e := Edge(owner, other);
      if e !in contacts || contacts[e].level != Imposter {
        return false;
      }
      contacts := contacts - {e};
      return true;
    }

    method SetTier(owner: SteamId, other: SteamId, level: Level) returns (updated: bool)
      modifies `contacts
      ensures updated <==> level != Imposter && IsConnection(old(contacts), Edge(owner, other))
      ensures Contents() == SocialTables.SetTier(old(Contents()), Edge(owner, other), level)
      ensures LevelOf(contacts, owner, other) == if updated then Some(level) else LevelOf(old(contacts), owner, other)
    {
      var e := Edge(owner, other);
      if level == Imposter || e !in contacts || contacts[e].level == Imposter {
        return false;
      }
      contacts := contacts[e := Contact(level, contacts[e].since)];
      return true;
    }

    // -------------------------------------------------------------- conversations

    /** Alone on the table, a get-or-create finds the pair or makes it. */
    method GetOrCreateDm(first: SteamId, second: SteamId, now: int) returns (id: ConversationId, created: bool)
      modifies `conversations, `dms, `nextId
      ensures var pair := DmRace.Canonical(first, second);
              && (created <==> pair !in old(dms))
              && id == (if created then old(nextId) else old(dms)[pair])
              && Contents() == (if created then CreateDm(old(Contents()), pair, now) else old(Contents()))
    {
      var pair := DmRace.Pair(if first < second then first else second, if first < second then second else first);
      if pair in dms {
        return dms[pair], false;
      }
      id, created := nextId, true;
      nextId := nextId + 1;
      conversations := conversations[id := Dm(pair, now)];
      dms := dms[pair := id];
    }

    method CreatePalette(name: string, creator: SteamId, now: int) returns (id: ConversationId)
      modifies `conversations, `nextId
      ensures id == old(nextId) && Contents() == SocialTables.CreatePalette(old(Contents()), name, creator, now)
      ensures forall u :: IsMember(conversations, id, u) <==> u == creator
    {
      id := nextId;
      nextId := nextId + 1;
      conversations := conversations[id := Palette(name, {creator}, now)];
    }

    method Get(c: ConversationId, now: int) returns (view: Option<View>)
      ensures view == SocialTables.Get(Contents(), c, now)
    {
      if c !in conversations {
        return None;
      }
      var row := conversations[c];
      var found := View(c, row.Palette?, None, Ascending(MembersOf(row)), [], row.createdAt);
      if row.Palette? {
        found := found.(name := Some(row.name), invited := Ascending(Invited(invites, c, now)));
      }
      return Some(found);
    }

    method Invite(palette: ConversationId, inviter: SteamId, invitee: SteamId, now: int) returns (outcome: InviteOutcome)
      modifies `invites
      ensures outcome == InviteOutcomeOf(old(Contents()), InviteKey(palette, invitee), now)
      ensures Contents() == PutInvite(old(Contents()), InviteKey(palette, invitee), inviter, now)
    {
      var k := InviteKey(palette, invitee);
      if IsMember(conversations, palette, invitee) {
        return AlreadyMember;
      }
      if k in invites {
        if invites[k].declinedAt.Some? {
          if now - invites[k].declinedAt.value < DECLINE_COOLDOWN_MS {
            return CooldownActive;
          }
        } else if now - invites[k].createdAt < REQUEST_TTL_MS {
          return AlreadyInvited;
        }
      }
      invites := invites[k := SocialTables.Invite.Invite(inviter, now, None)];
      return Created;
    }

    method AcceptInvite(palette: ConversationId, invitee: SteamId, now: int) returns (accepted: bool)
      requires Valid()
      modifies `invites, `conversations
      ensures Valid() && (accepted <==> CanJoin(old(Contents()), InviteKey(palette, invitee), now))
      ensures Contents() == SocialTables.AcceptInvite(old(Contents()), InviteKey(palette, invitee), now)
      ensures accepted ==> IsMember(conversations, palette, invitee) && !IsInvited(invites, InviteKey(palette, invitee), now)
    {
      var k := InviteKey(palette, invitee);
      if k !in invites || invites[k].declinedAt.Some? || invites[k].createdAt <= now - REQUEST_TTL_MS {
        return false;
      }
      invites := invites - {k};
      var p := conversations[palette];
      conversations := conversations[palette := p.(members := p.members + {invitee})];
      return true;
    }

    method DeclineInvite(palette: ConversationId, invitee: SteamId, now: int) returns (declined: bool)
      modifies `invites
      ensures declined <==> IsInvited(old(invites), InviteKey(palette, invitee), now)
      ensures Contents() == SocialTables.DeclineInvite(old(Contents()), InviteKey(palette, invitee), now)
      ensures !IsInvited(invites, InviteKey(palette, invitee), now)
    {
      var k := InviteKey(palette, invitee);
      if k !in invites || invites[k].declinedAt.Some? || invites[k].createdAt <= now - REQUEST_TTL_MS {
        return false;
      }
      invites := invites[k := invites[k].(declinedAt := Some(now))];
      return true;
    }
  }
}
