/** The staff tables, updated in place by the routes and the transfer worker. */
module TeamStore {
  import opened Prelude
  import opened Team

  /** Handing over one more shop adds one row change to the hand-over so far. */
  lemma HandedOneMore(members: map<(Shop, User), Member>, done: set<Shop>, shop: Shop, from: User, to: User)
    requires shop !in done
    ensures Handed(members, done + {shop}, from, to) == HandedShop(Handed(members, done, from, to), shop, from, to)
  {
    var before, after := Handed(members, done, from, to), Handed(members, done + {shop}, from, to);
    assert after.Keys == HandedShop(before, shop, from, to).Keys by {
      forall k ensures k in after.Keys <==> k in HandedShop(before, shop, from, to).Keys {
        assert k in after.Keys <==> k in members.Keys || (k.0 in done + {shop} && k.1 == to && k == (k.0, to));
        assert k in before.Keys <==> k in members.Keys || (k.0 in done && k.1 == to && k == (k.0, to));
      }
    }
  }

  /** One shop's former owner becomes an administrator and its new owner an active owner. */
  function HandedShop(members: map<(Shop, User), Member>, shop: Shop, from: User, to: User): map<(Shop, User), Member> {
    var demoted := if (shop, from) in members && members[(shop, from)].role == Owner
                   then members[(shop, from) := members[(shop, from)].(role := Admin)] else members;
    demoted[(shop, to) := Member(Owner, true)]
  }

  lemma RoleTakesNoSeat(db: Db, shop: Shop, user: User, role: Role, org: Org)
    requires (shop, user) in db.members
    ensures Seats(WithMember(db, shop, user, db.members[(shop, user)].(role := role)), org) == Seats(db, org)
  {
    var after := WithMember(db, shop, user, db.members[(shop, user)].(role := role));
    SeatsOfSameRows(db, after, org, {});
    SeatsOfSameRows(after, db, org, {});
  }

  lemma Overwrite<K, V>(m: map<K, V>, k: K, first: V, last: V)
    ensures m[k := first][k := last] == m[k := last]
    ensures k in m ==> m[k := m[k]] == m
  {
  }

  lemma SeatCheckIgnoresRole(db: Db, shop: Shop, user: User, role: Option<Role>, limit: Option<nat>)
    requires (shop, user) in db.members && shop in db.shops && user in db.users
    ensures role.Some? ==>
              SeatAllowed(WithMember(db, shop, user, db.members[(shop, user)].(role := role.value)), db.shops[shop], db.users[user], limit)
              == SeatAllowed(db, db.shops[shop], db.users[user], limit)
  {
    if role.Some? { RoleTakesNoSeat(db, shop, user, role.value, db.shops[shop]); }
  }

  /** The organization's seats are those it had and the address, within the limit or no more than before. */
  predicate SeatAdded(before: Db, after: Db, org: Org, email: string, limit: Option<nat>) {
    && Seats(after, org) == Seats(before, org) + {Normalize(email)}
    && (limit.Some? ==> Capped(before, after, org, limit.value))
  }

  /** The invitation is open for seven days, on a seat of its own or the one its address had. */
  predicate Invited(before: Db, after: Db, id: nat, shop: Shop, email: string, role: Role, limit: Option<nat>) {
    && id in after.invitations && Open(after, id) && shop in before.shops
    && after.invitations[id] == Invitation(shop, email, role, before.now + 7 * 86400, false)
    && SeatAdded(before, after, before.shops[shop], email, limit)
  }

  class Store {
    var users: map<User, string>
    var owners: map<Org, User>
    var shops: map<Shop, Org>
    var members: map<(Shop, User), Member>
    var invitations: map<nat, Invitation>
    var transfers: map<nat, Transfer>
    var now: int

    constructor ()
      ensures Tables() == Empty
    {
      users, owners, shops, members, invitations, transfers, now := map[], map[], map[], map[], map[], map[], 0;
    }

    function Tables(): Db
      reads this
    {
      Db(users, owners, shops, members, invitations, transfers, now)
    }

    /** The oldest request that is due, in the order of creation. */
    method ClaimTransfer(order: seq<nat>) returns (claimed: Option<nat>)
      requires forall i :: i in order <==> i in transfers
      modifies this
      ensures claimed.None? ==> Tables() == old(Tables()) && forall id :: id in old(transfers) ==> Claim(old(Tables()), id) == old(Tables())
      ensures claimed.Some? ==> Tables() == Apply(old(Tables()), Step.ClaimTransfer(claimed.value)) && Tables() != old(Tables())
      ensures claimed.Some? ==> exists k :: 0 <= k < |order| && order[k] == claimed.value
                                  && forall j :: 0 <= j < k ==> Claim(old(Tables()), order[j]) == old(Tables())
    {
      for k := 0 to |order|
        invariant Tables() == old(Tables())
        invariant forall j :: 0 <= j < k ==> Claim(old(Tables()), order[j]) == old(Tables())
      {
        var t := transfers[order[k]];
        if t.status == Pending && (t.nextAttempt.None? || t.nextAttempt.value <= now) {
          transfers := transfers[order[k] := t.(status := Processing, attempts := t.attempts + 1)];
          assert transfers[order[k]] != old(transfers)[order[k]];
          return Some(order[k]);
        }
      }
      return None;
    }

    method CompleteTransfer(id: nat)
      modifies this
      ensures Tables() == Apply(old(Tables()), Step.CompleteTransfer(id))
    {
      if id !in transfers || transfers[id].status != Processing { return; }
      var t := transfers[id];
      if !TransferStands(Tables(), t) {
        transfers := transfers[id := t.(status := Failed)];
        return;
      }
      var open := ShopsOf(Tables(), t.org);
      ghost var moved: set<Shop> := {};
      while open != {}
        invariant open !! moved && open + moved == ShopsOf(old(Tables()), t.org)
        invariant members == Handed(old(members), moved, t.from, t.to)
        invariant Tables().(members := old(members)) == old(Tables())
        decreases open
      {
        var s :| s in open;
        HandedOneMore(old(members), moved, s, t.from, t.to);
        if (s, t.from) in members && members[(s, t.from)].role == Owner {
          members := members[(s, t.from) := members[(s, t.from)].(role := Admin)];
        }
        members := members[(s, t.to) := Member(Owner, true)];
        open, moved := open - {s}, moved + {s};
      }
      assert moved == ShopsOf(old(Tables()), t.org);
      owners := owners[t.org := t.to];
      transfers := transfers[id := t.(status := Completed)];
    }

    method RetryOrFail(id: nat)
      modifies this
      ensures Tables() == Apply(old(Tables()), RetryTransfer(id))
    {
      if id !in transfers || transfers[id].status != Processing { return; }
      var t := transfers[id];
      if t.attempts >= MAX_TRANSFER_ATTEMPTS {
        transfers := transfers[id := t.(status := Failed)];
      } else {
        var delay := Minimum(60, Power2(Minimum(t.attempts, 6)));
        transfers := transfers[id := t.(status := Pending, nextAttempt := Some(now + 60 * delay))];
      }
    }

    // ---- queries ----

    /** Whether a member of the shop has the address. */
    method HasAddress(shop: Shop, email: string) returns (found: bool)
      ensures !found <==> forall k :: k in members && k.0 == shop && k.1 in users ==> users[k.1] != email
    {
      var rows := members.Keys;
      while rows != {}
        invariant rows <= members.Keys
        invariant forall k :: k in members && k !in rows && k.0 == shop && k.1 in users ==> users[k.1] != email
        decreases rows
      {
        var k :| k in rows;
        if k.0 == shop && k.1 in users && users[k.1] == email { return true; }
        rows := rows - {k};
      }
      return false;
    }

    /** organization_team_emails: the addresses of active staff, then those of open invitations. */
    method TeamEmails(org: Org) returns (emails: set<string>)
      ensures emails == Seats(Tables(), org)
    {
      emails := {};
      var rows := members.Keys;
      while rows != {}
        invariant rows <= members.Keys && emails <= Seats(Tables(), org)
        invariant forall k :: Sits(Tables(), org, k) && k !in rows ==> Normalize(users[k.1]) in emails
        decreases rows
      {
        var k :| k in rows;
        if members[k].active && k.0 in shops && shops[k.0] == org && k.1 in users {
          SeatOfMember(Tables(), org, k);
          emails := emails + {Normalize(users[k.1])};
        }
        rows := rows - {k};
      }
      var ids := invitations.Keys;
      while ids != {}
        invariant ids <= invitations.Keys && emails <= Seats(Tables(), org)
        invariant forall k :: Sits(Tables(), org, k) ==> Normalize(users[k.1]) in emails
        invariant forall i :: Awaits(Tables(), org, i) && i !in ids ==> Normalize(invitations[i].email) in emails
        decreases ids
      {
        var i :| i in ids;
        var invitation := invitations[i];
        if !invitation.accepted && invitation.expiresAt > now && invitation.shop in shops && shops[invitation.shop] == org {
          SeatOfInvitation(Tables(), org, i);
          emails := emails + {Normalize(invitation.email)};
        }
        ids := ids - {i};
      }
      AllSeatsCollected(Tables(), org, emails);
    }

    /** enforce_team_seat_limit */
    method SeatIsFree(org: Org, email: string, limit: Option<nat>) returns (free: bool)
      ensures free == SeatAllowed(Tables(), org, email, limit)
    {
      var emails := TeamEmails(org);
      if Normalize(email) in emails { return true; }
      free := limit.None? || |emails| < limit.value;
    }

    /** count_organization_shops */
    method OrganizationShops(org: Org) returns (count: nat)
      ensures count == CountShops(Tables(), org)
    {
      var left := shops.Keys;
      count := 0;
      while left != {}
        invariant left <= shops.Keys
        invariant count == |set s | s in shops && s !in left && shops[s] == org|
        decreases left
      {
        var next :| next in left;
        ghost var counted := set s | s in shops && s !in left && shops[s] == org;
        var rest := left - {next};
        if shops[next] == org {
          assert (set s | s in shops && s !in rest && shops[s] == org) == counted + {next};
          count := count + 1;
        } else {
          assert (set s | s in shops && s !in rest && shops[s] == org) == counted;
        }
        left := rest;
      }
      assert (set s | s in shops && s !in left && shops[s] == org) == ShopsOf(Tables(), org);
    }

    method OwnsAnother(user: User, org: Org) returns (found: bool)
      ensures found == OwnsOther(Tables(), user, org)
    {
      var orgs := owners.Keys;
      while orgs != {}
        invariant orgs <= owners.Keys
        invariant forall o :: o in owners && o !in orgs && o != org ==> owners[o] != user
        decreases orgs
      {
        var o :| o in orgs;
        if o != org && owners[o] == user { return true; }
        orgs := orgs - {o};
      }
      return false;
    }

    /** Whether an open transfer hands over to the user, or concerns the organization, which the table's unique index also refuses. */
    method TransferUnderWay(org: Org, to: User) returns (found: bool)
      ensures !found <==> forall t :: t in transfers && TransferOpen(transfers[t]) ==> transfers[t].to != to && transfers[t].org != org
    {
      var ids := transfers.Keys;
      while ids != {}
        invariant ids <= transfers.Keys
        invariant forall t :: t in transfers && t !in ids && TransferOpen(transfers[t]) ==> transfers[t].to != to && transfers[t].org != org
        decreases ids
      {
        var t :| t in ids;
        if TransferOpen(transfers[t]) && (transfers[t].to == to || transfers[t].org == org) { return true; }
        ids := ids - {t};
      }
      return false;
    }

    // ---- requests ----

    /**
     * Accepting makes the user a member, never rewrites a membership that was there, uses the invitation up,
     * and seats nobody new.
     */
    method AcceptInvitation(i: nat, user: User) returns (ok: bool)
      modifies this
      ensures ok <==> MayAccept(old(Tables()), i, user)
      ensures Tables() == Apply(old(Tables()), Step.Accept(i, user))
      ensures ok ==>
        var k := (old(invitations)[i].shop, user);
        && k in members
        && members[k] == (if k in old(members) then old(members)[k] else Member(old(invitations)[i].role, true))
        && forall other :: !MayAccept(Tables(), i, other)
      ensures forall org :: Seats(Tables(), org) <= Seats(old(Tables()), org)
      ensures Inv(old(Tables())) ==> Inv(Tables())
    {
      ghost var before := Tables();
      if i !in invitations || user !in users { return false; }
      var invitation := invitations[i];
      if invitation.accepted || invitation.expiresAt <= now { return false; }
      if invitation.email != users[user] || invitation.shop !in shops { return false; }
      if (invitation.shop, user) !in members {
        members := members[(invitation.shop, user) := Member(invitation.role, true)];
      }
      invitations := invitations[i := invitation.(accepted := true)];
      assert Tables() == Accepted(before, i, user);
      AcceptanceIsSound(before, i, user);
      return true;
    }

    /** The role is written before the seat check; a refusal rolls it back. */
    method AssignMember(shop: Shop, user: User, role: Option<Role>, active: Option<bool>, limit: Option<nat>) returns (ok: bool)
      requires shop in shops && (shop, user) in members && user in users
      modifies `members
      ensures ok == (active == Some(true) && !old(members)[(shop, user)].active ==>
                       SeatAllowed(old(Tables()), shops[shop], users[user], limit))
      ensures members == if ok then old(members)[(shop, user) := Updated(old(members)[(shop, user)], role, active)] else old(members)
    {
      var k, before, row := (shop, user), members, members[(shop, user)];
      SeatCheckIgnoresRole(Tables(), shop, user, role, limit);
      Overwrite(before, k, row, row);
      if role.Some? && role.value != row.role {
        row := row.(role := role.value);
        members := members[k := row];
      }
      ghost var promoted := row;
      assert members == before[k := promoted];
      if active.Some? {
        if active.value && !row.active && !SeatAllowed(Tables(), shops[shop], users[user], limit) {
          members := before;
          return false;
        }
        if active.value != row.active {
          row := row.(active := active.value);
          members := members[k := row];
          Overwrite(before, k, promoted, row);
        }
      }
      assert row == Updated(before[k], role, active);
      return true;
    }

    /** update_member: the checks in order, then the row. */
    method UpdateMember(shop: Shop, actor: User, user: User, role: Option<Role>, active: Option<bool>, limit: Option<nat>)
      returns (ok: bool)
      modifies this
      ensures ok == MayUpdate(old(Tables()), shop, actor, user, role, active, limit)
      ensures Tables() == if ok then WithMember(old(Tables()), shop, user, Updated(old(members)[(shop, user)], role, active))
                          else old(Tables())
      ensures ok ==>
        && (shop, user) in members && (shop, user) in old(members)
        && members[(shop, user)].role == (if role.Some? then role.value else old(members)[(shop, user)].role)
        && members[(shop, user)].active == (if active.Some? then active.value else old(members)[(shop, user)].active)
    {
      if shop !in shops || !Administers(Tables(), shop, actor) || (shop, user) !in members || user !in users { return false; }
      var member := members[(shop, user)];
      if member.role == Owner || role == Some(Owner) { return false; }
      if user == actor && active == Some(false) { return false; }
      if members[(shop, actor)].role != Owner && (member.role == Admin || role == Some(Admin)) { return false; }
      ok := AssignMember(shop, user, role, active, limit);
    }

    /**
     * An issued invitation is open, for an address that no member of the shop has, and adds at most that
     * address to the seats, within the limit.
     */
    method Invite(id: nat, shop: Shop, actor: User, email: string, role: Role, limit: Option<nat>) returns (ok: bool)
      modifies this
      ensures ok <==> MayInvite(old(Tables()), id, shop, actor, email, role, limit)
      ensures Tables() == Apply(old(Tables()), Step.Invite(id, shop, actor, email, role, limit))
      ensures ok ==> Invited(old(Tables()), Tables(), id, shop, email, role, limit)
      ensures Inv(old(Tables())) ==> Inv(Tables())
    {
      ghost var before := Tables();
      ok := MayAsk(id, shop, actor, email, role, limit);
      InviteOutcome(before, id, shop, actor, email, role, limit);
      if !ok { return; }
      invitations := invitations[id := Invitation(shop, email, role, now + INVITATION_LIFE, false)];
      InvitingIsSound(before, id, shop, actor, email, role, limit);
    }

    /** The checks of the route that invites, in order. */
    method MayAsk(id: nat, shop: Shop, actor: User, email: string, role: Role, limit: Option<nat>) returns (ok: bool)
      ensures ok == MayInvite(Tables(), id, shop, actor, email, role, limit)
    {
      if id in invitations { return false; }
      if shop !in shops || !Administers(Tables(), shop, actor) || role == Owner { return false; }
      if role == Admin && members[(shop, actor)].role != Owner { return false; }
      var taken := HasAddress(shop, email);
      if taken { return false; }
      ok := SeatIsFree(shops[shop], email, limit);
    }

    /**
     * A requested transfer is the only open one of its organization and to its target, and moves nothing yet.
     */
    method RequestTransfer(id: nat, shop: Shop, actor: User, to: User) returns (ok: bool)
      modifies this
      ensures ok <==> MayRequest(old(Tables()), id, shop, actor, to)
      ensures Tables() == Apply(old(Tables()), Step.RequestTransfer(id, shop, actor, to))
      ensures ok ==>
        && owners == old(owners) && members == old(members)
        && id in transfers && shop in shops && transfers[id] == Transfer(shops[shop], actor, to, Pending, 0, None)
        && forall t :: t in transfers && t != id && TransferOpen(transfers[t]) ==> transfers[t].org != transfers[id].org && transfers[t].to != to
      ensures TransfersApart(old(Tables())) ==> TransfersApart(Tables())
      ensures Inv(old(Tables())) ==> Inv(Tables())
    {
      ghost var before := Tables();
      ok := MayHandOver(id, shop, actor, to);
      if !ok { return; }
      var org := shops[shop];
      transfers := transfers[id := Transfer(org, actor, to, Pending, 0, None)];
      RequestIsSound(before, id, shop, actor, to);
    }

    /** The checks of _request_ownership_transfer, in order. */
    method MayHandOver(id: nat, shop: Shop, actor: User, to: User) returns (ok: bool)
      ensures ok == MayRequest(Tables(), id, shop, actor, to)
    {
      if id in transfers { return false; }
      if shop !in shops || shops[shop] !in owners { return false; }
      var org := shops[shop];
      if !IsActive(Tables(), shop, actor) || members[(shop, actor)].role != Owner || owners[org] != actor { return false; }
      if to == actor || !IsActive(Tables(), shop, to) || to !in users { return false; }
      var another := OwnsAnother(to, org);
      if another { return false; }
      var underWay := TransferUnderWay(org, to);
      return !underWay;
    }

    /** An added shop belongs to the organization, has its owner, stays within the limit, and seats nobody new. */
    method AddShop(via: Shop, actor: User, shop: Shop, limit: Option<nat>) returns (ok: bool)
      modifies this
      ensures ok <==> MayAddShop(old(Tables()), via, actor, shop, limit)
      ensures Tables() == Apply(old(Tables()), Step.AddShop(via, actor, shop, limit))
      ensures ok ==>
        && via in shops && shop in shops && shops[shop] == shops[via]
        && (shop, actor) in members && members[(shop, actor)] == Member(Owner, true)
        && CountShops(Tables(), shops[via]) == CountShops(old(Tables()), shops[via]) + 1
        && (limit.Some? ==> CountShops(Tables(), shops[via]) <= limit.value)
      ensures Inv(old(Tables())) ==> Inv(Tables()) && forall org :: Seats(Tables(), org) <= Seats(old(Tables()), org)
    {
      ghost var before := Tables();
      if shop in shops || via !in shops || shops[via] !in owners { return false; }
      var org := shops[via];
      if !IsActive(Tables(), via, actor) || members[(via, actor)].role != Owner || owners[org] != actor { return false; }
      var count := OrganizationShops(org);
      if limit.Some? && count >= limit.value { return false; }
      shops := shops[shop := org];
      members := members[(shop, actor) := Member(Owner, true)];
      assert owners == owners[org := actor];
      AddingIsSound(before, via, actor, shop, limit);
      return true;
    }
  }

  lemma AllSeatsCollected(db: Db, org: Org, emails: set<string>)
    requires emails <= Seats(db, org)
    requires forall k :: Sits(db, org, k) ==> Normalize(db.users[k.1]) in emails
    requires forall i :: Awaits(db, org, i) ==> Normalize(db.invitations[i].email) in emails
    ensures emails == Seats(db, org)
  {
    forall e | e in Seats(db, org) ensures e in emails {
      if e in ActiveEmails(db, org) {
        var k :| k in db.members && db.members[k].active && k.0 in db.shops && db.shops[k.0] == org && k.1 in db.users
          && e == Normalize(db.users[k.1]);
        assert Sits(db, org, k);
      } else {
        var i :| i in db.invitations && Open(db, i) && db.invitations[i].shop in db.shops
          && db.shops[db.invitations[i].shop] == org && e == Normalize(db.invitations[i].email);
        assert Awaits(db, org, i);
      }
    }
  }

  lemma AcceptanceIsSound(db: Db, i: nat, user: User)
    requires MayAccept(db, i, user)
    ensures forall org :: Seats(Accepted(db, i, user), org) <= Seats(db, org)
    ensures Inv(db) ==> Inv(Accepted(db, i, user))
  {
    forall org ensures Seats(Accepted(db, i, user), org) <= Seats(db, org) { AcceptAddsNoSeat(db, i, user, org); }
    if Inv(db) { AcceptedKeepsInv(db, i, user); }
  }

  lemma InviteOutcome(db: Db, id: nat, shop: Shop, actor: User, email: string, role: Role, limit: Option<nat>)
    ensures var after := Apply(db, Step.Invite(id, shop, actor, email, role, limit));
      if MayInvite(db, id, shop, actor, email, role, limit)
      then after == WithInvitation(db, id, Invitation(shop, email, role, db.now + INVITATION_LIFE, false)) else after == db
  {
  }

  lemma InvitationAddsSeat(db: Db, id: nat, invitation: Invitation, org: Org, limit: Option<nat>)
    requires id !in db.invitations && invitation.shop in db.shops && db.shops[invitation.shop] == org
    requires !invitation.accepted && invitation.expiresAt > db.now && SeatAllowed(db, org, invitation.email, limit)
    ensures SeatAdded(db, WithInvitation(db, id, invitation), org, invitation.email, limit)
  {
    InviteAddsOneSeat(db, id, invitation, org, limit);
    SeatOfInvitation(WithInvitation(db, id, invitation), org, id);
    InvitingKeepsSeats(db, id, invitation, org);
  }

  lemma InvitingIsSound(db: Db, id: nat, shop: Shop, actor: User, email: string, role: Role, limit: Option<nat>)
    requires MayInvite(db, id, shop, actor, email, role, limit)
    ensures var after := WithInvitation(db, id, Invitation(shop, email, role, db.now + INVITATION_LIFE, false));
      && Invited(db, after, id, shop, email, role, limit) && (Inv(db) ==> Inv(after))
  {
    var invitation := Invitation(shop, email, role, db.now + INVITATION_LIFE, false);
    InvitationAddsSeat(db, id, invitation, db.shops[shop], limit);
    if Inv(db) { InvitationKeepsInv(db, id, invitation); }
  }

  lemma InvitingKeepsSeats(db: Db, id: nat, invitation: Invitation, org: Org)
    requires id !in db.invitations
    ensures Seats(db, org) <= Seats(WithInvitation(db, id, invitation), org)
  {
    SeatsOfSameRows(WithInvitation(db, id, invitation), db, org, {});
  }

  lemma RequestIsSound(db: Db, id: nat, shop: Shop, actor: User, to: User)
    requires MayRequest(db, id, shop, actor, to)
    ensures var after := WithTransfer(db, id, Transfer(db.shops[shop], actor, to, Pending, 0, None));
      && after == Apply(db, Step.RequestTransfer(id, shop, actor, to))
      && (TransfersApart(db) ==> TransfersApart(after)) && (Inv(db) ==> Inv(after))
  {
    RequestEffect(db, id, shop, actor, to);
    if TransfersApart(db) { RequestStaysApart(db, id, shop, actor, to); }
    if Inv(db) { RequestKeepsInv(db, id, shop, actor, to); }
  }

  lemma OneShopMore(db: Db, org: Org, shop: Shop, owner: User)
    requires shop !in db.shops
    ensures CountShops(WithShop(db, org, shop, owner), org) == CountShops(db, org) + 1
  {
    var after := WithShop(db, org, shop, owner);
    assert ShopsOf(after, org) == ShopsOf(db, org) + {shop} && shop !in ShopsOf(db, org);
  }

  lemma AddingIsSound(db: Db, via: Shop, actor: User, shop: Shop, limit: Option<nat>)
    requires MayAddShop(db, via, actor, shop, limit)
    ensures var after := WithShop(db, db.shops[via], shop, actor);
      && after == Apply(db, Step.AddShop(via, actor, shop, limit))
      && CountShops(after, db.shops[via]) == CountShops(db, db.shops[via]) + 1
      && (Inv(db) ==> Inv(after) && forall org :: Seats(after, org) <= Seats(db, org))
  {
    AddShopEffect(db, via, actor, shop, limit);
    OneShopMore(db, db.shops[via], shop, actor);
    if Inv(db) {
      AddShopKeepsInv(db, via, actor, shop, limit);
      forall org ensures Seats(WithShop(db, db.shops[via], shop, actor), org) <= Seats(db, org) {
        AddShopAddsNoSeat(db, via, actor, shop, limit, org);
      }
    }
  }
}
