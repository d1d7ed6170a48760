/** Organizations, their shops and staff: who owns what, and how many seats are taken. */
module Team {
  import opened Prelude
  import Text

  type User = nat
  type Shop = nat
  type Org = nat

  datatype Role = Owner | Admin | Manager | Cashier
  datatype Member = Member(role: Role, active: bool)
  datatype Invitation = Invitation(shop: Shop, email: string, role: Role, expiresAt: int, accepted: bool)
  datatype TransferStatus = Pending | Processing | Completed | Failed
  datatype Transfer = Transfer(org: Org, from: User, to: User, status: TransferStatus, attempts: nat, nextAttempt: Option<int>)

  const MAX_TRANSFER_ATTEMPTS: nat := 8
  const INVITATION_LIFE: int := 7 * 24 * 3600

  datatype Db = Db(
    users: map<User, string>, owners: map<Org, User>, shops: map<Shop, Org>,
    members: map<(Shop, User), Member>, invitations: map<nat, Invitation>, transfers: map<nat, Transfer>, now: int)

  function Normalize(email: string): string {
    Text.Lower(Text.Strip(email))
  }

  // ---- seats ----

  function ActiveEmails(db: Db, org: Org): set<string> {
    set k | k in db.members && db.members[k].active && k.0 in db.shops && db.shops[k.0] == org && k.1 in db.users
      :: Normalize(db.users[k.1])
  }

  function InvitedEmails(db: Db, org: Org): set<string> {
    set i | i in db.invitations && Open(db, i) && db.invitations[i].shop in db.shops && db.shops[db.invitations[i].shop] == org
      :: Normalize(db.invitations[i].email)
  }

  predicate Open(db: Db, i: nat)
    requires i in db.invitations
  {
    !db.invitations[i].accepted && db.invitations[i].expiresAt > db.now
  }

  /** The seats an organization uses: distinct addresses of active staff and of open invitations. */
  function Seats(db: Db, org: Org): set<string> {
    ActiveEmails(db, org) + InvitedEmails(db, org)
  }

  /** enforce_team_seat_limit */
  predicate SeatAllowed(db: Db, org: Org, email: string, limit: Option<nat>) {
    Normalize(email) in Seats(db, org) || limit.None? || |Seats(db, org)| < limit.value
  }

  // ---- steps ----

  predicate IsActive(db: Db, shop: Shop, user: User) {
    (shop, user) in db.members && db.members[(shop, user)].active
  }

  predicate Administers(db: Db, shop: Shop, user: User) {
    IsActive(db, shop, user) && db.members[(shop, user)].role in {Owner, Admin}
  }

  predicate HasActiveMembership(db: Db, user: User) {
    exists k :: k in db.members && k.1 == user && db.members[k].active
  }

  predicate OwnsOther(db: Db, user: User, org: Org) {
    exists o :: o in db.owners && o != org && db.owners[o] == user
  }

  predicate ActiveInOrg(db: Db, user: User, org: Org) {
    exists s :: s in db.shops && db.shops[s] == org && IsActive(db, s, user)
  }

  predicate TransferOpen(t: Transfer) {
    t.status == Pending || t.status == Processing
  }

  datatype Step =
    | Wait(elapsed: nat)
    | SignUp(user: User, email: string)
    | OpenShop(user: User, org: Org, shop: Shop)
    | AddShop(via: Shop, actor: User, shop: Shop, shopLimit: Option<nat>)
    | Invite(id: nat, shop: Shop, actor: User, email: string, role: Role, seatLimit: Option<nat>)
    | Accept(invitation: nat, user: User)
    | UpdateMember(shop: Shop, actor: User, user: User, newRole: Option<Role>, newActive: Option<bool>, seatLimit: Option<nat>)
    | RequestTransfer(id: nat, shop: Shop, actor: User, to: User)
    | ClaimTransfer(id: nat)
    | CompleteTransfer(id: nat)
    | RetryTransfer(id: nat)

  function ShopsOf(db: Db, org: Org): set<Shop> {
    set s | s in db.shops && db.shops[s] == org
  }

  function CountShops(db: Db, org: Org): nat {
    |ShopsOf(db, org)|
  }

  predicate MayAddShop(db: Db, via: Shop, actor: User, shop: Shop, limit: Option<nat>) {
    && via in db.shops && db.shops[via] in db.owners && shop !in db.shops
    && IsActive(db, via, actor) && db.members[(via, actor)].role == Owner
    && db.owners[db.shops[via]] == actor
    && (limit.None? || CountShops(db, db.shops[via]) < limit.value)
  }

  predicate MayInvite(db: Db, id: nat, shop: Shop, actor: User, email: string, role: Role, limit: Option<nat>) {
    && id !in db.invitations && shop in db.shops && Administers(db, shop, actor) && role != Owner
    && (role == Admin ==> db.members[(shop, actor)].role == Owner)
    && (forall k :: k in db.members && k.0 == shop && k.1 in db.users ==> db.users[k.1] != email)
    && SeatAllowed(db, db.shops[shop], email, limit)
  }

  predicate MayAccept(db: Db, i: nat, user: User) {
    && i in db.invitations && user in db.users && Open(db, i) && db.invitations[i].email == db.users[user]
    && db.invitations[i].shop in db.shops
  }

  predicate MayManage(db: Db, shop: Shop, actor: User, user: User, role: Option<Role>, active: Option<bool>) {
    && shop in db.shops && Administers(db, shop, actor) && (shop, user) in db.members && user in db.users
    && role != Some(Owner)
    && var member := db.members[(shop, user)];
    && member.role != Owner
    && !(user == actor && active == Some(false))
    && (db.members[(shop, actor)].role != Owner ==> member.role != Admin && role != Some(Admin))
  }

  predicate MayUpdate(db: Db, shop: Shop, actor: User, user: User, role: Option<Role>, active: Option<bool>, limit: Option<nat>) {
    && MayManage(db, shop, actor, user, role, active)
    && (active == Some(true) && !db.members[(shop, user)].active ==>
          SeatAllowed(db, db.shops[shop], db.users[user], limit))
  }

  predicate MayRequest(db: Db, id: nat, shop: Shop, actor: User, to: User) {
    && id !in db.transfers && shop in db.shops && db.shops[shop] in db.owners
    && var org := db.shops[shop];
    && IsActive(db, shop, actor) && db.members[(shop, actor)].role == Owner
    && db.owners[org] == actor && to != actor && IsActive(db, shop, to) && to in db.users
    && !OwnsOther(db, to, org)
    && (forall t :: t in db.transfers && TransferOpen(db.transfers[t]) ==> db.transfers[t].to != to && db.transfers[t].org != org)
  }

  /** The test _complete_transfer makes once the row is processing. */
  predicate TransferStands(db: Db, t: Transfer) {
    t.org in db.owners && db.owners[t.org] == t.from && ActiveInOrg(db, t.to, t.org) && !OwnsOther(db, t.to, t.org)
  }

  /** The staff table after ownership of the given shops has moved. */
  function Handed(members: map<(Shop, User), Member>, shops: set<Shop>, from: User, to: User): map<(Shop, User), Member> {
    map k | k in members.Keys + (set s | s in shops :: (s, to)) ::
      if k.0 in shops && k.1 == to then Member(Owner, true)
      else if k.0 in shops && k.1 == from && members[k].role == Owner then members[k].(role := Admin)
      else members[k]
  }

  function WithTransfer(db: Db, id: nat, t: Transfer): Db {
    db.(transfers := db.transfers[id := t])
  }

  function WithShop(db: Db, org: Org, shop: Shop, owner: User): Db {
    db.(owners := db.owners[org := owner], shops := db.shops[shop := org], members := db.members[(shop, owner) := Member(Owner, true)])
  }

  function WithInvitation(db: Db, id: nat, invitation: Invitation): Db {
    db.(invitations := db.invitations[id := invitation])
  }

  function WithMember(db: Db, shop: Shop, user: User, member: Member): Db {
    db.(members := db.members[(shop, user) := member])
  }

  function Accepted(db: Db, i: nat, user: User): Db
    requires i in db.invitations
  {
    var invitation := db.invitations[i];
    var joined := if (invitation.shop, user) in db.members then db
                  else WithMember(db, invitation.shop, user, Member(invitation.role, true));
    WithInvitation(joined, i, invitation.(accepted := true))
  }

  function Updated(member: Member, role: Option<Role>, active: Option<bool>): Member {
    Member(if role.Some? then role.value else member.role, if active.Some? then active.value else member.active)
  }

  function HandOver(db: Db, org: Org, from: User, to: User): Db {
    db.(members := Handed(db.members, ShopsOf(db, org), from, to), owners := db.owners[org := to])
  }

  function Completion(db: Db, id: nat): Db
    requires id in db.transfers
  {
    var t := db.transfers[id];
    if t.status != Processing then db
    else if !TransferStands(db, t) then WithTransfer(db, id, t.(status := Failed))
    else HandOver(WithTransfer(db, id, t.(status := Completed)), t.org, t.from, t.to)
  }

  function Retry(db: Db, id: nat): Db
    requires id in db.transfers
  {
    var t := db.transfers[id];
    if t.status != Processing then db
    else if t.attempts >= MAX_TRANSFER_ATTEMPTS then WithTransfer(db, id, t.(status := Failed))
    else WithTransfer(db, id, t.(status := Pending,
      nextAttempt := Some(db.now + 60 * Minimum(60, Power2(Minimum(t.attempts, 6))))))
  }

  function Claim(db: Db, id: nat): Db
    requires id in db.transfers
  {
    var t := db.transfers[id];
    if t.status == Pending && (t.nextAttempt.None? || t.nextAttempt.value <= db.now)
    then WithTransfer(db, id, t.(status := Processing, attempts := t.attempts + 1))
    else db
  }

  predicate MayOpenShop(db: Db, user: User, org: Org, shop: Shop) {
    user in db.users && org !in db.owners && shop !in db.shops && !HasActiveMembership(db, user)
  }

  /** A refused request leaves the tables as they were. */
  function Apply(db: Db, step: Step): Db {
    match step
    case Wait(elapsed) => db.(now := db.now + elapsed)
    case SignUp(user, email) =>
      if user in db.users || email in db.users.Values then db else db.(users := db.users[user := email])
    case OpenShop(user, org, shop) =>
      if MayOpenShop(db, user, org, shop) then WithShop(db, org, shop, user) else db
    case AddShop(via, actor, shop, limit) =>
      if MayAddShop(db, via, actor, shop, limit) then WithShop(db, db.shops[via], shop, actor) else db
    case Invite(id, shop, actor, email, role, limit) =>
      if MayInvite(db, id, shop, actor, email, role, limit)
      then WithInvitation(db, id, Invitation(shop, email, role, db.now + INVITATION_LIFE, false)) else db
    case Accept(i, user) => if MayAccept(db, i, user) then Accepted(db, i, user) else db
    case UpdateMember(shop, actor, user, role, active, limit) =>
      if MayUpdate(db, shop, actor, user, role, active, limit)
      then WithMember(db, shop, user, Updated(db.members[(shop, user)], role, active)) else db
    case RequestTransfer(id, shop, actor, to) =>
      if MayRequest(db, id, shop, actor, to)
      then WithTransfer(db, id, Transfer(db.shops[shop], actor, to, Pending, 0, None)) else db
    case ClaimTransfer(id) => if id in db.transfers then Claim(db, id) else db
    case CompleteTransfer(id) => if id in db.transfers then Completion(db, id) else db
    case RetryTransfer(id) => if id in db.transfers then Retry(db, id) else db
  }

  function Execute(db: Db, steps: seq<Step>): Db
    decreases |steps|
  {
    if steps == [] then db else Execute(Apply(db, steps[0]), steps[1..])
  }

  const Empty := Db(map[], map[], map[], map[], map[], map[], 0)

  // ---- the single owner ----

  /** In every shop the organization's owner is an active member with the owner role. */
  predicate ShopsOwned(db: Db) {
    forall s :: s in db.shops ==>
      && db.shops[s] in db.owners && IsActive(db, s, db.owners[db.shops[s]])
      && db.members[(s, db.owners[db.shops[s]])].role == Owner
  }

  /** Nobody else has the owner role. */
  predicate OwnersOnly(db: Db) {
    forall k :: k in db.members && db.members[k].role == Owner ==>
      k.0 in db.shops && db.shops[k.0] in db.owners && k.1 == db.owners[db.shops[k.0]]
  }

  predicate MembersKnown(db: Db) {
    forall k :: k in db.members ==> k.0 in db.shops && k.1 in db.users
  }

  predicate HasShop(db: Db, org: Org) {
    exists s :: s in db.shops && db.shops[s] == org
  }

  /** An owner is a known user who owns one organization, with at least one shop. */
  predicate OwnersKnown(db: Db) {
    && (forall o :: o in db.owners ==> db.owners[o] in db.users && HasShop(db, o))
    && (forall a, b :: a in db.owners && b in db.owners && a != b ==> db.owners[a] != db.owners[b])
  }

  predicate RequestsSane(db: Db) {
    && (forall i :: i in db.invitations ==> db.invitations[i].role != Owner && db.invitations[i].shop in db.shops)
    && (forall t :: t in db.transfers ==> db.transfers[t].to != db.transfers[t].from && db.transfers[t].to in db.users)
  }

  predicate Inv(db: Db) {
    ShopsOwned(db) && OwnersOnly(db) && MembersKnown(db) && OwnersKnown(db) && RequestsSane(db)
  }

  lemma HandOverShops(db: Db, org: Org, from: User, to: User)
    requires ShopsOwned(db) && org in db.owners && db.owners[org] == from && from != to
    ensures ShopsOwned(HandOver(db, org, from, to))
  {
    var after := HandOver(db, org, from, to);
    forall s | s in after.shops
      ensures after.shops[s] in after.owners && IsActive(after, s, after.owners[after.shops[s]])
      ensures after.members[(s, after.owners[after.shops[s]])].role == Owner
    {
      if db.shops[s] == org {
        assert s in ShopsOf(db, org);
        assert (s, to) in after.members;
      }
    }
  }

  lemma HandOverOwners(db: Db, org: Org, from: User, to: User)
    requires OwnersOnly(db) && org in db.owners && db.owners[org] == from && from != to
    ensures OwnersOnly(HandOver(db, org, from, to))
  {
  }

  /** Owners on record stay so while no ownership, and no shop, is taken away. */
  lemma OwnersKnownKept(db: Db, after: Db)
    requires OwnersKnown(db) && after.owners == db.owners && db.users.Keys <= after.users.Keys
    requires forall s :: s in db.shops ==> s in after.shops && after.shops[s] == db.shops[s]
    ensures OwnersKnown(after)
  {
    forall o | o in after.owners ensures HasShop(after, o) {
      var s :| s in db.shops && db.shops[s] == o;
      assert after.shops[s] == o;
    }
  }

  lemma HandOverOwnersKnown(db: Db, org: Org, from: User, to: User)
    requires OwnersKnown(db) && org in db.owners && to in db.users && !OwnsOther(db, to, org)
    ensures OwnersKnown(HandOver(db, org, from, to))
  {
    var after := HandOver(db, org, from, to);
    forall o | o in after.owners ensures HasShop(after, o) {
      assert HasShop(db, o);
    }
  }

  lemma HandOverMembersKnown(db: Db, org: Org, from: User, to: User)
    requires MembersKnown(db) && to in db.users
    ensures MembersKnown(HandOver(db, org, from, to))
  {
  }

  lemma HandOverKeepsInv(db: Db, org: Org, from: User, to: User)
    requires Inv(db) && org in db.owners && db.owners[org] == from && from != to && to in db.users && !OwnsOther(db, to, org)
    ensures Inv(HandOver(db, org, from, to))
  {
    HandOverShops(db, org, from, to);
    HandOverOwners(db, org, from, to);
    HandOverOwnersKnown(db, org, from, to);
    HandOverMembersKnown(db, org, from, to);
  }

  /** A change that leaves shops, members and owners alone can only spoil the requests. */
  lemma RequestsKeepInv(db: Db, after: Db)
    requires Inv(db) && RequestsSane(after)
    requires after == db.(invitations := after.invitations, transfers := after.transfers)
    ensures Inv(after)
  {
    OwnersKnownKept(db, after);
  }

  lemma TransferKeepsInv(db: Db, id: nat, t: Transfer)
    requires Inv(db) && t.to != t.from && t.to in db.users
    ensures Inv(WithTransfer(db, id, t))
  {
    RequestsKeepInv(db, WithTransfer(db, id, t));
  }

  lemma CompletionKeepsInv(db: Db, id: nat)
    requires Inv(db) && id in db.transfers
    ensures Inv(Completion(db, id))
  {
    var t := db.transfers[id];
    if t.status == Processing {
      if TransferStands(db, t) {
        var done := WithTransfer(db, id, t.(status := Completed));
        TransferKeepsInv(db, id, t.(status := Completed));
        HandOverKeepsInv(done, t.org, t.from, t.to);
      } else {
        TransferKeepsInv(db, id, t.(status := Failed));
      }
    }
  }

  predicate FreeOwner(db: Db, org: Org, owner: User) {
    if org in db.owners then db.owners[org] == owner else forall o :: o in db.owners ==> db.owners[o] != owner
  }

  lemma WithShopOwnersKnown(db: Db, org: Org, shop: Shop, owner: User)
    requires OwnersKnown(db) && shop !in db.shops && owner in db.users && FreeOwner(db, org, owner)
    ensures OwnersKnown(WithShop(db, org, shop, owner))
  {
    var after := WithShop(db, org, shop, owner);
    forall o | o in after.owners ensures HasShop(after, o) {
      if o == org {
        assert after.shops[shop] == o;
      } else {
        var s :| s in db.shops && db.shops[s] == o;
        assert after.shops[s] == o;
      }
    }
  }

  lemma WithShopOwned(db: Db, org: Org, shop: Shop, owner: User)
    requires ShopsOwned(db) && shop !in db.shops && (org in db.owners ==> db.owners[org] == owner)
    ensures ShopsOwned(WithShop(db, org, shop, owner))
  {
  }

  lemma WithShopOwnersOnly(db: Db, org: Org, shop: Shop, owner: User)
    requires OwnersOnly(db) && shop !in db.shops && (org in db.owners ==> db.owners[org] == owner)
    ensures OwnersOnly(WithShop(db, org, shop, owner))
  {
  }

  lemma WithShopKeepsInv(db: Db, org: Org, shop: Shop, owner: User)
    requires Inv(db) && shop !in db.shops && owner in db.users && FreeOwner(db, org, owner)
    ensures Inv(WithShop(db, org, shop, owner))
  {
    WithShopOwnersKnown(db, org, shop, owner);
    WithShopOwned(db, org, shop, owner);
    WithShopOwnersOnly(db, org, shop, owner);
  }

  /** Whoever owns an organization is an active member somewhere. */
  lemma OwnersAreActive(db: Db, org: Org)
    requires Inv(db) && org in db.owners
    ensures HasActiveMembership(db, db.owners[org])
  {
    var s :| s in db.shops && db.shops[s] == org;
    var k := (s, db.owners[org]);
    assert k in db.members && db.members[k].active && k.1 == db.owners[org];
  }

  lemma MemberShopsOwned(db: Db, shop: Shop, user: User, member: Member)
    requires ShopsOwned(db) && ((shop, user) in db.members ==> db.members[(shop, user)].role != Owner)
    ensures ShopsOwned(WithMember(db, shop, user, member))
  {
  }

  lemma MemberKeepsInv(db: Db, shop: Shop, user: User, member: Member)
    requires Inv(db) && shop in db.shops && user in db.users && member.role != Owner
    requires (shop, user) in db.members ==> db.members[(shop, user)].role != Owner
    ensures Inv(WithMember(db, shop, user, member))
  {
    MemberShopsOwned(db, shop, user, member);
    OwnersKnownKept(db, WithMember(db, shop, user, member));
  }

  lemma InvitationKeepsInv(db: Db, id: nat, invitation: Invitation)
    requires Inv(db) && invitation.role != Owner && invitation.shop in db.shops
    ensures Inv(WithInvitation(db, id, invitation))
  {
    RequestsKeepInv(db, WithInvitation(db, id, invitation));
  }

  lemma AcceptedKeepsInv(db: Db, i: nat, user: User)
    requires Inv(db) && MayAccept(db, i, user)
    ensures Inv(Accepted(db, i, user))
  {
    var invitation := db.invitations[i];
    if (invitation.shop, user) in db.members {
      InvitationKeepsInv(db, i, invitation.(accepted := true));
    } else {
      MemberKeepsInv(db, invitation.shop, user, Member(invitation.role, true));
      InvitationKeepsInv(WithMember(db, invitation.shop, user, Member(invitation.role, true)), i, invitation.(accepted := true));
    }
  }

  lemma QuietKeepsInv(db: Db, after: Db)
    requires Inv(db) && db.users.Keys <= after.users.Keys
    requires after == db.(users := after.users, now := after.now)
    ensures Inv(after)
  {
    OwnersKnownKept(db, after);
  }

  lemma RequestEffect(db: Db, id: nat, shop: Shop, actor: User, to: User)
    ensures var after := Apply(db, RequestTransfer(id, shop, actor, to));
      if MayRequest(db, id, shop, actor, to)
      then after == WithTransfer(db, id, Transfer(db.shops[shop], actor, to, Pending, 0, None)) else after == db
  {
  }

  lemma OtherStepsLeaveTransfers(db: Db, step: Step)
    ensures Apply(db, step).transfers == db.transfers
      || step.RequestTransfer? || step.ClaimTransfer? || step.CompleteTransfer? || step.RetryTransfer?
  {
  }

  lemma InviteEffect(db: Db, id: nat, shop: Shop, actor: User, email: string, role: Role, limit: Option<nat>)
    ensures var after := Apply(db, Invite(id, shop, actor, email, role, limit));
      after == db || (after == WithInvitation(db, id, Invitation(shop, email, role, db.now + INVITATION_LIFE, false))
        && id !in db.invitations && shop in db.shops && role != Owner && SeatAllowed(db, db.shops[shop], email, limit))
  {
  }

  lemma InviteKeepsInv(db: Db, id: nat, shop: Shop, actor: User, email: string, role: Role, limit: Option<nat>)
    requires Inv(db)
    ensures Inv(Apply(db, Invite(id, shop, actor, email, role, limit)))
  {
    InviteEffect(db, id, shop, actor, email, role, limit);
    if role != Owner && shop in db.shops {
      InvitationKeepsInv(db, id, Invitation(shop, email, role, db.now + INVITATION_LIFE, false));
    }
  }

  lemma AcceptEffect(db: Db, i: nat, user: User)
    ensures Apply(db, Accept(i, user)) == if MayAccept(db, i, user) then Accepted(db, i, user) else db
  {
  }

  lemma AcceptKeepsInv(db: Db, i: nat, user: User)
    requires Inv(db)
    ensures Inv(Apply(db, Accept(i, user)))
  {
    AcceptEffect(db, i, user);
    if MayAccept(db, i, user) { AcceptedKeepsInv(db, i, user); }
  }

  lemma UpdateEffect(
      db: Db, shop: Shop, actor: User, user: User, role: Option<Role>, active: Option<bool>, limit: Option<nat>)
    ensures var after := Apply(db, UpdateMember(shop, actor, user, role, active, limit));
      after == db || (MayUpdate(db, shop, actor, user, role, active, limit)
        && after == WithMember(db, shop, user, Updated(db.members[(shop, user)], role, active)))
  {
  }

  lemma UpdateKeepsInv(
      db: Db, shop: Shop, actor: User, user: User, role: Option<Role>, active: Option<bool>, limit: Option<nat>)
    requires Inv(db)
    ensures Inv(Apply(db, UpdateMember(shop, actor, user, role, active, limit)))
  {
    UpdateEffect(db, shop, actor, user, role, active, limit);
    if MayUpdate(db, shop, actor, user, role, active, limit) {
      MemberKeepsInv(db, shop, user, Updated(db.members[(shop, user)], role, active));
    }
  }

  lemma StaffStepKeepsInv(db: Db, step: Step)
    requires Inv(db) && (step.Invite? || step.Accept? || step.UpdateMember?)
    ensures Inv(Apply(db, step))
  {
    match step
    case Invite(id, shop, actor, email, role, limit) => InviteKeepsInv(db, id, shop, actor, email, role, limit);
    case Accept(i, user) => AcceptKeepsInv(db, i, user);
    case UpdateMember(shop, actor, user, role, active, limit) => UpdateKeepsInv(db, shop, actor, user, role, active, limit);
  }

  lemma RequestKeepsInv(db: Db, id: nat, shop: Shop, actor: User, to: User)
    requires Inv(db)
    ensures Inv(Apply(db, RequestTransfer(id, shop, actor, to)))
  {
    RequestEffect(db, id, shop, actor, to);
    if MayRequest(db, id, shop, actor, to) {
      TransferKeepsInv(db, id, Transfer(db.shops[shop], actor, to, Pending, 0, None));
    }
  }

  lemma ClaimKeepsInv(db: Db, id: nat)
    requires Inv(db) && id in db.transfers
    ensures Inv(Claim(db, id))
  {
    if Claim(db, id) != db { TransferKeepsInv(db, id, Claim(db, id).transfers[id]); }
  }

  lemma RetryKeepsInv(db: Db, id: nat)
    requires Inv(db) && id in db.transfers
    ensures Inv(Retry(db, id))
  {
    if Retry(db, id) != db { TransferKeepsInv(db, id, Retry(db, id).transfers[id]); }
  }

  lemma TransferStepKeepsInv(db: Db, step: Step)
    requires Inv(db) && (step.RequestTransfer? || step.ClaimTransfer? || step.CompleteTransfer? || step.RetryTransfer?)
    ensures Inv(Apply(db, step))
  {
    match step
    case RequestTransfer(id, shop, actor, to) => RequestKeepsInv(db, id, shop, actor, to);
    case ClaimTransfer(id) => if id in db.transfers { ClaimKeepsInv(db, id); }
    case CompleteTransfer(id) => if id in db.transfers { CompletionKeepsInv(db, id); }
    case RetryTransfer(id) => if id in db.transfers { RetryKeepsInv(db, id); }
  }

  /** A user with no active membership owns nothing yet. */
  lemma NewcomerIsFree(db: Db, org: Org, user: User)
    requires Inv(db) && org !in db.owners && !HasActiveMembership(db, user)
    ensures FreeOwner(db, org, user)
  {
    forall o | o in db.owners ensures db.owners[o] != user { OwnersAreActive(db, o); }
  }

  lemma OpenShopKeepsInv(db: Db, user: User, org: Org, shop: Shop)
    requires Inv(db)
    ensures Inv(Apply(db, OpenShop(user, org, shop)))
  {
    if MayOpenShop(db, user, org, shop) {
      NewcomerIsFree(db, org, user);
      WithShopKeepsInv(db, org, shop, user);
    }
  }

  lemma AddShopEffect(db: Db, via: Shop, actor: User, shop: Shop, limit: Option<nat>)
    ensures var after := Apply(db, AddShop(via, actor, shop, limit));
      if MayAddShop(db, via, actor, shop, limit) then after == WithShop(db, db.shops[via], shop, actor) else after == db
  {
  }

  lemma AddShopKeepsInv(db: Db, via: Shop, actor: User, shop: Shop, limit: Option<nat>)
    requires Inv(db)
    ensures Inv(Apply(db, AddShop(via, actor, shop, limit)))
  {
    AddShopEffect(db, via, actor, shop, limit);
    if MayAddShop(db, via, actor, shop, limit) { WithShopKeepsInv(db, db.shops[via], shop, actor); }
  }

  lemma ShopStepKeepsInv(db: Db, step: Step)
    requires Inv(db) && (step.OpenShop? || step.AddShop?)
    ensures Inv(Apply(db, step))
  {
    match step
    case OpenShop(user, org, shop) => OpenShopKeepsInv(db, user, org, shop);
    case AddShop(via, actor, shop, limit) => AddShopKeepsInv(db, via, actor, shop, limit);
  }

  lemma StepKeepsInv(db: Db, step: Step)
    requires Inv(db)
    ensures Inv(Apply(db, step))
  {
    if step.Wait? || step.SignUp? {
      QuietKeepsInv(db, Apply(db, step));
    } else if step.OpenShop? || step.AddShop? {
      ShopStepKeepsInv(db, step);
    } else if step.Invite? || step.Accept? || step.UpdateMember? {
      StaffStepKeepsInv(db, step);
    } else {
      TransferStepKeepsInv(db, step);
    }
  }

  /** Every run keeps the ownership invariant. */
  lemma {:induction false} SingleOwnerAlways(db: Db, steps: seq<Step>)
    requires Inv(db)
    ensures Inv(Execute(db, steps))
    decreases |steps|
  {
    if steps != [] {
      StepKeepsInv(db, steps[0]);
      SingleOwnerAlways(Apply(db, steps[0]), steps[1..]);
    }
  }

  /** Over every run from an empty database, each shop has exactly one owner, active and on record. */
  lemma SingleOwnerFromEmpty(steps: seq<Step>, shop: Shop)
    requires shop in Execute(Empty, steps).shops
    ensures var db := Execute(Empty, steps);
      && db.shops[shop] in db.owners
      && IsActive(db, shop, db.owners[db.shops[shop]])
      && forall user :: (shop, user) in db.members ==>
           (db.members[(shop, user)].role == Owner <==> user == db.owners[db.shops[shop]])
  {
    SingleOwnerAlways(Empty, steps);
  }

  /** Handing over ownership leaves everybody else's row as it was, and every other organization. */
  lemma HandOverSparesOthers(db: Db, org: Org, from: User, to: User, shop: Shop, user: User)
    requires user !in {from, to} || (shop in db.shops && db.shops[shop] != org)
    ensures var after := HandOver(db, org, from, to);
      && ((shop, user) in after.members <==> (shop, user) in db.members)
      && ((shop, user) in db.members ==> after.members[(shop, user)] == db.members[(shop, user)])
  {
  }

  /** Whatever becomes of a transfer, only its two parties' rows in its organization can change. */
  lemma ThirdPartiesUntouched(db: Db, id: nat, shop: Shop, user: User)
    requires Inv(db) && id in db.transfers
    requires user !in {db.transfers[id].from, db.transfers[id].to} || (shop in db.shops && db.shops[shop] != db.transfers[id].org)
    ensures var after := Completion(db, id);
      && ((shop, user) in after.members <==> (shop, user) in db.members)
      && ((shop, user) in db.members ==> after.members[(shop, user)] == db.members[(shop, user)])
  {
    var t := db.transfers[id];
    HandOverSparesOthers(WithTransfer(db, id, t.(status := Completed)), t.org, t.from, t.to, shop, user);
  }

  lemma RequestStaysFinal(db: Db, request: nat, shop: Shop, actor: User, to: User, id: nat)
    requires id in db.transfers
    ensures id in Apply(db, RequestTransfer(request, shop, actor, to)).transfers
    ensures Apply(db, RequestTransfer(request, shop, actor, to)).transfers[id] == db.transfers[id]
  {
    RequestEffect(db, request, shop, actor, to);
  }

  lemma ClosedIsLeft(db: Db, id: nat)
    requires id in db.transfers && !TransferOpen(db.transfers[id])
    ensures Claim(db, id) == db && Completion(db, id) == db && Retry(db, id) == db
  {
  }

  lemma OnlyOneMoves(db: Db, moved: nat, id: nat)
    requires moved in db.transfers && id in db.transfers && id != moved
    ensures id in Claim(db, moved).transfers && Claim(db, moved).transfers[id] == db.transfers[id]
    ensures id in Completion(db, moved).transfers && Completion(db, moved).transfers[id] == db.transfers[id]
    ensures id in Retry(db, moved).transfers && Retry(db, moved).transfers[id] == db.transfers[id]
  {
  }

  lemma ClosedStepStaysFinal(db: Db, step: Step, id: nat)
    requires id in db.transfers && !TransferOpen(db.transfers[id])
    requires step.ClaimTransfer? || step.CompleteTransfer? || step.RetryTransfer?
    ensures id in Apply(db, step).transfers && Apply(db, step).transfers[id] == db.transfers[id]
  {
    if step.id == id { ClosedIsLeft(db, id); } else if step.id in db.transfers { OnlyOneMoves(db, step.id, id); }
  }

  lemma TransferStaysFinal(db: Db, step: Step, id: nat)
    requires id in db.transfers && !TransferOpen(db.transfers[id])
    ensures id in Apply(db, step).transfers && Apply(db, step).transfers[id] == db.transfers[id]
  {
    if step.RequestTransfer? {
      RequestStaysFinal(db, step.id, step.shop, step.actor, step.to, id);
    } else if step.ClaimTransfer? || step.CompleteTransfer? || step.RetryTransfer? {
      ClosedStepStaysFinal(db, step, id);
    } else {
      OtherStepsLeaveTransfers(db, step);
    }
  }

  /** A completed or failed transfer never moves again. */
  lemma {:induction false} TransferIsFinal(db: Db, steps: seq<Step>, id: nat)
    requires id in db.transfers && !TransferOpen(db.transfers[id])
    ensures id in Execute(db, steps).transfers && Execute(db, steps).transfers[id] == db.transfers[id]
    decreases |steps|
  {
    if steps != [] {
      TransferStaysFinal(db, steps[0], id);
      TransferIsFinal(Apply(db, steps[0]), steps[1..], id);
    }
  }

  // ---- seat caps ----

  lemma OneMoreSeat(before: set<string>, after: set<string>, email: string, limit: Option<nat>)
    requires after <= before + {email}
    requires email in before || limit.None? || |before| < limit.value
    ensures limit.Some? ==> |after| <= |before| || |after| <= limit.value
  {
    if email in before {
      assert before + {email} == before;
      SubsetIsNoLarger(after, before);
    } else {
      SubsetIsNoLarger(after, before + {email});
    }
  }

  /** The row of a member, or of an invitation, that takes a seat. */
  predicate Sits(db: Db, org: Org, k: (Shop, User)) {
    k in db.members && db.members[k].active && k.0 in db.shops && db.shops[k.0] == org && k.1 in db.users
  }

  predicate Awaits(db: Db, org: Org, i: nat) {
    i in db.invitations && Open(db, i) && db.invitations[i].shop in db.shops && db.shops[db.invitations[i].shop] == org
  }

  lemma SeatOfMember(db: Db, org: Org, k: (Shop, User))
    requires Sits(db, org, k)
    ensures Normalize(db.users[k.1]) in Seats(db, org)
  {
    assert Normalize(db.users[k.1]) in ActiveEmails(db, org);
  }

  lemma SeatOfInvitation(db: Db, org: Org, i: nat)
    requires Awaits(db, org, i)
    ensures Normalize(db.invitations[i].email) in Seats(db, org)
  {
    assert Normalize(db.invitations[i].email) in InvitedEmails(db, org);
  }

  /** If every row that takes a seat afterwards has an address seated before, or the extra one, that bounds the seats. */
  lemma SeatsFrom(db: Db, after: Db, org: Org, extra: set<string>)
    requires forall k :: Sits(after, org, k) ==> Normalize(after.users[k.1]) in Seats(db, org) + extra
    requires forall i :: Awaits(after, org, i) ==> Normalize(after.invitations[i].email) in Seats(db, org) + extra
    ensures Seats(after, org) <= Seats(db, org) + extra
  {
    forall e | e in Seats(after, org) ensures e in Seats(db, org) + extra {
      if e in ActiveEmails(after, org) {
        var k :| k in after.members && after.members[k].active && k.0 in after.shops && after.shops[k.0] == org
          && k.1 in after.users && e == Normalize(after.users[k.1]);
        assert Sits(after, org, k);
      } else {
        var i :| i in after.invitations && Open(after, i) && after.invitations[i].shop in after.shops
          && after.shops[after.invitations[i].shop] == org && e == Normalize(after.invitations[i].email);
        assert Awaits(after, org, i);
      }
    }
  }

  /** Rows that were there before keep their seats; only new rows need a reason. */
  lemma SeatsOfSameRows(db: Db, after: Db, org: Org, extra: set<string>)
    requires forall k :: Sits(after, org, k) && !Sits(db, org, k) ==> Normalize(after.users[k.1]) in Seats(db, org) + extra
    requires forall i :: Awaits(after, org, i) && !Awaits(db, org, i) ==> Normalize(after.invitations[i].email) in Seats(db, org) + extra
    requires forall k :: Sits(after, org, k) && Sits(db, org, k) ==> after.users[k.1] == db.users[k.1]
    requires forall i :: Awaits(after, org, i) && Awaits(db, org, i) ==> after.invitations[i].email == db.invitations[i].email
    ensures Seats(after, org) <= Seats(db, org) + extra
  {
    forall k | Sits(after, org, k) ensures Normalize(after.users[k.1]) in Seats(db, org) + extra {
      if Sits(db, org, k) { SeatOfMember(db, org, k); }
    }
    forall i | Awaits(after, org, i) ensures Normalize(after.invitations[i].email) in Seats(db, org) + extra {
      if Awaits(db, org, i) { SeatOfInvitation(db, org, i); }
    }
    SeatsFrom(db, after, org, extra);
  }

  /** Accepting an invitation never enlarges the set of seats. */
  lemma AcceptAddsNoSeat(db: Db, i: nat, user: User, org: Org)
    requires MayAccept(db, i, user)
    ensures Seats(Accepted(db, i, user), org) <= Seats(db, org)
  {
    if db.shops[db.invitations[i].shop] == org { SeatOfInvitation(db, org, i); }
    SeatsOfSameRows(db, Accepted(db, i, user), org, {});
  }

  lemma HandOverAddsNoSeat(db: Db, org: Org, from: User, to: User, watched: Org)
    requires ActiveInOrg(db, to, org) && to in db.users
    ensures Seats(HandOver(db, org, from, to), watched) <= Seats(db, watched)
  {
    var s :| s in db.shops && db.shops[s] == org && IsActive(db, s, to);
    if org == watched { SeatOfMember(db, watched, (s, to)); }
    SeatsOfSameRows(db, HandOver(db, org, from, to), watched, {});
  }

  lemma CompletionAddsNoSeat(db: Db, id: nat, org: Org)
    requires Inv(db) && id in db.transfers
    ensures Seats(Completion(db, id), org) <= Seats(db, org)
  {
    var t := db.transfers[id];
    var done := WithTransfer(db, id, t.(status := Completed));
    assert Seats(done, org) == Seats(db, org);
    if t.status == Processing && TransferStands(db, t) {
      var s :| s in db.shops && db.shops[s] == t.org && IsActive(db, s, t.to);
      assert IsActive(done, s, t.to);
      HandOverAddsNoSeat(done, t.org, t.from, t.to, org);
    }
  }

  lemma NewShopAddsNoSeat(db: Db, org: Org, shop: Shop, owner: User, watched: Org)
    requires MembersKnown(db) && RequestsSane(db) && shop !in db.shops && owner in db.users
    requires org == watched ==> exists k :: Sits(db, org, k) && k.1 == owner
    ensures Seats(WithShop(db, org, shop, owner), watched) <= Seats(db, watched)
  {
    if org == watched {
      var k :| Sits(db, org, k) && k.1 == owner;
      SeatOfMember(db, org, k);
    }
    SeatsOfSameRows(db, WithShop(db, org, shop, owner), watched, {});
  }

  /** Apart from invitations and re-activations no step gives any organization a new seat. */
  lemma AddShopAddsNoSeat(db: Db, via: Shop, actor: User, shop: Shop, limit: Option<nat>, org: Org)
    requires Inv(db)
    ensures Seats(Apply(db, AddShop(via, actor, shop, limit)), org) <= Seats(db, org)
  {
    AddShopEffect(db, via, actor, shop, limit);
    if MayAddShop(db, via, actor, shop, limit) {
      assert Sits(db, db.shops[via], (via, actor));
      NewShopAddsNoSeat(db, db.shops[via], shop, actor, org);
    }
  }

  lemma OthersAddNoSeat(db: Db, step: Step, org: Org)
    requires Inv(db) && org in db.owners && !step.Invite? && !step.UpdateMember?
    ensures Seats(Apply(db, step), org) <= Seats(db, org)
  {
    match step
    case CompleteTransfer(id) => if id in db.transfers { CompletionAddsNoSeat(db, id, org); }
    case Accept(i, user) => if MayAccept(db, i, user) { AcceptAddsNoSeat(db, i, user, org); }
    case OpenShop(user, o, shop) => if MayOpenShop(db, user, o, shop) { NewShopAddsNoSeat(db, o, shop, user, org); }
    case AddShop(via, actor, shop, limit) => AddShopAddsNoSeat(db, via, actor, shop, limit, org);
    case _ => QuietAddsNoSeat(db, step, org);
  }

  lemma SameStaffSameSeats(db: Db, after: Db, org: Org)
    requires after.members == db.members && after.invitations == db.invitations && after.shops == db.shops
    requires db.now <= after.now && forall u :: u in db.users ==> u in after.users && after.users[u] == db.users[u]
    requires MembersKnown(db)
    ensures Seats(after, org) <= Seats(db, org)
  {
    SeatsOfSameRows(db, after, org, {});
  }

  lemma SignUpAddsNoSeat(db: Db, user: User, email: string, org: Org)
    requires Inv(db)
    ensures Seats(Apply(db, SignUp(user, email)), org) <= Seats(db, org)
  {
    var after := Apply(db, SignUp(user, email));
    if after != db {
      NewUserAddsNoSeat(db, user, email, org);
    }
  }

  lemma NewUserAddsNoSeat(db: Db, user: User, email: string, org: Org)
    requires MembersKnown(db) && user !in db.users
    ensures Seats(db.(users := db.users[user := email]), org) <= Seats(db, org)
  {
    SameStaffSameSeats(db, db.(users := db.users[user := email]), org);
  }

  lemma WaitAddsNoSeat(db: Db, elapsed: nat, org: Org)
    requires Inv(db)
    ensures Seats(Apply(db, Wait(elapsed)), org) <= Seats(db, org)
  {
    SameStaffSameSeats(db, Apply(db, Wait(elapsed)), org);
  }

  lemma TransferAddsNoSeat(db: Db, id: nat, t: Transfer, org: Org)
    requires Inv(db)
    ensures Seats(WithTransfer(db, id, t), org) <= Seats(db, org)
  {
    SameStaffSameSeats(db, WithTransfer(db, id, t), org);
  }

  lemma QuietAddsNoSeat(db: Db, step: Step, org: Org)
    requires Inv(db)
    requires step.Wait? || step.SignUp? || step.RequestTransfer? || step.ClaimTransfer? || step.RetryTransfer?
    ensures Seats(Apply(db, step), org) <= Seats(db, org)
  {
    match step
    case Wait(elapsed) => WaitAddsNoSeat(db, elapsed, org);
    case SignUp(user, email) => SignUpAddsNoSeat(db, user, email, org);
    case RequestTransfer(id, shop, actor, to) =>
      RequestEffect(db, id, shop, actor, to);
      if MayRequest(db, id, shop, actor, to) {
        TransferAddsNoSeat(db, id, Transfer(db.shops[shop], actor, to, Pending, 0, None), org);
      }
    case ClaimTransfer(id) =>
      if id in db.transfers && Claim(db, id) != db { TransferAddsNoSeat(db, id, Claim(db, id).transfers[id], org); }
    case RetryTransfer(id) =>
      if id in db.transfers && Retry(db, id) != db { TransferAddsNoSeat(db, id, Retry(db, id).transfers[id], org); }
  }

  /** An invitation adds at most the address it was checked for. */
  lemma InviteAddsOneSeat(db: Db, id: nat, invitation: Invitation, org: Org, limit: Option<nat>)
    requires id !in db.invitations
    requires invitation.shop in db.shops && db.shops[invitation.shop] == org ==> SeatAllowed(db, org, invitation.email, limit)
    ensures var seats, after := Seats(db, org), Seats(WithInvitation(db, id, invitation), org);
      && after <= seats + (if invitation.shop in db.shops && db.shops[invitation.shop] == org then {Normalize(invitation.email)} else {})
      && (limit.Some? ==> |after| <= |seats| || |after| <= limit.value)
  {
    var after := WithInvitation(db, id, invitation);
    if invitation.shop in db.shops && db.shops[invitation.shop] == org {
      SeatsOfSameRows(db, after, org, {Normalize(invitation.email)});
      OneMoreSeat(Seats(db, org), Seats(after, org), Normalize(invitation.email), limit);
    } else {
      SeatsOfSameRows(db, after, org, {});
      SubsetIsNoLarger(Seats(after, org), Seats(db, org));
    }
  }

  /** A membership update adds at most the address of a member it re-activates. */
  lemma UpdateAddsOneSeat(db: Db, shop: Shop, user: User, member: Member, org: Org, limit: Option<nat>)
    requires (shop, user) in db.members && shop in db.shops && user in db.users
    requires member.active && !db.members[(shop, user)].active ==> SeatAllowed(db, db.shops[shop], db.users[user], limit)
    ensures var seats, after := Seats(db, org), Seats(WithMember(db, shop, user, member), org);
      limit.Some? ==> |after| <= |seats| || |after| <= limit.value
  {
    var after := WithMember(db, shop, user, member);
    if member.active && !db.members[(shop, user)].active && db.shops[shop] == org {
      SeatsOfSameRows(db, after, org, {Normalize(db.users[user])});
      OneMoreSeat(Seats(db, org), Seats(after, org), Normalize(db.users[user]), limit);
    } else {
      SeatsOfSameRows(db, after, org, {});
      SubsetIsNoLarger(Seats(after, org), Seats(db, org));
    }
  }

  predicate Capped(db: Db, after: Db, org: Org, cap: nat) {
    |Seats(after, org)| <= |Seats(db, org)| || |Seats(after, org)| <= cap
  }

  lemma InviteStaysCapped(db: Db, id: nat, shop: Shop, actor: User, email: string, role: Role, org: Org, cap: nat)
    ensures Capped(db, Apply(db, Invite(id, shop, actor, email, role, Some(cap))), org, cap)
  {
    InviteEffect(db, id, shop, actor, email, role, Some(cap));
    if id !in db.invitations && shop in db.shops && SeatAllowed(db, db.shops[shop], email, Some(cap)) {
      InviteAddsOneSeat(db, id, Invitation(shop, email, role, db.now + INVITATION_LIFE, false), org, Some(cap));
    }
  }

  lemma UpdateStaysCapped(
      db: Db, shop: Shop, actor: User, user: User, role: Option<Role>, active: Option<bool>, org: Org, cap: nat)
    ensures Capped(db, Apply(db, UpdateMember(shop, actor, user, role, active, Some(cap))), org, cap)
  {
    UpdateEffect(db, shop, actor, user, role, active, Some(cap));
    if (shop, user) in db.members && shop in db.shops && user in db.users
       && (active == Some(true) && !db.members[(shop, user)].active ==> SeatAllowed(db, db.shops[shop], db.users[user], Some(cap))) {
      UpdateAddsOneSeat(db, shop, user, Updated(db.members[(shop, user)], role, active), org, Some(cap));
    }
  }

  lemma OthersStayCapped(db: Db, step: Step, org: Org, cap: nat)
    requires Inv(db) && org in db.owners && !step.Invite? && !step.UpdateMember?
    ensures Capped(db, Apply(db, step), org, cap)
  {
    OthersAddNoSeat(db, step, org);
    SubsetIsNoLarger(Seats(Apply(db, step), org), Seats(db, org));
  }

  /** No step takes an organization past the larger of its present seats and the limit in force. */
  lemma SeatsStayCapped(db: Db, step: Step, org: Org, cap: nat)
    requires Inv(db) && org in db.owners
    requires step.Invite? || step.UpdateMember? ==> step.seatLimit == Some(cap)
    ensures Capped(db, Apply(db, step), org, cap)
  {
    match step
    case Invite(id, shop, actor, email, role, limit) => InviteStaysCapped(db, id, shop, actor, email, role, org, cap);
    case UpdateMember(shop, actor, user, role, active, limit) =>
      UpdateStaysCapped(db, shop, actor, user, role, active, org, cap);
    case _ => OthersStayCapped(db, step, org, cap);
  }

  // ---- open transfers ----

  /** No two open transfers concern the same organization, or hand over to the same user. */
  predicate TransfersApart(db: Db) {
    forall a, b :: a in db.transfers && b in db.transfers && a != b && TransferOpen(db.transfers[a]) && TransferOpen(db.transfers[b]) ==>
      db.transfers[a].org != db.transfers[b].org && db.transfers[a].to != db.transfers[b].to
  }

  lemma MovedTransferStaysApart(db: Db, id: nat, t: Transfer)
    requires TransfersApart(db) && id in db.transfers && t.org == db.transfers[id].org && t.to == db.transfers[id].to
    requires TransferOpen(t) ==> TransferOpen(db.transfers[id])
    ensures TransfersApart(WithTransfer(db, id, t))
  {
  }

  lemma RequestStaysApart(db: Db, id: nat, shop: Shop, actor: User, to: User)
    requires TransfersApart(db)
    ensures TransfersApart(Apply(db, RequestTransfer(id, shop, actor, to)))
  {
    RequestEffect(db, id, shop, actor, to);
  }

  lemma CompletionStaysApart(db: Db, id: nat)
    requires TransfersApart(db) && id in db.transfers
    ensures TransfersApart(Completion(db, id))
  {
    var t := db.transfers[id];
    MovedTransferStaysApart(db, id, t.(status := Failed));
    MovedTransferStaysApart(db, id, t.(status := Completed));
  }

  lemma ClaimStaysApart(db: Db, id: nat)
    requires TransfersApart(db) && id in db.transfers
    ensures TransfersApart(Claim(db, id))
  {
    if Claim(db, id) != db { MovedTransferStaysApart(db, id, Claim(db, id).transfers[id]); }
  }

  lemma RetryStaysApart(db: Db, id: nat)
    requires TransfersApart(db) && id in db.transfers
    ensures TransfersApart(Retry(db, id))
  {
    if Retry(db, id) != db { MovedTransferStaysApart(db, id, Retry(db, id).transfers[id]); }
  }

  lemma TransferStepStaysApart(db: Db, step: Step)
    requires TransfersApart(db) && (step.ClaimTransfer? || step.CompleteTransfer? || step.RetryTransfer?)
    ensures TransfersApart(Apply(db, step))
  {
    if step.id in db.transfers {
      ClaimStaysApart(db, step.id);
      CompletionStaysApart(db, step.id);
      RetryStaysApart(db, step.id);
    }
  }

  lemma StepKeepsApart(db: Db, step: Step)
    requires TransfersApart(db)
    ensures TransfersApart(Apply(db, step))
  {
    if step.RequestTransfer? {
      RequestStaysApart(db, step.id, step.shop, step.actor, step.to);
    } else if step.ClaimTransfer? || step.CompleteTransfer? || step.RetryTransfer? {
      TransferStepStaysApart(db, step);
    } else {
      OtherStepsLeaveTransfers(db, step);
    }
  }

  /** In every run an organization has at most one open transfer, and a user at most one coming. */
  lemma {:induction false} OneOpenTransfer(db: Db, steps: seq<Step>)
    requires TransfersApart(db)
    ensures TransfersApart(Execute(db, steps))
    decreases |steps|
  {
    if steps != [] {
      StepKeepsApart(db, steps[0]);
      OneOpenTransfer(Apply(db, steps[0]), steps[1..]);
    }
  }
  // ---- who may do what ----

  function Level(role: Role): nat { match role case Cashier => 0 case Manager => 1 case Admin => 2 case Owner => 3 }

  /** An active owner or administrator of the shop, of at least a level. */
  predicate Commands(db: Db, shop: Shop, actor: User, level: nat) {
    && (shop, actor) in db.members && db.members[(shop, actor)].active
    && Level(db.members[(shop, actor)].role) >= 2 && Level(db.members[(shop, actor)].role) > level
  }

  /** Owners and administrators manage exactly the members below them, give only roles below their own, and never manage themselves. */
  lemma ManagesExactly(db: Db, shop: Shop, actor: User, user: User, role: Option<Role>, active: Option<bool>)
    ensures MayManage(db, shop, actor, user, role, active) <==>
      && shop in db.shops && (shop, user) in db.members && user in db.users
      && Commands(db, shop, actor, Level(db.members[(shop, user)].role))
      && (role.Some? ==> Commands(db, shop, actor, Level(role.value)))
    ensures !MayManage(db, shop, actor, actor, role, active)
  {
  }

  /** An invitation is for a role below the inviter's, to an address that no member of the shop has, on a free seat. */
  lemma InvitesExactly(db: Db, id: nat, shop: Shop, actor: User, email: string, role: Role, limit: Option<nat>)
    ensures MayInvite(db, id, shop, actor, email, role, limit) <==>
      && id !in db.invitations && shop in db.shops && Commands(db, shop, actor, Level(role))
      && (forall user :: user in db.users && db.users[user] == email ==> (shop, user) !in db.members)
      && (Normalize(email) in Seats(db, db.shops[shop]) || limit.None? || |Seats(db, db.shops[shop])| < limit.value)
  {
    forall k | k in db.members && k.0 == shop && k.1 in db.users ensures (shop, k.1) in db.members {
      assert k == (shop, k.1);
    }
  }

  /** In a sound database it is the owner on record who may hand over, to an active colleague who owns nothing and expects nothing. */
  lemma RequestsExactly(db: Db, id: nat, shop: Shop, actor: User, to: User)
    requires Inv(db)
    ensures MayRequest(db, id, shop, actor, to) <==>
      && id !in db.transfers && shop in db.shops && db.owners[db.shops[shop]] == actor && to != actor
      && (shop, to) in db.members && db.members[(shop, to)].active
      && (forall org :: org in db.owners ==> db.owners[org] != to)
      && (forall t :: t in db.transfers && db.transfers[t].status in {Pending, Processing} ==>
            db.transfers[t].to != to && db.transfers[t].org != db.shops[shop])
  {
    if shop in db.shops { assert db.shops[shop] in db.owners && IsActive(db, shop, db.owners[db.shops[shop]]); }
  }

  /** In a sound database it is the owner on record who may add a shop, within the limit. */
  lemma AddsShopExactly(db: Db, via: Shop, actor: User, shop: Shop, limit: Option<nat>)
    requires Inv(db)
    ensures MayAddShop(db, via, actor, shop, limit) <==>
      && via in db.shops && shop !in db.shops && db.owners[db.shops[via]] == actor
      && (limit.Some? ==> |set s | s in db.shops && db.shops[s] == db.shops[via]| < limit.value)
  {
    if via in db.shops {
      assert db.shops[via] in db.owners && IsActive(db, via, db.owners[db.shops[via]]);
      assert ShopsOf(db, db.shops[via]) == set s | s in db.shops && db.shops[s] == db.shops[via];
    }
  }

  // ---- what a transfer does ----

  /** The transfer is still the present owner's, and its target works in the organization and owns no other. */
  predicate StillStands(db: Db, t: Transfer) {
    && t.org in db.owners && db.owners[t.org] == t.from
    && (exists s :: s in db.shops && db.shops[s] == t.org && (s, t.to) in db.members && db.members[(s, t.to)].active)
    && (forall org :: org in db.owners && db.owners[org] == t.to ==> org == t.org)
  }

  lemma StandsExactly(db: Db, t: Transfer)
    ensures TransferStands(db, t) <==> StillStands(db, t)
  {
    if ActiveInOrg(db, t.to, t.org) {
      var s :| s in db.shops && db.shops[s] == t.org && IsActive(db, s, t.to);
      assert (s, t.to) in db.members;
    }
    if exists s :: s in db.shops && db.shops[s] == t.org && (s, t.to) in db.members && db.members[(s, t.to)].active {
      var s :| s in db.shops && db.shops[s] == t.org && (s, t.to) in db.members && db.members[(s, t.to)].active;
      assert IsActive(db, s, t.to);
    }
  }

  /** A completed transfer makes the target the owner on record and an active owner of every shop; the former owner administers. */
  lemma CompletionDecides(db: Db, id: nat)
    requires id in db.transfers && db.transfers[id].status == Processing
    ensures var t, after := db.transfers[id], Completion(db, id);
      if StillStands(db, t) then
        && after.transfers == db.transfers[id := t.(status := Completed)] && after.owners == db.owners[t.org := t.to]
        && (forall s :: s in db.shops && db.shops[s] == t.org ==>
              && (s, t.to) in after.members && after.members[(s, t.to)] == Member(Owner, true)
              && (t.from != t.to && (s, t.from) in db.members ==>
                    (s, t.from) in after.members
                    && after.members[(s, t.from)] == if db.members[(s, t.from)].role == Owner
                                                     then Member(Admin, db.members[(s, t.from)].active) else db.members[(s, t.from)]))
      else after == db.(transfers := db.transfers[id := t.(status := Failed)])
  {
    var t := db.transfers[id];
    StandsExactly(db, t);
    var shops := ShopsOf(db, t.org);
    forall s | s in db.shops && db.shops[s] == t.org
      ensures (s, t.to) in (set x | x in shops :: (x, t.to))
    {
      assert s in shops;
    }
  }

  /** How long a failed attempt waits, in seconds, by the attempts made. */
  lemma RetryDecides(db: Db, id: nat)
    requires id in db.transfers && db.transfers[id].status == Processing && db.transfers[id].attempts >= 1
    ensures var t, after := db.transfers[id], Retry(db, id);
      var delay := if t.attempts == 1 then 120 else if t.attempts == 2 then 240 else if t.attempts == 3 then 480
                   else if t.attempts == 4 then 960 else if t.attempts == 5 then 1920 else 3600;
      after == db.(transfers := db.transfers[id := if t.attempts >= 8 then t.(status := Failed)
                                                   else t.(status := Pending, nextAttempt := Some(db.now + delay))])
  {
    assert Power2(2) == 4 && Power2(3) == 8;
    assert Power2(4) == 16 && Power2(5) == 32 && Power2(6) == 64;
  }

  /** A due request is claimed, and each claim is an attempt. */
  lemma ClaimDecides(db: Db, id: nat)
    requires id in db.transfers
    ensures var t, after := db.transfers[id], Claim(db, id);
      if t.status == Pending && (t.nextAttempt.Some? ==> t.nextAttempt.value <= db.now)
      then after == db.(transfers := db.transfers[id := Transfer(t.org, t.from, t.to, Processing, t.attempts + 1, t.nextAttempt)])
      else after == db
  {
  }
}
