/** The provisioning transaction of apps/api/src/membership-provisioning-routes.ts. */
module MembershipProvisioning {
  import opened FileSystem
  import opened Sequences

  type Id = nat

  const MAX_GRANTS := 128
  const MAX_SAFE_INTEGER := 0x1F_FFFF_FFFF_FFFF

  // ---------- The tables the transaction reads and writes ----------

  datatype Role = Owner | Admin | Member
  datatype Lifecycle = PendingKeyGrant | Active | Removed
  datatype Membership = Membership(id: Id, teamId: Id, userId: Id, role: Role, lifecycle: Lifecycle)
  datatype Device = Device(id: Id, userId: Id, active: bool, encryptionKey: Bytes)
  datatype Environment = Environment(id: Id, active: bool, hasHead: bool)
  datatype Project = Project(id: Id, teamId: Id, active: bool, currentEpoch: nat, environments: seq<Environment>)
  datatype Status = Staged | Committed | Cancelled | Expired
  datatype Operation = Operation(
    actorUserId: Id, actorDeviceId: Id, membershipChange: bool, digest: Bytes, status: Status)
  datatype GrantRow = GrantRow(
    objectId: Id, teamId: Id, membershipId: Id, projectId: Id, senderDeviceId: Id, recipientDeviceId: Id,
    projectEpoch: nat, ciphertextLength: nat, ciphertextHash: Bytes)
  datatype ActivationRow = ActivationRow(objectId: Id, membershipId: Id, teamId: Id)

  /** Tables are kept in ascending order of their ids, as `orderBy: { id: "asc" }` returns them. */
  datatype Database = Database(
    activeTeams: set<Id>,
    memberships: seq<Membership>,
    devices: seq<Device>,
    projects: seq<Project>,
    operations: map<Id, Operation>,
    objects: set<Id>,
    grants: seq<GrantRow>,
    activations: seq<ActivationRow>)
  {
    ghost predicate Valid() {
      && (forall i, j :: 0 <= i < j < |memberships| ==> memberships[i].id != memberships[j].id)
      && (forall i, j :: 0 <= i < j < |memberships| ==>
            memberships[i].teamId != memberships[j].teamId || memberships[i].userId != memberships[j].userId)
      && (forall i, j :: 0 <= i < j < |devices| ==> devices[i].id != devices[j].id)
      && (forall i, j :: 0 <= i < j < |projects| ==> projects[i].id != projects[j].id)
      && (forall g :: g in grants ==> g.objectId in objects)
    }
  }

  // ---------- The request ----------

  datatype Reference = Reference(projectId: Id, recipientDeviceId: Id, epoch: nat, digest: Bytes)

  /** `authentic`: the object names this Server Profile and the actor's device signed it. */
  datatype Activation = Activation(
    objectId: Id, digest: Bytes, authentic: bool, userId: Id, teamId: Id, membershipId: Id, operationId: Id,
    deviceId: Id, role: int, recipients: seq<Id>, references: seq<Reference>)

  datatype Grant = Grant(
    objectId: Id, digest: Bytes, authentic: bool, teamId: Id, projectId: Id, senderDeviceId: Id,
    recipientDeviceId: Id, epoch: nat, keyKind: int, grantKind: int, plaintextLength: int, ciphertextLength: int,
    recipientKey: Bytes, ciphertext: Bytes, ciphertextHash: Bytes)

  datatype Actor = Actor(userId: Id, deviceId: Id)

  datatype Request = Request(
    teamId: Id, membershipId: Id, idempotencyKey: Id, operationId: Id, activation: Activation, grants: seq<Grant>)

  // ---------- The plan ----------

  datatype PlannedProject = PlannedProject(id: Id, epoch: nat, environmentId: Id)
  datatype PlannedDevice = PlannedDevice(id: Id, encryptionKey: Bytes)
  datatype Plan = Plan(member: Membership, projects: seq<PlannedProject>, devices: seq<PlannedDevice>)

  function FindAuthority(rows: seq<Membership>, teamId: Id, userId: Id): Option<Membership> {
    if rows == [] then None
    else if rows[0].teamId == teamId && rows[0].userId == userId && rows[0].lifecycle == Active then Some(rows[0])
    else FindAuthority(rows[1..], teamId, userId)
  }

  function FindMember(rows: seq<Membership>, teamId: Id, membershipId: Id): Option<Membership> {
    if rows == [] then None
    else if rows[0].id == membershipId && rows[0].teamId == teamId then Some(rows[0])
    else FindMember(rows[1..], teamId, membershipId)
  }

  function ActiveDevices(rows: seq<Device>, userId: Id): seq<PlannedDevice> {
    if rows == [] then []
    else
      (if rows[0].userId == userId && rows[0].active then [PlannedDevice(rows[0].id, rows[0].encryptionKey)] else [])
      + ActiveDevices(rows[1..], userId)
  }

  /** The first active environment with a head, when there is one. */
  function Head(environments: seq<Environment>): Option<Id> {
    if environments == [] then None
    else if environments[0].active && environments[0].hasHead then Some(environments[0].id)
    else Head(environments[1..])
  }

  predicate Initialised(p: Project, teamId: Id) {
    p.teamId == teamId && p.active && Head(p.environments).Some?
  }

  function PlannedProjects(rows: seq<Project>, teamId: Id): seq<PlannedProject> {
    if rows == [] then []
    else
      (if Initialised(rows[0], teamId)
       then [PlannedProject(rows[0].id, rows[0].currentEpoch, Head(rows[0].environments).value)] else [])
      + PlannedProjects(rows[1..], teamId)
  }

  /** `loadMembershipProvisioningPlan`; None stands for any of its refusals. */
  function LoadPlan(db: Database, actor: Actor, teamId: Id, membershipId: Id): Option<Plan> {
    match (FindAuthority(db.memberships, teamId, actor.userId), FindMember(db.memberships, teamId, membershipId))
    case (Some(authority), Some(member)) =>
      var devices, projects := ActiveDevices(db.devices, member.userId), PlannedProjects(db.projects, teamId);
      if || authority.role == Member
         || teamId !in db.activeTeams
         || member.lifecycle == Removed
         || (authority.role == Admin && member.role != Member)
         || devices == []
         || |projects| * |devices| > MAX_GRANTS
         || (exists p :: p in projects && p.epoch > MAX_SAFE_INTEGER)
      then None
      else Some(Plan(member, projects, devices))
    case _ => None
  }

  datatype Pair = Pair(project: PlannedProject, device: PlannedDevice)

  function PairsOf(project: PlannedProject, devices: seq<PlannedDevice>): (pairs: seq<Pair>)
    ensures |pairs| == |devices|
  {
    seq(|devices|, k requires 0 <= k < |devices| => Pair(project, devices[k]))
  }

  /** Projects × devices, in the order the transaction visits them. */
  function Pairs(projects: seq<PlannedProject>, devices: seq<PlannedDevice>): (pairs: seq<Pair>)
    ensures |pairs| == |projects| * |devices|
  {
    if projects == [] then []
    else
      var last := |projects| - 1;
      assert |projects| * |devices| == last * |devices| + |devices|;
      Pairs(projects[..last], devices) + PairsOf(projects[last], devices)
  }

  // ---------- What the transaction accepts ----------

  function RoleCode(role: Role): int {
    match role
    case Owner => 1
    case Admin => 2
    case Member => 3
  }

  function DeviceIds(devices: seq<PlannedDevice>): seq<Id> {
    seq(|devices|, k requires 0 <= k < |devices| => devices[k].id)
  }

  predicate ActorDeviceActive(db: Database, actor: Actor) {
    exists d :: d in db.devices && d.id == actor.deviceId && d.userId == actor.userId && d.active
  }

  predicate RequestOk(db: Database, actor: Actor, r: Request) {
    && r.operationId == r.idempotencyKey && |r.grants| <= MAX_GRANTS
    && r.activation.teamId == r.teamId && r.activation.membershipId == r.membershipId
    && r.activation.operationId == r.operationId && r.activation.deviceId == actor.deviceId
    && ActorDeviceActive(db, actor)
    && r.activation.authentic && forall g :: g in r.grants ==> g.authentic
  }

  datatype Begun = Conflict | Idempotent | Begun(operations: map<Id, Operation>)

  function Command(actor: Actor, r: Request): Operation {
    Operation(actor.userId, actor.deviceId, true, r.activation.digest, Staged)
  }

  /** `OperationRepository.begin`: the same command may go on, or is answered as already done. */
  function Begin(operations: map<Id, Operation>, id: Id, command: Operation): Begun {
    if id !in operations then Begun(operations[id := command])
    else
      var known := operations[id];
      if || known.(status := command.status) != command
         || known.status == Cancelled || known.status == Expired then Conflict
      else if known.status == Status.Committed then Idempotent
      else Begun(operations)
  }

  predicate ActivationOk(plan: Plan, actor: Actor, r: Request) {
    && r.activation.userId == plan.member.userId
    && r.activation.role == RoleCode(plan.member.role)
    && r.activation.recipients == DeviceIds(plan.devices)
    && |r.grants| == |plan.projects| * |plan.devices|
  }

  predicate GrantOk(hash: Bytes -> Bytes, actor: Actor, teamId: Id, pair: Pair, g: Grant) {
    && g.teamId == teamId && g.projectId == pair.project.id
    && g.senderDeviceId == actor.deviceId && g.recipientDeviceId == pair.device.id
    && g.epoch == pair.project.epoch && g.keyKind == 1 && g.grantKind == 1
    && g.plaintextLength == 32 && g.ciphertextLength == |g.ciphertext|
    && |g.recipientKey| == 32 && g.recipientKey == pair.device.encryptionKey
    && |g.ciphertextHash| == 48 && g.ciphertextHash == hash(g.ciphertext)
  }

  function Row(r: Request, actor: Actor, pair: Pair, g: Grant): GrantRow {
    GrantRow(g.objectId, r.teamId, r.membershipId, pair.project.id, actor.deviceId, pair.device.id,
             pair.project.epoch, |g.ciphertext|, g.ciphertextHash)
  }

  function Rows(r: Request, actor: Actor, pairs: seq<Pair>): (rows: seq<GrantRow>)
    requires |pairs| <= |r.grants|
    ensures |rows| == |pairs|
  {
    seq(|pairs|, k requires 0 <= k < |pairs| => Row(r, actor, pairs[k], r.grants[k]))
  }

  function References(pairs: seq<Pair>, grants: seq<Grant>): seq<Reference>
    requires |pairs| <= |grants|
  {
    seq(|pairs|, k requires 0 <= k < |pairs| =>
      Reference(pairs[k].project.id, pairs[k].device.id, pairs[k].project.epoch, grants[k].digest))
  }

  /** The protocol objects of the first k grants. */
  function ObjectIds(grants: seq<Grant>, k: nat): set<Id>
    requires k <= |grants|
  {
    set i | 0 <= i < k :: grants[i].objectId
  }

  /** The k-th grant passes its checks, and the object store takes its object as a new one. */
  predicate Accepted(
    db: Database, hash: Bytes -> Bytes, storage: nat -> bool, actor: Actor, r: Request, pairs: seq<Pair>, k: nat)
    requires k < |pairs| <= |r.grants|
  {
    && GrantOk(hash, actor, r.teamId, pairs[k], r.grants[k])
    && storage(k) && r.grants[k].objectId !in db.objects + ObjectIds(r.grants, k)
  }

  predicate TransactionOk(
    db: Database, hash: Bytes -> Bytes, storage: nat -> bool, actor: Actor, r: Request, plan: Plan)
  {
    && ActivationOk(plan, actor, r)
    && (var pairs := Pairs(plan.projects, plan.devices);
        && (forall k :: 0 <= k < |pairs| ==> Accepted(db, hash, storage, actor, r, pairs, k))
        && r.activation.references == References(pairs, r.grants))
    && storage(|r.grants|) && r.activation.objectId !in db.objects + ObjectIds(r.grants, |r.grants|)
  }

  datatype Outcome = Refused | Replayed | Provisioned

  function Decide(db: Database, hash: Bytes -> Bytes, storage: nat -> bool, actor: Actor, r: Request): Outcome {
    if !RequestOk(db, actor, r) then Refused
    else
      match Begin(db.operations, r.operationId, Command(actor, r))
      case Conflict => Refused
      case Idempotent => Replayed
      case Begun(_) =>
        match LoadPlan(db, actor, r.teamId, r.membershipId)
        case None => Refused
        case Some(plan) => if TransactionOk(db, hash, storage, actor, r, plan) then Provisioned else Refused
  }

  function Activate(rows: seq<Membership>, membershipId: Id): seq<Membership> {
    seq(|rows|, k requires 0 <= k < |rows| =>
      if rows[k].id == membershipId then rows[k].(lifecycle := Active) else rows[k])
  }

  /** The last writes: the membership, its activation when it was pending, and the operation. */
  function Activated(draft: Database, actor: Actor, r: Request, member: Membership): Database {
    draft.(memberships := Activate(draft.memberships, r.membershipId),
           operations := draft.operations[r.operationId := Command(actor, r).(status := Status.Committed)],
           objects := draft.objects + {r.activation.objectId},
           activations := if member.lifecycle == PendingKeyGrant
                          then draft.activations + [ActivationRow(r.activation.objectId, r.membershipId, r.teamId)]
                          else draft.activations)
  }

  /** The database after a committed run. */
  function After(db: Database, actor: Actor, r: Request, plan: Plan): Database
    requires |r.grants| == |plan.projects| * |plan.devices|
  {
    Activated(
      db.(objects := db.objects + ObjectIds(r.grants, |r.grants|),
          grants := db.grants + Rows(r, actor, Pairs(plan.projects, plan.devices))),
      actor, r, plan.member)
  }

  // ---------- Facts about the plan ----------

  lemma {:induction false} PairAt(projects: seq<PlannedProject>, devices: seq<PlannedDevice>, i: nat, j: nat)
    requires i < |projects| && j <= |devices|
    ensures var done := Pairs(projects[..i], devices) + PairsOf(projects[i], devices[..j]);
      && done <= Pairs(projects, devices)
      && (j < |devices| ==>
            |done| < |Pairs(projects, devices)|
            && Pairs(projects, devices)[|done|] == Pair(projects[i], devices[j]))
    decreases |projects|
  {
    var last := |projects| - 1;
    var all, before := Pairs(projects, devices), Pairs(projects[..last], devices);
    var done := Pairs(projects[..i], devices) + PairsOf(projects[i], devices[..j]);
    if i < last {
      assert projects[..last][..i] == projects[..i];
      PairAt(projects[..last], devices, i, j);
      assert done <= before <= all;
      assert j < |devices| ==> before[|done|] == all[|done|];
    } else {
      assert all == before + PairsOf(projects[last], devices);
      assert PairsOf(projects[last], devices[..j]) <= PairsOf(projects[last], devices);
    }
  }

  lemma {:induction false} PairsComplete(projects: seq<PlannedProject>, devices: seq<PlannedDevice>)
    ensures forall p, d :: p in projects && d in devices <==> Pair(p, d) in Pairs(projects, devices)
  {
    if projects != [] {
      var last := |projects| - 1;
      PairsComplete(projects[..last], devices);
      assert forall p :: p in projects <==> p in projects[..last] || p == projects[last];
      forall p, d ensures Pair(p, d) in PairsOf(projects[last], devices) <==> p == projects[last] && d in devices {
        if p == projects[last] && d in devices {
          var k :| 0 <= k < |devices| && devices[k] == d;
          assert PairsOf(projects[last], devices)[k] == Pair(p, d);
        }
      }
    }
  }

  lemma {:induction false} PairsDistinct(projects: seq<PlannedProject>, devices: seq<PlannedDevice>)
    requires Distinct(projects) && Distinct(devices)
    ensures Distinct(Pairs(projects, devices))
  {
    if projects != [] {
      var last := |projects| - 1;
      PairsDistinct(projects[..last], devices);
      PairsComplete(projects[..last], devices);
      var before, row := Pairs(projects[..last], devices), PairsOf(projects[last], devices);
      forall i, j | 0 <= i < |before| && 0 <= j < |row| ensures before[i] != row[j] {
        assert before[i] in before && projects[last] !in projects[..last];
      }
    }
  }

  lemma {:induction false} ProjectsExact(rows: seq<Project>, teamId: Id)
    ensures forall q :: q in PlannedProjects(rows, teamId) <==>
      exists p :: p in rows && Initialised(p, teamId)
        && q == PlannedProject(p.id, p.currentEpoch, Head(p.environments).value)
  {
    if rows != [] {
      ProjectsExact(rows[1..], teamId);
      assert rows == [rows[0]] + rows[1..];
    }
  }

  lemma {:induction false} ProjectsDistinct(rows: seq<Project>, teamId: Id)
    requires forall i, j :: 0 <= i < j < |rows| ==> rows[i].id != rows[j].id
    ensures forall i, j :: 0 <= i < j < |PlannedProjects(rows, teamId)| ==>
      PlannedProjects(rows, teamId)[i].id != PlannedProjects(rows, teamId)[j].id
  {
    if rows != [] {
      ProjectsDistinct(rows[1..], teamId);
      ProjectsExact(rows[1..], teamId);
      var rest := PlannedProjects(rows[1..], teamId);
      forall j | 0 <= j < |rest| ensures rest[j].id != rows[0].id {
        assert rest[j] in rest;
      }
    }
  }

  lemma {:induction false} DevicesExact(rows: seq<Device>, userId: Id)
    ensures forall q :: q in ActiveDevices(rows, userId) <==>
      exists d :: d in rows && d.userId == userId && d.active && q == PlannedDevice(d.id, d.encryptionKey)
  {
    if rows != [] {
      DevicesExact(rows[1..], userId);
      assert rows == [rows[0]] + rows[1..];
    }
  }

  lemma {:induction false} DevicesDistinct(rows: seq<Device>, userId: Id)
    requires forall i, j :: 0 <= i < j < |rows| ==> rows[i].id != rows[j].id
    ensures forall i, j :: 0 <= i < j < |ActiveDevices(rows, userId)| ==>
      ActiveDevices(rows, userId)[i].id != ActiveDevices(rows, userId)[j].id
  {
    if rows != [] {
      DevicesDistinct(rows[1..], userId);
      DevicesExact(rows[1..], userId);
      var rest := ActiveDevices(rows[1..], userId);
      forall j | 0 <= j < |rest| ensures rest[j].id != rows[0].id {
        assert rest[j] in rest;
      }
    }
  }

  // ---------- Who may provision, and what ----------

  /** An active member of the team who may provision the target: an owner, or an admin for a plain member. */
  ghost predicate Authority(db: Database, actor: Actor, teamId: Id, a: Membership, target: Membership) {
    && a in db.memberships && a.teamId == teamId && a.userId == actor.userId && a.lifecycle == Active
    && (a.role == Owner || (a.role == Admin && target.role == Role.Member))
  }

  ghost predicate IsTarget(db: Database, teamId: Id, membershipId: Id, m: Membership) {
    && m in db.memberships && m.id == membershipId && m.teamId == teamId
    && (m.lifecycle == PendingKeyGrant || m.lifecycle == Active)
  }

  /** An active project of the team that has contents, and so a key to share. */
  ghost predicate HasKey(p: Project, teamId: Id) {
    p.teamId == teamId && p.active && exists e :: e in p.environments && e.active && e.hasHead
  }

  ghost function KeyProjects(rows: seq<Project>, teamId: Id): set<Id> {
    set p | p in rows && HasKey(p, teamId) :: p.id
  }

  ghost function DevicesOf(rows: seq<Device>, userId: Id): set<Id> {
    set d | d in rows && d.userId == userId && d.active :: d.id
  }

  /** The member can be given grants at all, and they are not too many. */
  ghost predicate Grantable(db: Database, teamId: Id, m: Membership) {
    && DevicesOf(db.devices, m.userId) != {}
    && |KeyProjects(db.projects, teamId)| * |DevicesOf(db.devices, m.userId)| <= 128
    && forall p :: p in db.projects && HasKey(p, teamId) ==> p.currentEpoch <= 9007199254740991
  }

  ghost predicate MayProvision(db: Database, actor: Actor, teamId: Id, membershipId: Id, a: Membership, m: Membership) {
    && IsTarget(db, teamId, membershipId, m) && Authority(db, actor, teamId, a, m)
    && teamId in db.activeTeams && Grantable(db, teamId, m)
  }

  lemma {:induction false} HeadExact(environments: seq<Environment>)
    ensures match Head(environments)
      case Some(id) =>
        exists k :: 0 <= k < |environments| && FirstWithHead(environments, k) && environments[k].id == id
      case None => forall e :: e in environments ==> !(e.active && e.hasHead)
  {
    if environments != [] {
      HeadExact(environments[1..]);
      if environments[0].active && environments[0].hasHead {
        assert FirstWithHead(environments, 0);
      } else if Head(environments[1..]).Some? {
        var k :| 0 <= k < |environments[1..]| && FirstWithHead(environments[1..], k)
                 && environments[1..][k].id == Head(environments[1..]).value;
        assert FirstWithHead(environments, k + 1);
      }
    }
  }

  ghost predicate FirstWithHead(environments: seq<Environment>, k: int) {
    && 0 <= k < |environments| && environments[k].active && environments[k].hasHead
    && forall j :: 0 <= j < k ==> !(environments[j].active && environments[j].hasHead)
  }

  lemma {:induction false} InitialisedExactly(p: Project, teamId: Id)
    ensures Initialised(p, teamId) <==> HasKey(p, teamId)
  {
    HeadExact(p.environments);
    if Head(p.environments).Some? {
      var k :| 0 <= k < |p.environments| && FirstWithHead(p.environments, k)
               && p.environments[k].id == Head(p.environments).value;
      assert p.environments[k] in p.environments;
    }
  }

  lemma {:induction false} ProjectsCounted(rows: seq<Project>, teamId: Id)
    requires forall i, j :: 0 <= i < j < |rows| ==> rows[i].id != rows[j].id
    ensures |PlannedProjects(rows, teamId)| == |KeyProjects(rows, teamId)|
  {
    if rows != [] {
      ProjectsCounted(rows[1..], teamId);
      InitialisedExactly(rows[0], teamId);
      assert forall p :: p in rows <==> p == rows[0] || p in rows[1..];
      var rest := KeyProjects(rows[1..], teamId);
      assert rows[0].id !in rest;
      assert KeyProjects(rows, teamId) == if HasKey(rows[0], teamId) then rest + {rows[0].id} else rest;
    }
  }

  lemma {:induction false} DevicesCounted(rows: seq<Device>, userId: Id)
    requires forall i, j :: 0 <= i < j < |rows| ==> rows[i].id != rows[j].id
    ensures |ActiveDevices(rows, userId)| == |DevicesOf(rows, userId)|
  {
    if rows != [] {
      DevicesCounted(rows[1..], userId);
      assert forall d :: d in rows <==> d == rows[0] || d in rows[1..];
      var rest := DevicesOf(rows[1..], userId);
      assert rows[0].id !in rest;
      assert DevicesOf(rows, userId)
        == if rows[0].userId == userId && rows[0].active then rest + {rows[0].id} else rest;
    }
  }

  lemma {:induction false} AuthorityFound(rows: seq<Membership>, teamId: Id, userId: Id)
    requires forall i, j :: 0 <= i < j < |rows| ==> rows[i].teamId != rows[j].teamId || rows[i].userId != rows[j].userId
    ensures forall a :: FindAuthority(rows, teamId, userId) == Some(a) <==>
      a in rows && a.teamId == teamId && a.userId == userId && a.lifecycle == Active
  {
    if rows != [] {
      AuthorityFound(rows[1..], teamId, userId);
      assert forall a :: a in rows <==> a == rows[0] || a in rows[1..];
    }
  }

  lemma {:induction false} TargetFound(db: Database, teamId: Id, membershipId: Id)
    requires db.Valid()
    ensures forall m :: FindMember(db.memberships, teamId, membershipId) == Some(m) <==>
      m in db.memberships && m.id == membershipId && m.teamId == teamId
  {
    MemberFound(db.memberships, teamId, membershipId);
  }

  lemma {:induction false} GrantableExactly(db: Database, teamId: Id, m: Membership)
    requires db.Valid()
    ensures var devices, projects := ActiveDevices(db.devices, m.userId), PlannedProjects(db.projects, teamId);
      Grantable(db, teamId, m) <==>
        && devices != [] && |projects| * |devices| <= MAX_GRANTS
        && forall p :: p in projects ==> p.epoch <= MAX_SAFE_INTEGER
  {
    var devices, projects := ActiveDevices(db.devices, m.userId), PlannedProjects(db.projects, teamId);
    ProjectsCounted(db.projects, teamId);
    DevicesCounted(db.devices, m.userId);
    ProjectsExact(db.projects, teamId);
    forall p ensures Initialised(p, teamId) <==> HasKey(p, teamId) {
      InitialisedExactly(p, teamId);
    }
    forall p | p in db.projects && HasKey(p, teamId)
      ensures PlannedProject(p.id, p.currentEpoch, Head(p.environments).value) in projects
    {
    }
  }

  /** A plan exists exactly for those who may provision the target. */
  lemma {:induction false} PlanExactly(db: Database, actor: Actor, teamId: Id, membershipId: Id)
    requires db.Valid()
    ensures LoadPlan(db, actor, teamId, membershipId).Some? <==>
      exists a, m :: MayProvision(db, actor, teamId, membershipId, a, m)
    ensures forall a, m :: MayProvision(db, actor, teamId, membershipId, a, m) ==>
      LoadPlan(db, actor, teamId, membershipId)
      == Some(Plan(m, PlannedProjects(db.projects, teamId), ActiveDevices(db.devices, m.userId)))
  {
    AuthorityFound(db.memberships, teamId, actor.userId);
    TargetFound(db, teamId, membershipId);
    forall m ensures GrantableAs(db, teamId, m) {
      GrantableExactly(db, teamId, m);
    }
    var plan := LoadPlan(db, actor, teamId, membershipId);
    if plan.Some? {
      var a, m := FindAuthority(db.memberships, teamId, actor.userId).value, plan.value.member;
      assert GrantableAs(db, teamId, m);
      assert MayProvision(db, actor, teamId, membershipId, a, m);
    }
    forall a, m | MayProvision(db, actor, teamId, membershipId, a, m)
      ensures plan == Some(Plan(m, PlannedProjects(db.projects, teamId), ActiveDevices(db.devices, m.userId)))
    {
      assert GrantableAs(db, teamId, m);
    }
  }

  ghost predicate GrantableAs(db: Database, teamId: Id, m: Membership) {
    var devices, projects := ActiveDevices(db.devices, m.userId), PlannedProjects(db.projects, teamId);
    Grantable(db, teamId, m) <==>
      && devices != [] && |projects| * |devices| <= MAX_GRANTS
      && !exists p :: p in projects && p.epoch > MAX_SAFE_INTEGER
  }

  /** The activation names the path of the request, and the actor's active device signed everything. */
  ghost predicate Coherent(db: Database, actor: Actor, r: Request) {
    var a := r.activation;
    && r.operationId == r.idempotencyKey == a.operationId && a.teamId == r.teamId && a.membershipId == r.membershipId
    && a.deviceId == actor.deviceId && actor.deviceId in DevicesOf(db.devices, actor.userId)
    && a.authentic && (forall k :: 0 <= k < |r.grants| ==> r.grants[k].authentic) && |r.grants| <= 128
  }

  /** The operation is known with the same actor, device, kind and digest, and has this status. */
  ghost predicate KnownAs(operations: map<Id, Operation>, actor: Actor, r: Request, status: Status) {
    && r.operationId in operations
    && operations[r.operationId] == Operation(actor.userId, actor.deviceId, true, r.activation.digest, status)
  }

  /** The grant wraps the current key of the project for the device, sent by the actor's device. */
  ghost predicate WrapsFor(hash: Bytes -> Bytes, actor: Actor, r: Request, pair: Pair, g: Grant) {
    && (g.teamId, g.projectId, g.epoch) == (r.teamId, pair.project.id, pair.project.epoch)
    && (g.senderDeviceId, g.recipientDeviceId, g.recipientKey)
       == (actor.deviceId, pair.device.id, pair.device.encryptionKey)
    && |g.recipientKey| == 32 && g.plaintextLength == 32 && g.keyKind == 1 && g.grantKind == 1
    && g.ciphertextLength == |g.ciphertext| && |g.ciphertextHash| == 48 && hash(g.ciphertext) == g.ciphertextHash
  }

  /** The activation is of the member in its role, for its devices, and refers to the grants, one for each pair. */
  ghost predicate Complete(
    hash: Bytes -> Bytes, actor: Actor, r: Request, m: Membership, devices: seq<PlannedDevice>, pairs: seq<Pair>)
  {
    var a := r.activation;
    && a.userId == m.userId && |a.recipients| == |devices| && |r.grants| == |a.references| == |pairs|
    && (match m.role case Owner => a.role == 1 case Admin => a.role == 2 case Member => a.role == 3)
    && (forall k :: 0 <= k < |devices| ==> a.recipients[k] == devices[k].id)
    && forall k :: 0 <= k < |pairs| ==>
         && WrapsFor(hash, actor, r, pairs[k], r.grants[k])
         && a.references[k]
            == Reference(pairs[k].project.id, pairs[k].device.id, pairs[k].project.epoch, r.grants[k].digest)
  }

  /** The object store takes every object, each under an id that is new. */
  ghost predicate Stored(db: Database, storage: nat -> bool, r: Request) {
    && (forall k :: 0 <= k < |r.grants| ==> storage(k) && r.grants[k].objectId !in db.objects)
    && (forall j, k :: 0 <= j < k < |r.grants| ==> r.grants[j].objectId != r.grants[k].objectId)
    && storage(|r.grants|) && r.activation.objectId !in db.objects
    && forall k :: 0 <= k < |r.grants| ==> r.grants[k].objectId != r.activation.objectId
  }

  ghost predicate Fulfils(
    db: Database, hash: Bytes -> Bytes, storage: nat -> bool, actor: Actor, r: Request, m: Membership)
  {
    var projects, devices := PlannedProjects(db.projects, r.teamId), ActiveDevices(db.devices, m.userId);
    Complete(hash, actor, r, m, devices, Pairs(projects, devices)) && Stored(db, storage, r)
  }

  lemma {:induction false} CoherentExactly(db: Database, actor: Actor, r: Request)
    ensures RequestOk(db, actor, r) <==> Coherent(db, actor, r)
  {
    assert ActorDeviceActive(db, actor) <==> actor.deviceId in DevicesOf(db.devices, actor.userId);
  }

  lemma {:induction false} FulfilsExactly(
    db: Database, hash: Bytes -> Bytes, storage: nat -> bool, actor: Actor, r: Request, m: Membership)
    ensures Fulfils(db, hash, storage, actor, r, m) <==>
      TransactionOk(db, hash, storage, actor, r,
        Plan(m, PlannedProjects(db.projects, r.teamId), ActiveDevices(db.devices, m.userId)))
  {
    var projects, devices := PlannedProjects(db.projects, r.teamId), ActiveDevices(db.devices, m.userId);
    var plan, pairs := Plan(m, projects, devices), Pairs(projects, devices);
    if TransactionOk(db, hash, storage, actor, r, plan) {
      OkIsComplete(db, hash, storage, actor, r, plan, pairs);
      OkIsStored(db, hash, storage, actor, r, plan, pairs);
    }
    if Fulfils(db, hash, storage, actor, r, m) {
      CompleteIsOk(db, hash, storage, actor, r, plan, pairs);
    }
  }

  lemma {:induction false} OkIsComplete(
    db: Database, hash: Bytes -> Bytes, storage: nat -> bool, actor: Actor, r: Request, plan: Plan, pairs: seq<Pair>)
    requires pairs == Pairs(plan.projects, plan.devices) && TransactionOk(db, hash, storage, actor, r, plan)
    ensures Complete(hash, actor, r, plan.member, plan.devices, pairs)
  {
    forall k | 0 <= k < |pairs| ensures WrapsFor(hash, actor, r, pairs[k], r.grants[k]) {
      assert Accepted(db, hash, storage, actor, r, pairs, k);
    }
  }

  lemma {:induction false} OkIsStored(
    db: Database, hash: Bytes -> Bytes, storage: nat -> bool, actor: Actor, r: Request, plan: Plan, pairs: seq<Pair>)
    requires pairs == Pairs(plan.projects, plan.devices) && TransactionOk(db, hash, storage, actor, r, plan)
    ensures Stored(db, storage, r)
  {
    forall k | 0 <= k < |r.grants|
      ensures storage(k) && r.grants[k].objectId !in db.objects + ObjectIds(r.grants, k)
    {
      assert Accepted(db, hash, storage, actor, r, pairs, k);
    }
  }

  lemma {:induction false} CompleteIsOk(
    db: Database, hash: Bytes -> Bytes, storage: nat -> bool, actor: Actor, r: Request, plan: Plan, pairs: seq<Pair>)
    requires pairs == Pairs(plan.projects, plan.devices)
    requires Complete(hash, actor, r, plan.member, plan.devices, pairs) && Stored(db, storage, r)
    ensures TransactionOk(db, hash, storage, actor, r, plan)
  {
    forall k | 0 <= k < |pairs| ensures Accepted(db, hash, storage, actor, r, pairs, k) {
      assert WrapsFor(hash, actor, r, pairs[k], r.grants[k]);
    }
    assert r.activation.recipients == DeviceIds(plan.devices);
    assert r.activation.references == References(pairs, r.grants);
  }

  /**
   A request is provisioned exactly if it is coherent, its operation is new or still staged by the same
   command, the actor may provision the target, and what it brings fulfils the plan; it is answered as done
   exactly if it is coherent and that very command has been committed.
   */
  lemma {:induction false} DecidedExactly(
    db: Database, hash: Bytes -> Bytes, storage: nat -> bool, actor: Actor, r: Request)
    requires db.Valid()
    ensures Decide(db, hash, storage, actor, r) == Replayed <==>
      Coherent(db, actor, r) && KnownAs(db.operations, actor, r, Status.Committed)
    ensures Decide(db, hash, storage, actor, r) == Provisioned <==>
      && Coherent(db, actor, r)
      && (r.operationId !in db.operations || KnownAs(db.operations, actor, r, Staged))
      && exists a, m ::
           MayProvision(db, actor, r.teamId, r.membershipId, a, m) && Fulfils(db, hash, storage, actor, r, m)
  {
    CoherentExactly(db, actor, r);
    PlanExactly(db, actor, r.teamId, r.membershipId);
    forall a, m | MayProvision(db, actor, r.teamId, r.membershipId, a, m)
      ensures LoadPlan(db, actor, r.teamId, r.membershipId).Some?
      ensures Fulfils(db, hash, storage, actor, r, m) <==>
        TransactionOk(db, hash, storage, actor, r, LoadPlan(db, actor, r.teamId, r.membershipId).value)
    {
      FulfilsExactly(db, hash, storage, actor, r, m);
    }
    BegunExactly(db.operations, actor, r);
  }

  lemma {:induction false} BegunExactly(operations: map<Id, Operation>, actor: Actor, r: Request)
    ensures var begun := Begin(operations, r.operationId, Command(actor, r));
      && (begun.Idempotent? <==> KnownAs(operations, actor, r, Status.Committed))
      && (begun.Begun? <==> r.operationId !in operations || KnownAs(operations, actor, r, Staged))
  {
  }

  // ---------- What a committed run means ----------

  /** The k-th new row grants the project's current epoch to the device, and its object is bound to the device's key. */
  ghost predicate Grants(r: Request, added: seq<GrantRow>, k: int, p: Project, d: Device) {
    && 0 <= k < |added| == |r.grants|
    && added[k].projectId == p.id && added[k].projectEpoch == p.currentEpoch && added[k].recipientDeviceId == d.id
    && r.grants[k].objectId == added[k].objectId && r.grants[k].recipientKey == d.encryptionKey
    && added[k].teamId == r.teamId && added[k].membershipId == r.membershipId
    && added[k].senderDeviceId == r.grants[k].senderDeviceId
    && added[k].ciphertextLength == |r.grants[k].ciphertext|
    && added[k].ciphertextHash == r.grants[k].ciphertextHash
  }

  ghost predicate Eligible(db: Database, teamId: Id, userId: Id, p: Project, d: Device) {
    p in db.projects && Initialised(p, teamId) && d in db.devices && d.userId == userId && d.active
  }

  /** The k-th new row grants some project to some device that the plan asks for. */
  ghost predicate Warranted(db: Database, r: Request, userId: Id, added: seq<GrantRow>, k: int) {
    exists p, d :: Eligible(db, r.teamId, userId, p, d) && Grants(r, added, k, p, d)
  }

  /** One new row for each pair of an initialised active project and an active device, and none besides. */
  ghost predicate ExactlyTheProduct(db: Database, r: Request, userId: Id, added: seq<GrantRow>) {
    && (forall k :: 0 <= k < |added| ==> Warranted(db, r, userId, added, k))
    && (forall p, d :: Eligible(db, r.teamId, userId, p, d) ==> exists k :: Grants(r, added, k, p, d))
    && (forall j, k :: 0 <= j < k < |added| ==>
          (added[j].projectId, added[j].recipientDeviceId) != (added[k].projectId, added[k].recipientDeviceId))
  }

  lemma RowsAreTheProduct(
    db: Database, hash: Bytes -> Bytes, storage: nat -> bool, actor: Actor, r: Request, plan: Plan)
    requires db.Valid() && TransactionOk(db, hash, storage, actor, r, plan)
    requires LoadPlan(db, actor, r.teamId, r.membershipId) == Some(plan)
    ensures ExactlyTheProduct(db, r, plan.member.userId, Rows(r, actor, Pairs(plan.projects, plan.devices)))
  {
    var rows := Rows(r, actor, Pairs(plan.projects, plan.devices));
    forall k | 0 <= k < |rows| ensures Warranted(db, r, plan.member.userId, rows, k) {
      RowIsWarranted(db, hash, storage, actor, r, plan, k);
    }
    forall p, d | Eligible(db, r.teamId, plan.member.userId, p, d) ensures exists k :: Grants(r, rows, k, p, d) {
      var k := PairIsGranted(db, hash, storage, actor, r, plan, p, d);
    }
    RowsDiffer(db, actor, r, plan);
  }

  lemma {:induction false} MemberFound(rows: seq<Membership>, teamId: Id, membershipId: Id)
    ensures match FindMember(rows, teamId, membershipId)
      case Some(m) => m in rows && m.id == membershipId && m.teamId == teamId
      case None => forall m :: m in rows ==> m.id != membershipId || m.teamId != teamId
  {
    if rows != [] {
      MemberFound(rows[1..], teamId, membershipId);
    }
  }

  /** That one membership becomes active and every other row stays as it was. */
  ghost predicate OnlyActivated(before: seq<Membership>, after: seq<Membership>, membershipId: Id) {
    && |after| == |before|
    && forall m :: 0 <= m < |before| ==>
         after[m] == before[m].(lifecycle := if before[m].id == membershipId then Active else before[m].lifecycle)
  }

  /**
   A committed run adds exactly one grant for each pair of an initialised active project of the team and an
   active device of the member, none besides, at most 128, and makes that member active and no other.
   */
  lemma {:induction false} ProvisionedExactly(
    db: Database, hash: Bytes -> Bytes, storage: nat -> bool, actor: Actor, r: Request, plan: Plan)
    requires db.Valid() && Decide(db, hash, storage, actor, r) == Provisioned
    requires LoadPlan(db, actor, r.teamId, r.membershipId) == Some(plan)
    ensures plan.member in db.memberships && plan.member.id == r.membershipId && plan.member.teamId == r.teamId
    ensures var t := After(db, actor, r, plan);
      && db.grants <= t.grants && |t.grants| - |db.grants| <= MAX_GRANTS
      && ExactlyTheProduct(db, r, plan.member.userId, t.grants[|db.grants|..])
      && OnlyActivated(db.memberships, t.memberships, r.membershipId)
      && t.activations == (if plan.member.lifecycle == Active then db.activations
                           else db.activations + [ActivationRow(r.activation.objectId, r.membershipId, r.teamId)])
      && t.operations - {r.operationId} == db.operations - {r.operationId}
      && t.operations[r.operationId]
         == Operation(actor.userId, actor.deviceId, true, r.activation.digest, Status.Committed)
      && (forall id :: id in t.objects <==>
            || id in db.objects || id == r.activation.objectId
            || exists k :: 0 <= k < |r.grants| && r.grants[k].objectId == id)
      && t.devices == db.devices && t.projects == db.projects && t.activeTeams == db.activeTeams
  {
    MemberFound(db.memberships, r.teamId, r.membershipId);
    RowsAreTheProduct(db, hash, storage, actor, r, plan);
    var rows := Rows(r, actor, Pairs(plan.projects, plan.devices));
    assert After(db, actor, r, plan).grants[|db.grants|..] == rows;
  }

  lemma PairIsGranted(
    db: Database, hash: Bytes -> Bytes, storage: nat -> bool, actor: Actor, r: Request, plan: Plan,
    p: Project, d: Device)
    returns (k: int)
    requires TransactionOk(db, hash, storage, actor, r, plan)
    requires LoadPlan(db, actor, r.teamId, r.membershipId) == Some(plan)
    requires Eligible(db, r.teamId, plan.member.userId, p, d)
    ensures Grants(r, Rows(r, actor, Pairs(plan.projects, plan.devices)), k, p, d)
  {
    var pairs := Pairs(plan.projects, plan.devices);
    ProjectsExact(db.projects, r.teamId);
    DevicesExact(db.devices, plan.member.userId);
    PairsComplete(plan.projects, plan.devices);
    var pair := Pair(PlannedProject(p.id, p.currentEpoch, Head(p.environments).value),
      PlannedDevice(d.id, d.encryptionKey));
    assert pair.project in plan.projects && pair.device in plan.devices && pair in pairs;
    k :| 0 <= k < |pairs| && pairs[k] == pair;
    assert Accepted(db, hash, storage, actor, r, pairs, k);
  }

  lemma RowIsWarranted(
    db: Database, hash: Bytes -> Bytes, storage: nat -> bool, actor: Actor, r: Request, plan: Plan, k: nat)
    requires TransactionOk(db, hash, storage, actor, r, plan) && k < |Pairs(plan.projects, plan.devices)|
    requires LoadPlan(db, actor, r.teamId, r.membershipId) == Some(plan)
    ensures Warranted(db, r, plan.member.userId, Rows(r, actor, Pairs(plan.projects, plan.devices)), k)
  {
    var pairs := Pairs(plan.projects, plan.devices);
    ProjectsExact(db.projects, r.teamId);
    DevicesExact(db.devices, plan.member.userId);
    PairsComplete(plan.projects, plan.devices);
    var pair := pairs[k];
    assert Pair(pair.project, pair.device) in pairs;
    assert Accepted(db, hash, storage, actor, r, pairs, k);
    var p :| p in db.projects && Initialised(p, r.teamId)
      && pair.project == PlannedProject(p.id, p.currentEpoch, Head(p.environments).value);
    var d :| d in db.devices && d.userId == plan.member.userId && d.active
      && pair.device == PlannedDevice(d.id, d.encryptionKey);
    assert Eligible(db, r.teamId, plan.member.userId, p, d);
    assert Grants(r, Rows(r, actor, pairs), k, p, d);
  }

  lemma RowsDiffer(db: Database, actor: Actor, r: Request, plan: Plan)
    requires db.Valid() && LoadPlan(db, actor, r.teamId, r.membershipId) == Some(plan)
    requires |r.grants| == |plan.projects| * |plan.devices|
    ensures var rows := Rows(r, actor, Pairs(plan.projects, plan.devices));
      forall j, k :: 0 <= j < k < |rows| ==>
        (rows[j].projectId, rows[j].recipientDeviceId) != (rows[k].projectId, rows[k].recipientDeviceId)
  {
    ProjectsDistinct(db.projects, r.teamId);
    DevicesDistinct(db.devices, plan.member.userId);
    PairsDistinct(plan.projects, plan.devices);
    PairsComplete(plan.projects, plan.devices);
    var pairs := Pairs(plan.projects, plan.devices);
    forall j, k | 0 <= j < k < |pairs|
      ensures (pairs[j].project.id, pairs[j].device.id) != (pairs[k].project.id, pairs[k].device.id)
    {
      var a, b := pairs[j], pairs[k];
      assert Pair(a.project, a.device) in pairs && Pair(b.project, b.device) in pairs;
      assert a != b;
    }
  }

  lemma ObjectsKept(db: Database, actor: Actor, r: Request, plan: Plan)
    requires db.Valid() && |r.grants| == |plan.projects| * |plan.devices|
    ensures After(db, actor, r, plan).Valid()
  {
    var t, rows := After(db, actor, r, plan), Rows(r, actor, Pairs(plan.projects, plan.devices));
    forall g | g in t.grants ensures g.objectId in t.objects {
      if g !in db.grants {
        var k :| 0 <= k < |rows| && rows[k] == g;
        assert g.objectId == r.grants[k].objectId;
      }
    }
  }

  /** Sending a committed request again is answered as done and changes nothing. */
  lemma {:induction false} ReplayedAfterwards(
    db: Database, hash: Bytes -> Bytes, storage: nat -> bool, again: nat -> bool, actor: Actor, r: Request, plan: Plan)
    requires Decide(db, hash, storage, actor, r) == Provisioned
    requires LoadPlan(db, actor, r.teamId, r.membershipId) == Some(plan)
    ensures Decide(After(db, actor, r, plan), hash, again, actor, r) == Replayed
  {
    assert ActorDeviceActive(After(db, actor, r, plan), actor);
  }

  // ---------- The transaction ----------

  /** `grantObject.count`: the rows of the membership whose object is among the given ones. */
  function CountGrants(rows: seq<GrantRow>, membershipId: Id, objects: set<Id>): nat {
    if rows == [] then 0
    else
      CountGrants(rows[..|rows| - 1], membershipId, objects)
      + if Last(rows).membershipId == membershipId && Last(rows).objectId in objects then 1 else 0
  }

  lemma {:induction false} CountNew(old': seq<GrantRow>, rows: seq<GrantRow>, membershipId: Id, objects: set<Id>)
    requires forall g :: g in old' ==> g.objectId !in objects
    requires forall g :: g in rows ==> g.membershipId == membershipId && g.objectId in objects
    ensures CountGrants(old' + rows, membershipId, objects) == |rows|
  {
    if rows != [] {
      assert (old' + rows)[..|old' + rows| - 1] == old' + rows[..|rows| - 1];
      CountNew(old', rows[..|rows| - 1], membershipId, objects);
    } else if old' != [] {
      assert (old' + rows)[..|old' + rows| - 1] == old'[..|old'| - 1] + [];
      CountNew(old'[..|old'| - 1], [], membershipId, objects);
    }
  }

  class ProvisioningService {
    const hash: Bytes -> Bytes
    var database: Database

    constructor (hash: Bytes -> Bytes, database: Database)
      ensures this.hash == hash && this.database == database
    {
      this.hash, this.database := hash, database;
    }

    /** Checks one grant against its pair and adds its rows to the draft. */
    method DraftOne(
      actor: Actor, r: Request, storage: nat -> bool, operations: map<Id, Operation>, ghost pairs: seq<Pair>,
      index: nat, pair: Pair, before: Database, known: seq<Reference>)
      returns (ok: bool, draft: Database, references: seq<Reference>)
      requires index < |pairs| && pairs[index] == pair
      requires Drafted(database, operations, hash, storage, actor, r, pairs, index, before, known)
      ensures ok <==> Accepted(database, hash, storage, actor, r, pairs, index)
      ensures ok ==> Drafted(database, operations, hash, storage, actor, r, pairs, index + 1, draft, references)
    {
      draft, references := before, known;
      var g := r.grants[index];
      if !GrantOk(hash, actor, r.teamId, pair, g) || !storage(index) || g.objectId in draft.objects {
        return false, draft, references;
      }
      DraftedNext(database, operations, hash, storage, actor, r, pairs, index, draft, references);
      draft := draft.(objects := draft.objects + {g.objectId}, grants := draft.grants + [Row(r, actor, pair, g)]);
      references := references + [Reference(pair.project.id, pair.device.id, pair.project.epoch, g.digest)];
      return true, draft, references;
    }

    /** The nested loops over the plan: checks each grant and adds its rows to a draft, or gives up. */
    method DraftGrants(actor: Actor, r: Request, storage: nat -> bool, plan: Plan, operations: map<Id, Operation>)
      returns (ok: bool, draft: Database, references: seq<Reference>)
      requires |r.grants| == |plan.projects| * |plan.devices|
      ensures var pairs := Pairs(plan.projects, plan.devices);
        if ok then Drafted(database, operations, hash, storage, actor, r, pairs, |pairs|, draft, references)
        else exists k :: 0 <= k < |pairs| && !Accepted(database, hash, storage, actor, r, pairs, k)
    {
      ghost var pairs := Pairs(plan.projects, plan.devices);
      draft, references := database.(operations := operations), [];
      DraftedNone(database, operations, hash, storage, actor, r, pairs);
      var index := 0;
      for i := 0 to |plan.projects|
        invariant AtRow(plan, i, index)
        invariant Drafted(database, operations, hash, storage, actor, r, pairs, index, draft, references)
      {
        ghost var start := index;
        for j := 0 to |plan.devices|
          invariant index == start + j
          invariant Drafted(database, operations, hash, storage, actor, r, pairs, index, draft, references)
        {
          PairAtRow(plan, i, start, j);
          var pair := Pair(plan.projects[i], plan.devices[j]);
          ok, draft, references := DraftOne(actor, r, storage, operations, pairs, index, pair, draft, references);
          if !ok {
            return;
          }
          index := index + 1;
        }
        NextRow(plan, i, start);
      }
      LastRow(plan, index);
      return true, draft, references;
    }

    /** The checks and writes once the plan is known, on a draft that is stored only if every check passes. */
    method Provision(actor: Actor, r: Request, storage: nat -> bool, plan: Plan, operations: map<Id, Operation>)
      returns (ok: bool)
      requires database.Valid() && Begin(database.operations, r.operationId, Command(actor, r)) == Begun(operations)
      modifies this
      ensures database.Valid() && (ok <==> TransactionOk(old(database), hash, storage, actor, r, plan))
      ensures database == if ok then After(old(database), actor, r, plan) else old(database)
    {
      if !ActivationOk(plan, actor, r) {
        return false;
      }
      var drafted, draft, references := DraftGrants(actor, r, storage, plan, operations);
      if !drafted {
        return false;
      }
      CompleteDraft(database, operations, hash, storage, actor, r, plan, draft, references);
      if references != r.activation.references || !storage(|r.grants|) || r.activation.objectId in draft.objects {
        return false;
      }
      if CountGrants(draft.grants, r.membershipId, ObjectIds(r.grants, |r.grants|)) != |r.grants| {
        return false;
      }
      ObjectsKept(database, actor, r, plan);
      assert operations[r.operationId := Command(actor, r).(status := Status.Committed)]
        == database.operations[r.operationId := Command(actor, r).(status := Status.Committed)];
      database := Activated(draft, actor, r, plan.member);
      return true;
    }

    /** The transaction: nothing is stored unless the run commits. */
    method Post(actor: Actor, r: Request, storage: nat -> bool) returns (outcome: Outcome)
      requires database.Valid()
      modifies this
      ensures database.Valid() && outcome == Decide(old(database), hash, storage, actor, r)
      ensures outcome == Provisioned ==>
        exists a, m :: MayProvision(old(database), actor, r.teamId, r.membershipId, a, m)
      ensures outcome != Provisioned ==> database == old(database)
      ensures outcome == Provisioned ==>
        exists plan :: LoadPlan(old(database), actor, r.teamId, r.membershipId) == Some(plan)
          && |r.grants| == |plan.projects| * |plan.devices| && database == After(old(database), actor, r, plan)
    {
      if !RequestOk(database, actor, r) {
        return Refused;
      }
      var begun := Begin(database.operations, r.operationId, Command(actor, r));
      if begun.Conflict? {
        return Refused;
      }
      if begun.Idempotent? {
        return Replayed;
      }
      PlanExactly(database, actor, r.teamId, r.membershipId);
      var found := LoadPlan(database, actor, r.teamId, r.membershipId);
      if found.None? {
        return Refused;
      }
      var ok := Provision(actor, r, storage, found.value, begun.operations);
      return if ok then Provisioned else Refused;
    }
  }

  /** The pairs of the first i projects are this many. */
  ghost predicate AtRow(plan: Plan, i: nat, index: int) {
    i <= |plan.projects| && index == |Pairs(plan.projects[..i], plan.devices)|
  }

  lemma {:induction false} PairAtRow(plan: Plan, i: nat, start: nat, j: nat)
    requires i < |plan.projects| && j < |plan.devices| && AtRow(plan, i, start)
    ensures var pairs := Pairs(plan.projects, plan.devices);
      start + j < |pairs| && pairs[start + j] == Pair(plan.projects[i], plan.devices[j])
  {
    PairAt(plan.projects, plan.devices, i, j);
  }

  lemma NextRow(plan: Plan, i: nat, start: nat)
    requires i < |plan.projects| && AtRow(plan, i, start)
    ensures AtRow(plan, i + 1, start + |plan.devices|)
  {
    assert plan.projects[..i + 1][..i] == plan.projects[..i];
  }

  lemma LastRow(plan: Plan, index: nat)
    requires AtRow(plan, |plan.projects|, index)
    ensures index == |Pairs(plan.projects, plan.devices)|
  {
    assert plan.projects[..|plan.projects|] == plan.projects;
  }

  lemma DraftedNone(
    db: Database, operations: map<Id, Operation>, hash: Bytes -> Bytes, storage: nat -> bool, actor: Actor, r: Request,
    pairs: seq<Pair>)
    requires |pairs| <= |r.grants|
    ensures Drafted(db, operations, hash, storage, actor, r, pairs, 0, db.(operations := operations), [])
  {
    assert db.grants + Rows(r, actor, pairs[..0]) == db.grants;
  }

  /** The draft after the first k pairs. */
  ghost predicate Drafted(
    db: Database, operations: map<Id, Operation>, hash: Bytes -> Bytes, storage: nat -> bool, actor: Actor, r: Request,
    pairs: seq<Pair>, k: nat, draft: Database, references: seq<Reference>)
  {
    && k <= |pairs| <= |r.grants|
    && (forall n :: 0 <= n < k ==> Accepted(db, hash, storage, actor, r, pairs, n))
    && draft == db.(operations := operations,
                    objects := db.objects + ObjectIds(r.grants, k),
                    grants := db.grants + Rows(r, actor, pairs[..k]))
    && references == References(pairs[..k], r.grants)
  }

  lemma DraftedNext(
    db: Database, operations: map<Id, Operation>, hash: Bytes -> Bytes, storage: nat -> bool, actor: Actor, r: Request,
    pairs: seq<Pair>, k: nat, draft: Database, references: seq<Reference>)
    requires Drafted(db, operations, hash, storage, actor, r, pairs, k, draft, references)
    requires k < |pairs| && Accepted(db, hash, storage, actor, r, pairs, k)
    ensures var g, pair := r.grants[k], pairs[k];
      Drafted(db, operations, hash, storage, actor, r, pairs, k + 1,
        draft.(objects := draft.objects + {g.objectId}, grants := draft.grants + [Row(r, actor, pair, g)]),
        references + [Reference(pair.project.id, pair.device.id, pair.project.epoch, g.digest)])
  {
    assert ObjectIds(r.grants, k + 1) == ObjectIds(r.grants, k) + {r.grants[k].objectId};
    assert Rows(r, actor, pairs[..k + 1]) == Rows(r, actor, pairs[..k]) + [Row(r, actor, pairs[k], r.grants[k])];
    assert References(pairs[..k + 1], r.grants) == References(pairs[..k], r.grants)
      + [Reference(pairs[k].project.id, pairs[k].device.id, pairs[k].project.epoch, r.grants[k].digest)];
  }

  /** The count before activation never falls short: every new row is counted, and no older one. */
  lemma AllCounted(
    db: Database, hash: Bytes -> Bytes, storage: nat -> bool, actor: Actor, r: Request, pairs: seq<Pair>)
    requires db.Valid() && |pairs| == |r.grants|
    requires forall k :: 0 <= k < |pairs| ==> Accepted(db, hash, storage, actor, r, pairs, k)
    ensures CountGrants(db.grants + Rows(r, actor, pairs), r.membershipId, ObjectIds(r.grants, |r.grants|))
      == |r.grants|
  {
    var ids := ObjectIds(r.grants, |r.grants|);
    forall x | x in ids ensures x !in db.objects {
      var k :| 0 <= k < |r.grants| && r.grants[k].objectId == x;
      assert Accepted(db, hash, storage, actor, r, pairs, k);
    }
    CountNew(db.grants, Rows(r, actor, pairs), r.membershipId, ids);
  }

  /** A draft of all the grants is the database after the run but for its last writes. */
  lemma CompleteDraft(
    db: Database, operations: map<Id, Operation>, hash: Bytes -> Bytes, storage: nat -> bool, actor: Actor, r: Request,
    plan: Plan, draft: Database, references: seq<Reference>)
    requires db.Valid() && |r.grants| == |plan.projects| * |plan.devices|
    requires var pairs := Pairs(plan.projects, plan.devices);
      Drafted(db, operations, hash, storage, actor, r, pairs, |pairs|, draft, references)
    ensures var pairs := Pairs(plan.projects, plan.devices);
      && draft == db.(operations := operations, objects := db.objects + ObjectIds(r.grants, |r.grants|),
                      grants := db.grants + Rows(r, actor, pairs))
      && references == References(pairs, r.grants)
    ensures CountGrants(draft.grants, r.membershipId, ObjectIds(r.grants, |r.grants|)) == |r.grants|
  {
    var pairs := Pairs(plan.projects, plan.devices);
    assert pairs[..|pairs|] == pairs;
    AllCounted(db, hash, storage, actor, r, pairs);
  }
}
