// Binding GitHub App installations to tenants: the connector rows, the claim
// nonces and the install intents, and what each handler does to them
// (scm_connectors.go, scm_install_intent.go, cred_scope.go).
module Connectors {
  import opened Text

  datatype Scope = AdminScope | OrgScope | UserScope

  datatype ConnStatus = PendingClaim | Active | Deleted

  /** The claim_nonce_hash entry of a row's metadata. The hash is injective, so
      a stored hash is written as the token it belongs to. */
  datatype Nonce = Absent | Blank | Stored(token: nat)

  /** A row's id is an injective hash of these three. */
  datatype ConnId = ConnId(owner: string, proj: string, inst: string)

  datatype Connector = Connector(
    inst: string, org: string, proj: string, scope: Scope, user: string, login: string,
    status: ConnStatus, nonce: Nonce, created: int, updated: int)

  datatype Intent = Intent(serial: nat, org: string, proj: string, user: string, personal: bool, minted: int, expires: int)

  datatype Store = Store(
    live: map<ConnId, Connector>,
    nextToken: nat,
    intents: map<string, Intent>,
    nextIntent: nat,
    claims: seq<nat>,                 // the tokens that activated a row, in order
    consumed: seq<(nat, int, int)>)   // serial, time and expiry of each consumed intent

  const DEFAULT_PROJECT: string := "default-project"
  const TENANT_ALL: string := "all"
  const INTENT_TTL: int := 45 * 60 * 1000
  const INTENT_SLACK: int := 2 * 60 * 1000

  function ProjectOr(proj: string): string {
    if proj == "" || proj == TENANT_ALL then DEFAULT_PROJECT else proj
  }

  // ----- Predicates on a row -----

  /** A scope column always holds one of the three scopes here, so the legacy
      inference is the identity. */
  predicate UsableForWatch(c: Connector) {
    c.status == Active && (c.org != "" || (c.scope == UserScope && c.user != ""))
  }

  predicate IsUnclaimed(c: Connector) {
    || c.status == PendingClaim
    || (c.org == "" && c.scope != AdminScope && !(c.scope == UserScope && c.user != ""))
  }

  /** Who a row belongs to. */
  datatype Binder = Binder(org: string, proj: string, scope: Scope, user: string)

  function BinderOf(c: Connector): Binder {
    Binder(c.org, c.proj, c.scope, c.user)
  }

  // ----- Looking rows up -----

  predicate LiveFor(live: map<ConnId, Connector>, id: ConnId, inst: string) {
    id in live && live[id].inst == inst && live[id].status != Deleted
  }

  /** findConnectorByInstallation: an active row if there is one, else a pending
      one, whatever the order in which the rows are walked. */
  ghost predicate Finds(live: map<ConnId, Connector>, inst: string, r: Option<ConnId>) {
    match r
    case Some(id) =>
      && inst != ""
      && LiveFor(live, id, inst)
      && (live[id].status == PendingClaim ==>
            forall o :: LiveFor(live, o, inst) ==> live[o].status == PendingClaim)
    case None => inst == "" || forall id :: !LiveFor(live, id, inst)
  }

  ghost function Find(live: map<ConnId, Connector>, inst: string): (r: Option<ConnId>)
    ensures Finds(live, inst, r)
  {
    if inst == "" then None
    else if a :| LiveFor(live, a, inst) && live[a].status == Active then Some(a)
    else if p :| LiveFor(live, p, inst) then Some(p)
    else None
  }

  function SoftDeleteOthers(live: map<ConnId, Connector>, keep: ConnId, inst: string, now: int): map<ConnId, Connector> {
    map id | id in live ::
      if id != keep && live[id].inst == inst && live[id].status != Deleted
      then live[id].(status := Deleted, updated := now)
      else live[id]
  }

  // ----- The handlers -----

  function FreshRow(inst: string, now: int): Connector {
    Connector(inst, "", "", OrgScope, "", "", PendingClaim, Absent, now, now)
  }

  /** The setup callback. The install state, when it parses, names a tenant. */
  ghost function Callback(s: Store, inst: string, org: string, projRaw: string, user: string, now: int): Store {
    var proj := ProjectOr(projRaw);
    var found := Find(s.live, inst);
    if inst == "" then s
    else if found.Some? && s.live[found.value].status == Active then
      s.(live := SoftDeleteOthers(s.live, found.value, inst, now))
    else if org != "" || user != "" then
      var id := if found.Some? then found.value else ConnId(if org != "" then org else "user:" + user, proj, inst);
      var row := if found.Some? then s.live[found.value] else FreshRow(inst, now);
      var bound := row.(org := org, proj := proj, scope := if org == "" then UserScope else OrgScope, user := user,
                        inst := inst, status := Active, nonce := Absent, updated := now);
      s.(live := SoftDeleteOthers(s.live[id := bound], id, inst, now))
    else
      var id := if found.Some? then found.value else ConnId("pending", "pending", inst);
      var row := if found.Some? then s.live[found.value] else FreshRow(inst, now);
      var pending := row.(org := "", proj := "", status := PendingClaim, nonce := Stored(s.nextToken), updated := now);
      s.(live := SoftDeleteOthers(s.live[id := pending], id, inst, now), nextToken := s.nextToken + 1)
  }

  /** The session behind a claim or finish-install request. */
  datatype Caller = Caller(personal: bool, org: string, proj: string, user: string)

  /** claimTenantFromRequest */
  function ClaimTenant(r: Caller): Option<Binder> {
    if r.personal then
      if r.user == "" then None else Some(Binder("", ProjectOr(r.proj), UserScope, r.user))
    else if r.org == "" then None
    else Some(Binder(r.org, ProjectOr(r.proj), OrgScope, r.user))
  }

  /** activatePendingConnectorLocked */
  function Activate(live: map<ConnId, Connector>, id: ConnId, b: Binder, now: int): map<ConnId, Connector>
    requires id in live
  {
    var c := live[id].(org := b.org, proj := b.proj, scope := b.scope,
                       user := if b.user != "" then b.user else live[id].user,
                       status := Active, nonce := Absent, updated := now);
    SoftDeleteOthers(live[id := c], id, c.inst, now)
  }

  datatype ClaimOutcome = Claimed | NotFound | NotPending | InvalidToken | NoTenant

  function ClaimResult(s: Store, id: ConnId, token: nat, r: Caller): ClaimOutcome {
    if id !in s.live || s.live[id].status == Deleted then NotFound
    else if s.live[id].status != PendingClaim then NotPending
    else if s.live[id].nonce != Stored(token) then InvalidToken
    else if ClaimTenant(r).None? then NoTenant
    else Claimed
  }

  function Claim(s: Store, id: ConnId, token: nat, r: Caller, now: int): Store {
    if ClaimResult(s, id, token, r).Claimed? then
      s.(live := Activate(s.live, id, ClaimTenant(r).value, now), claims := s.claims + [token])
    else s
  }

  /** ensureGitHubAppConnector, from an installation webhook. The metadata is
      read through fmt.Sprint, which renders a missing entry as "<nil>": only an
      entry that is present and blank is minted again. */
  ghost function Provision(s: Store, inst: string, login: string, mintOk: bool, now: int): Store {
    var found := Find(s.live, inst);
    if inst == "" then s
    else if found.Some? then
      var id := found.value;
      var c := s.live[id];
      var named := if login != "" && c.login == "" then c.(login := login, updated := now) else c;
      if c.status == PendingClaim && c.nonce == Blank && mintOk then
        s.(live := SoftDeleteOthers(s.live[id := named.(nonce := Stored(s.nextToken), updated := now)], id, inst, now),
           nextToken := s.nextToken + 1)
      else
        s.(live := SoftDeleteOthers(s.live[id := named], id, inst, now))
    else
      var id := ConnId("pending", "pending", inst);
      var row := FreshRow(inst, now).(login := login, nonce := if mintOk then Stored(s.nextToken) else Absent);
      s.(live := SoftDeleteOthers(s.live[id := row], id, inst, now),
         nextToken := s.nextToken + (if mintOk then 1 else 0))
  }

  datatype RemintOutcome = Reminted(id: ConnId, token: nat) | RemintNotFound | RemintNotPending | AlreadyIssued | InvalidPrior

  /** handleIssueClaimToken. Here too a missing entry reads as "<nil>", so it
      counts as an existing hash that no prior token matches. */
  ghost function RemintResult(s: Store, inst: string, force: bool, prior: Option<nat>): RemintOutcome {
    var found := Find(s.live, inst);
    if found.None? then RemintNotFound
    else
      var c := s.live[found.value];
      if c.status != PendingClaim then RemintNotPending
      else if c.nonce != Blank && !force then AlreadyIssued
      else if c.nonce != Blank && prior.Some? && c.nonce != Stored(prior.value) then InvalidPrior
      else Reminted(found.value, s.nextToken)
  }

  ghost function Remint(s: Store, inst: string, force: bool, prior: Option<nat>, now: int): Store {
    var r := RemintResult(s, inst, force, prior);
    if r.Reminted? then
      s.(live := s.live[r.id := s.live[r.id].(nonce := Stored(r.token), updated := now)],
         nextToken := s.nextToken + 1)
    else s
  }

  function Delete(s: Store, id: ConnId, allowed: bool): Store {
    if id in s.live && s.live[id].status != Deleted && !IsUnclaimed(s.live[id]) && allowed
    then s.(live := s.live - {id}) else s
  }

  // ----- Install intents -----

  function IntentKey(user: string, org: string, personal: bool): string {
    if personal || org == "" then "user:" + user else "org:" + org + "|user:" + user
  }

  function Prune(intents: map<string, Intent>, now: int): map<string, Intent> {
    map k | k in intents && intents[k].expires > now :: intents[k]
  }

  function Remember(s: Store, orgRaw: string, proj: string, user: string, personal: bool, now: int): Store {
    if user == "" then s
    else
      var org := if personal then "" else orgRaw;
      var intent := Intent(s.nextIntent, org, ProjectOr(proj), user, personal, now, now + INTENT_TTL);
      s.(intents := Prune(s.intents, now)[IntentKey(user, org, personal) := intent], nextIntent := s.nextIntent + 1)
  }

  function Peek(s: Store, user: string, org: string, personal: bool, now: int): (Store, Option<Intent>) {
    if user == "" then (s, None)
    else
      var kept, key := Prune(s.intents, now), IntentKey(user, org, personal);
      (s.(intents := kept), if key in kept then Some(kept[key]) else None)
  }

  function Consume(s: Store, user: string, org: string, personal: bool, now: int): (Store, Option<Intent>) {
    if user == "" then (s, None)
    else
      var kept, key := Prune(s.intents, now), IntentKey(user, org, personal);
      if key !in kept then (s.(intents := kept), None)
      else (s.(intents := kept - {key}, consumed := s.consumed + [(kept[key].serial, now, kept[key].expires)]),
            Some(kept[key]))
  }

  /** A pending row that may stem from the install the intent announced. */
  predicate Matches(live: map<ConnId, Connector>, id: ConnId, intent: Intent) {
    && id in live && live[id].status == PendingClaim
    && (if live[id].created > live[id].updated then live[id].created else live[id].updated) >= intent.minted - INTENT_SLACK
  }

  function Candidates(live: map<ConnId, Connector>, intent: Intent): set<ConnId> {
    set id | id in live && Matches(live, id, intent)
  }

  /** What handleGitHubFinishInstall does to the intents, and the pending row it
      settles on, if any. */
  ghost function FinishTarget(s: Store, inst: string, r: Caller, now: int): (Store, Option<ConnId>)
    requires ClaimTenant(r).Some?
  {
    var org := ClaimTenant(r).value.org;
    if inst != "" then
      var found := Find(s.live, inst);
      if found.None? || s.live[found.value].status != PendingClaim then (s, None)
      else (Consume(s, r.user, org, r.personal, now).0, found)
    else
      var (s1, intent) := Peek(s, r.user, org, r.personal, now);
      if intent.None? then (s1, None)
      else
        var matched := Candidates(s1.live, intent.value);
        if |matched| != 1 then (s1, None)
        else
          var id :| id in matched;
          (Consume(s1, r.user, org, r.personal, now).0, Some(id))
  }

  ghost function FinishInstall(s: Store, inst: string, r: Caller, now: int): Store {
    if ClaimTenant(r).None? then s
    else
      var (s1, target) := FinishTarget(s, inst, r, now);
      if target.None? then s1
      else s1.(live := Activate(s1.live, target.value, ClaimTenant(r).value, now))
  }

  // ----- Runs -----

  datatype Step =
    | DoCallback(inst: string, org: string, proj: string, user: string, now: int)
    | DoClaim(id: ConnId, token: nat, caller: Caller, now: int)
    | DoFinish(inst: string, caller: Caller, now: int)
    | DoProvision(inst: string, login: string, mintOk: bool, now: int)
    | DoRemint(inst: string, force: bool, prior: Option<nat>, now: int)
    | DoRemember(org: string, proj: string, user: string, personal: bool, now: int)
    | DoDelete(id: ConnId, allowed: bool)

  ghost function Apply(s: Store, step: Step): Store {
    match step
    case DoCallback(inst, org, proj, user, now) => Callback(s, inst, org, proj, user, now)
    case DoClaim(id, token, r, now) => Claim(s, id, token, r, now)
    case DoFinish(inst, r, now) => FinishInstall(s, inst, r, now)
    case DoProvision(inst, login, mintOk, now) => Provision(s, inst, login, mintOk, now)
    case DoRemint(inst, force, prior, now) => Remint(s, inst, force, prior, now)
    case DoRemember(org, proj, user, personal, now) => Remember(s, org, proj, user, personal, now)
    case DoDelete(id, allowed) => Delete(s, id, allowed)
  }

  ghost function Run(s: Store, steps: seq<Step>): Store
    decreases |steps|
  {
    if steps == [] then s else Run(Apply(s, steps[0]), steps[1..])
  }

  const EMPTY: Store := Store(map[], 0, map[], 0, [], [])

  // ----- The inductive invariant -----

  ghost predicate OneLivePerInstallation(live: map<ConnId, Connector>) {
    forall a, b, inst :: LiveFor(live, a, inst) && LiveFor(live, b, inst) ==> a == b
  }

  ghost predicate RowsWellFormed(live: map<ConnId, Connector>) {
    forall id :: id in live ==>
      && live[id].inst == id.inst && id.inst != ""
      && (live[id].status == PendingClaim ==> live[id].org == "" && live[id].proj == "" && live[id].user == "")
      && (live[id].status == Active ==> live[id].nonce == Absent && UsableForWatch(live[id]))
  }

  ghost predicate TokensAccounted(live: map<ConnId, Connector>, next: nat, claims: seq<nat>) {
    && (forall id :: id in live && live[id].nonce.Stored? ==> live[id].nonce.token < next && live[id].nonce.token !in claims)
    && (forall a, b :: a in live && b in live && a != b && live[a].nonce.Stored? ==> live[a].nonce != live[b].nonce)
    && (forall i :: 0 <= i < |claims| ==> claims[i] < next)
    && (forall i, j :: 0 <= i < j < |claims| ==> claims[i] != claims[j])
  }

  ghost predicate IntentsAccounted(s: Store) {
    && (forall k :: k in s.intents ==> s.intents[k].serial < s.nextIntent)
    && (forall k, l :: k in s.intents && l in s.intents && k != l ==> s.intents[k].serial != s.intents[l].serial)
    && (forall i :: 0 <= i < |s.consumed| ==> s.consumed[i].0 < s.nextIntent && s.consumed[i].1 < s.consumed[i].2)
    && (forall i, k :: 0 <= i < |s.consumed| && k in s.intents ==> s.consumed[i].0 != s.intents[k].serial)
    && (forall i, j :: 0 <= i < j < |s.consumed| ==> s.consumed[i].0 != s.consumed[j].0)
  }

  ghost predicate Inv(s: Store) {
    && OneLivePerInstallation(s.live)
    && RowsWellFormed(s.live)
    && TokensAccounted(s.live, s.nextToken, s.claims)
    && IntentsAccounted(s)
  }

  /** Writing one row and then deleting its rivals leaves it the only live one. */
  lemma BindKeepsOneLive(live: map<ConnId, Connector>, id: ConnId, c: Connector, now: int)
    requires OneLivePerInstallation(live) && (id in live && live[id].status != Deleted ==> live[id].inst == c.inst)
    ensures OneLivePerInstallation(SoftDeleteOthers(live[id := c], id, c.inst, now))
  {
    var after := SoftDeleteOthers(live[id := c], id, c.inst, now);
    forall a, b, inst | LiveFor(after, a, inst) && LiveFor(after, b, inst) ensures a == b {
      if inst != c.inst {
        assert LiveFor(live, a, inst) && LiveFor(live, b, inst);
      }
    }
  }

  lemma SoftDeleteKeepsTokens(live: map<ConnId, Connector>, keep: ConnId, inst: string, now: int, next: nat, claims: seq<nat>)
    requires TokensAccounted(live, next, claims)
    ensures TokensAccounted(SoftDeleteOthers(live, keep, inst, now), next, claims)
  {
  }

  /** The common shape of every handler that writes a row. */
  ghost predicate WellWritten(s: Store, id: ConnId, c: Connector) {
    && c.inst == id.inst && id.inst != ""
    && (c.status == PendingClaim ==> c.org == "" && c.proj == "" && c.user == "")
    && (c.status == Active ==> c.nonce == Absent && UsableForWatch(c))
    && (c.nonce.Stored? ==> c.nonce == Stored(s.nextToken) || (id in s.live && s.live[id].nonce == c.nonce))
  }

  lemma {:induction false} WriteKeepsRows(s: Store, id: ConnId, c: Connector, now: int, next: nat, claims: seq<nat>)
    requires Inv(s) && WellWritten(s, id, c)
    requires next >= s.nextToken && (c.nonce == Stored(s.nextToken) ==> next == s.nextToken + 1)
    requires claims == s.claims ||
             (id in s.live && s.live[id].nonce.Stored? && c.nonce == Absent && claims == s.claims + [s.live[id].nonce.token])
    ensures var live := SoftDeleteOthers(s.live[id := c], id, c.inst, now);
            OneLivePerInstallation(live) && RowsWellFormed(live) && TokensAccounted(live, next, claims)
  {
    BindKeepsOneLive(s.live, id, c, now);
    var written := s.live[id := c];
    assert RowsWellFormed(written);
    assert TokensAccounted(written, next, claims);
    SoftDeleteKeepsTokens(written, id, c.inst, now, next, claims);
  }

  /** Every step other than a delete writes at most one row and then deletes its
      rivals. The row it writes is the one an active binder of the same
      installation has, if there is one, and then the binder stays; a nonce it
      stores is fresh or was the row's own. */
  ghost predicate WritesRow(s: Store, t: Store, id: ConnId, c: Connector, now: int) {
    && t.live == SoftDeleteOthers(s.live[id := c], id, c.inst, now)
    && WellWritten(s, id, c)
    && (forall o :: LiveFor(s.live, o, c.inst) && s.live[o].status == Active ==>
          o == id && c.status == Active && BinderOf(c) == BinderOf(s.live[o]))
    && (c.nonce.Stored? && c.nonce != Stored(s.nextToken) ==>
          id in s.live && s.live[id].nonce == c.nonce && s.live[id].status == c.status)
    && (c.nonce == Blank ==> id in s.live && s.live[id].nonce == Blank)
    && (c.nonce == Stored(s.nextToken) ==> t.nextToken == s.nextToken + 1)
  }

  lemma FindActive(live: map<ConnId, Connector>, inst: string, o: ConnId)
    requires OneLivePerInstallation(live) && inst != "" && LiveFor(live, o, inst)
    ensures Find(live, inst) == Some(o)
  {
    var r := Find(live, inst);
    assert r.Some? && LiveFor(live, r.value, inst);
  }

  lemma CallbackWrites(s: Store, inst: string, org: string, proj: string, user: string, now: int)
      returns (id: ConnId, c: Connector)
    requires Inv(s) && inst != ""
    ensures WritesRow(s, Callback(s, inst, org, proj, user, now), id, c, now)
  {
    var found := Find(s.live, inst);
    var row := if found.Some? then s.live[found.value] else FreshRow(inst, now);
    forall o | LiveFor(s.live, o, inst) ensures found == Some(o) {
      FindActive(s.live, inst, o);
    }
    if found.Some? && row.status == Active {
      id, c := found.value, row;
      assert s.live[id := c] == s.live;
    } else if org != "" || user != "" {
      id := if found.Some? then found.value else ConnId(if org != "" then org else "user:" + user, ProjectOr(proj), inst);
      c := row.(org := org, proj := ProjectOr(proj), scope := if org == "" then UserScope else OrgScope, user := user,
                inst := inst, status := Active, nonce := Absent, updated := now);
    } else {
      id := if found.Some? then found.value else ConnId("pending", "pending", inst);
      c := row.(org := "", proj := "", status := PendingClaim, nonce := Stored(s.nextToken), updated := now);
    }
  }

  lemma ActivateWrites(s: Store, t: Store, id: ConnId, r: Caller, now: int) returns (c: Connector)
    requires Inv(s) && id in s.live && s.live[id].status == PendingClaim && ClaimTenant(r).Some?
    requires t.live == Activate(s.live, id, ClaimTenant(r).value, now)
    ensures WritesRow(s, t, id, c, now) && c.nonce == Absent && c.status == Active
  {
    var b := ClaimTenant(r).value;
    c := s.live[id].(org := b.org, proj := b.proj, scope := b.scope,
                     user := if b.user != "" then b.user else s.live[id].user,
                     status := Active, nonce := Absent, updated := now);
    assert LiveFor(s.live, id, c.inst);
  }

  lemma ProvisionWrites(s: Store, inst: string, login: string, mintOk: bool, now: int) returns (id: ConnId, c: Connector)
    requires Inv(s) && inst != ""
    ensures WritesRow(s, Provision(s, inst, login, mintOk, now), id, c, now)
  {
    var found := Find(s.live, inst);
    forall o | LiveFor(s.live, o, inst) ensures found == Some(o) {
      FindActive(s.live, inst, o);
    }
    if found.Some? {
      id := found.value;
      var row := s.live[id];
      var named := if login != "" && row.login == "" then row.(login := login, updated := now) else row;
      c := if row.status == PendingClaim && row.nonce == Blank && mintOk
           then named.(nonce := Stored(s.nextToken), updated := now) else named;
    } else {
      id := ConnId("pending", "pending", inst);
      c := FreshRow(inst, now).(login := login, nonce := if mintOk then Stored(s.nextToken) else Absent);
    }
  }

  lemma RemintWrites(s: Store, inst: string, force: bool, prior: Option<nat>, now: int) returns (id: ConnId, c: Connector)
    requires Inv(s) && RemintResult(s, inst, force, prior).Reminted?
    ensures WritesRow(s, Remint(s, inst, force, prior, now), id, c, now)
    ensures Some(id) == Find(s.live, inst) && c.nonce == Stored(s.nextToken)
  {
    id := Find(s.live, inst).value;
    c := s.live[id].(nonce := Stored(s.nextToken), updated := now);
    forall o | LiveFor(s.live, o, inst) ensures o == id {
      FindActive(s.live, inst, o);
    }
    assert SoftDeleteOthers(s.live[id := c], id, c.inst, now) == s.live[id := c];
  }

  lemma PeekKeepsIntents(s: Store, user: string, org: string, personal: bool, now: int)
    requires IntentsAccounted(s)
    ensures IntentsAccounted(Peek(s, user, org, personal, now).0)
  {
  }

  lemma ConsumeKeepsIntents(s: Store, user: string, org: string, personal: bool, now: int)
    requires IntentsAccounted(s)
    ensures IntentsAccounted(Consume(s, user, org, personal, now).0)
  {
  }

  lemma FinishTargetIs(s: Store, inst: string, r: Caller, now: int)
    requires ClaimTenant(r).Some?
    ensures var (s1, target) := FinishTarget(s, inst, r, now);
            && s1.live == s.live && s1.nextToken == s.nextToken && s1.claims == s.claims
            && (target.Some? ==> target.value in s.live && s.live[target.value].status == PendingClaim)
  {
  }

  lemma {:induction false} FinishTargetIntents(s: Store, inst: string, r: Caller, now: int)
    requires ClaimTenant(r).Some? && IntentsAccounted(s)
    ensures IntentsAccounted(FinishTarget(s, inst, r, now).0)
  {
    var org := ClaimTenant(r).value.org;
    var consumed, peeked := Consume(s, r.user, org, r.personal, now).0, Peek(s, r.user, org, r.personal, now).0;
    var both := Consume(peeked, r.user, org, r.personal, now).0;
    assert FinishTarget(s, inst, r, now).0 in {s, consumed, peeked, both};
    PeekKeepsIntents(s, r.user, org, r.personal, now);
    ConsumeKeepsIntents(s, r.user, org, r.personal, now);
    ConsumeKeepsIntents(peeked, r.user, org, r.personal, now);
  }

  datatype Written = Unwritten | Wrote(id: ConnId, c: Connector, now: int)

  lemma StepWrites(s: Store, step: Step) returns (w: Written)
    requires Inv(s) && !step.DoDelete?
    ensures w.Unwritten? ==> Apply(s, step).live == s.live
    ensures w.Wrote? ==> WritesRow(s, Apply(s, step), w.id, w.c, w.now)
    ensures Apply(s, step).nextToken >= s.nextToken
    ensures Apply(s, step).claims != s.claims ==>
              && w.Wrote? && w.c.nonce == Absent && w.id in s.live && s.live[w.id].nonce.Stored?
              && Apply(s, step).claims == s.claims + [s.live[w.id].nonce.token]
  {
    w := Unwritten;
    match step
    case DoCallback(inst, org, proj, user, now) =>
      if inst != "" {
        var id, c := CallbackWrites(s, inst, org, proj, user, now);
        w := Wrote(id, c, now);
      }
    case DoClaim(id, token, r, now) =>
      if ClaimResult(s, id, token, r).Claimed? {
        var c := ActivateWrites(s, Claim(s, id, token, r, now), id, r, now);
        w := Wrote(id, c, now);
      }
    case DoFinish(inst, r, now) =>
      if ClaimTenant(r).Some? {
        FinishTargetIs(s, inst, r, now);
        var (s1, target) := FinishTarget(s, inst, r, now);
        if target.Some? {
          var c := ActivateWrites(s, FinishInstall(s, inst, r, now), target.value, r, now);
          w := Wrote(target.value, c, now);
        }
      }
    case DoProvision(inst, login, mintOk, now) =>
      if inst != "" {
        var id, c := ProvisionWrites(s, inst, login, mintOk, now);
        w := Wrote(id, c, now);
      }
    case DoRemint(inst, force, prior, now) =>
      if RemintResult(s, inst, force, prior).Reminted? {
        var id, c := RemintWrites(s, inst, force, prior, now);
        w := Wrote(id, c, now);
      }
    case DoRemember(org, proj, user, personal, now) =>
  }

  lemma DeleteKeepsInv(s: Store, id: ConnId, allowed: bool)
    requires Inv(s)
    ensures Inv(Delete(s, id, allowed))
  {
    var t := Delete(s, id, allowed);
    forall a, b, i | LiveFor(t.live, a, i) && LiveFor(t.live, b, i) ensures a == b {
      assert LiveFor(s.live, a, i) && LiveFor(s.live, b, i);
    }
  }

  lemma RememberKeepsIntents(s: Store, org: string, proj: string, user: string, personal: bool, now: int)
    requires IntentsAccounted(s)
    ensures IntentsAccounted(Remember(s, org, proj, user, personal, now))
  {
  }

  lemma OthersLeaveIntents(s: Store, step: Step)
    requires !step.DoFinish? && !step.DoRemember?
    ensures var t := Apply(s, step);
            t.intents == s.intents && t.consumed == s.consumed && t.nextIntent == s.nextIntent
  {
  }

  lemma {:induction false} StepKeepsIntents(s: Store, step: Step)
    requires IntentsAccounted(s)
    ensures IntentsAccounted(Apply(s, step))
  {
    match step
    case DoFinish(inst, r, now) =>
      if ClaimTenant(r).Some? {
        FinishTargetIntents(s, inst, r, now);
      }
    case DoRemember(org, proj, user, personal, now) => RememberKeepsIntents(s, org, proj, user, personal, now);
    case _ => OthersLeaveIntents(s, step);
  }

  lemma {:induction false} StepKeepsInv(s: Store, step: Step)
    requires Inv(s)
    ensures Inv(Apply(s, step))
  {
    if step.DoDelete? {
      DeleteKeepsInv(s, step.id, step.allowed);
    } else {
      var t := Apply(s, step);
      StepKeepsIntents(s, step);
      var w := StepWrites(s, step);
      if w.Wrote? {
        WriteKeepsRows(s, w.id, w.c, w.now, t.nextToken, t.claims);
      } else {
        assert TokensAccounted(t.live, t.nextToken, t.claims);
      }
    }
  }

  lemma {:induction false} RunKeepsInv(s: Store, steps: seq<Step>)
    requires Inv(s)
    ensures Inv(Run(s, steps))
    decreases |steps|
  {
    if steps != [] {
      StepKeepsInv(s, steps[0]);
      RunKeepsInv(Apply(s, steps[0]), steps[1..]);
    }
  }

  // ----- What holds over whole runs -----

  /** One live row per installation; a pending row belongs to nobody and is
      unclaimed; an active row is usable and claimed. */
  lemma RowsOfAnyRun(steps: seq<Step>)
    ensures var s := Run(EMPTY, steps);
            && OneLivePerInstallation(s.live)
            && (forall id :: id in s.live && s.live[id].status == PendingClaim ==>
                  s.live[id].org == "" && IsUnclaimed(s.live[id]) && !UsableForWatch(s.live[id]))
            && (forall id :: id in s.live && s.live[id].status == Active ==>
                  UsableForWatch(s.live[id]) && !IsUnclaimed(s.live[id]))
  {
    RunKeepsInv(EMPTY, steps);
  }

  ghost predicate StillBound(a: Store, b: Store, id: ConnId)
    requires id in a.live
  {
    id in b.live && b.live[id].status == Active
    && BinderOf(b.live[id]) == BinderOf(a.live[id]) && b.live[id].inst == a.live[id].inst
  }

  lemma StepKeepsBinder(s: Store, step: Step, id: ConnId)
    requires Inv(s) && id in s.live && s.live[id].status == Active
    requires !(step.DoDelete? && step.id == id)
    ensures StillBound(s, Apply(s, step), id)
  {
    if !step.DoDelete? {
      var w := StepWrites(s, step);
      assert LiveFor(s.live, id, s.live[id].inst);
      assert w.Wrote? && w.c.inst == s.live[id].inst ==> LiveFor(s.live, id, w.c.inst);
      assert w.Wrote? && w.id == id ==> w.c.inst == s.live[id].inst;
    }
  }

  /** Once an installation is bound, nothing but an explicit delete of that row
      ever changes who it is bound to or unbinds it. This needs the uniqueness
      of live rows: a pending rival, once claimed, would delete the binder. */
  lemma {:induction false} BinderNeverChanges(s: Store, steps: seq<Step>, id: ConnId)
    requires Inv(s) && id in s.live && s.live[id].status == Active
    requires forall i :: 0 <= i < |steps| ==> !(steps[i].DoDelete? && steps[i].id == id)
    ensures StillBound(s, Run(s, steps), id)
    decreases |steps|
  {
    if steps != [] {
      StepKeepsInv(s, steps[0]);
      StepKeepsBinder(s, steps[0], id);
      BinderNeverChanges(Apply(s, steps[0]), steps[1..], id);
    }
  }

  /** Over any run no claim token activates a row twice, and no install intent
      is consumed twice or at or after its expiry. */
  lemma SingleUse(steps: seq<Step>)
    ensures var s := Run(EMPTY, steps);
            && (forall i, j :: 0 <= i < j < |s.claims| ==> s.claims[i] != s.claims[j])
            && (forall i, j :: 0 <= i < j < |s.consumed| ==> s.consumed[i].0 != s.consumed[j].0)
            && (forall i :: 0 <= i < |s.consumed| ==> s.consumed[i].1 < s.consumed[i].2)
  {
    RunKeepsInv(EMPTY, steps);
  }

  /** A token some pending row would accept. */
  ghost predicate Redeemable(s: Store, token: nat) {
    exists id :: id in s.live && s.live[id].status == PendingClaim && s.live[id].nonce == Stored(token)
  }

  lemma {:induction false} StepKeepsDead(s: Store, step: Step, token: nat)
    requires Inv(s) && token < s.nextToken && !Redeemable(s, token)
    ensures !Redeemable(Apply(s, step), token) && token < Apply(s, step).nextToken
  {
    if !step.DoDelete? {
      var w := StepWrites(s, step);
    }
  }

  /** A token that no row accepts any more is refused for ever after. */
  lemma {:induction false} DeadTokenStaysDead(s: Store, steps: seq<Step>, token: nat, id: ConnId, r: Caller)
    requires Inv(s) && token < s.nextToken && !Redeemable(s, token)
    ensures !ClaimResult(Run(s, steps), id, token, r).Claimed?
    decreases |steps|
  {
    if steps != [] {
      StepKeepsInv(s, steps[0]);
      StepKeepsDead(s, steps[0], token);
      DeadTokenStaysDead(Apply(s, steps[0]), steps[1..], token, id, r);
    }
  }

  /** Whatever takes a nonce off its row (a remint, an orphan callback, an
      activation, a delete) makes the earlier token dead. */
  lemma {:induction false} LostNonceIsDead(s: Store, step: Step, id: ConnId, token: nat)
    requires Inv(s) && id in s.live && s.live[id].nonce == Stored(token)
    requires id in Apply(s, step).live ==> Apply(s, step).live[id].nonce != Stored(token)
    ensures !Redeemable(Apply(s, step), token)
  {
    if !step.DoDelete? {
      var w := StepWrites(s, step);
    }
  }

  lemma RemintReplacesNonce(s: Store, inst: string, force: bool, prior: Option<nat>, now: int)
    requires Inv(s)
    ensures var r := RemintResult(s, inst, force, prior);
            var t := Remint(s, inst, force, prior, now);
            r.Reminted? ==>
              && s.live[r.id].status == PendingClaim
              && t.live[r.id].nonce == Stored(r.token) && r.token !in s.claims && !Redeemable(s, r.token)
              && (s.live[r.id].nonce.Stored? ==> !Redeemable(t, s.live[r.id].nonce.token))
  {
  }

  /** finish-install without an installation id: it binds a row exactly when the
      session has an unexpired intent and exactly one pending row matches it;
      otherwise no row changes and every unexpired intent is still there. */
  lemma FinishWithoutIdExactly(s: Store, r: Caller, now: int)
    requires Inv(s) && ClaimTenant(r).Some?
    ensures var t := FinishInstall(s, "", r, now);
            var key := IntentKey(r.user, ClaimTenant(r).value.org, r.personal);
            var binds := r.user != "" && key in s.intents && s.intents[key].expires > now
                         && |Candidates(s.live, s.intents[key])| == 1;
            && (t.live != s.live <==> binds)
            && (!binds ==> t.intents == (if r.user == "" then s.intents else Prune(s.intents, now)))
            && (binds ==> key !in t.intents && t.consumed == s.consumed + [(s.intents[key].serial, now, s.intents[key].expires)])
  {
    FinishTargetIs(s, "", r, now);
    var (s1, target) := FinishTarget(s, "", r, now);
    if target.Some? {
      assert Activate(s1.live, target.value, ClaimTenant(r).value, now)[target.value].status == Active;
    }
  }

  // ----- The missing nonce -----

  ghost predicate NoBlankNonce(s: Store) {
    forall id :: id in s.live ==> s.live[id].nonce != Blank
  }

  lemma {:induction false} RunHasNoBlankNonce(s: Store, steps: seq<Step>)
    requires Inv(s) && NoBlankNonce(s)
    ensures NoBlankNonce(Run(s, steps))
    decreases |steps|
  {
    if steps != [] {
      StepKeepsInv(s, steps[0]);
      if !steps[0].DoDelete? {
        var w := StepWrites(s, steps[0]);
      }
      RunHasNoBlankNonce(Apply(s, steps[0]), steps[1..]);
    }
  }

  /** The repair the handlers promise for a pending row without a nonce never
      happens: in every run a webhook leaves the nonce of an existing row as it
      was, and a remint is granted exactly to a forced request whose prior
      token, if it names one, is the current one. A row whose mint failed
      therefore needs force and no prior token. */
  lemma NonceRepairUnreachable(steps: seq<Step>, inst: string, login: string, mintOk: bool,
                               force: bool, prior: Option<nat>, now: int)
    ensures var s := Run(EMPTY, steps);
            && (forall id :: id in s.live && LiveFor(s.live, id, inst) ==>
                  id in Provision(s, inst, login, mintOk, now).live &&
                  Provision(s, inst, login, mintOk, now).live[id].nonce == s.live[id].nonce)
            && (RemintResult(s, inst, force, prior).Reminted? <==>
                  && Find(s.live, inst).Some? && s.live[Find(s.live, inst).value].status == PendingClaim
                  && force && (prior.Some? ==> s.live[Find(s.live, inst).value].nonce == Stored(prior.value)))
  {
    RunKeepsInv(EMPTY, steps);
    RunHasNoBlankNonce(EMPTY, steps);
  }

  /** Such rows exist: a webhook whose mint failed leaves a pending row without a
      nonce, the next webhook leaves it so although it could mint one, and a
      remint without force is told that a token has been issued. */
  lemma MissingNonceIsKept(inst: string, login: string, now: int, later: int)
    requires inst != ""
    ensures var id := ConnId("pending", "pending", inst);
            var steps := [DoProvision(inst, login, false, now)];
            var s, t := Run(EMPTY, steps), Run(EMPTY, steps + [DoProvision(inst, login, true, later)]);
            && id in s.live && s.live[id].status == PendingClaim && s.live[id].nonce == Absent
            && id in t.live && t.live[id].status == PendingClaim && t.live[id].nonce == Absent
            && RemintResult(t, inst, false, None) == AlreadyIssued
  {
    var id := ConnId("pending", "pending", inst);
    var first, second := DoProvision(inst, login, false, now), DoProvision(inst, login, true, later);
    var s := Provision(EMPTY, inst, login, false, now);
    assert Apply(EMPTY, first) == s && Run(EMPTY, [first]) == s;
    assert forall o :: LiveFor(s.live, o, inst) ==> o == id;
    assert LiveFor(s.live, id, inst);
    var t := Provision(s, inst, login, true, later);
    assert ([first] + [second])[1..] == [second];
    assert Run(EMPTY, [first] + [second]) == Run(s, [second]) == t;
    assert forall o :: LiveFor(t.live, o, inst) ==> o == id;
    assert LiveFor(t.live, id, inst);
  }
}
