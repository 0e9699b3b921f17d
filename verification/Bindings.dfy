// To whom a connector row is bound, told by the request that bound it: the claim,
// the finish-install or the setup callback (scm_connectors.go).
module Bindings {
  import opened Text
  import opened Connectors

  /** The project a request names; a blank one or the catch-all is the default. */
  predicate InProject(c: Connector, proj: string) {
    if proj in {"", TENANT_ALL} then c.proj == DEFAULT_PROJECT else c.proj == proj
  }

  /** The row belongs to whoever made the request: a personal session's user, or
      the session's organization. */
  predicate BelongsTo(c: Connector, r: Caller) {
    && InProject(c, r.proj) && (r.user != "" ==> c.user == r.user)
    && if r.personal then r.user != "" && c.org == "" && c.scope == UserScope
       else r.org != "" && c.org == r.org && c.scope == OrgScope
  }

  /** The row belongs to the tenant the install state of a callback names. */
  predicate NamedByState(c: Connector, org: string, proj: string, user: string) {
    && (org != "" || user != "") && InProject(c, proj) && c.user == user && c.org == org
    && c.scope == if org == "" then UserScope else OrgScope
  }

  predicate IsBound(live: map<ConnId, Connector>, id: ConnId) {
    id in live && live[id].status == Active
  }

  /** A pending row turned into the caller's; what identifies it is kept. */
  predicate BoundTo(was: Connector, c: Connector, r: Caller) {
    && c.status == Active && c.nonce == Absent && BelongsTo(c, r)
    && c.inst == was.inst && c.login == was.login && c.created == was.created
    && (r.user == "" ==> c.user == was.user)
  }

  /** Only rows of one installation differ. */
  ghost predicate OthersKept(a: map<ConnId, Connector>, b: map<ConnId, Connector>, inst: string) {
    && (forall o :: o in a && a[o].inst != inst ==> o in b && b[o] == a[o])
    && (forall o :: o in b && b[o].inst != inst ==> o in a && b[o] == a[o])
  }

  lemma ActivationBinds(live: map<ConnId, Connector>, id: ConnId, r: Caller, now: int)
    requires id in live && ClaimTenant(r).Some?
    ensures var after := Activate(live, id, ClaimTenant(r).value, now);
            && after.Keys == live.Keys && BoundTo(live[id], after[id], r) && OthersKept(live, after, live[id].inst)
            && forall o :: o != id && IsBound(after, o) ==> IsBound(live, o) && after[o] == live[o]
  {
  }

  /** A claim that is granted binds the row to the session that made it, touches
      no other installation, and uses the token up. */
  lemma ClaimBinds(s: Store, id: ConnId, token: nat, r: Caller, now: int)
    requires ClaimResult(s, id, token, r).Claimed?
    ensures var t := Claim(s, id, token, r, now);
            && id in s.live && s.live[id].status == PendingClaim && s.live[id].nonce == Stored(token)
            && id in t.live && BoundTo(s.live[id], t.live[id], r) && OthersKept(s.live, t.live, s.live[id].inst)
            && t.claims == s.claims + [token]
  {
    ActivationBinds(s.live, id, r, now);
  }

  /** A claim is granted exactly to a session with a tenant that shows the token of
      a pending row; else nothing changes. */
  lemma ClaimGrantedExactly(s: Store, id: ConnId, token: nat, r: Caller, now: int)
    ensures ClaimResult(s, id, token, r).Claimed? <==>
              && id in s.live && s.live[id].status == PendingClaim && s.live[id].nonce == Stored(token)
              && if r.personal then r.user != "" else r.org != ""
    ensures !ClaimResult(s, id, token, r).Claimed? ==> Claim(s, id, token, r, now) == s
  {
  }

  /** A finish-install that settles on a row binds it to the session. With an
      installation id the row is the pending one of that installation, without
      one the only candidate. */
  lemma FinishBinds(s: Store, inst: string, r: Caller, now: int)
    requires Inv(s) && ClaimTenant(r).Some?
    ensures var t, target := FinishInstall(s, inst, r, now), FinishTarget(s, inst, r, now).1;
            && (target.None? ==> t.live == s.live)
            && (target.Some? ==>
                  && target.value in s.live && s.live[target.value].status == PendingClaim
                  && (inst != "" ==> s.live[target.value].inst == inst)
                  && target.value in t.live && BoundTo(s.live[target.value], t.live[target.value], r)
                  && OthersKept(s.live, t.live, s.live[target.value].inst)
                  && forall o :: o != target.value && IsBound(t.live, o) ==> IsBound(s.live, o) && t.live[o] == s.live[o])
  {
    FinishTargetIs(s, inst, r, now);
    var target := FinishTarget(s, inst, r, now).1;
    if target.Some? {
      ActivationBinds(s.live, target.value, r, now);
    }
  }

  /** With an installation id it binds exactly when a pending row of it is there
      and no active one. */
  lemma FinishWithIdExactly(s: Store, inst: string, r: Caller, now: int)
    requires Inv(s) && inst != "" && ClaimTenant(r).Some?
    ensures FinishTarget(s, inst, r, now).1.Some? <==>
              exists id :: id in s.live && s.live[id].inst == inst && s.live[id].status == PendingClaim
  {
    if id :| id in s.live && s.live[id].inst == inst && s.live[id].status == PendingClaim {
      assert LiveFor(s.live, id, inst);
    }
  }

  // ----- Over whole runs -----

  /** The step names the tenant of the row. */
  predicate Names(step: Step, c: Connector) {
    match step
    case DoCallback(inst, org, proj, user, _) => c.inst == inst && NamedByState(c, org, proj, user)
    case DoClaim(id, _, r, _) => BelongsTo(c, r)
    case DoFinish(inst, r, _) => (inst != "" ==> c.inst == inst) && BelongsTo(c, r)
    case _ => false
  }

  predicate SameBinding(a: map<ConnId, Connector>, b: map<ConnId, Connector>, id: ConnId) {
    IsBound(a, id) && IsBound(b, id) && BinderOf(a[id]) == BinderOf(b[id]) && a[id].inst == b[id].inst
  }

  lemma {:induction false} SettledRow(live: map<ConnId, Connector>, at: ConnId, c: Connector, now: int, id: ConnId)
    ensures var after := SoftDeleteOthers(live[at := c], at, c.inst, now);
            IsBound(after, id) ==> after[id] == if id == at then c else (live[at := c])[id]
    ensures var after := SoftDeleteOthers(live[at := c], at, c.inst, now);
            IsBound(after, id) && id != at ==> IsBound(live, id) && after[id] == live[id]
  {
  }

  lemma {:induction false} TenantCallbackNames(s: Store, inst: string, org: string, proj: string, user: string, now: int, id: ConnId)
    requires Inv(s) && inst != "" && (org != "" || user != "")
    requires forall o :: LiveFor(s.live, o, inst) ==> s.live[o].status == PendingClaim
    ensures var t := Callback(s, inst, org, proj, user, now);
            IsBound(t.live, id) ==>
              (IsBound(s.live, id) && t.live[id] == s.live[id])
              || (!IsBound(s.live, id) && t.live[id].inst == inst && NamedByState(t.live[id], org, proj, user))
  {
    var found := Find(s.live, inst);
    var at := if found.Some? then found.value else ConnId(if org != "" then org else "user:" + user, ProjectOr(proj), inst);
    var row := if found.Some? then s.live[found.value] else FreshRow(inst, now);
    var c := row.(org := org, proj := ProjectOr(proj), scope := if org == "" then UserScope else OrgScope, user := user,
                  inst := inst, status := Active, nonce := Absent, updated := now);
    SettledRow(s.live, at, c, now, id);
    assert at in s.live ==> s.live[at].inst == inst;
  }

  lemma {:induction false} OrphanCallbackNames(s: Store, inst: string, proj: string, now: int, id: ConnId)
    requires Inv(s) && inst != ""
    requires forall o :: LiveFor(s.live, o, inst) ==> s.live[o].status == PendingClaim
    ensures var t := Callback(s, inst, "", proj, "", now);
            IsBound(t.live, id) ==> IsBound(s.live, id) && t.live[id] == s.live[id]
  {
    var found := Find(s.live, inst);
    var at := if found.Some? then found.value else ConnId("pending", "pending", inst);
    var row := if found.Some? then s.live[found.value] else FreshRow(inst, now);
    var c := row.(org := "", proj := "", status := PendingClaim, nonce := Stored(s.nextToken), updated := now);
    SettledRow(s.live, at, c, now, id);
  }

  lemma {:induction false} CallbackNames(s: Store, inst: string, org: string, proj: string, user: string, now: int, id: ConnId)
    requires Inv(s)
    ensures var t := Callback(s, inst, org, proj, user, now);
            IsBound(t.live, id) ==>
              (IsBound(s.live, id) && t.live[id] == s.live[id])
              || (!IsBound(s.live, id) && t.live[id].inst == inst && NamedByState(t.live[id], org, proj, user))
  {
    if inst != "" {
      forall o | LiveFor(s.live, o, inst) ensures Find(s.live, inst) == Some(o) {
        FindActive(s.live, inst, o);
      }
      if forall o :: LiveFor(s.live, o, inst) ==> s.live[o].status == PendingClaim {
        if org != "" || user != "" {
          TenantCallbackNames(s, inst, org, proj, user, now, id);
        } else {
          OrphanCallbackNames(s, inst, proj, now, id);
        }
      }
    }
  }

  lemma {:induction false} ProvisionNames(s: Store, inst: string, login: string, mintOk: bool, now: int, id: ConnId)
    requires Inv(s)
    ensures IsBound(Provision(s, inst, login, mintOk, now).live, id) ==>
              SameBinding(s.live, Provision(s, inst, login, mintOk, now).live, id)
  {
  }

  lemma {:induction false} OtherStepNames(s: Store, step: Step, id: ConnId)
    requires Inv(s) && (step.DoRemint? || step.DoRemember? || step.DoDelete?)
    ensures IsBound(Apply(s, step).live, id) ==> SameBinding(s.live, Apply(s, step).live, id)
  {
  }

  lemma {:induction false} StepNames(s: Store, step: Step, id: ConnId)
    requires Inv(s)
    ensures var t := Apply(s, step);
            IsBound(t.live, id) ==>
              SameBinding(s.live, t.live, id) || (!IsBound(s.live, id) && Names(step, t.live[id]))
  {
    match step
    case DoCallback(inst, org, proj, user, now) => CallbackNames(s, inst, org, proj, user, now, id);
    case DoClaim(at, token, r, now) =>
      if ClaimResult(s, at, token, r).Claimed? {
        ClaimBinds(s, at, token, r, now);
        ActivationBinds(s.live, at, r, now);
      }
    case DoFinish(inst, r, now) =>
      if ClaimTenant(r).Some? {
        FinishBinds(s, inst, r, now);
      }
    case DoProvision(inst, login, mintOk, now) => ProvisionNames(s, inst, login, mintOk, now, id);
    case _ => OtherStepNames(s, step, id);
  }

  lemma {:induction false} RunSnoc(s: Store, steps: seq<Step>, step: Step)
    ensures Run(s, steps + [step]) == Apply(Run(s, steps), step)
    decreases |steps|
  {
    if steps == [] {
      assert [] + [step] == [step] && [step][1..] == [];
      assert Run(Apply(s, step), []) == Apply(s, step);
    } else {
      assert (steps + [step])[1..] == steps[1..] + [step];
      RunSnoc(Apply(s, steps[0]), steps[1..], step);
    }
  }

  /** Step i made the row what it is bound to at the end. */
  ghost predicate Activated(steps: seq<Step>, i: nat, id: ConnId) {
    && i < |steps| && !IsBound(Run(EMPTY, steps[..i]).live, id)
    && IsBound(Run(EMPTY, steps).live, id) && Names(steps[i], Run(EMPTY, steps).live[id])
    && forall j :: i < j <= |steps| ==> SameBinding(Run(EMPTY, steps[..j]).live, Run(EMPTY, steps).live, id)
  }

  lemma {:induction false} LastStep(steps: seq<Step>, id: ConnId)
    requires steps != [] && IsBound(Run(EMPTY, steps).live, id)
    ensures var n := |steps| - 1;
            SameBinding(Run(EMPTY, steps[..n]).live, Run(EMPTY, steps).live, id)
            || (!IsBound(Run(EMPTY, steps[..n]).live, id) && Names(steps[n], Run(EMPTY, steps).live[id]))
  {
    var n := |steps| - 1;
    assert steps == steps[..n] + [steps[n]];
    RunSnoc(EMPTY, steps[..n], steps[n]);
    RunKeepsInv(EMPTY, steps[..n]);
    StepNames(Run(EMPTY, steps[..n]), steps[n], id);
  }

  lemma {:induction false} JustActivated(steps: seq<Step>, id: ConnId)
    requires steps != [] && IsBound(Run(EMPTY, steps).live, id)
    requires !IsBound(Run(EMPTY, steps[..|steps| - 1]).live, id) && Names(steps[|steps| - 1], Run(EMPTY, steps).live[id])
    ensures Activated(steps, |steps| - 1, id)
  {
    assert steps[..|steps|] == steps;
  }

  /** Over every run, an active row is bound to the tenant named by the callback,
      claim or finish-install that activated it, ever since. */
  lemma {:induction false} BinderIsNamed(steps: seq<Step>, id: ConnId) returns (i: nat)
    requires IsBound(Run(EMPTY, steps).live, id)
    ensures Activated(steps, i, id)
    decreases |steps|
  {
    assert steps != [];
    var front := steps[..|steps| - 1];
    LastStep(steps, id);
    if IsBound(Run(EMPTY, front).live, id) {
      i := BinderIsNamed(front, id);
      StillActivated(steps, i, id);
    } else {
      i := |steps| - 1;
      JustActivated(steps, id);
    }
  }

  lemma {:induction false} StillActivated(steps: seq<Step>, i: nat, id: ConnId)
    requires steps != [] && Activated(steps[..|steps| - 1], i, id)
    requires SameBinding(Run(EMPTY, steps[..|steps| - 1]).live, Run(EMPTY, steps).live, id)
    ensures Activated(steps, i, id)
  {
    var n := |steps| - 1;
    var front := steps[..n];
    assert front[..i] == steps[..i] && front[i] == steps[i];
    assert Names(steps[i], Run(EMPTY, steps).live[id]);
    forall j | i < j <= |steps| ensures SameBinding(Run(EMPTY, steps[..j]).live, Run(EMPTY, steps).live, id) {
      if j <= n {
        assert front[..j] == steps[..j];
      } else {
        assert steps[..j] == steps;
      }
    }
  }

  // ----- Install intents -----

  /** What a session remembered it finds again for 45 minutes and no longer: its
      user, its organization unless the session is personal, its project. */
  lemma RememberedIsFoundExactly(s: Store, org: string, proj: string, user: string, personal: bool, now: int, later: int)
    requires user != ""
    ensures var i := Peek(Remember(s, org, proj, user, personal, now), user, org, personal, later).1;
            && (i.Some? <==> later < now + 45 * 60 * 1000)
            && (i.Some? ==>
                  && i.value.user == user && i.value.personal == personal && i.value.minted == now
                  && i.value.org == (if personal then "" else org)
                  && i.value.proj == (if proj in {"", TENANT_ALL} then DEFAULT_PROJECT else proj))
  {
  }

  /** A consumed intent is gone for its session. */
  lemma ConsumedIsGone(s: Store, org: string, user: string, personal: bool, now: int, later: int)
    requires user != ""
    ensures Peek(Consume(s, user, org, personal, now).0, user, org, personal, later).1 == None
  {
  }

  /** An install from its announcement to its binding: a session remembers its
      intent, the webhook provisions the row, and the session finishes without an
      installation id. Where nothing else is pending and the installation has no
      row, that binds the row to the session exactly when the webhook came no
      earlier than two minutes before the announcement and the finish within
      forty-five after it. */
  lemma {:induction false} InstallBindsExactly(
      s: Store, inst: string, login: string, mintOk: bool, r: Caller, announced: int, provisioned: int, finished: int)
    requires ClaimTenant(r).Some? && r.user != "" && inst != "" && Find(s.live, inst).None?
    requires forall o :: o in s.live ==> s.live[o].status != PendingClaim
    ensures var seen := Provision(Remember(s, r.org, r.proj, r.user, r.personal, announced), inst, login, mintOk, provisioned);
            var done, id := FinishInstall(seen, "", r, finished), ConnId("pending", "pending", inst);
            && id in seen.live && id in done.live
            && (IsBound(done.live, id) <==> finished < announced + 45 * 60 * 1000 && provisioned >= announced - 2 * 60 * 1000)
            && (IsBound(done.live, id) ==> BoundTo(seen.live[id], done.live[id], r) && done.live[id].login == login)
  {
    var seen := Provision(Remember(s, r.org, r.proj, r.user, r.personal, announced), inst, login, mintOk, provisioned);
    var id := ConnId("pending", "pending", inst);
    var intent := Peek(seen, r.user, ClaimTenant(r).value.org, r.personal, finished).1;
    RememberedIsFoundExactly(s, r.org, r.proj, r.user, r.personal, announced, finished);
    OnlyPending(Remember(s, r.org, r.proj, r.user, r.personal, announced), inst, login, mintOk, provisioned);
    if intent.Some? {
      OneCandidate(seen.live, id, intent.value);
      ActivationBinds(seen.live, id, r, finished);
    }
  }

  lemma {:induction false} OnlyPending(s: Store, inst: string, login: string, mintOk: bool, now: int)
    requires inst != "" && Find(s.live, inst).None? && forall o :: o in s.live ==> s.live[o].status != PendingClaim
    ensures var t, id := Provision(s, inst, login, mintOk, now), ConnId("pending", "pending", inst);
            && t.intents == s.intents && id in t.live && t.live[id].status == PendingClaim && t.live[id].login == login
            && t.live[id].created == now && t.live[id].updated == now
            && forall o :: o in t.live && o != id ==> t.live[o].status != PendingClaim
  {
  }

  lemma {:induction false} OneCandidate(live: map<ConnId, Connector>, id: ConnId, intent: Intent)
    requires id in live && live[id].status == PendingClaim
    requires forall o :: o in live && o != id ==> live[o].status != PendingClaim
    ensures Candidates(live, intent) == if Matches(live, id, intent) then {id} else {}
  {
  }

  /** A callback that names no tenant, for an installation without an active row,
      leaves a pending one that exactly the token it minted claims. */
  lemma {:induction false} CallbackThenClaim(s: Store, inst: string, proj: string, now: int, token: nat, r: Caller)
    requires Inv(s) && inst != "" && forall o :: LiveFor(s.live, o, inst) ==> s.live[o].status != Active
    ensures var t, found := Callback(s, inst, "", proj, "", now), Find(s.live, inst);
            var id := if found.Some? then found.value else ConnId("pending", "pending", inst);
            && id in t.live && t.live[id].inst == inst
            && (ClaimResult(t, id, token, r).Claimed? <==> token == s.nextToken && if r.personal then r.user != "" else r.org != "")
  {
  }

  // ----- Webhooks and deletes -----

  /** A webhook gives the row of its installation, found or new, the account's
      name where it has none, keeps whose it is, and touches no other installation. */
  lemma {:induction false} AccountIsNamed(s: Store, inst: string, login: string, mintOk: bool, now: int)
    requires inst != ""
    ensures var t, found := Provision(s, inst, login, mintOk, now), Find(s.live, inst);
            var id := if found.Some? then found.value else ConnId("pending", "pending", inst);
            && id in t.live && t.live[id].inst == inst
            && (found.Some? ==>
                  && t.live[id].login == (if s.live[id].login == "" then login else s.live[id].login)
                  && t.live[id].status == s.live[id].status && BinderOf(t.live[id]) == BinderOf(s.live[id])
                  && OthersKept(s.live, t.live, inst))
            && (found.None? ==> t.live[id].login == login && t.live[id].status == PendingClaim)
  {
  }

  /** In every reachable store a delete takes exactly an active row away, for a
      request that may, and does nothing otherwise: a pending row is refused. */
  lemma DeleteExactly(s: Store, id: ConnId, allowed: bool)
    requires Inv(s)
    ensures var t := Delete(s, id, allowed);
            && (IsBound(s.live, id) && allowed ==>
                  && t == s.(live := t.live) && t.live.Keys == s.live.Keys - {id}
                  && forall o :: o in t.live ==> t.live[o] == s.live[o])
            && (!IsBound(s.live, id) || !allowed ==> t == s)
  {
  }
}
