// The imperative side of the connector handlers: the live map, the intents and
// the loops over them, each handler proved to be one step of Connectors; the one
// row per installation they rely on is what Connectors.StepKeepsInv keeps.
module ConnectorHub {
  import opened Text
  import opened Connectors
  import opened Bindings
  import opened Sets

  /** The order in which a map is walked: every key once. */
  ghost predicate Walks<K(!new)>(scan: seq<K>, keys: set<K>) {
    && (forall k :: k in scan <==> k in keys)
    && (forall i, j :: 0 <= i < j < |scan| ==> scan[i] != scan[j])
  }

  /** A callback without a tenant, for an installation that nobody has bound. */
  ghost predicate IsOrphan(live: map<ConnId, Connector>, inst: string, org: string, user: string) {
    && inst != "" && org == "" && user == ""
    && forall id :: LiveFor(live, id, inst) ==> live[id].status != Active
  }

  class Hub {
    var live: map<ConnId, Connector>
    var intents: map<string, Intent>
    var nextToken: nat              // the source of fresh claim tokens
    var nextIntent: nat
    ghost var claims: seq<nat>
    ghost var consumed: seq<(nat, int, int)>

    constructor ()
      ensures Snapshot() == EMPTY
    {
      live, intents, nextToken, nextIntent := map[], map[], 0, 0;
      claims, consumed := [], [];
    }

    ghost function Snapshot(): Store
      reads this
    {
      Store(live, nextToken, intents, nextIntent, claims, consumed)
    }

    method FindConnectorByInstallation(inst: string, scan: seq<ConnId>) returns (r: Option<ConnId>)
      requires Walks(scan, live.Keys) && OneLivePerInstallation(live)
      ensures r == Find(live, inst)
    {
      if inst == "" {
        return None;
      }
      var pending: Option<ConnId> := None;
      for i := 0 to |scan|
        invariant forall j :: 0 <= j < i && LiveFor(live, scan[j], inst) ==> live[scan[j]].status == PendingClaim
        invariant pending.Some? ==> LiveFor(live, pending.value, inst)
        invariant pending.None? ==> forall j :: 0 <= j < i ==> !LiveFor(live, scan[j], inst)
      {
        var c := live[scan[i]];
        if c.inst != inst || c.status == Deleted {
          continue;
        }
        if c.status == Active {
          FindActive(live, inst, scan[i]);
          return Some(scan[i]);
        }
        if pending.None? {
          pending := Some(scan[i]);
        }
      }
      if pending.Some? {
        FindActive(live, inst, pending.value);
      }
      return pending;
    }

    /** Reads each row before it overwrites it; the kept row is skipped wherever
        the walk meets it, so the walk need not reach it. */
    method SoftDeleteOtherInstallConnectors(keep: ConnId, inst: string, scan: seq<ConnId>, now: int)
      requires forall id :: id in live && id != keep ==> id in scan
      requires forall i :: 0 <= i < |scan| ==> scan[i] in live
      requires forall i, j :: 0 <= i < j < |scan| ==> scan[i] != scan[j]
      modifies `live
      ensures live == SoftDeleteOthers(old(live), keep, inst, now)
    {
      ghost var before := live;
      ghost var after := SoftDeleteOthers(live, keep, inst, now);
      for i := 0 to |scan|
        invariant live.Keys == before.Keys == after.Keys
        invariant forall id :: id in live ==> live[id] == if id in scan[..i] then after[id] else before[id]
      {
        TakeSnoc(scan, i);
        var c := live[scan[i]];
        if scan[i] == keep || c.status == Deleted {
          continue;
        }
        if c.inst != inst {
          continue;
        }
        live := live[scan[i] := c.(status := Deleted, updated := now)];
      }
      TakeAll(scan);
    }

    /** Stores a row, then deletes its rivals: how every binding handler ends. */
    method StoreAndSettle(id: ConnId, c: Connector, scan: seq<ConnId>, now: int)
      requires Walks(scan, live.Keys)
      modifies `live
      ensures live == SoftDeleteOthers(old(live)[id := c], id, c.inst, now)
    {
      live := live[id := c];
      SoftDeleteOtherInstallConnectors(id, c.inst, scan, now);
    }

    method MintClaimNonce() returns (token: nat)
      modifies `nextToken
      ensures token == old(nextToken) && nextToken == old(nextToken) + 1
    {
      token := nextToken;
      nextToken := nextToken + 1;
    }

    /** A callback that names no tenant needs a nonce; without one it is an error
        and nothing changes. */
    method HandleCallback(inst: string, org: string, projRaw: string, user: string, now: int, scan: seq<ConnId>, mintOk: bool)
        returns (ok: bool)
      requires OneLivePerInstallation(live) && Walks(scan, live.Keys)
      modifies this
      ensures ok <==> mintOk || !IsOrphan(old(live), inst, org, user)
      ensures Snapshot() == if ok then Callback(old(Snapshot()), inst, org, projRaw, user, now) else old(Snapshot())
    {
      ok := true;
      if inst == "" {
        return;
      }
      var proj := if projRaw == "" || projRaw == TENANT_ALL then DEFAULT_PROJECT else projRaw;
      var existing := FindConnectorByInstallation(inst, scan);
      if existing.Some? && live[existing.value].status == Active {
        SoftDeleteOtherInstallConnectors(existing.value, inst, scan, now);
        return;
      }
      if org != "" || user != "" {
        var id := ConnId(if org != "" then org else "user:" + user, proj, inst);
        var c := FreshRow(inst, now);
        if existing.Some? {
          id, c := existing.value, live[existing.value];
        }
        c := c.(nonce := Absent, org := org, proj := proj, scope := if org == "" then UserScope else OrgScope,
                user := user, inst := inst, status := Active, updated := now);
        StoreAndSettle(id, c, scan, now);
        return;
      }
      if !mintOk {
        return false;
      }
      var token := MintClaimNonce();
      var id := ConnId("pending", "pending", inst);
      var c := FreshRow(inst, now);
      if existing.Some? {
        id, c := existing.value, live[existing.value];
      }
      c := c.(nonce := Stored(token), status := PendingClaim, org := "", proj := "", updated := now);
      StoreAndSettle(id, c, scan, now);
    }

    /** activatePendingConnectorLocked */
    method ActivatePendingConnector(id: ConnId, b: Binder, scan: seq<ConnId>, now: int)
      requires id in live && Walks(scan, live.Keys)
      modifies `live
      ensures live == Activate(old(live), id, b, now)
    {
      var c := live[id];
      c := c.(org := b.org, proj := b.proj, scope := b.scope);
      if b.user != "" {
        c := c.(user := b.user);
      }
      c := c.(status := Active, updated := now, nonce := Absent);
      StoreAndSettle(id, c, scan, now);
    }

    method HandleConnectorClaim(id: ConnId, token: nat, r: Caller, scan: seq<ConnId>, now: int) returns (o: ClaimOutcome)
      requires OneLivePerInstallation(live) && Walks(scan, live.Keys)
      modifies this
      ensures Snapshot() == Connectors.Claim(old(Snapshot()), id, token, r, now)
      ensures o == ClaimResult(old(Snapshot()), id, token, r)
      ensures o.Claimed? ==>
                && id in old(live) && id in live && BoundTo(old(live)[id], live[id], r)
                && OthersKept(old(live), live, old(live)[id].inst)
      ensures !o.Claimed? ==> live == old(live)
    {
      if id !in live || live[id].status == Deleted {
        return NotFound;
      }
      var c := live[id];
      if c.status != PendingClaim {
        return NotPending;
      }
      if !c.nonce.Stored? || c.nonce.token != token {
        return InvalidToken;
      }
      var tenant := ClaimTenant(r);
      if tenant.None? {
        return NoTenant;
      }
      ClaimBinds(Snapshot(), id, token, r, now);
      ActivatePendingConnector(id, tenant.value, scan, now);
      claims := claims + [token];
      return Claimed;
    }

    method EnsureGitHubAppConnector(inst: string, login: string, mintOk: bool, scan: seq<ConnId>, now: int)
      requires OneLivePerInstallation(live) && Walks(scan, live.Keys)
      modifies this
      ensures Snapshot() == Provision(old(Snapshot()), inst, login, mintOk, now)
    {
      if inst == "" {
        return;
      }
      var found := FindConnectorByInstallation(inst, scan);
      if found.Some? {
        var c := live[found.value];
        var changed := false;
        if login != "" && c.login == "" {
          c, changed := c.(login := login), true;
        }
        if c.status == PendingClaim && c.nonce == Blank && mintOk {
          var token := MintClaimNonce();
          c, changed := c.(nonce := Stored(token)), true;
        }
        if changed {
          c := c.(updated := now);
        }
        StoreAndSettle(found.value, c, scan, now);
        return;
      }
      var c := FreshRow(inst, now).(login := login);
      if mintOk {
        var token := MintClaimNonce();
        c := c.(nonce := Stored(token));
      }
      StoreAndSettle(ConnId("pending", "pending", inst), c, scan, now);
    }

    /** None is the error of a granted remint that cannot mint: nothing changes. */
    method HandleIssueClaimToken(inst: string, force: bool, prior: Option<nat>, scan: seq<ConnId>, now: int, mintOk: bool)
        returns (o: Option<RemintOutcome>)
      requires OneLivePerInstallation(live) && Walks(scan, live.Keys)
      modifies this
      ensures o.None? <==> !mintOk && RemintResult(old(Snapshot()), inst, force, prior).Reminted?
      ensures o.Some? ==> o.value == RemintResult(old(Snapshot()), inst, force, prior)
      ensures Snapshot() == if o.None? then old(Snapshot()) else Remint(old(Snapshot()), inst, force, prior, now)
    {
      var found := FindConnectorByInstallation(inst, scan);
      if found.None? {
        return Some(RemintNotFound);
      }
      var c := live[found.value];
      if c.status != PendingClaim {
        return Some(RemintNotPending);
      }
      var issued := c.nonce != Blank;
      if issued && !force {
        return Some(AlreadyIssued);
      }
      if issued && prior.Some? && c.nonce != Stored(prior.value) {
        return Some(InvalidPrior);
      }
      if !mintOk {
        return None;
      }
      var token := MintClaimNonce();
      live := live[found.value := c.(nonce := Stored(token), updated := now)];
      return Some(Reminted(found.value, token));
    }

    method HandleConnectorDelete(id: ConnId, allowed: bool)
      modifies this
      ensures Snapshot() == Delete(old(Snapshot()), id, allowed)
    {
      if id !in live || live[id].status == Deleted || IsUnclaimed(live[id]) || !allowed {
        return;
      }
      live := live - {id};
    }

    // ----- Install intents -----

    method PruneInstallIntents(scan: seq<string>, now: int)
      requires Walks(scan, intents.Keys)
      modifies `intents
      ensures intents == Prune(old(intents), now)
    {
      for i := 0 to |scan|
        invariant forall k :: k in intents <==> k in old(intents) && !(k in scan[..i] && old(intents)[k].expires <= now)
        invariant forall k :: k in intents ==> intents[k] == old(intents)[k]
      {
        assert scan[..i + 1] == scan[..i] + [scan[i]];
        if scan[i] in intents && !(intents[scan[i]].expires > now) {
          intents := intents - {scan[i]};
        }
      }
    }

    method RememberInstallIntent(orgRaw: string, proj: string, user: string, personal: bool, scan: seq<string>, now: int)
      requires Walks(scan, intents.Keys)
      modifies this
      ensures Snapshot() == Remember(old(Snapshot()), orgRaw, proj, user, personal, now)
    {
      if user == "" {
        return;
      }
      var org := if personal then "" else orgRaw;
      var key := IntentKey(user, org, personal);
      PruneInstallIntents(scan, now);
      intents := intents[key := Intent(nextIntent, org, ProjectOr(proj), user, personal, now, now + INTENT_TTL)];
      nextIntent := nextIntent + 1;
    }

    method PeekInstallIntent(user: string, org: string, personal: bool, scan: seq<string>, now: int) returns (r: Option<Intent>)
      requires Walks(scan, intents.Keys)
      modifies `intents
      ensures (Snapshot(), r) == Peek(old(Snapshot()), user, org, personal, now)
    {
      if user == "" {
        return None;
      }
      var key := IntentKey(user, org, personal);
      PruneInstallIntents(scan, now);
      return if key in intents then Some(intents[key]) else None;
    }

    method ConsumeInstallIntent(user: string, org: string, personal: bool, scan: seq<string>, now: int) returns (r: Option<Intent>)
      requires Walks(scan, intents.Keys)
      modifies `intents, `consumed
      ensures (Snapshot(), r) == Consume(old(Snapshot()), user, org, personal, now)
    {
      if user == "" {
        return None;
      }
      var key := IntentKey(user, org, personal);
      PruneInstallIntents(scan, now);
      if key !in intents {
        return None;
      }
      var intent := intents[key];
      intents := intents - {key};
      consumed := consumed + [(intent.serial, now, intent.expires)];
      return Some(intent);
    }

    /** listPendingClaimConnectorsLocked and the filter on when a row was last
        touched: the rows an intent may stand for, each once. */
    method ListCandidates(intent: Intent, scan: seq<ConnId>) returns (matched: seq<ConnId>)
      requires Walks(scan, live.Keys)
      ensures Walks(matched, Candidates(live, intent))
    {
      matched := [];
      for i := 0 to |scan|
        invariant forall id :: id in matched <==> id in scan[..i] && Matches(live, id, intent)
        invariant forall a, b :: 0 <= a < b < |matched| ==> matched[a] != matched[b]
      {
        assert scan[..i + 1] == scan[..i] + [scan[i]];
        var c := live[scan[i]];
        if c.status != PendingClaim {
          continue;
        }
        var when := c.updated;
        if c.created > when {
          when := c.created;
        }
        if when < intent.minted - INTENT_SLACK {
          continue;
        }
        assert scan[i] !in scan[..i];
        matched := matched + [scan[i]];
      }
    }

    method HandleFinishInstall(inst: string, r: Caller, scan: seq<ConnId>, keys: seq<string>, left: seq<string>, now: int)
      requires OneLivePerInstallation(live) && Walks(scan, live.Keys)
      requires Walks(keys, intents.Keys) && Walks(left, Prune(intents, now).Keys)
      modifies this
      ensures Snapshot() == Connectors.FinishInstall(old(Snapshot()), inst, r, now)
      ensures forall id :: IsBound(live, id) && !IsBound(old(live), id) ==>
                id in old(live) && BoundTo(old(live)[id], live[id], r) && OthersKept(old(live), live, old(live)[id].inst)
    {
      var tenant := ClaimTenant(r);
      if tenant.None? {
        return;
      }
      var org := tenant.value.org;
      var target: ConnId;
      if inst != "" {
        var found := FindConnectorByInstallation(inst, scan);
        if found.None? || live[found.value].status != PendingClaim {
          return;
        }
        target := found.value;
        var _ := ConsumeInstallIntent(r.user, org, r.personal, keys, now);
      } else {
        var intent := PeekInstallIntent(r.user, org, r.personal, keys, now);
        if intent.None? {
          return;
        }
        var matched := ListCandidates(intent.value, scan);
        ListingSize(matched, Candidates(live, intent.value));
        if |matched| != 1 {
          return;
        }
        target := matched[0];
        OnlyMember(Candidates(live, intent.value), target);
        var _ := ConsumeInstallIntent(r.user, org, r.personal, left, now);
      }
      ActivationBinds(live, target, r, now);
      ActivatePendingConnector(target, tenant.value, scan, now);
    }
  }
}
