// Scoped secrets over an append-only log: storage keys, writes, and the lookup
// that resolves a secret for a job (cred_secrets.go, cred_scope.go).
module Secrets {
  import opened Text

  datatype Scope = Admin | Org | User

  const USER_MARK: string := "#user:"
  const ADMIN_MARK: string := "#admin"

  /** A stored row; plain is what its ciphertext decrypts to, "" if it does not. */
  datatype Row = Row(key: string, org: string, proj: string, scope: string, user: string, plain: string, deleted: bool)

  datatype Hit = Miss | Hit(plain: string, scope: Scope, org: string, proj: string, user: string)

  // ----- Scopes and storage keys -----

  function ScopeName(s: Scope): string {
    match s
    case Admin => "admin"
    case Org => "org"
    case User => "user"
  }

  function InferScope(org: string, column: string): Scope {
    var s := ToLower(TrimSpace(column));
    if s == "admin" then Admin
    else if s == "org" then Org
    else if s == "user" then User
    else if TrimSpace(org) != "" then Org
    else Admin
  }

  function Nz(s: string, d: string): string {
    if TrimSpace(s) != "" then s else d
  }

  function UserOr(user: string): string {
    if TrimSpace(user) == "" then "_" else TrimSpace(user)
  }

  function StorageKey(logical: string, scope: Scope, user: string): string {
    match scope
    case User => TrimSpace(logical) + USER_MARK + UserOr(user)
    case Admin => TrimSpace(logical) + ADMIN_MARK
    case Org => TrimSpace(logical)
  }

  /** The logical key, the scope name (empty for an org key) and the user. */
  datatype ParsedKey = ParsedKey(logical: string, scope: string, user: string)

  function ParseKey(stored: string): ParsedKey {
    var s := TrimSpace(stored);
    var i := Index(s, USER_MARK);
    if i >= 0 then ParsedKey(s[..i], "user", s[i + |USER_MARK|..])
    else if HasSuffix(s, ADMIN_MARK) then ParsedKey(s[..|s| - |ADMIN_MARK|], "admin", "")
    else ParsedKey(s, "", "")
  }

  /** The logical keys the code uses: no white space around them and no '#'. */
  predicate PlainKey(logical: string) {
    Trimmed(logical) && '#' !in logical
  }

  function ParsedScope(s: Scope): string {
    if s.Org? then "" else ScopeName(s)
  }

  lemma UserOrIsTrimmed(user: string)
    ensures Trimmed(UserOr(user)) && UserOr(user) != ""
  {
    TrimSpaceLaws(user);
  }

  /** Where a plain key ends is the first '#'. */
  lemma HashesStart(logical: string, rest: string)
    requires '#' !in logical
    ensures forall i :: 0 <= i < |logical| ==> (logical + rest)[i] != '#'
    ensures forall i :: OccursAt(logical + rest, USER_MARK, i) ==>
              i >= |logical| && i + 1 < |logical + rest| && (logical + rest)[i] == '#' && (logical + rest)[i + 1] == 'u'
  {
    var s := logical + rest;
    forall i | 0 <= i < |logical| ensures s[i] != '#' {
      assert s[i] in logical;
    }
    Spelled(s, USER_MARK);
    forall i | OccursAt(s, USER_MARK, i) ensures i >= |logical| && s[i] == '#' && s[i + 1] == 'u' {
      assert s[i + 0] == USER_MARK[0] && s[i + 1] == USER_MARK[1];
    }
  }

  lemma MarkIsAtEnd(logical: string, rest: string)
    requires '#' !in logical
    ensures Index(logical + (USER_MARK + rest), USER_MARK) == |logical|
  {
    var s := logical + (USER_MARK + rest);
    assert s[|logical|..|logical| + |USER_MARK|] == USER_MARK;
    assert OccursAt(s, USER_MARK, |logical|);
    HashesStart(logical, USER_MARK + rest);
  }

  lemma NoMark(s: string)
    requires '#' !in s
    ensures Index(s, USER_MARK) == -1 && !HasSuffix(s, ADMIN_MARK)
  {
    HashesStart(s, "");
    assert s + "" == s;
    SuffixChars(s, ADMIN_MARK);
  }

  lemma SuffixChars(s: string, p: string)
    ensures HasSuffix(s, p) ==> forall c :: c in p ==> c in s
  {
  }

  lemma AdminMarkIsNoUserMark(logical: string)
    requires '#' !in logical
    ensures Index(logical + ADMIN_MARK, USER_MARK) == -1
  {
    var s := logical + ADMIN_MARK;
    HashesStart(logical, ADMIN_MARK);
    forall i | |logical| < i < |s| ensures s[i] != '#' {
      assert s[i] == ADMIN_MARK[i - |logical|];
    }
    assert s[|logical| + 1] == 'a';
  }

  /** A storage key parses back to what it was made of; a blank user is "_". */
  lemma StorageKeyRoundTrip(logical: string, scope: Scope, user: string)
    requires PlainKey(logical)
    ensures ParseKey(StorageKey(logical, scope, user)) ==
            ParsedKey(logical, ParsedScope(scope), if scope.User? then UserOr(user) else "")
  {
    TrimmedIsFixed(logical);
    var s := StorageKey(logical, scope, user);
    match scope
    case User =>
      UserOrIsTrimmed(user);
      var tail := USER_MARK + UserOr(user);
      assert s == logical + tail;
      TrimmedIsFixed(s);
      MarkIsAtEnd(logical, UserOr(user));
    case Admin =>
      TrimmedIsFixed(s);
      AdminMarkIsNoUserMark(logical);
      assert s[|s| - |ADMIN_MARK|..] == ADMIN_MARK && s[..|s| - |ADMIN_MARK|] == logical;
    case Org =>
      TrimmedIsFixed(s);
      NoMark(s);
  }

  lemma StorageKeyInjective(a: string, s: Scope, u: string, b: string, t: Scope, v: string)
    requires PlainKey(a) && PlainKey(b)
    ensures StorageKey(a, s, u) == StorageKey(b, t, v) <==>
            a == b && s == t && (s.User? ==> UserOr(u) == UserOr(v))
  {
    StorageKeyRoundTrip(a, s, u);
    StorageKeyRoundTrip(b, t, v);
  }

  // ----- Looking a secret up -----

  function EffectiveScope(r: Row): Scope {
    InferScope(r.org, Nz(r.scope, ParseKey(r.key).scope))
  }

  function EffectiveUser(r: Row): string {
    Nz(r.user, ParseKey(r.key).user)
  }

  /** Whether a row belongs to someone else. */
  predicate Foreign(want: string, have: string) {
    want != "" && have != "" && have != want
  }

  datatype Query = Query(org: string, proj: string, scope: Scope, user: string, logical: string)

  predicate Answers(r: Row, q: Query) {
    && r.key == StorageKey(q.logical, q.scope, q.user)
    && (ParseKey(r.key).logical == "" || ParseKey(r.key).logical == q.logical)
    && EffectiveScope(r) == q.scope
    && (q.scope.Org? ==> !Foreign(q.org, r.org) && (r.proj == "" || r.proj == q.proj))
    && (q.scope.User? ==> !Foreign(q.user, EffectiveUser(r)) && !Foreign(q.org, r.org))
  }

  /** Rows are listed newest first; the newest one that answers, or the length. */
  function Newest(rows: seq<Row>, q: Query): (i: nat)
    ensures i <= |rows|
    ensures i < |rows| ==> Answers(rows[i], q)
    ensures forall j :: 0 <= j < i ==> !Answers(rows[j], q)
  {
    if rows == [] || Answers(rows[0], q) then 0 else 1 + Newest(rows[1..], q)
  }

  /** What a row says once it is the one that decides. */
  function Outcome(r: Row, scope: Scope): Hit {
    if r.deleted || r.plain == "" then Miss else Hit(r.plain, scope, r.org, r.proj, EffectiveUser(r))
  }

  predicate LegacyAnswers(r: Row, org: string, proj: string, logical: string) {
    && r.key == logical && EffectiveScope(r) == Org
    && Index(r.key, ADMIN_MARK) < 0 && Index(r.key, USER_MARK) < 0
    && !Foreign(org, r.org) && !Foreign(proj, r.proj)
  }

  function LegacyPick(rows: seq<Row>, org: string, proj: string, logical: string): Hit {
    if rows == [] then Miss
    else if LegacyAnswers(rows[0], org, proj, logical) then
      if rows[0].deleted || rows[0].plain == "" then Miss
      else Hit(rows[0].plain, Org, rows[0].org, rows[0].proj, "")
    else LegacyPick(rows[1..], org, proj, logical)
  }

  function LoadLegacy(rows: seq<Row>, org: string, proj: string, logical: string): Hit {
    if org == "" then Miss
    else if LegacyPick(rows, org, proj, logical).Hit? then LegacyPick(rows, org, proj, logical)
    else LegacyPick(rows, org, "", logical)
  }

  predicate HasKey(rows: seq<Row>, key: string) {
    exists i :: 0 <= i < |rows| && rows[i].key == key
  }

  /** loadSCMSecretAtScope */
  function Load(rows: seq<Row>, q: Query): Hit
    decreases |q.proj|
  {
    if q.logical == "" then Miss
    else if !HasKey(rows, StorageKey(q.logical, q.scope, q.user)) then
      if q.scope.Org? then LoadLegacy(rows, q.org, q.proj, q.logical) else Miss
    else
      var i := Newest(rows, q);
      if i < |rows| then
        if rows[i].deleted && q.scope.Org? && q.proj != "" && rows[i].proj == q.proj then Load(rows, q.(proj := ""))
        else Outcome(rows[i], q.scope)
      else if q.scope.Org? && q.proj != "" then Load(rows, q.(proj := ""))
      else Miss
  }

  datatype JobQuery = JobQuery(org: string, proj: string, user: string, adminOnly: bool)

  /** resolveSCMSecret */
  function Resolve(rows: seq<Row>, q: JobQuery, logical: string): Hit {
    if q.adminOnly then Load(rows, Query("", "", Admin, "", logical))
    else
      var uid, org := TrimSpace(q.user), TrimSpace(q.org);
      var mine := if uid == "" then Miss else Load(rows, Query(q.org, q.proj, User, uid, logical));
      if mine.Hit? then mine
      else if org == "" then Miss
      else Load(rows, Query(org, q.proj, Org, "", logical))
  }

  // ----- Which row decides -----

  predicate Usual(q: Query) {
    PlainKey(q.logical) && q.logical != "" && (q.scope.Org? ==> q.org != "")
  }

  function WideQuery(q: Query): Query {
    q.(proj := "")
  }

  /** A tombstone of exactly the project asked for. */
  predicate ProjectTombstone(r: Row, q: Query) {
    r.deleted && q.scope.Org? && q.proj != "" && r.proj == q.proj
  }

  lemma {:induction false} LegacyFindsNothing(rows: seq<Row>, org: string, proj: string, logical: string)
    requires !HasKey(rows, logical)
    ensures LegacyPick(rows, org, proj, logical) == Miss
    decreases |rows|
  {
    if rows != [] {
      forall i | 0 <= i < |rows[1..]| ensures rows[1..][i].key != logical {
        assert rows[1..][i] == rows[i + 1];
      }
      assert rows[0].key != logical;
      LegacyFindsNothing(rows[1..], org, proj, logical);
    }
  }

  lemma AnswerHasKey(rows: seq<Row>, q: Query)
    ensures Newest(rows, q) < |rows| ==> HasKey(rows, StorageKey(q.logical, q.scope, q.user))
  {
  }

  /** Every row that answers the org-wide query answers the project's. */
  lemma WideIsNarrower(rows: seq<Row>, q: Query)
    requires q.scope.Org?
    ensures forall i :: 0 <= i < |rows| && Answers(rows[i], WideQuery(q)) ==> Answers(rows[i], q)
    ensures Newest(rows, q) <= Newest(rows, WideQuery(q))
  {
  }

  /** What the newest row that answers says. A tombstone there is final, except
      that a tombstone of exactly the project asked for leaves the decision to the
      newest org-wide row. */
  function NewestOutcome(rows: seq<Row>, q: Query): Hit {
    var i := Newest(rows, q);
    if i == |rows| then Miss
    else if !ProjectTombstone(rows[i], q) then Outcome(rows[i], q.scope)
    else WideOutcome(rows, q)
  }

  function WideOutcome(rows: seq<Row>, q: Query): Hit {
    var w := Newest(rows, WideQuery(q));
    if w == |rows| then Miss else Outcome(rows[w], q.scope)
  }

  /** The newest row that answers decides the lookup: neither the second pass over
      org-wide rows nor the legacy lookup ever finds anything more. */
  lemma NewestRowDecides(rows: seq<Row>, q: Query)
    requires Usual(q)
    ensures Load(rows, q) == NewestOutcome(rows, q)
  {
    var wide := WideQuery(q);
    TrimmedIsFixed(q.logical);
    AnswerHasKey(rows, q);
    AnswerHasKey(rows, wide);
    if q.scope.Org? {
      WideIsNarrower(rows, q);
      if !HasKey(rows, q.logical) {
        LegacyFindsNothing(rows, q.org, q.proj, q.logical);
        LegacyFindsNothing(rows, q.org, "", q.logical);
      }
    }
  }

  lemma {:induction false} UserRowIsMine(r: Row, q: Query)
    requires Usual(q) && q.scope.User? && q.user != "" && Trimmed(q.user) && Answers(r, q)
    ensures EffectiveUser(r) == q.user
  {
    StorageKeyRoundTrip(q.logical, User, q.user);
    TrimmedIsFixed(q.user);
  }

  /** A hit is what a row that answers the query says. */
  ghost predicate HitFrom(rows: seq<Row>, q: Query, h: Hit, i: nat) {
    i < |rows| && Answers(rows[i], q) && !rows[i].deleted && h == Outcome(rows[i], q.scope)
  }

  lemma {:induction false} HitHasRow(rows: seq<Row>, q: Query)
    requires Usual(q)
    ensures Load(rows, q).Hit? ==> exists i :: HitFrom(rows, q, Load(rows, q), i)
  {
    NewestRowDecides(rows, q);
    if q.scope.Org? {
      WideIsNarrower(rows, q);
    }
    if Load(rows, q).Hit? {
      var i := Newest(rows, q);
      assert HitFrom(rows, q, Load(rows, q), if ProjectTombstone(rows[i], q) then Newest(rows, WideQuery(q)) else i);
    }
  }

  /** A row the caller may see: an org row without an organization or of the
      caller's, trimmed; a row of the user's own without one or of the caller's as
      given, or of any when none is given. */
  predicate Visible(r: Row, org: string, uid: string) {
    || (EffectiveScope(r) == Org && TrimSpace(org) != "" && r.org in ["", TrimSpace(org)])
    || (EffectiveScope(r) == User && (org == "" || r.org in ["", org]) && EffectiveUser(r) == uid && uid != "")
  }

  ghost predicate FromVisible(rows: seq<Row>, h: Hit, org: string, uid: string) {
    exists i :: 0 <= i < |rows| && Visible(rows[i], org, uid) && !rows[i].deleted
                && h == Outcome(rows[i], EffectiveScope(rows[i]))
  }

  /** The two queries of a resolve. */
  predicate Asks(q: Query, org: string, uid: string) {
    && Usual(q)
    && match q.scope
       case Admin => false
       case Org => q.org == TrimSpace(org)
       case User => q.org == org && q.user == uid && uid != "" && Trimmed(uid)
  }

  lemma {:induction false} AnswerIsVisible(r: Row, q: Query, org: string, uid: string)
    requires Asks(q, org, uid) && Answers(r, q)
    ensures Visible(r, org, uid) && EffectiveScope(r) == q.scope
  {
    if q.scope.User? {
      UserRowIsMine(r, q);
    }
  }

  lemma {:induction false} HitIsVisible(rows: seq<Row>, q: Query, org: string, uid: string)
    requires Asks(q, org, uid)
    ensures Load(rows, q).Hit? ==> FromVisible(rows, Load(rows, q), org, uid)
  {
    HitHasRow(rows, q);
    var h := Load(rows, q);
    if h.Hit? {
      var i :| HitFrom(rows, q, h, i);
      RowIsVisible(rows, q, h, i, org, uid);
    }
  }

  lemma {:induction false} RowIsVisible(rows: seq<Row>, q: Query, h: Hit, i: nat, org: string, uid: string)
    requires Asks(q, org, uid) && HitFrom(rows, q, h, i)
    ensures FromVisible(rows, h, org, uid)
  {
    AnswerIsVisible(rows[i], q, org, uid);
  }

  /** A job that does not ask for admin secrets never gets one, nor one of another
      user, nor, when it names an organization, one of another organization,
      whatever rows the log holds. */
  lemma Isolation(rows: seq<Row>, q: JobQuery, logical: string)
    requires PlainKey(logical) && logical != "" && !q.adminOnly
    ensures Resolve(rows, q, logical).Hit? ==> FromVisible(rows, Resolve(rows, q, logical), q.org, TrimSpace(q.user))
    ensures Resolve(rows, q, logical).Hit? ==> Resolve(rows, q, logical).scope != Admin
  {
    TrimSpaceLaws(q.user);
    var uid, org := TrimSpace(q.user), TrimSpace(q.org);
    if uid != "" {
      HitIsVisible(rows, Query(q.org, q.proj, User, uid, logical), q.org, uid);
    }
    if org != "" {
      HitIsVisible(rows, Query(org, q.proj, Org, "", logical), q.org, uid);
    }
  }

  // ----- Writing -----

  datatype WriteError = NeedsUser

  function WrittenRow(org: string, proj: string, scope: Scope, user: string, logical: string, plain: string, deleted: bool): Row {
    var key := StorageKey(logical, scope, user);
    var value := if deleted then "" else plain;
    if scope.Admin? then Row(key, "", "", "admin", "", value, deleted)
    else Row(key, org, proj, ScopeName(scope), user, value, deleted)
  }

  class SecretLog {
    var rows: seq<Row>   // newest first

    constructor ()
      ensures rows == []
    {
      rows := [];
    }

    /** persistSCMSecretScoped; the scope is one the caller has validated. */
    method Persist(org: string, proj: string, scope: Scope, user: string, logical: string, plain: string, deleted: bool)
        returns (e: Option<WriteError>)
      modifies this
      ensures e.Some? <==> scope.User? && TrimSpace(user) == ""
      ensures rows == if e.Some? then old(rows)
                      else [WrittenRow(org, proj, scope, user, logical, plain, deleted)] + old(rows)
    {
      if scope == User && TrimSpace(user) == "" {
        return Some(NeedsUser);
      }
      var storageKey := StorageKey(logical, scope, user);
      var ct := "";
      if !deleted && plain != "" {
        ct := plain;
      }
      var rowOrg, rowProj, rowUser := org, proj, user;
      if scope == Admin {
        rowOrg, rowProj, rowUser := "", "", "";
      }
      rows := [Row(storageKey, rowOrg, rowProj, ScopeName(scope), rowUser, ct, deleted)] + rows;
      return None;
    }
  }

  lemma ScopeColumn(org: string, s: Scope)
    ensures InferScope(org, ScopeName(s)) == s && TrimSpace(ScopeName(s)) != ""
  {
    TrimmedIsFixed(ScopeName(s));
    assert ToLower("admin") == "admin" && ToLower("org") == "org" && ToLower("user") == "user";
  }

  lemma {:induction false} WrittenRowAnswers(q: Query, plain: string, deleted: bool)
    requires Usual(q) && (q.scope.User? ==> TrimSpace(q.user) != "")
    ensures Answers(WrittenRow(q.org, q.proj, q.scope, q.user, q.logical, plain, deleted), q)
  {
    StorageKeyRoundTrip(q.logical, q.scope, q.user);
    ScopeColumn(q.org, q.scope);
    ScopeColumn("", q.scope);
  }

  lemma NewestAfter(r: Row, rows: seq<Row>, q: Query)
    ensures Newest([r] + rows, q) == if Answers(r, q) then 0 else 1 + Newest(rows, q)
    ensures Newest(rows, q) < |rows| ==> ([r] + rows)[1 + Newest(rows, q)] == rows[Newest(rows, q)]
  {
    assert ([r] + rows)[1..] == rows;
  }

  lemma {:induction false} FirstRowDecides(r: Row, rows: seq<Row>, q: Query)
    requires Usual(q) && Answers(r, q)
    ensures Load([r] + rows, q) == if ProjectTombstone(r, q) then WideOutcome(rows, q) else Outcome(r, q.scope)
  {
    NewestAfter(r, rows, q);
    if ProjectTombstone(r, q) {
      WideAfter(r, rows, q);
    }
    NewestRowDecides([r] + rows, q);
  }

  lemma WideAfter(r: Row, rows: seq<Row>, q: Query)
    requires !Answers(r, WideQuery(q))
    ensures WideOutcome([r] + rows, q) == WideOutcome(rows, q)
  {
    NewestAfter(r, rows, WideQuery(q));
  }

  /** After a write the same query reads the value back. After a delete it finds
      nothing, or, for a project, what the newest org-wide row says. */
  lemma {:induction false} ReadAfterWrite(rows: seq<Row>, q: Query, plain: string, deleted: bool)
    requires Usual(q) && (q.scope.User? ==> TrimSpace(q.user) != "")
    ensures var r := WrittenRow(q.org, q.proj, q.scope, q.user, q.logical, plain, deleted);
            var h := Load([r] + rows, q);
            && (!deleted && plain != "" ==> h.Hit? && h.plain == plain && h.scope == q.scope)
            && (!deleted && plain == "" ==> h == Miss)
            && (deleted ==> h == if q.scope.Org? && q.proj != "" then WideOutcome(rows, q) else Miss)
  {
    var r := WrittenRow(q.org, q.proj, q.scope, q.user, q.logical, plain, deleted);
    WrittenRowAnswers(q, plain, deleted);
    FirstRowDecides(r, rows, q);
  }

  /** A row that does not answer a query, in the project or org-wide, leaves its
      result alone. */
  lemma {:induction false} OtherRowsDoNotMatter(r: Row, rows: seq<Row>, q: Query)
    requires Usual(q) && !Answers(r, q)
    ensures Load([r] + rows, q) == Load(rows, q)
  {
    if q.scope.Org? {
      WideIsNarrower([r], q);
      assert [r][0] == r;
      WideAfter(r, rows, q);
    }
    NewestAfter(r, rows, q);
    NewestRowDecides(rows, q);
    NewestRowDecides([r] + rows, q);
  }

  /** Writes of another organization, user or scope, or of another key, are
      invisible. */
  lemma {:induction false} WritesAreIsolated(rows: seq<Row>, q: Query, w: Query, plain: string, deleted: bool)
    requires Usual(q) && Usual(w)
    requires (w.scope.User? ==> Trimmed(w.user) && w.user != "") && (q.scope.User? ==> Trimmed(q.user) && q.user != "")
    requires || w.scope != q.scope || w.logical != q.logical
             || (q.scope.User? && q.user != w.user)
             || (q.scope.Org? && q.org != w.org)
    ensures Load([WrittenRow(w.org, w.proj, w.scope, w.user, w.logical, plain, deleted)] + rows, q) == Load(rows, q)
  {
    StorageKeyInjective(w.logical, w.scope, w.user, q.logical, q.scope, q.user);
    if w.scope.User? && q.scope.User? {
      TrimmedIsFixed(w.user);
      TrimmedIsFixed(q.user);
    }
    OtherRowsDoNotMatter(WrittenRow(w.org, w.proj, w.scope, w.user, w.logical, plain, deleted), rows, q);
  }

  // ----- What a job resolves to -----

  /** The two lookups of a job: its user's own secret, then its organization's. */
  function UserQuery(q: JobQuery, logical: string): Query {
    Query(q.org, q.proj, User, TrimSpace(q.user), logical)
  }

  function OrgQuery(q: JobQuery, logical: string): Query {
    Query(TrimSpace(q.org), q.proj, Org, "", logical)
  }

  /** The newest row of the user's own, or the one of the organization. */
  function OwnSecret(rows: seq<Row>, q: JobQuery, logical: string): Hit {
    if TrimSpace(q.user) == "" then Miss else NewestOutcome(rows, UserQuery(q, logical))
  }

  function SharedSecret(rows: seq<Row>, q: JobQuery, logical: string): Hit {
    if TrimSpace(q.org) == "" then Miss else NewestOutcome(rows, OrgQuery(q, logical))
  }

  predicate JobAsks(q: JobQuery, logical: string) {
    PlainKey(logical) && logical != "" && !q.adminOnly
  }

  /** A job finds nothing exactly when neither its user nor its organization has a
      live secret; the user's own comes first. */
  lemma {:induction false} ResolvesExactly(rows: seq<Row>, q: JobQuery, logical: string)
    requires JobAsks(q, logical)
    ensures Resolve(rows, q, logical) == Miss <==> OwnSecret(rows, q, logical) == Miss && SharedSecret(rows, q, logical) == Miss
    ensures OwnSecret(rows, q, logical).Hit? ==> Resolve(rows, q, logical) == OwnSecret(rows, q, logical)
    ensures OwnSecret(rows, q, logical) == Miss ==> Resolve(rows, q, logical) == SharedSecret(rows, q, logical)
  {
    if TrimSpace(q.user) != "" {
      NewestRowDecides(rows, UserQuery(q, logical));
    }
    if TrimSpace(q.org) != "" {
      NewestRowDecides(rows, OrgQuery(q, logical));
    }
  }

  lemma {:induction false} OrgRowAnswers(q: Query, proj: string, plain: string)
    requires Usual(q) && q.scope.Org? && proj in {"", q.proj}
    ensures Answers(WrittenRow(q.org, proj, Org, q.user, q.logical, plain, false), q)
  {
    WrittenRowAnswers(q.(proj := proj), plain, false);
  }

  lemma {:induction false} UserRowAnswers(q: Query, proj: string, plain: string, deleted: bool)
    requires Usual(q) && q.scope.User? && TrimSpace(q.user) != ""
    ensures Answers(WrittenRow(q.org, proj, User, q.user, q.logical, plain, deleted), q)
  {
    WrittenRowAnswers(q.(proj := proj), plain, deleted);
  }

  /** A value written for the organization, for all projects or the job's own, is
      what every job of it resolves to whose user has no live secret. */
  lemma {:induction false} OrgSecretIsInherited(rows: seq<Row>, q: JobQuery, logical: string, proj: string, plain: string)
    requires JobAsks(q, logical) && TrimSpace(q.org) != "" && proj in {"", q.proj} && plain != ""
    requires OwnSecret(rows, q, logical) == Miss
    ensures var r := WrittenRow(TrimSpace(q.org), proj, Org, "", logical, plain, false);
            Resolve([r] + rows, q, logical) == Hit(plain, Org, TrimSpace(q.org), proj, EffectiveUser(r))
  {
    var r := WrittenRow(TrimSpace(q.org), proj, Org, "", logical, plain, false);
    var org := OrgQuery(q, logical);
    OrgRowAnswers(org, proj, plain);
    FirstRowDecides(r, rows, org);
    if TrimSpace(q.user) != "" {
      TrimSpaceLaws(q.user);
      NewestRowDecides(rows, UserQuery(q, logical));
      OtherScope(rows, UserQuery(q, logical), org.(proj := proj), plain);
    }
  }

  lemma {:induction false} OtherScope(rows: seq<Row>, q: Query, w: Query, plain: string)
    requires Usual(q) && Usual(w) && q.scope.User? && w.scope.Org? && Trimmed(q.user) && q.user != ""
    ensures Load([WrittenRow(w.org, w.proj, w.scope, w.user, w.logical, plain, false)] + rows, q) == Load(rows, q)
  {
    WritesAreIsolated(rows, q, w, plain, false);
  }

  /** A value the user wrote is what the user's jobs resolve to, whatever the
      organization has. */
  lemma {:induction false} OwnSecretWins(rows: seq<Row>, q: JobQuery, logical: string, proj: string, plain: string)
    requires JobAsks(q, logical) && TrimSpace(q.user) != "" && plain != ""
    ensures var r := WrittenRow(q.org, proj, User, TrimSpace(q.user), logical, plain, false);
            Resolve([r] + rows, q, logical) == Hit(plain, User, q.org, proj, TrimSpace(q.user))
  {
    TrimSpaceLaws(q.user);
    var own := UserQuery(q, logical);
    UserRowAnswers(own, proj, plain, false);
    FirstRowDecides(WrittenRow(q.org, proj, User, own.user, logical, plain, false), rows, own);
  }

  /** When the user deletes it, the organization's newest row decides again. */
  lemma {:induction false} DeletedOwnFallsBack(rows: seq<Row>, q: JobQuery, logical: string, proj: string)
    requires JobAsks(q, logical) && TrimSpace(q.user) != ""
    ensures Resolve([WrittenRow(q.org, proj, User, TrimSpace(q.user), logical, "", true)] + rows, q, logical)
            == SharedSecret(rows, q, logical)
  {
    TrimSpaceLaws(q.user);
    var own, org := UserQuery(q, logical), OrgQuery(q, logical);
    var r := WrittenRow(q.org, proj, User, own.user, logical, "", true);
    UserRowAnswers(own, proj, "", true);
    FirstRowDecides(r, rows, own);
    if TrimSpace(q.org) != "" {
      NewestRowDecides(rows, org);
      WritesAreIsolated(rows, org, own.(proj := proj), "", true);
    }
  }

  /** An admin value is read by the query for admin secrets, and by no other. */
  lemma {:induction false} AdminSecretsStayApart(rows: seq<Row>, q: JobQuery, logical: string, plain: string)
    requires PlainKey(logical) && logical != "" && plain != ""
    ensures var r := WrittenRow("", "", Admin, "", logical, plain, false);
            && (q.adminOnly ==> Resolve([r] + rows, q, logical) == Hit(plain, Admin, "", "", ""))
            && (!q.adminOnly ==> Resolve([r] + rows, q, logical) == Resolve(rows, q, logical))
  {
    var admin := Query("", "", Admin, "", logical);
    var r := WrittenRow("", "", Admin, "", logical, plain, false);
    if q.adminOnly {
      ReadAfterWrite(rows, admin, plain, false);
      WrittenRowAnswers(admin, plain, false);
      FirstRowDecides(r, rows, admin);
      StorageKeyRoundTrip(logical, Admin, "");
    } else {
      if TrimSpace(q.user) != "" {
        TrimSpaceLaws(q.user);
        WritesAreIsolated(rows, UserQuery(q, logical), admin, plain, false);
      }
      if TrimSpace(q.org) != "" {
        WritesAreIsolated(rows, OrgQuery(q, logical), admin, plain, false);
      }
    }
  }

  // ----- Rows from before there was a scope -----

  /** A row whose scope entry is blank has the scope its key is stored under; an
      unmarked key is the organization's where the row names one, else an admin's. */
  lemma {:induction false} OldRowScope(logical: string, scope: Scope, user: string, org: string, proj: string, plain: string)
    requires PlainKey(logical)
    ensures EffectiveScope(Row(StorageKey(logical, scope, user), org, proj, "", user, plain, false)) ==
            if scope.Org? && TrimSpace(org) == "" then Admin else scope
  {
    StorageKeyRoundTrip(logical, scope, user);
    BlankColumn(org);
    ScopeColumn(org, scope);
  }

  lemma BlankColumn(org: string)
    ensures InferScope(org, "") == if TrimSpace(org) != "" then Org else Admin
  {
    assert TrimSpace("") == "" && ToLower("") == "";
  }

  /** So an old row of an organization is still inherited by its jobs, and one that
      names no organization by nobody's. */
  lemma {:induction false} OldRowIsInheritedExactly(rows: seq<Row>, q: JobQuery, logical: string, org: string, plain: string)
    requires JobAsks(q, logical) && TrimSpace(q.user) == "" && TrimSpace(q.org) != "" && plain != ""
    requires org in {"", TrimSpace(q.org)}
    ensures var r := Row(logical, org, "", "", "", plain, false);
            Resolve([r] + rows, q, logical) ==
            if org == "" then Resolve(rows, q, logical) else Hit(plain, Org, org, "", EffectiveUser(r))
  {
    var r, query := Row(logical, org, "", "", "", plain, false), OrgQuery(q, logical);
    TrimmedIsFixed(logical);
    TrimSpaceLaws(q.org);
    OldRowScope(logical, Org, "", org, "", plain);
    StorageKeyRoundTrip(logical, Org, "");
    if org == "" {
      OtherRowsDoNotMatter(r, rows, query);
    } else {
      FirstRowDecides(r, rows, query);
    }
  }
}
