/**
 What single grants do to a decision, read off their fields (apps/storage/access.py:198-373): which
 grants take no part in it, and what one grant alone, or none, decides.
 */
module AccessLaws {
  import opened Prelude
  import opened Paths
  import opened Access

  // ----------------------------------------------------- grants without effect

  /** From the time it expires a grant changes no decision. */
  lemma ExpiredGrantIsIdle(grants: set<Grant>, g: Grant, names: Names, principal: Principal, bucket: Bucket,
                           rq: Request, required: Permission, now: int)
    requires g.expiresAt.Some? && g.expiresAt.value <= now
    ensures EvaluateAccess(grants + {g}, names, principal, bucket, rq, required, now)
      == EvaluateAccess(grants - {g}, names, principal, bucket, rq, required, now)
  {
    assert Relevant(grants + {g}, names, principal, bucket, rq, now)
      == Relevant(grants - {g}, names, principal, bucket, rq, now);
  }

  /** The grant is for this user, or for the whole company. */
  predicate IsFor(g: Grant, userId: nat, companyId: nat) {
    (g.subjectType == User && g.subjectId == Decimal(userId))
    || (g.subjectType == Company && g.subjectId == Decimal(companyId))
  }

  /** Nor does one of another company or bucket, or for anyone but the user and the company: groups are nobody. */
  lemma ForeignGrantIsIdle(grants: set<Grant>, g: Grant, names: Names, userId: nat, companyId: nat, owner: bool,
                           staff: bool, bucket: Bucket, rq: Request, required: Permission, now: int)
    requires g.companyId != bucket.companyId || g.bucketId != bucket.id || !IsFor(g, userId, companyId)
    ensures var principal := Principal(Some(userId), Some(companyId), owner, staff);
            EvaluateAccess(grants + {g}, names, principal, bucket, rq, required, now)
            == EvaluateAccess(grants - {g}, names, principal, bucket, rq, required, now)
  {
    var principal := Principal(Some(userId), Some(companyId), owner, staff);
    assert Relevant(grants + {g}, names, principal, bucket, rq, now)
      == Relevant(grants - {g}, names, principal, bucket, rq, now);
  }

  /** Without a user, a company, or that of the bucket, nothing is allowed. */
  lemma StrangersAreRefused(grants: set<Grant>, names: Names, principal: Principal, bucket: Bucket, rq: Request,
                            required: Permission, now: int)
    requires principal.userId.None? || principal.companyId.None? || principal.companyId.value != bucket.companyId
    ensures !EvaluateAccess(grants, names, principal, bucket, rq, required, now)
  {
  }

  // -------------------------------------------------------- no grant, one grant

  /** What members may do where no grant speaks. */
  predicate Default(kind: BucketKind, required: Permission, owner: bool, staff: bool) {
    (kind == CompanyBucket && (required == Read || required == Write || owner || staff))
    || (kind == Connector && required == Read)
  }

  lemma DefaultDecides(names: Names, userId: nat, owner: bool, staff: bool, bucket: Bucket, rq: Request,
                       required: Permission, now: int)
    ensures var principal := Principal(Some(userId), Some(bucket.companyId), owner, staff);
            EvaluateAccess({}, names, principal, bucket, rq, required, now)
            <==> Default(bucket.kind, required, owner, staff)
  {
    var principal := Principal(Some(userId), Some(bucket.companyId), owner, staff);
    assert Relevant({}, names, principal, bucket, rq, now) == {};
  }

  /** Where the grant stands: on the marker of a canonical folder, or on a file of canonical name. */
  predicate Stands(g: Grant, names: Names, at: string) {
    g.resourceType != WholeBucket ==>
      g.target.Some? && g.target.value in names && Canonical(at)
      && names[g.target.value] == if g.resourceType == Folder then at + "/" + MARKER else at
  }

  /** The grant reaches a canonical path: by bucket, by folder, or by the file itself, named or known by its id. */
  predicate Hits(g: Grant, at: string, path: string, objectId: Option<nat>) {
    match g.resourceType
    case WholeBucket => true
    case Folder => path == at || StartsWith(path, at + "/")
    case File => path == at || objectId == g.target
  }

  /** Of this bucket and company, for this user or company, not expired, and reaching the path. */
  predicate Speaks(g: Grant, at: string, userId: nat, bucket: Bucket, path: string, objectId: Option<nat>, now: int) {
    g.companyId == bucket.companyId && g.bucketId == bucket.id && IsFor(g, userId, bucket.companyId)
    && (g.expiresAt.None? || now < g.expiresAt.value) && Hits(g, at, path, objectId)
  }

  predicate Covers(granted: Permission, required: Permission) {
    granted == Admin || required == Read || granted == required
  }

  /** What the grant alone decides. */
  predicate Verdict(g: Grant, required: Permission, default: bool) {
    if g.effect == Allow then Covers(g.permission, required)
    else default && !Covers(required, g.permission)
  }

  /**
   One grant alone decides by its permission and effect if it speaks for the user about the path now;
   otherwise the default of the bucket stands.
   */
  lemma LoneGrantDecides(g: Grant, at: string, names: Names, userId: nat, owner: bool, staff: bool, bucket: Bucket,
                         path: string, objectId: Option<nat>, required: Permission, now: int)
    requires Stands(g, names, at) && Canonical(path)
    ensures var principal := Principal(Some(userId), Some(bucket.companyId), owner, staff);
            var default := Default(bucket.kind, required, owner, staff);
            EvaluateAccess({g}, names, principal, bucket, Request(Some(path), objectId), required, now)
            <==> if Speaks(g, at, userId, bucket, path, objectId, now) then Verdict(g, required, default) else default
  {
    var principal := Principal(Some(userId), Some(bucket.companyId), owner, staff);
    var rq := Request(Some(path), objectId);
    if g.bucketId == bucket.id { HitsAreMatches(g, at, names, bucket, path, objectId); }
    assert Relevant({g}, names, principal, bucket, rq, now)
      == if Speaks(g, at, userId, bucket, path, objectId, now) then {g} else {};
    AloneOnTop(g, names, required, Default(bucket.kind, required, owner, staff));
  }

  lemma AloneOnTop(g: Grant, names: Names, required: Permission, default: bool)
    ensures Decide(Top(names, {g}), required, default) <==> Verdict(g, required, default)
    ensures Decide(Top(names, {}), required, default) <==> default
  {
    assert g in Top(names, {g});
    assert Top(names, {}) == {};
  }

  lemma HitsAreMatches(g: Grant, at: string, names: Names, bucket: Bucket, path: string, objectId: Option<nat>)
    requires Stands(g, names, at) && Canonical(path) && g.bucketId == bucket.id
    ensures ResourceMatches(names, g, bucket, Request(Some(path), objectId)) <==> Hits(g, at, path, objectId)
  {
    CanonicalIsNormal(path);
    if g.resourceType != WholeBucket {
      CanonicalIsNormal(at);
      if g.resourceType == Folder {
        MarkerNormal(at);
        MarkerRoundTrip(at);
      }
    }
  }
}
