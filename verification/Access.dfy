/**
 Access grants and the evaluator that scores every matching grant and lets the
 highest score decide (apps/storage/access.py).
 */
module Access {
  import opened Prelude
  import opened Paths

  datatype SubjectType = User | Group | Company
  datatype ResourceType = WholeBucket | Folder | File
  datatype Permission = Read | Write | Admin
  datatype Effect = Allow | Deny
  datatype BucketKind = CompanyBucket | Connector | OtherKind

  datatype Bucket = Bucket(id: nat, companyId: nat, kind: BucketKind)

  datatype Principal = Principal(userId: Option<nat>, companyId: Option<nat>, isCompanyOwner: bool, isStaff: bool)

  datatype Grant = Grant(
    id: nat,
    companyId: nat,
    bucketId: nat,
    target: Option<nat>,  // the file or folder marker the row points at
    subjectType: SubjectType,
    subjectId: string,
    resourceType: ResourceType,
    permission: Permission,
    effect: Effect,
    expiresAt: Option<int>)

  /** The current name of every stored object, by object id. */
  type Names = map<nat, string>

  /** What is being asked: a path and, when the object is known, its id. */
  datatype Request = Request(path: Option<string>, objectId: Option<nat>)

  function Decimal(n: nat): string {
    if n < 10 then [('0' as int + n) as char] else Decimal(n / 10) + [('0' as int + n % 10) as char]
  }

  /** Different ids are written differently. */
  lemma {:induction false} DecimalInjective(a: nat, b: nat)
    ensures Decimal(a) == Decimal(b) ==> a == b
    decreases a
  {
    if Decimal(a) == Decimal(b) {
      DecimalNonEmpty(a / 10);
      DecimalNonEmpty(b / 10);
      var x, y := Decimal(a), Decimal(b);
      assert x[|x| - 1] == y[|y| - 1];
      if a >= 10 && b >= 10 {
        assert x[..|x| - 1] == Decimal(a / 10) && y[..|y| - 1] == Decimal(b / 10);
        DecimalInjective(a / 10, b / 10);
      }
    }
  }

  lemma DecimalNonEmpty(n: nat)
    ensures |Decimal(n)| > 0
  {
  }

  predicate Digits(s: string) { forall i :: 0 <= i < |s| ==> '0' <= s[i] <= '9' }

  /** The number that a text of digits stands for. */
  function ReadDecimal(s: string): nat
    requires Digits(s)
  {
    if s == "" then 0 else 10 * ReadDecimal(s[..|s| - 1]) + (s[|s| - 1] as int - '0' as int)
  }

  /** An id is written in digits that stand for it, without zeros in front. */
  lemma {:induction false} DecimalReadsBack(n: nat)
    ensures Digits(Decimal(n)) && ReadDecimal(Decimal(n)) == n && (n > 0 ==> Decimal(n)[0] != '0')
    decreases n
  {
    if n >= 10 {
      DecimalReadsBack(n / 10);
      var d := Decimal(n);
      assert d[..|d| - 1] == Decimal(n / 10);
    } else {
      assert Decimal(n)[..0] == "";
    }
  }

  function PermissionRank(p: Permission): int {
    match p
    case Read => 0
    case Write => 1
    case Admin => 2
  }

  predicate PermissionAtLeast(granted: Permission, required: Permission) {
    PermissionRank(granted) >= PermissionRank(required)
  }

  predicate DenyBlocks(denied: Permission, required: Permission) {
    PermissionRank(required) >= PermissionRank(denied)
  }

  /** A non-empty folder matches itself and everything below it; the root matches everything. */
  predicate FolderMatches(prefix: string, path: string) {
    var f, p := NormalizePath(prefix), NormalizePath(path);
    f == "" || p == f || StartsWith(p, f + "/")
  }

  function TargetName(names: Names, g: Grant): Option<string> {
    if g.target.Some? && g.target.value in names then Some(names[g.target.value]) else None
  }

  function TargetFolder(names: Names, g: Grant): string {
    match TargetName(names, g)
    case Some(name) => FolderPathFromPlaceholder(name)
    case None => ""
  }

  function RequestPath(rq: Request): string {
    NormalizePath(match rq.path case Some(p) => p case None => "")
  }

  predicate ResourceMatches(names: Names, g: Grant, bucket: Bucket, rq: Request) {
    g.bucketId == bucket.id &&
    match g.resourceType
    case WholeBucket => true
    case Folder => TargetName(names, g).Some? && FolderMatches(TargetFolder(names, g), RequestPath(rq))
    case File =>
      TargetName(names, g).Some? &&
      (rq.objectId == g.target ||
       (RequestPath(rq) != "" && NormalizePath(TargetName(names, g).value) == RequestPath(rq)))
  }

  predicate SubjectMatches(g: Grant, principal: Principal) {
    principal.userId.Some? && principal.companyId.Some? &&
    match g.subjectType
    case User => g.subjectId == Decimal(principal.userId.value)
    case Company => g.subjectId == Decimal(principal.companyId.value)
    case Group => false
  }

  predicate Active(g: Grant, now: int) {
    g.expiresAt.None? || g.expiresAt.value > now
  }

  predicate SameCompany(principal: Principal, bucket: Bucket) {
    principal.userId.Some? && principal.companyId == Some(bucket.companyId)
  }

  predicate KindDefaultAllows(principal: Principal, bucket: Bucket, required: Permission) {
    SameCompany(principal, bucket) &&
    match bucket.kind
    case CompanyBucket => required != Admin || principal.isCompanyOwner || principal.isStaff
    case Connector => required == Read
    case OtherKind => false
  }

  /** Resource score first, then subject score. */
  function Score(names: Names, g: Grant): (s: (int, int)) {
    var subject := match g.subjectType case User => 3 case Group => 2 case Company => 1;
    var resource := match g.resourceType
      case File => 1000
      case Folder =>
        var folder := TargetFolder(names, g);
        100 + if folder == "" then 0 else |Split(NormalizePath(folder))|
      case WholeBucket => 1;
    (resource, subject)
  }

  predicate ScoreLe(a: (int, int), b: (int, int)) {
    a.0 < b.0 || (a.0 == b.0 && a.1 <= b.1)
  }

  /** The grants that match this principal and this request now. */
  function Relevant(grants: set<Grant>, names: Names, principal: Principal, bucket: Bucket, rq: Request,
                    now: int): set<Grant> {
    set g | g in grants && g.companyId == bucket.companyId && Active(g, now)
      && SubjectMatches(g, principal) && ResourceMatches(names, g, bucket, rq)
  }

  /** The matching grants whose score is the highest. */
  function Top(names: Names, relevant: set<Grant>): set<Grant> {
    set g | g in relevant && forall h :: h in relevant ==> ScoreLe(Score(names, h), Score(names, g))
  }

  /** Deny first, then allow; a too weak allow refuses, no allow at all leaves the default. */
  predicate Decide(top: set<Grant>, required: Permission, default: bool) {
    if exists g :: g in top && g.effect == Deny && DenyBlocks(g.permission, required) then false
    else if exists g :: g in top && g.effect == Allow && PermissionAtLeast(g.permission, required) then true
    else if exists g :: g in top && g.effect == Allow then false
    else default
  }

  predicate EvaluateAccess(grants: set<Grant>, names: Names, principal: Principal, bucket: Bucket, rq: Request,
                           required: Permission, now: int)
  {
    SameCompany(principal, bucket) &&
    var relevant := Relevant(grants, names, principal, bucket, rq, now);
    Decide(Top(names, relevant), required, KindDefaultAllows(principal, bucket, required))
  }

  /** Administering implies writing, and writing implies reading, whatever the grants are. */
  lemma PermissionsAreNested(grants: set<Grant>, names: Names, principal: Principal, bucket: Bucket, rq: Request,
                             now: int)
    ensures EvaluateAccess(grants, names, principal, bucket, rq, Admin, now)
      ==> EvaluateAccess(grants, names, principal, bucket, rq, Write, now)
    ensures EvaluateAccess(grants, names, principal, bucket, rq, Write, now)
      ==> EvaluateAccess(grants, names, principal, bucket, rq, Read, now)
  {
    var top := Top(names, Relevant(grants, names, principal, bucket, rq, now));
    DecideNested(top, Write, Read, KindDefaultAllows(principal, bucket, Write),
      KindDefaultAllows(principal, bucket, Read));
    DecideNested(top, Admin, Write, KindDefaultAllows(principal, bucket, Admin),
      KindDefaultAllows(principal, bucket, Write));
  }

  lemma DecideNested(top: set<Grant>, strong: Permission, weak: Permission, strongDefault: bool, weakDefault: bool)
    requires PermissionRank(weak) <= PermissionRank(strong)
    requires strongDefault ==> weakDefault
    ensures Decide(top, strong, strongDefault) ==> Decide(top, weak, weakDefault)
  {
    if exists g :: g in top && g.effect == Deny && DenyBlocks(g.permission, weak) {
      var g :| g in top && g.effect == Deny && DenyBlocks(g.permission, weak);
      assert DenyBlocks(g.permission, strong);
    }
    if exists g :: g in top && g.effect == Allow && PermissionAtLeast(g.permission, strong) {
      var g :| g in top && g.effect == Allow && PermissionAtLeast(g.permission, strong);
      assert PermissionAtLeast(g.permission, weak);
    }
  }

  function Unexpired(grants: set<Grant>, now: int): set<Grant> {
    set g | g in grants && (g.expiresAt.None? || now < g.expiresAt.value)
  }

  /** The evaluator as it runs: a maximum over the scores, then two scans over the best grants. */
  method CheckAccess(grants: set<Grant>, names: Names, principal: Principal, bucket: Bucket, rq: Request,
                     required: Permission, now: int)
    returns (allowed: bool)
    ensures allowed == EvaluateAccess(grants, names, principal, bucket, rq, required, now)
    ensures allowed == EvaluateAccess(Unexpired(grants, now), names, principal, bucket, rq, required, now)
  {
    assert Relevant(grants, names, principal, bucket, rq, now)
      == Relevant(Unexpired(grants, now), names, principal, bucket, rq, now);
    if !SameCompany(principal, bucket) { return false; }
    var relevant := Relevant(grants, names, principal, bucket, rq, now);
    if relevant != {} {
      var top := BestGrants(names, relevant);
      var denied := AnyDenies(top, required);
      if denied { return false; }
      var enough, sawAllow := AnyAllows(top, required);
      if enough { return true; }
      if sawAllow { return false; }
    }
    return KindDefaultAllows(principal, bucket, required);
  }

  method AnyDenies(top: set<Grant>, required: Permission) returns (denied: bool)
    ensures denied <==> exists g :: g in top && g.effect == Deny && DenyBlocks(g.permission, required)
  {
    var todo := top;
    while todo != {}
      invariant todo <= top
      invariant forall g :: g in top && g !in todo ==> !(g.effect == Deny && DenyBlocks(g.permission, required))
    {
      var g :| g in todo;
      if g.effect == Deny && DenyBlocks(g.permission, required) { return true; }
      todo := todo - {g};
    }
    return false;
  }

  /** The first sufficient allow ends the scan; an insufficient one is remembered. */
  method AnyAllows(top: set<Grant>, required: Permission) returns (enough: bool, sawAllow: bool)
    ensures enough <==> exists g :: g in top && g.effect == Allow && PermissionAtLeast(g.permission, required)
    ensures !enough ==> (sawAllow <==> exists g :: g in top && g.effect == Allow)
  {
    sawAllow := false;
    var todo := top;
    while todo != {}
      invariant todo <= top
      invariant sawAllow <==> exists g :: g in top && g !in todo && g.effect == Allow
      invariant forall g :: g in top && g !in todo && g.effect == Allow ==> !PermissionAtLeast(g.permission, required)
    {
      var g :| g in todo;
      todo := todo - {g};
      if g.effect != Allow { continue; }
      sawAllow := true;
      if PermissionAtLeast(g.permission, required) { return true, sawAllow; }
    }
    enough := false;
  }

  /** The grants with the maximal score, by one pass for the maximum and one to keep the ties. */
  method BestGrants(names: Names, relevant: set<Grant>) returns (top: set<Grant>)
    requires relevant != {}
    ensures top == Top(names, relevant) && top != {}
  {
    var first :| first in relevant;
    var best := Score(names, first);
    ghost var leader := first;
    var todo := relevant - {first};
    while todo != {}
      invariant todo <= relevant && leader in relevant && Score(names, leader) == best
      invariant forall g :: g in relevant - todo ==> ScoreLe(Score(names, g), best)
    {
      var g :| g in todo;
      if !ScoreLe(Score(names, g), best) {
        best := Score(names, g);
        leader := g;
      }
      todo := todo - {g};
    }
    top := set g | g in relevant && Score(names, g) == best;
    assert leader in top;
    forall g | g in relevant
      ensures g in top <==> forall h :: h in relevant ==> ScoreLe(Score(names, h), Score(names, g))
    {
      if forall h :: h in relevant ==> ScoreLe(Score(names, h), Score(names, g)) {
        assert ScoreLe(Score(names, leader), Score(names, g));
      }
    }
  }
}
