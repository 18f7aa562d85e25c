/** What the isolation theorems mean by a request of the organisation, a visible answer, a foreign key
    and a refused slug, in terms of requests and rows. */
module Circumstances {
  import opened Domain
  import opened Store
  import opened Workflows
  import opened Ledger
  import opened Gate
  import opened Answers
  import opened Isolation
  import Slugs

  /** A request of the organisation has it in its path. */
  lemma HomeIsBelow(r: Request, a: OrgId)
    ensures Home(r, a) <==> Below(r.command, a)
  {
  }

  /** Two key rows that differ in their last use at most. */
  predicate SameKeyRow(x: (KeyId, ApiKey), y: (KeyId, ApiKey)) {
    && x.0 == y.0 && x.1.org == y.1.org && x.1.name == y.1.name && x.1.prefix == y.1.prefix
    && x.1.digest == y.1.digest && x.1.createdBy == y.1.createdBy && x.1.createdAt == y.1.createdAt
    && x.1.revokedAt == y.1.revokedAt
  }

  /** Answers look alike exactly when they are equal, but for the last use in a listing of keys. */
  lemma VisibleIsAllButLastUse(x: Response, y: Response)
    ensures Visible(x) == Visible(y)
            <==> x == y
                 || (x.Ok? && y.Ok? && x.body.KeysPage? && y.body.KeysPage? && x.body.total == y.body.total
                     && |x.body.keys| == |y.body.keys|
                     && forall i :: 0 <= i < |x.body.keys| ==> SameKeyRow(x.body.keys[i], y.body.keys[i]))
  {
    if x.Ok? && y.Ok? && x.body.KeysPage? && y.body.KeysPage? {
      var xs, ys := x.body.keys, y.body.keys;
      forall i | 0 <= i < |xs| && i < |ys|
        ensures UnstampedRow(xs[i]) == UnstampedRow(ys[i]) <==> SameKeyRow(xs[i], ys[i])
      {
      }
      if UnstampedRows(xs) == UnstampedRows(ys) {
        forall i | 0 <= i < |xs| ensures SameKeyRow(xs[i], ys[i]) {
          assert UnstampedRows(xs)[i] == UnstampedRows(ys)[i];
        }
      }
      if |xs| == |ys| && forall i :: 0 <= i < |xs| ==> SameKeyRow(xs[i], ys[i]) {
        assert UnstampedRows(xs) == UnstampedRows(ys);
      }
    }
  }

  /** A foreign key: nobody signed in, and the bearer opens a live key of another organisation. */
  lemma ForeignKeyIs(db: Db, r: Request, a: OrgId)
    requires Sound(db)
    ensures BearsForeignKey(db, r, a)
            <==> OnProjects(r.command) && (forall u :: !SignedIn(db, r.bearer, u))
                 && exists k :: Opens(db, r.bearer, k) && db.keys[k].org != a
  {
    NobodySignedIn(db, r.bearer);
    OpeningKeys(db, r.bearer);
    hide Sound, SignedIn, ActiveUser;
    if k :| Opens(db, r.bearer, k) && db.keys[k].org != a && forall u :: !SignedIn(db, r.bearer, u) {
      KeyFound(db, r.bearer, k);
    }
  }

  /** A refused slug: a manager of the organisation asks for one that another organisation has. */
  lemma SlugRefusedIs(env: Env, db: Db, r: Request, a: OrgId)
    ensures SlugRefused(env, db, r, a)
            <==> r.command.UpdateOrganisationCommand? && r.command.slug.Some?
                 && (exists u :: SignedIn(db, r.bearer, u) && Manages(db, a, u))
                 && var slug := Slugs.Normalise(env.casing, r.command.slug.value);
                    slug != db.organisations[a].slug && SlugElsewhere(db, slug, a)
  {
    hide Slugs.Normalise;
    if r.command.UpdateOrganisationCommand? && r.command.slug.Some? && a in db.organisations {
      var slug := Slugs.Normalise(env.casing, r.command.slug.value);
      if slug != db.organisations[a].slug {
        OthersHoldSlugs(db, slug, a);
      }
      hide SlugTaken, SlugElsewhere;
      var user := ActiveUser(db, r.bearer);
      if user.Some? {
        assert SignedIn(db, r.bearer, user.value);
        ManagersExactly(db, a, user.value);
      }
    }
  }

  lemma ManagersExactly(db: Db, a: OrgId, u: UserId)
    ensures TenantAccess(db, u, a, Permission.UpdateOrganisation).Granted? <==> Manages(db, a, u)
  {
    if (a, u) in db.members {
      RolesOfPermission(db.members[(a, u)].role, Permission.UpdateOrganisation);
    }
    hide PermissionsForRole;
  }
}
