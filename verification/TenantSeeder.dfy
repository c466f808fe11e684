/**
 Seeding a tenant schema with its default permissions, roles and grants. Every
 insert skips rows whose slug (or role-permission pair) is already there; a
 permission whose resource and action are taken under another slug is refused
 by the table's unique index, and the seeding stops there.
 */
module TenantSeeder {
  datatype PermissionSeed = PermissionSeed(slug: string, resource: string, action: string, description: string)

  datatype Slugs = All | Only(slugs: seq<string>)

  datatype RoleSeed = RoleSeed(slug: string, name: string, description: string, permissionSlugs: Slugs)

  type Permissions = map<string, PermissionSeed>
  type Roles = map<string, RoleSeed>

  // ---------------------------------------------------------------------------
  // What the seeds declare
  // ---------------------------------------------------------------------------

  function SlugSet(perms: seq<PermissionSeed>): set<string> {
    set p | p in perms :: p.slug
  }

  function RoleSlugs(roles: seq<RoleSeed>): set<string> {
    set r | r in roles :: r.slug
  }

  /** A core role's slugs: `*` stands for every permission of the seeds. */
  function CoreSlugs(r: RoleSeed, perms: seq<PermissionSeed>): seq<string> {
    if r.permissionSlugs.All? then seq(|perms|, i requires 0 <= i < |perms| => perms[i].slug)
    else r.permissionSlugs.slugs
  }

  /** A vertical role's slugs are iterated as they stand, so `*` is the one slug "*". */
  function VerticalSlugs(r: RoleSeed): seq<string> {
    if r.permissionSlugs.All? then ["*"] else r.permissionSlugs.slugs
  }

  ghost predicate Declared(core: seq<RoleSeed>, vertical: seq<RoleSeed>, perms: seq<PermissionSeed>, role: string,
                           perm: string) {
    || (exists r :: r in core && r.slug == role && perm in CoreSlugs(r, perms))
    || (exists r :: r in vertical && r.slug == role && perm in VerticalSlugs(r))
  }

  predicate IsFirst(perms: seq<PermissionSeed>, i: nat)
    requires i < |perms|
  {
    forall k :: 0 <= k < i ==> perms[k].slug != perms[i].slug
  }

  predicate SameTarget(p: PermissionSeed, q: PermissionSeed) {
    p.resource == q.resource && p.action == q.action
  }

  /** Among the first `n` seeds, no two that would be inserted claim the same resource and action. */
  predicate NoClashUpTo(perms: seq<PermissionSeed>, n: nat)
    requires n <= |perms|
  {
    forall i, j :: 0 <= i < j < n && IsFirst(perms, i) && IsFirst(perms, j) ==> !SameTarget(perms[i], perms[j])
  }

  predicate NoClash(perms: seq<PermissionSeed>) {
    NoClashUpTo(perms, |perms|)
  }

  /** The table holds exactly the first seed of each slug among the first `n` seeds. */
  ghost predicate HoldsUpTo(table: Permissions, perms: seq<PermissionSeed>, n: nat)
    requires n <= |perms|
  {
    && (forall k :: 0 <= k < n ==> perms[k].slug in table)
    && (forall s :: s in table ==>
          exists k :: 0 <= k < n && IsFirst(perms, k) && perms[k].slug == s && table[s] == perms[k])
  }

  ghost predicate HoldsFirsts(table: Permissions, perms: seq<PermissionSeed>) {
    HoldsUpTo(table, perms, |perms|)
  }

  predicate Fits(table: Permissions, p: PermissionSeed) {
    p.slug in table || forall s :: s in table ==> !SameTarget(table[s], p)
  }

  function WithPermission(table: Permissions, p: PermissionSeed): Permissions {
    if p.slug in table then table else table[p.slug := p]
  }

  class TenantSchema {
    var permissions: Permissions
    var roles: Roles
    var grants: set<(string, string)>

    constructor ()
      ensures permissions == map[] && roles == map[] && grants == {}
    {
      permissions, roles, grants := map[], map[], {};
    }

    /** `ON CONFLICT (slug) DO NOTHING`; any other unique violation is an error. */
    method InsertPermission(p: PermissionSeed) returns (ok: bool)
      modifies this`permissions
      ensures ok <==>
                || p.slug in old(permissions)
                || forall q :: q in old(permissions).Values ==> q.resource != p.resource || q.action != p.action
      ensures permissions ==
                if p.slug in old(permissions) || !ok then old(permissions) else old(permissions)[p.slug := p]
    {
      if p.slug in permissions {
        return true;
      }
      ok := forall s | s in permissions :: permissions[s].resource != p.resource || permissions[s].action != p.action;
      if ok {
        permissions := permissions[p.slug := p];
      }
    }

    method InsertRole(r: RoleSeed)
      modifies this`roles
      ensures roles == if r.slug in old(roles) then old(roles) else old(roles)[r.slug := r]
    {
      if r.slug !in roles {
        roles := roles[r.slug := r];
      }
    }

    /** Inserts the pairs the role and permission slugs select: one, or none if either row is missing. */
    method InsertGrant(role: string, perm: string)
      modifies this`grants
      ensures grants == old(grants) + if role in roles && perm in permissions then {(role, perm)} else {}
    {
      if role in roles && perm in permissions {
        grants := grants + {(role, perm)};
      }
    }

    /** On an empty table the loop goes through if and only if the seeds do not clash. */
    method SeedPermissions(perms: seq<PermissionSeed>) returns (ok: bool)
      modifies this`permissions
      ensures old(permissions) == map[] ==> (ok <==> NoClash(perms))
      ensures old(permissions) == map[] && ok ==> HoldsFirsts(permissions, perms)
      ensures SlugSet(perms) <= old(permissions).Keys ==> ok && permissions == old(permissions)
    {
      ghost var empty := permissions == map[];
      for i := 0 to |perms|
        invariant empty ==> HoldsUpTo(permissions, perms, i) && NoClashUpTo(perms, i)
        invariant SlugSet(perms) <= old(permissions).Keys ==> permissions == old(permissions)
      {
        if empty { FirstsStep(permissions, perms, i); }
        assert perms[i].slug in SlugSet(perms);
        ok := InsertPermission(perms[i]);
        if !ok {
          return;
        }
      }
      ok := true;
    }

    method SeedRoles(seeds: seq<RoleSeed>)
      modifies this`roles
      ensures roles.Keys == old(roles).Keys + RoleSlugs(seeds)
      ensures forall s :: s in old(roles) ==> roles[s] == old(roles)[s]
      ensures FirstRolesAdded(old(roles), roles, seeds, |seeds|)
    {
      for i := 0 to |seeds|
        invariant roles.Keys == old(roles).Keys + RoleSlugs(seeds[..i])
        invariant forall s :: s in old(roles) ==> roles[s] == old(roles)[s]
        invariant FirstRolesAdded(old(roles), roles, seeds, i)
      {
        RolesStep(old(roles), roles, seeds, i);
        InsertRole(seeds[i]);
      }
      assert seeds[..|seeds|] == seeds;
    }

    method GrantRole(role: string, slugs: seq<string>)
      modifies this`grants
      ensures forall g: (string, string) :: g in grants <==>
                g in old(grants) || (g.0 == role && role in roles && g.1 in slugs && g.1 in permissions)
    {
      for i := 0 to |slugs|
        invariant forall g: (string, string) :: g in grants <==>
                    g in old(grants) || (g.0 == role && role in roles && g.1 in slugs[..i] && g.1 in permissions)
      {
        assert slugs[..i + 1] == slugs[..i] + [slugs[i]];
        InsertGrant(role, slugs[i]);
      }
      assert slugs[..|slugs|] == slugs;
    }

    method SeedGrants(allPerms: seq<PermissionSeed>, core: seq<RoleSeed>, vertical: seq<RoleSeed>)
      modifies this`grants
      ensures forall g: (string, string) :: g in grants <==>
                g in old(grants) || (g.0 in roles && g.1 in permissions && Declared(core, vertical, allPerms, g.0, g.1))
    {
      for i := 0 to |core|
        invariant forall g: (string, string) :: g in grants <==>
                    || g in old(grants)
                    || (g.0 in roles && g.1 in permissions && Declared(core[..i], [], allPerms, g.0, g.1))
      {
        DeclaredOneMore(core, [], allPerms, i);
        GrantRole(core[i].slug, CoreSlugs(core[i], allPerms));
      }
      assert core[..|core|] == core;
      for i := 0 to |vertical|
        invariant forall g: (string, string) :: g in grants <==>
                    || g in old(grants)
                    || (g.0 in roles && g.1 in permissions && Declared(core, vertical[..i], allPerms, g.0, g.1))
      {
        VerticalOneMore(core, vertical, allPerms, i);
        GrantRole(vertical[i].slug, VerticalSlugs(vertical[i]));
      }
      assert vertical[..|vertical|] == vertical;
    }

    /**
     Seeds permissions, roles and grants. On an empty schema the grants are exactly the declared pairs whose
     permission is seeded; on a schema that already has them all, nothing changes.
     */
    method SeedTenantDefaults(corePerms: seq<PermissionSeed>, verticalPerms: seq<PermissionSeed>, core: seq<RoleSeed>,
                              vertical: seq<RoleSeed>)
      returns (ok: bool)
      modifies this
      ensures old(permissions) == map[] ==> (ok <==> NoClash(corePerms + verticalPerms))
      ensures old(permissions) == map[] && ok ==> HoldsFirsts(permissions, corePerms + verticalPerms)
      ensures ok ==> FirstRolesAdded(old(roles), roles, core + vertical, |core + vertical|)
      ensures old(permissions) == map[] && old(roles) == map[] && old(grants) == {} && ok ==>
                && roles.Keys == RoleSlugs(core + vertical)
                && GrantsSeeded(grants, core, vertical, corePerms + verticalPerms)
                && FullHoldersAsDeclared(grants, core, vertical, corePerms + verticalPerms)
      ensures Seeded(old(permissions), old(roles), old(grants), corePerms + verticalPerms, core, vertical) ==>
                ok && permissions == old(permissions) && roles == old(roles) && grants == old(grants)
      ensures ok && old(permissions) == map[] && old(roles) == map[] && old(grants) == {} ==>
                Seeded(permissions, roles, grants, corePerms + verticalPerms, core, vertical)
    {
      var allPerms := corePerms + verticalPerms;
      ok := SeedPermissions(allPerms);
      if !ok {
        return;
      }
      SeedRoles(core + vertical);
      SeedGrants(allPerms, core, vertical);
      if old(permissions) == map[] && old(roles) == map[] && old(grants) == {} {
        EmptySchemaIsSeeded(permissions, roles, grants, allPerms, core, vertical);
      }
      if Seeded(old(permissions), old(roles), old(grants), allPerms, core, vertical) {
        SeededStays(old(permissions), old(roles), roles, old(grants), grants, allPerms, core, vertical);
      }
    }
  }

  /** Of the first `n` seeds, the first of each slug that was not taken has its row, as it is. */
  ghost predicate FirstRolesAdded(was: Roles, now: Roles, seeds: seq<RoleSeed>, n: nat)
    requires n <= |seeds|
  {
    forall i :: 0 <= i < n && seeds[i].slug !in was && seeds[i].slug !in RoleSlugs(seeds[..i]) ==>
      seeds[i].slug in now && now[seeds[i].slug] == seeds[i]
  }

  lemma RolesStep(was: Roles, now: Roles, seeds: seq<RoleSeed>, i: nat)
    requires i < |seeds| && now.Keys == was.Keys + RoleSlugs(seeds[..i]) && FirstRolesAdded(was, now, seeds, i)
    ensures RoleSlugs(seeds[..i + 1]) == RoleSlugs(seeds[..i]) + {seeds[i].slug}
    ensures FirstRolesAdded(was, if seeds[i].slug in now then now else now[seeds[i].slug := seeds[i]], seeds, i + 1)
  {
    assert seeds[..i + 1] == seeds[..i] + [seeds[i]];
    forall k | 0 <= k < i
      ensures seeds[k].slug in RoleSlugs(seeds[..i])
    {
      assert seeds[k] in seeds[..i];
    }
  }

  /** Everything the seeds declare is already there. */
  ghost predicate Seeded(permissions: Permissions, roles: Roles, grants: set<(string, string)>,
                         perms: seq<PermissionSeed>, core: seq<RoleSeed>, vertical: seq<RoleSeed>) {
    && SlugSet(perms) <= permissions.Keys
    && RoleSlugs(core + vertical) <= roles.Keys
    && forall role, perm :: Declared(core, vertical, perms, role, perm) && perm in permissions ==>
        (role, perm) in grants
  }

  lemma DeclaredRolesAreSeeded(core: seq<RoleSeed>, vertical: seq<RoleSeed>, perms: seq<PermissionSeed>)
    ensures forall role, perm :: Declared(core, vertical, perms, role, perm) ==> role in RoleSlugs(core + vertical)
  {
  }

  lemma EmptySchemaIsSeeded(permissions: Permissions, roles: Roles, grants: set<(string, string)>,
                            perms: seq<PermissionSeed>, core: seq<RoleSeed>, vertical: seq<RoleSeed>)
    requires HoldsFirsts(permissions, perms) && roles.Keys == RoleSlugs(core + vertical)
    requires forall g: (string, string) :: g in grants <==>
               g.0 in roles && g.1 in permissions && Declared(core, vertical, perms, g.0, g.1)
    ensures GrantsSeeded(grants, core, vertical, perms)
    ensures FullHoldersAsDeclared(grants, core, vertical, perms)
    ensures Seeded(permissions, roles, grants, perms, core, vertical)
  {
    FirstsCoverSlugs(permissions, perms);
    DeclaredRolesAreSeeded(core, vertical, perms);
    FullHoldersFollow(grants, core, vertical, perms);
  }

  lemma SeededStays(permissions: Permissions, roles: Roles, roles': Roles, grants: set<(string, string)>,
                    grants': set<(string, string)>, perms: seq<PermissionSeed>, core: seq<RoleSeed>,
                    vertical: seq<RoleSeed>)
    requires Seeded(permissions, roles, grants, perms, core, vertical)
    requires roles'.Keys == roles.Keys + RoleSlugs(core + vertical) && forall s :: s in roles ==> roles'[s] == roles[s]
    requires forall g: (string, string) :: g in grants' <==>
               g in grants || (g.0 in roles' && g.1 in permissions && Declared(core, vertical, perms, g.0, g.1))
    ensures roles' == roles && grants' == grants
  {
    assert roles'.Keys == roles.Keys;
  }

  lemma DeclaredOneMore(core: seq<RoleSeed>, vertical: seq<RoleSeed>, perms: seq<PermissionSeed>, i: nat)
    requires i < |core|
    ensures forall role, perm :: Declared(core[..i + 1], vertical, perms, role, perm) <==>
              Declared(core[..i], vertical, perms, role, perm)
                  || (core[i].slug == role && perm in CoreSlugs(core[i], perms))
  {
    assert core[..i + 1] == core[..i] + [core[i]];
    forall role, perm | Declared(core[..i], vertical, perms, role, perm)
        || (core[i].slug == role && perm in CoreSlugs(core[i], perms))
      ensures Declared(core[..i + 1], vertical, perms, role, perm)
    {
      if r :| r in core[..i] && r.slug == role && perm in CoreSlugs(r, perms) {
        assert r in core[..i + 1];
      } else if core[i].slug == role && perm in CoreSlugs(core[i], perms) {
        assert core[i] in core[..i + 1];
      }
    }
  }

  lemma VerticalOneMore(core: seq<RoleSeed>, vertical: seq<RoleSeed>, perms: seq<PermissionSeed>, i: nat)
    requires i < |vertical|
    ensures forall role, perm :: Declared(core, vertical[..i + 1], perms, role, perm) <==>
              Declared(core, vertical[..i], perms, role, perm)
                  || (vertical[i].slug == role && perm in VerticalSlugs(vertical[i]))
  {
    assert vertical[..i + 1] == vertical[..i] + [vertical[i]];
    forall role, perm | Declared(core, vertical[..i], perms, role, perm)
        || (vertical[i].slug == role && perm in VerticalSlugs(vertical[i]))
      ensures Declared(core, vertical[..i + 1], perms, role, perm)
    {
      if r :| r in vertical[..i] && r.slug == role && perm in VerticalSlugs(r) {
        assert r in vertical[..i + 1];
      } else if vertical[i].slug == role && perm in VerticalSlugs(vertical[i]) {
        assert vertical[i] in vertical[..i + 1];
      }
    }
  }

  lemma TakenSlugStep(table: Permissions, perms: seq<PermissionSeed>, i: nat)
    requires i < |perms| && HoldsUpTo(table, perms, i) && NoClashUpTo(perms, i) && perms[i].slug in table
    ensures NoClashUpTo(perms, i + 1) && HoldsUpTo(table, perms, i + 1)
  {
    var k :| 0 <= k < i && IsFirst(perms, k) && perms[k].slug == perms[i].slug;
    assert !IsFirst(perms, i);
  }

  lemma FreeSlugStep(table: Permissions, perms: seq<PermissionSeed>, i: nat)
    requires i < |perms| && HoldsUpTo(table, perms, i) && perms[i].slug !in table
    ensures IsFirst(perms, i)
    ensures NoClashUpTo(perms, i) && Fits(table, perms[i]) ==>
              NoClashUpTo(perms, i + 1) && HoldsUpTo(table[perms[i].slug := perms[i]], perms, i + 1)
    ensures !Fits(table, perms[i]) ==> !NoClash(perms)
  {
    var p := perms[i];
    if Fits(table, p) {
      forall k | 0 <= k < i && IsFirst(perms, k)
        ensures !SameTarget(perms[k], p)
      {
        var f :| 0 <= f < i && IsFirst(perms, f) && perms[f].slug == perms[k].slug && table[perms[k].slug] == perms[f];
        assert f == k;
      }
      var table' := table[p.slug := p];
      forall s | s in table'
        ensures exists k :: 0 <= k < i + 1 && IsFirst(perms, k) && perms[k].slug == s && table'[s] == perms[k]
      {
        if s != p.slug {
          var k :| 0 <= k < i && IsFirst(perms, k) && perms[k].slug == s && table[s] == perms[k];
        }
      }
    } else {
      var s :| s in table && SameTarget(table[s], p);
      var k :| 0 <= k < i && IsFirst(perms, k) && perms[k].slug == s && table[s] == perms[k];
    }
  }

  lemma FirstsStep(table: Permissions, perms: seq<PermissionSeed>, i: nat)
    requires i < |perms| && HoldsUpTo(table, perms, i) && NoClashUpTo(perms, i)
    ensures Fits(table, perms[i]) ==>
        NoClashUpTo(perms, i + 1) && HoldsUpTo(WithPermission(table, perms[i]), perms, i + 1)
    ensures !Fits(table, perms[i]) ==> !NoClash(perms)
  {
    if perms[i].slug in table { TakenSlugStep(table, perms, i); } else { FreeSlugStep(table, perms, i); }
  }

  lemma FirstsCoverSlugs(table: Permissions, perms: seq<PermissionSeed>)
    requires HoldsFirsts(table, perms)
    ensures table.Keys == SlugSet(perms)
  {
  }

  // ---------------------------------------------------------------------------
  // Who holds every permission after seeding
  // ---------------------------------------------------------------------------

  /** What seeding an empty schema leaves: the declared pairs, restricted to seeded permissions. */
  ghost predicate GrantsSeeded(grants: set<(string, string)>, core: seq<RoleSeed>, vertical: seq<RoleSeed>,
                               perms: seq<PermissionSeed>) {
    forall role, perm :: (role, perm) in grants <==>
        Declared(core, vertical, perms, role, perm) && perm in SlugSet(perms)
  }

  predicate HoldsEverySeeded(grants: set<(string, string)>, perms: seq<PermissionSeed>, role: string) {
    forall perm :: perm in SlugSet(perms) ==> (role, perm) in grants
  }

  predicate StarOnCore(core: seq<RoleSeed>, role: string) {
    exists r :: r in core && r.slug == role && r.permissionSlugs.All?
  }

  /** The permission is on an explicit list of the role; a vertical role's `*` is the list of the one slug "*". */
  predicate Listed(core: seq<RoleSeed>, vertical: seq<RoleSeed>, role: string, perm: string) {
    || (exists r :: r in core && r.slug == role && r.permissionSlugs.Only? && perm in r.permissionSlugs.slugs)
    || (exists r :: r in vertical && r.slug == role && r.permissionSlugs.Only? && perm in r.permissionSlugs.slugs)
    || (perm == "*" && exists r :: r in vertical && r.slug == role && r.permissionSlugs.All?)
  }

  /**
   The roles that hold every seeded permission: those a core role declares `*`, and those whose lists name them all.
   */
  ghost predicate FullHoldersAsDeclared(grants: set<(string, string)>, core: seq<RoleSeed>, vertical: seq<RoleSeed>,
                                        perms: seq<PermissionSeed>) {
    forall role :: HoldsEverySeeded(grants, perms, role) <==>
      StarOnCore(core, role) || forall perm :: perm in SlugSet(perms) ==> Listed(core, vertical, role, perm)
  }

  lemma FullHoldersFollow(grants: set<(string, string)>, core: seq<RoleSeed>, vertical: seq<RoleSeed>,
                          perms: seq<PermissionSeed>)
    requires GrantsSeeded(grants, core, vertical, perms)
    ensures FullHoldersAsDeclared(grants, core, vertical, perms)
  {
    forall role
      ensures HoldsEverySeeded(grants, perms, role) <==>
                StarOnCore(core, role) || forall perm :: perm in SlugSet(perms) ==> Listed(core, vertical, role, perm)
    {
      HoldsEverySeededIff(grants, core, vertical, perms, role);
    }
  }

  lemma DeclaredIff(core: seq<RoleSeed>, vertical: seq<RoleSeed>, perms: seq<PermissionSeed>, role: string,
                    perm: string)
    requires perm in SlugSet(perms)
    ensures Declared(core, vertical, perms, role, perm) <==>
        StarOnCore(core, role) || Listed(core, vertical, role, perm)
  {
    if r :| r in core && r.slug == role && r.permissionSlugs.All? {
      var i :| 0 <= i < |perms| && perms[i].slug == perm;
      assert CoreSlugs(r, perms)[i] == perm;
    } else if r :| r in core && r.slug == role && r.permissionSlugs.Only? && perm in r.permissionSlugs.slugs {
      assert perm in CoreSlugs(r, perms);
    }
  }

  /**
   After seeding an empty schema a role holds every seeded permission if and only if a core role of its slug is
   declared `*`, or the role's lists name every one of them. A `*` on a vertical role does not count as the former.
   */
  lemma HoldsEverySeededIff(grants: set<(string, string)>, core: seq<RoleSeed>, vertical: seq<RoleSeed>,
                            perms: seq<PermissionSeed>, role: string)
    requires GrantsSeeded(grants, core, vertical, perms)
    ensures HoldsEverySeeded(grants, perms, role) <==>
              StarOnCore(core, role) || forall perm :: perm in SlugSet(perms) ==> Listed(core, vertical, role, perm)
  {
    forall perm | perm in SlugSet(perms)
      ensures (role, perm) in grants <==> StarOnCore(core, role) || Listed(core, vertical, role, perm)
    {
      DeclaredIff(core, vertical, perms, role, perm);
    }
  }

  /** A role that only the vertical declares, as `*`, ends up with at most the one permission whose slug is "*". */
  lemma StarOnVerticalRoleGrantsNothing(grants: set<(string, string)>, core: seq<RoleSeed>, vertical: seq<RoleSeed>,
                                        perms: seq<PermissionSeed>, role: RoleSeed)
    requires GrantsSeeded(grants, core, vertical, perms)
    requires role in vertical && forall r :: r in core ==> r.slug != role.slug
    requires forall r :: r in vertical && r.slug == role.slug ==> r.permissionSlugs.All?
    ensures forall perm :: (role.slug, perm) in grants <==> perm == "*" && "*" in SlugSet(perms)
    ensures HoldsEverySeeded(grants, perms, role.slug) <==> SlugSet(perms) <= {"*"}
  {
    assert role in vertical && role.slug == role.slug && "*" in VerticalSlugs(role);
    forall perm | perm in SlugSet(perms)
      ensures (role.slug, perm) in grants <==> perm == "*"
    {
      DeclaredIff(core, vertical, perms, role.slug, perm);
    }
  }
}
