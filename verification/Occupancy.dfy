/**
 How full a storage can get, for all containers that probe. The occupancy check, the
 claim of a slot and the increment of the counter are three separate steps, so a storage
 may overshoot its threshold, but by no more than the number of threads.
 */
module Occupancy {
  import opened Counting

  /** A thread past the occupancy check that may still claim, or one that has claimed and not yet counted. */
  datatype Role = NoRole | Claiming(g: nat) | Counting(g: nat)

  /** A storage: its slots, how many of them are taken, and what its counter says. */
  datatype Tally = Tally(size: nat, taken: nat, counted: nat)

  function Half(size: nat): nat {
    if size < 2 then 1 else size / 2
  }

  /**
   The counter lags behind the claims by the threads that have not counted yet; claims
   and threads that may still claim stay below half of the slots plus the number of threads.
   */
  ghost predicate CountsOk(tallies: seq<Tally>, roles: seq<Role>, g: nat)
    requires g < |tallies|
  {
    && tallies[g].taken == tallies[g].counted + |Where(roles, Counting(g))|
    && tallies[g].taken + |Where(roles, Claiming(g))| <= Half(tallies[g].size) - 1 + |roles|
  }

  ghost predicate AllCount(tallies: seq<Tally>, roles: seq<Role>) {
    forall g :: 0 <= g < |tallies| ==> CountsOk(tallies, roles, g)
  }

  /** Roles are about storages that exist, and nobody claims for himself beyond the current one. */
  predicate RolesInRange(cur: nat, tallies: seq<Tally>, roles: seq<Role>) {
    && cur < |tallies|
    && (forall t :: 0 <= t < |roles| ==>
          && (roles[t].Claiming? ==> roles[t].g <= cur)
          && (roles[t].Counting? ==> roles[t].g < |tallies|))
  }

  // ------------------------------------------------------------ what a step counts

  /** The step claims no slot and counts none. */
  predicate CountsNothing(a: seq<Tally>, b: seq<Tally>) {
    && |a| <= |b|
    && (forall g :: 0 <= g < |a| ==> b[g] == a[g])
    && (forall g :: |a| <= g < |b| ==> b[g].taken == b[g].counted == 0)
  }

  /** The step claims a slot of storage `g`. */
  predicate ClaimsOne(a: seq<Tally>, b: seq<Tally>, g: nat) {
    g < |a| && b == a[g := a[g].(taken := a[g].taken + 1)]
  }

  /** The step counts a slot of storage `g`. */
  predicate CountsOne(a: seq<Tally>, b: seq<Tally>, g: nat) {
    g < |a| && b == a[g := a[g].(counted := a[g].counted + 1)]
  }

  /** A claim in the successor of the current storage, which gets no fuller than that. */
  predicate Carries(cur: nat, a: seq<Tally>, b: seq<Tally>) {
    && ClaimsOne(a, b, cur + 1)
    && b[cur + 1].taken <= a[cur].taken && a[cur].size <= a[cur + 1].size
  }

  /** How a step changes the counts, and the role of the thread that makes it. */
  predicate Accounts(cur: nat, a: seq<Tally>, r: Role, b: seq<Tally>, r': Role) {
    || (CountsNothing(a, b) && (r' == r || (r.Claiming? && r' == NoRole)))
    || (CountsNothing(a, b) && r == NoRole && r'.Claiming? && r'.g < |a| && a[r'.g].size % 2 == 0
        && a[r'.g].counted < a[r'.g].size - a[r'.g].size / 2)
    || (r.Claiming? && r' == Counting(r.g) && ClaimsOne(a, b, r.g))
    || (r == NoRole && r' == Counting(cur + 1) && Carries(cur, a, b))
    || (r.Counting? && r' == NoRole && CountsOne(a, b, r.g))
  }

  /** A thread has one role only. */
  lemma RolesDisjoint(roles: seq<Role>, g: nat)
    ensures |Where(roles, Claiming(g))| + |Where(roles, Counting(g))| <= |roles|
  {
    var a, b := Where(roles, Claiming(g)), Where(roles, Counting(g));
    assert a !! b && |a + b| == |a| + |b|;
    SubsetSize(a + b, Below(|roles|));
  }

  lemma NobodyAt(cur: nat, tallies: seq<Tally>, roles: seq<Role>, g: nat)
    requires RolesInRange(cur, tallies, roles)
    ensures g > cur ==> |Where(roles, Claiming(g))| == 0
    ensures g >= |tallies| ==> |Where(roles, Counting(g))| == 0
  {
    assert g > cur ==> Where(roles, Claiming(g)) == {};
    assert g >= |tallies| ==> Where(roles, Counting(g)) == {};
  }

  lemma QuietStep(cur: nat, a: seq<Tally>, roles: seq<Role>, t: nat, b: seq<Tally>, r': Role, g: nat)
    requires AllCount(a, roles) && RolesInRange(cur, a, roles) && t < |roles| && g < |b| && CountsNothing(a, b)
    requires || r' == roles[t] || (roles[t].Claiming? && r' == NoRole)
             || (roles[t] == NoRole && r'.Claiming? && r'.g < |a| && a[r'.g].size % 2 == 0 && a[r'.g].counted < a[r'.g].size - a[r'.g].size / 2)
    ensures CountsOk(b, roles[t := r'], g)
  {
    WhereMoves(roles, t, r', Claiming(g));
    WhereMoves(roles, t, r', Counting(g));
    RolesDisjoint(roles[t := r'], g);
    NobodyAt(cur, a, roles, g);
    assert g < |a| ==> CountsOk(a, roles, g);
  }

  lemma ClaimStep(a: seq<Tally>, roles: seq<Role>, t: nat, b: seq<Tally>, g: nat)
    requires AllCount(a, roles) && t < |roles| && roles[t].Claiming? && ClaimsOne(a, b, roles[t].g) && g < |b|
    ensures CountsOk(b, roles[t := Counting(roles[t].g)], g)
  {
    WhereMoves(roles, t, Counting(roles[t].g), Claiming(g));
    WhereMoves(roles, t, Counting(roles[t].g), Counting(g));
    assert CountsOk(a, roles, g);
  }

  /** The pending storage stays within the bound of the one that it is carried from. */
  lemma CarryStep(cur: nat, a: seq<Tally>, roles: seq<Role>, t: nat, b: seq<Tally>, g: nat)
    requires AllCount(a, roles) && RolesInRange(cur, a, roles) && t < |roles| && roles[t] == NoRole && Carries(cur, a, b) && g < |b|
    ensures CountsOk(b, roles[t := Counting(cur + 1)], g)
  {
    WhereMoves(roles, t, Counting(cur + 1), Claiming(g));
    WhereMoves(roles, t, Counting(cur + 1), Counting(g));
    NobodyAt(cur, a, roles, g);
    assert CountsOk(a, roles, g) && CountsOk(a, roles, cur);
  }

  lemma CountStep(a: seq<Tally>, roles: seq<Role>, t: nat, b: seq<Tally>, g: nat)
    requires AllCount(a, roles) && t < |roles| && roles[t].Counting? && CountsOne(a, b, roles[t].g) && g < |b|
    ensures CountsOk(b, roles[t := NoRole], g)
  {
    WhereMoves(roles, t, NoRole, Claiming(g));
    WhereMoves(roles, t, NoRole, Counting(g));
    assert CountsOk(a, roles, g);
  }

  /** One step keeps the counts of all storages. */
  lemma StepCounts(cur: nat, a: seq<Tally>, roles: seq<Role>, t: nat, b: seq<Tally>, r': Role)
    requires AllCount(a, roles) && RolesInRange(cur, a, roles) && t < |roles| && Accounts(cur, a, roles[t], b, r')
    ensures AllCount(b, roles[t := r'])
  {
    var roles' := roles[t := r'];
    forall g | 0 <= g < |b| ensures CountsOk(b, roles', g) {
      if roles[t].Counting? && r' == NoRole {
        CountStep(a, roles, t, b, g);
      } else if roles[t].Claiming? && r'.Counting? {
        ClaimStep(a, roles, t, b, g);
      } else if roles[t] == NoRole && r'.Counting? {
        CarryStep(cur, a, roles, t, b, g);
      } else {
        QuietStep(cur, a, roles, t, b, r', g);
      }
    }
  }
}
