/** Inherited permissions over parent links that may form cycles (platform/roles/models.py), and the
    effective codes of a user (platform/roles/services.py). */
module Roles {
  import opened Wrappers

  datatype Role = Role(parent: Option<nat>, permissions: set<string>, live: bool)

  /** An assignment row; a revoked one is only marked, not removed. */
  datatype Assignment = Assignment(user: nat, role: nat, live: bool)

  /** The foreign keys point to rows that exist. Nothing excludes cycles. */
  ghost predicate Closed(roles: map<nat, Role>) {
    forall id :: id in roles && roles[id].parent.Some? ==> roles[id].parent.value in roles
  }

  /* ---- reachability, independent of any traversal ---- */

  /** The role k parent links above. */
  function Ancestor(roles: map<nat, Role>, id: nat, k: nat): Option<nat>
    decreases k
  {
    if k == 0 then Some(id)
    else if id in roles && roles[id].parent.Some? then Ancestor(roles, roles[id].parent.value, k - 1)
    else None
  }

  ghost predicate Reaches(roles: map<nat, Role>, id: nat, r: nat) {
    exists k: nat :: Ancestor(roles, id, k) == Some(r)
  }

  /* ---- the traversal ---- */

  /** The roles newly seen by a traversal from this role. */
  function Visited(roles: map<nat, Role>, id: nat, seen: set<nat>): set<nat>
    decreases roles.Keys - seen
  {
    if id in seen || id !in roles then {}
    else
      {id} + (if roles[id].parent.Some? then Visited(roles, roles[id].parent.value, seen + {id}) else {})
  }

  function CodesOf(roles: map<nat, Role>, ids: set<nat>): set<string> {
    set id, code | id in ids && id in roles && code in roles[id].permissions :: code
  }

  lemma {:induction false} AncestorsCompose(roles: map<nat, Role>, id: nat, j: nat, k: nat)
    requires Ancestor(roles, id, j).Some?
    ensures Ancestor(roles, id, j + k) == Ancestor(roles, Ancestor(roles, id, j).value, k)
    decreases j
  {
    if j > 0 {
      AncestorsCompose(roles, roles[id].parent.value, j - 1, k);
    }
  }

  /** The chain of the first k parent links stays outside a set. */
  ghost predicate Avoids(roles: map<nat, Role>, id: nat, k: nat, seen: set<nat>) {
    forall j: nat :: j <= k && Ancestor(roles, id, j).Some? ==> Ancestor(roles, id, j).value !in seen
  }

  lemma {:induction false} VisitedReached(roles: map<nat, Role>, id: nat, seen: set<nat>, r: nat)
    requires r in Visited(roles, id, seen)
    ensures r in roles && r !in seen && Reaches(roles, id, r)
    decreases roles.Keys - seen
  {
    if r == id {
      assert Ancestor(roles, id, 0) == Some(r);
    } else {
      var parent := roles[id].parent.value;
      VisitedReached(roles, parent, seen + {id}, r);
      var k: nat :| Ancestor(roles, parent, k) == Some(r);
      assert Ancestor(roles, id, k + 1) == Some(r);
    }
  }

  /** A role reached by a chain outside the seen set is visited. If the chain comes back to its start,
      the part before that is skipped. */
  lemma {:induction false} ReachedVisited(roles: map<nat, Role>, id: nat, k: nat, seen: set<nat>)
    requires Closed(roles) && id in roles && Ancestor(roles, id, k).Some? && Avoids(roles, id, k, seen)
    ensures Ancestor(roles, id, k).value in Visited(roles, id, seen)
    decreases k
  {
    assert Ancestor(roles, id, 0) == Some(id);
    if k > 0 {
      var parent := roles[id].parent.value;
      if j: nat :| 1 <= j <= k && Ancestor(roles, id, j) == Some(id) {
        AncestorsCompose(roles, id, j, k - j);
        ReachedVisited(roles, id, k - j, seen);
      } else {
        forall j: nat | j <= k - 1 && Ancestor(roles, parent, j).Some?
          ensures Ancestor(roles, parent, j).value !in seen + {id}
        {
          assert Ancestor(roles, id, j + 1) == Ancestor(roles, parent, j);
        }
        ReachedVisited(roles, parent, k - 1, seen + {id});
      }
    }
  }

  /** On every parent graph, cycles included, a traversal that has seen nothing visits exactly the roles
      reachable by parent links. */
  lemma VisitedIffReached(roles: map<nat, Role>, id: nat, r: nat)
    requires Closed(roles) && id in roles
    ensures r in Visited(roles, id, {}) <==> Reaches(roles, id, r)
  {
    if r in Visited(roles, id, {}) {
      VisitedReached(roles, id, {}, r);
    }
    if Reaches(roles, id, r) {
      var k: nat :| Ancestor(roles, id, k) == Some(r);
      ReachedVisited(roles, id, k, {});
    }
  }

  /** The set that all levels of one traversal share. */
  class Seen {
    var ids: set<nat>

    constructor ()
      ensures ids == {}
    {
      ids := {};
    }
  }

  /** One level of the traversal, adding to the set its caller handed down. */
  method Inherit(roles: map<nat, Role>, id: nat, seen: Seen) returns (codes: set<string>)
    requires Closed(roles) && id in roles
    modifies seen
    ensures seen.ids == old(seen.ids) + Visited(roles, id, old(seen.ids))
    ensures codes == CodesOf(roles, Visited(roles, id, old(seen.ids)))
    decreases roles.Keys - seen.ids
  {
    if id in seen.ids {
      return {};
    }
    seen.ids := seen.ids + {id};
    codes := roles[id].permissions;
    if roles[id].parent.Some? {
      var inherited := Inherit(roles, roles[id].parent.value, seen);
      codes := codes + inherited;
    }
  }

  /** A role's codes are the permissions of exactly the roles reachable by parent links. */
  method PermissionCodes(roles: map<nat, Role>, id: nat) returns (codes: set<string>)
    requires Closed(roles) && id in roles
    ensures forall code :: code in codes <==> Grants(roles, id, code)
  {
    var seen := new Seen();
    codes := Inherit(roles, id, seen);
    forall code
      ensures code in codes <==> Grants(roles, id, code)
    {
      CodesAreGranted(roles, id, code);
    }
  }

  ghost predicate Grants(roles: map<nat, Role>, id: nat, code: string) {
    exists r :: r in roles && Reaches(roles, id, r) && code in roles[r].permissions
  }

  lemma CodesAreGranted(roles: map<nat, Role>, id: nat, code: string)
    requires Closed(roles) && id in roles
    ensures code in CodesOf(roles, Visited(roles, id, {})) <==> Grants(roles, id, code)
  {
    if code in CodesOf(roles, Visited(roles, id, {})) {
      var r :| r in Visited(roles, id, {}) && r in roles && code in roles[r].permissions;
      VisitedIffReached(roles, id, r);
    }
    if Grants(roles, id, code) {
      var r :| r in roles && Reaches(roles, id, r) && code in roles[r].permissions;
      VisitedIffReached(roles, id, r);
    }
  }

  /** Some assignment row names the user and this live role. The join reads every assignment row, the
      revoked ones too. */
  ghost predicate Assigned(roles: map<nat, Role>, rows: seq<Assignment>, user: nat, id: nat) {
    id in roles && roles[id].live && exists i :: 0 <= i < |rows| && rows[i].user == user && rows[i].role == id
  }

  /** The distinct live roles joined with the user's assignment rows. */
  method AssignedRoles(roles: map<nat, Role>, rows: seq<Assignment>, user: nat) returns (ids: seq<nat>)
    ensures forall id :: id in ids <==> Assigned(roles, rows, user, id)
    ensures forall i, j :: 0 <= i < j < |ids| ==> ids[i] != ids[j]
  {
    ids := [];
    for n := 0 to |rows|
      invariant forall id :: id in ids <==> Assigned(roles, rows[..n], user, id)
      invariant forall i, j :: 0 <= i < j < |ids| ==> ids[i] != ids[j]
    {
      AssignedGrows(roles, rows, user, n);
      var row := rows[n];
      if row.user == user && row.role in roles && roles[row.role].live && row.role !in ids {
        ids := ids + [row.role];
      }
    }
    assert rows[..|rows|] == rows;
  }

  lemma AssignedGrows(roles: map<nat, Role>, rows: seq<Assignment>, user: nat, n: nat)
    requires n < |rows|
    ensures forall id :: Assigned(roles, rows[..n + 1], user, id) <==>
              Assigned(roles, rows[..n], user, id) ||
              (rows[n].user == user && rows[n].role == id && id in roles && roles[id].live)
  {
    var few, more := rows[..n], rows[..n + 1];
    forall id
      ensures Assigned(roles, more, user, id) <==>
                Assigned(roles, few, user, id) ||
                (rows[n].user == user && rows[n].role == id && id in roles && roles[id].live)
    {
      assert more[n] == rows[n];
      assert forall i :: 0 <= i < n ==> more[i] == few[i];
    }
  }

  /** A user's effective codes are the union, over the assigned roles, of what each grants. */
  method EffectivePermissionCodes(roles: map<nat, Role>, rows: seq<Assignment>, user: nat)
    returns (codes: set<string>)
    requires Closed(roles)
    ensures forall code :: code in codes <==> Effective(roles, rows, user, code)
  {
    var ids := AssignedRoles(roles, rows, user);
    codes := {};
    for n := 0 to |ids|
      invariant forall code :: code in codes <==> exists i :: 0 <= i < n && Grants(roles, ids[i], code)
    {
      assert ids[n] in ids;
      var more := PermissionCodes(roles, ids[n]);
      codes := codes + more;
    }
    forall code
      ensures code in codes <==> Effective(roles, rows, user, code)
    {
      if code in codes {
        var i :| 0 <= i < |ids| && Grants(roles, ids[i], code);
        assert ids[i] in ids;
      }
      if Effective(roles, rows, user, code) {
        var id :| Assigned(roles, rows, user, id) && Grants(roles, id, code);
        assert id in ids;
      }
    }
  }

  ghost predicate Effective(roles: map<nat, Role>, rows: seq<Assignment>, user: nat, code: string) {
    exists id :: Assigned(roles, rows, user, id) && Grants(roles, id, code)
  }

  /** What revoke_role does to the table: the live rows of this user and role are marked. */
  function Revoked(rows: seq<Assignment>, user: nat, role: nat): (r: seq<Assignment>)
    ensures |r| == |rows|
    ensures forall i :: 0 <= i < |rows| ==>
              r[i] == if rows[i].user == user && rows[i].role == role then rows[i].(live := false) else rows[i]
  {
    seq(|rows|, i requires 0 <= i < |rows| =>
      if rows[i].user == user && rows[i].role == role then rows[i].(live := false) else rows[i])
  }

  /** Because the join reads marked rows too, a revocation leaves every user's effective codes as they
      were. */
  lemma RevocationKeepsCodes(roles: map<nat, Role>, rows: seq<Assignment>, user: nat, role: nat, who: nat, code: string)
    ensures Effective(roles, Revoked(rows, user, role), who, code) <==> Effective(roles, rows, who, code)
  {
    var after := Revoked(rows, user, role);
    forall id
      ensures Assigned(roles, after, who, id) <==> Assigned(roles, rows, who, id)
    {
      if Assigned(roles, rows, who, id) {
        var i :| 0 <= i < |rows| && rows[i].user == who && rows[i].role == id;
        assert after[i].user == who && after[i].role == id;
      }
    }
  }
}
