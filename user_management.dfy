/**
 * The overseer's user list: profile rows and role rows folded into one entry per user id,
 * in first-appearance order, with each entry's role list and its three role flags; and the
 * pure display rules of each entry (badges, name lines, add/remove role options).
 */
module UserManagement {
  import opened Optional
  import opened Backend
  import JsString

  /** A `profiles` row as the list selects it. */
  datatype ProfileRow = ProfileRow(user_id: string, display_name: Option<string>, full_name: Option<string>)

  /** A `user_roles` row. */
  datatype RoleRow = RoleRow(user_id: string, role: AppRole)

  /** One entry of the list. */
  datatype UserWithRole = UserWithRole(
    user_id: string,
    display_name: Option<string>,
    full_name: Option<string>,
    email: string,
    roles: seq<AppRole>,
    isOverseer: bool,
    isAdmin: bool,
    isEditor: bool)

  // ---------------------------------------------------------------------------------------
  // Specification of the merge
  // ---------------------------------------------------------------------------------------

  function ProfileIds(profiles: seq<ProfileRow>): seq<string> {
    seq(|profiles|, i requires 0 <= i < |profiles| => profiles[i].user_id)
  }

  function RoleIds(roles: seq<RoleRow>): seq<string> {
    seq(|roles|, i requires 0 <= i < |roles| => roles[i].user_id)
  }

  predicate Distinct(xs: seq<string>) {
    forall i, j :: 0 <= i < j < |xs| ==> xs[i] != xs[j]
  }

  /** The elements of `xs` in order of first appearance, each once: the key order of a `Map` filled from `xs`. */
  function FirstAppearances(xs: seq<string>): (r: seq<string>)
    ensures Distinct(r)
    ensures forall x :: x in r <==> x in xs
  {
    if xs == [] then []
    else
      var d := FirstAppearances(xs[..|xs| - 1]);
      var x := xs[|xs| - 1];
      assert xs == xs[..|xs| - 1] + [x];
      if x in d then d else d + [x]
  }

  /** The index of the first occurrence of `x` in `xs`. */
  function FirstIndex(xs: seq<string>, x: string): (k: nat)
    requires x in xs
    ensures k < |xs| && xs[k] == x && x !in xs[..k]
  {
    if xs[0] == x then 0
    else
      var k := FirstIndex(xs[1..], x);
      assert xs[..k + 1] == [xs[0]] + xs[1..][..k];
      k + 1
  }

  /** The first occurrence is the only occurrence with no copy before it. */
  lemma FirstIndexUnique(xs: seq<string>, x: string, k: nat)
    requires k < |xs| && xs[k] == x && x !in xs[..k]
    ensures FirstIndex(xs, x) == k
  {
    var f := FirstIndex(xs, x);
    assert forall i :: 0 <= i < k ==> xs[..k][i] == xs[i];
    assert forall i :: 0 <= i < f ==> xs[..f][i] == xs[i];
  }

  /** Appending an element leaves the first occurrence of every earlier element where it was. */
  lemma FirstIndexSnoc(xs: seq<string>, y: string, x: string)
    requires x in xs
    ensures FirstIndex(xs + [y], x) == FirstIndex(xs, x)
  {
    var k := FirstIndex(xs, x);
    assert (xs + [y])[..k] == xs[..k];
    FirstIndexUnique(xs + [y], x, k);
  }

  /** The first-appearance order is the order of first occurrences in `xs`: together with distinctness and the same elements, this fixes the result. */
  lemma {:induction false} FirstAppearancesOrdered(xs: seq<string>)
    ensures forall i, j :: 0 <= i < j < |FirstAppearances(xs)| ==>
      FirstIndex(xs, FirstAppearances(xs)[i]) < FirstIndex(xs, FirstAppearances(xs)[j])
  {
    if xs != [] {
      var n := |xs| - 1;
      var init, x := xs[..n], xs[n];
      assert xs == init + [x];
      FirstAppearancesOrdered(init);
      var d := FirstAppearances(init);
      forall y | y in init ensures FirstIndex(xs, y) == FirstIndex(init, y) {
        FirstIndexSnoc(init, x, y);
      }
      if x !in d {
        assert x !in init && xs[..n] == init;
        FirstIndexUnique(xs, x, n);
      }
    }
  }

  /** Later elements never reorder earlier ones: the first appearances of `a` stay the head of those of `a + b`, and the rest come only from `b`. */
  lemma {:induction false} FirstAppearancesPrefix(a: seq<string>, b: seq<string>)
    ensures FirstAppearances(a) <= FirstAppearances(a + b)
    ensures forall x :: x in FirstAppearances(a + b)[|FirstAppearances(a)|..] ==> x !in a && x in b
  {
    if b == [] {
      assert a + b == a;
    } else {
      var n := |b| - 1;
      var b0, y := b[..n], b[n];
      assert a + b == (a + b0) + [y];
      FirstAppearancesPrefix(a, b0);
      FirstAppearancesSnoc(a + b0, y);
      var fa, fab := FirstAppearances(a), FirstAppearances(a + b0);
      forall x | x in FirstAppearances(a + b)[|fa|..] ensures x !in a && x in b {
        if x in fab[|fa|..] {
          assert x in b0;
        } else {
          assert x == y && y !in fab;
        }
      }
    }
  }

  /** The roles of `id`, in row order. */
  function RolesOf(roles: seq<RoleRow>, id: string): seq<AppRole> {
    if roles == [] then []
    else
      var last := roles[|roles| - 1];
      RolesOf(roles[..|roles| - 1], id) + (if last.user_id == id then [last.role] else [])
  }

  /** The last profile row of `id`: a later `Map.set` on the same key replaces the earlier entry. */
  function LastProfile(profiles: seq<ProfileRow>, id: string): (r: Option<ProfileRow>)
    ensures r.Some? <==> id in ProfileIds(profiles)
    ensures r.Some? ==> r.value.user_id == id
  {
    if profiles == [] then None
    else
      var init := profiles[..|profiles| - 1];
      assert ProfileIds(profiles) == ProfileIds(init) + [profiles[|profiles| - 1].user_id];
      if profiles[|profiles| - 1].user_id == id then Some(profiles[|profiles| - 1])
      else LastProfile(init, id)
  }

  /** The entry of `id` is the last profile row with that id: no later row names it. */
  lemma {:induction false} LastProfileIsLastRow(profiles: seq<ProfileRow>, id: string)
    ensures LastProfile(profiles, id).Some? ==>
      exists i :: LastRowOf(profiles, id, i) && profiles[i] == LastProfile(profiles, id).value
  {
    if profiles != [] {
      var n := |profiles| - 1;
      var init := profiles[..n];
      if profiles[n].user_id == id {
        assert LastRowOf(profiles, id, n);
      } else {
        LastProfileIsLastRow(init, id);
        assert forall i :: LastRowOf(init, id, i) ==> LastRowOf(profiles, id, i);
      }
    }
  }

  /** `profiles[i]` is the last row of `id`. */
  predicate LastRowOf(profiles: seq<ProfileRow>, id: string, i: int) {
    0 <= i < |profiles| && profiles[i].user_id == id && forall j :: i < j < |profiles| ==> profiles[j].user_id != id
  }

  lemma {:induction false} RolesOfAbsent(roles: seq<RoleRow>, id: string)
    requires id !in RoleIds(roles)
    ensures RolesOf(roles, id) == []
  {
    if roles != [] {
      var init := roles[..|roles| - 1];
      assert RoleIds(roles) == RoleIds(init) + [roles[|roles| - 1].user_id];
      RolesOfAbsent(init, id);
    }
  }

  /** The entry the merge is to produce for `id` once `roles` have been folded in. */
  function Expected(profiles: seq<ProfileRow>, roles: seq<RoleRow>, id: string): UserWithRole {
    var p := LastProfile(profiles, id);
    var rs := RolesOf(roles, id);
    UserWithRole(
      id,
      if p.Some? then p.value.display_name else None,
      if p.Some? then p.value.full_name else None,
      id,
      rs,
      Overseer in rs, Admin in rs, Editor in rs)
  }

  /** The entry a profile row creates: no roles, no flags. */
  function FromProfile(p: ProfileRow): UserWithRole {
    UserWithRole(p.user_id, p.display_name, p.full_name, p.user_id, [], false, false, false)
  }

  lemma FirstAppearancesSnoc(xs: seq<string>, x: string)
    ensures FirstAppearances(xs + [x]) ==
      if x in FirstAppearances(xs) then FirstAppearances(xs) else FirstAppearances(xs) + [x]
  {
    assert (xs + [x])[..|xs|] == xs;
  }

  lemma IdsSnoc(pids: seq<string>, roles: seq<RoleRow>, j: nat)
    requires j < |roles|
    ensures pids + RoleIds(roles[..j + 1]) == (pids + RoleIds(roles[..j])) + [roles[j].user_id]
  {
    assert RoleIds(roles[..j + 1]) == RoleIds(roles[..j]) + [roles[j].user_id];
  }

  lemma LastProfileSnoc(profiles: seq<ProfileRow>, i: nat, id: string)
    requires i < |profiles|
    ensures LastProfile(profiles[..i + 1], id) ==
      if profiles[i].user_id == id then Some(profiles[i]) else LastProfile(profiles[..i], id)
  {
    assert profiles[..i + 1][..i] == profiles[..i];
  }

  /** Folding in role row `j` changes only the entry of that row's user: its role is appended and its flag raised. */
  lemma ExpectedSnoc(profiles: seq<ProfileRow>, roles: seq<RoleRow>, j: nat, id: string)
    requires j < |roles|
    ensures var e := Expected(profiles, roles[..j], id);
      Expected(profiles, roles[..j + 1], id) ==
        if roles[j].user_id == id then
          e.(roles := e.roles + [roles[j].role],
             isOverseer := e.isOverseer || roles[j].role == Overseer,
             isAdmin := e.isAdmin || roles[j].role == Admin,
             isEditor := e.isEditor || roles[j].role == Editor)
        else e
  {
    assert roles[..j + 1][..j] == roles[..j];
    var rs := RolesOf(roles[..j], id);
    if roles[j].user_id == id {
      var rs' := rs + [roles[j].role];
      assert RolesOf(roles[..j + 1], id) == rs';
      assert forall r :: r in rs' <==> r in rs || r == roles[j].role;
    }
  }

  /** `order` and `entries` are the key order and the values of the map after folding in `roles[..j]`. */
  ghost predicate Folded(profiles: seq<ProfileRow>, roles: seq<RoleRow>, j: nat, order: seq<string>, entries: map<string, UserWithRole>)
    requires j <= |roles|
  {
    order == FirstAppearances(ProfileIds(profiles) + RoleIds(roles[..j])) &&
    (forall id :: id in entries <==> id in order) &&
    (forall id :: id in entries ==> entries[id] == Expected(profiles, roles[..j], id))
  }

  /** One iteration of the role loop: push the role onto a known user's entry and raise its flag, or create the entry. */
  method AddRoleRow(ghost profiles: seq<ProfileRow>, roles: seq<RoleRow>, j: nat, order: seq<string>, entries: map<string, UserWithRole>)
    returns (order': seq<string>, entries': map<string, UserWithRole>)
    requires j < |roles| && Folded(profiles, roles, j, order, entries)
    ensures Folded(profiles, roles, j + 1, order', entries')
  {
    var id := roles[j].user_id;
    OrderStep(profiles, roles, j, order);
    order' := if id in entries then order else order + [id];
    entries' := FoldRole(profiles, roles, j, entries);
    KeysStep(order, entries, id, order', entries');
  }

  /** The map after role row `j`: the row's user's entry is extended, or created when the user is new. */
  method FoldRole(ghost profiles: seq<ProfileRow>, roles: seq<RoleRow>, j: nat, entries: map<string, UserWithRole>)
    returns (entries': map<string, UserWithRole>)
    requires j < |roles|
    requires roles[j].user_id !in entries ==> roles[j].user_id !in ProfileIds(profiles) + RoleIds(roles[..j])
    requires forall id :: id in entries ==> entries[id] == Expected(profiles, roles[..j], id)
    ensures entries'.Keys == entries.Keys + {roles[j].user_id}
    ensures forall id :: id in entries' ==> entries'[id] == Expected(profiles, roles[..j + 1], id)
  {
    if roles[j].user_id in entries {
      entries' := ExtendEntry(profiles, roles, j, entries);
    } else {
      entries' := CreateEntry(profiles, roles, j, entries);
    }
  }

  /** The map's keys and the key order grow together: both gain the row's user, if new. */
  lemma KeysStep(order: seq<string>, entries: map<string, UserWithRole>, x: string,
                 order': seq<string>, entries': map<string, UserWithRole>)
    requires forall id :: id in entries <==> id in order
    requires entries'.Keys == entries.Keys + {x}
    requires order' == if x in order then order else order + [x]
    ensures forall id :: id in entries' <==> id in order'
  {
  }

  /** The key order after role row `j`: unchanged when the row's user is already a key, else that user appended. */
  lemma OrderStep(profiles: seq<ProfileRow>, roles: seq<RoleRow>, j: nat, order: seq<string>)
    requires j < |roles| && order == FirstAppearances(ProfileIds(profiles) + RoleIds(roles[..j]))
    ensures var id := roles[j].user_id;
      FirstAppearances(ProfileIds(profiles) + RoleIds(roles[..j + 1])) == if id in order then order else order + [id]
    ensures roles[j].user_id !in order ==> roles[j].user_id !in ProfileIds(profiles) + RoleIds(roles[..j])
  {
    ghost var xs := ProfileIds(profiles) + RoleIds(roles[..j]);
    IdsSnoc(ProfileIds(profiles), roles, j);
    FirstAppearancesSnoc(xs, roles[j].user_id);
  }

  /** A role row whose user has no entry yet: a new entry with null names and this one role. */
  method CreateEntry(ghost profiles: seq<ProfileRow>, roles: seq<RoleRow>, j: nat, entries: map<string, UserWithRole>)
    returns (entries': map<string, UserWithRole>)
    requires j < |roles| && roles[j].user_id !in entries
    requires roles[j].user_id !in ProfileIds(profiles) + RoleIds(roles[..j])
    requires forall id :: id in entries ==> entries[id] == Expected(profiles, roles[..j], id)
    ensures entries'.Keys == entries.Keys + {roles[j].user_id}
    ensures forall id :: id in entries' ==> entries'[id] == Expected(profiles, roles[..j + 1], id)
  {
    var r := roles[j];
    RolesOfAbsent(roles[..j], r.user_id);
    entries' := entries[r.user_id := UserWithRole(
      r.user_id, None, None, r.user_id, [r.role], r.role == Overseer, r.role == Admin, r.role == Editor)];
    ExpectedSnoc(profiles, roles, j, r.user_id);
    RowFolded(profiles, roles, j, entries, entries');
  }

  /** A role row whose user already has an entry: the role is pushed and the matching flag raised. */
  method ExtendEntry(ghost profiles: seq<ProfileRow>, roles: seq<RoleRow>, j: nat, entries: map<string, UserWithRole>)
    returns (entries': map<string, UserWithRole>)
    requires j < |roles| && roles[j].user_id in entries
    requires forall id :: id in entries ==> entries[id] == Expected(profiles, roles[..j], id)
    ensures entries'.Keys == entries.Keys + {roles[j].user_id}
    ensures forall id :: id in entries' ==> entries'[id] == Expected(profiles, roles[..j + 1], id)
  {
    var r := roles[j];
    var u := entries[r.user_id];
    u := u.(roles := u.roles + [r.role]);
    if r.role == Overseer { u := u.(isOverseer := true); }
    if r.role == Admin { u := u.(isAdmin := true); }
    if r.role == Editor { u := u.(isEditor := true); }
    entries' := entries[r.user_id := u];
    ExpectedSnoc(profiles, roles, j, r.user_id);
    RowFolded(profiles, roles, j, entries, entries');
  }

  /** Every entry but that of row `j`'s user is untouched; with that entry correct, all entries agree with `roles[..j + 1]`. */
  lemma RowFolded(profiles: seq<ProfileRow>, roles: seq<RoleRow>, j: nat, entries: map<string, UserWithRole>, entries': map<string, UserWithRole>)
    requires j < |roles|
    requires forall id :: id in entries ==> entries[id] == Expected(profiles, roles[..j], id)
    requires entries'.Keys == entries.Keys + {roles[j].user_id}
    requires forall id :: id in entries' && id != roles[j].user_id ==> entries'[id] == entries[id]
    requires entries'[roles[j].user_id] == Expected(profiles, roles[..j + 1], roles[j].user_id)
    ensures forall id :: id in entries' ==> entries'[id] == Expected(profiles, roles[..j + 1], id)
  {
    forall id | id in entries' ensures entries'[id] == Expected(profiles, roles[..j + 1], id) {
      ExpectedSnoc(profiles, roles, j, id);
    }
  }

  /** `order` and `entries` are the key order and the values of the map after setting the entries of `profiles[..i]`. */
  ghost predicate Indexed(profiles: seq<ProfileRow>, i: nat, order: seq<string>, entries: map<string, UserWithRole>)
    requires i <= |profiles|
  {
    order == FirstAppearances(ProfileIds(profiles[..i])) &&
    (forall id :: id in entries <==> id in order) &&
    (forall id :: id in entries ==> entries[id] == FromProfile(LastProfile(profiles[..i], id).value))
  }

  /** One iteration of the profile loop: set the entry of the row's id, appending the id when it is new. */
  method AddProfileRow(profiles: seq<ProfileRow>, i: nat, order: seq<string>, entries: map<string, UserWithRole>)
    returns (order': seq<string>, entries': map<string, UserWithRole>)
    requires i < |profiles| && Indexed(profiles, i, order, entries)
    ensures Indexed(profiles, i + 1, order', entries')
  {
    var p := profiles[i];
    assert ProfileIds(profiles[..i + 1]) == ProfileIds(profiles[..i]) + [p.user_id];
    FirstAppearancesSnoc(ProfileIds(profiles[..i]), p.user_id);
    order' := if p.user_id in entries then order else order + [p.user_id];
    entries' := entries[p.user_id := FromProfile(p)];
    forall id | id in entries' ensures entries'[id] == FromProfile(LastProfile(profiles[..i + 1], id).value) {
      LastProfileSnoc(profiles, i, id);
    }
  }

  /** The profile loop of `fetchUsers`: every profile row sets the entry of its id, with no roles. */
  method IndexProfiles(profiles: seq<ProfileRow>) returns (order: seq<string>, entries: map<string, UserWithRole>)
    ensures order == FirstAppearances(ProfileIds(profiles))
    ensures forall id :: id in entries <==> id in order
    ensures forall id :: id in entries ==> entries[id] == FromProfile(LastProfile(profiles, id).value)
  {
    order, entries := [], map[];
    var i := 0;
    while i < |profiles|
      invariant 0 <= i <= |profiles|
      invariant Indexed(profiles, i, order, entries)
    {
      order, entries := AddProfileRow(profiles, i, order, entries);
      i := i + 1;
    }
    assert profiles[..i] == profiles;
  }

  /**
   * `users` is the merge of `profiles` and `roles`: one entry per id in first-appearance
   * order (profile ids first), the id as email, the id's roles in row order with the flags
   * agreeing, and the names of the id's last profile row (null for a role-only user).
   */
  predicate MergedFrom(profiles: seq<ProfileRow>, roles: seq<RoleRow>, users: seq<UserWithRole>) {
    |users| == |FirstAppearances(ProfileIds(profiles) + RoleIds(roles))| &&
    (forall i :: 0 <= i < |users| ==> users[i].user_id == FirstAppearances(ProfileIds(profiles) + RoleIds(roles))[i]) &&
    (forall i :: 0 <= i < |users| ==>
      users[i].email == users[i].user_id && users[i].roles == RolesOf(roles, users[i].user_id)) &&
    (forall i :: 0 <= i < |users| ==> RoleFlagsAgree(users[i])) &&
    (forall i :: 0 <= i < |users| ==>
      var p := LastProfile(profiles, users[i].user_id);
      users[i].display_name == (if p.Some? then p.value.display_name else None) &&
      users[i].full_name == (if p.Some? then p.value.full_name else None))
  }

  /** The merged list starts with the profile users in first-appearance order; the users after them have role rows only. */
  lemma MergedOrder(profiles: seq<ProfileRow>, roles: seq<RoleRow>, users: seq<UserWithRole>)
    requires MergedFrom(profiles, roles, users)
    ensures |FirstAppearances(ProfileIds(profiles))| <= |users|
    ensures forall i :: 0 <= i < |FirstAppearances(ProfileIds(profiles))| ==>
      users[i].user_id == FirstAppearances(ProfileIds(profiles))[i]
    ensures forall i :: |FirstAppearances(ProfileIds(profiles))| <= i < |users| ==>
      users[i].user_id !in ProfileIds(profiles) && users[i].user_id in RoleIds(roles)
  {
    var all := FirstAppearances(ProfileIds(profiles) + RoleIds(roles));
    var head := FirstAppearances(ProfileIds(profiles));
    FirstAppearancesPrefix(ProfileIds(profiles), RoleIds(roles));
    forall i | |head| <= i < |users|
      ensures users[i].user_id !in ProfileIds(profiles) && users[i].user_id in RoleIds(roles)
    {
      assert users[i].user_id == all[|head|..][i - |head|];
    }
  }

  /**
   * The merge of `fetchUsers`: every profile row sets an entry with no roles, then every
   * role row either extends the entry of its user or creates one with null names; the list
   * is the map's values in key-insertion order.
   */
  method MergeUsers(profiles: seq<ProfileRow>, roles: seq<RoleRow>) returns (users: seq<UserWithRole>)
    ensures MergedFrom(profiles, roles, users)
  {
    var order, entries := IndexProfiles(profiles);
    assert ProfileIds(profiles) + RoleIds(roles[..0]) == ProfileIds(profiles);
    forall id | id in entries ensures entries[id] == Expected(profiles, roles[..0], id) {
      assert roles[..0] == [];
    }
    var j := 0;
    while j < |roles|
      invariant 0 <= j <= |roles|
      invariant Folded(profiles, roles, j, order, entries)
    {
      order, entries := AddRoleRow(profiles, roles, j, order, entries);
      j := j + 1;
    }
    assert roles[..j] == roles;
    users := seq(|order|, k requires 0 <= k < |order| => entries[order[k]]);
  }

  // ---------------------------------------------------------------------------------------
  // The component
  // ---------------------------------------------------------------------------------------

  /** How `fetchUsers`' two queries end: both settle, or one of them throws. */
  datatype FetchOutcome = Fetched(profiles: Reply<seq<ProfileRow>>, roles: Reply<seq<RoleRow>>) | FetchThrew

  class UserList {
    var users: seq<UserWithRole>
    var loading: bool
    var isOverseer: bool

    constructor ()
      ensures users == [] && loading && !isOverseer
    {
      users, loading, isOverseer := [], true, false;
    }

    /** `checkOverseerStatus`: the viewer's own overseer flag, kept as it was on an error or a throw. */
    method CheckOverseerStatus(call: Call<bool>)
      modifies this
      ensures users == old(users) && loading == old(loading)
      ensures isOverseer == if call.Answered? && call.reply.error.None? then call.reply.data == Some(true) else old(isOverseer)
    {
      if call.Answered? && call.reply.error.None? {
        isOverseer := call.reply.data == Some(true);
      }
    }

    /**
     * `fetchUsers`: a reply's error is only logged, and the rows it carries (`data ?? []`)
     * are merged all the same; a throw keeps the old list; loading ends either way.
     */
    method FetchUsers(outcome: FetchOutcome)
      modifies this
      ensures !loading && isOverseer == old(isOverseer)
      ensures outcome.FetchThrew? ==> users == old(users)
      ensures outcome.Fetched? ==> MergedFrom(outcome.profiles.data.GetOr([]), outcome.roles.data.GetOr([]), users)
    {
      if outcome.Fetched? {
        users := MergeUsers(outcome.profiles.data.GetOr([]), outcome.roles.data.GetOr([]));
      }
      loading := false;
    }

    /** Display-name editing is disabled: the handler only shows a notice and changes no state. */
    method UpdateDisplayName(userId: string)
      ensures users == old(users) && loading == old(loading) && isOverseer == old(isOverseer)
    {
    }
  }

  // ---------------------------------------------------------------------------------------
  // Display rules
  // ---------------------------------------------------------------------------------------

  predicate RoleFlagsAgree(u: UserWithRole) {
    (u.isAdmin <==> Admin in u.roles) && (u.isOverseer <==> Overseer in u.roles) && (u.isEditor <==> Editor in u.roles)
  }

  datatype BadgeVariant = Destructive | Default | Secondary | Outline

  /** `getRoleBadgeVariant`. */
  function RoleBadgeVariant(role: AppRole): BadgeVariant {
    match role
    case Overseer => Destructive
    case Admin => Default
    case Editor => Secondary
    case User => Outline
  }

  /** The three elevated roles get three different badges; only the plain user role falls to the outline badge. */
  lemma BadgeVariantsDistinguishRoles(a: AppRole, b: AppRole)
    ensures RoleBadgeVariant(a) == Outline <==> a == User
    ensures a != b ==> RoleBadgeVariant(a) != RoleBadgeVariant(b)
  {
  }

  /** The roles the "Add role" selector offers: overseer, admin, editor, minus those already flagged. */
  function AddRoleOptions(u: UserWithRole): seq<AppRole> {
    (if !u.isOverseer then [Overseer] else []) +
    (if !u.isAdmin then [Admin] else []) +
    (if !u.isEditor then [Editor] else [])
  }

  /** The roles the "Remove role" selector offers: the user's role list; no selector when it is empty. */
  function RemoveRoleOptions(u: UserWithRole): Option<seq<AppRole>> {
    if |u.roles| > 0 then Some(u.roles) else None
  }

  /** For a merged entry the add options are exactly the elevated roles the user lacks, never the plain user role, and never one it already has. */
  lemma AddOptionsAreMissingRoles(u: UserWithRole)
    requires RoleFlagsAgree(u)
    ensures forall r :: r in AddRoleOptions(u) <==> r != User && r !in u.roles
    ensures Distinct3(AddRoleOptions(u))
  {
  }

  predicate Distinct3(rs: seq<AppRole>) {
    forall i, j :: 0 <= i < j < |rs| ==> rs[i] != rs[j]
  }

  /** Each role the user holds can be removed; nothing else is offered. */
  lemma RemoveOptionsAreHeldRoles(u: UserWithRole)
    ensures forall r :: (RemoveRoleOptions(u).Some? && r in RemoveRoleOptions(u).value) <==> r in u.roles
  {
  }

  /** The name line: `full_name || display_name || 'No name set'`. */
  function NameLine(u: UserWithRole): (r: string)
    ensures r != []
    ensures u.full_name.Some? && u.full_name.value != [] ==> r == u.full_name.value
    ensures (u.full_name.None? || u.full_name.value == []) && u.display_name.Some? && u.display_name.value != [] ==> r == u.display_name.value
    ensures (u.full_name.None? || u.full_name.value == []) && (u.display_name.None? || u.display_name.value == []) ==> r == "No name set"
  {
    JsString.Or(u.full_name.GetOr(""), JsString.Or(u.display_name.GetOr(""), "No name set"))
  }

  /** The secondary line: the email when it contains '@', else `ID: ` and the first eight characters of the id. */
  function SecondaryLine(u: UserWithRole): (r: string)
    ensures '@' in u.email ==> r == u.email
    ensures '@' !in u.email ==> r == "ID: " + JsString.Take(u.user_id, 8) + "..." && |r| <= 15
  {
    if '@' in u.email then u.email else "ID: " + JsString.Take(u.user_id, 8) + "..."
  }

  /** Since the merge copies the id into `email`, an id without '@' is shown truncated to eight characters. */
  lemma MergedSecondaryLine(profiles: seq<ProfileRow>, roles: seq<RoleRow>, users: seq<UserWithRole>, i: nat)
    requires MergedFrom(profiles, roles, users)
    requires i < |users| && '@' !in users[i].user_id
    ensures SecondaryLine(users[i]) == "ID: " + users[i].user_id[..if |users[i].user_id| < 8 then |users[i].user_id| else 8] + "..."
  {
  }
}
