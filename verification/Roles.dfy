/** Reconciling roles. */
module Roles {
  import opened Options
  import opened Catalog
  import opened Desired
  import opened Progress
  import opened Statements
  import opened Servers
  import opened Obstacles

  /** The role is there, and everything the specification says about it holds. */
  ghost predicate RoleHeld(w: World, d: Spec, c: Catalog, n: Name) {
    Held(w, d, c, RoleExists(n)) && (forall k :: Held(w, d, c, OfRole(n, k)))
        && (Listed(d, n) ==> Legible(d.roles[n].options))
  }

  /** The server understands the check of every option. */
  ghost predicate Legible(options: OptionMap) { forall o :: o in options ==> Checked(o).Some? }

  ghost predicate ColumnsHeld(w: World, d: Spec, c: Catalog, n: Name) {
    forall col :: Held(w, d, c, OfRole(n, HasColumn(col)))
  }

  /** Memberships, databases and slots are as they were. */
  predicate OnlyRoles(a: Catalog, b: Catalog) { b.members == a.members && b.dbs == a.dbs && b.slots == a.slots }

  /** Creates the role unless it exists; an Absent one is left alone. */
  method Create(s: Server, n: Name, state: State) returns (ok: bool)
    modifies s`cat, s`trace
    ensures Attempt(s.w, state != Absent && n !in old(s.cat).roles, CreateRole(n), old(s.State()), s.State(), ok)
    ensures s.reliable && !ok ==> state != Absent && n == ""
  {
    if state == Absent {
      return true;
    }
    var asked, exists_ := s.Ask(n in s.cat.roles);
    if !asked {
      return false;
    }
    if !exists_ {
      ok := s.Exec(CreateRole(n));
      return;
    }
    return true;
  }

  lemma RoleHeldStable(w: World, d: Spec, a: Catalog, b: Catalog)
    requires Between(w, d, a, b, true)
    ensures forall n :: RoleHeld(w, d, a, n) ==> RoleHeld(w, d, b, n)
  {
    HeldStable(w, d, a, b);
  }

  lemma ColumnsHeldStable(w: World, d: Spec, a: Catalog, b: Catalog, n: Name)
    requires Between(w, d, a, b, true) && ColumnsHeld(w, d, a, n) && n in a.roles
    ensures ColumnsHeld(w, d, b, n) && n in b.roles
  {
    HeldStable(w, d, a, b);
    ExistenceStays(w, d, a, b, true);
  }

  /** The password is dealt with last; columns and expiry stay settled. */
  lemma RoleSettled(w: World, d: Spec, a: Catalog, b: Catalog, n: Name)
    requires Between(w, d, a, b, true) && n in a.roles
    requires ColumnsHeld(w, d, a, n) && Held(w, d, a, OfRole(n, ValidUntil))
    requires Held(w, d, b, OfRole(n, Password)) && n in d.roles && Legible(d.roles[n].options)
    ensures RoleHeld(w, d, b, n)
  {
    hide Between, Legible;
    HeldStable(w, d, a, b);
    ExistenceStays(w, d, a, b, true);
    forall k ensures Held(w, d, b, OfRole(n, k)) {
      if k.HasColumn? { assert Held(w, d, a, OfRole(n, HasColumn(k.column))); }
    }
  }

  lemma CreateAdvances(w: World, d: Spec, need: bool, n: Name, a: Log, b: Log, ok: bool)
    requires Wf(w, a.cat) && NamesRole(d, n)
    requires Attempt(w, need && n !in a.cat.roles, CreateRole(n), a, b, ok)
    ensures Advance(w, d, a, b, ok)
    ensures ok && need ==> n in b.cat.roles
    ensures a.cat.dbs == b.cat.dbs && a.cat.members == b.cat.members && a.cat.slots == b.cat.slots
  {
    CreateRoleSound(w, d, a.cat, n);
    AttemptAdvances(w, d, need && n !in a.cat.roles, CreateRole(n), a, b, ok);
  }

  /** One option: checked with its SQL condition, altered with its keyword. */
  method ReconcileOption(s: Server, ghost d: Spec, n: Name, opt: RoleOption) returns (ok: bool)
    requires Wf(s.w, s.cat) && n in s.cat.roles && Listed(d, n) && opt in d.roles[n].options
    modifies s`cat, s`trace
    ensures Advance(s.w, d, old(s.State()), s.State(), ok)
    ensures OnlyRoles(old(s.cat), s.cat)
    ensures ok ==> Checked(opt).Some? && HasOption(RowAt(s.cat, n), Checked(opt).value)
    ensures ok ==> ApplyOption(RowAt(old(s.cat), n), opt) == Some(RowAt(s.cat, n))
    ensures s.reliable && !ok ==> OptionBlocked(RowAt(old(s.cat), n), d.roles[n].options, opt, false)
  {
    if Checked(opt).None? {
      AdvanceRefl(s.w, d, s.State(), false);
      return false;
    }
    var m := Checked(opt).value;
    var asked, has := s.Ask(HasOption(s.cat.roles[n], m));
    ok := asked;
    if asked && !has {
      ok := s.Exec(AlterRole(n, SetOption(opt)));
      if ok {
        AlterSatisfiesCheck(opt);
      }
    }
    SetOptionSound(s.w, d, old(s.cat), n, opt);
    AttemptAdvances(s.w, d, !HasOption(old(s.cat).roles[n], m), AlterRole(n, SetOption(opt)), old(s.State()),
                    s.State(), ok);
  }

  /** The option is understood and the column it is about is as wanted. */
  ghost predicate OptionChecked(w: World, d: Spec, c: Catalog, n: Name, opt: RoleOption) {
    Checked(opt).Some? && Held(w, d, c, OfRole(n, HasColumn(Checked(opt).value.column)))
  }

  lemma OptionIsRead(w: World, d: Spec, c: Catalog, n: Name, opt: RoleOption)
    requires OptionChecked(w, d, c, n, opt)
    ensures Checked(opt).Some?
  {
  }

  lemma OptionHeld(w: World, d: Spec, c: Catalog, n: Name, opt: RoleOption)
    requires Listed(d, n) && opt in d.roles[n].options && Checked(opt).Some?
    requires HasOption(RowAt(c, n), Checked(opt).value)
    ensures OptionChecked(w, d, c, n, opt)
  {
    DemandMet(d.roles[n], RowAt(c, n), opt);
  }

  lemma OptionCheckedStable(w: World, d: Spec, a: Catalog, b: Catalog, n: Name)
    requires Between(w, d, a, b, true)
    ensures forall opt :: OptionChecked(w, d, a, n, opt) ==> OptionChecked(w, d, b, n, opt)
  {
    HeldStable(w, d, a, b);
  }

  lemma ColumnsHeldByOptions(w: World, d: Spec, c: Catalog, n: Name)
    requires Listed(d, n) && forall o :: o in d.roles[n].options ==> OptionChecked(w, d, c, n, o)
    ensures ColumnsHeld(w, d, c, n)
  {
    var options := d.roles[n].options;
    forall col ensures Held(w, d, c, OfRole(n, HasColumn(col))) {
      if on: bool :| Demands(options, Meaning(col, on)) {
        var o :| o in options && Checked(o) == Some(Meaning(col, on));
        assert OptionChecked(w, d, c, n, o);
      }
    }
  }

  /** An option that cannot be set now could not be set when the run began. */
  lemma OptionBlockedBefore(w: World, d: Spec, a: Catalog, b: Catalog, n: Name, o: RoleOption)
    requires Between(w, d, a, b, true) && Listed(d, n) && o in d.roles[n].options
    requires OptionBlocked(RowAt(b, n), d.roles[n].options, o, false)
    ensures OptionBlocked(RowAt(a, n), d.roles[n].options, o, false)
  {
    if Checked(o).Some? {
      var m := Checked(o).value;
      var key := OfRole(n, HasColumn(m.column));
      DemandMet(d.roles[n], RowAt(a, n), o);
      assert Loose(w, d, a, key, true) || Get(w, b, key) == Get(w, a, key) || Get(w, b, key) == Want(w, d, a, key);
    }
  }

  lemma RoleBlockedBefore(w: World, d: Spec, a: Catalog, b: Catalog, n: Name)
    requires Between(w, d, a, b, true) && RoleBlocked(d, b, n, false)
    ensures RoleBlocked(d, a, n, false)
  {
    hide Between, OptionBlocked;
    if n != "" {
      var o :| o in d.roles[n].options && OptionBlocked(RowAt(b, n), d.roles[n].options, o, false);
      OptionBlockedBefore(w, d, a, b, n, o);
    }
  }

  /** Options are taken in whatever order the map yields them. */
  method ReconcileOptions(s: Server, ghost d: Spec, n: Name, r: Role) returns (ok: bool)
    requires Wf(s.w, s.cat) && n in s.cat.roles && Listed(d, n) && d.roles[n] == r
    modifies s`cat, s`trace
    ensures Advance(s.w, d, old(s.State()), s.State(), ok)
    ensures OnlyRoles(old(s.cat), s.cat)
    ensures ok ==> n in s.cat.roles && ColumnsHeld(s.w, d, s.cat, n) && Legible(r.options)
    ensures ok ==>
      exists order :: Enumerates(order, r.options) && ApplyOptions(RowAt(old(s.cat), n), order) == Some(RowAt(s.cat, n))
    ensures s.reliable && !ok ==> RoleBlocked(d, old(s.cat), n, false)
  {
    hide Wf, Between, Legal, OptionChecked, ApplyOption, OptionBlocked;
    var order := InSomeOrder(r.options.Keys);
    AdvanceRefl(s.w, d, s.State(), true);
    for i := 0 to |order|
      invariant Advance(s.w, d, old(s.State()), s.State(), true) && OnlyRoles(old(s.cat), s.cat)
      invariant n in s.cat.roles
      invariant ApplyOptions(RowAt(old(s.cat), n), order[..i]) == Some(RowAt(s.cat, n))
      invariant forall j :: 0 <= j < i ==> OptionChecked(s.w, d, s.cat, n, order[j])
    {
      ghost var before := s.State();
      assert order[i] in r.options;
      ok := ReconcileOption(s, d, n, order[i]);
      AdvanceTrans(s.w, d, old(s.State()), before, s.State(), ok);
      if !ok {
        if s.reliable { OptionBlockedBefore(s.w, d, old(s.cat), before.cat, n, order[i]); }
        return;
      }
      OptionCheckedStable(s.w, d, before.cat, s.cat, n);
      ExistenceStays(s.w, d, before.cat, s.cat, true);
      OptionHeld(s.w, d, s.cat, n, order[i]);
      assert order[..i + 1][..i] == order[..i];
    }
    assert order[..|order|] == order;
    assert Enumerates(order, r.options);
    forall o | o in r.options ensures OptionChecked(s.w, d, s.cat, n, o) && Checked(o).Some? {
      assert o in order;
      OptionIsRead(s.w, d, s.cat, n, o);
    }
    ColumnsHeldByOptions(s.w, d, s.cat, n);
    return true;
  }

  method ReconcileSetExpiry(s: Server, ghost d: Spec, n: Name, r: Role) returns (ok: bool)
    requires Wf(s.w, s.cat) && n in s.cat.roles && Listed(d, n) && d.roles[n] == r
    modifies s`cat, s`trace
    ensures Advance(s.w, d, old(s.State()), s.State(), ok)
    ensures OnlyRoles(old(s.cat), s.cat)
    ensures ok && r.expiry.Some? ==>
      Held(s.w, d, s.cat, OfRole(n, ValidUntil)) && IsSecondOf(s.cat.roles[n].until, r.expiry.value)
    ensures s.reliable ==> ok
  {
    if r.expiry.None? {
      AdvanceRefl(s.w, d, s.State(), true);
      return true;
    }
    var until := Formatted(r.expiry.value);
    FormattedIsSecond(r.expiry.value);
    var asked, differs := s.Ask(s.cat.roles[n].until != until);
    ok := asked;
    if asked && differs {
      ok := s.Exec(AlterRole(n, SetValidUntil(until)));
    }
    SetValidUntilSound(s.w, d, old(s.cat), n);
    AttemptAdvances(s.w, d, old(s.cat).roles[n].until != until, AlterRole(n, SetValidUntil(until)), old(s.State()),
                    s.State(), ok);
  }

  method ReconcileResetExpiry(s: Server, ghost d: Spec, n: Name, r: Role) returns (ok: bool)
    requires Wf(s.w, s.cat) && n in s.cat.roles && Listed(d, n) && d.roles[n] == r
    modifies s`cat, s`trace
    ensures Advance(s.w, d, old(s.State()), s.State(), ok)
    ensures OnlyRoles(old(s.cat), s.cat)
    ensures ok && r.expiry.None? ==> Held(s.w, d, s.cat, OfRole(n, ValidUntil))
    ensures s.reliable ==> ok
  {
    if r.expiry.Some? {
      AdvanceRefl(s.w, d, s.State(), true);
      return true;
    }
    var asked, expires := s.Ask(s.cat.roles[n].until.At?);
    ok := asked;
    if asked && expires {
      ok := s.Exec(AlterRole(n, SetValidUntil(Infinity)));
    }
    ResetValidUntilSound(s.w, d, old(s.cat), n);
    AttemptAdvances(s.w, d, old(s.cat).roles[n].until.At?, AlterRole(n, SetValidUntil(Infinity)), old(s.State()),
                    s.State(), ok);
  }

  method ReconcileSetPassword(s: Server, ghost d: Spec, n: Name, r: Role) returns (ok: bool)
    requires Wf(s.w, s.cat) && n in s.cat.roles && Listed(d, n) && d.roles[n] == r
    modifies s`cat, s`trace
    ensures Advance(s.w, d, old(s.State()), s.State(), ok)
    ensures OnlyRoles(old(s.cat), s.cat)
    ensures ok && SetsPassword(r) ==>
      Held(s.w, d, s.cat, OfRole(n, Password)) && IsPasswordOf(s.w, s.cat.roles[n].password, r.password, n)
    ensures s.reliable ==> ok
  {
    if r.password == "" || !IsEnabled(r.options, LOGIN) {
      AdvanceRefl(s.w, d, s.State(), true);
      return true;
    }
    var hash := HashedPassword(s.w, r, n);
    var asked, lacks := s.Ask(LacksPassword(s.cat.roles[n], hash));
    ok := asked;
    if asked && lacks {
      ok := s.Exec(AlterRole(n, SetPassword(hash)));
    }
    SetPasswordSound(s.w, d, old(s.cat), n);
    AttemptAdvances(s.w, d, LacksPassword(old(s.cat).roles[n], hash), AlterRole(n, SetPassword(hash)), old(s.State()),
                    s.State(), ok);
    if ok && !LacksPassword(old(s.cat).roles[n], hash) {
      PasswordRead(old(s.cat).roles[n].password.value, hash);
    }
  }

  /** A password that reads as an md5 text is stored as that digest. */
  lemma PasswordRead(secret: Secret, hash: string)
    requires secret.Digest? ==> IsDigest(secret.text)
    requires SecretText(secret) == hash && "md5" <= hash
    ensures secret == Stored(hash)
  {
    if secret.Verifier? {
      VerifierText(secret.of);
    }
  }

  lemma VerifierText(of: string)
    ensures !("md5" <= SecretText(Verifier(of)))
  {
    assert SecretText(Verifier(of))[0] == 'S';
  }

  method ReconcileResetPassword(s: Server, ghost d: Spec, n: Name, r: Role) returns (ok: bool)
    requires Wf(s.w, s.cat) && n in s.cat.roles && Listed(d, n) && d.roles[n] == r
    requires ColumnsHeld(s.w, d, s.cat, n)
    modifies s`cat, s`trace
    ensures Advance(s.w, d, old(s.State()), s.State(), ok)
    ensures OnlyRoles(old(s.cat), s.cat)
    ensures ok && !SetsPassword(r) ==> Held(s.w, d, s.cat, OfRole(n, Password))
    ensures s.reliable ==> ok
  {
    if r.password != "" && IsEnabled(r.options, LOGIN) {
      AdvanceRefl(s.w, d, s.State(), true);
      return true;
    }
    assert Held(s.w, d, s.cat, OfRole(n, HasColumn(CanLogin)));
    var asked, has := s.Ask(HasPassword(s.w, n, s.cat.roles[n]));
    ok := asked;
    if asked && has {
      ok := s.Exec(AlterRole(n, ResetPassword));
    }
    ResetPasswordSound(s.w, d, old(s.cat), n);
    AttemptAdvances(s.w, d, HasPassword(s.w, n, old(s.cat).roles[n]), AlterRole(n, ResetPassword), old(s.State()),
                    s.State(), ok);
    HeldStable(s.w, d, old(s.cat), s.cat);
  }

  /** create, options, expiry, password, stopping at the first error. */
  method Reconcile(s: Server, ghost d: Spec, n: Name, r: Role) returns (ok: bool)
    requires Wf(s.w, s.cat) && n in d.roles && d.roles[n] == r
    modifies s`cat, s`trace
    ensures Advance(s.w, d, old(s.State()), s.State(), ok)
    ensures OnlyRoles(old(s.cat), s.cat)
    ensures ok && Listed(d, n) ==> RoleHeld(s.w, d, s.cat, n)
    ensures s.reliable && !ok ==> RoleBlocked(d, old(s.cat), n, false)
  {
    hide Wf, Between, Legal, RoleBlocked, Legible, Held, ColumnsHeld, RoleHeld, AllHeld;
    AdvanceRefl(s.w, d, s.State(), true);
    if r.state == Absent {
      return true;
    }
    ok := Create(s, n, r.state);
    CreateAdvances(s.w, d, true, n, old(s.State()), s.State(), ok);
    if !ok {
      NamelessBlocked(d, old(s.cat), n);
      return;
    }
    ghost var created := s.State();
    ok := ReconcileOptions(s, d, n, r);
    AdvanceTrans(s.w, d, old(s.State()), created, s.State(), ok);
    if !ok {
      if s.reliable { RoleBlockedBefore(s.w, d, old(s.cat), created.cat, n); }
      return;
    }
    ghost var optioned := s.State();
    ok := ReconcileExpiry(s, d, n, r);
    AdvanceTrans(s.w, d, old(s.State()), optioned, s.State(), ok);
    if !ok {
      return;
    }
    ColumnsHeldStable(s.w, d, optioned.cat, s.cat, n);
    ghost var expiring := s.State();
    ok := ReconcilePassword(s, d, n, r);
    AdvanceTrans(s.w, d, old(s.State()), expiring, s.State(), ok);
    if ok {
      RoleSettled(s.w, d, expiring.cat, s.cat, n);
    }
  }

  lemma NamelessBlocked(d: Spec, c: Catalog, n: Name)
    requires Listed(d, n)
    ensures n == "" ==> RoleBlocked(d, c, n, false)
  {
  }

  method ReconcileExpiry(s: Server, ghost d: Spec, n: Name, r: Role) returns (ok: bool)
    requires Wf(s.w, s.cat) && n in s.cat.roles && Listed(d, n) && d.roles[n] == r
    modifies s`cat, s`trace
    ensures Advance(s.w, d, old(s.State()), s.State(), ok)
    ensures OnlyRoles(old(s.cat), s.cat)
    ensures ok ==> Held(s.w, d, s.cat, OfRole(n, ValidUntil))
    ensures s.reliable ==> ok
  {
    ok := ReconcileSetExpiry(s, d, n, r);
    if !ok {
      return;
    }
    ghost var mid := s.State();
    ExistenceStays(s.w, d, old(s.cat), mid.cat, true);
    ok := ReconcileResetExpiry(s, d, n, r);
    AdvanceTrans(s.w, d, old(s.State()), mid, s.State(), ok);
    if ok {
      HeldStable(s.w, d, mid.cat, s.cat);
    }
  }

  method ReconcilePassword(s: Server, ghost d: Spec, n: Name, r: Role) returns (ok: bool)
    requires Wf(s.w, s.cat) && n in s.cat.roles && Listed(d, n) && d.roles[n] == r
    requires ColumnsHeld(s.w, d, s.cat, n)
    modifies s`cat, s`trace
    ensures Advance(s.w, d, old(s.State()), s.State(), ok)
    ensures OnlyRoles(old(s.cat), s.cat)
    ensures ok ==> Held(s.w, d, s.cat, OfRole(n, Password))
    ensures s.reliable ==> ok
  {
    ok := ReconcileSetPassword(s, d, n, r);
    if !ok {
      return;
    }
    ghost var mid := s.State();
    ExistenceStays(s.w, d, old(s.cat), mid.cat, true);
    HeldStable(s.w, d, old(s.cat), mid.cat);
    ok := ReconcileResetPassword(s, d, n, r);
    AdvanceTrans(s.w, d, old(s.State()), mid, s.State(), ok);
    if ok {
      HeldStable(s.w, d, mid.cat, s.cat);
    }
  }

  /** All roles, in whatever order the map yields them. */
  method ReconcileAll(s: Server, ghost d: Spec, roles: map<Name, Role>) returns (ok: bool)
    requires Wf(s.w, s.cat) && roles == d.roles
    modifies s`cat, s`trace
    ensures Advance(s.w, d, old(s.State()), s.State(), ok)
    ensures OnlyRoles(old(s.cat), s.cat)
    ensures ok ==> forall n :: Listed(d, n) ==> RoleHeld(s.w, d, s.cat, n)
    ensures s.reliable && !ok ==> exists n :: RoleBlocked(d, old(s.cat), n, false)
  {
    hide Wf, Between, Legal, RoleHeld, RoleBlocked;
    var order := InSomeOrder(roles.Keys);
    AdvanceRefl(s.w, d, s.State(), true);
    for i := 0 to |order|
      invariant Advance(s.w, d, old(s.State()), s.State(), true) && OnlyRoles(old(s.cat), s.cat)
      invariant forall j :: 0 <= j < i && Listed(d, order[j]) ==> RoleHeld(s.w, d, s.cat, order[j])
    {
      ghost var before := s.State();
      assert order[i] in roles;
      ok := Reconcile(s, d, order[i], roles[order[i]]);
      AdvanceTrans(s.w, d, old(s.State()), before, s.State(), ok);
      if !ok {
        if s.reliable { RoleBlockedBefore(s.w, d, old(s.cat), before.cat, order[i]); }
        return;
      }
      RoleHeldStable(s.w, d, before.cat, s.cat);
    }
    return true;
  }
}
