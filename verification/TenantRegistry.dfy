/** The tenants table and the in-memory registry kept beside it: `crates/api/src/admin.rs`,
    `crates/auth/src/tenant_registry.rs` and `crates/tenant/src/lib.rs`.

    Handlers run one at a time.  A handler may fail in its database step, stop after the row
    was written and before it touched the registry, or, in an issuer update, stop between the
    two changes of the registry; the process may restart at any time. */
module TenantRegistry {
  import opened Terms

  /** A row of `tenants`; a tenant is named by its place in the table, which never shrinks. */
  datatype Row = Row(name: nat, issuer: nat, active: bool)

  datatype Config = Config(id: nat, name: nat, issuer: nat, active: bool)

  datatype State = State(table: seq<Row>, registry: map<nat, Config>)

  /** `AfterInvalidate` matters to an issuer update only: elsewhere nothing follows. */
  datatype Fault = NoFault | BeforeWrite | AfterWrite | AfterInvalidate

  datatype Step =
    | Startup(loaded: bool)   // the query of `load_all` worked, or its failure left no rows
    | Create(name: nat, issuer: nat, fault: Fault)
    | Approve(name: nat, issuer: nat, fault: Fault)   // a registration that became a tenant
    | Deactivate(id: nat, fault: Fault)
    | Update(id: nat, issuer: nat, fault: Fault)

  const EMPTY := State([], map[])

  function ConfigOf(table: seq<Row>, id: nat): Config
    requires id < |table|
  {
    Config(id, table[id].name, table[id].issuer, table[id].active)
  }

  /** Another tenant than `id` has this issuer: the UNIQUE constraint rejects the write. */
  predicate Taken(table: seq<Row>, id: nat, issuer: nat) {
    exists i :: 0 <= i < |table| && i != id && table[i].issuer == issuer
  }

  /** The rows entered one by one, later ones over earlier ones. */
  function Loaded(table: seq<Row>, upTo: nat): map<nat, Config>
    requires upTo <= |table|
  {
    if upTo == 0 then map[] else Loaded(table, upTo - 1)[table[upTo - 1].issuer := ConfigOf(table, upTo - 1)]
  }

  function Act(s: State, step: Step): State {
    match step
    case Startup(loaded) => s.(registry := if loaded then Loaded(s.table, |s.table|) else map[])
    case Create(name, issuer, fault) =>
      if fault == BeforeWrite || Taken(s.table, |s.table|, issuer) then s
      else if fault == AfterWrite then s.(table := s.table + [Row(name, issuer, true)])
      else State(s.table + [Row(name, issuer, true)], s.registry[issuer := Config(|s.table|, name, issuer, true)])
    case Approve(name, issuer, fault) =>
      if fault == BeforeWrite || Taken(s.table, |s.table|, issuer) then s
      else s.(table := s.table + [Row(name, issuer, true)])
    case Deactivate(id, fault) =>
      if fault == BeforeWrite || id >= |s.table| then s
      else
        var table := s.table[id := s.table[id].(active := false)];
        State(table, if fault == AfterWrite then s.registry else s.registry - {s.table[id].issuer})
    case Update(id, issuer, fault) =>
      if fault == BeforeWrite || id >= |s.table| || Taken(s.table, id, issuer) then s
      else
        var table := s.table[id := s.table[id].(issuer := issuer)];
        var without := s.registry - {s.table[id].issuer};
        State(table, if fault == AfterWrite then s.registry
                     else if fault == AfterInvalidate then without
                     else without[issuer := ConfigOf(s.table, id).(issuer := issuer)])
  }

  function Run(s: State, steps: seq<Step>): State {
    if steps == [] then s else Act(Run(s, steps[..|steps| - 1]), steps[|steps| - 1])
  }

  function Resolve(s: State, issuer: nat): Option<Config> {
    if issuer in s.registry then Some(s.registry[issuer]) else None
  }

  // ---- Soundness ----

  ghost predicate Unique(table: seq<Row>) {
    forall i, j | 0 <= i < j < |table| :: table[i].issuer != table[j].issuer
  }

  ghost predicate EntryOk(s: State, issuer: nat)
    requires issuer in s.registry
  {
    var config := s.registry[issuer];
    config.id < |s.table| && config == ConfigOf(s.table, config.id) && config.issuer == issuer
  }

  /** Every config the registry serves is the table's row for that issuer. */
  ghost predicate Sound(s: State) {
    forall issuer | issuer in s.registry :: EntryOk(s, issuer)
  }

  lemma {:induction false} LoadedIs(table: seq<Row>, upTo: nat)
    requires upTo <= |table| && Unique(table)
    ensures forall i: nat | i < upTo ::
              table[i].issuer in Loaded(table, upTo) && Loaded(table, upTo)[table[i].issuer] == ConfigOf(table, i)
    ensures forall issuer | issuer in Loaded(table, upTo) :: EntryOk(State(table, Loaded(table, upTo)), issuer)
  {
    if upTo > 0 {
      LoadedIs(table, upTo - 1);
      forall issuer | issuer in Loaded(table, upTo)
        ensures EntryOk(State(table, Loaded(table, upTo)), issuer)
      {
        assert issuer in Loaded(table, upTo - 1) ==> EntryOk(State(table, Loaded(table, upTo - 1)), issuer);
      }
    }
  }

  lemma {:induction false} UniqueKept(s: State, step: Step)
    requires Unique(s.table)
    ensures Unique(Act(s, step).table)
  {
  }

  /** A handler that stopped after its write leaves an entry behind that the row no longer
      agrees with. */
  predicate LeavesStale(s: State, step: Step) {
    match step
    case Deactivate(id, fault) =>
      fault == AfterWrite && id < |s.table| && s.table[id].active && s.table[id].issuer in s.registry
    case Update(id, issuer, fault) =>
      fault == AfterWrite && id < |s.table| && !Taken(s.table, id, issuer) && s.table[id].issuer != issuer
        && s.table[id].issuer in s.registry
    case _ => false
  }

  lemma {:induction false} StaysSound(s: State, step: Step)
    requires Unique(s.table) && Sound(s) && !LeavesStale(s, step)
    ensures Sound(Act(s, step))
  {
    var s' := Act(s, step);
    if step.Startup? {
      LoadedIs(s.table, |s.table|);
    } else {
      forall issuer | issuer in s'.registry
        ensures EntryOk(s', issuer)
      {
        assert issuer in s.registry ==> EntryOk(s, issuer);
        assert step.Create? && Taken(s.table, |s.table|, step.issuer) ==> s' == s;
      }
    }
  }

  lemma {:induction false} BecomesStale(s: State, step: Step)
    requires Unique(s.table) && Sound(s) && LeavesStale(s, step)
    ensures !Sound(Act(s, step))
  {
  }

  /** A step from a sound state ends in one exactly when it does not stop between the write
      and the registry with the tenant's old entry still served. */
  lemma {:induction false} SoundExactly(s: State, step: Step)
    requires Unique(s.table) && Sound(s)
    ensures Sound(Act(s, step)) <==> !LeavesStale(s, step)
  {
    if LeavesStale(s, step) {
      BecomesStale(s, step);
    } else {
      StaysSound(s, step);
    }
  }

  /** A restart that loads the table, or loads nothing, is sound from any state. */
  lemma {:induction false} RestartSound(s: State, loaded: bool)
    requires Unique(s.table)
    ensures Sound(Act(s, Startup(loaded)))
  {
    LoadedIs(s.table, |s.table|);
  }

  predicate Finishes(step: Step) {
    step.Startup? || step.fault != AfterWrite
  }

  predicate AllFinish(steps: seq<Step>) {
    forall k | 0 <= k < |steps| :: Finishes(steps[k])
  }

  /** In every run whose handlers finish or fail in their database step, issuers are unique
      and the registry is sound. */
  lemma {:induction false} RegistrySound(s: State, steps: seq<Step>)
    requires Unique(s.table) && Sound(s) && AllFinish(steps)
    ensures Unique(Run(s, steps).table) && Sound(Run(s, steps))
  {
    if steps != [] {
      RegistrySound(s, steps[..|steps| - 1]);
      var before, last := Run(s, steps[..|steps| - 1]), steps[|steps| - 1];
      assert Finishes(last);
      UniqueKept(before, last);
      StaysSound(before, last);
    }
  }

  /** The one way out: a created tenant is deactivated by a handler that stops after its
      write, and still resolves as active. */
  lemma {:induction false} StoppedHandlerServesStale(name: nat, issuer: nat)
    ensures var s := Act(Act(EMPTY, Create(name, issuer, NoFault)), Deactivate(0, AfterWrite));
            Resolve(s, issuer) == Some(Config(0, name, issuer, true)) && s.table == [Row(name, issuer, false)]
  {
  }

  lemma {:induction false} StaysInactive(s: State, steps: seq<Step>, id: nat)
    requires id < |s.table| && !s.table[id].active
    ensures id < |Run(s, steps).table| && !Run(s, steps).table[id].active
  {
    if steps != [] {
      StaysInactive(s, steps[..|steps| - 1], id);
    }
  }

  /** A tenant deactivated in any run never again resolves as active, through any issuer. */
  lemma {:induction false} DeactivatedNeverActive(steps: seq<Step>, id: nat, more: seq<Step>, issuer: nat)
    requires AllFinish(steps) && AllFinish(more) && id < |Run(EMPTY, steps).table|
    ensures var s := Run(Act(Run(EMPTY, steps), Deactivate(id, NoFault)), more);
            Resolve(s, issuer).Some? && Resolve(s, issuer).value.id == id ==> !Resolve(s, issuer).value.active
  {
    RegistrySound(EMPTY, steps);
    var before := Run(EMPTY, steps);
    var after := Act(before, Deactivate(id, NoFault));
    UniqueKept(before, Deactivate(id, NoFault));
    StaysSound(before, Deactivate(id, NoFault));
    RegistrySound(after, more);
    StaysInactive(after, more, id);
    var s := Run(after, more);
    assert issuer in s.registry ==> EntryOk(s, issuer);
  }

  lemma {:induction false} StaysMoved(s: State, steps: seq<Step>, id: nat, issuer: nat)
    requires id < |s.table| && s.table[id].issuer != issuer
    requires forall k | 0 <= k < |steps| :: !(steps[k].Update? && steps[k].id == id && steps[k].issuer == issuer)
    ensures id < |Run(s, steps).table| && Run(s, steps).table[id].issuer != issuer
  {
    if steps != [] {
      StaysMoved(s, steps[..|steps| - 1], id, issuer);
    }
  }

  /** An issuer a tenant gave up never resolves to that tenant, until it is given back. */
  lemma {:induction false} FreedIssuerNeverReturns(steps: seq<Step>, id: nat, next: nat, more: seq<Step>)
    requires AllFinish(steps) && AllFinish(more) && id < |Run(EMPTY, steps).table|
    requires var table := Run(EMPTY, steps).table; next != table[id].issuer && !Taken(table, id, next)
    requires var freed := Run(EMPTY, steps).table[id].issuer;
             forall k | 0 <= k < |more| :: !(more[k].Update? && more[k].id == id && more[k].issuer == freed)
    ensures var before := Run(EMPTY, steps);
            var s := Run(Act(before, Update(id, next, NoFault)), more);
            Resolve(s, before.table[id].issuer).Some? ==> Resolve(s, before.table[id].issuer).value.id != id
  {
    RegistrySound(EMPTY, steps);
    var before := Run(EMPTY, steps);
    var freed, after := before.table[id].issuer, Act(before, Update(id, next, NoFault));
    UniqueKept(before, Update(id, next, NoFault));
    StaysSound(before, Update(id, next, NoFault));
    RegistrySound(after, more);
    StaysMoved(after, more, id, freed);
    var s := Run(after, more);
    assert freed in s.registry ==> EntryOk(s, freed);
  }

  // ---- Completeness, for the handlers that keep it ----

  ghost predicate Served(s: State, id: nat)
    requires id < |s.table|
  {
    s.table[id].active ==> s.table[id].issuer in s.registry
  }

  ghost predicate Complete(s: State) {
    forall id: nat | id < |s.table| :: Served(s, id)
  }

  /** The step adds a row the registry does not hear of, or starts the registry empty. */
  predicate Bypasses(s: State, step: Step) {
    match step
    case Startup(loaded) => !loaded && exists i :: 0 <= i < |s.table| && s.table[i].active
    case Create(name, issuer, fault) => fault == AfterWrite && !Taken(s.table, |s.table|, issuer)
    case Approve(name, issuer, fault) => fault != BeforeWrite && !Taken(s.table, |s.table|, issuer)
    case Update(id, issuer, fault) =>
      && id < |s.table| && !Taken(s.table, id, issuer) && s.table[id].active
      && (fault == AfterInvalidate || (fault == AfterWrite && s.table[id].issuer != issuer))
    case _ => false
  }

  lemma {:induction false} StaysComplete(s: State, step: Step)
    requires Unique(s.table) && Sound(s) && Complete(s) && !Bypasses(s, step)
    ensures Complete(Act(s, step))
  {
    var s' := Act(s, step);
    if step.Startup? {
      LoadedIs(s.table, |s.table|);
    } else {
      forall id: nat | id < |s'.table|
        ensures Served(s', id)
      {
        assert id < |s.table| ==> Served(s, id);
      }
    }
  }

  lemma {:induction false} BecomesIncomplete(s: State, step: Step)
    requires Unique(s.table) && Sound(s) && Complete(s) && Bypasses(s, step)
    ensures !Complete(Act(s, step))
  {
    var s' := Act(s, step);
    match step
    case Startup(loaded) =>
      var i :| 0 <= i < |s.table| && s.table[i].active;
      assert !Served(s', i);
    case Create(name, issuer, fault) => Unheard(s, issuer, |s.table|, s');
    case Approve(name, issuer, fault) => Unheard(s, issuer, |s.table|, s');
    case Update(id, issuer, fault) =>
      if s.table[id].issuer == issuer {
        assert !Served(s', id);
      } else {
        Unheard(s, issuer, id, s');
      }
    case Deactivate(id, fault) =>
  }

  /** An issuer no other row has is served only for the tenant that holds it now. */
  lemma {:induction false} Unheard(s: State, issuer: nat, id: nat, s': State)
    requires Sound(s) && !Taken(s.table, id, issuer) && (id < |s.table| ==> s.table[id].issuer != issuer)
    requires id < |s'.table| && s'.table[id].issuer == issuer && s'.table[id].active
             && s'.registry.Keys <= s.registry.Keys
    ensures !Complete(s')
  {
    forall other | other in s.registry
      ensures other != issuer
    {
      assert EntryOk(s, other);
    }
    assert !Served(s', id);
  }

  /** From a sound and complete registry, a step ends in a complete one exactly when it adds
      or moves no active row behind the registry's back. */
  lemma {:induction false} CompleteExactly(s: State, step: Step)
    requires Unique(s.table) && Sound(s) && Complete(s)
    ensures Complete(Act(s, step)) <==> !Bypasses(s, step)
  {
    if Bypasses(s, step) {
      BecomesIncomplete(s, step);
    } else {
      StaysComplete(s, step);
    }
  }

  /** An issuer update that stops between its two changes of the registry: the tenant is
      active and resolves through no issuer. */
  lemma {:induction false} StoppedUpdateUnserved(name: nat, issuer: nat, next: nat, other: nat)
    ensures var s := Act(Act(EMPTY, Create(name, issuer, NoFault)), Update(0, next, AfterInvalidate));
            s.table == [Row(name, next, true)] && Resolve(s, other) == None
  {
    assert !Taken(EMPTY.table, 0, issuer);
    var created := Act(EMPTY, Create(name, issuer, NoFault));
    assert created == State([Row(name, issuer, true)], map[issuer := Config(0, name, issuer, true)]);
    assert !Taken(created.table, 0, next);
  }

  /** What an issuer update means for a caller: finished, the tenant keeps its name and state,
      resolves through the new issuer and not through the old one; and no other tenant is
      affected in any case. */
  ghost predicate UpdateSeen(s: State, id: nat, issuer: nat, fault: Fault, s': State) {
    && |s'.table| == |s.table|
    && (fault == NoFault && id < |s.table| && !Taken(s.table, id, issuer) ==>
          && s'.table[id] == Row(s.table[id].name, issuer, s.table[id].active)
          && Resolve(s', issuer) == Some(Config(id, s.table[id].name, issuer, s.table[id].active))
          && (s.table[id].issuer != issuer ==> Resolve(s', s.table[id].issuer) == None))
    && (forall i: nat | i < |s.table| && i != id ::
          s'.table[i] == s.table[i] && Resolve(s', s.table[i].issuer) == Resolve(s, s.table[i].issuer))
  }

  lemma {:induction false} UpdateExact(s: State, id: nat, issuer: nat, fault: Fault)
    requires Unique(s.table)
    ensures UpdateSeen(s, id, issuer, fault, Act(s, Update(id, issuer, fault)))
  {
    forall i: nat | i < |s.table| && i != id
      ensures var s' := Act(s, Update(id, issuer, fault));
              s'.table[i] == s.table[i] && Resolve(s', s.table[i].issuer) == Resolve(s, s.table[i].issuer)
    {
      assert !Taken(s.table, id, issuer) ==> s.table[i].issuer != issuer;
    }
  }

  // ---- The server's table and registry ----

  class TenantServer {
    var table: seq<Row>
    var inner: map<nat, Config>

    function View(): State
      reads this
    {
      State(table, inner)
    }

    constructor ()
      ensures View() == EMPTY
    {
      table, inner := [], map[];
    }

    method LoadAll(loaded: bool)
      modifies this`inner
      ensures View() == Act(old(View()), Startup(loaded))
      ensures loaded && Unique(table) ==>
                forall i: nat | i < |table| :: Resolve(View(), table[i].issuer) == Some(ConfigOf(table, i))
    {
      inner := map[];
      if loaded {
        for i := 0 to |table|
          invariant inner == Loaded(table, i)
        {
          inner := inner[table[i].issuer := ConfigOf(table, i)];
        }
      }
      if loaded && Unique(table) {
        LoadedIs(table, |table|);
      }
    }

    method ResolveByIssuer(issuer: nat) returns (config: Option<Config>)
      requires Sound(View())
      ensures config.Some? ==>
                config.value.issuer == issuer && config.value.id < |table|
                  && config.value == ConfigOf(table, config.value.id)
      ensures config.None? <==> issuer !in inner
    {
      config := None;
      if issuer in inner {
        assert EntryOk(View(), issuer);
        config := Some(inner[issuer]);
      }
    }

    method Invalidate(issuer: nat)
      modifies this`inner
      ensures inner == old(inner) - {issuer}
      ensures Resolve(View(), issuer) == None
      ensures forall other | other != issuer :: Resolve(View(), other) == Resolve(old(View()), other)
    {
      inner := inner - {issuer};
    }

    method Upsert(config: Config)
      modifies this`inner
      ensures inner == old(inner)[config.issuer := config]
      ensures Resolve(View(), config.issuer) == Some(config)
      ensures forall other | other != config.issuer :: Resolve(View(), other) == Resolve(old(View()), other)
    {
      inner := inner[config.issuer := config];
    }

    method HasIssuer(id: nat, issuer: nat) returns (taken: bool)
      ensures taken == Taken(table, id, issuer)
    {
      for i := 0 to |table|
        invariant forall j | 0 <= j < i && j != id :: table[j].issuer != issuer
      {
        if i != id && table[i].issuer == issuer {
          return true;
        }
      }
      return false;
    }

    method CreateTenant(name: nat, issuer: nat, fault: Fault)
      requires Unique(table) && Sound(View())
      modifies this
      ensures View() == Act(old(View()), Create(name, issuer, fault))
      ensures Unique(table) && Sound(View())
      ensures fault == BeforeWrite || Taken(old(table), |old(table)|, issuer) ==> View() == old(View())
      ensures fault == NoFault && !Taken(old(table), |old(table)|, issuer) ==>
                && table == old(table) + [Row(name, issuer, true)]
                && Resolve(View(), issuer) == Some(Config(|old(table)|, name, issuer, true))
      ensures forall other | other != issuer :: Resolve(View(), other) == Resolve(old(View()), other)
    {
      UniqueKept(View(), Create(name, issuer, fault));
      StaysSound(View(), Create(name, issuer, fault));
      var taken := HasIssuer(|table|, issuer);
      if fault == BeforeWrite || taken {
        return;
      }
      var id := |table|;
      table := table + [Row(name, issuer, true)];
      if fault != AfterWrite {
        Upsert(Config(id, name, issuer, true));
      }
    }

    method DeactivateTenant(id: nat, fault: Fault)
      requires Unique(table) && Sound(View())
      modifies this
      ensures View() == Act(old(View()), Deactivate(id, fault))
      ensures Unique(table) && (Sound(View()) <==> !LeavesStale(old(View()), Deactivate(id, fault)))
      ensures fault == NoFault && id < |old(table)| ==>
                && |table| == |old(table)| && table[id] == Row(old(table)[id].name, old(table)[id].issuer, false)
                && Resolve(View(), old(table)[id].issuer) == None
      ensures |table| == |old(table)| && forall i: nat | i < |table| && i != id ::
                table[i] == old(table)[i] && Resolve(View(), table[i].issuer) == Resolve(old(View()), table[i].issuer)
    {
      UniqueKept(View(), Deactivate(id, fault));
      SoundExactly(View(), Deactivate(id, fault));
      if fault == BeforeWrite || id >= |table| {
        return;
      }
      var issuer := table[id].issuer;
      table := table[id := table[id].(active := false)];
      if fault != AfterWrite {
        Invalidate(issuer);
      }
    }

    method UpdateOidcIssuer(id: nat, issuer: nat, fault: Fault)
      requires Unique(table) && Sound(View())
      modifies this
      ensures View() == Act(old(View()), Update(id, issuer, fault))
      ensures Unique(table) && (Sound(View()) <==> !LeavesStale(old(View()), Update(id, issuer, fault)))
      ensures old(Complete(View())) ==> (Complete(View()) <==> !Bypasses(old(View()), Update(id, issuer, fault)))
      ensures UpdateSeen(old(View()), id, issuer, fault, View())
    {
      UniqueKept(View(), Update(id, issuer, fault));
      SoundExactly(View(), Update(id, issuer, fault));
      if Complete(View()) {
        CompleteExactly(View(), Update(id, issuer, fault));
      }
      UpdateExact(View(), id, issuer, fault);
      hide Sound, Complete, LeavesStale, Bypasses, UpdateSeen;
      var taken := HasIssuer(id, issuer);
      if fault == BeforeWrite || id >= |table| || taken {
        return;
      }
      var config := ConfigOf(table, id);
      table := table[id := table[id].(issuer := issuer)];
      if fault == AfterWrite {
        return;
      }
      Invalidate(config.issuer);
      if fault == AfterInvalidate {
        return;
      }
      Upsert(config.(issuer := issuer));
    }
  }
}
