/** What every step of the resolver keeps. */
module ResolutionInvariant {
  import opened Wrappers
  import opened Versions
  import opened ConstraintLaws
  import opened Packages
  import opened Indexes
  import opened Resolution

  /** Requirement names hold no equals sign; the requirement parser accepts no others. */
  predicate CleanDeps(deps: seq<Dep>) {
    forall d <- deps :: CleanName(d.0)
  }

  predicate CleanWorld(w: World) {
    forall p <- w.pypi.requires_ :: CleanDeps(w.pypi.requires_[p])
  }

  /** The requirement is part of what its package must meet. */
  predicate Demanded(constraints: map<string, string>, dep: Dep) {
    NormalizeName(dep.0) in constraints && Entails(constraints[NormalizeName(dep.0)], dep.1)
  }

  predicate Tighter(strong: map<string, string>, weak: map<string, string>) {
    forall n <- weak :: n in strong && Entails(strong[n], weak[n])
  }

  /** The versions an index offers for a package; none if the lookup raises. */
  function RhoaiNames(w: World, name: string): seq<string> {
    match RhoaiVersions(w.rhoai, name)
    case Ok(d) => d.order
    case Err(_) => []
  }

  function PypiNames(w: World, name: string): seq<string> {
    match PypiVersions(w.pypi, name)
    case Ok(d) => d.order
    case Err(_) => []
  }

  function SourceNames(w: World, name: string, pin: Pin): seq<string> {
    if pin.origin.FromRhoai? then RhoaiNames(w, name) else PypiNames(w, name)
  }

  /** The pin carries what its index records for the version. */
  ghost predicate Recorded(w: World, name: string, pin: Pin) {
    match pin.origin
    case FromRhoai(platforms) =>
      var d := RhoaiVersions(w.rhoai, name);
      d.Ok? && pin.version in d.value.items && platforms == d.value.items[pin.version]
    case FromPypi(info) =>
      var d := PypiVersions(w.pypi, name);
      d.Ok? && pin.version in d.value.items && info == d.value.items[pin.version]
  }

  /** The pin is offered by its index, which has no higher version that meets the constraint; a PyPI pin
      also shows that RHOAI has none at all. Tightening the constraint keeps this. */
  ghost predicate Justified(w: World, name: string, pin: Pin, constraint: string) {
    && Recorded(w, name, pin)
    && pin.version in SourceNames(w, name, pin)
    && (forall v <- SourceNames(w, name, pin) :: Meets(v, constraint) ==> NotAbove(v, pin.version))
    && (pin.origin.FromPypi? ==> RhoaiVersions(w.rhoai, name).Ok? && NoneMeets(RhoaiNames(w, name), constraint))
  }

  predicate Pending(a: Agenda, extra: set<string>, name: string) {
    a.Queued(name) || name in extra
  }

  /** Everything the agenda mentions is a normalized name with a constraint. */
  predicate WellNamed(a: Agenda) {
    && (forall n <- a.constraints :: Normalized(n) && CleanName(n))
    && (forall q <- a.queue :: q.0 in a.constraints)
  }

  /** A pin is marked visited, and whatever it requires has been demanded. */
  ghost predicate Spread(w: World, constraints: map<string, string>, visited: set<string>) {
    forall n, v :: CleanName(n) && PinKey(n, v) in visited ==>
      forall d <- Requirements(w, n, v) :: Demanded(constraints, d)
  }

  /** A visited version that is no longer the pin violates the constraint of its package. */
  ghost predicate Retired(s: State) {
    forall n, v :: CleanName(n) && PinKey(n, v) in s.visited ==>
      || (n in s.resolved && s.resolved[n].version == v)
      || (n in s.agenda.constraints && !Meets(v, s.agenda.constraints[n]))
  }

  /** The state invariant, for a state in which the packages in `extra` still count as queued. */
  ghost predicate InvExcept(w: World, directs: seq<Dep>, s: State, extra: set<string>) {
    && WellNamed(s.agenda)
    && (forall n <- s.resolved ::
          && n in s.agenda.constraints
          && Justified(w, n, s.resolved[n], s.agenda.constraints[n])
          && PinKey(n, s.resolved[n].version) in s.visited
          && (s.resolved[n].origin.FromPypi? ==> n in s.reasons))
    && (forall n <- s.agenda.constraints ::
          Pending(s.agenda, extra, n) || (n in s.resolved && Meets(s.resolved[n].version, s.agenda.constraints[n])))
    && Spread(w, s.agenda.constraints, s.visited)
    && Retired(s)
    && (forall d <- directs :: Demanded(s.agenda.constraints, d))
  }

  ghost predicate Inv(w: World, directs: seq<Dep>, s: State) {
    InvExcept(w, directs, s, {})
  }

  // ----- collecting demands ------------------------------------------------

  lemma EntailsTransitive(a: string, b: string, c: string)
    requires Entails(a, b) && Entails(b, c)
    ensures Entails(a, c)
  {
  }

  lemma DemandedStays(strong: map<string, string>, weak: map<string, string>, dep: Dep)
    requires Tighter(strong, weak) && Demanded(weak, dep)
    ensures Demanded(strong, dep)
  {
  }

  /** One agenda grows into another: same queue and more, tighter constraints, changed ones queued. */
  predicate Grows(a: Agenda, b: Agenda) {
    && a.queue <= b.queue
    && Tighter(b.constraints, a.constraints)
    && forall n <- b.constraints :: b.Queued(n) || (n in a.constraints && a.constraints[n] == b.constraints[n])
  }

  lemma DemandGrows(a: Agenda, dep: Dep)
    requires WellNamed(a) && CleanName(dep.0)
    ensures WellNamed(Demand(a, dep)) && Grows(a, Demand(a, dep)) && Demanded(Demand(a, dep).constraints, dep)
  {
    hide Entails;
    NormalizeIsIdempotent(dep.0);
    NormalizeKeepsClean(dep.0);
    var norm, b := NormalizeName(dep.0), Demand(a, dep);
    MergeTightens(a.Lookup(norm), dep.1);
    forall c: string ensures Entails(c, c) && Entails(c, "") {
      EntailsSelfAndNothing(c);
    }
    assert b.queue[|a.queue|].0 == norm && b.queue[|a.queue|] in b.queue;
    assert forall q <- b.queue :: q in a.queue || q.0 == norm;
  }

  lemma EntailsSelfAndNothing(c: string)
    ensures Entails(c, c) && Entails(c, "")
  {
    BlankHasNoClauses("");
  }

  lemma GrowsTransitive(a: Agenda, b: Agenda, c: Agenda)
    requires Grows(a, b) && Grows(b, c)
    ensures Grows(a, c)
  {
    hide Entails;
    forall n <- a.constraints ensures n in c.constraints && Entails(c.constraints[n], a.constraints[n]) {
      EntailsTransitive(c.constraints[n], b.constraints[n], a.constraints[n]);
    }
    forall n <- c.constraints
      ensures c.Queued(n) || (n in a.constraints && a.constraints[n] == c.constraints[n])
    {
      if b.Queued(n) {
        QueuedStays(b, c, n);
      }
    }
  }

  lemma QueuedStays(a: Agenda, b: Agenda, n: string)
    requires a.queue <= b.queue && a.Queued(n)
    ensures b.Queued(n)
  {
    var entry :| entry in a.queue && entry.0 == n;
    assert entry in b.queue;
  }

  lemma {:induction false} DemandAllGrows(a: Agenda, deps: seq<Dep>)
    requires WellNamed(a) && CleanDeps(deps)
    ensures var b := DemandAll(a, deps);
            WellNamed(b) && Grows(a, b) && forall d <- deps :: Demanded(b.constraints, d)
    decreases deps
  {
    hide Entails, Demand;
    if deps == [] {
      forall c: string ensures Entails(c, c) {
        EntailsSelfAndNothing(c);
      }
    } else {
      var next, b := Demand(a, deps[0]), DemandAll(a, deps);
      DemandGrows(a, deps[0]);
      DemandAllGrows(next, deps[1..]);
      GrowsTransitive(a, next, b);
      forall d <- deps ensures Demanded(b.constraints, d) {
        if d == deps[0] {
          DemandedStays(b.constraints, next.constraints, d);
        } else {
          assert d in deps[1..];
        }
      }
    }
  }

  // ----- one step ----------------------------------------------------------

  lemma JustifiedStays(w: World, name: string, pin: Pin, strong: string, weak: string)
    requires Justified(w, name, pin, weak) && Entails(strong, weak)
    ensures Justified(w, name, pin, strong)
  {
    hide Satisfies, Entails, SourceNames, RhoaiNames, NotAbove, Recorded;
    forall v | Meets(v, strong) ensures Meets(v, weak) {
      EntailsMeets(v, strong, weak);
    }
  }

  lemma DictsAreValid(w: World, name: string)
    ensures RhoaiVersions(w.rhoai, name).Ok? ==> RhoaiVersions(w.rhoai, name).value.Valid()
    ensures PypiVersions(w.pypi, name).Ok? ==> PypiVersions(w.pypi, name).value.Valid()
  {
  }

  /** What the two-index choice guarantees. */
  lemma ChoiceIsJustified(w: World, name: string, constraint: string)
    requires Choose(w, name, constraint).Ok?
    ensures var pin := Choose(w, name, constraint).value;
            Justified(w, name, pin, constraint) && Meets(pin.version, constraint)
  {
    hide BestOf, Satisfies, NotAbove, RhoaiVersions, PypiVersions;
    DictsAreValid(w, name);
    var rhoai := RhoaiVersions(w.rhoai, name);
    BestOfIsHighest(rhoai.value.order, constraint);
    if Choose(w, name, constraint).value.origin.FromPypi? {
      BestOfIsHighest(PypiVersions(w.pypi, name).value.order, constraint);
    }
  }

  /** Growing the agenda keeps the invariant. */
  lemma GrowthKeepsInv(w: World, directs: seq<Dep>, s: State, extra: set<string>, b: Agenda)
    requires InvExcept(w, directs, s, extra) && Grows(s.agenda, b) && WellNamed(b)
    ensures InvExcept(w, directs, s.(agenda := b), extra)
  {
    hide Entails, Justified, Satisfies, Requirements;
    var a := s.agenda;
    forall n <- s.resolved ensures Justified(w, n, s.resolved[n], b.constraints[n]) {
      JustifiedStays(w, n, s.resolved[n], b.constraints[n], a.constraints[n]);
    }
    forall n <- b.constraints
      ensures Pending(b, extra, n) || (n in s.resolved && Meets(s.resolved[n].version, b.constraints[n]))
    {
      if a.Queued(n) {
        QueuedStays(a, b, n);
      }
    }
    forall d: Dep | Demanded(a.constraints, d) ensures Demanded(b.constraints, d) {
      DemandedStays(b.constraints, a.constraints, d);
    }
    forall v, n <- a.constraints | Meets(v, b.constraints[n]) ensures Meets(v, a.constraints[n]) {
      EntailsMeets(v, b.constraints[n], a.constraints[n]);
    }
  }

  lemma RetiredIgnoresQueue(s: State)
    requires s.agenda.queue != [] && Retired(s)
    ensures Retired(Pop(s))
  {
    hide Satisfies;
  }

  lemma PopKeepsInv(w: World, directs: seq<Dep>, s: State)
    requires Inv(w, directs, s) && s.agenda.queue != []
    ensures var name := s.agenda.queue[0].0;
            NormalizeName(name) == name && name in s.agenda.constraints && InvExcept(w, directs, Pop(s), {name})
  {
    hide Entails, Justified, Satisfies, Requirements, Spread, Demanded, Retired, Pending;
    RetiredIgnoresQueue(s);
    PopLeavesPending(s);
    assert s.agenda.queue[0] in s.agenda.queue;
    assert forall entry <- Pop(s).agenda.queue :: entry in s.agenda.queue;
  }

  lemma PopLeavesPending(s: State)
    requires s.agenda.queue != []
    ensures forall n | Pending(s.agenda, {}, n) :: Pending(Pop(s).agenda, {s.agenda.queue[0].0}, n)
  {
    var q := s.agenda.queue;
    forall n | Pending(s.agenda, {}, n) ensures Pending(Pop(s).agenda, {q[0].0}, n) {
      var entry :| entry in q && entry.0 == n;
      assert entry == q[0] || entry in q[1..];
    }
  }

  /** An open package is neither pinned nor queued, and none of its visited versions will do. */
  ghost predicate Open(w: World, directs: seq<Dep>, s: State, name: string) {
    && InvExcept(w, directs, s, {name})
    && name !in s.resolved && name in s.agenda.constraints
  }

  /** An open package never gets back a version it was pinned to before. */
  lemma ChoiceIsUnvisited(w: World, directs: seq<Dep>, s: State, name: string)
    requires Open(w, directs, s, name) && Choose(w, name, s.agenda.constraints[name]).Ok?
    ensures PinKey(name, Choose(w, name, s.agenda.constraints[name]).value.version) !in s.visited
  {
    hide Choose, Satisfies, Justified, Entails, Requirements;
    ChoiceIsJustified(w, name, s.agenda.constraints[name]);
  }

  lemma SettleKeepsInv(w: World, directs: seq<Dep>, s: State, name: string)
    requires CleanWorld(w) && Open(w, directs, s, name) && Settle(w, s, name).Ok?
    ensures Inv(w, directs, Settle(w, s, name).value)
  {
    hide Choose, Satisfies, Justified, Entails, DemandAll;
    var t := Settle(w, s, name).value;
    var pin, constraint := t.resolved[name], s.agenda.constraints[name];
    ChoiceIsJustified(w, name, constraint);
    ChoiceIsUnvisited(w, directs, s, name);
    var deps := Requirements(w, name, pin.version);
    DemandAllGrows(s.agenda, deps);
    GrowthKeepsInv(w, directs, s, {name}, t.agenda);
    JustifiedStays(w, name, pin, t.agenda.constraints[name], constraint);
    forall n, v | CleanName(n) && PinKey(n, v) in t.visited && PinKey(n, v) !in s.visited
      ensures n == name && v == pin.version
    {
      PinKeyInjective(n, v, name, pin.version);
    }
    PlacedKeepsInv(w, directs, s.(agenda := t.agenda), t, name);
  }

  /** Pinning the open package closes it. */
  lemma PlacedKeepsInv(w: World, directs: seq<Dep>, s: State, t: State, name: string)
    requires Open(w, directs, s, name) && t.agenda == s.agenda
    requires name in t.resolved && t.resolved == s.resolved[name := t.resolved[name]]
    requires t.visited == s.visited + {PinKey(name, t.resolved[name].version)}
    requires forall n, v :: CleanName(n) && PinKey(n, v) in t.visited && PinKey(n, v) !in s.visited ==>
               n == name && v == t.resolved[name].version
    requires s.reasons.Keys <= t.reasons.Keys && (t.resolved[name].origin.FromPypi? ==> name in t.reasons)
    requires Justified(w, name, t.resolved[name], t.agenda.constraints[name])
    requires t.agenda.Queued(name) || Meets(t.resolved[name].version, t.agenda.constraints[name])
    requires forall d <- Requirements(w, name, t.resolved[name].version) :: Demanded(t.agenda.constraints, d)
    ensures Inv(w, directs, t)
  {
    PlacedKeepsRetired(w, directs, s, t, name);
    PlacedKeepsSpread(w, s, t, name);
    PlacedKeepsPins(w, directs, s, t, name);
    PlacedLeavesPending(w, directs, s, t, name);
    OpenParts(w, directs, s, name);
    hide *;
    InvOfParts(w, directs, t);
  }

  lemma OpenParts(w: World, directs: seq<Dep>, s: State, name: string)
    requires Open(w, directs, s, name)
    ensures WellNamed(s.agenda) && forall d <- directs :: Demanded(s.agenda.constraints, d)
  {
    hide Justified, Demanded, Spread, Retired, PinKey, WellNamed, Pending, Meets;
  }

  lemma InvOfParts(w: World, directs: seq<Dep>, t: State)
    requires WellNamed(t.agenda) && Spread(w, t.agenda.constraints, t.visited) && Retired(t)
    requires forall n <- t.resolved ::
               && n in t.agenda.constraints
               && Justified(w, n, t.resolved[n], t.agenda.constraints[n])
               && PinKey(n, t.resolved[n].version) in t.visited
               && (t.resolved[n].origin.FromPypi? ==> n in t.reasons)
    requires forall n <- t.agenda.constraints ::
               Pending(t.agenda, {}, n) || (n in t.resolved && Meets(t.resolved[n].version, t.agenda.constraints[n]))
    requires forall d <- directs :: Demanded(t.agenda.constraints, d)
    ensures Inv(w, directs, t)
  {
    hide Justified, Demanded, Spread, Retired, PinKey, WellNamed, Pending, Meets;
  }

  lemma PlacedKeepsPins(w: World, directs: seq<Dep>, s: State, t: State, name: string)
    requires Open(w, directs, s, name) && t.agenda == s.agenda
    requires name in t.resolved && t.resolved == s.resolved[name := t.resolved[name]]
    requires t.visited == s.visited + {PinKey(name, t.resolved[name].version)}
    requires s.reasons.Keys <= t.reasons.Keys && (t.resolved[name].origin.FromPypi? ==> name in t.reasons)
    requires Justified(w, name, t.resolved[name], t.agenda.constraints[name])
    ensures forall n <- t.resolved ::
              && n in t.agenda.constraints
              && Justified(w, n, t.resolved[n], t.agenda.constraints[n])
              && PinKey(n, t.resolved[n].version) in t.visited
              && (t.resolved[n].origin.FromPypi? ==> n in t.reasons)
  {
    hide Justified, Demanded, Spread, Retired, PinKey, WellNamed, Pending, Meets;
  }

  lemma PlacedLeavesPending(w: World, directs: seq<Dep>, s: State, t: State, name: string)
    requires Open(w, directs, s, name) && t.agenda == s.agenda
    requires name in t.resolved && t.resolved == s.resolved[name := t.resolved[name]]
    requires t.agenda.Queued(name) || Meets(t.resolved[name].version, t.agenda.constraints[name])
    ensures forall n <- t.agenda.constraints ::
              Pending(t.agenda, {}, n) || (n in t.resolved && Meets(t.resolved[n].version, t.agenda.constraints[n]))
  {
    hide Justified, Demanded, Spread, Retired, PinKey, WellNamed, Meets;
  }

  lemma PlacedKeepsRetired(w: World, directs: seq<Dep>, s: State, t: State, name: string)
    requires Open(w, directs, s, name) && t.agenda == s.agenda
    requires name in t.resolved && t.resolved == s.resolved[name := t.resolved[name]]
    requires forall n, v :: CleanName(n) && PinKey(n, v) in t.visited && PinKey(n, v) !in s.visited ==>
               n == name && v == t.resolved[name].version
    ensures Retired(t)
  {
    hide Satisfies, Justified, Spread, Demanded, PinKey, NormalizeName, WellNamed;
  }

  lemma PlacedKeepsSpread(w: World, s: State, t: State, name: string)
    requires name in t.resolved && Spread(w, s.agenda.constraints, s.visited)
    requires t.agenda == s.agenda
    requires forall n, v :: CleanName(n) && PinKey(n, v) in t.visited && PinKey(n, v) !in s.visited ==>
               n == name && v == t.resolved[name].version
    requires forall d <- Requirements(w, name, t.resolved[name].version) :: Demanded(t.agenda.constraints, d)
    ensures Spread(w, t.agenda.constraints, t.visited)
  {
    hide Requirements, Demanded, PinKey;
  }

  /** A pin that violates its constraint can be taken back. */
  lemma ReleaseOpens(w: World, directs: seq<Dep>, s: State, name: string, reasons: map<string, Reason>)
    requires InvExcept(w, directs, s, {name}) && name in s.resolved
    requires !Meets(s.resolved[name].version, s.agenda.constraints[name])
    requires s.reasons.Keys <= reasons.Keys
    ensures Open(w, directs, s.(resolved := s.resolved - {name}, reasons := reasons), name)
  {
    hide Satisfies, Justified, Entails, Requirements, Demanded;
  }

  lemma UnsettledStepKeepsInv(w: World, directs: seq<Dep>, s: State, name: string)
    requires InvExcept(w, directs, s, {name}) && name in s.resolved
    requires Meets(s.resolved[name].version, s.agenda.constraints[name])
    ensures Inv(w, directs, s)
  {
    hide Satisfies, Justified, Entails, Requirements, Demanded;
  }

  /** Every step keeps the invariant. */
  lemma StepKeepsInv(w: World, directs: seq<Dep>, s: State)
    requires CleanWorld(w) && Inv(w, directs, s) && s.agenda.queue != [] && Step(w, s).Ok?
    ensures Inv(w, directs, Step(w, s).value)
  {
    hide Settle, Satisfies, Inv, InvExcept, NormalizeName, CleanWorld;
    PopKeepsInv(w, directs, s);
    var name, popped := s.agenda.queue[0].0, Pop(s);
    if name !in s.resolved {
      SettleKeepsInv(w, directs, popped, name);
    } else {
      var pin, constraint := s.resolved[name], s.agenda.constraints[name];
      if Satisfies(pin.version, constraint) == Ok(false) {
        var reasons := s.reasons[name := Abandoned(pin.version, constraint)];
        ReleaseOpens(w, directs, popped, name, reasons);
        SettleKeepsInv(w, directs, popped.(resolved := s.resolved - {name}, reasons := reasons), name);
      } else {
        UnsettledStepKeepsInv(w, directs, popped, name);
      }
    }
  }

  lemma StartHasInv(w: World, directs: seq<Dep>, reasons: map<string, Reason>)
    requires CleanDeps(directs)
    ensures Inv(w, directs, Start(directs, reasons))
  {
    hide Satisfies, Justified, Entails, Requirements;
    DemandAllGrows(Agenda(map[], []), directs);
  }
}
