/** What a finished run of the resolver guarantees, and what a failed one means. */
module ResolutionTheorems {
  import opened Wrappers
  import opened Versions
  import opened ConstraintLaws
  import opened Packages
  import opened Indexes
  import opened Resolution
  import opened ResolutionInvariant

  // ----- success -----------------------------------------------------------

  /** The requirement's package is pinned, to a version that meets it. */
  predicate Fulfilled(resolved: map<string, Pin>, dep: Dep) {
    var norm := NormalizeName(dep.0);
    norm in resolved && Meets(resolved[norm].version, dep.1)
  }

  /** PyPI lists the requirement for that release. */
  predicate Lists(w: World, name: string, version: string, dep: Dep) {
    (name, version) in w.pypi.requires_ && dep in w.pypi.requires_[(name, version)]
  }

  lemma ListedAreRequired(w: World, name: string, version: string, dep: Dep)
    ensures dep in Requirements(w, name, version) <==> Lists(w, name, version, dep)
  {
  }

  /** The pin is a highest version of its index under the constraint, and it is from PyPI only if RHOAI
      has no version that would do. */
  ghost predicate Optimal(w: World, name: string, pin: Pin, constraint: string) {
    && Recorded(w, name, pin)
    && Highest(pin.version, SourceNames(w, name, pin), constraint)
    && (pin.origin.FromPypi? ==> RhoaiVersions(w.rhoai, name).Ok? && NoneMeets(RhoaiNames(w, name), constraint))
  }

  ghost predicate Sound(w: World, directs: seq<Dep>, s: State) {
    && s.resolved.Keys == s.agenda.constraints.Keys
    && (forall n <- s.resolved :: Normalized(n))
    && (forall n <- s.resolved :: Optimal(w, n, s.resolved[n], s.agenda.constraints[n]))
    && (forall d <- directs :: Fulfilled(s.resolved, d))
    && (forall n <- s.resolved :: forall d: Dep | Lists(w, n, s.resolved[n].version, d) :: Fulfilled(s.resolved, d))
    && (forall n <- s.resolved :: s.resolved[n].origin.FromPypi? ==> n in s.reasons)
  }

  lemma {:induction false} RunKeepsInv(w: World, directs: seq<Dep>, s: State)
    requires CleanWorld(w) && Inv(w, directs, s) && Run(w, s).Ok?
    ensures Inv(w, directs, Run(w, s).value) && Run(w, s).value.agenda.queue == []
    decreases |Universe(w) - s.visited|, |s.agenda.queue|
  {
    hide Step, Inv, CleanWorld;
    if s.agenda.queue != [] {
      StepKeepsInv(w, directs, s);
      StepDecreases(w, s);
      RunKeepsInv(w, directs, Step(w, s).value);
    }
  }

  lemma DrainedIsSound(w: World, directs: seq<Dep>, s: State)
    requires CleanWorld(w) && Inv(w, directs, s) && s.agenda.queue == []
    ensures Sound(w, directs, s)
  {
    hide Satisfies, Entails, SourceNames, RhoaiNames, NotAbove, Requirements, Recorded, Lists;
    forall n, v, d: Dep ensures d in Requirements(w, n, v) <==> Lists(w, n, v, d) {
      ListedAreRequired(w, n, v, d);
    }
    forall d: Dep | Demanded(s.agenda.constraints, d) ensures Fulfilled(s.resolved, d) {
      var norm := NormalizeName(d.0);
      EntailsMeets(s.resolved[norm].version, s.agenda.constraints[norm], d.1);
    }
  }

  /**
   * Optimality and closure: when resolution succeeds, every pin is a highest version of its index under
   * the FINAL constraint, RHOAI comes first, and every direct and listed requirement is fulfilled.
   */
  lemma ResolutionIsSound(w: World, directs: seq<Dep>, reasons: map<string, Reason>)
    requires CleanWorld(w) && CleanDeps(directs) && Run(w, Start(directs, reasons)).Ok?
    ensures Sound(w, directs, Run(w, Start(directs, reasons)).value)
  {
    hide Run, Start, Sound, Inv;
    StartHasInv(w, directs, reasons);
    RunKeepsInv(w, directs, Start(directs, reasons));
    DrainedIsSound(w, directs, Run(w, Start(directs, reasons)).value);
  }

  // ----- over a whole run --------------------------------------------------

  /** A PyPI pin is final: no later step changes its version or its source. */
  lemma StepKeepsPypiPin(w: World, s: State, name: string)
    requires s.agenda.queue != [] && Step(w, s).Ok?
    requires name in s.resolved && s.resolved[name].origin.FromPypi?
    ensures name in Step(w, s).value.resolved && Step(w, s).value.resolved[name] == s.resolved[name]
  {
    hide Choose, Satisfies, DemandAll, NoteFallback;
  }

  lemma {:induction false} RunKeepsPypiPin(w: World, s: State, name: string)
    requires Run(w, s).Ok? && name in s.resolved && s.resolved[name].origin.FromPypi?
    ensures name in Run(w, s).value.resolved && Run(w, s).value.resolved[name] == s.resolved[name]
    decreases |Universe(w) - s.visited|, |s.agenda.queue|
  {
    hide Step;
    if s.agenda.queue != [] {
      StepKeepsPypiPin(w, s, name);
      StepDecreases(w, s);
      RunKeepsPypiPin(w, Step(w, s).value, name);
    }
  }

  lemma StepTightens(w: World, directs: seq<Dep>, s: State)
    requires CleanWorld(w) && Inv(w, directs, s) && s.agenda.queue != [] && Step(w, s).Ok?
    ensures Tighter(Step(w, s).value.agenda.constraints, s.agenda.constraints)
    ensures s.visited <= Step(w, s).value.visited
  {
    hide Choose, Satisfies, DemandAll, NoteFallback, Justified, Entails, Spread, Retired;
    PopKeepsInv(w, directs, s);
    var name, a := s.agenda.queue[0].0, Pop(s).agenda;
    forall c: string ensures Entails(c, c) {
      EntailsSelfAndNothing(c);
    }
    var choice := Choose(w, name, a.ConstraintOf(name));
    if choice.Ok? {
      DemandAllGrows(a, Requirements(w, name, choice.value.version));
    }
  }

  /** Constraints only ever tighten over a run. */
  lemma {:induction false} RunTightens(w: World, directs: seq<Dep>, s: State)
    requires CleanWorld(w) && Inv(w, directs, s) && Run(w, s).Ok?
    ensures Tighter(Run(w, s).value.agenda.constraints, s.agenda.constraints)
    decreases |Universe(w) - s.visited|, |s.agenda.queue|
  {
    hide Step, Inv, CleanWorld, Entails;
    if s.agenda.queue == [] {
      forall c: string ensures Entails(c, c) {
        EntailsSelfAndNothing(c);
      }
    } else {
      var t := Step(w, s).value;
      StepTightens(w, directs, s);
      StepKeepsInv(w, directs, s);
      StepDecreases(w, s);
      RunTightens(w, directs, t);
      var last := Run(w, s).value.agenda.constraints;
      forall n <- s.agenda.constraints ensures n in last && Entails(last[n], s.agenda.constraints[n]) {
        EntailsTransitive(last[n], t.agenda.constraints[n], s.agenda.constraints[n]);
      }
    }
  }

  /** A version that was visited and then given up never comes back. */
  lemma AbandonedStaysAbandoned(w: World, directs: seq<Dep>, s: State, name: string, version: string)
    requires CleanWorld(w) && Inv(w, directs, s) && Run(w, s).Ok?
    requires CleanName(name) && PinKey(name, version) in s.visited
    requires name !in s.resolved || s.resolved[name].version != version
    ensures var last := Run(w, s).value.resolved;
            name in last && last[name].version != version
  {
    hide Run, Satisfies, Entails, Justified, Spread, CleanWorld;
    RunKeepsInv(w, directs, s);
    RunTightens(w, directs, s);
    var last := Run(w, s).value;
    if Meets(version, last.agenda.constraints[name]) {
      EntailsMeets(version, last.agenda.constraints[name], s.agenda.constraints[name]);
    }
  }

  // ----- why packages are not from RHOAI -----------------------------------

  /** What a recorded reason says is so, for the constraint that held then and every later one. */
  ghost predicate TrueReason(w: World, constraints: map<string, string>, name: string, reason: Reason) {
    match reason
    case NotInRhoai => name !in w.rhoai.known
    case NoneSatisfies(c) =>
      && name in w.rhoai.known && NoneMeets(RhoaiNames(w, name), c)
      && name in constraints && Entails(constraints[name], c)
    case Abandoned(v, c) =>
      && v in RhoaiNames(w, name) && !Meets(v, c) && name in constraints && Entails(constraints[name], c)
  }

  ghost predicate TrueReasons(w: World, s: State) {
    forall n <- s.reasons :: TrueReason(w, s.agenda.constraints, n, s.reasons[n])
  }

  lemma ReasonStaysTrue(w: World, strong: map<string, string>, weak: map<string, string>, name: string, reason: Reason)
    requires Tighter(strong, weak) && TrueReason(w, weak, name, reason)
    ensures TrueReason(w, strong, name, reason)
  {
    hide Entails, Satisfies;
    if name in weak && !reason.NotInRhoai? {
      EntailsTransitive(strong[name], weak[name], reason.constraint);
    }
  }

  /** A turn records at most one reason, for the package it handles. */
  lemma ReasonOfStep(w: World, s: State)
    requires s.agenda.queue != [] && Step(w, s).Ok?
    ensures var name := NormalizeName(s.agenda.queue[0].0);
            var c, reasons := s.agenda.ConstraintOf(name), Step(w, s).value.reasons;
            || reasons == s.reasons
            || (name in s.resolved && s.resolved[name].origin.FromRhoai? && !Meets(s.resolved[name].version, c)
                && reasons == s.reasons[name := Abandoned(s.resolved[name].version, c)])
            || (Choose(w, name, c).Ok? && Choose(w, name, c).value.origin.FromPypi?
                && reasons == s.reasons[name := if name in w.rhoai.known then NoneSatisfies(c) else NotInRhoai])
  {
    hide Choose, Satisfies, DemandAll, NormalizeName, Requirements;
  }

  /** The reason a turn gives, for the constraint it found. */
  lemma NewReasonIsTrue(w: World, directs: seq<Dep>, s: State, name: string)
    requires CleanWorld(w) && Inv(w, directs, s) && s.agenda.queue != [] && Step(w, s).Ok?
    requires name in Step(w, s).value.reasons
    requires name in s.reasons ==> s.reasons[name] != Step(w, s).value.reasons[name]
    ensures TrueReason(w, s.agenda.constraints, name, Step(w, s).value.reasons[name])
  {
    hide Step, Satisfies, Entails, Spread, Retired, Choose, CleanWorld, RhoaiVersions;
    PopKeepsInv(w, directs, s);
    ReasonOfStep(w, s);
    var c := s.agenda.ConstraintOf(name);
    EntailsSelfAndNothing(c);
    if Choose(w, name, c).Ok? && Choose(w, name, c).value.origin.FromPypi? {
      NoRhoaiBest(w, name, c);
    }
  }

  lemma NoRhoaiBest(w: World, name: string, constraint: string)
    requires Choose(w, name, constraint).Ok? && Choose(w, name, constraint).value.origin.FromPypi?
    ensures NoneMeets(RhoaiNames(w, name), constraint)
  {
    hide Satisfies, Recorded;
    ChoiceIsJustified(w, name, constraint);
  }

  lemma StepKeepsReasons(w: World, directs: seq<Dep>, s: State)
    requires CleanWorld(w) && Inv(w, directs, s) && s.agenda.queue != [] && Step(w, s).Ok? && TrueReasons(w, s)
    ensures TrueReasons(w, Step(w, s).value)
  {
    var t := Step(w, s).value;
    StepTightens(w, directs, s);
    hide Step, Inv, TrueReason, CleanWorld, Tighter;
    forall n <- t.reasons ensures TrueReason(w, t.agenda.constraints, n, t.reasons[n]) {
      if n !in s.reasons || s.reasons[n] != t.reasons[n] {
        NewReasonIsTrue(w, directs, s, n);
      }
      ReasonStaysTrue(w, t.agenda.constraints, s.agenda.constraints, n, t.reasons[n]);
    }
  }

  /** Every reason recorded in a run is true of the indexes and of the final constraints. */
  lemma {:induction false} RunKeepsReasons(w: World, directs: seq<Dep>, s: State)
    requires CleanWorld(w) && Inv(w, directs, s) && Run(w, s).Ok? && TrueReasons(w, s)
    ensures TrueReasons(w, Run(w, s).value)
    decreases |Universe(w) - s.visited|, |s.agenda.queue|
  {
    hide Step, Inv, CleanWorld, TrueReasons;
    if s.agenda.queue != [] {
      StepKeepsReasons(w, directs, s);
      StepKeepsInv(w, directs, s);
      StepDecreases(w, s);
      RunKeepsReasons(w, directs, Step(w, s).value);
    }
  }

  /** A fresh resolver ends with a reason for every PyPI package, and its reasons are true. */
  lemma ReasonsAreTrue(w: World, directs: seq<Dep>)
    requires CleanWorld(w) && CleanDeps(directs) && Run(w, Start(directs, map[])).Ok?
    ensures var s := Run(w, Start(directs, map[])).value;
            && TrueReasons(w, s)
            && forall n <- s.resolved :: s.resolved[n].origin.FromPypi? ==> n in s.reasons
  {
    ResolutionIsSound(w, directs, map[]);
    StartHasInv(w, directs, map[]);
    hide Inv, Run, DemandAll, Optimal, Fulfilled;
    RunKeepsReasons(w, directs, Start(directs, map[]));
  }

  // ----- where constraints come from ---------------------------------------

  /** A direct dependency, or something required by a version that was pinned at some time. */
  ghost predicate Asked(w: World, directs: seq<Dep>, visited: set<string>, dep: Dep) {
    dep in directs || exists n, v :: CleanName(n) && PinKey(n, v) in visited && Lists(w, n, v, dep)
  }

  /** Some requirement on the package was asked for. */
  ghost predicate Wanted(w: World, directs: seq<Dep>, visited: set<string>, name: string) {
    exists dep: Dep :: NormalizeName(dep.0) == name && Asked(w, directs, visited, dep)
  }

  /** Some requirement on the package, holding this clause, was asked for. */
  ghost predicate ClauseAsked(w: World, directs: seq<Dep>, visited: set<string>, name: string, clause: string) {
    exists dep: Dep :: NormalizeName(dep.0) == name && clause in Clauses(dep.1) && Asked(w, directs, visited, dep)
  }

  /** No constraint and no package without somebody asking for it. */
  ghost predicate Grounded(w: World, directs: seq<Dep>, a: Agenda, visited: set<string>) {
    forall n <- a.constraints ::
      && Wanted(w, directs, visited, n)
      && forall c <- Clauses(a.constraints[n]) :: ClauseAsked(w, directs, visited, n, c)
  }

  lemma DemandIsGrounded(w: World, directs: seq<Dep>, a: Agenda, visited: set<string>, dep: Dep)
    requires Grounded(w, directs, a, visited) && Asked(w, directs, visited, dep)
    ensures Grounded(w, directs, Demand(a, dep), visited)
  {
    hide Asked, Clauses;
    var norm, b := NormalizeName(dep.0), Demand(a, dep);
    assert Wanted(w, directs, visited, norm);
    BlankHasNoClauses("");
    if dep.1 != "" && norm in a.constraints && a.constraints[norm] != "" {
      ClausesOfMerge(a.constraints[norm], dep.1);
    }
    forall c <- Clauses(b.constraints[norm]) ensures ClauseAsked(w, directs, visited, norm, c) {
      assert c in Clauses(dep.1) || (norm in a.constraints && c in Clauses(a.constraints[norm]));
    }
  }

  lemma {:induction false} DemandAllIsGrounded(w: World, directs: seq<Dep>, a: Agenda, visited: set<string>,
                                               deps: seq<Dep>)
    requires Grounded(w, directs, a, visited) && forall d <- deps :: Asked(w, directs, visited, d)
    ensures Grounded(w, directs, DemandAll(a, deps), visited)
    decreases deps
  {
    hide Grounded, Asked, Demand;
    if deps != [] {
      DemandIsGrounded(w, directs, a, visited, deps[0]);
      DemandAllIsGrounded(w, directs, Demand(a, deps[0]), visited, deps[1..]);
    }
  }

  lemma MoreVisitedKeepsGrounded(w: World, directs: seq<Dep>, a: Agenda, visited: set<string>, more: set<string>)
    requires Grounded(w, directs, a, visited) && visited <= more
    ensures Grounded(w, directs, a, more)
  {
    hide Clauses, Requirements;
    forall n <- a.constraints ensures Wanted(w, directs, more, n) {
      var dep: Dep :| NormalizeName(dep.0) == n && Asked(w, directs, visited, dep);
      assert Asked(w, directs, more, dep);
    }
    forall n <- a.constraints, c <- Clauses(a.constraints[n]) ensures ClauseAsked(w, directs, more, n, c) {
      var dep: Dep :| NormalizeName(dep.0) == n && c in Clauses(dep.1) && Asked(w, directs, visited, dep);
      assert Asked(w, directs, more, dep);
    }
  }

  lemma StepKeepsGrounded(w: World, directs: seq<Dep>, s: State)
    requires Inv(w, directs, s) && Grounded(w, directs, s.agenda, s.visited)
    requires s.agenda.queue != [] && Step(w, s).Ok?
    ensures var t := Step(w, s).value; Grounded(w, directs, t.agenda, t.visited)
  {
    hide Step, Inv, Grounded, Asked, CleanName, Requirements, DemandAll, Pop;
    FirstIsClean(w, directs, s);
    PopKeepsGrounded(w, directs, s);
    var t := Step(w, s).value;
    var version := StepDemands(w, s);
    MoreVisitedKeepsGrounded(w, directs, Pop(s).agenda, s.visited, t.visited);
    if version.Some? {
      var name := NormalizeName(s.agenda.queue[0].0);
      RequirementsAreAsked(w, directs, t.visited, name, version.value);
      DemandAllIsGrounded(w, directs, Pop(s).agenda, t.visited, Requirements(w, name, version.value));
    }
  }

  /** A step demands what a visited version of the first package requires, or nothing. */
  lemma StepDemands(w: World, s: State) returns (version: Option<string>)
    requires s.agenda.queue != [] && Step(w, s).Ok?
    ensures s.visited <= Step(w, s).value.visited
    ensures var t, name := Step(w, s).value, NormalizeName(s.agenda.queue[0].0);
            if version.None? then t.agenda == Pop(s).agenda
            else PinKey(name, version.value) in t.visited
                 && t.agenda == DemandAll(Pop(s).agenda, Requirements(w, name, version.value))
  {
    hide Choose, Satisfies, DemandAll, NoteFallback, Requirements, NormalizeName, PinKey;
    var name, t := NormalizeName(s.agenda.queue[0].0), Step(w, s).value;
    if t.agenda == Pop(s).agenda {
      version := None;
    } else {
      version := Some(Choose(w, name, Pop(s).agenda.ConstraintOf(name)).value.version);
    }
  }

  lemma FirstIsClean(w: World, directs: seq<Dep>, s: State)
    requires Inv(w, directs, s) && s.agenda.queue != []
    ensures var name := s.agenda.queue[0].0; NormalizeName(name) == name && CleanName(name)
  {
    hide Spread, Retired, Demanded, Justified, NormalizeName, CleanName;
    PopKeepsInv(w, directs, s);
  }

  lemma PopKeepsGrounded(w: World, directs: seq<Dep>, s: State)
    requires s.agenda.queue != [] && Grounded(w, directs, s.agenda, s.visited)
    ensures Grounded(w, directs, Pop(s).agenda, s.visited)
  {
    hide Wanted, ClauseAsked, Clauses;
  }

  /** What a visited version requires is asked for. */
  lemma RequirementsAreAsked(w: World, directs: seq<Dep>, visited: set<string>, name: string, version: string)
    requires CleanName(name) && PinKey(name, version) in visited
    ensures forall d <- Requirements(w, name, version) :: Asked(w, directs, visited, d)
  {
    hide Requirements, CleanName, PinKey, Lists;
    forall d: Dep ensures d in Requirements(w, name, version) <==> Lists(w, name, version, d) {
      ListedAreRequired(w, name, version, d);
    }
  }

  lemma {:induction false} RunKeepsGrounded(w: World, directs: seq<Dep>, s: State)
    requires CleanWorld(w) && Inv(w, directs, s) && Grounded(w, directs, s.agenda, s.visited) && Run(w, s).Ok?
    ensures var t := Run(w, s).value; Grounded(w, directs, t.agenda, t.visited)
    decreases |Universe(w) - s.visited|, |s.agenda.queue|
  {
    hide Step, Inv, CleanWorld, Grounded;
    if s.agenda.queue != [] {
      StepKeepsInv(w, directs, s);
      StepKeepsGrounded(w, directs, s);
      StepDecreases(w, s);
      RunKeepsGrounded(w, directs, Step(w, s).value);
    }
  }

  /**
   * The final constraints are exactly what was asked for: a clause constrains a package if and only if a
   * direct dependency or a version that was pinned along the way asked for it. Versions given up later count too.
   */
  lemma ConstraintsAreWhatWasAsked(w: World, directs: seq<Dep>, reasons: map<string, Reason>)
    requires CleanWorld(w) && CleanDeps(directs) && Run(w, Start(directs, reasons)).Ok?
    ensures var t := Run(w, Start(directs, reasons)).value;
            && (forall n :: n in t.resolved <==> Wanted(w, directs, t.visited, n))
            && (forall n <- t.agenda.constraints, c ::
                  c in Clauses(t.agenda.constraints[n]) <==> ClauseAsked(w, directs, t.visited, n, c))
  {
    hide Run, Clauses, Justified, Satisfies, Requirements, Retired, Lists;
    var s := Start(directs, reasons);
    StartHasInv(w, directs, reasons);
    DemandAllIsGrounded(w, directs, Agenda(map[], []), {}, directs);
    RunKeepsInv(w, directs, s);
    RunKeepsGrounded(w, directs, s);
    ResolutionIsSound(w, directs, reasons);
    var t := Run(w, s).value;
    forall n, v, d: Dep ensures d in Requirements(w, n, v) <==> Lists(w, n, v, d) {
      ListedAreRequired(w, n, v, d);
    }
    forall dep: Dep | Asked(w, directs, t.visited, dep) ensures Demanded(t.agenda.constraints, dep) {
    }
  }

  // ----- failure -----------------------------------------------------------

  /** What each error says about the state it arose in. */
  ghost predicate Explained(w: World, s: State, e: ResolveError) {
    match e
    case Raised(_) => true
    case FetchFailed(n) =>
      n !in w.pypi.pages && RhoaiVersions(w.rhoai, n).Ok? && NoneMeets(RhoaiNames(w, n), s.agenda.ConstraintOf(n))
    case Unresolvable(n, c) =>
      && n in s.agenda.constraints && c == s.agenda.constraints[n]
      && RhoaiVersions(w.rhoai, n).Ok? && NoneMeets(RhoaiNames(w, n), c)
      && n in w.pypi.pages && NoneMeets(PypiNames(w, n), c)
    case Conflict(n, v, c) =>
      && n in s.agenda.constraints && c == s.agenda.constraints[n] && !Meets(v, c)
      && n in s.resolved && s.resolved[n].version == v && s.resolved[n].origin.FromPypi?
      && NoneMeets(RhoaiNames(w, n), c)
  }

  lemma ChoiceFailure(w: World, name: string, constraint: string)
    requires Choose(w, name, constraint).Err?
    ensures match Choose(w, name, constraint).error
            case Raised(_) => true
            case FetchFailed(n) =>
              n == name && n !in w.pypi.pages && RhoaiVersions(w.rhoai, n).Ok?
                && NoneMeets(RhoaiNames(w, n), constraint)
            case Unresolvable(n, c) =>
              && n == name && c == constraint && RhoaiVersions(w.rhoai, n).Ok? && NoneMeets(RhoaiNames(w, n), c)
              && n in w.pypi.pages && NoneMeets(PypiNames(w, n), c)
            case Conflict(_, _, _) => false
  {
    hide BestOf, Satisfies, NotAbove, RhoaiVersions, FileEntries;
    var rhoai := RhoaiVersions(w.rhoai, name);
    if rhoai.Ok? && BestOf(rhoai.value.order, constraint).Ok? {
      BestOfIsHighest(rhoai.value.order, constraint);
    }
    if name in w.pypi.pages && BestOf(PypiVersions(w.pypi, name).value.order, constraint).Ok? {
      BestOfIsHighest(PypiVersions(w.pypi, name).value.order, constraint);
    }
  }

  lemma PypiPinHasNoRhoai(w: World, directs: seq<Dep>, s: State, name: string)
    requires Inv(w, directs, s) && name in s.resolved && s.resolved[name].origin.FromPypi?
    ensures name in s.agenda.constraints && NoneMeets(RhoaiNames(w, name), s.agenda.constraints[name])
  {
    hide Satisfies, Spread, Retired, Entails, SourceNames, Recorded;
  }

  lemma StepErrors(w: World, s: State)
    requires s.agenda.queue != [] && Step(w, s).Err?
    ensures var name, e := NormalizeName(s.agenda.queue[0].0), Step(w, s).error;
            var constraint := s.agenda.ConstraintOf(name);
            || e.Raised?
            || Choose(w, name, constraint) == Err(e)
            || (name in s.resolved && s.resolved[name].origin.FromPypi?
                && !Meets(s.resolved[name].version, constraint)
                && e == Conflict(name, s.resolved[name].version, constraint))
  {
    hide Choose, Satisfies, DemandAll, NoteFallback, NormalizeName;
  }

  lemma StepFailure(w: World, directs: seq<Dep>, s: State)
    requires Inv(w, directs, s) && s.agenda.queue != [] && Step(w, s).Err?
    ensures Explained(w, s, Step(w, s).error)
  {
    hide Inv, InvExcept, Step, Choose, Satisfies, NoneMeets, RhoaiNames, PypiNames, NormalizeName;
    PopKeepsInv(w, directs, s);
    StepErrors(w, s);
    var name := s.agenda.queue[0].0;
    if Choose(w, name, s.agenda.ConstraintOf(name)).Err? {
      ChoiceFailure(w, name, s.agenda.ConstraintOf(name));
    }
    if name in s.resolved && s.resolved[name].origin.FromPypi? {
      PypiPinHasNoRhoai(w, directs, s, name);
    }
  }

  /** `t` is what the loop has made of `s` after that many turns. */
  predicate Reaches(w: World, s: State, t: State, turns: nat)
    decreases turns
  {
    if turns == 0 then t == s
    else
      s.agenda.queue != [] &&
      match Step(w, s)
      case Ok(next) => Reaches(w, next, t, turns - 1)
      case Err(_) => false
  }

  /**
   * A failed run failed in a reachable state that explains the error: a package is reported unresolvable
   * only if no version in either index meets its constraint, and a conflict is a PyPI pin that violates
   * a constraint no RHOAI version meets.
   */
  lemma {:induction false} RunFailure(w: World, directs: seq<Dep>, s: State) returns (t: State, turns: nat)
    requires CleanWorld(w) && Inv(w, directs, s) && Run(w, s).Err?
    ensures Reaches(w, s, t, turns) && Run(w, t) == Run(w, s)
    ensures Inv(w, directs, t) && t.agenda.queue != [] && Step(w, t) == Err(Run(w, s).error)
    ensures Explained(w, t, Run(w, s).error)
    decreases |Universe(w) - s.visited|, |s.agenda.queue|
  {
    hide Step, Inv, CleanWorld, Explained;
    if Step(w, s).Err? {
      t, turns := s, 0;
      StepFailure(w, directs, s);
    } else {
      StepKeepsInv(w, directs, s);
      StepDecreases(w, s);
      t, turns := RunFailure(w, directs, Step(w, s).value);
      turns := turns + 1;
    }
  }
}
