/** The resolver as a state machine: one step per queue entry, and a run until the queue is empty. */
module Resolution {
  import opened Wrappers
  import opened Versions
  import opened Packages
  import opened Indexes

  datatype World = World(rhoai: RhoaiSite, pypi: PypiSite)

  type Dep = (string, string)

  datatype Origin = FromRhoai(platforms: Platforms) | FromPypi(info: PypiInfo)

  datatype Pin = Pin(version: string, origin: Origin)

  /** Why a package was not taken from RHOAI. */
  datatype Reason = NotInRhoai | NoneSatisfies(constraint: string) | Abandoned(version: string, constraint: string)

  /** Constraints collected so far, and the packages still to be looked at. */
  datatype Agenda = Agenda(constraints: map<string, string>, queue: seq<Dep>) {
    function Lookup(name: string): Option<string> {
      if name in constraints then Some(constraints[name]) else None
    }

    function ConstraintOf(name: string): string {
      if name in constraints then constraints[name] else ""
    }

    predicate Queued(name: string) {
      exists entry <- queue :: entry.0 == name
    }
  }

  datatype State = State(resolved: map<string, Pin>, agenda: Agenda, visited: set<string>,
                         reasons: map<string, Reason>)

  // ----- transitions -------------------------------------------------------

  /** Record one requirement and queue its package. */
  function Demand(a: Agenda, dep: Dep): Agenda {
    var norm := NormalizeName(dep.0);
    var constraint := if dep.1 != "" then MergeConstraints(a.Lookup(norm), dep.1) else a.ConstraintOf(norm);
    Agenda(a.constraints[norm := constraint], a.queue + [(norm, constraint)])
  }

  function DemandAll(a: Agenda, deps: seq<Dep>): Agenda
    decreases deps
  {
    if deps == [] then a else DemandAll(Demand(a, deps[0]), deps[1..])
  }

  function Start(directs: seq<Dep>, reasons: map<string, Reason>): State {
    State(map[], DemandAll(Agenda(map[], []), directs), {}, reasons)
  }

  /** RHOAI first, PyPI only when RHOAI has nothing that satisfies the constraint. */
  function Choose(w: World, name: string, constraint: string): Result<Pin, ResolveError> {
    match RhoaiBest(w.rhoai, name, constraint)
    case Err(e) => Err(Raised(e))
    case Ok(Some((version, platforms))) => Ok(Pin(version, FromRhoai(platforms)))
    case Ok(None) =>
      var best :- PypiBest(w.pypi, name, constraint);
      match best
      case None => Err(Unresolvable(name, constraint))
      case Some((version, info)) => Ok(Pin(version, FromPypi(info)))
  }

  function NoteFallback(w: World, reasons: map<string, Reason>, name: string, pin: Pin, constraint: string)
    : map<string, Reason>
  {
    if pin.origin.FromRhoai? || name in reasons then reasons
    else reasons[name := if name in w.rhoai.known then NoneSatisfies(constraint) else NotInRhoai]
  }

  function Requirements(w: World, name: string, version: string): seq<Dep> {
    if (name, version) in w.pypi.requires_ then w.pypi.requires_[(name, version)] else []
  }

  /** Pin a package that has no pin and, the first time for this version, queue what it requires. */
  function Settle(w: World, s: State, name: string): Result<State, ResolveError> {
    var constraint := s.agenda.ConstraintOf(name);
    var pin :- Choose(w, name, constraint);
    var key := PinKey(name, pin.version);
    Ok(State(s.resolved[name := pin],
             if key in s.visited then s.agenda else DemandAll(s.agenda, Requirements(w, name, pin.version)),
             s.visited + {key},
             NoteFallback(w, s.reasons, name, pin, constraint)))
  }

  function Pop(s: State): State
    requires s.agenda.queue != []
  {
    s.(agenda := s.agenda.(queue := s.agenda.queue[1..]))
  }

  /** Handle the first queue entry. */
  function Step(w: World, s: State): Result<State, ResolveError>
    requires s.agenda.queue != []
  {
    var name := NormalizeName(s.agenda.queue[0].0);
    var popped := Pop(s);
    if name !in s.resolved then Settle(w, popped, name)
    else
      var pin, constraint := s.resolved[name], s.agenda.ConstraintOf(name);
      match Satisfies(pin.version, constraint)
      case Err(e) => Err(Raised(e))
      case Ok(true) => Ok(popped)
      case Ok(false) =>
        if pin.origin.FromPypi? then Err(Conflict(name, pin.version, constraint))
        else Settle(w, popped.(resolved := s.resolved - {name},
                               reasons := s.reasons[name := Abandoned(pin.version, constraint)]), name)
  }

  // ----- termination -------------------------------------------------------

  /** Every pin the two indexes could ever give. */
  function Universe(w: World): set<string> {
    (set n, e | n in w.rhoai.pages && e in w.rhoai.pages[n] :: PinKey(n, e.version))
    + (set n, e | n in w.pypi.pages && e in w.pypi.pages[n] :: PinKey(n, e.version))
  }

  lemma ChosenIsInUniverse(w: World, name: string, constraint: string)
    requires Choose(w, name, constraint).Ok?
    ensures PinKey(name, Choose(w, name, constraint).value.version) in Universe(w)
  {
    hide BestOf, EntryFits, RhoaiVersions, PypiVersions;
    var pin := Choose(w, name, constraint).value;
    RhoaiVersionsAreTheCompatible(w.rhoai, name);
    BestOfIsHighest(RhoaiVersions(w.rhoai, name).value.order, constraint);
    if pin.origin.FromPypi? {
      PypiOfNamed(w.pypi, name);
      PypiVersionsAreTheListed(w.pypi, name);
      BestOfIsHighest(PypiVersions(w.pypi, name).value.order, constraint);
    }
  }

  lemma PypiOfNamed(site: PypiSite, name: string)
    ensures PypiVersions(site, name).Ok? <==> name in site.pages
  {
  }

  /** A step either shortens the queue or visits a pin it has not visited before. */
  lemma StepProgress(w: World, s: State)
    requires s.agenda.queue != [] && Step(w, s).Ok?
    ensures var t := Step(w, s).value;
            || (t.visited == s.visited && |t.agenda.queue| < |s.agenda.queue|)
            || exists key :: key in Universe(w) && key !in s.visited && t.visited == s.visited + {key}
  {
    hide Choose, Satisfies, Universe;
    var name := NormalizeName(s.agenda.queue[0].0);
    var t := Step(w, s).value;
    if t != Pop(s) {
      ChosenIsInUniverse(w, name, s.agenda.ConstraintOf(name));
      var key := PinKey(name, Choose(w, name, s.agenda.ConstraintOf(name)).value.version);
      assert t.visited == s.visited + {key};
      if key in s.visited {
        assert t.visited == s.visited;
      }
    }
  }

  lemma StepDecreases(w: World, s: State)
    requires s.agenda.queue != [] && Step(w, s).Ok?
    ensures var t := Step(w, s).value;
            || |Universe(w) - t.visited| < |Universe(w) - s.visited|
            || (t.visited == s.visited && |t.agenda.queue| < |s.agenda.queue|)
  {
    hide Step, Universe;
    StepProgress(w, s);
    var t := Step(w, s).value;
    if t.visited != s.visited {
      var key :| key in Universe(w) && key !in s.visited && t.visited == s.visited + {key};
      assert Universe(w) - s.visited == (Universe(w) - t.visited) + {key};
    }
  }

  /** Steps until the queue is empty or one raises. It always comes to an end. */
  function Run(w: World, s: State): Result<State, ResolveError>
    decreases |Universe(w) - s.visited|, |s.agenda.queue|
  {
    if s.agenda.queue == [] then Ok(s)
    else
      var t :- Step(w, s);
      StepDecreases(w, s);
      Run(w, t)
  }
}
